# Verified model of a to-do list application

A Dafny model of the logic of a small Next.js to-do list application that
keeps its data on a hosted backend (Supabase). The model covers four parts:

- **Route guard** (`route_guard.dfy`, module `RouteGuard`). It is the request
  gate in `middleware.ts`. From session presence and the pathname it decides
  whether to pass the request through, redirect to `/login` or redirect to `/`.
  A matcher pattern picks the paths the gate runs on.
- **List/item store** (`list_service.dfy`, module `ListService`). The `lists`
  and `items` tables are a class `Store` with two sequence fields.
  - The read queries `getLists` and `getListWithItems` are functions that
    read the store.
  - The writes are methods: `createList`, `updateList`, the two-step cascade
    `deleteList`, `addItem`, `updateItem` and `deleteItem`.
  - Each remote call gets its outcome as a parameter (`fail`). So do the row
    id and `created_at` that the server assigns.
- **Session manager** (`auth.dfy`, module `Auth`). It models the `user` and
  `isLoading` state of `contexts/auth-context.tsx`. It also keeps the ordered
  log `sent` of remote requests the context issues. Through that log the
  contracts can say which calls happen, for example that no profile insert
  follows a failed sign-up. Replies of the auth service and of the `profiles`
  table are parameters of type `Reply<T> = Ok(value) | Err(message)`.
- **List page** (`list_page.dfy`, module `ListPage`). It models the page
  state of `app/page.tsx` as a class `ListApp`.
  - Each handler is a method that calls the `Store` method the handler calls,
    then updates the page's local copies the way the handler's updater would.
  - The updater lambdas (append, map by id, filter by id) are functions.
  - So is the display order `sortedItems`.

`common.dfy` holds `Option`, `Reply`, the blank-string test and JavaScript
truthiness on strings. `seqs.dfy` holds:

- generic `Filter` and `MapSeq`, which stand for `Array.prototype.filter`
  and `.map`;
- a stable insertion sort `SortBy` on an integer key, which stands for both
  `Array.prototype.sort` and the database's `order("created_at")`.

Things the model brings out:

- **Stable partition.** The comparator of `sortedItems` sorts incomplete items
  first. `Array.prototype.sort` is stable, as ECMA-262 requires from the 10th
  edition (section 22.1.3.27). So the display order is the incomplete items in
  their order, followed by the completed items in their order
  (`SortIsStablePartition`).
- **A failed fetch creates a second default list.** `getLists` turns a backend
  error into `[]`. `fetchLists` then creates a default list "Minha Lista",
  even if the user already has lists. The contract of `ListApp.FetchLists`
  states this.
- **Deleting the last list leaves a stale id.** When the active list was the
  last one, `handleDeleteList` clears `activeList` but leaves `activeListId`
  as it was.
- **The favicon exclusion is a regex wildcard.** In the matcher, the `.` of
  `favicon.ico` is unescaped, so it matches any character. The model keeps
  that (`WildcardDotInMatcher`).

- **A failed items query drops the `items` field.** When the items query
  fails, `getListWithItems` returns the list row as it was read, with no
  `items` field (services/list-service.ts:54-57); here that is
  `items == None`, and the page then shows no items.

## Model

| member | source | states |
|---|---|---|
| RouteGuard.Decide | middleware.ts:15-25 | a redirect only ever targets "/login" or "/", and never happens on "/auth/callback" |
| RouteGuard.NoSessionRedirect | middleware.ts:15-16 | without a session the result is a redirect to "/login" exactly when the path is not "/login", "/register" or "/auth/callback"; it is never a redirect to "/" |
| RouteGuard.SessionRedirect | middleware.ts:21-22 | with a session the result is a redirect to "/" exactly on "/login" and "/register"; it is never a redirect to "/login" |
| RouteGuard.CallbackAlwaysPasses | middleware.ts:15-22 | "/auth/callback" passes with and without a session |
| RouteGuard.PassExactly | middleware.ts:15-25 | the request passes exactly when neither redirect condition holds, so the two conditions and pass-through cover all pairs |
| RouteGuard.NoRedirectLoop | middleware.ts:15-22 | under the same session state the target of a redirect is itself passed |
| RouteGuard.PrefixIsNotMembership | middleware.ts:15-21 | membership is whole-path equality: "/login/x" and "/auth/callback/" are protected, "/register/x" is not auth-only |
| RouteGuard.Middleware | middleware.ts:28-30 | a redirect happens only on a path that starts with "/" and whose remainder begins with none of the matcher's excluded alternatives; it is then the guard's decision and targets "/login" or "/"; every path under an excluded alternative passes; and conversely every path that starts with "/" and begins with no excluded alternative gets exactly the guard's decision |
| RouteGuard.ProtectedPathsRedirect | middleware.ts:15-30 | every path the matcher covers other than "/login", "/register" and "/auth/callback" sends a visitor without a session to "/login" |
| RouteGuard.AuthOnlyPathsRedirect | middleware.ts:21-30 | "/login" and "/register" send a visitor with a session to "/" |
| RouteGuard.AssetsSkipGuard | middleware.ts:29 | every path starting "/_next/static", "/_next/image" or "/favicon.ico" passes, whatever the session |
| RouteGuard.PagesAreGuarded | middleware.ts:29 | "/", "/login", "/profile" and "/_next/data/x" are guarded; "/" without a session goes to "/login", "/login" with one goes to "/" |
| RouteGuard.WildcardDotInMatcher | middleware.ts:29 | the unescaped `.` also exempts "/faviconXico" from the guard |
| ListService.OwnedBy | services/list-service.ts:26 | exactly the rows whose user id is the given one |
| ListService.ListsWithId | services/list-service.ts:40 | exactly the list rows with the given id |
| ListService.ItemsOf | services/list-service.ts:51 | exactly the item rows with the given list id |
| ListService.WithoutList | services/list-service.ts:104 | exactly the list rows whose id differs from the deleted one |
| ListService.WithoutItem | services/list-service.ts:151 | exactly the item rows whose id differs from the deleted one |
| ListService.WithoutItemsOf | services/list-service.ts:96 | exactly the item rows of other lists |
| ListService.RenameList | services/list-service.ts:83 | same length; rows with the id get the new name and keep id, owner and creation time; all other rows are unchanged |
| ListService.ApplyPatch | services/list-service.ts:139 | only the supplied fields change; id, list, owner and creation time are kept |
| ListService.PatchItems | services/list-service.ts:139 | same length; the patch applies to rows with the id and to no other row |
| ListService.EmptyPatchIsIdentity | services/list-service.ts:139 | an update with no fields changes nothing |
| ListService.WithoutListKeepsOrder | app/page.tsx:163 | removing a list distributes over concatenation, so the remaining lists keep their relative order |
| ListService.WithoutListHead | app/page.tsx:163-169 | a first list with another id stays first after the removal, and a first list with the removed id is dropped, so `newLists[0]` is the first other list |
| ListService.WithoutItemKeepsOrder | services/list-service.ts:151 | removing an item distributes over concatenation, so the rest keep their relative order |
| ListService.WithoutItemIdempotent | services/list-service.ts:151 | deleting the same item twice equals deleting it once |
| ListService.CascadeDeleteComplete | services/list-service.ts:94-112 | after both deletes no item of the list and no list with that id remain, and every other row remains |
| ListService.Store.GetLists | services/list-service.ts:22-35 | on error `[]`; otherwise a permutation of the user's rows, ascending by `created_at` |
| ListService.Store.GetListsMembers | services/list-service.ts:22-35 | a successful `getLists` holds exactly the user's lists |
| ListService.Store.GetListWithItems | services/list-service.ts:38-63 | `None` exactly on a lookup error or when not exactly one row has the id; the row without `items` exactly when the items query fails; otherwise a permutation of the list's items, ascending by `created_at` |
| ListService.Store.GetListWithItemsMembers | services/list-service.ts:48-62 | the attached items are exactly the rows with that `list_id` |
| ListService.Store.CreateList | services/list-service.ts:66-79 | on success returns the new row with the given name and owner, appended to `lists`; on error returns `None` and `lists` is unchanged; no item becomes orphaned |
| ListService.Store.UpdateList | services/list-service.ts:82-91 | returns `!fail`; on success only the named rows are renamed; on error nothing changes; no item becomes orphaned |
| ListService.RenameKeepsIds | services/list-service.ts:83 | renaming keeps the set of list ids |
| ListService.Store.DeleteList | services/list-service.ts:94-112 | a failed items delete returns false with both tables untouched; a failed list delete returns false with the items already gone; on success both are removed; the no-orphan invariant is kept |
| ListService.Store.AddItem | services/list-service.ts:115-135 | on success appends and returns an item with the text, list, owner and `completed = false`; on error returns `None` and the items are unchanged |
| ListService.Store.UpdateItem | services/list-service.ts:138-147 | returns `!fail`; on success only the supplied fields of the row with the id change |
| ListService.Store.DeleteItem | services/list-service.ts:150-159 | returns `!fail`; on success only the row with the id is removed |
| Auth.LocalPart | contexts/auth-context.tsx:71 | a prefix of the email with no "@", followed in the email by "@" unless it is the whole email |
| Auth.LocalPartUnique | contexts/auth-context.tsx:71 | those three facts determine `split("@")[0]` uniquely |
| Auth.LocalPartExample | contexts/auth-context.tsx:105 | "a@b.com" gives "a"; an email without "@" gives itself |
| Auth.DeriveUser | contexts/auth-context.tsx:68-73 | id is the session's; email is the session's or ""; the name is the profile name if truthy, else a non-empty local part of the email, else "User", so it is never empty; photoURL is the profile's `avatar_url` |
| Auth.DefaultName | contexts/auth-context.tsx:105-117 | the given name if truthy, else the local part of the email |
| Auth.ErrorText | contexts/auth-context.tsx:89 | the backend message if non-empty, else the fallback; never empty |
| Auth.Failure | contexts/auth-context.tsx:86-90 | an unsuccessful result whose error is the backend message, or the fallback when the message is empty |
| Auth.MergeProfile | contexts/auth-context.tsx:189 | supplied fields override; id, email and the fields not supplied are kept |
| Auth.MergeEmptyPatch | contexts/auth-context.tsx:189 | merging an empty update leaves the user unchanged |
| Auth.AuthContext.constructor | contexts/auth-context.tsx:27-28 | no user, `isLoading` true, no request issued |
| Auth.AuthContext.SetUserFromSession | contexts/auth-context.tsx:59-74 | no session clears the user with no remote call; otherwise the profile is read and the user is the derived one |
| Auth.AuthContext.BeginInitialSession | contexts/auth-context.tsx:33-42 | as written: `isLoading` ends false; with a session the user is still the old one while the profile fetch is pending |
| Auth.AuthContext.FinishInitialSession | contexts/auth-context.tsx:65-73 | the pending derivation, once the profile arrives, sets the derived user |
| Auth.AuthContext.LoadInitialSession | contexts/auth-context.tsx:33-42 | with the derivation awaited: `isLoading` ends false and the user is present exactly when a session is, and is then the derived user |
| Auth.AuthContext.Login | contexts/auth-context.tsx:76-92 | one password sign-in; success on `Ok`, else failure with the message or "Falha ao fazer login"; the user is not changed here |
| Auth.AuthContext.Register | contexts/auth-context.tsx:94-132 | sign-up carries the default name; a failed sign-up returns failure and issues no profile insert; a returned user gets a profile insert with the same name; a failed insert returns failure after the identity exists |
| Auth.AuthContext.UpdateProfile | contexts/auth-context.tsx:164-198 | no user: failure "Usuário não autenticado" and no remote call; the auth name update is sent only for a truthy name; success exactly when every step succeeded, and only then is the user merged; any failure leaves the user unchanged with a non-empty error |
| Auth.AuthContext.Logout | contexts/auth-context.tsx:200-203 | signs out and leaves no user whatever the prior state, so a second call leaves the same user state |
| ListPage.AppendItem | app/page.tsx:100-107 | with an active list the items are the earlier ones (or none) followed by the new item; without one, nothing |
| ListPage.RenameActive | app/page.tsx:141-143 | renames the active list only when it is the edited one; its items are kept |
| ListPage.RetextItems | app/page.tsx:197 | same length and order; only items with the id get the new text |
| ListPage.ToggleItems | app/page.tsx:245 | same length and ids; only items with the id have `completed` flipped |
| ListPage.ToggleTwice | app/page.tsx:245 | toggling the same item twice restores the items |
| ListPage.ToggleMatchesStore | app/page.tsx:236-245 | when the flag passed in agrees with the local item, the local flip equals the update sent to the store |
| ListPage.RetextActive | app/page.tsx:192-199 | an active list stays present and an absent one absent; the list row and the presence of `items` are kept; item by item, the edited item gets the new text and every other item is kept |
| ListPage.DropFromActive | app/page.tsx:220-227 | an active list stays present and an absent one absent; the list row and the presence of `items` are kept; the items are exactly the old items whose id differs from the deleted one |
| ListPage.ToggleInActive | app/page.tsx:240-247 | an active list stays present and an absent one absent; the list row and the presence of `items` are kept; item by item, the toggled item's `completed` flag is flipped and every other item is kept |
| ListPage.CompareCompletion | app/page.tsx:287-290 | negative exactly when the first item is incomplete and the second completed, positive exactly in the reverse case, zero when both have the same flag |
| ListPage.SortedItems | app/page.tsx:286-291 | `[]` without an active list or its `items` field; otherwise as many items as the list has, with no completed item before an incomplete one |
| ListPage.ComparatorIsKeyOrder | app/page.tsx:287-290 | the comparator's sign is the order of the keys "incomplete = 0, completed = 1" |
| ListPage.SortIsStablePartition | app/page.tsx:286-291 | the sorted items are the incomplete items in order followed by the completed items in order |
| ListPage.SortedItemsPermutation | app/page.tsx:286-291 | the sorted items are a permutation of the active list's items |
| ListPage.SortedItemsOpenFirst | app/page.tsx:286-291 | every incomplete item precedes every completed one |
| ListPage.SortedItemsStable | app/page.tsx:286-291 | relative order within each completion group is preserved |
| ListPage.SortedItemsEmpty | app/page.tsx:291 | without an active list or its `items` field nothing is shown |
| ListPage.SortedItemsExample | app/page.tsx:286-291 | flags [false, true, false, true] are shown as items 0, 2, 1, 3 |
| ListPage.PushesLogin | app/page.tsx:50-54 | the page pushes "/login" exactly when loading has ended and there is no user: never while loading, never with a user |
| ListPage.InitialSessionAsWritten | contexts/auth-context.tsx:39-41 | a visitor with a session is pushed to "/login" by the page effect before the profile fetch completes |
| ListPage.InitialSessionAwaited | app/page.tsx:50-54 | with the derivation awaited, the page pushes "/login" exactly when there is no session |
| ListPage.ListApp.constructor | app/page.tsx:34-47 | the initial page state |
| ListPage.ListApp.FetchLists | app/page.tsx:58-77 | with fetched lists they become the local copy and the first is active; with none (fetch failed or empty) a default "Minha Lista" is created and becomes the sole and active list; if that creation fails the copy is empty |
| ListPage.ListApp.FetchActiveList | app/page.tsx:84-89 | with an active id and a user the active list is the store's `getListWithItems` result; otherwise it is unchanged |
| ListPage.ListApp.HandleAddItem | app/page.tsx:94-112 | nothing happens for blank input, no user or no active id; otherwise the raw text is sent, a created item is appended locally, and the input is cleared even on failure |
| ListPage.ListApp.HandleCreateList | app/page.tsx:114-125 | a non-blank name that the store accepts is appended and made active and the form is reset; on failure `lists`, `newListName` and `isCreatingList` are unchanged |
| ListPage.ListApp.SaveEditingList | app/page.tsx:132-148 | blank name or no edited id: nothing changes; otherwise a successful rename renames in the store, in `lists` and in the active list, and editing ends even on failure |
| ListPage.ListApp.HandleDeleteList | app/page.tsx:158-178 | on success the list leaves `lists`; deleting the active list makes the first remaining one active, or clears the active list when none remains; other deletes leave the active id; `deleteListId` is cleared either way |
| ListPage.ListApp.SaveEditingItem | app/page.tsx:186-204 | blank text keeps editing mode and changes nothing; otherwise a successful update changes only that item's text, locally and in the store |
| ListPage.ListApp.HandleDeleteItem | app/page.tsx:214-232 | on success only that item is removed, locally and in the store; `deleteItemId` is cleared either way |
| ListPage.ListApp.ToggleItemCompletion | app/page.tsx:234-250 | the store receives `!completed`; on success the local item's own flag flips |

## Findings

| source | as written | input that shows it | evidently intended | confidence | as-written member | corrected member |
|---|---|---|---|---|---|---|
| contexts/auth-context.tsx:39-41 | `setUserFromSession(session)` is not awaited, so `setIsLoading(false)` runs while the profile fetch is pending and `user` is still null | a visitor with a valid session opens "/"; the page's effect sees `!isLoading && !user` and pushes "/login" | clear `isLoading` only after the user has been derived | medium, not executed | ListPage.InitialSessionAsWritten | ListPage.InitialSessionAwaited |

`Auth.AuthContext.BeginInitialSession` and `FinishInitialSession` model the
two halves of the code as written. `Auth.AuthContext.LoadInitialSession` is
the corrected one.

## Left out

- `googleAuth` and `app/auth/callback/route.ts`: an OAuth redirect and a code exchange, both foreign calls, followed by an unconditional redirect home.
- The `onAuthStateChange` subscription, overlapping requests and races between handlers: each handler runs to completion on its own.
- `console.error` logging, `router.push` navigation and real timestamps: `created_at` is an integer parameter.
- `trim()`'s Unicode whitespace set: `IsBlank` treats only space, tab, newline and carriage return as blank.
- Row-level security, foreign keys and other server-side checks: they show up only as the `fail` outcome of a call.
- `return data || []` and `items || []` when the backend returns null data without an error.
- Fields of `Partial<TodoItem>` other than `text` and `completed`, and fields of `Partial<AuthUser>` other than `name` and `photoURL`: the application sends no others.
- The small UI setters (`startEditingList`, `confirmDeleteList`, `cancelEditingItem`, input typing and so on): the page state fields are public and callers assign them directly.
- Next.js path normalisation before the matcher runs, and line terminators, which `.*` does not match.
- ListService.Store.GetLists: rows with equal `created_at` keep their table order; the database leaves that order unspecified.
- ListService.Store.GetListWithItems: items with equal `created_at` keep their table order, for the same reason.
