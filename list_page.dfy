/** The list page of app/page.tsx: its local copies of the user's lists and
    of the active list, the handlers that call the store and then update
    those copies, and the display order of the active list's items. */
module ListPage {
  import opened Common
  import opened Seqs
  import opened ListService
  import Auth

  const DefaultListName: string := "Minha Lista"

  // ---- Updaters of the local copies

  /** `[...(prev.items || []), newItemObj]`: appended at the end. */
  function AppendItem(active: Option<ListWithItems>, it: Item): (r: Option<ListWithItems>)
    ensures r.Some? <==> active.Some?
    ensures r.Some? ==> r.value.list == active.value.list && r.value.items.Some?
    ensures r.Some? ==>
      var before := active.value.items.GetOr([]);
      var after := r.value.items.value;
      |after| == |before| + 1 && after[..|before|] == before && after[|before|] == it
  {
    match active
    case None => None
    case Some(l) => Some(l.(items := Some(l.items.GetOr([]) + [it])))
  }

  /** The active list renamed when it is the edited one. */
  function RenameActive(active: Option<ListWithItems>, listId: string, name: string): (r: Option<ListWithItems>)
    ensures r.Some? <==> active.Some?
    ensures active.Some? && active.value.list.id == listId ==>
      r.value.list == active.value.list.(name := name) && r.value.items == active.value.items
    ensures !(active.Some? && active.value.list.id == listId) ==> r == active
  {
    if active.Some? && active.value.list.id == listId
    then Some(active.value.(list := active.value.list.(name := name)))
    else active
  }

  /** `prev.items.map(item => item.id === id ? { ...item, text } : item)`. */
  function RetextItems(items: seq<Item>, itemId: string, text: string): (r: seq<Item>)
    ensures |r| == |items|
    ensures forall i :: 0 <= i < |items| ==> r[i] == (if items[i].id == itemId then items[i].(text := text) else items[i])
  {
    PatchItems(items, itemId, ItemPatch(Some(text), None))
  }

  /** `prev.items.map(item => item.id === id ? { ...item, completed: !item.completed } : item)`. */
  function ToggleItems(items: seq<Item>, itemId: string): (r: seq<Item>)
    ensures |r| == |items|
    ensures forall i :: 0 <= i < |items| ==> r[i].id == items[i].id
    ensures forall i :: 0 <= i < |items| && items[i].id == itemId ==>
      r[i] == items[i].(completed := !items[i].completed)
    ensures forall i :: 0 <= i < |items| && items[i].id != itemId ==> r[i] == items[i]
  {
    MapSeq(items, (it: Item) => if it.id == itemId then it.(completed := !it.completed) else it)
  }

  /** Toggling the same item twice restores the items. */
  lemma ToggleTwice(items: seq<Item>, itemId: string)
    ensures ToggleItems(ToggleItems(items, itemId), itemId) == items
  {
    var once := ToggleItems(items, itemId);
    var twice := ToggleItems(once, itemId);
    forall i | 0 <= i < |items| ensures twice[i] == items[i] {
      assert once[i].id == items[i].id;
    }
  }

  /** When the flag the handler received agrees with the local copy, the
      local toggle is the update the store applied. */
  lemma ToggleMatchesStore(items: seq<Item>, itemId: string, completed: bool)
    requires forall i :: 0 <= i < |items| && items[i].id == itemId ==> items[i].completed == completed
    ensures ToggleItems(items, itemId) == PatchItems(items, itemId, ItemPatch(None, Some(!completed)))
  {
    var a := ToggleItems(items, itemId);
    var b := PatchItems(items, itemId, ItemPatch(None, Some(!completed)));
    forall i | 0 <= i < |items| ensures a[i] == b[i] {
      if items[i].id == itemId {
        assert b[i] == ApplyPatch(items[i], ItemPatch(None, Some(!completed)));
      }
    }
  }

  /** The item-level updates of the active list; a list whose `items` field
      is missing is left alone. */
  function RetextActive(active: Option<ListWithItems>, itemId: string, text: string): (r: Option<ListWithItems>)
    ensures r.Some? <==> active.Some?
    ensures r.Some? ==> r.value.list == active.value.list
    ensures r.Some? ==> (r.value.items.Some? <==> active.value.items.Some?)
    ensures r.Some? && r.value.items.Some? ==>
      var before, after := active.value.items.value, r.value.items.value;
      |after| == |before| &&
      forall i :: 0 <= i < |before| ==>
        after[i] == (if before[i].id == itemId then before[i].(text := text) else before[i])
  {
    if active.Some? && active.value.items.Some?
    then Some(active.value.(items := Some(RetextItems(active.value.items.value, itemId, text))))
    else active
  }

  function DropFromActive(active: Option<ListWithItems>, itemId: string): (r: Option<ListWithItems>)
    ensures r.Some? <==> active.Some?
    ensures r.Some? ==> r.value.list == active.value.list
    ensures r.Some? ==> (r.value.items.Some? <==> active.value.items.Some?)
    ensures r.Some? && r.value.items.Some? ==>
      forall it :: it in r.value.items.value <==> it in active.value.items.value && it.id != itemId
  {
    if active.Some? && active.value.items.Some?
    then Some(active.value.(items := Some(WithoutItem(active.value.items.value, itemId))))
    else active
  }

  function ToggleInActive(active: Option<ListWithItems>, itemId: string): (r: Option<ListWithItems>)
    ensures r.Some? <==> active.Some?
    ensures r.Some? ==> r.value.list == active.value.list
    ensures r.Some? ==> (r.value.items.Some? <==> active.value.items.Some?)
    ensures r.Some? && r.value.items.Some? ==>
      var before, after := active.value.items.value, r.value.items.value;
      |after| == |before| &&
      forall i :: 0 <= i < |before| ==>
        after[i] == (if before[i].id == itemId then before[i].(completed := !before[i].completed) else before[i])
  {
    if active.Some? && active.value.items.Some?
    then Some(active.value.(items := Some(ToggleItems(active.value.items.value, itemId))))
    else active
  }

  // ---- Display order: `[...items].sort(comparator)`

  /** The comparator of `sortedItems`. */
  function CompareCompletion(a: Item, b: Item): (r: int)
    ensures r < 0 <==> !a.completed && b.completed
    ensures r > 0 <==> a.completed && !b.completed
    ensures r == 0 <==> a.completed == b.completed
  {
    if a.completed == b.completed then 0 else if a.completed then 1 else -1
  }

  /** Completed items sort after incomplete ones. */
  function CompletionKey(it: Item): int {
    if it.completed then 1 else 0
  }

  predicate IsOpen(it: Item) { !it.completed }
  predicate IsDone(it: Item) { it.completed }

  /** The comparator orders items exactly as their keys do, so a stable
      sort with it is `SortBy` on the key. */
  lemma ComparatorIsKeyOrder(a: Item, b: Item)
    ensures CompareCompletion(a, b) < 0 <==> CompletionKey(a) < CompletionKey(b)
    ensures CompareCompletion(a, b) == 0 <==> CompletionKey(a) == CompletionKey(b)
    ensures CompareCompletion(a, b) > 0 <==> CompletionKey(a) > CompletionKey(b)
  {
  }

  /** `sortedItems`: the active list's items in display order, or `[]`.
      `Array.prototype.sort` is stable (ECMA-262, 10th edition, section
      22.1.3.27), which `SortBy` is too. */
  function SortedItems(active: Option<ListWithItems>): (r: seq<Item>)
    ensures !(active.Some? && active.value.items.Some?) ==> r == []
    ensures active.Some? && active.value.items.Some? ==> |r| == |active.value.items.value|
    ensures SortedBy(r, CompletionKey)
  {
    if active.Some? && active.value.items.Some?
    then
      SortBySorted(active.value.items.value, CompletionKey);
      SortByPermutation(active.value.items.value, CompletionKey);
      assert |multiset(SortBy(active.value.items.value, CompletionKey))| == |multiset(active.value.items.value)|;
      SortBy(active.value.items.value, CompletionKey)
    else []
  }

  /** A completed item inserted into "open items, then done items" lands
      between the two groups. */
  lemma {:induction false} InsertDoneItem(x: Item, open: seq<Item>, done: seq<Item>)
    requires x.completed
    requires forall i :: 0 <= i < |open| ==> !open[i].completed
    requires forall i :: 0 <= i < |done| ==> done[i].completed
    ensures InsertBy(x, open + done, CompletionKey) == open + [x] + done
  {
    if open == [] {
      assert open + done == done;
    } else {
      assert (open + done)[0] == open[0];
      assert (open + done)[1..] == open[1..] + done;
      InsertDoneItem(x, open[1..], done);
      assert open == [open[0]] + open[1..];
    }
  }

  /** One step of the partition proof, for an incomplete first item. */
  lemma PartitionStepOpen(items: seq<Item>)
    requires items != [] && !items[0].completed
    requires SortBy(items[1..], CompletionKey) == Filter(items[1..], IsOpen) + Filter(items[1..], IsDone)
    ensures SortBy(items, CompletionKey) == Filter(items, IsOpen) + Filter(items, IsDone)
  {
    var x, rest := items[0], items[1..];
    var open, done := Filter(rest, IsOpen), Filter(rest, IsDone);
    assert Filter(items, IsOpen) == [x] + open;
    assert Filter(items, IsDone) == done;
    assert InsertBy(x, open + done, CompletionKey) == [x] + (open + done);
    AppendAssoc([x], open, done);
  }

  /** One step of the partition proof, for a completed first item. */
  lemma PartitionStepDone(items: seq<Item>)
    requires items != [] && items[0].completed
    requires SortBy(items[1..], CompletionKey) == Filter(items[1..], IsOpen) + Filter(items[1..], IsDone)
    ensures SortBy(items, CompletionKey) == Filter(items, IsOpen) + Filter(items, IsDone)
  {
    var x, rest := items[0], items[1..];
    var open, done := Filter(rest, IsOpen), Filter(rest, IsDone);
    assert Filter(items, IsOpen) == open;
    assert Filter(items, IsDone) == [x] + done;
    FilterSatisfies(rest, IsOpen);
    FilterSatisfies(rest, IsDone);
    InsertDoneItem(x, open, done);
    AppendAssoc(open, [x], done);
  }

  /** The display order is the stable partition: the incomplete items in
      their order, then the completed items in their order. */
  lemma {:induction false} SortIsStablePartition(items: seq<Item>)
    ensures SortBy(items, CompletionKey) == Filter(items, IsOpen) + Filter(items, IsDone)
  {
    if items != [] {
      SortIsStablePartition(items[1..]);
      if items[0].completed {
        PartitionStepDone(items);
      } else {
        PartitionStepOpen(items);
      }
    }
  }

  /** `sortedItems` is a permutation of the active list's items. */
  lemma SortedItemsPermutation(l: ListRow, items: seq<Item>)
    ensures multiset(SortedItems(Some(ListWithItems(l, Some(items))))) == multiset(items)
  {
    SortByPermutation(items, CompletionKey);
  }

  /** In `sortedItems` every incomplete item precedes every completed one. */
  lemma SortedItemsOpenFirst(l: ListRow, items: seq<Item>)
    ensures var r := SortedItems(Some(ListWithItems(l, Some(items))));
      forall i, j :: 0 <= i < j < |r| && r[i].completed ==> r[j].completed
  {
    var r := SortBy(items, CompletionKey);
    SortBySorted(items, CompletionKey);
    assert forall i, j :: 0 <= i < j < |r| ==> CompletionKey(r[i]) <= CompletionKey(r[j]);
  }

  /** `sortedItems` keeps the relative order within each group. */
  lemma SortedItemsStable(l: ListRow, items: seq<Item>)
    ensures var r := SortedItems(Some(ListWithItems(l, Some(items))));
      Filter(r, IsOpen) == Filter(items, IsOpen) && Filter(r, IsDone) == Filter(items, IsDone)
  {
    var open, done := Filter(items, IsOpen), Filter(items, IsDone);
    SortIsStablePartition(items);
    FilterSatisfies(items, IsOpen);
    FilterSatisfies(items, IsDone);
    StableGroups(open, done);
  }

  /** Filtering "open items, then done items" by group gives each group. */
  lemma StableGroups(open: seq<Item>, done: seq<Item>)
    requires forall i :: 0 <= i < |open| ==> IsOpen(open[i])
    requires forall i :: 0 <= i < |done| ==> IsDone(done[i])
    ensures Filter(open + done, IsOpen) == open && Filter(open + done, IsDone) == done
  {
    FilterAppend(open, done, IsOpen);
    FilterKeepsAll(open, IsOpen);
    FilterDropsAll(done, IsOpen);
    FilterAppend(open, done, IsDone);
    FilterDropsAll(open, IsDone);
    FilterKeepsAll(done, IsDone);
  }

  /** Without an active list, or without its `items` field, nothing shows. */
  lemma SortedItemsEmpty(active: Option<ListWithItems>)
    requires active.None? || active.value.items.None?
    ensures SortedItems(active) == []
  {
  }

  /** Flags [false, true, false, true] are shown as items 0, 2, 1, 3. */
  lemma SortedItemsExample(l: ListRow, a: Item, b: Item, c: Item, d: Item)
    requires !a.completed && b.completed && !c.completed && d.completed
    ensures SortedItems(Some(ListWithItems(l, Some([a, b, c, d])))) == [a, c, b, d]
  {
    var s := [a, b, c, d];
    SortIsStablePartition(s);
    assert s[1..] == [b, c, d] && s[1..][1..] == [c, d] && s[1..][1..][1..] == [d];
    assert Filter([d], IsOpen) == [] && Filter([d], IsDone) == [d];
    assert Filter([c, d], IsOpen) == [c] && Filter([c, d], IsDone) == [d];
    assert Filter([b, c, d], IsOpen) == [c] && Filter([b, c, d], IsDone) == [b, d];
  }

  // ---- The page's initial-session redirect (app/page.tsx, first effect)

  /** `!isLoading && !user`: the page pushes "/login". */
  predicate PushesLogin(isLoading: bool, user: Option<Auth.AuthUser>)
    ensures isLoading ==> !PushesLogin(isLoading, user)
    ensures user.Some? ==> !PushesLogin(isLoading, user)
    ensures !isLoading && user.None? ==> PushesLogin(isLoading, user)
  {
    !isLoading && user.None?
  }

  /** With the context as written, a visitor who has a session is pushed
      to "/login" before the profile fetch completes. */
  method InitialSessionAsWritten(session: Auth.Session) returns (pushed: bool)
    ensures pushed
  {
    var auth := new Auth.AuthContext();
    auth.BeginInitialSession(Some(session));
    pushed := PushesLogin(auth.isLoading, auth.user);
  }

  /** With the derivation awaited, the page pushes "/login" exactly when
      there is no session. */
  method InitialSessionAwaited(session: Option<Auth.Session>, profile: Option<Auth.Profile>)
    returns (pushed: bool)
    ensures pushed <==> session.None?
  {
    var auth := new Auth.AuthContext();
    auth.LoadInitialSession(session, profile);
    pushed := PushesLogin(auth.isLoading, auth.user);
  }

  // ---- The page state

  class ListApp {
    var lists: seq<ListRow>
    var activeListId: string
    var activeList: Option<ListWithItems>
    var newItem: string
    var newListName: string
    var isCreatingList: bool
    var editingListId: Option<string>
    var editingListName: string
    var deleteListId: Option<string>
    var editingItemId: Option<string>
    var editingItemText: string
    var deleteItemId: Option<string>
    var listsLoading: bool

    /** The `useState` initial values. */
    constructor ()
      ensures lists == [] && activeListId == "" && activeList == None
      ensures newItem == "" && newListName == "" && !isCreatingList
      ensures editingListId == None && editingListName == "" && deleteListId == None
      ensures editingItemId == None && editingItemText == "" && deleteItemId == None
      ensures !listsLoading
    {
      lists, activeListId, activeList := [], "", None;
      newItem, newListName, isCreatingList := "", "", false;
      editingListId, editingListName, deleteListId := None, "", None;
      editingItemId, editingItemText, deleteItemId := None, "", None;
      listsLoading := false;
    }

    /** `fetchLists`: the user's lists become the local copy and the first
        one active; with none (including when the fetch failed) a default
        list is created and becomes the only and active list. */
    method FetchLists(store: Store, user: Option<Auth.AuthUser>, getFail: bool,
                      createFail: bool, newId: string, createdAt: int)
      modifies this`lists, this`activeListId, this`listsLoading, store`lists
      ensures user.None? ==> lists == old(lists) && activeListId == old(activeListId)
      ensures user.None? ==> store.lists == old(store.lists) && listsLoading == old(listsLoading)
      ensures user.Some? ==> !listsLoading
      ensures user.Some? && |old(store.GetLists(user.value.id, getFail))| > 0 ==>
        lists == old(store.GetLists(user.value.id, getFail)) && activeListId == lists[0].id &&
        store.lists == old(store.lists)
      ensures user.Some? && old(store.GetLists(user.value.id, getFail)) == [] && !createFail ==>
        var d := ListRow(newId, DefaultListName, user.value.id, createdAt);
        lists == [d] && activeListId == newId && store.lists == old(store.lists) + [d]
      ensures user.Some? && old(store.GetLists(user.value.id, getFail)) == [] && createFail ==>
        lists == [] && activeListId == old(activeListId) && store.lists == old(store.lists)
    {
      if user.Some? {
        listsLoading := true;
        var fetched := store.GetLists(user.value.id, getFail);
        lists := fetched;
        if |fetched| > 0 {
          activeListId := fetched[0].id;
        } else {
          var created := store.CreateList(DefaultListName, user.value.id, createFail, newId, createdAt);
          if created.Some? {
            lists := [created.value];
            activeListId := created.value.id;
          }
        }
        listsLoading := false;
      }
    }

    /** `fetchActiveList`: reloads the active list when an id is set. */
    method FetchActiveList(store: Store, user: Option<Auth.AuthUser>, listFail: bool, itemsFail: bool)
      modifies this`activeList
      ensures activeListId != "" && user.Some? ==>
        activeList == store.GetListWithItems(activeListId, listFail, itemsFail)
      ensures !(activeListId != "" && user.Some?) ==> activeList == old(activeList)
    {
      if activeListId != "" && user.Some? {
        activeList := store.GetListWithItems(activeListId, listFail, itemsFail);
      }
    }

    /** `handleAddItem`: sends the raw input text; the returned item is
        appended locally; the input is cleared whether or not the store
        succeeded. */
    method HandleAddItem(store: Store, user: Option<Auth.AuthUser>, fail: bool, newId: string, createdAt: int)
      modifies this`activeList, this`newItem, store`items
      ensures IsBlank(old(newItem)) || user.None? || activeListId == "" ==>
        newItem == old(newItem) && activeList == old(activeList) && store.items == old(store.items)
      ensures !IsBlank(old(newItem)) && user.Some? && activeListId != "" ==>
        var it := Item(newId, old(newItem), false, activeListId, user.value.id, createdAt);
        && newItem == ""
        && store.items == (if fail then old(store.items) else old(store.items) + [it])
        && activeList == (if fail then old(activeList) else AppendItem(old(activeList), it))
    {
      if !IsBlank(newItem) && user.Some? && activeListId != "" {
        var created := store.AddItem(newItem, activeListId, user.value.id, fail, newId, createdAt);
        if created.Some? {
          activeList := AppendItem(activeList, created.value);
        }
        newItem := "";
      }
    }

    /** `handleCreateList`: on success the new list is appended and made
        active and the form is reset; on failure nothing changes. */
    method HandleCreateList(store: Store, user: Option<Auth.AuthUser>, fail: bool, newId: string, createdAt: int)
      modifies this`lists, this`activeListId, this`newListName, this`isCreatingList, store`lists
      ensures IsBlank(old(newListName)) || user.None? || fail ==>
        lists == old(lists) && activeListId == old(activeListId) && newListName == old(newListName) &&
        isCreatingList == old(isCreatingList) && store.lists == old(store.lists)
      ensures !IsBlank(old(newListName)) && user.Some? && !fail ==>
        var l := ListRow(newId, old(newListName), user.value.id, createdAt);
        && lists == old(lists) + [l] && activeListId == newId
        && newListName == "" && !isCreatingList
        && store.lists == old(store.lists) + [l]
    {
      if !IsBlank(newListName) && user.Some? {
        var created := store.CreateList(newListName, user.value.id, fail, newId, createdAt);
        if created.Some? {
          lists := lists + [created.value];
          activeListId := created.value.id;
          newListName := "";
          isCreatingList := false;
        }
      }
    }

    /** `saveEditingList`: on success renames the list locally, in `lists`
        and in the active list; editing ends even on failure. */
    method SaveEditingList(store: Store, fail: bool)
      modifies this`lists, this`activeList, this`editingListId, store`lists
      ensures IsBlank(editingListName) || !Truthy(old(editingListId)) ==>
        lists == old(lists) && activeList == old(activeList) &&
        editingListId == old(editingListId) && store.lists == old(store.lists)
      ensures !IsBlank(editingListName) && Truthy(old(editingListId)) ==>
        var id := old(editingListId).value;
        && editingListId == None
        && store.lists == (if fail then old(store.lists) else RenameList(old(store.lists), id, editingListName))
        && lists == (if fail then old(lists) else RenameList(old(lists), id, editingListName))
        && activeList == (if fail then old(activeList) else RenameActive(old(activeList), id, editingListName))
    {
      if !IsBlank(editingListName) && Truthy(editingListId) {
        var id := editingListId.value;
        var ok := store.UpdateList(id, editingListName, fail);
        if ok {
          lists := RenameList(lists, id, editingListName);
          if activeList.Some? && activeList.value.list.id == id {
            activeList := RenameActive(activeList, id, editingListName);
          }
        }
        editingListId := None;
      }
    }

    /** `handleDeleteList`: on success the list leaves the local copy; when
        it was active, the first remaining list becomes active, or the
        active list is cleared when none remains. */
    method HandleDeleteList(store: Store, itemsFail: bool, listFail: bool)
      modifies this`lists, this`activeListId, this`activeList, this`deleteListId, store`lists, store`items
      ensures !Truthy(old(deleteListId)) ==>
        lists == old(lists) && activeListId == old(activeListId) && activeList == old(activeList) &&
        deleteListId == old(deleteListId) && store.lists == old(store.lists) && store.items == old(store.items)
      ensures Truthy(old(deleteListId)) ==> deleteListId == None
      ensures Truthy(old(deleteListId)) ==>
        store.items == (if itemsFail then old(store.items) else WithoutItemsOf(old(store.items), old(deleteListId).value))
      ensures Truthy(old(deleteListId)) ==>
        store.lists == (if itemsFail || listFail then old(store.lists) else WithoutList(old(store.lists), old(deleteListId).value))
      ensures Truthy(old(deleteListId)) && (itemsFail || listFail) ==>
        lists == old(lists) && activeListId == old(activeListId) && activeList == old(activeList)
      ensures Truthy(old(deleteListId)) && !itemsFail && !listFail ==>
        lists == WithoutList(old(lists), old(deleteListId).value)
      ensures Truthy(old(deleteListId)) && !itemsFail && !listFail && old(deleteListId).value != old(activeListId) ==>
        activeListId == old(activeListId) && activeList == old(activeList)
      ensures Truthy(old(deleteListId)) && !itemsFail && !listFail && old(deleteListId).value == old(activeListId) ==>
        if |lists| > 0 then activeListId == lists[0].id && activeListId != old(activeListId) && activeList == old(activeList)
        else activeList == None && activeListId == old(activeListId)
    {
      if Truthy(deleteListId) {
        var id := deleteListId.value;
        var ok := store.DeleteList(id, itemsFail, listFail);
        if ok {
          var remaining := WithoutList(lists, id);
          lists := remaining;
          if id == activeListId {
            if |remaining| > 0 {
              activeListId := remaining[0].id;
            } else {
              activeList := None;
            }
          }
        }
        deleteListId := None;
      }
    }

    /** `saveEditingItem`: on success changes the text of the edited item
        only; blank text keeps editing mode and changes nothing. */
    method SaveEditingItem(store: Store, fail: bool)
      modifies this`activeList, this`editingItemId, store`items
      ensures IsBlank(editingItemText) || !Truthy(old(editingItemId)) || old(activeList).None? ==>
        activeList == old(activeList) && editingItemId == old(editingItemId) && store.items == old(store.items)
      ensures !IsBlank(editingItemText) && Truthy(old(editingItemId)) && old(activeList).Some? ==>
        var id := old(editingItemId).value;
        && editingItemId == None
        && store.items == (if fail then old(store.items)
                           else PatchItems(old(store.items), id, ItemPatch(Some(editingItemText), None)))
        && activeList == (if fail then old(activeList) else RetextActive(old(activeList), id, editingItemText))
    {
      if !IsBlank(editingItemText) && Truthy(editingItemId) && activeList.Some? {
        var id := editingItemId.value;
        var ok := store.UpdateItem(id, ItemPatch(Some(editingItemText), None), fail);
        if ok {
          activeList := RetextActive(activeList, id, editingItemText);
        }
        editingItemId := None;
      }
    }

    /** `handleDeleteItem`: on success removes the item locally. */
    method HandleDeleteItem(store: Store, fail: bool)
      modifies this`activeList, this`deleteItemId, store`items
      ensures !Truthy(old(deleteItemId)) || old(activeList).None? ==>
        activeList == old(activeList) && deleteItemId == old(deleteItemId) && store.items == old(store.items)
      ensures Truthy(old(deleteItemId)) && old(activeList).Some? ==>
        var id := old(deleteItemId).value;
        && deleteItemId == None
        && store.items == (if fail then old(store.items) else WithoutItem(old(store.items), id))
        && activeList == (if fail then old(activeList) else DropFromActive(old(activeList), id))
    {
      if Truthy(deleteItemId) && activeList.Some? {
        var id := deleteItemId.value;
        var ok := store.DeleteItem(id, fail);
        if ok {
          activeList := DropFromActive(activeList, id);
        }
        deleteItemId := None;
      }
    }

    /** `toggleItemCompletion`: the store receives `!completed`; the local
        copy flips the item's own flag. */
    method ToggleItemCompletion(store: Store, itemId: string, completed: bool, fail: bool)
      modifies this`activeList, store`items
      ensures old(activeList).None? ==> activeList == old(activeList) && store.items == old(store.items)
      ensures old(activeList).Some? ==>
        && store.items == (if fail then old(store.items)
                           else PatchItems(old(store.items), itemId, ItemPatch(None, Some(!completed))))
        && activeList == (if fail then old(activeList) else ToggleInActive(old(activeList), itemId))
    {
      if activeList.Some? {
        var ok := store.UpdateItem(itemId, ItemPatch(None, Some(!completed)), fail);
        if ok {
          activeList := ToggleInActive(activeList, itemId);
        }
      }
    }
  }
}
