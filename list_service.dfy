/** The record types of services/list-service.ts and the two remote tables
    `lists` and `items`, held as an in-memory store. Every remote call takes
    its outcome as a parameter (`fail`); server-assigned ids and
    `created_at` stamps are parameters too. */
module ListService {
  import opened Common
  import opened Seqs

  /** A row of the `lists` table (`TodoList` without `items`). */
  datatype ListRow = ListRow(id: string, name: string, userId: string, createdAt: int)

  /** A row of the `items` table (`TodoItem`). */
  datatype Item = Item(id: string, text: string, completed: bool,
                       listId: string, userId: string, createdAt: int)

  /** `TodoList` as `getListWithItems` returns it: `items` is `None` when the
      field is missing. */
  datatype ListWithItems = ListWithItems(list: ListRow, items: Option<seq<Item>>)

  /** The fields of `Partial<TodoItem>` the application updates. */
  datatype ItemPatch = ItemPatch(text: Option<string>, completed: Option<bool>)

  function ListCreated(l: ListRow): int { l.createdAt }
  function ItemCreated(it: Item): int { it.createdAt }

  // ---- Row-level operations, shared with the page's local copies

  /** `.eq("user_id", userId)` on the lists table. */
  function OwnedBy(lists: seq<ListRow>, userId: string): (r: seq<ListRow>)
    ensures forall l :: l in r <==> l in lists && l.userId == userId
  {
    var p := (l: ListRow) => l.userId == userId;
    FilterMembers(lists, p);
    Filter(lists, p)
  }

  /** `.eq("id", listId)` on the lists table. */
  function ListsWithId(lists: seq<ListRow>, listId: string): (r: seq<ListRow>)
    ensures forall l :: l in r <==> l in lists && l.id == listId
  {
    var p := (l: ListRow) => l.id == listId;
    FilterMembers(lists, p);
    Filter(lists, p)
  }

  /** `.eq("list_id", listId)` on the items table. */
  function ItemsOf(items: seq<Item>, listId: string): (r: seq<Item>)
    ensures forall it :: it in r <==> it in items && it.listId == listId
  {
    var p := (it: Item) => it.listId == listId;
    FilterMembers(items, p);
    Filter(items, p)
  }

  /** Lists without the one with `listId` (a delete by id, or `.filter`). */
  function WithoutList(lists: seq<ListRow>, listId: string): (r: seq<ListRow>)
    ensures forall l :: l in r <==> l in lists && l.id != listId
  {
    var p := (l: ListRow) => l.id != listId;
    FilterMembers(lists, p);
    Filter(lists, p)
  }

  /** Items without the one with `itemId`. */
  function WithoutItem(items: seq<Item>, itemId: string): (r: seq<Item>)
    ensures forall it :: it in r <==> it in items && it.id != itemId
  {
    var p := (it: Item) => it.id != itemId;
    FilterMembers(items, p);
    Filter(items, p)
  }

  /** Items that do not belong to list `listId`. */
  function WithoutItemsOf(items: seq<Item>, listId: string): (r: seq<Item>)
    ensures forall it :: it in r <==> it in items && it.listId != listId
  {
    var p := (it: Item) => it.listId != listId;
    FilterMembers(items, p);
    Filter(items, p)
  }

  /** `update({ name }).eq("id", listId)`, and the page's `.map` by id. */
  function RenameList(lists: seq<ListRow>, listId: string, name: string): (r: seq<ListRow>)
    ensures |r| == |lists|
    ensures forall i :: 0 <= i < |lists| ==>
      r[i].id == lists[i].id && r[i].userId == lists[i].userId && r[i].createdAt == lists[i].createdAt
    ensures forall i :: 0 <= i < |lists| && lists[i].id == listId ==> r[i].name == name
    ensures forall i :: 0 <= i < |lists| && lists[i].id != listId ==> r[i] == lists[i]
  {
    MapSeq(lists, (l: ListRow) => if l.id == listId then l.(name := name) else l)
  }

  /** The row after `update(patch)`: only the supplied fields change. */
  function ApplyPatch(it: Item, patch: ItemPatch): (r: Item)
    ensures r.id == it.id && r.listId == it.listId && r.userId == it.userId
    ensures r.createdAt == it.createdAt
    ensures r.text == (if patch.text.Some? then patch.text.value else it.text)
    ensures r.completed == (if patch.completed.Some? then patch.completed.value else it.completed)
  {
    it.(text := patch.text.GetOr(it.text), completed := patch.completed.GetOr(it.completed))
  }

  /** `update(patch).eq("id", itemId)` on the items table. */
  function PatchItems(items: seq<Item>, itemId: string, patch: ItemPatch): (r: seq<Item>)
    ensures |r| == |items|
    ensures forall i :: 0 <= i < |items| && items[i].id == itemId ==> r[i] == ApplyPatch(items[i], patch)
    ensures forall i :: 0 <= i < |items| && items[i].id != itemId ==> r[i] == items[i]
  {
    MapSeq(items, (it: Item) => if it.id == itemId then ApplyPatch(it, patch) else it)
  }

  /** An empty patch changes no row. */
  lemma EmptyPatchIsIdentity(items: seq<Item>, itemId: string)
    ensures PatchItems(items, itemId, ItemPatch(None, None)) == items
  {
    var r := PatchItems(items, itemId, ItemPatch(None, None));
    forall i | 0 <= i < |items| ensures r[i] == items[i] {
      if items[i].id == itemId {
        assert r[i] == ApplyPatch(items[i], ItemPatch(None, None));
      }
    }
  }

  /** Removing an item keeps the others in their order: it distributes
      over concatenation. */
  lemma WithoutItemKeepsOrder(a: seq<Item>, b: seq<Item>, itemId: string)
    ensures WithoutItem(a + b, itemId) == WithoutItem(a, itemId) + WithoutItem(b, itemId)
  {
    FilterAppend(a, b, (it: Item) => it.id != itemId);
  }

  /** Removing a list keeps the others in their order: it distributes over
      concatenation, so the first remaining list is the first list of the
      input with a different id. */
  lemma WithoutListKeepsOrder(a: seq<ListRow>, b: seq<ListRow>, listId: string)
    ensures WithoutList(a + b, listId) == WithoutList(a, listId) + WithoutList(b, listId)
  {
    FilterAppend(a, b, (l: ListRow) => l.id != listId);
  }

  /** The head of the remaining lists: a first row with another id stays
      first, and a first row with that id is dropped. */
  lemma WithoutListHead(lists: seq<ListRow>, listId: string)
    requires lists != []
    ensures lists[0].id != listId ==> WithoutList(lists, listId) == [lists[0]] + WithoutList(lists[1..], listId)
    ensures lists[0].id == listId ==> WithoutList(lists, listId) == WithoutList(lists[1..], listId)
  {
    WithoutListKeepsOrder([lists[0]], lists[1..], listId);
    assert lists == [lists[0]] + lists[1..];
  }

  /** Removing an id twice is removing it once. */
  lemma {:induction false} WithoutItemIdempotent(items: seq<Item>, itemId: string)
    ensures WithoutItem(WithoutItem(items, itemId), itemId) == WithoutItem(items, itemId)
  {
    var r := WithoutItem(items, itemId);
    FilterKeepsAll(r, (it: Item) => it.id != itemId);
  }

  /** The ids of a sequence of lists. */
  function ListIds(lists: seq<ListRow>): set<string> {
    set l | l in lists :: l.id
  }

  /** Renaming keeps the set of list ids. */
  lemma RenameKeepsIds(lists: seq<ListRow>, listId: string, name: string)
    ensures ListIds(RenameList(lists, listId, name)) == ListIds(lists)
  {
    var r := RenameList(lists, listId, name);
    forall x | x in ListIds(lists) ensures x in ListIds(r) {
      var i :| 0 <= i < |lists| && lists[i].id == x;
      assert r[i] in r;
    }
    forall x | x in ListIds(r) ensures x in ListIds(lists) {
      var i :| 0 <= i < |r| && r[i].id == x;
      assert lists[i] in lists;
    }
  }

  /** The cascade invariant: every item belongs to a list that exists. */
  predicate NoOrphans(lists: seq<ListRow>, items: seq<Item>) {
    forall it :: it in items ==> it.listId in ListIds(lists)
  }

  // ---- The store

  class Store {
    var lists: seq<ListRow>
    var items: seq<Item>

    constructor (lists0: seq<ListRow>, items0: seq<Item>)
      ensures lists == lists0 && items == items0
    {
      lists, items := lists0, items0;
    }

    /** `getLists`: the user's lists by ascending `created_at`, or `[]` on
        a backend error. */
    function GetLists(userId: string, fail: bool): (r: seq<ListRow>)
      reads this
      ensures fail ==> r == []
      ensures !fail ==> multiset(r) == multiset(OwnedBy(lists, userId))
      ensures SortedBy(r, ListCreated)
    {
      if fail then []
      else
        SortBySorted(OwnedBy(lists, userId), ListCreated);
        SortByPermutation(OwnedBy(lists, userId), ListCreated);
        SortBy(OwnedBy(lists, userId), ListCreated)
    }

    /** Exactly the user's lists: `getLists` neither loses nor invents rows. */
    lemma GetListsMembers(userId: string)
      ensures forall l :: l in GetLists(userId, false) <==> l in lists && l.userId == userId
    {
      SameMembers(GetLists(userId, false), OwnedBy(lists, userId));
    }

    /** `getListWithItems`: `None` when the `.single()` lookup fails (a
        backend error, or not exactly one row with that id); the list row
        without `items` when the items query fails; otherwise the row with
        its items by ascending `created_at`. */
    function GetListWithItems(listId: string, listFail: bool, itemsFail: bool): (r: Option<ListWithItems>)
      reads this
      ensures r.None? <==> listFail || |ListsWithId(lists, listId)| != 1
      ensures r.Some? ==> r.value.list in lists && r.value.list.id == listId
      ensures r.Some? ==> (r.value.items.None? <==> itemsFail)
      ensures r.Some? && r.value.items.Some? ==>
        multiset(r.value.items.value) == multiset(ItemsOf(items, listId)) &&
        SortedBy(r.value.items.value, ItemCreated)
    {
      var found := ListsWithId(lists, listId);
      if listFail || |found| != 1 then None
      else if itemsFail then Some(ListWithItems(found[0], None))
      else
        SortBySorted(ItemsOf(items, listId), ItemCreated);
        SortByPermutation(ItemsOf(items, listId), ItemCreated);
        Some(ListWithItems(found[0], Some(SortBy(ItemsOf(items, listId), ItemCreated))))
    }

    /** The attached items are exactly the rows with that `list_id`. */
    lemma GetListWithItemsMembers(listId: string)
      requires GetListWithItems(listId, false, false).Some?
      ensures var attached := GetListWithItems(listId, false, false).value.items.value;
        forall it :: it in attached <==> it in items && it.listId == listId
    {
      SameMembers(GetListWithItems(listId, false, false).value.items.value, ItemsOf(items, listId));
    }

    /** `createList`: inserts one row and returns it, or `None` on error. */
    method CreateList(name: string, userId: string, fail: bool, newId: string, createdAt: int)
      returns (r: Option<ListRow>)
      modifies this`lists
      ensures fail ==> r == None && lists == old(lists)
      ensures !fail ==> r == Some(ListRow(newId, name, userId, createdAt))
      ensures !fail ==> lists == old(lists) + [r.value]
      ensures old(NoOrphans(lists, items)) ==> NoOrphans(lists, items)
    {
      if fail {
        return None;
      }
      var row := ListRow(newId, name, userId, createdAt);
      lists := lists + [row];
      r := Some(row);
    }

    /** `updateList`: renames the rows with `listId`; matching no row is not
        an error. */
    method UpdateList(listId: string, name: string, fail: bool) returns (ok: bool)
      modifies this`lists
      ensures ok == !fail
      ensures lists == if fail then old(lists) else RenameList(old(lists), listId, name)
      ensures old(NoOrphans(lists, items)) ==> NoOrphans(lists, items)
    {
      if fail {
        return false;
      }
      RenameKeepsIds(lists, listId, name);
      lists := RenameList(lists, listId, name);
      ok := true;
    }

    /** `deleteList`: first the list's items, then the list; a failure at
        either step returns `false` at once, so a failed second step leaves
        the items already deleted. */
    method DeleteList(listId: string, itemsFail: bool, listFail: bool) returns (ok: bool)
      modifies this`lists, this`items
      ensures ok == (!itemsFail && !listFail)
      ensures itemsFail ==> items == old(items) && lists == old(lists)
      ensures !itemsFail ==> items == WithoutItemsOf(old(items), listId)
      ensures !itemsFail && listFail ==> lists == old(lists)
      ensures ok ==> lists == WithoutList(old(lists), listId)
      ensures !itemsFail && old(NoOrphans(lists, items)) ==> NoOrphans(lists, items)
    {
      if itemsFail {
        return false;
      }
      items := WithoutItemsOf(items, listId);
      if listFail {
        return false;
      }
      ghost var before := lists;
      lists := WithoutList(lists, listId);
      if old(NoOrphans(lists, items)) {
        forall it | it in items ensures it.listId in ListIds(lists) {
          assert it in old(items);
          var l :| l in before && l.id == it.listId;
          assert l in lists;
        }
      }
      ok := true;
    }

    /** `addItem`: inserts an incomplete item and returns it, or `None`. */
    method AddItem(text: string, listId: string, userId: string, fail: bool, newId: string, createdAt: int)
      returns (r: Option<Item>)
      modifies this`items
      ensures fail ==> r == None && items == old(items)
      ensures !fail ==> r == Some(Item(newId, text, false, listId, userId, createdAt))
      ensures !fail ==> items == old(items) + [r.value]
      ensures !fail && listId in ListIds(lists) && old(NoOrphans(lists, items)) ==> NoOrphans(lists, items)
    {
      if fail {
        return None;
      }
      var it := Item(newId, text, false, listId, userId, createdAt);
      items := items + [it];
      r := Some(it);
    }

    /** `updateItem`: applies `patch` to the row with `itemId`. */
    method UpdateItem(itemId: string, patch: ItemPatch, fail: bool) returns (ok: bool)
      modifies this`items
      ensures ok == !fail
      ensures items == if fail then old(items) else PatchItems(old(items), itemId, patch)
      ensures old(NoOrphans(lists, items)) ==> NoOrphans(lists, items)
    {
      if fail {
        return false;
      }
      ghost var before := items;
      items := PatchItems(items, itemId, patch);
      if old(NoOrphans(lists, items)) {
        forall it | it in items ensures it.listId in ListIds(lists) {
          var k :| 0 <= k < |items| && items[k] == it;
          assert it.listId == before[k].listId && before[k] in before;
        }
      }
      ok := true;
    }

    /** `deleteItem`: removes the row with `itemId`. */
    method DeleteItem(itemId: string, fail: bool) returns (ok: bool)
      modifies this`items
      ensures ok == !fail
      ensures items == if fail then old(items) else WithoutItem(old(items), itemId)
      ensures old(NoOrphans(lists, items)) ==> NoOrphans(lists, items)
    {
      if fail {
        return false;
      }
      items := WithoutItem(items, itemId);
      ok := true;
    }
  }

  /** After a successful cascade delete no item of the list and no list with
      that id remain, and every other row is still there. */
  lemma CascadeDeleteComplete(lists: seq<ListRow>, items: seq<Item>, listId: string)
    ensures forall it :: it in WithoutItemsOf(items, listId) ==> it.listId != listId
    ensures forall l :: l in WithoutList(lists, listId) ==> l.id != listId
    ensures forall it :: it in items && it.listId != listId ==> it in WithoutItemsOf(items, listId)
    ensures forall l :: l in lists && l.id != listId ==> l in WithoutList(lists, listId)
    ensures ItemsOf(WithoutItemsOf(items, listId), listId) == []
  {
    var rest := WithoutItemsOf(items, listId);
    FilterDropsAll(rest, (it: Item) => it.listId == listId);
  }
}
