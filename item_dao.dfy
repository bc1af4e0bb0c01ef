/** `ItemDaoImpl`: a create-only item table whose ids come from a
    pre-incremented counter. */
module ItemDao {
  import opened Common
  import opened Items

  class ItemDaoImpl {
    /** The table, keyed by item id. */
    var items: map<int, Item>
    /** The last id generated. */
    var id: int

    /** Every key lies between 1 and the counter and is the id of its item. */
    ghost predicate Valid()
      reads this
    {
      && 0 <= id
      && forall k :: k in items ==> 1 <= k <= id && items[k].id == Some(k)
    }

    constructor ()
      ensures Valid() && items == map[] && id == 0
    {
      items := map[];
      id := 0;
    }

    /** `generateId`: `++id`. */
    method GenerateId() returns (r: int)
      requires Valid()
      modifies this
      ensures Valid() && items == old(items)
      ensures id == old(id) + 1 && r == id && r !in items
    {
      id := id + 1;
      r := id;
    }

    /** `create`: the item gets the next id and is stored under it; the map
        grows by exactly that one entry. */
    method Create(item: Item) returns (r: Item)
      requires Valid()
      modifies this
      ensures Valid()
      ensures id == old(id) + 1
      ensures r == item.(id := Some(id))
      ensures id !in old(items) && items == old(items)[id := r]
      ensures |items| == |old(items)| + 1
    {
      var newId := GenerateId();
      r := item.(id := Some(newId));
      items := items[newId := r];
    }
  }

  /** Creating items one after another in a new table numbers them 1, 2, 3, ...
      and stores each under its number. */
  method CreateInOrder(xs: seq<Item>) returns (made: seq<Item>, table: map<int, Item>)
    ensures |made| == |xs|
    ensures forall i :: 0 <= i < |xs| ==> made[i] == xs[i].(id := Some(i + 1))
    ensures forall k :: k in table <==> 1 <= k <= |xs|
    ensures forall i :: 0 <= i < |xs| ==> table[i + 1] == made[i]
  {
    var dao := new ItemDaoImpl();
    made := [];
    for i := 0 to |xs|
      invariant dao.Valid() && dao.id == i && |made| == i
      invariant forall j :: 0 <= j < i ==> made[j] == xs[j].(id := Some(j + 1))
      invariant forall k :: k in dao.items <==> 1 <= k <= i
      invariant forall j :: 0 <= j < i ==> dao.items[j + 1] == made[j]
    {
      var created := dao.Create(xs[i]);
      made := made + [created];
    }
    table := dao.items;
  }
}
