/** `InMemoryItemStorage`: the item table kept in a map from id to item,
    with a counter that hands out ids 1, 2, 3, ... and never goes back. */
module ItemStorage {
  import opened Common
  import opened Text
  import opened Items
  import opened ItemValidation

  /** The stored item belongs to `ownerId`. */
  predicate OwnedBy(item: Item, ownerId: int) {
    item.ownerId == ownerId
  }

  /** The search filter: available, and `text` occurs in the name or the
      description, ignoring case. */
  predicate MatchesSearch(item: Item, text: string) {
    item.available == Some(true)
    && (ContainsIgnoreCase(item.name, text) || ContainsIgnoreCase(item.description, text))
  }

  /** Lower-casing the search text does not change which items match it. */
  lemma MatchesSearchLowerIff(item: Item, text: string)
    ensures MatchesSearch(item, Lower(text)) <==> MatchesSearch(item, text)
  {
    ContainsLowerIff(item.name, text);
    ContainsLowerIff(item.description, text);
  }

  /** The stored item after a partial update: each non-null field of the
      payload overwrites the stored one; id, owner and request stay. */
  function Merge(stored: Item, payload: Item): (r: Item)
    ensures r.id == stored.id && r.ownerId == stored.ownerId && r.requestId == stored.requestId
    ensures r.name == (if payload.name.Some? then payload.name else stored.name)
    ensures r.description == (if payload.description.Some? then payload.description else stored.description)
    ensures r.available == (if payload.available.Some? then payload.available else stored.available)
  {
    stored.(
      name := if payload.name.Some? then payload.name else stored.name,
      description := if payload.description.Some? then payload.description else stored.description,
      available := if payload.available.Some? then payload.available else stored.available)
  }

  /** Applying the same partial update twice changes nothing more. */
  lemma MergeIdempotent(stored: Item, payload: Item)
    ensures Merge(Merge(stored, payload), payload) == Merge(stored, payload)
  {
  }

  /** A merge keeps a present availability present, so the store never
      holds a null `available` (the search's unboxing cannot fail). */
  lemma MergeKeepsAvailability(stored: Item, payload: Item)
    requires stored.available.Some?
    ensures Merge(stored, payload).available.Some?
  {
  }

  /** A merge of non-blank payload fields into a valid item is valid. */
  lemma MergeOfValidIsValid(stored: Item, payload: Item)
    requires ItemIsValid(stored)
    requires payload.name.Some? ==> !IsBlank(payload.name)
    requires payload.description.Some? ==> !IsBlank(payload.description)
    ensures ItemIsValid(Merge(stored, payload))
  {
  }

  /** Some member of a non-empty set of ids. */
  lemma Member(s: set<int>) returns (x: int)
    requires s != {}
    ensures x in s
  {
    if forall y :: y !in s {
      assert false;
    }
    x :| x in s;
  }

  class InMemoryItemStorage {
    /** The table, keyed by item id. */
    var items: map<int, Item>
    /** The last id handed out. */
    var currentId: int
    /** Every id handed out so far, deleted or not. */
    ghost var Issued: set<int>

    /** Ids are issued from 1 up to the counter; every key was issued and
        is the id of the item stored under it; no stored item has a null
        availability. */
    ghost predicate Valid()
      reads this
    {
      && 0 <= currentId
      && (forall k :: k in Issued ==> 1 <= k <= currentId)
      && (forall k :: k in items ==> k in Issued)
      && (forall k :: k in items ==> items[k].id == Some(k))
      && (forall k :: k in items ==> items[k].available.Some?)
    }

    /** Every stored item passes the validator. */
    ghost predicate AllStoredValid()
      reads this
    {
      forall k :: k in items ==> ItemIsValid(items[k])
    }

    constructor ()
      ensures Valid() && AllStoredValid()
      ensures items == map[] && currentId == 0 && Issued == {}
    {
      items := map[];
      currentId := 0;
      Issued := {};
    }

    /** The stored items that `keep` accepts, each once, in no promised order. */
    method Select(keep: Item -> bool) returns (r: seq<Item>)
      requires Valid()
      ensures forall i :: 0 <= i < |r| ==>
        r[i].id.Some? && r[i].id.value in items && items[r[i].id.value] == r[i] && keep(r[i])
      ensures forall k :: k in items && keep(items[k]) ==> items[k] in r
      ensures forall i, j :: 0 <= i < j < |r| ==> r[i].id != r[j].id
    {
      var rest := items.Keys;
      r := [];
      while rest != {}
        invariant rest <= items.Keys
        invariant forall i :: 0 <= i < |r| ==>
          r[i].id.Some? && r[i].id.value in items && r[i].id.value !in rest
          && items[r[i].id.value] == r[i] && keep(r[i])
        invariant forall k :: k in items && k !in rest && keep(items[k]) ==> items[k] in r
        invariant forall i, j :: 0 <= i < j < |r| ==> r[i].id != r[j].id
        decreases rest
      {
        ghost var _ := Member(rest);
        var k :| k in rest;
        if keep(items[k]) {
          r := r + [items[k]];
        }
        rest := rest - {k};
      }
    }

    /** `getItemById`: the stored item, or not-found for an absent key. */
    method GetItemById(itemId: int) returns (r: Result<Item, Error>)
      requires Valid()
      ensures itemId in items ==> r == Ok(items[itemId])
      ensures itemId !in items ==> r == Err(ItemNotFound(NoSuchId(Some(itemId))))
    {
      if itemId !in items {
        return Err(ItemNotFound(NoSuchId(Some(itemId))));
      }
      r := Ok(items[itemId]);
    }

    /** `getItemsByOwner`: exactly the stored items of that owner, each once. */
    method GetItemsByOwner(ownerId: int) returns (r: seq<Item>)
      requires Valid()
      ensures forall i :: 0 <= i < |r| ==>
        r[i].id.Some? && r[i].id.value in items && items[r[i].id.value] == r[i] && OwnedBy(r[i], ownerId)
      ensures forall k :: k in items && OwnedBy(items[k], ownerId) ==> items[k] in r
      ensures forall i, j :: 0 <= i < j < |r| ==> r[i].id != r[j].id
    {
      r := Select(item => OwnedBy(item, ownerId));
    }

    /** `getItemsBySearchQuery`: nothing for a blank text, otherwise exactly
        the available stored items whose name or description contains the
        text ignoring case, each once. */
    method GetItemsBySearchQuery(text: string) returns (r: seq<Item>)
      requires Valid()
      ensures IsBlank(Some(text)) ==> r == []
      ensures forall i :: 0 <= i < |r| ==>
        r[i].id.Some? && r[i].id.value in items && items[r[i].id.value] == r[i] && MatchesSearch(r[i], text)
      ensures !IsBlank(Some(text)) ==> forall k :: k in items && MatchesSearch(items[k], text) ==> items[k] in r
      ensures forall i, j :: 0 <= i < j < |r| ==> r[i].id != r[j].id
    {
      r := [];
      if !IsBlank(Some(text)) {
        r := Select(item => MatchesSearch(item, text));
      }
    }

    /** `create`: validate first; on success store the item under the next
        id, which was never issued before. */
    method Create(item: Item) returns (r: Result<Item, Error>)
      requires Valid()
      modifies this
      ensures Valid()
      ensures IsItemValid(item).Err? ==>
        r == Err(IsItemValid(item).error) && items == old(items) && currentId == old(currentId) && Issued == old(Issued)
      ensures IsItemValid(item).Ok? ==>
        && currentId == old(currentId) + 1
        && currentId !in old(Issued) && currentId !in old(items)
        && Issued == old(Issued) + {currentId}
        && r == Ok(item.(id := Some(currentId)))
        && items == old(items)[currentId := r.value]
      ensures old(AllStoredValid()) ==> AllStoredValid()
    {
      var verdict := IsItemValid(item);
      if verdict.Err? {
        return Err(verdict.error);
      }
      currentId := currentId + 1;
      Issued := Issued + {currentId};
      var created := item.(id := Some(currentId));
      items := items[currentId := created];
      r := Ok(created);
    }

    /** `update` as written: the stored item is changed in place before it
        is validated, so a rejected payload still leaves its fields written. */
    method Update(item: Item) returns (r: Result<Item, Error>)
      requires Valid()
      modifies this
      ensures Valid() && currentId == old(currentId) && Issued == old(Issued)
      ensures item.id.None? || item.id.value !in old(items) ==>
        r == Err(ItemNotFound(NoSuchId(item.id))) && items == old(items)
      ensures item.id.Some? && item.id.value in old(items) ==>
        var merged := Merge(old(items)[item.id.value], item);
        && items == old(items)[item.id.value := merged]
        && r == (if IsItemValid(merged).Ok? then Ok(merged) else Err(IsItemValid(merged).error))
    {
      if item.id.None? || item.id.value !in items {
        return Err(ItemNotFound(NoSuchId(item.id)));
      }
      var id := item.id.value;
      var merged := Merge(items[id], item);
      MergeKeepsAvailability(items[id], item);
      items := items[id := merged];
      var verdict := IsItemValid(merged);
      if verdict.Err? {
        return Err(verdict.error);
      }
      r := Ok(merged);
    }

    /** `update` as evidently intended: the merged item is validated before
        it is stored, so a rejected payload changes nothing. */
    method UpdateValidated(item: Item) returns (r: Result<Item, Error>)
      requires Valid()
      modifies this
      ensures Valid() && currentId == old(currentId) && Issued == old(Issued)
      ensures r.Err? ==> items == old(items)
      ensures item.id.None? || item.id.value !in old(items) ==> r == Err(ItemNotFound(NoSuchId(item.id)))
      ensures item.id.Some? && item.id.value in old(items) ==>
        var merged := Merge(old(items)[item.id.value], item);
        && (IsItemValid(merged).Err? ==> r == Err(IsItemValid(merged).error))
        && (IsItemValid(merged).Ok? ==> r == Ok(merged) && items == old(items)[item.id.value := merged])
      ensures old(AllStoredValid()) ==> AllStoredValid()
    {
      if item.id.None? || item.id.value !in items {
        return Err(ItemNotFound(NoSuchId(item.id)));
      }
      var id := item.id.value;
      var merged := Merge(items[id], item);
      var verdict := IsItemValid(merged);
      if verdict.Err? {
        return Err(verdict.error);
      }
      items := items[id := merged];
      r := Ok(merged);
    }

    /** `delete`: removes exactly the key and returns what was stored there;
        an absent key is not-found and changes nothing. */
    method Delete(itemId: int) returns (r: Result<Item, Error>)
      requires Valid()
      modifies this
      ensures Valid() && currentId == old(currentId) && Issued == old(Issued)
      ensures itemId !in old(items) ==> r == Err(ItemNotFound(NoSuchId(Some(itemId)))) && items == old(items)
      ensures itemId in old(items) ==> r == Ok(old(items)[itemId]) && items == old(items) - {itemId}
      ensures old(AllStoredValid()) ==> AllStoredValid()
    {
      if itemId !in items {
        return Err(ItemNotFound(NoSuchId(Some(itemId))));
      }
      r := Ok(items[itemId]);
      items := items - {itemId};
    }

    /** `deleteItemsByOwner`: collects the owner's ids, then removes them one
        by one; every other item stays as it was. */
    method DeleteItemsByOwner(ownerId: int)
      requires Valid()
      modifies this
      ensures Valid() && currentId == old(currentId) && Issued == old(Issued)
      ensures items == map k | k in old(items) && !OwnedBy(old(items)[k], ownerId) :: old(items)[k]
      ensures old(AllStoredValid()) ==> AllStoredValid()
    {
      var owned := Select(item => OwnedBy(item, ownerId));
      var deleteIds := seq(|owned|, i requires 0 <= i < |owned| => owned[i].id.value);
      assert forall k :: k in deleteIds <==> k in old(items) && OwnedBy(old(items)[k], ownerId) by {
        forall k | k in items && OwnedBy(items[k], ownerId) ensures k in deleteIds {
          var i :| 0 <= i < |owned| && owned[i] == items[k];
          assert deleteIds[i] == k;
        }
      }
      for i := 0 to |deleteIds|
        invariant Valid() && currentId == old(currentId) && Issued == old(Issued)
        invariant items == map k | k in old(items) && k !in deleteIds[..i] :: old(items)[k]
      {
        assert deleteIds[..i + 1] == deleteIds[..i] + [deleteIds[i]];
        items := items - {deleteIds[i]};
      }
      assert deleteIds[..|deleteIds|] == deleteIds;
      ghost var kept := map k | k in old(items) && !OwnedBy(old(items)[k], ownerId) :: old(items)[k];
      assert forall k :: k in items <==> k in kept;
    }
  }

  /** A drill listed by user 7 and the update that tries to blank its name. */
  const Drill := Item(None, Some("Drill"), Some("Cordless drill"), Some(true), 7, None)
  const BlankName := Item(Some(1), Some(" "), None, None, 7, None)

  /** As written, a rejected update still leaves its blank name stored. */
  method BlankNameUpdateScenario() returns (storage: InMemoryItemStorage, r: Result<Item, Error>)
    ensures r == Err(ValidationError(Name))
    ensures 1 in storage.items && storage.items[1].name == Some(" ")
    ensures !storage.AllStoredValid()
  {
    storage := new InMemoryItemStorage();
    assert !IsWhitespace(Drill.name.value[0]) && !IsWhitespace(Drill.description.value[0]);
    var created := storage.Create(Drill);
    r := storage.Update(BlankName);
  }

  /** With validation before the write, the same update leaves the item intact. */
  method BlankNameUpdateRejectedScenario() returns (storage: InMemoryItemStorage, r: Result<Item, Error>)
    ensures r == Err(ValidationError(Name))
    ensures 1 in storage.items && storage.items[1] == Drill.(id := Some(1))
    ensures storage.AllStoredValid()
  {
    storage := new InMemoryItemStorage();
    assert !IsWhitespace(Drill.name.value[0]) && !IsWhitespace(Drill.description.value[0]);
    var created := storage.Create(Drill);
    r := storage.UpdateValidated(BlankName);
  }
}
