/** `ItemServiceImpl`: the item operations callers reach, layered over the
    store. `update` and `delete` first check that the acting user owns the
    item at the path id; `update` then has the store write to the payload's
    id, which may name another user's item (see `CrossOwnerUpdateScenario`). */
module ItemService {
  import opened Common
  import opened Text
  import opened Items
  import opened ItemValidation
  import opened ItemStorage

  /** The key `update` hands to the store: the payload's id, defaulted to
      the path id when the payload carries none. */
  function UpdateTarget(dto: ItemDto, itemId: int): int {
    if dto.id.None? then itemId else dto.id.value
  }

  class ItemServiceImpl {
    const itemStorage: InMemoryItemStorage

    constructor (itemStorage: InMemoryItemStorage)
      ensures this.itemStorage == itemStorage
    {
      this.itemStorage := itemStorage;
    }

    /** `getItemById`: the stored item as a transfer object, or not-found. */
    method GetItemById(id: int) returns (r: Result<ItemDto, Error>)
      requires itemStorage.Valid()
      ensures id in itemStorage.items ==> r == Ok(ToItemDto(itemStorage.items[id]))
      ensures id !in itemStorage.items ==> r == Err(ItemNotFound(NoSuchId(Some(id))))
    {
      var found := itemStorage.GetItemById(id);
      if found.Err? {
        return Err(found.error);
      }
      r := Ok(ToItemDto(found.value));
    }

    /** `getItemsByOwner`: one transfer object per stored item of the owner. */
    method GetItemsByOwner(ownerId: int) returns (r: seq<ItemDto>)
      requires itemStorage.Valid()
      ensures forall i :: 0 <= i < |r| ==>
        && r[i].id.Some? && r[i].id.value in itemStorage.items
        && r[i] == ToItemDto(itemStorage.items[r[i].id.value])
        && OwnedBy(itemStorage.items[r[i].id.value], ownerId)
      ensures forall k :: k in itemStorage.items && OwnedBy(itemStorage.items[k], ownerId) ==>
        ToItemDto(itemStorage.items[k]) in r
      ensures forall i, j :: 0 <= i < j < |r| ==> r[i].id != r[j].id
    {
      var found := itemStorage.GetItemsByOwner(ownerId);
      r := ToItemDtos(found);
      forall k | k in itemStorage.items && OwnedBy(itemStorage.items[k], ownerId)
        ensures ToItemDto(itemStorage.items[k]) in r
      {
        var i :| 0 <= i < |found| && found[i] == itemStorage.items[k];
        assert r[i] == ToItemDto(itemStorage.items[k]);
      }
    }

    /** `getItemsBySearchQuery`: the store is asked with the lower-cased
        text, and that gives the same items as the text itself would. */
    method GetItemsBySearchQuery(text: string) returns (r: seq<ItemDto>)
      requires itemStorage.Valid()
      ensures IsBlank(Some(text)) ==> r == []
      ensures forall i :: 0 <= i < |r| ==>
        && r[i].id.Some? && r[i].id.value in itemStorage.items
        && r[i] == ToItemDto(itemStorage.items[r[i].id.value])
        && MatchesSearch(itemStorage.items[r[i].id.value], text)
      ensures !IsBlank(Some(text)) ==> forall k :: k in itemStorage.items && MatchesSearch(itemStorage.items[k], text) ==>
        ToItemDto(itemStorage.items[k]) in r
      ensures forall i, j :: 0 <= i < j < |r| ==> r[i].id != r[j].id
    {
      var lower := Lower(text);
      BlankLowerIff(text);
      var found := itemStorage.GetItemsBySearchQuery(lower);
      r := ToItemDtos(found);
      forall i | 0 <= i < |found| ensures MatchesSearch(found[i], text) {
        MatchesSearchLowerIff(found[i], text);
      }
      if !IsBlank(Some(text)) {
        forall k | k in itemStorage.items && MatchesSearch(itemStorage.items[k], text)
          ensures ToItemDto(itemStorage.items[k]) in r
        {
          MatchesSearchLowerIff(itemStorage.items[k], text);
          var i :| 0 <= i < |found| && found[i] == itemStorage.items[k];
          assert r[i] == ToItemDto(itemStorage.items[k]);
        }
      }
    }

    /** `create`: the transfer object, owned by the acting user, goes to the
        store; its validation verdict and new id come back. */
    method Create(dto: ItemDto, ownerId: int) returns (r: Result<ItemDto, Error>)
      requires itemStorage.Valid()
      modifies itemStorage
      ensures itemStorage.Valid()
      ensures IsItemDtoValid(dto).Err? ==>
        && r == Err(IsItemDtoValid(dto).error)
        && itemStorage.items == old(itemStorage.items) && itemStorage.currentId == old(itemStorage.currentId)
      ensures IsItemDtoValid(dto).Ok? ==>
        var id := old(itemStorage.currentId) + 1;
        && itemStorage.currentId == id && id !in old(itemStorage.Issued)
        && r == Ok(dto.(id := Some(id)))
        && itemStorage.items == old(itemStorage.items)[id := ToItem(dto, ownerId).(id := Some(id))]
    {
      var created := itemStorage.Create(ToItem(dto, ownerId));
      if created.Err? {
        return Err(created.error);
      }
      r := Ok(ToItemDto(created.value));
    }

    /** `update` as written: ownership is checked for the path id, but the
        store updates the payload's id, which the caller may set freely. */
    method Update(dto: ItemDto, ownerId: int, itemId: int) returns (r: Result<ItemDto, Error>)
      requires itemStorage.Valid()
      modifies itemStorage
      ensures itemStorage.Valid() && itemStorage.currentId == old(itemStorage.currentId)
      ensures itemId !in old(itemStorage.items) ==>
        r == Err(ItemNotFound(NoSuchId(Some(itemId)))) && itemStorage.items == old(itemStorage.items)
      ensures itemId in old(itemStorage.items) && !OwnedBy(old(itemStorage.items)[itemId], ownerId) ==>
        r == Err(ItemNotFound(NotOwnedBy(ownerId))) && itemStorage.items == old(itemStorage.items)
      ensures itemId in old(itemStorage.items) && OwnedBy(old(itemStorage.items)[itemId], ownerId) ==>
        var target := UpdateTarget(dto, itemId);
        && (target !in old(itemStorage.items) ==>
              r == Err(ItemNotFound(NoSuchId(Some(target)))) && itemStorage.items == old(itemStorage.items))
        && (target in old(itemStorage.items) ==>
              var merged := Merge(old(itemStorage.items)[target], ToItem(dto, ownerId));
              && itemStorage.items == old(itemStorage.items)[target := merged]
              && r == (if IsItemValid(merged).Ok? then Ok(ToItemDto(merged)) else Err(IsItemValid(merged).error)))
    {
      var payload := dto;
      if payload.id.None? {
        payload := payload.(id := Some(itemId));
      }
      var oldItem := itemStorage.GetItemById(itemId);
      if oldItem.Err? {
        return Err(oldItem.error);
      }
      if !OwnedBy(oldItem.value, ownerId) {
        return Err(ItemNotFound(NotOwnedBy(ownerId)));
      }
      var updated := itemStorage.Update(ToItem(payload, ownerId));
      if updated.Err? {
        return Err(updated.error);
      }
      r := Ok(ToItemDto(updated.value));
    }

    /** `update` as evidently intended: only the item at the path id, only
        for its owner, and only with a payload that keeps it valid. */
    method UpdateOwnItem(dto: ItemDto, ownerId: int, itemId: int) returns (r: Result<ItemDto, Error>)
      requires itemStorage.Valid()
      modifies itemStorage
      ensures itemStorage.Valid() && itemStorage.currentId == old(itemStorage.currentId)
      ensures r.Err? ==> itemStorage.items == old(itemStorage.items)
      ensures r.Ok? ==> itemId in old(itemStorage.items) && OwnedBy(old(itemStorage.items)[itemId], ownerId)
      ensures itemStorage.items.Keys == old(itemStorage.items).Keys
      ensures forall k :: k in old(itemStorage.items) && k != itemId ==>
        itemStorage.items[k] == old(itemStorage.items)[k]
      ensures itemId !in old(itemStorage.items) ==> r == Err(ItemNotFound(NoSuchId(Some(itemId))))
      ensures itemId in old(itemStorage.items) && !OwnedBy(old(itemStorage.items)[itemId], ownerId) ==>
        r == Err(ItemNotFound(NotOwnedBy(ownerId)))
      ensures itemId in old(itemStorage.items) && OwnedBy(old(itemStorage.items)[itemId], ownerId) ==>
        var merged := Merge(old(itemStorage.items)[itemId], ToItem(dto, ownerId));
        && (IsItemValid(merged).Err? ==> r == Err(IsItemValid(merged).error))
        && (IsItemValid(merged).Ok? ==>
              r == Ok(ToItemDto(merged)) && itemStorage.items == old(itemStorage.items)[itemId := merged])
      ensures old(itemStorage.AllStoredValid()) ==> itemStorage.AllStoredValid()
    {
      var oldItem := itemStorage.GetItemById(itemId);
      if oldItem.Err? {
        return Err(oldItem.error);
      }
      if !OwnedBy(oldItem.value, ownerId) {
        return Err(ItemNotFound(NotOwnedBy(ownerId)));
      }
      var updated := itemStorage.UpdateValidated(ToItem(dto.(id := Some(itemId)), ownerId));
      if updated.Err? {
        return Err(updated.error);
      }
      r := Ok(ToItemDto(updated.value));
    }

    /** `delete`: only the owner removes the item, and gets it back. */
    method Delete(itemId: int, ownerId: int) returns (r: Result<ItemDto, Error>)
      requires itemStorage.Valid()
      modifies itemStorage
      ensures itemStorage.Valid() && itemStorage.currentId == old(itemStorage.currentId)
      ensures itemId !in old(itemStorage.items) ==>
        r == Err(ItemNotFound(NoSuchId(Some(itemId)))) && itemStorage.items == old(itemStorage.items)
      ensures itemId in old(itemStorage.items) && !OwnedBy(old(itemStorage.items)[itemId], ownerId) ==>
        r == Err(ItemNotFound(NotOwnedBy(ownerId))) && itemStorage.items == old(itemStorage.items)
      ensures itemId in old(itemStorage.items) && OwnedBy(old(itemStorage.items)[itemId], ownerId) ==>
        && r == Ok(ToItemDto(old(itemStorage.items)[itemId]))
        && itemStorage.items == old(itemStorage.items) - {itemId}
    {
      var item := itemStorage.GetItemById(itemId);
      if item.Err? {
        return Err(item.error);
      }
      if !OwnedBy(item.value, ownerId) {
        return Err(ItemNotFound(NotOwnedBy(ownerId)));
      }
      var deleted := itemStorage.Delete(itemId);
      r := Ok(ToItemDto(deleted.value));
    }

    /** `deleteItemsByOwner`: passes straight to the store. */
    method DeleteItemsByOwner(ownerId: int)
      requires itemStorage.Valid()
      modifies itemStorage
      ensures itemStorage.Valid() && itemStorage.currentId == old(itemStorage.currentId)
      ensures itemStorage.items ==
        map k | k in old(itemStorage.items) && !OwnedBy(old(itemStorage.items)[k], ownerId) :: old(itemStorage.items)[k]
    {
      itemStorage.DeleteItemsByOwner(ownerId);
    }
  }

  /** Two owners' items: user 1 owns item 1, user 2 owns item 2. */
  const Hammer := ItemDto(None, Some("Hammer"), Some("Steel hammer"), Some(true), None)
  const Ladder := ItemDto(None, Some("Ladder"), Some("Folding ladder"), Some(true), None)
  /** A body that names item 2 while the path names item 1. */
  const Rename := ItemDto(Some(2), Some("Taken"), None, None, None)

  /** Sets up the two items through a fresh service. */
  method TwoOwners() returns (storage: InMemoryItemStorage, service: ItemServiceImpl)
    ensures fresh(storage) && service.itemStorage == storage && storage.Valid()
    ensures 1 in storage.items && storage.items[1] == ToItem(Hammer, 1).(id := Some(1))
    ensures 2 in storage.items && storage.items[2] == ToItem(Ladder, 2).(id := Some(2))
  {
    storage := new InMemoryItemStorage();
    service := new ItemServiceImpl(storage);
    assert !IsWhitespace(Hammer.name.value[0]) && !IsWhitespace(Hammer.description.value[0]);
    assert !IsWhitespace(Ladder.name.value[0]) && !IsWhitespace(Ladder.description.value[0]);
    var first := service.Create(Hammer, 1);
    var second := service.Create(Ladder, 2);
  }

  /** As written, user 1 renames user 2's item through the path of its own item. */
  method CrossOwnerUpdateScenario() returns (storage: InMemoryItemStorage, r: Result<ItemDto, Error>)
    ensures r.Ok?
    ensures 2 in storage.items && storage.items[2].ownerId == 2 && storage.items[2].name == Some("Taken")
  {
    var service;
    storage, service := TwoOwners();
    assert !IsWhitespace(Rename.name.value[0]) && !IsWhitespace(Ladder.description.value[0]);
    r := service.Update(Rename, 1, 1);
  }

  /** Updating by path id, the same request renames user 1's own item and
      leaves user 2's item as it was. */
  method CrossOwnerUpdateBlockedScenario() returns (storage: InMemoryItemStorage, r: Result<ItemDto, Error>)
    ensures r.Ok? && r.value.id == Some(1)
    ensures 2 in storage.items && storage.items[2] == ToItem(Ladder, 2).(id := Some(2))
  {
    var service;
    storage, service := TwoOwners();
    assert !IsWhitespace(Rename.name.value[0]) && !IsWhitespace(Hammer.description.value[0]);
    r := service.UpdateOwnItem(Rename, 1, 1);
  }
}
