/** The item record, its transfer object, the catalog's failure kinds and
    the field-for-field mapping between record and transfer object. */
module Items {
  import opened Common

  /** `Item`: every reference field may be null; `ownerId` is always set
      by the mapper from the acting user's id. */
  datatype Item = Item(
    id: Option<int>,
    name: Option<string>,
    description: Option<string>,
    available: Option<bool>,
    ownerId: int,
    requestId: Option<int>)

  /** `ItemDto`: the item as callers see it, without its owner. */
  datatype ItemDto = ItemDto(
    id: Option<int>,
    name: Option<string>,
    description: Option<string>,
    available: Option<bool>,
    requestId: Option<int>)

  /** Which check of the validator rejected an item. */
  datatype Field = Name | Description | Availability

  /** Why an `ItemNotFoundException` was thrown: the id is absent (or
      null), or the acting user does not own the item. */
  datatype NotFoundCause = NoSuchId(id: Option<int>) | NotOwnedBy(userId: int)

  /** The two exception kinds of the catalog. */
  datatype Error = ValidationError(field: Field) | ItemNotFound(cause: NotFoundCause)

  /** `ItemMapper.toItem`: copies every field and sets the owner. */
  function ToItem(dto: ItemDto, ownerId: int): Item
  {
    Item(dto.id, dto.name, dto.description, dto.available, ownerId, dto.requestId)
  }

  /** `ItemMapper.toItemDto`: copies every field but the owner. */
  function ToItemDto(item: Item): ItemDto
  {
    ItemDto(item.id, item.name, item.description, item.available, item.requestId)
  }

  /** A list of items mapped element by element, as the service's streams do. */
  function ToItemDtos(items: seq<Item>): seq<ItemDto>
  {
    seq(|items|, i requires 0 <= i < |items| => ToItemDto(items[i]))
  }

  /** The two mappings are inverse to each other once the owner is given. */
  lemma MapperRoundTrip(dto: ItemDto, item: Item, ownerId: int)
    ensures ToItemDto(ToItem(dto, ownerId)) == dto
    ensures ToItem(ToItemDto(item), item.ownerId) == item
  {
  }
}
