/** `ItemValidator`: three checks in a fixed order; the first that fails
    decides the reported field, and success is always `true`. */
module ItemValidation {
  import opened Common
  import opened Text
  import opened Items

  /** The shared if/else-if chain: name, then description, then availability. */
  function CheckFields(name: Option<string>, description: Option<string>, available: Option<bool>)
    : (r: Result<bool, Error>)
    ensures r.Ok? <==> !IsBlank(name) && !IsBlank(description) && available.Some?
    ensures r != Ok(false)
    ensures r.Err? ==> r.error.ValidationError?
    ensures IsBlank(name) ==> r == Err(ValidationError(Name))
    ensures !IsBlank(name) && IsBlank(description) ==> r == Err(ValidationError(Description))
    ensures !IsBlank(name) && !IsBlank(description) && available.None? ==> r == Err(ValidationError(Availability))
  {
    if IsBlank(name) then Err(ValidationError(Name))
    else if IsBlank(description) then Err(ValidationError(Description))
    else if available.None? then Err(ValidationError(Availability))
    else Ok(true)
  }

  /** `isItemValid`. */
  function IsItemValid(item: Item): (r: Result<bool, Error>)
    ensures r == Ok(true) <==> ItemIsValid(item)
    ensures r.Ok? ==> r.value
    ensures !ItemIsValid(item) ==> r.Err? && r.error.ValidationError?
  {
    CheckFields(item.name, item.description, item.available)
  }

  /** `isItemDtoValid`. */
  function IsItemDtoValid(dto: ItemDto): (r: Result<bool, Error>)
    ensures r == Ok(true) <==> !IsBlank(dto.name) && !IsBlank(dto.description) && dto.available.Some?
    ensures r.Ok? ==> r.value
    ensures !(!IsBlank(dto.name) && !IsBlank(dto.description) && dto.available.Some?) ==> r.Err? && r.error.ValidationError?
  {
    CheckFields(dto.name, dto.description, dto.available)
  }

  /** The validity the validator accepts, as a predicate. */
  predicate ItemIsValid(item: Item) {
    !IsBlank(item.name) && !IsBlank(item.description) && item.available.Some?
  }

  /** A record and a transfer object with the same three fields get the
      same verdict, in particular the same reported field. */
  lemma ItemAndDtoAgree(item: Item, dto: ItemDto)
    requires item.name == dto.name && item.description == dto.description
    requires item.available == dto.available
    ensures IsItemValid(item) == IsItemDtoValid(dto)
  {
  }

  /** Only an all-whitespace name counts as blank: three spaces are
      rejected exactly as a null name is. */
  lemma SpacesRejectedLikeNull(description: Option<string>, available: Option<bool>)
    ensures CheckFields(Some("   "), description, available) == CheckFields(None, description, available)
    ensures CheckFields(Some("   "), description, available) == Err(ValidationError(Name))
  {
    assert IsBlank(Some("   "));
  }
}
