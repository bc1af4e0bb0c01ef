# ShareIt item catalog — a Dafny model

This project models the item catalog of the ShareIt item-sharing backend. It also models one parser from its gateway. The parts modelled are:

- **`InMemoryItemStorage`**: the in-memory item table. It is a map from id to item plus a counter that hands out ids 1, 2, 3, …. It supports lookup, listing by owner, case-insensitive search over available items, validated create, partial update, delete and cascade delete by owner. It is modelled as the class `ItemStorage.InMemoryItemStorage`, with the map and the counter as fields. A ghost set `Issued` records every id ever handed out, and the invariant `Valid()` holds the facts the operations rely on.
- **`ItemValidator`**: three checks in order. The name must not be blank, then the description must not be blank, then the availability must be present. The first check that fails decides the reported field. Success is always `true`.
- **`ItemServiceImpl`**: the layer over the store. `update` and `delete` first check that the acting user owns the item at the path id; anyone else gets not-found. `delete` then removes that item, but `update` has the store write to the item named by the payload's id, which may belong to another user (see Findings). The service maps between items and transfer objects, and lower-cases the search text before passing it to the store.
- **`State.fromValue`** (gateway): an exact, case-sensitive name lookup over the booking-list filters. Any other string, and also `null`, gives `UNSUPPORTED_STATUS`.
- **`ItemDaoImpl`**: a create-only table. Its ids come from a pre-incremented counter.

Java `null` is `Common.Option.None`. A thrown exception is `Common.Result.Err` carrying an `Items.Error`: either `ValidationError(field)` or `ItemNotFound(cause)`. The cause tells apart an unknown or null id from an item the acting user does not own. A Java `Item` object is modelled as an immutable `Items.Item` value held in the map. Writing into the stored object in place becomes writing a new value under the same key.

Files: `common.dfy`, `text.dfy` (blankness, lower-casing, `containsIgnoreCase`), `items.dfy` (records, errors, mapper), `item_validator.dfy`, `item_storage.dfy`, `item_service.dfy`, `booking_state.dfy`, `item_dao.dfy`.

## Model

| member | source | states |
|---|---|---|
| `ItemStorage.InMemoryItemStorage.constructor` | src/main/java/ru/practicum/shareit/item/InMemoryItemStorage.java:15-16 | The table starts empty with the counter at 0, and the invariant holds. |
| `ItemStorage.InMemoryItemStorage.Select` | src/main/java/ru/practicum/shareit/item/InMemoryItemStorage.java:28-30 | A stream filter over the stored values returns every stored item the filter accepts, and nothing else. Each item appears once, in no promised order. |
| `ItemStorage.InMemoryItemStorage.GetItemById` | src/main/java/ru/practicum/shareit/item/InMemoryItemStorage.java:19-24 | A present key gives the stored item. An absent key fails with item-not-found for that id. |
| `ItemStorage.InMemoryItemStorage.GetItemsByOwner` | src/main/java/ru/practicum/shareit/item/InMemoryItemStorage.java:27-31 | The result holds exactly the stored items whose owner is the given user, each once, in no promised order. |
| `ItemStorage.InMemoryItemStorage.GetItemsBySearchQuery` | src/main/java/ru/practicum/shareit/item/InMemoryItemStorage.java:34-44 | A blank text gives nothing. Otherwise the result holds exactly the available stored items whose name or description contains the text ignoring case, each once. |
| `ItemStorage.InMemoryItemStorage.Create` | src/main/java/ru/practicum/shareit/item/InMemoryItemStorage.java:47-52 | An invalid item raises the validator's error and changes neither the map nor the counter. A valid item gets id `currentId+1` and is stored under it. That id was never issued before and is not a key. The invariant is kept, and so is "all stored items valid". |
| `ItemStorage.InMemoryItemStorage.Update` | src/main/java/ru/practicum/shareit/item/InMemoryItemStorage.java:55-67 | A null or absent id fails with not-found and changes nothing. A present id gets the payload's non-null name, description and availability merged in. The merged item is stored whether or not it then passes validation, and a failed validation is still reported (see Findings). |
| `ItemStorage.InMemoryItemStorage.UpdateValidated` | src/main/java/ru/practicum/shareit/item/InMemoryItemStorage.java:55-67 | Corrected update: any failure leaves the map unchanged. A valid merge is stored under its id. "All stored items valid" is preserved. |
| `ItemStorage.InMemoryItemStorage.Delete` | src/main/java/ru/practicum/shareit/item/InMemoryItemStorage.java:70-75 | An absent key fails with not-found and leaves the map unchanged. A present key is removed and no other entry changes. The item that was stored there is returned. The counter and the issued ids stay, so deleted ids are never reused. |
| `ItemStorage.InMemoryItemStorage.DeleteItemsByOwner` | src/main/java/ru/practicum/shareit/item/InMemoryItemStorage.java:78-86 | The owner's ids are collected, then removed one by one. Afterwards the map is exactly the old map without the owner's items, and every other item is present and unchanged. |
| `ItemStorage.Merge` | src/main/java/ru/practicum/shareit/item/InMemoryItemStorage.java:59-62 | Only non-null payload fields overwrite the stored name, description and availability. The stored id, owner and request id never change. |
| `ItemStorage.MergeIdempotent` | src/main/java/ru/practicum/shareit/item/InMemoryItemStorage.java:59-62 | Applying the same partial update twice gives the same item as applying it once. |
| `ItemStorage.MergeKeepsAvailability` | src/main/java/ru/practicum/shareit/item/InMemoryItemStorage.java:62 | A null availability in the payload is never copied, so a stored item never gets a null availability. The search's unboxing at line 38 therefore cannot fail. |
| `ItemStorage.MergeOfValidIsValid` | src/main/java/ru/practicum/shareit/item/InMemoryItemStorage.java:59-64 | Merging non-blank fields into a valid item gives a valid item. |
| `ItemStorage.MatchesSearchLowerIff` | src/main/java/ru/practicum/shareit/item/InMemoryItemStorage.java:39-40 | An item matches the lower-cased text exactly when it matches the text itself. |
| `ItemStorage.BlankNameUpdateScenario` | src/main/java/ru/practicum/shareit/item/InMemoryItemStorage.java:59-64 | Counterexample: updating a valid item with name `" "` raises the name validation error, and the stored item keeps the name `" "`, so the store now holds an invalid item. |
| `ItemStorage.BlankNameUpdateRejectedScenario` | src/main/java/ru/practicum/shareit/item/InMemoryItemStorage.java:55-67 | The same request against the corrected update reports the same error and leaves the stored item intact. |
| `ItemValidation.CheckFields` | src/main/java/ru/practicum/shareit/item/ItemValidator.java:15-23 | Succeeds exactly when name and description are non-blank and availability is present. The checks run in the order name, description, availability. The first failure names its field: a blank name gives the name error; otherwise a blank description gives the description error; otherwise a missing availability gives the availability error. The verdict is never `false`. |
| `ItemValidation.IsItemValid` | src/main/java/ru/practicum/shareit/item/ItemValidator.java:14-24 | Gives `true` exactly for items that satisfy the validity predicate. It never gives `false`: an invalid item always gives a validation error. |
| `ItemValidation.IsItemDtoValid` | src/main/java/ru/practicum/shareit/item/ItemValidator.java:26-36 | The same three rules, applied to a transfer object: `true` exactly for a valid one, never `false`, and a validation error otherwise. |
| `ItemValidation.ItemAndDtoAgree` | src/main/java/ru/practicum/shareit/item/ItemValidator.java:14-36 | An item and a transfer object with equal name, description and availability get the same verdict, including the same reported field. |
| `ItemValidation.SpacesRejectedLikeNull` | src/main/java/ru/practicum/shareit/item/ItemValidator.java:15 | A name of three spaces is rejected exactly as a null name is, with the name error. |
| `Text.Lower` | src/main/java/ru/practicum/shareit/item/ItemServiceImpl.java:35 | The lower-cased text has the same length. It has no upper-case letter left, and each character equals the original one ignoring case. |
| `Text.LowerIdempotent` | src/main/java/ru/practicum/shareit/item/ItemServiceImpl.java:35 | Lower-casing an already lower-cased text changes nothing. |
| `Text.ContainsLowerIff` | src/main/java/ru/practicum/shareit/item/ItemServiceImpl.java:35 | `containsIgnoreCase(s, lower(t))` equals `containsIgnoreCase(s, t)`, including for a null `s`. |
| `Text.BlankLowerIff` | src/main/java/ru/practicum/shareit/item/ItemServiceImpl.java:35 | A text is blank exactly when its lower-cased form is blank. |
| `Items.MapperRoundTrip` | src/main/java/ru/practicum/shareit/item/dto/ItemDto.java:16-22 | For the assumed field-for-field mapper (`ItemMapper` is not part of this model), item to transfer object and back, given the owner, is the identity in both directions. No shown source states this; it records the mapping assumption. |
| `ItemService.ItemServiceImpl.constructor` | src/main/java/ru/practicum/shareit/item/ItemServiceImpl.java:19 | The service works over the store it is given. |
| `ItemService.ItemServiceImpl.GetItemById` | src/main/java/ru/practicum/shareit/item/ItemServiceImpl.java:22-24 | Gives the stored item as a transfer object, or not-found for an absent id. |
| `ItemService.ItemServiceImpl.GetItemsByOwner` | src/main/java/ru/practicum/shareit/item/ItemServiceImpl.java:27-31 | Gives exactly one transfer object per stored item of the owner, and no others. |
| `ItemService.ItemServiceImpl.GetItemsBySearchQuery` | src/main/java/ru/practicum/shareit/item/ItemServiceImpl.java:34-38 | The store is asked with the lower-cased text. The result is exactly the transfer objects of the items that match the original text. |
| `ItemService.ItemServiceImpl.Create` | src/main/java/ru/practicum/shareit/item/ItemServiceImpl.java:41-43 | An invalid transfer object gives its validation error and no change. A valid one is stored, owned by the acting user, under a never-issued id, and comes back with that id. |
| `ItemService.ItemServiceImpl.Update` | src/main/java/ru/practicum/shareit/item/ItemServiceImpl.java:46-55 | An unknown path id fails with not-found, and so does a caller who does not own the item; neither changes the store. Otherwise the store updates the payload's id, defaulted to the path id when null (see Findings). |
| `ItemService.ItemServiceImpl.UpdateOwnItem` | src/main/java/ru/practicum/shareit/item/ItemServiceImpl.java:46-55 | Corrected update. It changes at most the item at the path id, only for its owner and only when the merge is valid. Every other item stays as it was, and "all stored items valid" is preserved. |
| `ItemService.ItemServiceImpl.Delete` | src/main/java/ru/practicum/shareit/item/ItemServiceImpl.java:58-64 | An unknown id fails with not-found, and so does a non-owner; in both cases the item stays stored. For the owner, the item is removed and returned. |
| `ItemService.ItemServiceImpl.DeleteItemsByOwner` | src/main/java/ru/practicum/shareit/item/ItemServiceImpl.java:67-69 | Afterwards the store holds exactly the items of other owners, unchanged. |
| `ItemService.CrossOwnerUpdateScenario` | src/main/java/ru/practicum/shareit/item/ItemServiceImpl.java:47-54 | Counterexample: user 1 sends an update on the path of their own item 1 with body id 2. The update succeeds and renames item 2, which user 2 owns. |
| `ItemService.CrossOwnerUpdateBlockedScenario` | src/main/java/ru/practicum/shareit/item/ItemServiceImpl.java:46-55 | The same request against the corrected update renames item 1 and leaves item 2 as it was. |
| `BookingState.FindFrom` | gateway/src/main/java/ru/practicum/shareit/booking/dto/State.java:22-27 | The loop returns either `UNSUPPORTED_STATUS` or a constant whose name equals the input. If any remaining constant's name equals the input, it returns a constant with that name. |
| `BookingState.FromValue` | gateway/src/main/java/ru/practicum/shareit/booking/dto/State.java:21-28 | Total: the name of a constant gives a constant with that name. Anything else, including null, gives `UNSUPPORTED_STATUS`. |
| `BookingState.Listed` | gateway/src/main/java/ru/practicum/shareit/booking/dto/State.java:7-19 | `values()` lists all seven constants. |
| `BookingState.SearchFindsEveryName` | gateway/src/main/java/ru/practicum/shareit/booking/dto/State.java:22-26 | Searching all of `values()` finds the name of any constant. |
| `BookingState.NamesDistinct` | gateway/src/main/java/ru/practicum/shareit/booking/dto/State.java:7-19 | No two constants share a name, so the first match is the only match. |
| `BookingState.RoundTrip` | gateway/src/main/java/ru/practicum/shareit/booking/dto/State.java:21-26 | `fromValue(name(s)) == s` for all seven constants. |
| `BookingState.LowerCaseUnsupported` | gateway/src/main/java/ru/practicum/shareit/booking/dto/State.java:23 | Matching is exact and case-sensitive: `"all"` and `"waiting"` give `UNSUPPORTED_STATUS`. |
| `BookingState.NullUnsupported` | gateway/src/main/java/ru/practicum/shareit/booking/dto/State.java:22-27 | A null input gives `UNSUPPORTED_STATUS` and does not throw. |
| `ItemDao.ItemDaoImpl.constructor` | src/main/java/ru/practicum/shareit/item/dao/ItemDaoImpl.java:10-11 | The table starts empty with the counter at 0. |
| `ItemDao.ItemDaoImpl.GenerateId` | src/main/java/ru/practicum/shareit/item/dao/ItemDaoImpl.java:13-15 | The counter is pre-incremented and the new value is returned. That value is not yet a key. |
| `ItemDao.ItemDaoImpl.Create` | src/main/java/ru/practicum/shareit/item/dao/ItemDaoImpl.java:18-23 | The item comes back with the next id set and is stored under it. The id is fresh, the map grows by exactly one entry, and earlier entries are untouched. |
| `ItemDao.CreateInOrder` | src/main/java/ru/practicum/shareit/item/dao/ItemDaoImpl.java:11-21 | Successive creates on a new table give ids 1, 2, 3, … in call order. Afterwards the table's keys are exactly 1..n, with the n-th item under n. |

## Left out

- ItemStorage.InMemoryItemStorage.Create: ids are unbounded integers. The wrap-around of the Java `Long` counter after 2^63−1 creates is not modelled.
- ItemDao.ItemDaoImpl.Create: the same applies to its `Long` counter.
- Text.Lower, Text.ToLower: only ASCII letters are lower-cased, so `Text.Lower` always keeps the length, which Java's `String.toLowerCase` does not guarantee, and `containsIgnoreCase` is modelled with the same per-character fold. Java's locale-dependent Unicode case mapping, including mappings that change a string's length, is not modelled. Dafny characters are Unicode scalar values, not UTF-16 code units.
- Aliasing: `create` stores the caller's object, and `getItemById` hands out the stored object itself. A caller that later mutates such an object would change the stored item. Items are values here, so this is not modelled. The service always passes freshly mapped objects.
- `ItemServiceImpl.update` writes the default id into the caller's transfer object in place. The model writes it into a local copy.
- A null `ownerId` on a stored item, or a null search text, would throw `NullPointerException`. The mapper always sets the owner from the mandatory request header, and the controller requires the text, so `ownerId` is an `int` and the text is a string.
- `ItemMapper` is not part of this model. `toItem` and `toItemDto` are taken to be field-for-field copies, with `toItem` setting the owner.
- The `Item` entity used by `ItemDaoImpl` (package `item.entity`) is not part of this model. It is assumed to have the same shape as `Item`.
- `HashMap` iteration order: list results are specified as sets of distinct items, in no order.
- Concurrency: the unsynchronised counters and maps are modelled sequentially.
- The booking service (creation, approval, state-filtered listing, last/next booking, comment eligibility) is not part of this model. `BookingState.FromValue` covers only the parsing of the filter name.
- The controllers, the gateway's HTTP client, the user service and user validator, the request intake, Spring wiring and logging are not part of this model.

## Findings

| source | as written | input that shows it | evidently intended | confidence | as-written member | corrected member |
|---|---|---|---|---|---|---|
| src/main/java/ru/practicum/shareit/item/InMemoryItemStorage.java:59-64 | The payload's non-null fields are written into the stored item object before `isItemValid` runs. When validation throws, the write stays in the map. | Store item 1 `{name "Drill", description "Cordless drill", available true}`, then `update({id 1, name " "})`: a `ValidationException` is raised, but item 1's name is now `" "` | Validate the merged item before storing it, so a rejected update changes nothing | high (not executed) | `ItemStorage.BlankNameUpdateScenario` | `ItemStorage.InMemoryItemStorage.UpdateValidated` |
| src/main/java/ru/practicum/shareit/item/ItemServiceImpl.java:47-54 | Ownership is checked for the path `itemId`, but the store updates the item named by the body's `id`, which is kept when it is non-null. | Item 1 owned by user 1, item 2 owned by user 2. `update({id 2, name "Taken"}, ownerId 1, itemId 1)` succeeds and renames item 2 | Update only the item at the path id, which the ownership check covered | medium (not executed) | `ItemService.CrossOwnerUpdateScenario` | `ItemService.ItemServiceImpl.UpdateOwnItem` |
