# juniemvc service core in Dafny

A Dafny model of the service core of juniemvc, a Spring Boot CRUD back end for
a beer catalogue, its customers, their beer orders and the shipments of those
orders. The model covers:

- the MapStruct mappers between entities and transfer objects, including the
  null-ignoring PATCH merge for beers and the shipment update helper;
- the beer repository's case-insensitive substring finders and their paging;
- the four service implementations:
  - beer listing with its four-way filter dispatch;
  - order creation, which resolves each ordered beer;
  - shipment creation and update, which can move a shipment to another order;
  - customer contact update;
  - the `existsById`/`deleteById` delete the services share.

Modelling choices, in the system's terms:

- **Entities are immutable datatypes.**
  - Every Java reference field is an `Option` (`None` is `null`).
  - `BigDecimal`, `LocalDate` and `LocalDateTime` are opaque values that are
    copied and never computed on.
- **A repository is a `Store.Table`.** It is a map from key to row plus the
  key the next insert receives, which models an IDENTITY column.
  - Saving a new entity is `Insert`.
  - Saving a loaded entity is `Replace`.
  - A listing (`findAll`) runs in ascending key order.
  - Each service operation returns the new table beside its Java result.
- **Relationships are foreign-key ids.**
  - A line names its beer and its order by id; a shipment names its order;
    an order names its customer.
  - An order's lines are stored with its row. The line's reference to its
    order is the owning side of the relationship (`mappedBy = "beerOrder"`),
    so the row keeps, and a later load finds, only the lines that point at
    the order (`BeerOrderService.Persisted`). A service's response converts
    the order as it was built in memory, which can hold more.
  - Shipments live in their own table. The order's shipment list is the
    inverse side and is not persisted.
- **Exceptions are `Err` values.**
  - A thrown exception that escapes a service becomes
    `Err(BeerNotFound(id))`, `Err(BeerOrderNotFound(id))`, `Err(NullId)`
    (`findById(null)`) or `Err(NullLink)` (a shipment without an order).
  - On an error the store is unchanged, as the transaction rolls back.
- **`Optional` results are `Option` values.**
- **The line mapper needs the beer rows.** The line DTO embeds a snapshot of
  the ordered beer, so the line-to-DTO mapper takes the beer rows as a
  parameter to resolve the beer by id.

`Beer.java` declares no `imageUrl` field. `BeerMapper.java:13` and
`BeerMapper.java:19` map one, `BeerMapper.java:34` patches one, and the mapper
tests build beers with one. The model follows the mapper and gives `Beer` an
`imageUrl`.

## Model

| member | source | states |
|---|---|---|
| Text.HasText | src/main/java/com/igorfragadev/juniemvc/services/BeerServiceImpl.java:41-42 | `StringUtils.hasText`: true exactly when the string is non-null and holds a non-whitespace character, hence is non-empty |
| Text.HasNonWhitespace | src/main/java/com/igorfragadev/juniemvc/services/BeerServiceImpl.java:41-42 | the recursive scan is true exactly when some character is not whitespace |
| Text.Contains | src/main/java/com/igorfragadev/juniemvc/repositories/BeerRepository.java:18 | the `Containing` scan is true exactly when the needle occurs at some position of the text |
| Text.ToLowerIdempotent | src/main/java/com/igorfragadev/juniemvc/repositories/BeerRepository.java:18 | case folding twice is folding once |
| Text.ContainsIgnoreCaseOfLowered | src/main/java/com/igorfragadev/juniemvc/repositories/BeerRepository.java:18 | `IgnoreCase`: the match does not depend on the case the filter is spelled in |
| Text.LowerFilterMatchesUpperName | src/main/java/com/igorfragadev/juniemvc/repositories/BeerRepository.java:18 | the filter "ipa" matches the name "IPA Supreme" |
| Text.EmptyFilterMatchesAll | src/main/java/com/igorfragadev/juniemvc/repositories/BeerRepository.java:18 | an empty filter matches every text |
| Store.Insert | src/main/java/com/igorfragadev/juniemvc/services/BeerServiceImpl.java:72-73 | saving a new entity stores it under a fresh key, adds exactly that key, leaves every other row and keeps the table valid |
| Store.Replace | src/main/java/com/igorfragadev/juniemvc/services/BeerServiceImpl.java:88 | saving a loaded entity replaces its row only; keys and counter stay |
| Store.Delete | src/main/java/com/igorfragadev/juniemvc/services/BeerServiceImpl.java:95-101 | `existsById` then `deleteById`: true exactly when the key was stored, and the key is gone afterwards |
| Store.DeleteTwice | src/main/java/com/igorfragadev/juniemvc/services/BeerServiceImpl.java:95-101 | a second delete of the same key reports false and changes nothing |
| Store.InRows | src/main/java/com/igorfragadev/juniemvc/repositories/BeerRepository.java:43 | `findAll` lists exactly the stored rows |
| Entities.NewBeerOrder | src/main/java/com/igorfragadev/juniemvc/entities/BeerOrder.java:61-67 | a built order starts with empty line and shipment lists, so both sides of each relationship agree from the start |
| Entities.AddBeerOrderLine | src/main/java/com/igorfragadev/juniemvc/entities/BeerOrder.java:69-73 | the line is appended after the existing ones and points back at the order; nothing else changes; an order whose lines all point back at it keeps that property |
| Entities.AddBeerOrderShipment | src/main/java/com/igorfragadev/juniemvc/entities/BeerOrder.java:75-79 | the shipment is appended to the order's list and points back at the order; nothing else changes; the shipments keep pointing back at the order, and the lines are untouched |
| Entities.AddBeerOrderLines | src/main/java/com/igorfragadev/juniemvc/services/BeerOrderServiceImpl.java:56-68 | adding lines one at a time keeps the old lines as a prefix and appends each new line, in order, pointing at the order |
| Entities.AddBeerOrderLinesKeepLinks | src/main/java/com/igorfragadev/juniemvc/entities/BeerOrder.java:69-73 | the bidirectional helper, used once per line, keeps every line of the order pointing back at it |
| BeerMapper.BeerToBeerDto | src/main/java/com/igorfragadev/juniemvc/mappers/BeerMapper.java:13-14 | outbound mapping carries identity, version, all six properties and both timestamps |
| BeerMapper.BeerDtoToBeer | src/main/java/com/igorfragadev/juniemvc/mappers/BeerMapper.java:16-20 | inbound mapping drops id and both timestamps and copies the rest; the line list is empty |
| BeerMapper.UpdateBeerFromBeerPathDto | src/main/java/com/igorfragadev/juniemvc/mappers/BeerMapper.java:29-40 | each of the six properties is overwritten exactly when the patch has a value; id, version, timestamps and lines never change |
| BeerMapper.EmptyPatchIsIdentity | src/main/java/com/igorfragadev/juniemvc/mappers/BeerMapper.java:29-40 | an all-null patch leaves the beer as it was, whatever id and version it carries |
| BeerMapper.PatchIdempotent | src/main/java/com/igorfragadev/juniemvc/mappers/BeerMapper.java:29-40 | applying a patch twice is applying it once |
| BeerMapper.PatchesCompose | src/main/java/com/igorfragadev/juniemvc/mappers/BeerMapper.java:29-40 | two patches in turn equal one patch in which the later one's present values win |
| BeerMapper.PatchWithOwnValuesIsIdentity | src/main/java/com/igorfragadev/juniemvc/mappers/BeerMapper.java:29-40 | patching a beer with its own values changes nothing |
| BeerMapper.EntityRoundTrip | src/main/java/com/igorfragadev/juniemvc/mappers/BeerMapper.java:13-20 | entity to DTO and back loses only id, timestamps and lines |
| BeerMapper.DtoRoundTrip | src/main/java/com/igorfragadev/juniemvc/mappers/BeerMapper.java:13-20 | DTO to entity and back loses only id and timestamps |
| BeerOrderLineMapper.BeerOrderLineToBeerOrderLineDto | src/main/java/com/igorfragadev/juniemvc/mappers/BeerOrderLineMapper.java:10-11 | `beerId` is the line's beer id; the nested beer snapshot is present exactly when that beer is stored; the other properties are carried over |
| BeerOrderLineMapper.BeerOrderLineDtoToBeerOrderLine | src/main/java/com/igorfragadev/juniemvc/mappers/BeerOrderLineMapper.java:13-18 | inbound line mapping ignores id, beer, order and timestamps |
| BeerOrderLineMapper.LineRoundTrip | src/main/java/com/igorfragadev/juniemvc/mappers/BeerOrderLineMapper.java:10-18 | line to DTO and back keeps version, quantities and status and loses every reference |
| BeerOrderMapper.BeerOrderToBeerOrderDto | src/main/java/com/igorfragadev/juniemvc/mappers/BeerOrderMapper.java:8-10 | the order header is carried over and the lines are mapped one for one, in order, through the line mapper |
| BeerOrderMapper.OrderRoundTrip | src/main/java/com/igorfragadev/juniemvc/mappers/BeerOrderMapper.java:8-15 | order to DTO and back keeps version, the three order properties and each line's own values, one for one; it loses id, timestamps, customer and shipments, and each line loses id, references and timestamps |
| BeerOrderMapper.BeerOrderDtoToBeerOrder | src/main/java/com/igorfragadev/juniemvc/mappers/BeerOrderMapper.java:12-15 | id and timestamps are dropped; every DTO line becomes an unlinked entity line; no customer, no shipments |
| BeerOrderShipmentMapper.BeerOrderShipmentToBeerOrderShipmentDto | src/main/java/com/igorfragadev/juniemvc/mappers/BeerOrderShipmentMapper.java:11-12 | `beerOrderId` is the linked order's id; everything else is carried over |
| BeerOrderShipmentMapper.BeerOrderShipmentDtoToBeerOrderShipment | src/main/java/com/igorfragadev/juniemvc/mappers/BeerOrderShipmentMapper.java:14-18 | id, timestamps and the order link are dropped; date, carrier, tracking number and version are copied |
| BeerOrderShipmentMapper.UpdateBeerOrderShipment | src/main/java/com/igorfragadev/juniemvc/mappers/BeerOrderShipmentMapper.java:20-34 | a null DTO returns the shipment unchanged; otherwise date, carrier and tracking number are overwritten, null included, and the link moves only when an order is given |
| BeerOrderShipmentMapper.UpdateIdempotent | src/main/java/com/igorfragadev/juniemvc/mappers/BeerOrderShipmentMapper.java:20-34 | updating twice from the same DTO and order is updating once |
| BeerOrderShipmentMapper.UpdateFromOwnDtoIsIdentity | src/main/java/com/igorfragadev/juniemvc/mappers/BeerOrderShipmentMapper.java:20-34 | updating a shipment from its own DTO, keeping the link, changes nothing |
| BeerOrderShipmentMapper.ShipmentRoundTrip | src/main/java/com/igorfragadev/juniemvc/mappers/BeerOrderShipmentMapper.java:11-18 | shipment to DTO and back loses only id, link and timestamps |
| CustomerMapper.CustomerToCustomerDto | src/main/java/com/igorfragadev/juniemvc/mappers/CustomerMapper.java:10-11 | outbound mapping carries every contact property, identity and timestamps; the order list is left empty |
| CustomerMapper.CustomerDtoToCustomer | src/main/java/com/igorfragadev/juniemvc/mappers/CustomerMapper.java:13-17 | inbound mapping ignores id, both timestamps and the order list |
| CustomerMapper.CustomerDtoRoundTrip | src/main/java/com/igorfragadev/juniemvc/mappers/CustomerMapper.java:10-17 | DTO to entity and back loses only id, timestamps and orders |
| BeerRepository.PageOf | src/main/java/com/igorfragadev/juniemvc/repositories/BeerRepository.java:43 | a page holds at most `pageSize` consecutive results starting at `pageNumber * pageSize`, none past the end, and counts all results |
| BeerRepository.InPage | src/main/java/com/igorfragadev/juniemvc/repositories/BeerRepository.java:43 | every result appears on page `i / size` at position `i % size` |
| BeerRepository.MapPage | src/main/java/com/igorfragadev/juniemvc/services/BeerServiceImpl.java:59 | `Page.map` converts each element and keeps order, count and total |
| BeerRepository.MapPageOf | src/main/java/com/igorfragadev/juniemvc/services/BeerServiceImpl.java:59 | converting a page equals taking the same page of the converted results |
| BeerRepository.NameFinderExact | src/main/java/com/igorfragadev/juniemvc/repositories/BeerRepository.java:18 | the name finder keeps exactly the stored beers whose non-null name contains the filter ignoring case, and pages them |
| BeerRepository.StyleFinderExact | src/main/java/com/igorfragadev/juniemvc/repositories/BeerRepository.java:26 | the style finder keeps exactly the stored beers whose non-null style contains the filter ignoring case, and pages them |
| BeerRepository.CombinedFinderIsIntersection | src/main/java/com/igorfragadev/juniemvc/repositories/BeerRepository.java:35-36 | the combined finder's matches are the name finder's matches filtered by style, the intersection of both finders |
| BeerRepository.FiltersNarrowFindAll | src/main/java/com/igorfragadev/juniemvc/repositories/BeerRepository.java:18-43 | every finder's matches are stored beers, so no filter counts more than `findAll` |
| BeerService.GetAllBeers | src/main/java/com/igorfragadev/juniemvc/services/BeerServiceImpl.java:30-34 | every stored beer, converted, one per row, in listing order |
| BeerService.GetAllBeersFiltered | src/main/java/com/igorfragadev/juniemvc/services/BeerServiceImpl.java:38-60 | the dispatched page equals the page of the beers passing every filter that has text; it never exceeds the page size |
| BeerService.DispatchAgrees | src/main/java/com/igorfragadev/juniemvc/services/BeerServiceImpl.java:44-57 | each of the four branches filters exactly as the combined selection rule |
| BeerService.FilteredListingSound | src/main/java/com/igorfragadev/juniemvc/services/BeerServiceImpl.java:38-60 | every listed DTO is a stored beer that passes the active filters, and the total counts all passing beers |
| BeerService.BlankFiltersListEverything | src/main/java/com/igorfragadev/juniemvc/services/BeerServiceImpl.java:54-57 | with both filters null, empty or blank the listing is the unfiltered `findAll` page |
| BeerService.GetBeerById | src/main/java/com/igorfragadev/juniemvc/services/BeerServiceImpl.java:64-67 | present exactly when the id is stored, and then that beer's DTO |
| BeerService.SaveBeer | src/main/java/com/igorfragadev/juniemvc/services/BeerServiceImpl.java:71-75 | exactly one new row, the mapped DTO under the next key; every other row unchanged; consistency kept |
| BeerService.SavedBeerReadsBack | src/main/java/com/igorfragadev/juniemvc/services/BeerServiceImpl.java:30-75 | a saved beer reads back by id as the returned DTO and is listed after every earlier beer |
| BeerService.UpdateBeer | src/main/java/com/igorfragadev/juniemvc/services/BeerServiceImpl.java:79-91 | on a stored id, name, style, UPC, price and quantity come from the DTO, null included; image URL, id, version, timestamps and lines stay; a missing id changes nothing |
| BeerService.UpdateIsPatchOfPresentValues | src/main/java/com/igorfragadev/juniemvc/services/BeerServiceImpl.java:79-91 | with all five values present, PUT gives the same beer as a PATCH carrying those five |
| BeerService.DeleteBeer | src/main/java/com/igorfragadev/juniemvc/services/BeerServiceImpl.java:95-101 | true exactly when the id was stored; afterwards it is gone; consistency kept |
| BeerService.DeleteBeerTwice | src/main/java/com/igorfragadev/juniemvc/services/BeerServiceImpl.java:95-101 | after a delete the beer is unreadable and a second delete reports false |
| BeerOrderService.GetAllBeerOrders | src/main/java/com/igorfragadev/juniemvc/services/BeerOrderServiceImpl.java:36-40 | every stored order, converted, in listing order |
| BeerOrderService.GetBeerOrderById | src/main/java/com/igorfragadev/juniemvc/services/BeerOrderServiceImpl.java:44-47 | present exactly when the id is stored, and then that order's DTO |
| BeerOrderService.ResolveLines | src/main/java/com/igorfragadev/juniemvc/services/BeerOrderServiceImpl.java:55-69 | succeeds exactly when every line's beer id is non-null and stored; builds one line per DTO line with its beer, quantity, 0 allocated and status NEW; otherwise fails with the first failing line's error |
| BeerOrderService.PersistedAddedLines | src/main/java/com/igorfragadev/juniemvc/entities/BeerOrder.java:61-73 | of an order's unlinked lines followed by the lines added to it, a load of the order finds exactly the added ones |
| BeerOrderService.SaveBeerOrder | src/main/java/com/igorfragadev/juniemvc/services/BeerOrderServiceImpl.java:51-73 | as written: fails, saving nothing, exactly when some beer cannot be found; otherwise stores the order under the next key with one resolved line per DTO line, keeping the table consistent, but returns the order as built: the mapper's lines followed by the resolved ones |
| BeerOrderService.SaveBeerOrderDuplicatesLines | src/main/java/com/igorfragadev/juniemvc/services/BeerOrderServiceImpl.java:52-72 | for any order with lines that all resolve, the response lists twice as many lines as were ordered, the first with no beer, while the stored order holds one per ordered line |
| BeerOrderService.SaveBeerOrderResolvedOnly | src/main/java/com/igorfragadev/juniemvc/services/BeerOrderServiceImpl.java:51-73 | as intended: the same failures; on success exactly one resolved line per DTO line, each pointing back at the order, and the response is the stored order; consistency kept |
| BeerOrderService.AsWrittenStoresIntended | src/main/java/com/igorfragadev/juniemvc/services/BeerOrderServiceImpl.java:51-73 | the two saves leave the same table and fail with the same error; only the response differs |
| BeerOrderService.SavedOrderReadsBack | src/main/java/com/igorfragadev/juniemvc/services/BeerOrderServiceImpl.java:44-73 | after either save, the order reads back by id as the intended response, with the resolved lines only; for an order with lines this differs from the as-written response |
| BeerOrderService.SavedOrderListed | src/main/java/com/igorfragadev/juniemvc/services/BeerOrderServiceImpl.java:36-73 | after either save, the listing is the earlier listing followed by the intended response |
| BeerOrderService.UpdateBeerOrder | src/main/java/com/igorfragadev/juniemvc/services/BeerOrderServiceImpl.java:77-92 | on a stored id only customer reference, payment amount and status change, to the DTO's values; a missing id changes nothing |
| BeerOrderService.UpdateReadsOnlyHeader | src/main/java/com/igorfragadev/juniemvc/services/BeerOrderServiceImpl.java:77-92 | the DTO's lines, id, version and timestamps have no effect on an update |
| BeerOrderService.DeleteBeerOrder | src/main/java/com/igorfragadev/juniemvc/services/BeerOrderServiceImpl.java:96-102 | true exactly when the id was stored; the order and its owned lines are gone |
| BeerOrderShipmentService.GetAllBeerOrderShipments | src/main/java/com/igorfragadev/juniemvc/services/BeerOrderShipmentServiceImpl.java:34-38 | every stored shipment, converted, in listing order |
| BeerOrderShipmentService.FindByBeerOrderIdExact | src/main/java/com/igorfragadev/juniemvc/services/BeerOrderShipmentServiceImpl.java:43 | `findByBeerOrderId` keeps exactly the stored shipments linked to the order |
| BeerOrderShipmentService.GetShipmentsByBeerOrderId | src/main/java/com/igorfragadev/juniemvc/services/BeerOrderShipmentServiceImpl.java:42-46 | the linked shipments converted, each naming the requested order, no more than are stored |
| BeerOrderShipmentService.GetBeerOrderShipmentById | src/main/java/com/igorfragadev/juniemvc/services/BeerOrderShipmentServiceImpl.java:50-53 | present exactly when the id is stored |
| BeerOrderShipmentService.SaveBeerOrderShipment | src/main/java/com/igorfragadev/juniemvc/services/BeerOrderShipmentServiceImpl.java:57-66 | fails, saving nothing, exactly when the DTO's order id is null or not stored; otherwise one new row linked to that order with the DTO's date, carrier and tracking number |
| BeerOrderShipmentService.SaveListsUnderOrder | src/main/java/com/igorfragadev/juniemvc/services/BeerOrderShipmentServiceImpl.java:42-66 | after a save the new shipment is listed last under its order and every other order's listing is unchanged |
| BeerOrderShipmentService.SavedShipmentListed | src/main/java/com/igorfragadev/juniemvc/services/BeerOrderShipmentServiceImpl.java:34-66 | a saved shipment reads back by id as the returned DTO, and the listing is the earlier listing followed by it |
| BeerOrderShipmentService.UpdateBeerOrderShipment | src/main/java/com/igorfragadev/juniemvc/services/BeerOrderShipmentServiceImpl.java:70-88 | a missing id gives an empty result; it fails, changing nothing, exactly when the shipment is unlinked or names another order while the DTO's order id is null or missing; otherwise it succeeds, date, carrier and tracking number come from the DTO, and the shipment ends up linked to the DTO's order (kept when it is the same order, moved when it is another stored one) |
| BeerOrderShipmentService.UpdateShipmentIdempotent | src/main/java/com/igorfragadev/juniemvc/services/BeerOrderShipmentServiceImpl.java:70-88 | repeating a successful update changes nothing further |
| BeerOrderShipmentService.UpdatedShipmentReadsBack | src/main/java/com/igorfragadev/juniemvc/services/BeerOrderShipmentServiceImpl.java:50-88 | an updated shipment reads back by id as the returned DTO |
| BeerOrderShipmentService.DeleteBeerOrderShipment | src/main/java/com/igorfragadev/juniemvc/services/BeerOrderShipmentServiceImpl.java:92-98 | true exactly when the id was stored; afterwards it is gone |
| CustomerService.GetAllCustomers | src/main/java/com/igorfragadev/juniemvc/services/CustomerServiceImpl.java:27-31 | every stored customer, converted, in listing order |
| CustomerService.GetCustomerById | src/main/java/com/igorfragadev/juniemvc/services/CustomerServiceImpl.java:35-38 | present exactly when the id is stored |
| CustomerService.SaveCustomer | src/main/java/com/igorfragadev/juniemvc/services/CustomerServiceImpl.java:42-46 | one new row under the next key; the returned DTO is the input with the new id and without timestamps or orders |
| CustomerService.SavedCustomerReadsBack | src/main/java/com/igorfragadev/juniemvc/services/CustomerServiceImpl.java:27-46 | a saved customer reads back by id as the returned DTO and is listed after every earlier customer |
| CustomerService.UpdateCustomer | src/main/java/com/igorfragadev/juniemvc/services/CustomerServiceImpl.java:50-65 | on a stored id the eight contact properties come from the DTO, null included; id, version, timestamps and orders stay; a missing id changes nothing |
| CustomerService.UpdateCustomerFixpoints | src/main/java/com/igorfragadev/juniemvc/services/CustomerServiceImpl.java:50-65 | updating with the customer's own DTO changes nothing, and a repeated update changes nothing further |
| CustomerService.UpdateReadsOnlyContact | src/main/java/com/igorfragadev/juniemvc/services/CustomerServiceImpl.java:50-65 | only the eight contact properties of the DTO are read |
| CustomerService.DeleteCustomer | src/main/java/com/igorfragadev/juniemvc/services/CustomerServiceImpl.java:69-75 | true exactly when the id was stored; afterwards it is gone |
| CustomerService.DeleteCustomerTwice | src/main/java/com/igorfragadev/juniemvc/services/CustomerServiceImpl.java:69-75 | after a delete the customer is unreadable and a second delete reports false |

## Left out

- **Not modelled at all:**
  - The REST controllers and the beer PATCH endpoint's wiring. The PATCH
    merge itself is `BeerMapper.UpdateBeerFromBeerPathDto`.
  - Bean Validation annotations on the DTOs.
  - The service interfaces.
  - The transaction machinery itself.
- **JPA bookkeeping:**
  - Optimistic-lock version increments and the creation and update
    timestamps the persistence layer fills in are not modelled. Saved rows
    keep whatever version the mapper gave them, and timestamps stay null.
  - Line ids are never assigned, because lines are stored with their order.
  - `BeerOrderService.SaveBeerOrder`: the mapper's unlinked lines are
    cascaded into the line table with a null order and a null beer. The
    model keeps no separate line table, so they appear only in the response.
    Whether a NOT NULL column rejects them depends on the database schema,
    which is not part of this model.
  - `BeerService.DeleteBeer`: a beer's order lines are the inverse side
    (`mappedBy = "beer"`) with no cascade. Deleting a beer that lines still
    refer to leaves those lines naming a deleted key. The model reports
    true and removes the row. Whether a foreign key makes the flush fail
    depends on the database schema, which is not part of this model.
    Afterwards the line mapper gives such a line a `beerId` without a beer
    snapshot.
  - `CustomerService.DeleteCustomer`: the same holds for orders whose
    customer link names the deleted customer. No operation here sets that
    link.
  - Cascade effects beyond owned lines are not modelled, such as deleting an
    order's shipments with it.
- **Inverse sides of relationships:**
  - The order's shipment list is appended in memory on save but never
    persisted.
  - A beer's list of order lines is not updated when a line is saved.
  - A customer's order list is not updated.
  - An order's customer link is never set, because no operation here sets it.
- **Paging and listing order:**
  - Sorting and the other `Pageable` options are not modelled.
  - A page is a page number and a page size of at least one.
  - The database's listing order is modelled as ascending id.
- **Case folding:** it is ASCII only. Unicode case mapping, and the SQL
  `upper(...) like upper(...)` the derived query runs, agree with it on
  ASCII text only.
- **A null `beerOrderLines` list:**
  - `BeerOrderMapper.BeerOrderDtoToBeerOrder`: maps a null list to an empty
    list. The generated MapStruct code is not part of this model, and it may
    leave the list null instead.
  - `BeerOrderService.SaveBeerOrder` skips the line loop in either case.
- **The order lookup in a shipment update:**
  - `BeerOrderShipmentService.UpdateBeerOrderShipment`: an order that is
    linked but has a null id cannot occur, because links are ids.
  - The `NullPointerException` from `getId()` is therefore modelled only for
    a shipment with no order (`NullLink`).
- **Null ids from callers:**
  - `BeerService.GetBeerById`, `BeerService.UpdateBeer`, `BeerService.DeleteBeer`,
    `BeerOrderService.GetBeerOrderById`, `BeerOrderService.UpdateBeerOrder`,
    `BeerOrderService.DeleteBeerOrder`,
    `BeerOrderShipmentService.GetShipmentsByBeerOrderId`,
    `BeerOrderShipmentService.GetBeerOrderShipmentById`,
    `BeerOrderShipmentService.UpdateBeerOrderShipment`,
    `BeerOrderShipmentService.DeleteBeerOrderShipment`,
    `CustomerService.GetCustomerById`, `CustomerService.UpdateCustomer` and
    `CustomerService.DeleteCustomer` take an `int`, not a nullable id.
  - `findById(null)` and `existsById(null)` throw. The callers pass REST
    path variables, which are never null, so this exception is not modelled
    for these ids.
- **Integer width:** `Integer` quantities and ids are unbounded integers.
  No operation here does arithmetic on them besides key generation.

## Findings

| source | as written | input that shows it | evidently intended | confidence | as-written member | corrected member |
|---|---|---|---|---|---|---|
| src/main/java/com/igorfragadev/juniemvc/services/BeerOrderServiceImpl.java:52-72 | `beerOrderDtoToBeerOrder` already maps every DTO line into the order, without beer or order. The loop then adds a second, resolved line for each DTO line, and the response converts the order as built. | An order DTO with one line whose `beerId` names a stored beer. The response lists two lines, and the first has no beer. Reading the order back finds one line, because the mapper's line does not point at the order, so the response differs from the stored order. The mapper test's one-line result at `BeerOrderMapperTest.java:164` shows the mapper copies the lines. The service test mocks the mapper, so it does not see this. | One saved line per DTO line, each with its beer, the requested quantity, nothing allocated, status NEW, and a link back to the order. | not executed; high that the lines are doubled, since it follows from the mapper's declared `uses` and its test | BeerOrderService.SaveBeerOrder, BeerOrderService.SaveBeerOrderDuplicatesLines, BeerOrderService.SavedOrderReadsBack | BeerOrderService.SaveBeerOrderResolvedOnly |
