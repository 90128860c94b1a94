/** The shipment service over the shipment table, reading the order table to
    link each shipment to its order: listing (all, or by order), lookup,
    create, update with relinking, and delete. A shipment's link to its order
    is the order id it stores; the order's own shipment list is the inverse
    side and is not written by these operations. */
module BeerOrderShipmentService {

  import opened Values
  import opened Store
  import opened Entities
  import opened Models
  import Mapper = BeerOrderShipmentMapper

  /** The table invariant every operation here preserves. */
  predicate Consistent(shipments: Table<BeerOrderShipment>) {
    Valid(shipments) && IdsMatch(shipments, ShipmentIdOf())
  }

  function ToDto(shipment: BeerOrderShipment): BeerOrderShipmentDto {
    Mapper.BeerOrderShipmentToBeerOrderShipmentDto(shipment)
  }

  function AsDto(): BeerOrderShipment -> BeerOrderShipmentDto {
    s => ToDto(s)
  }

  /** Each shipment converted, order kept. */
  function ToDtos(shipments: seq<BeerOrderShipment>): (r: seq<BeerOrderShipmentDto>)
    ensures |r| == |shipments|
    ensures forall i :: 0 <= i < |r| ==> r[i] == ToDto(shipments[i])
  {
    MapSeq(shipments, AsDto())
  }

  /** `getAllBeerOrderShipments`: every shipment, converted, in id order. */
  function GetAllBeerOrderShipments(shipments: Table<BeerOrderShipment>): (r: seq<BeerOrderShipmentDto>)
    ensures |r| == |Rows(shipments)|
    ensures forall i :: 0 <= i < |r| ==> r[i] == ToDto(shipments.rows[Keys(shipments)[i]])
  {
    ToDtos(Rows(shipments))
  }

  function ForOrder(beerOrderId: int): BeerOrderShipment -> bool {
    (s: BeerOrderShipment) => s.beerOrder == Some(beerOrderId)
  }

  /** `findByBeerOrderId`: the shipments linked to the order, in id order. */
  function FindByBeerOrderId(shipments: Table<BeerOrderShipment>, beerOrderId: int): seq<BeerOrderShipment> {
    Filter(Rows(shipments), ForOrder(beerOrderId))
  }

  /** The finder keeps exactly the stored shipments linked to the order. */
  lemma FindByBeerOrderIdExact(shipments: Table<BeerOrderShipment>, beerOrderId: int, s: BeerOrderShipment)
    requires Valid(shipments)
    ensures s in FindByBeerOrderId(shipments, beerOrderId) <==>
      (exists k :: k in shipments.rows && shipments.rows[k] == s) && s.beerOrder == Some(beerOrderId)
  {
    InRows(shipments, s);
    FilterMembership(Rows(shipments), ForOrder(beerOrderId), s);
  }

  /** `getShipmentsByBeerOrderId`: the linked shipments, converted; every DTO
      listed names the requested order. */
  function GetShipmentsByBeerOrderId(shipments: Table<BeerOrderShipment>, beerOrderId: int)
    : (r: seq<BeerOrderShipmentDto>)
    ensures |r| == |FindByBeerOrderId(shipments, beerOrderId)| <= |Rows(shipments)|
    ensures forall i :: 0 <= i < |r| ==>
      r[i] == ToDto(FindByBeerOrderId(shipments, beerOrderId)[i]) && r[i].beerOrderId == Some(beerOrderId)
  {
    ToDtos(FindByBeerOrderId(shipments, beerOrderId))
  }

  /** `getBeerOrderShipmentById`: present exactly when the id is stored. */
  function GetBeerOrderShipmentById(shipments: Table<BeerOrderShipment>, id: int)
    : (r: Option<BeerOrderShipmentDto>)
    ensures r.Some? <==> id in shipments.rows
    ensures r.Some? ==> r.value == ToDto(shipments.rows[id])
  {
    if id in shipments.rows then Some(ToDto(shipments.rows[id])) else None
  }

  /** What looking up the DTO's order throws, when it does. */
  function OrderLookupError(beerOrderId: Option<int>): Error {
    if beerOrderId.None? then NullId else BeerOrderNotFound(beerOrderId.value)
  }

  /** `saveBeerOrderShipment`: the DTO's order must exist; the mapped shipment
      is added to it, which links it to the order, and is saved under the next
      key. On a missing order nothing is saved. */
  function SaveBeerOrderShipment(shipments: Table<BeerOrderShipment>, orders: Table<BeerOrder>,
                                 dto: BeerOrderShipmentDto)
    : (r: (Table<BeerOrderShipment>, Result<BeerOrderShipmentDto>))
    ensures r.1.Err? <==> dto.beerOrderId.None? || dto.beerOrderId.value !in orders.rows
    ensures r.1.Err? ==> r.0 == shipments && r.1.error == OrderLookupError(dto.beerOrderId)
    ensures r.1.Ok? ==>
      var k := shipments.nextId;
      && r.0.rows.Keys == shipments.rows.Keys + {k} && r.0.nextId == k + 1
      && (forall j :: j in shipments.rows && j != k ==> r.0.rows[j] == shipments.rows[j])
      && r.0.rows[k].id == Some(k)
      && r.0.rows[k].beerOrder == orders.rows[dto.beerOrderId.value].id
      && r.0.rows[k].version == dto.version
      && r.0.rows[k].shipmentDate == dto.shipmentDate && r.0.rows[k].carrier == dto.carrier
      && r.0.rows[k].trackingNumber == dto.trackingNumber
      && r.0.rows[k].createdDate.None? && r.0.rows[k].updatedDate.None?
      && r.1.value == ToDto(r.0.rows[k])
    ensures r.1.Ok? && IdsMatch(orders, BeerOrderIdOf()) ==> r.1.value.beerOrderId == dto.beerOrderId
    ensures Consistent(shipments) ==> Consistent(r.0)
  {
    if dto.beerOrderId.None? then (shipments, Err(NullId))
    else if dto.beerOrderId.value !in orders.rows then (shipments, Err(BeerOrderNotFound(dto.beerOrderId.value)))
    else
      var beerOrder := orders.rows[dto.beerOrderId.value];
      var linked := AddBeerOrderShipment(beerOrder, Mapper.BeerOrderShipmentDtoToBeerOrderShipment(dto)).1;
      var saved := linked.(id := Some(shipments.nextId));
      (Insert(shipments, saved), Ok(ToDto(saved)))
  }

  /** Inserting a shipment appends it to its order's listing only. */
  lemma ListingAfterInsert(shipments: Table<BeerOrderShipment>, saved: BeerOrderShipment, beerOrderId: int)
    requires Valid(shipments)
    ensures GetShipmentsByBeerOrderId(Insert(shipments, saved), beerOrderId)
         == GetShipmentsByBeerOrderId(shipments, beerOrderId)
            + (if saved.beerOrder == Some(beerOrderId) then [ToDto(saved)] else [])
  {
    RowsInsert(shipments, saved);
    MapFilterAppend(Rows(shipments), saved, ForOrder(beerOrderId), AsDto());
  }

  /** A saved shipment is listed last under its order, and every other
      order's listing is unchanged. */
  lemma SaveListsUnderOrder(shipments: Table<BeerOrderShipment>, orders: Table<BeerOrder>,
                            dto: BeerOrderShipmentDto, beerOrderId: int)
    requires Valid(shipments) && IdsMatch(orders, BeerOrderIdOf())
    requires SaveBeerOrderShipment(shipments, orders, dto).1.Ok?
    ensures GetShipmentsByBeerOrderId(SaveBeerOrderShipment(shipments, orders, dto).0, beerOrderId)
         == GetShipmentsByBeerOrderId(shipments, beerOrderId)
            + (if dto.beerOrderId == Some(beerOrderId) then [SaveBeerOrderShipment(shipments, orders, dto).1.value] else [])
  {
    var r := SaveBeerOrderShipment(shipments, orders, dto);
    var saved := r.0.rows[shipments.nextId];
    assert r.0 == Insert(shipments, saved);
    ListingAfterInsert(shipments, saved, beerOrderId);
  }

  /** A saved shipment reads back as the DTO the save returned, and is listed
      last, after every shipment stored before it. */
  lemma SavedShipmentListed(shipments: Table<BeerOrderShipment>, orders: Table<BeerOrder>,
                            dto: BeerOrderShipmentDto)
    requires Valid(shipments)
    requires SaveBeerOrderShipment(shipments, orders, dto).1.Ok?
    ensures GetBeerOrderShipmentById(SaveBeerOrderShipment(shipments, orders, dto).0, shipments.nextId)
         == Some(SaveBeerOrderShipment(shipments, orders, dto).1.value)
    ensures GetAllBeerOrderShipments(SaveBeerOrderShipment(shipments, orders, dto).0)
         == GetAllBeerOrderShipments(shipments) + [SaveBeerOrderShipment(shipments, orders, dto).1.value]
  {
    var r := SaveBeerOrderShipment(shipments, orders, dto);
    var saved := r.0.rows[shipments.nextId];
    assert r.0 == Insert(shipments, saved);
    MapRowsInsert(shipments, saved, AsDto());
  }

  /** `updateBeerOrderShipment`. A missing id gives an empty result. A stored
      shipment without an order fails on reading its order's id. When the
      DTO names the shipment's current order, date, carrier and tracking
      number are overwritten and the link is kept; when it names another
      order, that order is looked up (a null or missing one fails, changing
      nothing) and the shipment is moved to it as well. */
  function UpdateBeerOrderShipment(shipments: Table<BeerOrderShipment>, orders: Table<BeerOrder>, id: int,
                                   dto: BeerOrderShipmentDto)
    : (r: (Table<BeerOrderShipment>, Result<Option<BeerOrderShipmentDto>>))
    ensures id !in shipments.rows ==> r == (shipments, Ok(None))
    ensures id in shipments.rows && shipments.rows[id].beerOrder.None? ==> r == (shipments, Err(NullLink))
    ensures id in shipments.rows && shipments.rows[id].beerOrder.Some? && shipments.rows[id].beerOrder != dto.beerOrderId
            && (dto.beerOrderId.None? || dto.beerOrderId.value !in orders.rows)
            ==> r == (shipments, Err(OrderLookupError(dto.beerOrderId)))
    ensures r.1.Ok? && r.1.value.Some? ==>
      var old_ := shipments.rows[id];
      && id in shipments.rows && old_.beerOrder.Some?
      && r.0.rows.Keys == shipments.rows.Keys && r.0.nextId == shipments.nextId
      && (forall j :: j in shipments.rows && j != id ==> r.0.rows[j] == shipments.rows[j])
      && r.0.rows[id].shipmentDate == dto.shipmentDate && r.0.rows[id].carrier == dto.carrier
      && r.0.rows[id].trackingNumber == dto.trackingNumber
      && r.0.rows[id].id == old_.id && r.0.rows[id].version == old_.version
      && r.0.rows[id].createdDate == old_.createdDate && r.0.rows[id].updatedDate == old_.updatedDate
      && r.0.rows[id].beerOrder == (if old_.beerOrder == dto.beerOrderId then old_.beerOrder
                                    else orders.rows[dto.beerOrderId.value].id)
      && r.1.value.value == ToDto(r.0.rows[id])
    ensures r.1.Ok? && r.1.value.Some? && IdsMatch(orders, BeerOrderIdOf()) ==>
      r.0.rows[id].beerOrder == dto.beerOrderId
    ensures r.1 == Ok(None) <==> id !in shipments.rows
    ensures r.1.Err? <==>
      id in shipments.rows
      && (|| shipments.rows[id].beerOrder.None?
          || (&& shipments.rows[id].beerOrder != dto.beerOrderId
              && (dto.beerOrderId.None? || dto.beerOrderId.value !in orders.rows)))
    ensures Consistent(shipments) ==> Consistent(r.0)
  {
    if id !in shipments.rows then (shipments, Ok(None))
    else
      var existing := shipments.rows[id];
      if existing.beerOrder.None? then (shipments, Err(NullLink))
      else if existing.beerOrder != dto.beerOrderId then
        if dto.beerOrderId.None? then (shipments, Err(NullId))
        else if dto.beerOrderId.value !in orders.rows then (shipments, Err(BeerOrderNotFound(dto.beerOrderId.value)))
        else
          var target := orders.rows[dto.beerOrderId.value];
          assert IdsMatch(orders, BeerOrderIdOf()) ==> target.id == dto.beerOrderId by {
            if IdsMatch(orders, BeerOrderIdOf()) {
              var v := dto.beerOrderId.value;
              assert v in orders.rows;
              assert BeerOrderIdOf()(orders.rows[v]) == Some(v);
            }
          }
          var updated := Mapper.UpdateBeerOrderShipment(Some(dto), existing, Some(target));
          (Replace(shipments, id, updated), Ok(Some(ToDto(updated))))
      else
        var updated := Mapper.UpdateBeerOrderShipment(Some(dto), existing, None);
        (Replace(shipments, id, updated), Ok(Some(ToDto(updated))))
  }

  /** Repeating a successful update changes nothing further: the shipment
      already names the DTO's order, so the second call takes the keep-link
      branch and rewrites the same values. */
  lemma UpdateShipmentIdempotent(shipments: Table<BeerOrderShipment>, orders: Table<BeerOrder>, id: int,
                                 dto: BeerOrderShipmentDto)
    requires IdsMatch(orders, BeerOrderIdOf())
    requires UpdateBeerOrderShipment(shipments, orders, id, dto).1.Ok?
    ensures UpdateBeerOrderShipment(UpdateBeerOrderShipment(shipments, orders, id, dto).0, orders, id, dto)
         == UpdateBeerOrderShipment(shipments, orders, id, dto)
  {
    var first := UpdateBeerOrderShipment(shipments, orders, id, dto);
    if id in shipments.rows {
      var row := first.0.rows[id];
      assert row.beerOrder == dto.beerOrderId;
      var again := Mapper.UpdateBeerOrderShipment(Some(dto), row, None);
      assert again == row;
      assert Replace(first.0, id, again) == first.0;
    }
  }

  /** An update reads back as the DTO it returned. */
  lemma UpdatedShipmentReadsBack(shipments: Table<BeerOrderShipment>, orders: Table<BeerOrder>, id: int,
                                 dto: BeerOrderShipmentDto)
    requires UpdateBeerOrderShipment(shipments, orders, id, dto).1.Ok?
    requires UpdateBeerOrderShipment(shipments, orders, id, dto).1.value.Some?
    ensures GetBeerOrderShipmentById(UpdateBeerOrderShipment(shipments, orders, id, dto).0, id)
         == UpdateBeerOrderShipment(shipments, orders, id, dto).1.value
  {
  }

  /** `deleteBeerOrderShipment`: true and the row gone exactly when the id
      was stored. */
  function DeleteBeerOrderShipment(shipments: Table<BeerOrderShipment>, id: int)
    : (r: (Table<BeerOrderShipment>, bool))
    ensures r.1 <==> id in shipments.rows
    ensures r.0.rows == shipments.rows - {id}
    ensures !r.1 ==> r.0 == shipments
    ensures Consistent(shipments) ==> Consistent(r.0)
  {
    Delete(shipments, id)
  }
}
