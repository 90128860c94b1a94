/** BeerOrderShipment <-> BeerOrderShipmentDto conversion, and the in-place
    update the shipment service uses. */
module BeerOrderShipmentMapper {

  import opened Values
  import opened Entities
  import opened Models

  /** Outbound: `beerOrderId` is the linked order's id; everything else is copied. */
  function BeerOrderShipmentToBeerOrderShipmentDto(shipment: BeerOrderShipment): (r: BeerOrderShipmentDto)
    ensures r.beerOrderId == shipment.beerOrder
    ensures r.id == shipment.id && r.version == shipment.version
    ensures r.shipmentDate == shipment.shipmentDate && r.carrier == shipment.carrier
    ensures r.trackingNumber == shipment.trackingNumber
    ensures r.createdDate == shipment.createdDate && r.updatedDate == shipment.updatedDate
  {
    BeerOrderShipmentDto(shipment.id, shipment.version, shipment.beerOrder, shipment.shipmentDate,
                         shipment.carrier, shipment.trackingNumber, shipment.createdDate,
                         shipment.updatedDate)
  }

  /** Inbound: identity, both timestamps and the order link are dropped (the
      service resolves the order itself); version, date, carrier and tracking
      number are copied. */
  function BeerOrderShipmentDtoToBeerOrderShipment(dto: BeerOrderShipmentDto): (r: BeerOrderShipment)
    ensures r.id.None? && r.createdDate.None? && r.updatedDate.None? && r.beerOrder.None?
    ensures r.version == dto.version
    ensures r.shipmentDate == dto.shipmentDate && r.carrier == dto.carrier
    ensures r.trackingNumber == dto.trackingNumber
  {
    BeerOrderShipment(None, dto.version, None, dto.shipmentDate, dto.carrier, dto.trackingNumber,
                      None, None)
  }

  /** The update helper: with no DTO the shipment is returned as it was;
      otherwise date, carrier and tracking number are overwritten from the DTO,
      null included, and the order link is replaced only when an order is
      given. Identity, version and timestamps never change. */
  function UpdateBeerOrderShipment(dto: Option<BeerOrderShipmentDto>, shipment: BeerOrderShipment,
                                   beerOrder: Option<BeerOrder>): (r: BeerOrderShipment)
    ensures dto.None? ==> r == shipment
    ensures dto.Some? ==> r.shipmentDate == dto.value.shipmentDate && r.carrier == dto.value.carrier
                          && r.trackingNumber == dto.value.trackingNumber
    ensures dto.Some? && beerOrder.Some? ==> r.beerOrder == beerOrder.value.id
    ensures beerOrder.None? ==> r.beerOrder == shipment.beerOrder
    ensures r.id == shipment.id && r.version == shipment.version
    ensures r.createdDate == shipment.createdDate && r.updatedDate == shipment.updatedDate
  {
    if dto.None? then shipment
    else
      var updated := shipment.(shipmentDate := dto.value.shipmentDate, carrier := dto.value.carrier,
                               trackingNumber := dto.value.trackingNumber);
      if beerOrder.Some? then updated.(beerOrder := beerOrder.value.id) else updated
  }

  /** Updating from a DTO is idempotent. */
  lemma UpdateIdempotent(dto: Option<BeerOrderShipmentDto>, shipment: BeerOrderShipment,
                         beerOrder: Option<BeerOrder>)
    ensures UpdateBeerOrderShipment(dto, UpdateBeerOrderShipment(dto, shipment, beerOrder), beerOrder)
         == UpdateBeerOrderShipment(dto, shipment, beerOrder)
  {
  }

  /** Updating a shipment from its own DTO, keeping its link, changes nothing. */
  lemma UpdateFromOwnDtoIsIdentity(shipment: BeerOrderShipment)
    ensures UpdateBeerOrderShipment(Some(BeerOrderShipmentToBeerOrderShipmentDto(shipment)), shipment, None)
         == shipment
  {
  }

  /** Entity to DTO and back keeps version, date, carrier and tracking number. */
  lemma ShipmentRoundTrip(shipment: BeerOrderShipment)
    ensures BeerOrderShipmentDtoToBeerOrderShipment(BeerOrderShipmentToBeerOrderShipmentDto(shipment))
         == shipment.(id := None, beerOrder := None, createdDate := None, updatedDate := None)
  {
  }
}
