/** BeerOrder <-> BeerOrderDto conversion; the owned order lines are mapped
    element by element through the line mapper. */
module BeerOrderMapper {

  import opened Values
  import opened Entities
  import opened Models
  import opened BeerOrderLineMapper

  /** Outbound: identity, version, the three order properties and both
      timestamps are copied, and the lines are mapped one for one, in order. */
  function BeerOrderToBeerOrderDto(order: BeerOrder, beers: map<int, Beer>): (r: BeerOrderDto)
    ensures r.id == order.id && r.version == order.version
    ensures r.customerRef == order.customerRef && r.paymentAmount == order.paymentAmount
    ensures r.status == order.status
    ensures r.createdDate == order.createdDate && r.updatedDate == order.updatedDate
    ensures r.beerOrderLines.Some? && |r.beerOrderLines.value| == |order.beerOrderLines|
    ensures forall i :: 0 <= i < |order.beerOrderLines| ==>
      r.beerOrderLines.value[i] == BeerOrderLineToBeerOrderLineDto(order.beerOrderLines[i], beers)
  {
    var lines := order.beerOrderLines;
    BeerOrderDto(order.id, order.version, order.customerRef, order.paymentAmount, order.status,
                 order.createdDate, order.updatedDate,
                 Some(seq(|lines|, i requires 0 <= i < |lines| =>
                   BeerOrderLineToBeerOrderLineDto(lines[i], beers))))
  }

  /** The lines of a DTO, a null list read as no lines. */
  function LineDtos(dto: BeerOrderDto): seq<BeerOrderLineDto> {
    if dto.beerOrderLines.Some? then dto.beerOrderLines.value else []
  }

  /** Inbound: identity and both timestamps are dropped; version and the three
      order properties are copied; every DTO line becomes an entity line
      through the line mapper (so without id, beer or order). The customer
      link is not part of the DTO and stays null; the shipment list takes the
      builder's empty default. */
  function BeerOrderDtoToBeerOrder(dto: BeerOrderDto): (r: BeerOrder)
    ensures r.id.None? && r.createdDate.None? && r.updatedDate.None?
    ensures r.version == dto.version
    ensures r.customerRef == dto.customerRef && r.paymentAmount == dto.paymentAmount
    ensures r.status == dto.status
    ensures r.customer.None? && r.beerOrderShipments == []
    ensures |r.beerOrderLines| == |LineDtos(dto)|
    ensures forall i :: 0 <= i < |r.beerOrderLines| ==>
      r.beerOrderLines[i] == BeerOrderLineDtoToBeerOrderLine(LineDtos(dto)[i])
    ensures forall i :: 0 <= i < |r.beerOrderLines| ==>
      r.beerOrderLines[i].id.None? && r.beerOrderLines[i].beer.None? && r.beerOrderLines[i].beerOrder.None?
  {
    var lines := LineDtos(dto);
    NewBeerOrder().(version := dto.version, customerRef := dto.customerRef,
                    paymentAmount := dto.paymentAmount, status := dto.status,
                    beerOrderLines := seq(|lines|, i requires 0 <= i < |lines| =>
                      BeerOrderLineDtoToBeerOrderLine(lines[i])))
  }

  /** Order to DTO and back keeps the version, the three order properties
      and the lines' own values, one for one; it forgets the identity, the
      timestamps, the customer and the shipments, and every line forgets its
      identity, its references and its timestamps. */
  lemma OrderRoundTrip(order: BeerOrder, beers: map<int, Beer>)
    ensures var back := BeerOrderDtoToBeerOrder(BeerOrderToBeerOrderDto(order, beers));
      && |back.beerOrderLines| == |order.beerOrderLines|
      && (forall i :: 0 <= i < |order.beerOrderLines| ==>
            back.beerOrderLines[i] == order.beerOrderLines[i].(id := None, beerOrder := None, beer := None,
                                                                createdDate := None, updatedDate := None))
      && back == order.(id := None, customer := None, createdDate := None, updatedDate := None,
                        beerOrderShipments := [], beerOrderLines := back.beerOrderLines)
  {
    var dto := BeerOrderToBeerOrderDto(order, beers);
    forall i | 0 <= i < |order.beerOrderLines|
      ensures BeerOrderDtoToBeerOrder(dto).beerOrderLines[i]
           == order.beerOrderLines[i].(id := None, beerOrder := None, beer := None,
                                       createdDate := None, updatedDate := None)
    {
      LineRoundTrip(order.beerOrderLines[i], beers);
    }
  }
}
