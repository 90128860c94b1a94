/** BeerOrderLine <-> BeerOrderLineDto conversion. The outbound direction
    flattens the beer reference to its id and embeds a read-only snapshot of
    the beer; it resolves the reference against `beers`, the beer rows the
    persistence context loads it from. */
module BeerOrderLineMapper {

  import opened Values
  import opened Entities
  import opened Models
  import opened BeerMapper

  /** Outbound: `beerId` is the referenced beer's id, `beer` its DTO (null when
      the line has no beer); the other properties are copied. */
  function BeerOrderLineToBeerOrderLineDto(line: BeerOrderLine, beers: map<int, Beer>): (r: BeerOrderLineDto)
    ensures r.beerId == line.beer
    ensures r.beer.Some? <==> line.beer.Some? && line.beer.value in beers
    ensures r.beer.Some? ==> r.beer.value == BeerToBeerDto(beers[line.beer.value])
    ensures r.id == line.id && r.version == line.version
    ensures r.orderQuantity == line.orderQuantity && r.quantityAllocated == line.quantityAllocated
    ensures r.status == line.status
    ensures r.createdDate == line.createdDate && r.updatedDate == line.updatedDate
  {
    var snapshot :=
      if line.beer.Some? && line.beer.value in beers then Some(BeerToBeerDto(beers[line.beer.value]))
      else None;
    BeerOrderLineDto(line.id, line.version, line.beer, line.orderQuantity, line.quantityAllocated,
                     line.status, line.createdDate, line.updatedDate, snapshot)
  }

  /** Inbound: identity, beer, order and both timestamps are dropped; version,
      quantities and status are copied. */
  function BeerOrderLineDtoToBeerOrderLine(dto: BeerOrderLineDto): (r: BeerOrderLine)
    ensures r.id.None? && r.beer.None? && r.beerOrder.None?
    ensures r.createdDate.None? && r.updatedDate.None?
    ensures r.version == dto.version
    ensures r.orderQuantity == dto.orderQuantity && r.quantityAllocated == dto.quantityAllocated
    ensures r.status == dto.status
  {
    BeerOrderLine(None, dto.version, None, None, dto.orderQuantity, dto.quantityAllocated,
                  dto.status, None, None)
  }

  /** Line to DTO and back keeps version, quantities and status and forgets
      every reference, the identity and the timestamps. */
  lemma LineRoundTrip(line: BeerOrderLine, beers: map<int, Beer>)
    ensures BeerOrderLineDtoToBeerOrderLine(BeerOrderLineToBeerOrderLineDto(line, beers))
         == line.(id := None, beerOrder := None, beer := None, createdDate := None, updatedDate := None)
  {
  }
}
