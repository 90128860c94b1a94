/** Beer <-> BeerDto conversion and the null-ignoring partial update. */
module BeerMapper {

  import opened Values
  import opened Entities
  import opened Models

  /** Outbound: every field, identity, version and both timestamps included. */
  function BeerToBeerDto(beer: Beer): (r: BeerDto)
    ensures r.id == beer.id && r.version == beer.version
    ensures r.beerName == beer.beerName && r.beerStyle == beer.beerStyle && r.upc == beer.upc
    ensures r.quantityOnHand == beer.quantityOnHand && r.price == beer.price
    ensures r.imageUrl == beer.imageUrl
    ensures r.createdDate == beer.createdDate && r.updatedDate == beer.updatedDate
  {
    BeerDto(beer.id, beer.version, beer.beerName, beer.beerStyle, beer.upc,
            beer.quantityOnHand, beer.price, beer.imageUrl, beer.createdDate, beer.updatedDate)
  }

  /** Inbound: identity and both timestamps are dropped (the store assigns
      them); the order-line list takes the builder's empty default. */
  function BeerDtoToBeer(dto: BeerDto): (r: Beer)
    ensures r.id.None? && r.createdDate.None? && r.updatedDate.None?
    ensures r.version == dto.version
    ensures r.beerName == dto.beerName && r.beerStyle == dto.beerStyle && r.upc == dto.upc
    ensures r.quantityOnHand == dto.quantityOnHand && r.price == dto.price
    ensures r.imageUrl == dto.imageUrl
    ensures r.beerOrderLines == []
  {
    Beer(None, dto.version, dto.beerName, dto.beerStyle, dto.upc,
         dto.quantityOnHand, dto.price, dto.imageUrl, None, None, [])
  }

  /** PATCH merge: each of the six mutable properties is overwritten only when
      the patch carries a value. Identity, version, timestamps and the
      order-line association are never touched, whatever the patch's own id
      and version say. */
  function UpdateBeerFromBeerPathDto(patch: BeerPathDto, beer: Beer): (r: Beer)
    ensures patch.beerName.Some? ==> r.beerName == patch.beerName
    ensures patch.beerName.None? ==> r.beerName == beer.beerName
    ensures patch.beerStyle.Some? ==> r.beerStyle == patch.beerStyle
    ensures patch.beerStyle.None? ==> r.beerStyle == beer.beerStyle
    ensures patch.upc.Some? ==> r.upc == patch.upc
    ensures patch.upc.None? ==> r.upc == beer.upc
    ensures patch.quantityOnHand.Some? ==> r.quantityOnHand == patch.quantityOnHand
    ensures patch.quantityOnHand.None? ==> r.quantityOnHand == beer.quantityOnHand
    ensures patch.price.Some? ==> r.price == patch.price
    ensures patch.price.None? ==> r.price == beer.price
    ensures patch.imageUrl.Some? ==> r.imageUrl == patch.imageUrl
    ensures patch.imageUrl.None? ==> r.imageUrl == beer.imageUrl
    ensures r.id == beer.id && r.version == beer.version
    ensures r.createdDate == beer.createdDate && r.updatedDate == beer.updatedDate
    ensures r.beerOrderLines == beer.beerOrderLines
  {
    beer.(imageUrl := Overlay(patch.imageUrl, beer.imageUrl),
          beerName := Overlay(patch.beerName, beer.beerName),
          beerStyle := Overlay(patch.beerStyle, beer.beerStyle),
          upc := Overlay(patch.upc, beer.upc),
          quantityOnHand := Overlay(patch.quantityOnHand, beer.quantityOnHand),
          price := Overlay(patch.price, beer.price))
  }

  /** A patch whose six mutable properties are all null. */
  predicate IsEmptyPatch(patch: BeerPathDto) {
    && patch.beerName.None? && patch.beerStyle.None? && patch.upc.None?
    && patch.quantityOnHand.None? && patch.price.None? && patch.imageUrl.None?
  }

  /** An all-null patch is the identity, even when it carries an id and a version. */
  lemma EmptyPatchIsIdentity(patch: BeerPathDto, beer: Beer)
    requires IsEmptyPatch(patch)
    ensures UpdateBeerFromBeerPathDto(patch, beer) == beer
  {
  }

  /** Applying the same patch twice is applying it once. */
  lemma PatchIdempotent(patch: BeerPathDto, beer: Beer)
    ensures UpdateBeerFromBeerPathDto(patch, UpdateBeerFromBeerPathDto(patch, beer))
         == UpdateBeerFromBeerPathDto(patch, beer)
  {
  }

  /** Two patches applied in turn: the later one's present fields win, the
      earlier one's fill the rest. */
  function ThenPatch(first: BeerPathDto, second: BeerPathDto): BeerPathDto {
    BeerPathDto(
      Overlay(second.id, first.id), Overlay(second.version, first.version),
      Overlay(second.beerName, first.beerName), Overlay(second.beerStyle, first.beerStyle),
      Overlay(second.upc, first.upc), Overlay(second.quantityOnHand, first.quantityOnHand),
      Overlay(second.price, first.price), Overlay(second.imageUrl, first.imageUrl))
  }

  /** Successive patches compose into one patch. */
  lemma PatchesCompose(first: BeerPathDto, second: BeerPathDto, beer: Beer)
    ensures UpdateBeerFromBeerPathDto(second, UpdateBeerFromBeerPathDto(first, beer))
         == UpdateBeerFromBeerPathDto(ThenPatch(first, second), beer)
  {
  }

  /** The patch that sets exactly what `dto` holds in the six mutable
      properties, leaving the rest alone. */
  function PatchFromDto(dto: BeerDto): BeerPathDto {
    BeerPathDto(dto.id, dto.version, dto.beerName, dto.beerStyle, dto.upc,
                dto.quantityOnHand, dto.price, dto.imageUrl)
  }

  /** Patching a beer with a fully populated patch built from its own DTO
      changes nothing. */
  lemma PatchWithOwnValuesIsIdentity(beer: Beer)
    ensures UpdateBeerFromBeerPathDto(PatchFromDto(BeerToBeerDto(beer)), beer) == beer
  {
  }

  /** Entity to DTO and back keeps every property but identity, timestamps and
      the order-line association. */
  lemma EntityRoundTrip(beer: Beer)
    ensures BeerDtoToBeer(BeerToBeerDto(beer))
         == beer.(id := None, createdDate := None, updatedDate := None, beerOrderLines := [])
  {
  }

  /** DTO to entity and back keeps every property but the dropped ones. */
  lemma DtoRoundTrip(dto: BeerDto)
    ensures BeerToBeerDto(BeerDtoToBeer(dto)) == dto.(id := None, createdDate := None, updatedDate := None)
  {
  }
}
