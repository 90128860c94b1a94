/** The beer service over the beer table: listing (plain and filtered and
    paged), lookup, create, full replace and delete. Each write returns the
    new table beside its result. */
module BeerService {

  import opened Values
  import opened Text
  import opened Store
  import opened Entities
  import opened Models
  import opened BeerMapper
  import opened BeerRepository

  /** The table invariant every operation here preserves. */
  predicate Consistent(beers: Table<Beer>) {
    Valid(beers) && IdsMatch(beers, BeerIdOf())
  }

  function ToDto(): Beer -> BeerDto {
    b => BeerToBeerDto(b)
  }

  /** `getAllBeers()`: every beer, converted, in id order. */
  function GetAllBeers(beers: Table<Beer>): (r: seq<BeerDto>)
    ensures |r| == |Rows(beers)|
    ensures forall i :: 0 <= i < |r| ==> r[i] == BeerToBeerDto(beers.rows[Keys(beers)[i]])
  {
    MapSeq(Rows(beers), ToDto())
  }

  /** A beer passes the listing's filters when it passes each filter that has
      text; a null, empty or whitespace-only filter is no filter at all. */
  predicate Selected(beer: Beer, beerName: Option<string>, beerStyle: Option<string>) {
    && (HasText(beerName) ==> NameMatches(beer, beerName.value))
    && (HasText(beerStyle) ==> StyleMatches(beer, beerStyle.value))
  }

  function SelectedBy(beerName: Option<string>, beerStyle: Option<string>): Beer -> bool {
    b => Selected(b, beerName, beerStyle)
  }

  /** The listing's meaning, written once without the dispatch: the beers
      that pass the active filters, in id order, paged, converted. */
  function SelectedPage(beers: Table<Beer>, beerName: Option<string>, beerStyle: Option<string>,
                        p: Pageable): Page<BeerDto>
  {
    MapPage(PageOf(Filter(Rows(beers), SelectedBy(beerName, beerStyle)), p), ToDto())
  }

  /** `getAllBeers(beerName, beerStyle, pageable)`: a four-way dispatch on
      which filters have text, to the combined finder, one single-property
      finder or the unfiltered `findAll`; the repository page is converted
      element by element. */
  function GetAllBeersFiltered(beers: Table<Beer>, beerName: Option<string>, beerStyle: Option<string>,
                               p: Pageable): (r: Page<BeerDto>)
    ensures |r.content| <= p.pageSize
    ensures r == SelectedPage(beers, beerName, beerStyle, p)
  {
    var hasName := HasText(beerName);
    var hasStyle := HasText(beerStyle);
    var beerPage :=
      if hasName && hasStyle then
        FindAllByBeerNameContainingIgnoreCaseAndBeerStyleContainingIgnoreCase(beers, beerName.value, beerStyle.value, p)
      else if hasName then
        FindAllByBeerNameContainingIgnoreCase(beers, beerName.value, p)
      else if hasStyle then
        FindAllByBeerStyleContainingIgnoreCase(beers, beerStyle.value, p)
      else
        FindAll(beers, p);
    DispatchAgrees(beers, beerName, beerStyle);
    MapPage(beerPage, ToDto())
  }

  /** Each branch of the dispatch filters exactly as `Selected` does. */
  lemma DispatchAgrees(beers: Table<Beer>, beerName: Option<string>, beerStyle: Option<string>)
    ensures HasText(beerName) && HasText(beerStyle) ==>
      NameAndStyleMatched(beers, beerName.value, beerStyle.value) == Filter(Rows(beers), SelectedBy(beerName, beerStyle))
    ensures HasText(beerName) && !HasText(beerStyle) ==>
      NameMatched(beers, beerName.value) == Filter(Rows(beers), SelectedBy(beerName, beerStyle))
    ensures !HasText(beerName) && HasText(beerStyle) ==>
      StyleMatched(beers, beerStyle.value) == Filter(Rows(beers), SelectedBy(beerName, beerStyle))
    ensures !HasText(beerName) && !HasText(beerStyle) ==>
      Rows(beers) == Filter(Rows(beers), SelectedBy(beerName, beerStyle))
  {
    var rows := Rows(beers);
    var sel := SelectedBy(beerName, beerStyle);
    if HasText(beerName) && HasText(beerStyle) {
      FilterExtensional(rows, ByNameAndStyle(beerName.value, beerStyle.value), sel);
    } else if HasText(beerName) {
      FilterExtensional(rows, ByName(beerName.value), sel);
    } else if HasText(beerStyle) {
      FilterExtensional(rows, ByStyle(beerStyle.value), sel);
    } else {
      FilterAll(rows, sel);
    }
  }

  /** What a page of the filtered listing holds: converted stored beers that
      pass every filter with text, never more than the page size, and a total
      that counts each passing beer. */
  lemma FilteredListingSound(beers: Table<Beer>, beerName: Option<string>, beerStyle: Option<string>,
                             p: Pageable, i: int)
    requires Valid(beers)
    requires 0 <= i < |GetAllBeersFiltered(beers, beerName, beerStyle, p).content|
    ensures exists b :: b in Rows(beers) && Selected(b, beerName, beerStyle)
                        && GetAllBeersFiltered(beers, beerName, beerStyle, p).content[i] == BeerToBeerDto(b)
    ensures GetAllBeersFiltered(beers, beerName, beerStyle, p).totalElements
         == |Filter(Rows(beers), SelectedBy(beerName, beerStyle))|
  {
    var matched := Filter(Rows(beers), SelectedBy(beerName, beerStyle));
    var page := PageOf(matched, p);
    var b := page.content[i];
    FilterMembership(Rows(beers), SelectedBy(beerName, beerStyle), b);
  }

  /** Blank filters are no filters: with neither filter having text the
      listing is the unfiltered `findAll` page. */
  lemma BlankFiltersListEverything(beers: Table<Beer>, beerName: Option<string>, beerStyle: Option<string>,
                                   p: Pageable)
    requires !HasText(beerName) && !HasText(beerStyle)
    ensures GetAllBeersFiltered(beers, beerName, beerStyle, p) == MapPage(FindAll(beers, p), ToDto())
  {
  }

  /** `getBeerById`: present exactly when the id is stored. */
  function GetBeerById(beers: Table<Beer>, id: int): (r: Option<BeerDto>)
    ensures r.Some? <==> id in beers.rows
    ensures r.Some? ==> r.value == BeerToBeerDto(beers.rows[id])
  {
    if id in beers.rows then Some(BeerToBeerDto(beers.rows[id])) else None
  }

  /** `saveBeer`: exactly one new row, built by `beerDtoToBeer` and given the
      next key; every other row stays as it was. */
  function SaveBeer(beers: Table<Beer>, dto: BeerDto): (r: (Table<Beer>, BeerDto))
    ensures var k := beers.nextId;
      && r.0.rows.Keys == beers.rows.Keys + {k}
      && r.0.rows[k] == BeerDtoToBeer(dto).(id := Some(k))
      && (forall j :: j in beers.rows && j != k ==> r.0.rows[j] == beers.rows[j])
      && r.1 == BeerToBeerDto(r.0.rows[k])
    ensures Valid(beers) ==> beers.nextId !in beers.rows && |r.0.rows| == |beers.rows| + 1
    ensures Consistent(beers) ==> Consistent(r.0)
  {
    var k := beers.nextId;
    var saved := BeerDtoToBeer(dto).(id := Some(k));
    (Insert(beers, saved), BeerToBeerDto(saved))
  }

  /** A saved beer reads back as the DTO the save returned, and is listed
      after every earlier beer. */
  lemma SavedBeerReadsBack(beers: Table<Beer>, dto: BeerDto)
    requires Valid(beers)
    ensures GetBeerById(SaveBeer(beers, dto).0, beers.nextId) == Some(SaveBeer(beers, dto).1)
    ensures GetAllBeers(SaveBeer(beers, dto).0) == GetAllBeers(beers) + [SaveBeer(beers, dto).1]
  {
    var r := SaveBeer(beers, dto);
    var saved := r.0.rows[beers.nextId];
    assert r.0 == Insert(beers, saved);
    MapRowsInsert(beers, saved, ToDto());
  }

  /** `updateBeer`: on a stored id, name, style, UPC, price and quantity are
      replaced by the DTO's, null included, while image URL, identity, version,
      timestamps and order lines stay; on a missing id, nothing. */
  function UpdateBeer(beers: Table<Beer>, id: int, dto: BeerDto): (r: (Table<Beer>, Option<BeerDto>))
    ensures r.1.Some? <==> id in beers.rows
    ensures id !in beers.rows ==> r.0 == beers
    ensures id in beers.rows ==>
      var old_ := beers.rows[id];
      && r.0.rows.Keys == beers.rows.Keys && r.0.nextId == beers.nextId
      && (forall j :: j in beers.rows && j != id ==> r.0.rows[j] == beers.rows[j])
      && r.0.rows[id].beerName == dto.beerName && r.0.rows[id].beerStyle == dto.beerStyle
      && r.0.rows[id].upc == dto.upc && r.0.rows[id].price == dto.price
      && r.0.rows[id].quantityOnHand == dto.quantityOnHand
      && r.0.rows[id].imageUrl == old_.imageUrl && r.0.rows[id].id == old_.id
      && r.0.rows[id].version == old_.version
      && r.0.rows[id].createdDate == old_.createdDate && r.0.rows[id].updatedDate == old_.updatedDate
      && r.0.rows[id].beerOrderLines == old_.beerOrderLines
      && r.1 == Some(BeerToBeerDto(r.0.rows[id]))
    ensures Consistent(beers) ==> Consistent(r.0)
  {
    if id !in beers.rows then (beers, None)
    else
      var existing := beers.rows[id];
      var beer := BeerDtoToBeer(dto);
      var updated := existing.(beerName := beer.beerName, beerStyle := beer.beerStyle, upc := beer.upc,
                               price := beer.price, quantityOnHand := beer.quantityOnHand);
      (Replace(beers, id, updated), Some(BeerToBeerDto(updated)))
  }

  /** PUT is a full replace where PATCH is a merge: for the five properties
      PUT copies, PUT equals the patch carrying those five as they are. The
      two part ways only on a null, which PUT writes and PATCH skips. */
  lemma UpdateIsPatchOfPresentValues(beers: Table<Beer>, id: int, dto: BeerDto)
    requires id in beers.rows
    requires dto.beerName.Some? && dto.beerStyle.Some? && dto.upc.Some?
    requires dto.price.Some? && dto.quantityOnHand.Some?
    ensures UpdateBeer(beers, id, dto).0.rows[id]
         == UpdateBeerFromBeerPathDto(
              BeerPathDto(None, None, dto.beerName, dto.beerStyle, dto.upc, dto.quantityOnHand, dto.price, None),
              beers.rows[id])
  {
  }

  /** `deleteBeer`: true and the row gone exactly when the id was stored. */
  function DeleteBeer(beers: Table<Beer>, id: int): (r: (Table<Beer>, bool))
    ensures r.1 <==> id in beers.rows
    ensures r.0.rows == beers.rows - {id}
    ensures !r.1 ==> r.0 == beers
    ensures Consistent(beers) ==> Consistent(r.0)
  {
    Delete(beers, id)
  }

  /** A second delete of the same id reports false and changes nothing. */
  lemma DeleteBeerTwice(beers: Table<Beer>, id: int)
    ensures !DeleteBeer(DeleteBeer(beers, id).0, id).1
    ensures DeleteBeer(DeleteBeer(beers, id).0, id).0 == DeleteBeer(beers, id).0
    ensures GetBeerById(DeleteBeer(beers, id).0, id).None?
  {
  }
}
