/** The beer repository's query contracts: the three case-insensitive
    substring finders and the unfiltered `findAll`, each returning one page of
    the matching beers in ascending id order together with the match count. */
module BeerRepository {

  import opened Values
  import opened Text
  import opened Store
  import opened Entities

  /** Page sizes below one are refused by `PageRequest.of`. */
  type PageSize = n: int | 1 <= n witness 1

  /** `PageRequest.of(page, size)`: zero-based page number and page size. */
  datatype Pageable = Pageable(pageNumber: nat, pageSize: PageSize)

  /** One window of a result, with the number of results in all. */
  datatype Page<T> = Page(content: seq<T>, totalElements: nat)

  /** Index of the first element of the page. */
  function Offset(p: Pageable): nat {
    p.pageNumber * p.pageSize
  }

  /** The page `p` of `all`: up to `pageSize` consecutive elements starting at
      the page's offset, nothing when the offset lies beyond the end. */
  function PageOf<T>(all: seq<T>, p: Pageable): (r: Page<T>)
    ensures r.totalElements == |all|
    ensures |r.content| <= p.pageSize
    ensures Offset(p) >= |all| ==> r.content == []
    ensures Offset(p) < |all| ==> |r.content| == if |all| - Offset(p) < p.pageSize then |all| - Offset(p) else p.pageSize
    ensures forall i :: 0 <= i < |r.content| ==> Offset(p) + i < |all| && r.content[i] == all[Offset(p) + i]
  {
    var start := Offset(p);
    if start >= |all| then Page([], |all|)
    else
      var end := if |all| - start < p.pageSize then |all| else start + p.pageSize;
      Page(all[start..end], |all|)
  }

  /** The whole result is covered by its pages: page n holds exactly the
      elements with index in [n*size, (n+1)*size). */
  lemma InPage<T>(all: seq<T>, size: PageSize, i: int)
    requires 0 <= i < |all|
    ensures PageOf(all, Pageable(i / size, size)).content[i % size] == all[i]
  {
    var p := Pageable(i / size, size);
    assert Offset(p) + i % size == i;
  }

  /** `Page.map`: every element converted, order and count kept. */
  function MapPage<T, U>(page: Page<T>, f: T -> U): (r: Page<U>)
    ensures r.totalElements == page.totalElements
    ensures |r.content| == |page.content|
    ensures forall i :: 0 <= i < |page.content| ==> r.content[i] == f(page.content[i])
  {
    Page(seq(|page.content|, i requires 0 <= i < |page.content| => f(page.content[i])), page.totalElements)
  }

  /** Converting a page is paging the converted result: `Page.map` commutes
      with taking the page. */
  lemma MapPageOf<T, U>(all: seq<T>, p: Pageable, f: T -> U)
    ensures MapPage(PageOf(all, p), f) == PageOf(MapSeq(all, f), p)
  {
    var mapped := MapPage(PageOf(all, p), f);
    var paged := PageOf(MapSeq(all, f), p);
    forall i | 0 <= i < |mapped.content| ensures mapped.content[i] == paged.content[i] {
    }
    assert mapped.content == paged.content;
  }

  /** `BeerNameContainingIgnoreCase`: a null name never matches. */
  predicate NameMatches(beer: Beer, beerName: string) {
    beer.beerName.Some? && ContainsIgnoreCase(beer.beerName.value, beerName)
  }

  /** `BeerStyleContainingIgnoreCase`: a null style never matches. */
  predicate StyleMatches(beer: Beer, beerStyle: string) {
    beer.beerStyle.Some? && ContainsIgnoreCase(beer.beerStyle.value, beerStyle)
  }

  function ByName(beerName: string): Beer -> bool {
    b => NameMatches(b, beerName)
  }

  function ByStyle(beerStyle: string): Beer -> bool {
    b => StyleMatches(b, beerStyle)
  }

  function ByNameAndStyle(beerName: string, beerStyle: string): Beer -> bool {
    b => NameMatches(b, beerName) && StyleMatches(b, beerStyle)
  }

  /** The beers the name finder ranges over, in id order. */
  function NameMatched(beers: Table<Beer>, beerName: string): seq<Beer> {
    Filter(Rows(beers), ByName(beerName))
  }

  function StyleMatched(beers: Table<Beer>, beerStyle: string): seq<Beer> {
    Filter(Rows(beers), ByStyle(beerStyle))
  }

  function NameAndStyleMatched(beers: Table<Beer>, beerName: string, beerStyle: string): seq<Beer> {
    Filter(Rows(beers), ByNameAndStyle(beerName, beerStyle))
  }

  function FindAllByBeerNameContainingIgnoreCase(beers: Table<Beer>, beerName: string, p: Pageable): Page<Beer> {
    PageOf(NameMatched(beers, beerName), p)
  }

  function FindAllByBeerStyleContainingIgnoreCase(beers: Table<Beer>, beerStyle: string, p: Pageable): Page<Beer> {
    PageOf(StyleMatched(beers, beerStyle), p)
  }

  function FindAllByBeerNameContainingIgnoreCaseAndBeerStyleContainingIgnoreCase(
    beers: Table<Beer>, beerName: string, beerStyle: string, p: Pageable): Page<Beer>
  {
    PageOf(NameAndStyleMatched(beers, beerName, beerStyle), p)
  }

  function FindAll(beers: Table<Beer>, p: Pageable): Page<Beer> {
    PageOf(Rows(beers), p)
  }

  /** The name finder keeps exactly the stored beers whose lower-cased name
      contains the lower-cased filter, counts them all, and pages them. */
  lemma NameFinderExact(beers: Table<Beer>, beerName: string, p: Pageable, b: Beer)
    requires Valid(beers)
    ensures b in NameMatched(beers, beerName) <==>
      (exists k :: k in beers.rows && beers.rows[k] == b) && b.beerName.Some?
      && Contains(ToLower(b.beerName.value), ToLower(beerName))
    ensures FindAllByBeerNameContainingIgnoreCase(beers, beerName, p).totalElements == |NameMatched(beers, beerName)|
    ensures |FindAllByBeerNameContainingIgnoreCase(beers, beerName, p).content| <= p.pageSize
  {
    InRows(beers, b);
    FilterMembership(Rows(beers), ByName(beerName), b);
  }

  /** The style finder keeps exactly the stored beers whose lower-cased style
      contains the lower-cased filter. */
  lemma StyleFinderExact(beers: Table<Beer>, beerStyle: string, p: Pageable, b: Beer)
    requires Valid(beers)
    ensures b in StyleMatched(beers, beerStyle) <==>
      (exists k :: k in beers.rows && beers.rows[k] == b) && b.beerStyle.Some?
      && Contains(ToLower(b.beerStyle.value), ToLower(beerStyle))
    ensures FindAllByBeerStyleContainingIgnoreCase(beers, beerStyle, p).totalElements == |StyleMatched(beers, beerStyle)|
    ensures |FindAllByBeerStyleContainingIgnoreCase(beers, beerStyle, p).content| <= p.pageSize
  {
    InRows(beers, b);
    FilterMembership(Rows(beers), ByStyle(beerStyle), b);
  }

  /** The combined finder's matches are the name finder's matches filtered
      again by style: as a set, the intersection of the two. */
  lemma CombinedFinderIsIntersection(beers: Table<Beer>, beerName: string, beerStyle: string, b: Beer)
    ensures NameAndStyleMatched(beers, beerName, beerStyle)
         == Filter(NameMatched(beers, beerName), ByStyle(beerStyle))
    ensures b in NameAndStyleMatched(beers, beerName, beerStyle) <==>
      b in NameMatched(beers, beerName) && b in StyleMatched(beers, beerStyle)
  {
    FilterConjunction(Rows(beers), ByName(beerName), ByStyle(beerStyle), ByNameAndStyle(beerName, beerStyle));
    FilterMembership(Rows(beers), ByNameAndStyle(beerName, beerStyle), b);
    FilterMembership(Rows(beers), ByName(beerName), b);
    FilterMembership(Rows(beers), ByStyle(beerStyle), b);
  }

  /** Every filtered result lies within what `findAll` ranges over, so no
      filter ever counts more beers than the unfiltered listing. */
  lemma FiltersNarrowFindAll(beers: Table<Beer>, beerName: string, beerStyle: string, p: Pageable)
    ensures forall b :: b in NameMatched(beers, beerName) ==> b in Rows(beers)
    ensures forall b :: b in StyleMatched(beers, beerStyle) ==> b in Rows(beers)
    ensures forall b :: b in NameAndStyleMatched(beers, beerName, beerStyle) ==> b in Rows(beers)
    ensures FindAllByBeerNameContainingIgnoreCaseAndBeerStyleContainingIgnoreCase(beers, beerName, beerStyle, p).totalElements
         <= FindAll(beers, p).totalElements
  {
    forall b | b in NameMatched(beers, beerName) ensures b in Rows(beers) {
      FilterMembership(Rows(beers), ByName(beerName), b);
    }
    forall b | b in StyleMatched(beers, beerStyle) ensures b in Rows(beers) {
      FilterMembership(Rows(beers), ByStyle(beerStyle), b);
    }
    forall b | b in NameAndStyleMatched(beers, beerName, beerStyle) ensures b in Rows(beers) {
      FilterMembership(Rows(beers), ByNameAndStyle(beerName, beerStyle), b);
    }
  }
}
