/** The beer order service over the order table, reading the beer table to
    resolve ordered beers: listing, lookup, create (with line resolution),
    header update and delete. Each write returns the new order table beside
    its result. */
module BeerOrderService {

  import opened Values
  import opened Store
  import opened Entities
  import opened Models
  import opened BeerOrderLineMapper
  import opened BeerOrderMapper

  /** Every line an order owns points back at that order. */
  predicate LinesPointBack(orders: Table<BeerOrder>) {
    forall k :: k in orders.rows ==>
      forall i :: 0 <= i < |orders.rows[k].beerOrderLines| ==> orders.rows[k].beerOrderLines[i].beerOrder == Some(k)
  }

  /** The table invariant the order operations are meant to preserve. */
  predicate Consistent(orders: Table<BeerOrder>) {
    Valid(orders) && IdsMatch(orders, BeerOrderIdOf()) && LinesPointBack(orders)
  }

  function ToDto(beers: Table<Beer>, order: BeerOrder): BeerOrderDto {
    BeerOrderToBeerOrderDto(order, beers.rows)
  }

  /** The order mapper as a function value, for listings. */
  function AsDtoWith(beers: Table<Beer>): BeerOrder -> BeerOrderDto {
    o => ToDto(beers, o)
  }

  /** `getAllBeerOrders`: every order, converted, in id order. */
  function GetAllBeerOrders(orders: Table<BeerOrder>, beers: Table<Beer>): (r: seq<BeerOrderDto>)
    ensures |r| == |Rows(orders)|
    ensures forall i :: 0 <= i < |r| ==> r[i] == ToDto(beers, orders.rows[Keys(orders)[i]])
  {
    MapSeq(Rows(orders), AsDtoWith(beers))
  }

  /** `getBeerOrderById`: present exactly when the id is stored. */
  function GetBeerOrderById(orders: Table<BeerOrder>, beers: Table<Beer>, id: int): (r: Option<BeerOrderDto>)
    ensures r.Some? <==> id in orders.rows
    ensures r.Some? ==> r.value == ToDto(beers, orders.rows[id])
  {
    if id in orders.rows then Some(ToDto(beers, orders.rows[id])) else None
  }

  /** `beerRepository.findById(lineDto.getBeerId())` finds a beer: the id is
      non-null and stored. */
  predicate Resolvable(beers: Table<Beer>, lineDto: BeerOrderLineDto) {
    lineDto.beerId.Some? && lineDto.beerId.value in beers.rows
  }

  /** What the failed lookup throws: a null id is refused by `findById`, a
      missing one raises "Beer not found". */
  function LookupError(lineDto: BeerOrderLineDto): Error {
    if lineDto.beerId.None? then NullId else BeerNotFound(lineDto.beerId.value)
  }

  /** Line `i` is the first whose beer cannot be found. */
  predicate FirstFailure(beers: Table<Beer>, lineDtos: seq<BeerOrderLineDto>, i: int) {
    && 0 <= i < |lineDtos|
    && !Resolvable(beers, lineDtos[i])
    && (forall j :: 0 <= j < i ==> Resolvable(beers, lineDtos[j]))
  }

  /** The line built for a DTO line once its beer is found, before it is added
      to an order. */
  function NewLine(beer: Beer, lineDto: BeerOrderLineDto): BeerOrderLine {
    BeerOrderLine(None, None, None, beer.id, lineDto.orderQuantity, Some(0), Some("NEW"), None, None)
  }

  /** `line` is what the service saves for `lineDto` under order `orderId`:
      it refers to the beer the lookup found, carries the requested quantity,
      has nothing allocated, has status "NEW", and points back at the order. */
  predicate BuiltFrom(line: BeerOrderLine, beers: Table<Beer>, lineDto: BeerOrderLineDto, orderId: int) {
    && Resolvable(beers, lineDto)
    && line.beer == beers.rows[lineDto.beerId.value].id
    && line.orderQuantity == lineDto.orderQuantity
    && line.quantityAllocated == Some(0)
    && line.status == Some("NEW")
    && line.beerOrder == Some(orderId)
    && line.id.None?
  }

  /** The per-line loop: each DTO line, in order, is looked up; the first
      line whose beer cannot be found ends the loop with its error. */
  function ResolveLines(beers: Table<Beer>, lineDtos: seq<BeerOrderLineDto>): (r: Result<seq<BeerOrderLine>>)
    ensures r.Ok? <==> forall i :: 0 <= i < |lineDtos| ==> Resolvable(beers, lineDtos[i])
    ensures r.Ok? ==> |r.value| == |lineDtos|
    ensures r.Ok? ==> forall i :: 0 <= i < |lineDtos| ==>
      Resolvable(beers, lineDtos[i]) && r.value[i] == NewLine(beers.rows[lineDtos[i].beerId.value], lineDtos[i])
    ensures r.Err? ==> exists i :: FirstFailure(beers, lineDtos, i) && r.error == LookupError(lineDtos[i])
    decreases |lineDtos|
  {
    if |lineDtos| == 0 then Ok([])
    else
      var first := lineDtos[0];
      if !Resolvable(beers, first) then
        assert FirstFailure(beers, lineDtos, 0);
        Err(LookupError(first))
      else
        var tail := lineDtos[1..];
        assert forall i :: 1 <= i < |lineDtos| ==> lineDtos[i] == tail[i - 1];
        match ResolveLines(beers, tail)
        case Err(e) =>
          ghost var i :| FirstFailure(beers, tail, i) && e == LookupError(tail[i]);
          assert FirstFailure(beers, lineDtos, i + 1);
          Err(e)
        case Ok(rest) =>
          Ok([NewLine(beers.rows[first.beerId.value], first)] + rest)
  }

  /** The order header the save produces: the next key as id, the DTO's
      version and three header properties, no customer and no shipments. */
  predicate SavedHeader(order: BeerOrder, dto: BeerOrderDto, k: int) {
    && order.id == Some(k) && order.version == dto.version
    && order.customerRef == dto.customerRef && order.paymentAmount == dto.paymentAmount
    && order.status == dto.status
    && order.customer.None? && order.beerOrderShipments == []
    && order.createdDate.None? && order.updatedDate.None?
  }

  /** The lines of a saved order: `prefix` as it was, then one line built
      from each DTO line, in order, pointing at order `k`. */
  predicate LinesAfter(lines: seq<BeerOrderLine>, prefix: seq<BeerOrderLine>, beers: Table<Beer>,
                       lineDtos: seq<BeerOrderLineDto>, k: int) {
    && |lines| == |prefix| + |lineDtos|
    && lines[..|prefix|] == prefix
    && forall i :: 0 <= i < |lineDtos| ==> BuiltFrom(lines[|prefix| + i], beers, lineDtos[i], k)
  }

  /** The lines a later load of order `k` finds. A line's reference to its
      order is the owning side of the relationship, so a line saved beside
      the order but not pointing at it is not read back under it. */
  function LinkedTo(k: int): BeerOrderLine -> bool {
    (l: BeerOrderLine) => l.beerOrder == Some(k)
  }

  /** The order row as stored under key `k`: only the lines linked to `k`. */
  function Persisted(order: BeerOrder, k: int): BeerOrder {
    order.(beerOrderLines := Filter(order.beerOrderLines, LinkedTo(k)))
  }

  /** The save both versions share: resolve the lines and add them, under
      the next key, after `base`'s own lines, which point at no order. The
      response converts the order as built, all its lines included; the
      table keeps the order as a later load of the key finds it. */
  function SaveWith(orders: Table<BeerOrder>, beers: Table<Beer>, base: BeerOrder,
                    lineDtos: seq<BeerOrderLineDto>): (r: (Table<BeerOrder>, Result<BeerOrderDto>))
    requires forall i :: 0 <= i < |base.beerOrderLines| ==> base.beerOrderLines[i].beerOrder.None?
    ensures r.1.Err? <==> exists i :: 0 <= i < |lineDtos| && !Resolvable(beers, lineDtos[i])
    ensures r.1.Err? ==> r.0 == orders
    ensures r.1.Err? ==> exists i :: FirstFailure(beers, lineDtos, i) && r.1.error == LookupError(lineDtos[i])
    ensures r.1.Ok? ==>
      && AddedOne(orders, r.0)
      && r.0.rows[orders.nextId].(beerOrderLines := base.beerOrderLines) == base.(id := Some(orders.nextId))
      && LinesAfter(r.0.rows[orders.nextId].beerOrderLines, [], beers, lineDtos, orders.nextId)
      && r.1.value == ToDto(beers, r.0.rows[orders.nextId].(beerOrderLines :=
                              base.beerOrderLines + r.0.rows[orders.nextId].beerOrderLines))
  {
    var k := orders.nextId;
    var order := base.(id := Some(k));
    match ResolveLines(beers, lineDtos)
    case Err(e) => (orders, Err(e))
    case Ok(lines) =>
      var built := AddBeerOrderLines(order, lines);
      PersistedAddedLines(base, k, lines);
      ResolvedLinesBuilt(beers, order, lineDtos, lines, k);
      assert built.(beerOrderLines := base.beerOrderLines) == order;
      (Insert(orders, Persisted(built, k)), Ok(ToDto(beers, built)))
  }

  /** Adding lines to an order whose own lines point at no order, then
      keeping what a load of key `k` finds, leaves exactly the added lines;
      the order as built is its own lines followed by those. */
  lemma PersistedAddedLines(base: BeerOrder, k: int, lines: seq<BeerOrderLine>)
    requires forall i :: 0 <= i < |base.beerOrderLines| ==> base.beerOrderLines[i].beerOrder.None?
    ensures var built := AddBeerOrderLines(base.(id := Some(k)), lines);
      var m := |base.beerOrderLines|;
      && Persisted(built, k).beerOrderLines == built.beerOrderLines[m..]
      && built.beerOrderLines == base.beerOrderLines + built.beerOrderLines[m..]
  {
    var built := AddBeerOrderLines(base.(id := Some(k)), lines);
    var m := |base.beerOrderLines|;
    var own, added := built.beerOrderLines[..m], built.beerOrderLines[m..];
    assert built.beerOrderLines == own + added;
    assert forall x :: x in own ==> !LinkedTo(k)(x) by {
      forall x | x in own ensures !LinkedTo(k)(x) {
        var i :| 0 <= i < m && own[i] == x;
        assert x == base.beerOrderLines[i];
      }
    }
    assert forall x :: x in added ==> LinkedTo(k)(x) by {
      forall x | x in added ensures LinkedTo(k)(x) {
        var i :| 0 <= i < |added| && added[i] == x;
        assert added[i] == built.beerOrderLines[m + i] == lines[i].(beerOrder := Some(k));
      }
    }
    FilterRejectThenKeep(own, added, LinkedTo(k));
  }

  /** Resolved lines added after an order's own lines are built from their
      DTO lines and point back at the order. */
  lemma ResolvedLinesBuilt(beers: Table<Beer>, order: BeerOrder, lineDtos: seq<BeerOrderLineDto>,
                           lines: seq<BeerOrderLine>, k: int)
    requires ResolveLines(beers, lineDtos) == Ok(lines)
    requires order.id == Some(k)
    ensures LinesAfter(AddBeerOrderLines(order, lines).beerOrderLines[|order.beerOrderLines|..], [],
                       beers, lineDtos, k)
  {
    var m := |order.beerOrderLines|;
    var full := AddBeerOrderLines(order, lines).beerOrderLines;
    var added := full[m..];
    assert |added| == |lineDtos|;
    forall i | 0 <= i < |lineDtos| ensures BuiltFrom(added[0 + i], beers, lineDtos[i], k) {
      var line := lines[i];
      assert Resolvable(beers, lineDtos[i]);
      assert line == NewLine(beers.rows[lineDtos[i].beerId.value], lineDtos[i]);
      assert added[i] == full[m + i] == line.(beerOrder := Some(k));
    }
    assert added[..0] == [];
  }

  /** Saving keeps the table consistent: the row stored under the next key
      carries that key and holds only lines linked to it. */
  lemma SaveWithConsistent(orders: Table<BeerOrder>, beers: Table<Beer>, base: BeerOrder,
                           lineDtos: seq<BeerOrderLineDto>)
    requires forall i :: 0 <= i < |base.beerOrderLines| ==> base.beerOrderLines[i].beerOrder.None?
    ensures Consistent(orders) ==> Consistent(SaveWith(orders, beers, base, lineDtos).0)
  {
    var r := SaveWith(orders, beers, base, lineDtos);
    var k := orders.nextId;
    if Consistent(orders) && r.1.Ok? {
      var saved := r.0.rows[k];
      assert r.0 == Insert(orders, saved) by {
        AddedOneIsInsert(orders, r.0);
      }
      assert saved.id == Some(k) by {
        assert saved.(beerOrderLines := base.beerOrderLines).id == base.(id := Some(k)).id;
      }
      assert forall i :: 0 <= i < |saved.beerOrderLines| ==> saved.beerOrderLines[i].beerOrder == Some(k) by {
        forall i | 0 <= i < |saved.beerOrderLines| ensures saved.beerOrderLines[i].beerOrder == Some(k) {
          assert BuiltFrom(saved.beerOrderLines[0 + i], beers, lineDtos[i], k);
        }
      }
      InsertConsistent(orders, saved);
    }
  }

  /** Inserting an order that carries the next key as its id, with every
      line linked to that key, keeps the table consistent. */
  lemma InsertConsistent(orders: Table<BeerOrder>, saved: BeerOrder)
    requires Consistent(orders)
    requires saved.id == Some(orders.nextId)
    requires forall i :: 0 <= i < |saved.beerOrderLines| ==> saved.beerOrderLines[i].beerOrder == Some(orders.nextId)
    ensures Consistent(Insert(orders, saved))
  {
  }

  /** `saveBeerOrder` as written. The mapper already turns every DTO line
      into an entity line, without beer and without order; the loop then adds
      a second, resolved line for each. The response converts the order as
      built, so it lists the mapper's lines followed by the resolved ones.
      The mapper's lines point at no order, so the order as stored, and as a
      later load finds it, holds only the resolved lines. A missing beer
      fails the call before anything is saved. */
  function SaveBeerOrder(orders: Table<BeerOrder>, beers: Table<Beer>, dto: BeerOrderDto)
    : (r: (Table<BeerOrder>, Result<BeerOrderDto>))
    ensures r.1.Err? <==> exists i :: 0 <= i < |LineDtos(dto)| && !Resolvable(beers, LineDtos(dto)[i])
    ensures r.1.Err? ==> r.0 == orders
    ensures r.1.Err? ==> exists i :: FirstFailure(beers, LineDtos(dto), i) && r.1.error == LookupError(LineDtos(dto)[i])
    ensures r.1.Ok? ==> AddedOne(orders, r.0) && SavedHeader(r.0.rows[orders.nextId], dto, orders.nextId)
    ensures r.1.Ok? ==> LinesAfter(r.0.rows[orders.nextId].beerOrderLines, [], beers, LineDtos(dto), orders.nextId)
    ensures r.1.Ok? ==>
      r.1.value == ToDto(beers, r.0.rows[orders.nextId].(beerOrderLines :=
                     BeerOrderDtoToBeerOrder(dto).beerOrderLines + r.0.rows[orders.nextId].beerOrderLines))
    ensures Consistent(orders) ==> Consistent(r.0)
  {
    SaveWithConsistent(orders, beers, BeerOrderDtoToBeerOrder(dto), LineDtos(dto));
    SaveWith(orders, beers, BeerOrderDtoToBeerOrder(dto), LineDtos(dto))
  }

  /** The duplication, for every order with at least one line: the response
      lists twice as many lines as were ordered and the first of them refers
      to no beer, while the order as stored holds one line per ordered line. */
  lemma SaveBeerOrderDuplicatesLines(orders: Table<BeerOrder>, beers: Table<Beer>, dto: BeerOrderDto)
    requires |LineDtos(dto)| > 0
    requires forall i :: 0 <= i < |LineDtos(dto)| ==> Resolvable(beers, LineDtos(dto)[i])
    ensures SaveBeerOrder(orders, beers, dto).1.Ok?
    ensures |SaveBeerOrder(orders, beers, dto).1.value.beerOrderLines.value| == 2 * |LineDtos(dto)|
    ensures SaveBeerOrder(orders, beers, dto).1.value.beerOrderLines.value[0].beerId.None?
    ensures |SaveBeerOrder(orders, beers, dto).0.rows[orders.nextId].beerOrderLines| == |LineDtos(dto)|
  {
    var r := SaveBeerOrder(orders, beers, dto);
    var mapped := BeerOrderDtoToBeerOrder(dto).beerOrderLines;
    var stored := r.0.rows[orders.nextId];
    assert (mapped + stored.beerOrderLines)[0] == mapped[0];
  }

  /** `saveBeerOrder` as evidently intended: the order is built from the DTO
      without its lines, and only the resolved lines are added, one per DTO
      line; the response is the order as stored. */
  function SaveBeerOrderResolvedOnly(orders: Table<BeerOrder>, beers: Table<Beer>, dto: BeerOrderDto)
    : (r: (Table<BeerOrder>, Result<BeerOrderDto>))
    ensures r.1.Err? <==> exists i :: 0 <= i < |LineDtos(dto)| && !Resolvable(beers, LineDtos(dto)[i])
    ensures r.1.Err? ==> r.0 == orders
    ensures r.1.Err? ==> exists i :: FirstFailure(beers, LineDtos(dto), i) && r.1.error == LookupError(LineDtos(dto)[i])
    ensures r.1.Ok? ==> AddedOne(orders, r.0) && r.1.value == ToDto(beers, r.0.rows[orders.nextId])
    ensures r.1.Ok? ==> SavedHeader(r.0.rows[orders.nextId], dto, orders.nextId)
    ensures r.1.Ok? ==> LinesAfter(r.0.rows[orders.nextId].beerOrderLines, [], beers, LineDtos(dto), orders.nextId)
    ensures Consistent(orders) ==> Consistent(r.0)
  {
    var base := BeerOrderDtoToBeerOrder(dto).(beerOrderLines := []);
    SaveWithConsistent(orders, beers, base, LineDtos(dto));
    var r := SaveWith(orders, beers, base, LineDtos(dto));
    assert r.1.Ok? ==> [] + r.0.rows[orders.nextId].beerOrderLines == r.0.rows[orders.nextId].beerOrderLines;
    r
  }

  /** Lines of a base order that point at no order change what a save
      returns but not what it stores. */
  lemma SaveWithOwnLinesUnstored(orders: Table<BeerOrder>, beers: Table<Beer>, base: BeerOrder,
                                 lineDtos: seq<BeerOrderLineDto>)
    requires forall i :: 0 <= i < |base.beerOrderLines| ==> base.beerOrderLines[i].beerOrder.None?
    ensures SaveWith(orders, beers, base, lineDtos).0
         == SaveWith(orders, beers, base.(beerOrderLines := []), lineDtos).0
    ensures SaveWith(orders, beers, base, lineDtos).1.Err? ==>
      SaveWith(orders, beers, base, lineDtos).1 == SaveWith(orders, beers, base.(beerOrderLines := []), lineDtos).1
  {
    var k := orders.nextId;
    match ResolveLines(beers, lineDtos)
    case Err(e) =>
    case Ok(lines) =>
      var order := base.(id := Some(k));
      var empty := base.(beerOrderLines := []);
      assert empty.(id := Some(k)) == order.(beerOrderLines := []);
      AddLinesAfterOwn(order, lines);
      PersistedAddedLines(base, k, lines);
      PersistedAddedLines(empty, k, lines);
      var withOwn := AddBeerOrderLines(order, lines);
      var without := AddBeerOrderLines(order.(beerOrderLines := []), lines);
      assert without.beerOrderLines[0..] == without.beerOrderLines;
      assert Persisted(withOwn, k) == Persisted(without, k);
  }

  /** Lines added to an order follow its own lines and are the lines the
      same additions give an order without lines of its own. */
  lemma AddLinesAfterOwn(order: BeerOrder, lines: seq<BeerOrderLine>)
    ensures var withOwn := AddBeerOrderLines(order, lines);
      var without := AddBeerOrderLines(order.(beerOrderLines := []), lines);
      && withOwn.beerOrderLines[|order.beerOrderLines|..] == without.beerOrderLines
      && withOwn.(beerOrderLines := without.beerOrderLines) == without
  {
    var m := |order.beerOrderLines|;
    var empty := order.(beerOrderLines := []);
    var withOwn := AddBeerOrderLines(order, lines);
    var without := AddBeerOrderLines(empty, lines);
    forall i | 0 <= i < |lines| ensures withOwn.beerOrderLines[m..][i] == without.beerOrderLines[i] {
      assert withOwn.beerOrderLines[m..][i] == withOwn.beerOrderLines[m + i];
      assert withOwn.beerOrderLines[m + i] == lines[i].(beerOrder := order.id);
      assert without.beerOrderLines[0 + i] == lines[i].(beerOrder := order.id);
    }
    assert withOwn.beerOrderLines[m..] == without.beerOrderLines;
    assert withOwn.(beerOrderLines := order.beerOrderLines) == order;
    assert without.(beerOrderLines := []) == empty;
  }

  /** The two versions store the same table and fail alike: they differ only
      in the response. */
  lemma AsWrittenStoresIntended(orders: Table<BeerOrder>, beers: Table<Beer>, dto: BeerOrderDto)
    ensures SaveBeerOrder(orders, beers, dto).0 == SaveBeerOrderResolvedOnly(orders, beers, dto).0
    ensures SaveBeerOrder(orders, beers, dto).1.Err? ==>
      SaveBeerOrder(orders, beers, dto).1 == SaveBeerOrderResolvedOnly(orders, beers, dto).1
  {
    SaveWithOwnLinesUnstored(orders, beers, BeerOrderDtoToBeerOrder(dto), LineDtos(dto));
  }

  /** A saved order reads back as the DTO the intended save returns. The
      as-written save stores the same order, so it reads back the same, with
      the resolved lines only, which is not the response it returned as
      soon as the order has a line. */
  lemma SavedOrderReadsBack(orders: Table<BeerOrder>, beers: Table<Beer>, dto: BeerOrderDto)
    requires SaveBeerOrderResolvedOnly(orders, beers, dto).1.Ok?
    ensures GetBeerOrderById(SaveBeerOrderResolvedOnly(orders, beers, dto).0, beers, orders.nextId)
         == Some(SaveBeerOrderResolvedOnly(orders, beers, dto).1.value)
    ensures GetBeerOrderById(SaveBeerOrder(orders, beers, dto).0, beers, orders.nextId)
         == Some(SaveBeerOrderResolvedOnly(orders, beers, dto).1.value)
    ensures |LineDtos(dto)| > 0 ==>
      GetBeerOrderById(SaveBeerOrder(orders, beers, dto).0, beers, orders.nextId)
      != Some(SaveBeerOrder(orders, beers, dto).1.value)
  {
    AsWrittenStoresIntended(orders, beers, dto);
    if |LineDtos(dto)| > 0 {
      SaveBeerOrderDuplicatesLines(orders, beers, dto);
    }
  }

  /** A saved order is listed last, after every order stored before it, as
      the DTO the intended save returns; the as-written save lists the same. */
  lemma SavedOrderListed(orders: Table<BeerOrder>, beers: Table<Beer>, dto: BeerOrderDto)
    requires Valid(orders)
    requires SaveBeerOrderResolvedOnly(orders, beers, dto).1.Ok?
    ensures GetAllBeerOrders(SaveBeerOrderResolvedOnly(orders, beers, dto).0, beers)
         == GetAllBeerOrders(orders, beers) + [SaveBeerOrderResolvedOnly(orders, beers, dto).1.value]
    ensures GetAllBeerOrders(SaveBeerOrder(orders, beers, dto).0, beers)
         == GetAllBeerOrders(orders, beers) + [SaveBeerOrderResolvedOnly(orders, beers, dto).1.value]
  {
    var r := SaveBeerOrderResolvedOnly(orders, beers, dto);
    AddedOneIsInsert(orders, r.0);
    MapRowsInsert(orders, r.0.rows[orders.nextId], AsDtoWith(beers));
    AsWrittenStoresIntended(orders, beers, dto);
  }

  /** `updateBeerOrder`: on a stored id, customer reference, payment amount
      and status are replaced by the DTO's, null included; the lines, the
      shipments, the customer and everything else stay. On a missing id,
      nothing. */
  function UpdateBeerOrder(orders: Table<BeerOrder>, beers: Table<Beer>, id: int, dto: BeerOrderDto)
    : (r: (Table<BeerOrder>, Option<BeerOrderDto>))
    ensures r.1.Some? <==> id in orders.rows
    ensures id !in orders.rows ==> r.0 == orders
    ensures id in orders.rows ==>
      var old_ := orders.rows[id];
      && r.0.rows.Keys == orders.rows.Keys && r.0.nextId == orders.nextId
      && (forall j :: j in orders.rows && j != id ==> r.0.rows[j] == orders.rows[j])
      && r.0.rows[id].customerRef == dto.customerRef
      && r.0.rows[id].paymentAmount == dto.paymentAmount
      && r.0.rows[id].status == dto.status
      && r.0.rows[id].(customerRef := old_.customerRef, paymentAmount := old_.paymentAmount,
                       status := old_.status) == old_
      && r.1 == Some(ToDto(beers, r.0.rows[id]))
    ensures Consistent(orders) ==> Consistent(r.0)
  {
    if id !in orders.rows then (orders, None)
    else
      var updated := orders.rows[id].(customerRef := dto.customerRef, paymentAmount := dto.paymentAmount,
                                      status := dto.status);
      (Replace(orders, id, updated), Some(ToDto(beers, updated)))
  }

  /** The DTO's lines, version, id and timestamps have no effect on an update:
      only its three header properties are read. */
  lemma UpdateReadsOnlyHeader(orders: Table<BeerOrder>, beers: Table<Beer>, id: int,
                              dto: BeerOrderDto, other: BeerOrderDto)
    requires dto.customerRef == other.customerRef && dto.paymentAmount == other.paymentAmount
    requires dto.status == other.status
    ensures UpdateBeerOrder(orders, beers, id, dto) == UpdateBeerOrder(orders, beers, id, other)
  {
  }

  /** `deleteBeerOrder`: true and the order gone, its owned lines with it,
      exactly when the id was stored. */
  function DeleteBeerOrder(orders: Table<BeerOrder>, id: int): (r: (Table<BeerOrder>, bool))
    ensures r.1 <==> id in orders.rows
    ensures r.0.rows == orders.rows - {id}
    ensures !r.1 ==> r.0 == orders
    ensures Consistent(orders) ==> Consistent(r.0)
  {
    Delete(orders, id)
  }
}
