/** The persistence entities. Every Java reference field is an `Option`;
    relationships are foreign-key ids rather than live object pointers: a line
    or shipment names its order by id, a line names its beer by id, an order
    names its customer by id. An order holds its lines and the shipments added
    to it in memory; which lines are stored with it is decided by each line's
    own order id. */
module Entities {

  import opened Values

  datatype Beer = Beer(
    id: Option<int>,
    version: Option<int>,
    beerName: Option<string>,
    beerStyle: Option<string>,
    upc: Option<string>,
    quantityOnHand: Option<int>,
    price: Option<Decimal>,
    imageUrl: Option<string>,
    createdDate: Option<LocalDateTime>,
    updatedDate: Option<LocalDateTime>,
    /** ids of the order lines that reference this beer (the inverse side) */
    beerOrderLines: seq<int>)

  datatype BeerOrderLine = BeerOrderLine(
    id: Option<int>,
    version: Option<int>,
    /** id of the owning order */
    beerOrder: Option<int>,
    /** id of the ordered beer */
    beer: Option<int>,
    orderQuantity: Option<int>,
    quantityAllocated: Option<int>,
    status: Option<string>,
    createdDate: Option<LocalDateTime>,
    updatedDate: Option<LocalDateTime>)

  datatype BeerOrderShipment = BeerOrderShipment(
    id: Option<int>,
    version: Option<int>,
    /** id of the order shipped */
    beerOrder: Option<int>,
    shipmentDate: Option<LocalDate>,
    carrier: Option<string>,
    trackingNumber: Option<string>,
    createdDate: Option<LocalDateTime>,
    updatedDate: Option<LocalDateTime>)

  datatype BeerOrder = BeerOrder(
    id: Option<int>,
    version: Option<int>,
    /** id of the ordering customer */
    customer: Option<int>,
    customerRef: Option<string>,
    paymentAmount: Option<Decimal>,
    status: Option<string>,
    createdDate: Option<LocalDateTime>,
    updatedDate: Option<LocalDateTime>,
    beerOrderLines: seq<BeerOrderLine>,
    beerOrderShipments: seq<BeerOrderShipment>)

  /** The Customer entity, with the fields its transfer object and mapper name. */
  datatype Customer = Customer(
    id: Option<int>,
    version: Option<int>,
    name: Option<string>,
    email: Option<string>,
    phone: Option<string>,
    addressLine1: Option<string>,
    addressLine2: Option<string>,
    city: Option<string>,
    state: Option<string>,
    postalCode: Option<string>,
    createdAt: Option<LocalDateTime>,
    updatedAt: Option<LocalDateTime>,
    /** ids of the customer's orders (the inverse side) */
    beerOrders: seq<int>)

  /** Each entity's id, as a function value. */
  function BeerIdOf(): Beer -> Option<int> {
    (b: Beer) => b.id
  }

  function BeerOrderIdOf(): BeerOrder -> Option<int> {
    (o: BeerOrder) => o.id
  }

  function ShipmentIdOf(): BeerOrderShipment -> Option<int> {
    (s: BeerOrderShipment) => s.id
  }

  function CustomerIdOf(): Customer -> Option<int> {
    (c: Customer) => c.id
  }

  /** Every line the order holds points back at it: the relationship is the
      same seen from either side. */
  predicate LinesPointAt(order: BeerOrder) {
    forall i :: 0 <= i < |order.beerOrderLines| ==> order.beerOrderLines[i].beerOrder == order.id
  }

  /** Every shipment the order holds points back at it. */
  predicate ShipmentsPointAt(order: BeerOrder) {
    forall i :: 0 <= i < |order.beerOrderShipments| ==> order.beerOrderShipments[i].beerOrder == order.id
  }

  /** `BeerOrder.builder().build()`: every field null, both collections empty. */
  function NewBeerOrder(): (r: BeerOrder)
    ensures r.beerOrderLines == [] && r.beerOrderShipments == []
    ensures r.id.None? && r.customer.None?
    ensures LinesPointAt(r) && ShipmentsPointAt(r)
  {
    BeerOrder(None, None, None, None, None, None, None, None, [], [])
  }

  /** `addBeerOrderLine`: append the line and point it back at this order. */
  function AddBeerOrderLine(order: BeerOrder, line: BeerOrderLine): (r: BeerOrder)
    ensures |r.beerOrderLines| == |order.beerOrderLines| + 1
    ensures r.beerOrderLines[..|order.beerOrderLines|] == order.beerOrderLines
    ensures r.beerOrderLines[|order.beerOrderLines|] == line.(beerOrder := order.id)
    ensures LinesPointAt(order) ==> LinesPointAt(r)
    ensures r.(beerOrderLines := order.beerOrderLines) == order
  {
    order.(beerOrderLines := order.beerOrderLines + [line.(beerOrder := order.id)])
  }

  /** `addBeerOrderShipment`: append the shipment and point it back at this
      order; the shipment as linked is returned beside the order. */
  function AddBeerOrderShipment(order: BeerOrder, shipment: BeerOrderShipment): (r: (BeerOrder, BeerOrderShipment))
    ensures r.1.beerOrder == order.id
    ensures r.1.(beerOrder := shipment.beerOrder) == shipment
    ensures r.0.beerOrderShipments == order.beerOrderShipments + [r.1]
    ensures r.0.(beerOrderShipments := order.beerOrderShipments) == order
    ensures ShipmentsPointAt(order) ==> ShipmentsPointAt(r.0)
    ensures LinesPointAt(r.0) == LinesPointAt(order)
  {
    var linked := shipment.(beerOrder := order.id);
    (order.(beerOrderShipments := order.beerOrderShipments + [linked]), linked)
  }

  /** Adding lines one at a time, in order. */
  function AddBeerOrderLines(order: BeerOrder, lines: seq<BeerOrderLine>): (r: BeerOrder)
    ensures |r.beerOrderLines| == |order.beerOrderLines| + |lines|
    ensures r.beerOrderLines[..|order.beerOrderLines|] == order.beerOrderLines
    ensures forall i :: 0 <= i < |lines| ==>
      r.beerOrderLines[|order.beerOrderLines| + i] == lines[i].(beerOrder := order.id)
    ensures r.(beerOrderLines := order.beerOrderLines) == order
    decreases |lines|
  {
    if |lines| == 0 then order
    else
      var next := AddBeerOrderLine(order, lines[0]);
      var r := AddBeerOrderLines(next, lines[1..]);
      assert forall i :: 1 <= i < |lines| ==> lines[i] == lines[1..][i - 1];
      assert r.beerOrderLines[..|next.beerOrderLines|] == next.beerOrderLines;
      r
  }

  /** Adding lines one at a time keeps every line pointing back at the order. */
  lemma AddBeerOrderLinesKeepLinks(order: BeerOrder, lines: seq<BeerOrderLine>)
    requires LinesPointAt(order)
    ensures LinesPointAt(AddBeerOrderLines(order, lines))
  {
    var r := AddBeerOrderLines(order, lines);
    var m := |order.beerOrderLines|;
    forall i | 0 <= i < |r.beerOrderLines| ensures r.beerOrderLines[i].beerOrder == r.id {
      if i < m {
        assert r.beerOrderLines[i] == r.beerOrderLines[..m][i];
      } else {
        assert r.beerOrderLines[m + (i - m)] == lines[i - m].(beerOrder := order.id);
      }
    }
  }
}
