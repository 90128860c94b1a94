/** The transfer objects exchanged with clients. Their Bean Validation
    annotations are not part of this model. */
module Models {

  import opened Values

  datatype BeerDto = BeerDto(
    id: Option<int>,
    version: Option<int>,
    beerName: Option<string>,
    beerStyle: Option<string>,
    upc: Option<string>,
    quantityOnHand: Option<int>,
    price: Option<Decimal>,
    imageUrl: Option<string>,
    createdDate: Option<LocalDateTime>,
    updatedDate: Option<LocalDateTime>)

  /** The sparse patch for a beer: an absent (null) field means "do not touch". */
  datatype BeerPathDto = BeerPathDto(
    id: Option<int>,
    version: Option<int>,
    beerName: Option<string>,
    beerStyle: Option<string>,
    upc: Option<string>,
    quantityOnHand: Option<int>,
    price: Option<Decimal>,
    imageUrl: Option<string>)

  datatype BeerOrderLineDto = BeerOrderLineDto(
    id: Option<int>,
    version: Option<int>,
    beerId: Option<int>,
    orderQuantity: Option<int>,
    quantityAllocated: Option<int>,
    status: Option<string>,
    createdDate: Option<LocalDateTime>,
    updatedDate: Option<LocalDateTime>,
    /** read-only snapshot of the ordered beer */
    beer: Option<BeerDto>)

  datatype BeerOrderDto = BeerOrderDto(
    id: Option<int>,
    version: Option<int>,
    customerRef: Option<string>,
    paymentAmount: Option<Decimal>,
    status: Option<string>,
    createdDate: Option<LocalDateTime>,
    updatedDate: Option<LocalDateTime>,
    /** the line list itself may be null */
    beerOrderLines: Option<seq<BeerOrderLineDto>>)

  datatype BeerOrderShipmentDto = BeerOrderShipmentDto(
    id: Option<int>,
    version: Option<int>,
    beerOrderId: Option<int>,
    shipmentDate: Option<LocalDate>,
    carrier: Option<string>,
    trackingNumber: Option<string>,
    createdDate: Option<LocalDateTime>,
    updatedDate: Option<LocalDateTime>)

  datatype CustomerDto = CustomerDto(
    id: Option<int>,
    version: Option<int>,
    name: Option<string>,
    email: Option<string>,
    phone: Option<string>,
    addressLine1: Option<string>,
    addressLine2: Option<string>,
    city: Option<string>,
    state: Option<string>,
    postalCode: Option<string>,
    createdAt: Option<LocalDateTime>,
    updatedAt: Option<LocalDateTime>,
    beerOrders: seq<BeerOrderDto>)
}
