/** Customer <-> CustomerDto conversion. */
module CustomerMapper {

  import opened Values
  import opened Entities
  import opened Models

  /** Outbound: identity, version, the eight contact properties and both
      timestamps are copied; the order list is not populated. */
  function CustomerToCustomerDto(customer: Customer): (r: CustomerDto)
    ensures r.id == customer.id && r.version == customer.version
    ensures r.name == customer.name && r.email == customer.email && r.phone == customer.phone
    ensures r.addressLine1 == customer.addressLine1 && r.addressLine2 == customer.addressLine2
    ensures r.city == customer.city && r.state == customer.state && r.postalCode == customer.postalCode
    ensures r.createdAt == customer.createdAt && r.updatedAt == customer.updatedAt
    ensures r.beerOrders == []
  {
    CustomerDto(customer.id, customer.version, customer.name, customer.email, customer.phone,
                customer.addressLine1, customer.addressLine2, customer.city, customer.state,
                customer.postalCode, customer.createdAt, customer.updatedAt, [])
  }

  /** Inbound: identity, both timestamps and the order list are dropped;
      version and the eight contact properties are copied. */
  function CustomerDtoToCustomer(dto: CustomerDto): (r: Customer)
    ensures r.id.None? && r.createdAt.None? && r.updatedAt.None? && r.beerOrders == []
    ensures r.version == dto.version
    ensures r.name == dto.name && r.email == dto.email && r.phone == dto.phone
    ensures r.addressLine1 == dto.addressLine1 && r.addressLine2 == dto.addressLine2
    ensures r.city == dto.city && r.state == dto.state && r.postalCode == dto.postalCode
  {
    Customer(None, dto.version, dto.name, dto.email, dto.phone, dto.addressLine1, dto.addressLine2,
             dto.city, dto.state, dto.postalCode, None, None, [])
  }

  /** DTO to entity and back keeps everything but the dropped properties. */
  lemma CustomerDtoRoundTrip(dto: CustomerDto)
    ensures CustomerToCustomerDto(CustomerDtoToCustomer(dto))
         == dto.(id := None, createdAt := None, updatedAt := None, beerOrders := [])
  {
  }
}
