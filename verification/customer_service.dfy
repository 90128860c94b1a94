/** The customer service over the customer table: listing, lookup, create,
    contact update and delete. Each write returns the new table beside its
    result. */
module CustomerService {

  import opened Values
  import opened Store
  import opened Entities
  import opened Models
  import opened CustomerMapper

  /** The table invariant every operation here preserves. */
  predicate Consistent(customers: Table<Customer>) {
    Valid(customers) && IdsMatch(customers, CustomerIdOf())
  }

  /** Each customer converted, order kept. */
  function ToDtos(customers: seq<Customer>): (r: seq<CustomerDto>)
    ensures |r| == |customers|
    ensures forall i :: 0 <= i < |r| ==> r[i] == CustomerToCustomerDto(customers[i])
  {
    MapSeq(customers, (c: Customer) => CustomerToCustomerDto(c))
  }

  /** `getAllCustomers`: every customer, converted, in id order. */
  function GetAllCustomers(customers: Table<Customer>): (r: seq<CustomerDto>)
    ensures |r| == |Rows(customers)|
    ensures forall i :: 0 <= i < |r| ==> r[i] == CustomerToCustomerDto(customers.rows[Keys(customers)[i]])
  {
    ToDtos(Rows(customers))
  }

  /** `getCustomerById`: present exactly when the id is stored. */
  function GetCustomerById(customers: Table<Customer>, id: int): (r: Option<CustomerDto>)
    ensures r.Some? <==> id in customers.rows
    ensures r.Some? ==> r.value == CustomerToCustomerDto(customers.rows[id])
  {
    if id in customers.rows then Some(CustomerToCustomerDto(customers.rows[id])) else None
  }

  /** `saveCustomer`: exactly one new row, built by `customerDtoToCustomer`
      and given the next key; every other row stays as it was. */
  function SaveCustomer(customers: Table<Customer>, dto: CustomerDto): (r: (Table<Customer>, CustomerDto))
    ensures var k := customers.nextId;
      && r.0.rows.Keys == customers.rows.Keys + {k} && r.0.nextId == k + 1
      && r.0.rows[k] == CustomerDtoToCustomer(dto).(id := Some(k))
      && (forall j :: j in customers.rows && j != k ==> r.0.rows[j] == customers.rows[j])
      && r.1 == CustomerToCustomerDto(r.0.rows[k])
    ensures r.1 == dto.(id := Some(customers.nextId), createdAt := None, updatedAt := None, beerOrders := [])
    ensures Valid(customers) ==> customers.nextId !in customers.rows && |r.0.rows| == |customers.rows| + 1
    ensures Consistent(customers) ==> Consistent(r.0)
  {
    var k := customers.nextId;
    var saved := CustomerDtoToCustomer(dto).(id := Some(k));
    (Insert(customers, saved), CustomerToCustomerDto(saved))
  }

  /** A saved customer reads back as the DTO the save returned, and is listed
      after every earlier customer. */
  lemma SavedCustomerReadsBack(customers: Table<Customer>, dto: CustomerDto)
    requires Valid(customers)
    ensures GetCustomerById(SaveCustomer(customers, dto).0, customers.nextId) == Some(SaveCustomer(customers, dto).1)
    ensures GetAllCustomers(SaveCustomer(customers, dto).0) == GetAllCustomers(customers) + [SaveCustomer(customers, dto).1]
  {
    var r := SaveCustomer(customers, dto);
    var saved := r.0.rows[customers.nextId];
    assert r.0 == Insert(customers, saved);
    MapRowsInsert(customers, saved, (c: Customer) => CustomerToCustomerDto(c));
  }

  /** `updateCustomer`: on a stored id, the eight contact properties (name,
      email, phone, both address lines, city, state, postal code) are replaced
      by the DTO's, null included; identity, version, timestamps and orders
      stay. On a missing id, nothing. */
  function UpdateCustomer(customers: Table<Customer>, id: int, dto: CustomerDto): (r: (Table<Customer>, Option<CustomerDto>))
    ensures r.1.Some? <==> id in customers.rows
    ensures id !in customers.rows ==> r.0 == customers
    ensures id in customers.rows ==>
      var old_ := customers.rows[id];
      && r.0.rows.Keys == customers.rows.Keys && r.0.nextId == customers.nextId
      && (forall j :: j in customers.rows && j != id ==> r.0.rows[j] == customers.rows[j])
      && r.0.rows[id].name == dto.name && r.0.rows[id].email == dto.email && r.0.rows[id].phone == dto.phone
      && r.0.rows[id].addressLine1 == dto.addressLine1 && r.0.rows[id].addressLine2 == dto.addressLine2
      && r.0.rows[id].city == dto.city && r.0.rows[id].state == dto.state
      && r.0.rows[id].postalCode == dto.postalCode
      && r.0.rows[id].id == old_.id && r.0.rows[id].version == old_.version
      && r.0.rows[id].createdAt == old_.createdAt && r.0.rows[id].updatedAt == old_.updatedAt
      && r.0.rows[id].beerOrders == old_.beerOrders
      && r.1 == Some(CustomerToCustomerDto(r.0.rows[id]))
    ensures Consistent(customers) ==> Consistent(r.0)
  {
    if id !in customers.rows then (customers, None)
    else
      var existing := customers.rows[id];
      var customer := CustomerDtoToCustomer(dto);
      var updated := existing.(name := customer.name, email := customer.email, phone := customer.phone,
                               addressLine1 := customer.addressLine1, addressLine2 := customer.addressLine2,
                               city := customer.city, state := customer.state, postalCode := customer.postalCode);
      (Replace(customers, id, updated), Some(CustomerToCustomerDto(updated)))
  }

  /** Updating a customer with its own DTO changes nothing; updating twice
      with the same DTO is updating once. */
  lemma UpdateCustomerFixpoints(customers: Table<Customer>, id: int, dto: CustomerDto)
    ensures id in customers.rows ==>
      UpdateCustomer(customers, id, CustomerToCustomerDto(customers.rows[id])).0 == customers
    ensures UpdateCustomer(UpdateCustomer(customers, id, dto).0, id, dto) == UpdateCustomer(customers, id, dto)
  {
    if id in customers.rows {
      var own := UpdateCustomer(customers, id, CustomerToCustomerDto(customers.rows[id])).0;
      assert own.rows == customers.rows;
      var once := UpdateCustomer(customers, id, dto).0;
      assert UpdateCustomer(once, id, dto).0.rows == once.rows;
    }
  }

  /** The DTO's identity, version, timestamps and orders have no effect on an
      update: only its eight contact properties are read. */
  lemma UpdateReadsOnlyContact(customers: Table<Customer>, id: int, dto: CustomerDto, other: CustomerDto)
    requires dto.name == other.name && dto.email == other.email && dto.phone == other.phone
    requires dto.addressLine1 == other.addressLine1 && dto.addressLine2 == other.addressLine2
    requires dto.city == other.city && dto.state == other.state && dto.postalCode == other.postalCode
    ensures UpdateCustomer(customers, id, dto) == UpdateCustomer(customers, id, other)
  {
  }

  /** `deleteCustomer`: true and the row gone exactly when the id was stored. */
  function DeleteCustomer(customers: Table<Customer>, id: int): (r: (Table<Customer>, bool))
    ensures r.1 <==> id in customers.rows
    ensures r.0.rows == customers.rows - {id}
    ensures !r.1 ==> r.0 == customers
    ensures Consistent(customers) ==> Consistent(r.0)
  {
    Delete(customers, id)
  }

  /** Deleting makes the customer unreadable, and a second delete reports
      false. */
  lemma DeleteCustomerTwice(customers: Table<Customer>, id: int)
    ensures GetCustomerById(DeleteCustomer(customers, id).0, id).None?
    ensures !DeleteCustomer(DeleteCustomer(customers, id).0, id).1
  {
  }
}
