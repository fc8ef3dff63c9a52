/** CustomerService: existence rules on top of the store. Update never creates a
    record, delete of an absent id fails with not-found, and the reads pass straight
    through. The functions give the behaviour on store values; the class drives a
    CustomerInMemoryDao and is proved to follow them. */
module Services {
  import opened Wrappers
  import opened Errors
  import opened CustomerModel
  import opened JavaStrings
  import opened CustomerStore
  import opened InMemoryDao

  /** The message of the CustomerNotFoundException thrown by delete. */
  function NotFoundMessage(id: Option<int>): string
  {
    "Customer with id " + LongToString(id) + " not found"
  }

  /** `updateCustomer`: for a stored id, the record is given that id and saved; for any
      other id (null included) the result is null and nothing is saved. */
  function UpdateCustomerStep(s: Store, id: Option<int>, updated: Customer): (r: Step<Result<Option<Customer>, Error>>)
    ensures r.result == Ok(None) <==> !ExistsById(s, id)
    ensures r.result.Err? <==> ExistsById(s, id) && !IsValid(updated)
    ensures r.result.Err? ==> r.store == s
    ensures r.result.Ok? && r.result.value.Some? ==> r.result.value.value == updated.(id := id)
    ensures r.store.customers.Keys == s.customers.Keys && r.store.currentId == s.currentId
  {
    if ExistsById(s, id) then
      var saved := Save(s, updated.(id := id));
      Step(saved.store, match saved.result
                        case Ok(c) => Ok(Some(c))
                        case Err(e) => Err(e))
    else Step(s, Ok(None))
  }

  /** `deleteCustomer`: a stored id is deleted; any other id throws not-found. */
  function DeleteCustomerStep(s: Store, id: Option<int>): (r: Step<Outcome<Error>>)
    ensures r.result.Fail? <==> !ExistsById(s, id)
    ensures r.result.Fail? ==> r.store == s && r.result.error == CustomerNotFound(NotFoundMessage(id))
    ensures !ExistsById(r.store, id) && r.store.currentId == s.currentId
    ensures forall k :: k in r.store.customers <==> k in s.customers && Some(k) != id
  {
    if ExistsById(s, id) then DeleteById(s, id)
    else Step(s, Fail(CustomerNotFound(NotFoundMessage(id))))
  }

  // ---------------------------------------------------------------------------
  // Properties

  /** Update never creates a record: the key set, and so the number of records listed
      by findAll, is the same afterwards, whatever the id and the record. */
  lemma UpdateNeverCreates(s: Store, id: Option<int>, c: Customer)
    requires Inv(s)
    ensures var r := UpdateCustomerStep(s, id, c);
            && Inv(r.store)
            && r.store.customers.Keys == s.customers.Keys
            && |FindAll(r.store)| == |FindAll(s)|
  {
    if ExistsById(s, id) {
      var c' := c.(id := id);
      SavePreservesInv(s, c');
      if IsValid(c') {
        SaveOverwrites(s, c');
      }
    }
  }

  /** An update of an id that is not stored (a null id included) returns null and
      changes nothing. */
  lemma UpdateOfAbsentIdIsNull(s: Store, id: Option<int>, c: Customer)
    requires !ExistsById(s, id)
    ensures UpdateCustomerStep(s, id, c) == Step(s, Ok(None))
    ensures UpdateCustomerStep(s, None, c) == Step(s, Ok(None))
  {
  }

  /** An update of a stored id with a valid record overwrites that entry only, with the
      record carrying that id, whatever id the caller's record held. */
  lemma UpdateOfStoredIdOverwrites(s: Store, id: Option<int>, c: Customer)
    requires ExistsById(s, id) && IsValid(c)
    ensures var r := UpdateCustomerStep(s, id, c);
            && r.result == Ok(Some(c.(id := id)))
            && r.result.value.value.id == id
            && r.store.currentId == s.currentId
            && r.store.customers == s.customers[id.value := c.(id := id)]
            && |r.store.customers| == |s.customers|
            && (forall k :: k in s.customers && k != id.value ==> r.store.customers[k] == s.customers[k])
  {
    ValidationIgnoresUnconstrainedFields(c, id, c.phoneNumber, c.tag, None);
    SaveOverwrites(s, c.(id := id));
  }

  /** An update of a stored id with an invalid record propagates the validation error and
      leaves the store as it was. */
  lemma UpdateWithInvalidRecordFails(s: Store, id: Option<int>, c: Customer)
    requires ExistsById(s, id) && !IsValid(c)
    ensures UpdateCustomerStep(s, id, c) == Step(s, Err(ConstraintViolation(Violations(c))))
  {
    ValidationIgnoresUnconstrainedFields(c, id, c.phoneNumber, c.tag, None);
  }

  /** Update returns null exactly when the id is not stored; for a stored id and a valid
      record it returns the saved record. */
  lemma UpdateIsNullIffAbsent(s: Store, id: Option<int>, c: Customer)
    ensures UpdateCustomerStep(s, id, c).result == Ok(None) <==> !ExistsById(s, id)
  {
  }

  lemma UpdatePreservesInv(s: Store, id: Option<int>, c: Customer)
    requires Inv(s)
    ensures Inv(UpdateCustomerStep(s, id, c).store)
  {
    UpdateNeverCreates(s, id, c);
  }

  /** Delete of an id that is not stored throws not-found naming the id and changes
      nothing. */
  lemma DeleteOfAbsentIdFails(s: Store, id: Option<int>)
    requires !ExistsById(s, id)
    ensures DeleteCustomerStep(s, id) ==
              Step(s, Fail(CustomerNotFound("Customer with id " + LongToString(id) + " not found")))
  {
  }

  /** Delete of a stored id removes that record only; afterwards it is not found. */
  lemma DeleteOfStoredIdRemoves(s: Store, id: Option<int>)
    requires ExistsById(s, id)
    ensures var r := DeleteCustomerStep(s, id);
            && r.result == Pass
            && r.store.currentId == s.currentId
            && r.store.customers.Keys == s.customers.Keys - {id.value}
            && (forall k :: k in r.store.customers ==> r.store.customers[k] == s.customers[k])
            && FindById(r.store, id) == None
  {
  }

  /** Delete fails exactly when the id is not stored, and then only with not-found. */
  lemma DeleteFailsIffAbsent(s: Store, id: Option<int>)
    ensures DeleteCustomerStep(s, id).Step?
    ensures DeleteCustomerStep(s, id).result.Fail? <==> !ExistsById(s, id)
    ensures DeleteCustomerStep(s, id).result.Fail? ==> DeleteCustomerStep(s, id).result.error.CustomerNotFound?
  {
  }

  lemma DeletePreservesStoreInv(s: Store, id: Option<int>)
    requires Inv(s)
    ensures Inv(DeleteCustomerStep(s, id).store)
  {
    DeletePreservesInv(s, id);
  }

  /** The message carries the id: its digits read back as the id. */
  lemma NotFoundMessageNamesId(n: nat)
    ensures NotFoundMessage(Some(n)) == "Customer with id " + NatToString(n) + " not found"
    ensures ParseDigits(NatToString(n)) == n
    ensures NotFoundMessage(None) == "Customer with id null not found"
  {
    NatToStringRoundTrip(n);
  }

  // ---------------------------------------------------------------------------
  // The service object

  class CustomerService {
    const customerDao: CustomerInMemoryDao

    constructor (customerDao: CustomerInMemoryDao)
      ensures this.customerDao == customerDao
    {
      this.customerDao := customerDao;
    }

    /** `addCustomer`: exactly a store save, with no existence check. */
    method AddCustomer(customer: Customer) returns (r: Result<Customer, Error>)
      requires customerDao.Valid()
      modifies customerDao
      ensures customerDao.Valid()
      ensures Step(customerDao.State(), r) == Save(old(customerDao.State()), customer)
    {
      r := customerDao.Save(customer);
    }

    /** `updateCustomer`: checks existence, then sets the id and saves. */
    method UpdateCustomer(id: Option<int>, updatedCustomer: Customer) returns (r: Result<Option<Customer>, Error>)
      requires customerDao.Valid()
      modifies customerDao
      ensures customerDao.Valid()
      ensures Step(customerDao.State(), r) == UpdateCustomerStep(old(customerDao.State()), id, updatedCustomer)
    {
      ghost var before := customerDao.State();
      if customerDao.ExistsById(id) {
        var withId := updatedCustomer.(id := id);
        var saved := customerDao.Save(withId);
        assert Step(customerDao.State(), saved) == Save(before, withId);
        match saved
        case Ok(c) => r := Ok(Some(c));
        case Err(e) => r := Err(e);
      } else {
        r := Ok(None);
      }
    }

    /** `deleteCustomer`: checks existence, then deletes or throws not-found. */
    method DeleteCustomer(id: Option<int>) returns (r: Outcome<Error>)
      requires customerDao.Valid()
      modifies customerDao
      ensures customerDao.Valid()
      ensures Step(customerDao.State(), r) == DeleteCustomerStep(old(customerDao.State()), id)
    {
      if customerDao.ExistsById(id) {
        r := customerDao.DeleteById(id);
      } else {
        r := Fail(CustomerNotFound(NotFoundMessage(id)));
      }
    }

    /** `getAllCustomers`: the store's findAll on the current state. */
    function GetAllCustomers(): (r: seq<Customer>)
      reads customerDao
      requires customerDao.Valid()
      ensures r == FindAll(customerDao.State())
    {
      customerDao.FindAll()
    }

    /** `getCustomerById`: the store's findById on the current state. */
    function GetCustomerById(id: Option<int>): (r: Option<Customer>)
      reads customerDao
      ensures r == FindById(customerDao.State(), id)
    {
      customerDao.FindById(id)
    }

    /** `findByName`: the store's findByNameIgnoreCase on the current state. */
    function FindByName(name: Option<string>): (r: seq<Customer>)
      reads customerDao
      requires customerDao.Valid()
      ensures r == FindByNameIgnoreCase(customerDao.State(), name)
    {
      customerDao.FindByNameIgnoreCase(name)
    }
  }
}
