/** CustomerInMemoryDao as an object: the two fields that `save` and `deleteById`
    update in place, and the queries read. Each operation is proved to follow the
    corresponding function of CustomerStore. */
module InMemoryDao {
  import opened Wrappers
  import opened Errors
  import opened CustomerModel
  import CustomerStore

  class CustomerInMemoryDao {
    var currentId: nat
    var customers: map<int, Customer>

    /** The value of the two fields. */
    function State(): CustomerStore.Store
      reads this
    {
      CustomerStore.Store(currentId, customers)
    }

    ghost predicate Valid()
      reads this
    {
      CustomerStore.Inv(State())
    }

    /** A new store: counter 0 and an empty map. */
    constructor ()
      ensures Valid() && State() == CustomerStore.Empty
    {
      currentId := 0;
      customers := map[];
    }

    /** `save`: on a validation failure nothing changes; a record with a null or unknown
        id takes the incremented counter as its id; the record is then put under its id. */
    method Save(customer: Customer) returns (r: Result<Customer, Error>)
      requires Valid()
      modifies this
      ensures Valid()
      ensures CustomerStore.Step(State(), r) == CustomerStore.Save(old(State()), customer)
    {
      CustomerStore.SavePreservesInv(State(), customer);
      var violations := Violations(customer);
      if violations != {} {
        return Err(ConstraintViolation(violations));
      }
      var saved := customer;
      if !ExistsById(customer.id) {
        currentId := currentId + 1;
        saved := saved.(id := Some(currentId));
      }
      customers := customers[saved.id.value := saved];
      r := Ok(saved);
    }

    /** `deleteById`: the key is removed from the map; the counter is untouched. */
    method DeleteById(id: Option<int>) returns (r: Outcome<Error>)
      requires Valid()
      modifies this
      ensures Valid()
      ensures CustomerStore.Step(State(), r) == CustomerStore.DeleteById(old(State()), id)
    {
      CustomerStore.DeletePreservesInv(State(), id);
      if id.None? {
        // ConcurrentHashMap.remove rejects a null key.
        return Fail(NullPointer);
      }
      customers := customers - {id.value};
      r := Pass;
    }

    function FindById(id: Option<int>): Option<Customer>
      reads this
    {
      CustomerStore.FindById(State(), id)
    }

    function FindAll(): seq<Customer>
      reads this
      requires Valid()
    {
      CustomerStore.FindAll(State())
    }

    function FindByNameIgnoreCase(name: Option<string>): seq<Customer>
      reads this
      requires Valid()
    {
      CustomerStore.FindByNameIgnoreCase(State(), name)
    }

    predicate ExistsById(id: Option<int>)
      reads this
    {
      CustomerStore.ExistsById(State(), id)
    }

    predicate ExistsByNameIgnoreCaseAndFamilyIgnoreCase(name: Option<string>, family: Option<string>)
      reads this
      requires Valid()
    {
      CustomerStore.ExistsByNameIgnoreCaseAndFamilyIgnoreCase(State(), name, family)
    }
  }
}
