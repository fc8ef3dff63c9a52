/** CustomerFacade: each operation converts the wire customer to an entity, calls the
    service, and converts the result back; absence becomes null. The functions give
    the behaviour on store values; the class drives a CustomerService and is proved
    to follow them. */
module Facades {
  import opened Wrappers
  import opened Errors
  import opened CustomerModel
  import opened JavaStrings
  import opened CustomerDtos
  import opened CustomerMapper
  import opened CustomerStore
  import opened Services

  /** A reference of static type CustomerDto: null, a wire customer, or an instance of
      a subclass the mapper does not know. It is never an entity. */
  predicate IsCustomerDtoReference(o: JavaObject)
  {
    !o.EntityObject?
  }

  /** `.stream().map(customerMapper::toDto).toList()`: same length and order, and each
      wire customer maps back to the entity at its position. */
  function ToDtos(es: seq<Customer>): (ds: seq<CustomerDto>)
    ensures |ds| == |es|
    ensures forall i :: 0 <= i < |es| ==> ToEntity(DtoObject(ds[i])) == Ok(es[i])
  {
    seq(|es|, i requires 0 <= i < |es| => EntityToDto(es[i]))
  }

  /** `addCustomer`: map to an entity, save through the service, map the saved record
      back. */
  function AddDtoStep(s: Store, o: JavaObject): (r: Step<Result<CustomerDto, Error>>)
    ensures r.result.Ok? <==> o.DtoObject? && IsValid(ToEntity(o).value)
    ensures r.result.Err? ==> r.store == s
    ensures r.result.Ok? ==> r.result.value == o.dto.(id := r.result.value.id) && r.result.value.id.Some?
    ensures s.customers.Keys <= r.store.customers.Keys
  {
    match ToEntity(o)
    case Err(e) => Step(s, Err(e))
    case Ok(entity) =>
      var saved := Save(s, entity);
      match saved.result
      case Err(e) => Step(saved.store, Err(e))
      case Ok(c) => Step(saved.store, Ok(EntityToDto(c)))
  }

  /** `updateCustomer`: map to an entity first, then update through the service; a null
      from the service stays null. */
  function UpdateDtoStep(s: Store, id: Option<int>, o: JavaObject): (r: Step<Result<Option<CustomerDto>, Error>>)
    ensures r.result.Err? ==> r.store == s
    ensures r.result.Ok? ==> o.DtoObject?
    ensures r.result.Ok? && r.result.value.Some? ==> r.result.value.value == o.dto.(id := id)
    ensures r.store.customers.Keys == s.customers.Keys && r.store.currentId == s.currentId
  {
    match ToEntity(o)
    case Err(e) => Step(s, Err(e))
    case Ok(entity) =>
      var updated := UpdateCustomerStep(s, id, entity);
      Step(updated.store, match updated.result
                          case Err(e) => Err(e)
                          case Ok(None) => Ok(None)
                          case Ok(Some(c)) => Ok(Some(EntityToDto(c))))
  }

  /** `getCustomerById`: null for an id that is not stored, otherwise the wire form of
      the stored record. */
  function DtoById(s: Store, id: Option<int>): (r: Option<CustomerDto>)
    ensures r.None? <==> !ExistsById(s, id)
    ensures r.Some? ==> ToEntity(DtoObject(r.value)) == Ok(s.customers[id.value])
  {
    match FindById(s, id)
    case None => None
    case Some(c) => Some(EntityToDto(c))
  }

  /** `getAllCustomers`: one wire customer per stored record, in findAll's order. */
  function AllDtos(s: Store): (r: seq<CustomerDto>)
    requires Inv(s)
    ensures |r| == |s.customers|
    ensures forall i :: 0 <= i < |r| ==> ToEntity(DtoObject(r[i])) == Ok(FindAll(s)[i])
  {
    ToDtos(FindAll(s))
  }

  /** `getCustomersByName`: one wire customer per record found by name, in the same
      order; each has a name equal to the argument ignoring case. */
  function DtosByName(s: Store, name: Option<string>): (r: seq<CustomerDto>)
    requires Inv(s)
    ensures |r| == |FindByNameIgnoreCase(s, name)|
    ensures forall i :: 0 <= i < |r| ==> ToEntity(DtoObject(r[i])) == Ok(FindByNameIgnoreCase(s, name)[i])
    ensures forall i :: 0 <= i < |r| ==> r[i].name.Some? && EqualsIgnoreCase(r[i].name.value, name)
  {
    var found := FindByNameIgnoreCase(s, name);
    var r := ToDtos(found);
    assert forall i :: 0 <= i < |r| ==> NameMatches(found[i], name) by {
      forall i | 0 <= i < |r| ensures NameMatches(found[i], name) {
        assert found[i] in found;
      }
    }
    r
  }

  // ---------------------------------------------------------------------------
  // Properties

  /** A valid wire customer whose id is null or not stored comes back with the next
      counter value as its id and otherwise unchanged, and is stored as that entity. */
  lemma AddNewCustomerEchoesInput(s: Store, d: CustomerDto)
    requires Inv(s) && NotEmpty(d.name) && NotEmpty(d.family) && !ExistsById(s, d.id)
    ensures var r := AddDtoStep(s, DtoObject(d));
            var id := s.currentId + 1;
            && r.result == Ok(d.(id := Some(id)))
            && r.store == Store(id, s.customers[id := ToEntity(DtoObject(d)).value.(id := Some(id))])
  {
    var e := ToEntity(DtoObject(d)).value;
    SaveCreates(s, e);
    var saved := e.(id := Some(s.currentId + 1));
    CorrespondsIsOneToOne(d.(id := Some(s.currentId + 1)), EntityToDto(saved), saved, saved);
  }

  /** A wire customer with an empty or null name or family is rejected with the entity's
      violations, and nothing is stored. */
  lemma AddRejectsInvalid(s: Store, d: CustomerDto)
    requires !(NotEmpty(d.name) && NotEmpty(d.family))
    ensures AddDtoStep(s, DtoObject(d)) == Step(s, Err(ConstraintViolation(Violations(ToEntity(DtoObject(d)).value))))
  {
  }

  /** What add returns is what get-by-id then returns for its id. */
  lemma AddThenGet(s: Store, o: JavaObject)
    requires AddDtoStep(s, o).result.Ok?
    ensures var r := AddDtoStep(s, o);
            r.result.value.id.Some? && DtoById(r.store, r.result.value.id) == Some(r.result.value)
  {
    var e := ToEntity(o).value;
    SaveThenFind(s, e);
  }

  /** Mapping comes before the existence check: null or an unsupported class fails in
      add and in update before the store is consulted, whether or not the id is stored. */
  lemma UnsupportedInputFailsFirst(s: Store, id: Option<int>, o: JavaObject)
    requires IsCustomerDtoReference(o) && !o.DtoObject?
    ensures ToEntity(o).Err?
    ensures ToEntity(o).error == NullPointer || ToEntity(o).error.IllegalArgument?
    ensures AddDtoStep(s, o) == Step(s, Err(ToEntity(o).error))
    ensures UpdateDtoStep(s, id, o) == Step(s, Err(ToEntity(o).error))
  {
  }

  /** Update returns null exactly when the service did, that is, when the id is not
      stored; it never adds a record. */
  lemma UpdateIsNullIffAbsent(s: Store, id: Option<int>, d: CustomerDto)
    requires Inv(s)
    ensures UpdateDtoStep(s, id, DtoObject(d)).result == Ok(None) <==> !ExistsById(s, id)
    ensures UpdateDtoStep(s, id, DtoObject(d)).store.customers.Keys == s.customers.Keys
  {
    Services.UpdateIsNullIffAbsent(s, id, ToEntity(DtoObject(d)).value);
    UpdateNeverCreates(s, id, ToEntity(DtoObject(d)).value);
  }

  /** A create, update, delete and read scenario on a new store. */
  lemma CrudScenario()
    ensures
      var john := RealCustomerDto(None, Some("John"), Some("Doe"), None, Some(REAL), Some("British"));
      var jon := RealCustomerDto(None, Some("Jon"), Some("Doe"), None, Some(REAL), Some("British"));
      var added := AddDtoStep(Empty, DtoObject(john));
      var updated := UpdateDtoStep(added.store, Some(1), DtoObject(jon));
      var deleted := DeleteCustomerStep(updated.store, Some(1));
      && added.result == Ok(RealCustomerDto(Some(1), Some("John"), Some("Doe"), None, Some(REAL), Some("British")))
      && updated.result == Ok(Some(RealCustomerDto(Some(1), Some("Jon"), Some("Doe"), None, Some(REAL), Some("British"))))
      && deleted.result == Pass
      && DtoById(deleted.store, Some(1)) == None
      && DeleteCustomerStep(deleted.store, Some(1)).result == Fail(CustomerNotFound("Customer with id 1 not found"))
  {
    var john := RealCustomerDto(None, Some("John"), Some("Doe"), None, Some(REAL), Some("British"));
    var jon := RealCustomerDto(None, Some("Jon"), Some("Doe"), None, Some(REAL), Some("British"));
    EmptyStoreIsValid();
    var john1 := RealCustomer(Some(1), Some("John"), Some("Doe"), None, Some(REAL), Some("British"));
    var jon1 := RealCustomer(Some(1), Some("Jon"), Some("Doe"), None, Some(REAL), Some("British"));
    var added := AddDtoStep(Empty, DtoObject(john));
    assert added.store == Store(1, map[1 := john1]);
    assert Inv(added.store);
    var updated := UpdateDtoStep(added.store, Some(1), DtoObject(jon));
    assert UpdateCustomerStep(added.store, Some(1), ToEntity(DtoObject(jon)).value).result == Ok(Some(jon1));
    assert updated.store == Store(1, map[1 := jon1]);
    var deleted := DeleteCustomerStep(updated.store, Some(1));
    assert deleted.store == Store(1, map[]);
    assert !ExistsById(deleted.store, Some(1));
    assert LongToString(Some(1)) == "1";
    assert NotFoundMessage(Some(1)) == "Customer with id 1 not found";
  }

  /** A record with an empty name is rejected with the name's message. */
  lemma EmptyNameScenario()
    ensures
      var d := RealCustomerDto(None, Some(""), Some("Doe"), None, Some(REAL), None);
      var r := AddDtoStep(Empty, DtoObject(d));
      && r.store == Empty
      && r.result.Err? && r.result.error.ConstraintViolation?
      && r.result.error.violations == {Violation("name", NameMessage)}
  {
    var d := RealCustomerDto(None, Some(""), Some("Doe"), None, Some(REAL), None);
    NullAndEmptyNameMessages(ToEntity(DtoObject(d)).value);
  }

  // ---------------------------------------------------------------------------
  // The facade object

  class CustomerFacade {
    const customerService: CustomerService

    constructor (customerService: CustomerService)
      ensures this.customerService == customerService
    {
      this.customerService := customerService;
    }

    method AddCustomer(customerDto: JavaObject) returns (r: Result<CustomerDto, Error>)
      requires IsCustomerDtoReference(customerDto)
      requires customerService.customerDao.Valid()
      modifies customerService.customerDao
      ensures customerService.customerDao.Valid()
      ensures Step(customerService.customerDao.State(), r) ==
              AddDtoStep(old(customerService.customerDao.State()), customerDto)
    {
      var entity := ToEntity(customerDto);
      if entity.Err? {
        return Err(entity.error);
      }
      var saved := customerService.AddCustomer(entity.value);
      if saved.Err? {
        return Err(saved.error);
      }
      r := Ok(EntityToDto(saved.value));
    }

    method UpdateCustomer(id: Option<int>, customerDto: JavaObject) returns (r: Result<Option<CustomerDto>, Error>)
      requires IsCustomerDtoReference(customerDto)
      requires customerService.customerDao.Valid()
      modifies customerService.customerDao
      ensures customerService.customerDao.Valid()
      ensures Step(customerService.customerDao.State(), r) ==
              UpdateDtoStep(old(customerService.customerDao.State()), id, customerDto)
    {
      var entity := ToEntity(customerDto);
      if entity.Err? {
        return Err(entity.error);
      }
      var updated := customerService.UpdateCustomer(id, entity.value);
      match updated
      case Err(e) => r := Err(e);
      case Ok(None) => r := Ok(None);
      case Ok(Some(c)) => r := Ok(Some(EntityToDto(c)));
    }

    /** Delete only delegates, so a not-found error reaches the caller unchanged. */
    method DeleteCustomer(id: Option<int>) returns (r: Outcome<Error>)
      requires customerService.customerDao.Valid()
      modifies customerService.customerDao
      ensures customerService.customerDao.Valid()
      ensures Step(customerService.customerDao.State(), r) ==
              DeleteCustomerStep(old(customerService.customerDao.State()), id)
    {
      r := customerService.DeleteCustomer(id);
    }

    function GetCustomerById(id: Option<int>): (r: Option<CustomerDto>)
      reads customerService.customerDao
      ensures r == DtoById(customerService.customerDao.State(), id)
    {
      match customerService.GetCustomerById(id)
      case Some(entity) => Some(EntityToDto(entity))
      case None => None
    }

    function GetAllCustomers(): (r: seq<CustomerDto>)
      reads customerService.customerDao
      requires customerService.customerDao.Valid()
      ensures r == AllDtos(customerService.customerDao.State())
    {
      ToDtos(customerService.GetAllCustomers())
    }

    function GetCustomersByName(name: Option<string>): (r: seq<CustomerDto>)
      reads customerService.customerDao
      requires customerService.customerDao.Valid()
      ensures r == DtosByName(customerService.customerDao.State(), name)
    {
      ToDtos(customerService.FindByName(name))
    }
  }
}
