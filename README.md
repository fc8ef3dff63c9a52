# Customer store, service, mapper and facade — a Dafny model

This project models the core of a customer-management service written in Java. A
customer is either a *real* customer (a person, with a nationality) or a *legal*
customer (an organisation, with an industry). The layers are:

- an in-memory store (`CustomerInMemoryDao`). It keeps an id counter and a map from id
  to record. It validates every record it saves, issues ids from the counter, and
  answers queries by id, by name (ignoring case) and by name and family;
- a service (`CustomerService`). It adds existence rules on top of the store: update
  never creates a record, and deleting an absent id throws not-found;
- a mapper (`CustomerMapper`). It converts between wire objects (DTOs) and entities by
  their concrete class, and rejects anything else;
- a facade (`CustomerFacade`). It composes mapper and service and turns absence into
  `null`.

Layout, one module per component:

| file | module | models |
|---|---|---|
| `wrappers.dfy` | `Wrappers` | `Option` (a nullable reference), `Result` (returns or throws), `Outcome` (a `void` call that may throw) |
| `errors.dfy` | `Errors` | the thrown exceptions as values: constraint violations, not-found, illegal argument, null pointer |
| `java_strings.dfy` | `JavaStrings` | `String.equalsIgnoreCase` and the decimal rendering of a `Long` |
| `customer.dfy` | `CustomerModel` | `Customer`, `RealCustomer`, `LegalCustomer`, the `CustomerType` discriminator and the validation constraints |
| `customer_dto.dfy` | `CustomerDtos` | `CustomerDto`, `RealCustomerDto`, `LegalCustomerDto` and the wire discriminator |
| `customer_mapper.dfy` | `CustomerMapper` | the four per-variant conversions and the two dispatching ones |
| `customer_store.dfy` | `CustomerStore` | what the in-memory store does, written as functions of its two fields, with its lemmas |
| `in_memory_dao.dfy` | `InMemoryDao` | the store as a class whose `Save` and `DeleteById` update the two fields in place |
| `customer_service.dfy` | `Services` | the service as functions on store values, its lemmas, and the `CustomerService` class |
| `customer_facade.dfy` | `Facades` | the facade as functions on store values, its lemmas, and the `CustomerFacade` class |

Each state-changing method follows one pattern. It is proved to produce exactly the
state and result of a function of the old state: `CustomerStore.Save`,
`CustomerStore.DeleteById`, `Services.UpdateCustomerStep`,
`Services.DeleteCustomerStep`, `Facades.AddDtoStep` or `Facades.UpdateDtoStep`. Lemmas
then state what those functions guarantee. The store invariant `CustomerStore.Inv` has
three parts:

- every key lies in `1..currentId`;
- every record carries its own key as its id;
- every record passed validation.

Java `null` is `None`. The field `type` is called `tag`, because `type` is a Dafny
keyword. The mapper's `Object` parameter is `CustomerMapper.JavaObject`: null, a wire
customer, an entity, or an instance of some other class.

Behaviour of the code that a reader might not expect, each stated by a lemma:

- Ids come from the counter, so an id freed by delete is never reused
  (`CustomerStore.IdsAreNeverReissued`).
- The mapper dispatches on the object's class and ignores `type`
  (`CustomerMapper.DispatchIgnoresTag`).
- `deleteById` on an absent id is a silent no-op in the in-memory store. A null id makes
  `ConcurrentHashMap.remove` throw `NullPointerException`, and the model returns that
  error (`CustomerStore.DeleteById`).

## Model

| member | source | states |
|---|---|---|
| `CustomerModel.TypeByName` | src/main/java/dk/dev/customersystem/model/Customer.java:31-34 | only "REAL" and "LEGAL" select a subtype, and the selected subtype's name is the name given |
| `CustomerModel.DiscriminatorSelectsVariant` | src/main/java/dk/dev/customersystem/model/Customer.java:25-34 | names and subtypes correspond one to one; a record's discriminator value ("REAL" or "LEGAL") selects the record's own class |
| `CustomerModel.NewRealCustomer` | src/main/java/dk/dev/customersystem/model/RealCustomer.java:24-26 | the no-argument constructor gives a RealCustomer tagged REAL whose other fields are all null, not yet valid (validation happens at save) |
| `CustomerModel.NewLegalCustomer` | src/main/java/dk/dev/customersystem/model/LegalCustomer.java:24-26 | the no-argument constructor gives a LegalCustomer tagged LEGAL whose other fields are all null, not yet valid |
| `CustomerModel.BuilderTagIsFree` | src/main/java/dk/dev/customersystem/model/RealCustomer.java:15 | the builder takes the tag from the caller: either variant may be built with any tag, or none, and still be valid |
| `CustomerModel.AllArgsRealCustomer` | src/main/java/dk/dev/customersystem/model/RealCustomer.java:16-22 | the all-arguments constructor sets only `nationality`; every base field and the tag stay null, so the record is not valid |
| `CustomerModel.AllArgsLegalCustomer` | src/main/java/dk/dev/customersystem/model/LegalCustomer.java:16-22 | the all-arguments constructor sets only `industry`; every base field and the tag stay null, so the record is not valid |
| `CustomerModel.IsValid` | src/main/java/dk/dev/customersystem/model/Customer.java:49-57 | a valid record has non-null name and family (the not-null constraints follow from not-empty); an empty name or family is never valid |
| `CustomerModel.Violations` | src/main/java/dk/dev/customersystem/model/Customer.java:49-57 | no violations exactly when name and family are both non-null and non-empty; a missing or empty field reports its "can not be empty." message, a null one also the not-null message; only `name` and `family` are ever reported |
| `CustomerModel.ValidationIgnoresUnconstrainedFields` | src/main/java/dk/dev/customersystem/model/Customer.java:45-62 | changing `id`, `phoneNumber`, `type`, `nationality` or `industry` never changes the violations reported |
| `CustomerModel.BlankNamesPass` | src/main/java/dk/dev/customersystem/model/Customer.java:49-54 | the constraint is not-empty, not not-blank: a name and family of spaces only pass validation |
| `CustomerModel.NullAndEmptyNameMessages` | src/main/java/dk/dev/customersystem/model/Customer.java:49-52 | a null name yields both of its messages; an empty name yields only "name can not be empty." |
| `CustomerDtos.NewRealCustomerDto` | src/main/java/dk/dev/customersystem/dto/RealCustomerDto.java:19-21 | the no-argument constructor gives a RealCustomerDto tagged REAL with no id |
| `CustomerDtos.NewLegalCustomerDto` | src/main/java/dk/dev/customersystem/dto/LegalCustomerDto.java:19-21 | the no-argument constructor gives a LegalCustomerDto tagged LEGAL with no id |
| `CustomerDtos.NewDtoFor` | src/main/java/dk/dev/customersystem/dto/CustomerDto.java:14-23 | a "type" value selects a wire subtype exactly when it is "REAL" or "LEGAL"; the object built has that class and that tag |
| `CustomerDtos.WireValidIsWeaker` | src/main/java/dk/dev/customersystem/dto/CustomerDto.java:37-43 | the wire constraints (name and family not null) follow from the entity's, but any wire customer with a family stays wire-valid when its name is emptied |
| `JavaStrings.EqualsIgnoreCaseIsEquivalence` | src/main/java/dk/dev/customersystem/dao/impl/CustomerInMemoryDao.java:69-70 | case-insensitive equality is reflexive, symmetric and transitive on non-null strings and never holds of a null argument |
| `JavaStrings.EqualsIgnoreCaseExample` | src/main/java/dk/dev/customersystem/dao/impl/CustomerInMemoryDao.java:69-70 | strings differing only in letter case match; no two strings of different lengths match |
| `CustomerMapper.RealToEntity` | src/main/java/dk/dev/customersystem/mapper/CustomerMapper.java:14 | a RealCustomerDto becomes the RealCustomer with the same fields |
| `CustomerMapper.RealToDto` | src/main/java/dk/dev/customersystem/mapper/CustomerMapper.java:15 | a RealCustomer becomes the RealCustomerDto with the same fields |
| `CustomerMapper.LegalToEntity` | src/main/java/dk/dev/customersystem/mapper/CustomerMapper.java:17 | a LegalCustomerDto becomes the LegalCustomer with the same fields |
| `CustomerMapper.LegalToDto` | src/main/java/dk/dev/customersystem/mapper/CustomerMapper.java:18 | a LegalCustomer becomes the LegalCustomerDto with the same fields |
| `CustomerMapper.ToEntity` | src/main/java/dk/dev/customersystem/mapper/CustomerMapper.java:20-27 | succeeds exactly on wire customers, giving the entity of the same class and fields; an entity or other object fails with "Unsupported type: " and its class name; null fails with a null pointer |
| `CustomerMapper.ToDto` | src/main/java/dk/dev/customersystem/mapper/CustomerMapper.java:29-36 | succeeds exactly on entities, giving the wire customer of the same class and fields; anything else fails the same way as ToEntity |
| `CustomerMapper.EntityToDto` | src/main/java/dk/dev/customersystem/mapper/CustomerMapper.java:29-33 | toDto of an entity never throws, and its result maps back to the same entity |
| `CustomerMapper.CorrespondsIsOneToOne` | src/main/java/dk/dev/customersystem/mapper/CustomerMapper.java:14-18 | a wire customer determines its entity and an entity determines its wire customer |
| `CustomerMapper.DispatchIgnoresTag` | src/main/java/dk/dev/customersystem/mapper/CustomerMapper.java:20-25 | a RealCustomerDto tagged LEGAL, or untagged, still becomes a RealCustomer and keeps its tag |
| `CustomerMapper.RoundTrips` | src/main/java/dk/dev/customersystem/mapper/CustomerMapper.java:14-36 | wire to entity to wire and entity to wire to entity both give back the original, so the variant survives |
| `CustomerStore.ExistsById` | src/main/java/dk/dev/customersystem/dao/impl/CustomerInMemoryDao.java:75-80 | false for null; when every record is keyed by its id, true exactly when some stored record carries that id |
| `CustomerStore.Save` | src/main/java/dk/dev/customersystem/dao/impl/CustomerInMemoryDao.java:32-43 | throws exactly for an invalid record, with its violations and the store unchanged; otherwise returns the input with an id, findable by that id; the counter rises by at most one and no key is lost (details in SaveRejectsInvalid, SaveCreates, SaveOverwrites, SavePreservesInv, SaveThenFind) |
| `CustomerStore.DeleteById` | src/main/java/dk/dev/customersystem/dao/impl/CustomerInMemoryDao.java:46-48 | throws a null pointer exactly for a null id, store unchanged; otherwise that key is gone and every other entry and the counter stay |
| `CustomerStore.FindById` | src/main/java/dk/dev/customersystem/dao/impl/CustomerInMemoryDao.java:51-57 | a record is found exactly when the id is non-null and a key, and it is the stored one |
| `CustomerStore.FoundRecordCarriesItsId` | src/main/java/dk/dev/customersystem/dao/impl/CustomerInMemoryDao.java:51-56 | in a store that keeps its invariant, the record found for an id carries that id and is valid |
| `CustomerStore.NullIdIsNeverStored` | src/main/java/dk/dev/customersystem/dao/impl/CustomerInMemoryDao.java:75-80 | existsById of null is false and findById of null is empty |
| `CustomerStore.FindAll` | src/main/java/dk/dev/customersystem/dao/impl/CustomerInMemoryDao.java:60-63 | lists every stored record once: its length is the map's size, its elements are exactly the stored values, in increasing id order |
| `CustomerStore.FindByNameIgnoreCase` | src/main/java/dk/dev/customersystem/dao/impl/CustomerInMemoryDao.java:66-72 | exactly the stored records whose non-null name equals the argument ignoring case, in increasing id order |
| `CustomerStore.ExistsByNameIgnoreCaseAndFamilyIgnoreCase` | src/main/java/dk/dev/customersystem/dao/impl/CustomerInMemoryDao.java:83-88 | true exactly when some stored record matches both name and family ignoring case; then the search by name finds something |
| `CustomerStore.EmptyStoreIsValid` | src/main/java/dk/dev/customersystem/dao/impl/CustomerInMemoryDao.java:23-24 | the new store (counter 0, empty map) keeps the invariant and lists nothing |
| `CustomerStore.SaveRejectsInvalid` | src/main/java/dk/dev/customersystem/dao/impl/CustomerInMemoryDao.java:32-36 | an invalid record is rejected with its violations and the store is unchanged |
| `CustomerStore.SaveCreates` | src/main/java/dk/dev/customersystem/dao/impl/CustomerInMemoryDao.java:37-42 | a valid record with a null or unknown id: counter up by one, that value stamped as its id, which no record used, exactly one entry added |
| `CustomerStore.SaveOverwrites` | src/main/java/dk/dev/customersystem/dao/impl/CustomerInMemoryDao.java:37-42 | a valid record with a stored id replaces that entry only; counter, keys and size unchanged; the record is returned as given |
| `CustomerStore.SavePreservesInv` | src/main/java/dk/dev/customersystem/dao/impl/CustomerInMemoryDao.java:32-42 | save keeps every key in 1..currentId, each record keyed by its id, and every record valid |
| `CustomerStore.SaveThenFind` | src/main/java/dk/dev/customersystem/dao/impl/CustomerInMemoryDao.java:41-56 | after save returns a record, existsById of its id is true and findById returns it |
| `CustomerStore.DeleteRemovesOnlyThatKey` | src/main/java/dk/dev/customersystem/dao/impl/CustomerInMemoryDao.java:46-48 | delete of a non-null id removes that key and nothing else, keeps the counter, and is a no-op for an absent id |
| `CustomerStore.DeletePreservesInv` | src/main/java/dk/dev/customersystem/dao/impl/CustomerInMemoryDao.java:46-48 | delete keeps the store invariant |
| `CustomerStore.IdsAreNeverReissued` | src/main/java/dk/dev/customersystem/dao/impl/CustomerInMemoryDao.java:37-40 | the counter never decreases, and a new record never receives an id issued before, even one freed by delete |
| `CustomerStore.SaveAllIssuesConsecutiveIds` | src/main/java/dk/dev/customersystem/dao/impl/CustomerInMemoryDao.java:37-41 | n saves of valid new records issue the next n counter values in order, and keep the invariant |
| `CustomerStore.SaveAllIdsAreDistinct` | src/main/java/dk/dev/customersystem/dao/impl/CustomerInMemoryDao.java:37-41 | the ids issued by a run of saves of new records are pairwise distinct, and none was in use before |
| `InMemoryDao.CustomerInMemoryDao.constructor` | src/main/java/dk/dev/customersystem/dao/impl/CustomerInMemoryDao.java:23-29 | the store starts with counter 0 and an empty map |
| `InMemoryDao.CustomerInMemoryDao.Save` | src/main/java/dk/dev/customersystem/dao/impl/CustomerInMemoryDao.java:32-43 | updating the fields in place gives exactly the state and result of CustomerStore.Save, and the invariant is kept |
| `InMemoryDao.CustomerInMemoryDao.DeleteById` | src/main/java/dk/dev/customersystem/dao/impl/CustomerInMemoryDao.java:46-48 | removing the key in place gives exactly the state and result of CustomerStore.DeleteById, and the invariant is kept |
| `Services.UpdateCustomerStep` | src/main/java/dk/dev/customersystem/service/CustomerService.java:42-48 | null exactly for an absent id; throws exactly for a stored id with an invalid record, store unchanged; otherwise returns the record with the path id; keys and counter never change |
| `Services.DeleteCustomerStep` | src/main/java/dk/dev/customersystem/service/CustomerService.java:50-55 | fails exactly for an absent id, with "Customer with id <id> not found" and the store unchanged; afterwards the id is absent, only that key went, and the counter stays |
| `Services.UpdateNeverCreates` | src/main/java/dk/dev/customersystem/service/CustomerService.java:42-48 | whatever the id and record, update keeps the key set, and so the length of findAll |
| `Services.UpdateOfAbsentIdIsNull` | src/main/java/dk/dev/customersystem/service/CustomerService.java:42-48 | update of an id that is not stored, a null id included, returns null and changes nothing |
| `Services.UpdateOfStoredIdOverwrites` | src/main/java/dk/dev/customersystem/service/CustomerService.java:43-46 | update of a stored id with a valid record stores and returns it with that id; only that entry changes, counter and size stay |
| `Services.UpdateWithInvalidRecordFails` | src/main/java/dk/dev/customersystem/service/CustomerService.java:44-45 | update of a stored id with an invalid record throws the record's violations and leaves the store unchanged |
| `Services.UpdateIsNullIffAbsent` | src/main/java/dk/dev/customersystem/service/CustomerService.java:42-48 | update returns null exactly when the id is not stored |
| `Services.UpdatePreservesInv` | src/main/java/dk/dev/customersystem/service/CustomerService.java:42-48 | update keeps the store invariant |
| `Services.DeleteOfAbsentIdFails` | src/main/java/dk/dev/customersystem/service/CustomerService.java:50-55 | delete of an id that is not stored throws not-found with "Customer with id <id> not found" and changes nothing |
| `Services.DeleteOfStoredIdRemoves` | src/main/java/dk/dev/customersystem/service/CustomerService.java:51-52 | delete of a stored id removes only that record; afterwards get-by-id finds nothing |
| `Services.DeleteFailsIffAbsent` | src/main/java/dk/dev/customersystem/service/CustomerService.java:50-55 | delete fails exactly when the id is not stored, and then only with not-found |
| `Services.DeletePreservesStoreInv` | src/main/java/dk/dev/customersystem/service/CustomerService.java:50-55 | delete keeps the store invariant |
| `Services.NotFoundMessageNamesId` | src/main/java/dk/dev/customersystem/service/CustomerService.java:54 | the not-found message shows the id's decimal digits, which read back as the id, or "null" |
| `Services.CustomerService.constructor` | src/main/java/dk/dev/customersystem/service/CustomerService.java:19-22 | the service works on the store it is given |
| `Services.CustomerService.AddCustomer` | src/main/java/dk/dev/customersystem/service/CustomerService.java:38-40 | exactly a store save, with no existence check |
| `Services.CustomerService.UpdateCustomer` | src/main/java/dk/dev/customersystem/service/CustomerService.java:42-48 | gives exactly the state and result of UpdateCustomerStep, and the invariant is kept |
| `Services.CustomerService.DeleteCustomer` | src/main/java/dk/dev/customersystem/service/CustomerService.java:50-55 | gives exactly the state and result of DeleteCustomerStep, and the invariant is kept |
| `Services.CustomerService.GetAllCustomers` | src/main/java/dk/dev/customersystem/service/CustomerService.java:57-59 | passes the store's findAll through on the current state |
| `Services.CustomerService.GetCustomerById` | src/main/java/dk/dev/customersystem/service/CustomerService.java:61-63 | passes the store's findById through on the current state |
| `Services.CustomerService.FindByName` | src/main/java/dk/dev/customersystem/service/CustomerService.java:65-67 | passes the store's findByNameIgnoreCase through on the current state |
| `Facades.ToDtos` | src/main/java/dk/dev/customersystem/facade/CustomerFacade.java:47-50 | the stream map keeps length and order, and each wire customer maps back to the entity at its position |
| `Facades.DtoById` | src/main/java/dk/dev/customersystem/facade/CustomerFacade.java:40-44 | null exactly when the id is not stored; otherwise a wire customer that maps back to the stored record |
| `Facades.AllDtos` | src/main/java/dk/dev/customersystem/facade/CustomerFacade.java:46-51 | one wire customer per stored record, each mapping back to the findAll entry at the same position |
| `Facades.DtosByName` | src/main/java/dk/dev/customersystem/facade/CustomerFacade.java:53-58 | one wire customer per record found by name, in the same order, each named like the argument ignoring case |
| `Facades.AddDtoStep` | src/main/java/dk/dev/customersystem/facade/CustomerFacade.java:24-27 | succeeds exactly for a wire customer whose entity is valid, returning the input with an id; any failure leaves the store unchanged; no key is lost |
| `Facades.UpdateDtoStep` | src/main/java/dk/dev/customersystem/facade/CustomerFacade.java:29-33 | succeeds only for a wire customer and then returns the input with the path id, or null; any failure leaves the store unchanged; keys and counter never change |
| `Facades.AddNewCustomerEchoesInput` | src/main/java/dk/dev/customersystem/facade/CustomerFacade.java:24-27 | a valid wire customer without a stored id comes back unchanged except for the next counter value as id, and is stored as that entity |
| `Facades.AddRejectsInvalid` | src/main/java/dk/dev/customersystem/facade/CustomerFacade.java:24-27 | a wire customer with an empty or null name or family is rejected with the entity's violations and nothing is stored |
| `Facades.AddThenGet` | src/main/java/dk/dev/customersystem/facade/CustomerFacade.java:24-44 | what add returns has an id, and get-by-id of that id returns it |
| `Facades.UnsupportedInputFailsFirst` | src/main/java/dk/dev/customersystem/facade/CustomerFacade.java:29-31 | mapping comes before the existence check: null or an unknown class fails in add and update, store unchanged, whether the id is stored or not |
| `Facades.UpdateIsNullIffAbsent` | src/main/java/dk/dev/customersystem/facade/CustomerFacade.java:29-33 | update returns null exactly when the id is not stored, and never adds a key |
| `Facades.CrudScenario` | src/main/java/dk/dev/customersystem/facade/CustomerFacade.java:24-44 | on a new store: adding John Doe returns id 1; updating 1 to Jon returns id 1 named Jon; deleting 1 succeeds; 1 is then absent and a second delete throws "Customer with id 1 not found" |
| `Facades.EmptyNameScenario` | src/main/java/dk/dev/customersystem/facade/CustomerFacade.java:24-27 | adding a customer with an empty name fails with the single violation "name can not be empty." and stores nothing |
| `Facades.CustomerFacade.constructor` | src/main/java/dk/dev/customersystem/facade/CustomerFacade.java:18-22 | the facade works through the service it is given |
| `Facades.CustomerFacade.AddCustomer` | src/main/java/dk/dev/customersystem/facade/CustomerFacade.java:24-27 | gives exactly the state and result of AddDtoStep: map, save through the service, map back |
| `Facades.CustomerFacade.UpdateCustomer` | src/main/java/dk/dev/customersystem/facade/CustomerFacade.java:29-33 | gives exactly the state and result of UpdateDtoStep: map first, then update, null stays null |
| `Facades.CustomerFacade.DeleteCustomer` | src/main/java/dk/dev/customersystem/facade/CustomerFacade.java:36-38 | only delegates: same state and result as the service's delete, so the not-found error passes through unchanged |
| `Facades.CustomerFacade.GetCustomerById` | src/main/java/dk/dev/customersystem/facade/CustomerFacade.java:40-44 | maps the service's result, null for absence; equal to DtoById on the current state |
| `Facades.CustomerFacade.GetAllCustomers` | src/main/java/dk/dev/customersystem/facade/CustomerFacade.java:46-51 | maps the service's list; equal to AllDtos on the current state |
| `Facades.CustomerFacade.GetCustomersByName` | src/main/java/dk/dev/customersystem/facade/CustomerFacade.java:53-58 | maps the service's list; equal to DtosByName on the current state |

## Left out

- `CustomerJdbcDao`: its behaviour is SQL run against a database the model does not have. Two defects there are not carried over: its update passes five arguments for four placeholders and never sets `family`, and its delete removes only the base row.
- `CustomerJpaDao`: Spring Data generates its implementation, and none of it is visible.
- The controller, the global exception handler, the console interface and runner, and the Spring bootstrapping and configuration: these are HTTP, console and framework plumbing.
- Concurrency: the `ConcurrentHashMap` and `AtomicLong` are modelled as plain fields under single-threaded use, so atomicity and linearizability are not modelled.
- Integer width: ids are unbounded integers, so the `AtomicLong` wrap-around after 2^63 - 1 saves is not modelled.
- Case folding: `equalsIgnoreCase` is modelled for ASCII letters only. Java also folds other Unicode letters.
- The validation engine: the violations are read off the annotations. The not-null message "must not be null" is the validator's default and is not defined in the repository.
- The per-variant mapper bodies are generated by MapStruct and not shown. They are assumed to copy the same-named fields.
- Aliasing: `save` and `updateCustomer` call `setId` on the caller's object, and the store keeps that object by reference. The model stores values and returns the updated copy, so later changes through a caller's reference are not modelled.
- A null record passed to `save` (the validator throws) is not modelled. `Save` takes a record, and no caller in the core can pass null, because the mapper rejects it first.
- `findAll` lists records in increasing id order. The source's order is the hash map's iteration order, which it leaves unspecified.
- JSON deserialization beyond the subtype table: only the choice of subtype by the "type" property and its no-argument constructor are modelled.
- `CustomerFacade.deleteCustomer` returns the result of the `void` service method, which does not compile. It is modelled as a `void` call through which the not-found error passes.
- `CustomerInMemoryDao.existsByNameIgnoreCaseAndFamilyIgnoreCase` carries `@Override`, but the `CustomerDao` interface does not declare it, so the class does not compile as written. It is modelled as the plain query it would be without the annotation: `CustomerStore.ExistsByNameIgnoreCaseAndFamilyIgnoreCase`.
- `DuplicatedCustomerException` is never thrown in the core, so it has no counterpart.
- The store's `validator` and the facade's `customerMapper` fields: validation is the `Violations` function and the mapper is a stateless module.
- The class read functions of `InMemoryDao.CustomerInMemoryDao` (`FindById`, `FindAll`, `FindByNameIgnoreCase`, `ExistsById`, `ExistsByNameIgnoreCaseAndFamilyIgnoreCase`) evaluate the `CustomerStore` functions on the two fields. Those functions carry the contracts.
