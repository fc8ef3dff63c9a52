/** The behaviour of CustomerInMemoryDao as functions of its two fields: the id counter
    (an AtomicLong starting at 0) and the map from id to record. The class that holds
    the fields and updates them in place is InMemoryDao.CustomerInMemoryDao; its
    methods are proved to follow these functions. */
module CustomerStore {
  import opened Wrappers
  import opened Errors
  import opened CustomerModel
  import opened JavaStrings

  /** The fields `currentId` and `customers`. */
  datatype Store = Store(currentId: nat, customers: map<int, Customer>)

  /** The state after an operation, with what the operation returned or threw. */
  datatype Step<T> = Step(store: Store, result: T)

  /** A freshly constructed store: counter 0, no records. */
  const Empty := Store(0, map[])

  /** Every key lies in 1..currentId, each record carries its own key as id, and each
      record passed validation when it was saved. */
  ghost predicate Inv(s: Store)
  {
    KeysInRange(s.customers, s.currentId) && KeyedById(s.customers) && AllValid(s.customers)
  }

  ghost predicate KeysInRange(m: map<int, Customer>, hi: int)
  {
    forall k :: k in m ==> 1 <= k <= hi
  }

  ghost predicate KeyedById(m: map<int, Customer>)
  {
    forall k :: k in m ==> m[k].id == Some(k)
  }

  ghost predicate AllValid(m: map<int, Customer>)
  {
    forall k :: k in m ==> IsValid(m[k])
  }

  // ---------------------------------------------------------------------------
  // Queries

  /** `existsById`: false for a null id, otherwise whether the id is a key. */
  predicate ExistsById(s: Store, id: Option<int>): (b: bool)
    ensures b ==> id.Some?
    ensures KeyedById(s.customers) ==>
              (b <==> exists k :: k in s.customers && s.customers[k].id == id)
  {
    if id.None? then false
    else
      var k := id.value;
      assert id == Some(k);
      k in s.customers
  }

  /** `findById`: the stored record, or empty for a null or unknown id. */
  function FindById(s: Store, id: Option<int>): (r: Option<Customer>)
    ensures r.Some? <==> id.Some? && id.value in s.customers
    ensures r.Some? ==> r.value == s.customers[id.value]
  {
    if !ExistsById(s, id) then None else Some(s.customers[id.value])
  }

  /** The id of a record, 0 when it has none (stored records always have one). */
  function KeyOf(c: Customer): int
  {
    if c.id.Some? then c.id.value else 0
  }

  /** Records listed in strictly increasing id order (so without repetition). */
  ghost predicate Ascending(rs: seq<Customer>)
  {
    forall i, j :: 0 <= i < j < |rs| ==> KeyOf(rs[i]) < KeyOf(rs[j])
  }

  ghost function KeysUpTo(m: map<int, Customer>, hi: int): set<int>
  {
    set k | k in m && 1 <= k <= hi
  }

  /** The records whose keys lie in 1..hi, in increasing key order. */
  function RecordsUpTo(m: map<int, Customer>, hi: int): (r: seq<Customer>)
    ensures forall k :: k in m && 1 <= k <= hi ==> m[k] in r
    ensures KeyedById(m) ==>
              forall i :: 0 <= i < |r| ==> 1 <= KeyOf(r[i]) <= hi && KeyOf(r[i]) in m && m[KeyOf(r[i])] == r[i]
    ensures KeyedById(m) ==> Ascending(r)
    decreases hi
  {
    if hi <= 0 then [] else RecordsUpTo(m, hi - 1) + (if hi in m then [m[hi]] else [])
  }

  lemma {:induction false} RecordsUpToLength(m: map<int, Customer>, hi: int)
    ensures |RecordsUpTo(m, hi)| == |KeysUpTo(m, hi)|
    decreases hi
  {
    if hi <= 0 {
      assert KeysUpTo(m, hi) == {};
    } else {
      RecordsUpToLength(m, hi - 1);
      if hi in m {
        assert KeysUpTo(m, hi) == KeysUpTo(m, hi - 1) + {hi};
      } else {
        assert KeysUpTo(m, hi) == KeysUpTo(m, hi - 1);
      }
    }
  }

  /** With every key in 1..hi, the records up to hi are all the records. */
  lemma RecordsUpToIsComplete(m: map<int, Customer>, hi: int)
    requires KeysInRange(m, hi) && KeyedById(m)
    ensures |RecordsUpTo(m, hi)| == |m|
    ensures forall c :: c in RecordsUpTo(m, hi) <==> c in m.Values
  {
    var r := RecordsUpTo(m, hi);
    RecordsUpToLength(m, hi);
    assert KeysUpTo(m, hi) == m.Keys;
    forall c | c in r ensures c in m.Values {
      var i :| 0 <= i < |r| && r[i] == c;
      assert m[KeyOf(r[i])] == c;
    }
  }

  /** `findAll`: every stored record exactly once, in increasing id order. */
  function FindAll(s: Store): (r: seq<Customer>)
    requires Inv(s)
    ensures |r| == |s.customers|
    ensures forall c :: c in r <==> c in s.customers.Values
    ensures forall i :: 0 <= i < |r| ==> KeyOf(r[i]) in s.customers && s.customers[KeyOf(r[i])] == r[i]
    ensures forall i :: 0 <= i < |r| ==> r[i].id == Some(KeyOf(r[i])) && IsValid(r[i])
    ensures Ascending(r)
  {
    RecordsUpToIsComplete(s.customers, s.currentId);
    RecordsUpTo(s.customers, s.currentId)
  }

  /** The filter of `findByNameIgnoreCase`: a non-null name equal to the argument,
      ignoring case. */
  predicate NameMatches(c: Customer, name: Option<string>)
  {
    c.name.Some? && EqualsIgnoreCase(c.name.value, name)
  }

  /** The records of `rs` that pass the name filter, in their order in `rs`. */
  function WithName(rs: seq<Customer>, name: Option<string>): (r: seq<Customer>)
    ensures forall c :: c in r <==> c in rs && NameMatches(c, name)
    ensures |r| <= |rs|
    ensures Ascending(rs) ==> Ascending(r)
    decreases |rs|
  {
    if rs == [] then []
    else
      var rest := WithName(rs[1..], name);
      assert Ascending(rs) ==> forall c :: c in rest ==> KeyOf(rs[0]) < KeyOf(c) by {
        if Ascending(rs) {
          forall c | c in rest ensures KeyOf(rs[0]) < KeyOf(c) {
            var j :| 0 <= j < |rs[1..]| && rs[1..][j] == c;
            assert rs[j + 1] == c;
          }
        }
      }
      if NameMatches(rs[0], name) then [rs[0]] + rest else rest
  }

  /** `findByNameIgnoreCase`: exactly the stored records whose name matches, in
      increasing id order. */
  function FindByNameIgnoreCase(s: Store, name: Option<string>): (r: seq<Customer>)
    requires Inv(s)
    ensures forall c :: c in r <==> c in s.customers.Values && NameMatches(c, name)
    ensures Ascending(r)
    ensures |r| <= |s.customers|
  {
    WithName(FindAll(s), name)
  }

  /** The test of `existsByNameIgnoreCaseAndFamilyIgnoreCase` on one record. The source
      dereferences name and family without a null check; stored records are valid, so
      both are non-null. */
  predicate FullNameMatches(c: Customer, name: Option<string>, family: Option<string>)
    requires IsValid(c)
  {
    EqualsIgnoreCase(c.name.value, name) && EqualsIgnoreCase(c.family.value, family)
  }

  /** `existsByNameIgnoreCaseAndFamilyIgnoreCase`: some stored record matches both name
      and family ignoring case; such a record is among those found by name. */
  predicate ExistsByNameIgnoreCaseAndFamilyIgnoreCase(s: Store, name: Option<string>, family: Option<string>)
    requires Inv(s)
    ensures ExistsByNameIgnoreCaseAndFamilyIgnoreCase(s, name, family) <==>
              exists k :: k in s.customers && FullNameMatches(s.customers[k], name, family)
    ensures ExistsByNameIgnoreCaseAndFamilyIgnoreCase(s, name, family) ==>
              FindByNameIgnoreCase(s, name) != []
  {
    var all := FindAll(s);
    var b := exists i :: 0 <= i < |all| && FullNameMatches(all[i], name, family);
    AnyMatchOverFindAll(s, name, family);
    b
  }

  lemma AnyMatchOverFindAll(s: Store, name: Option<string>, family: Option<string>)
    requires Inv(s)
    ensures var all := FindAll(s);
            ((exists i :: 0 <= i < |all| && FullNameMatches(all[i], name, family)) <==>
              exists k :: k in s.customers && FullNameMatches(s.customers[k], name, family))
            && ((exists i :: 0 <= i < |all| && FullNameMatches(all[i], name, family)) ==>
              FindByNameIgnoreCase(s, name) != [])
  {
    var all := FindAll(s);
    if exists i :: 0 <= i < |all| && FullNameMatches(all[i], name, family) {
      var i :| 0 <= i < |all| && FullNameMatches(all[i], name, family);
      assert s.customers[KeyOf(all[i])] == all[i];
      assert NameMatches(all[i], name);
      assert all[i] in FindByNameIgnoreCase(s, name);
    }
    if exists k :: k in s.customers && FullNameMatches(s.customers[k], name, family) {
      var k :| k in s.customers && FullNameMatches(s.customers[k], name, family);
      assert s.customers[k] in s.customers.Values;
      var i :| 0 <= i < |all| && all[i] == s.customers[k];
    }
  }

  // ---------------------------------------------------------------------------
  // Updates

  /** `save`: validate; a record whose id is null or not a key gets the next counter
      value as its id; then the record is put under its id and returned. */
  function Save(s: Store, customer: Customer): (r: Step<Result<Customer, Error>>)
    ensures r.result.Err? <==> !IsValid(customer)
    ensures r.result.Err? ==> r.store == s && r.result.error == ConstraintViolation(Violations(customer))
    ensures r.result.Ok? ==> r.result.value.id.Some? && r.result.value == customer.(id := r.result.value.id)
    ensures r.result.Ok? ==> FindById(r.store, r.result.value.id) == Some(r.result.value)
    ensures s.currentId <= r.store.currentId <= s.currentId + 1
    ensures s.customers.Keys <= r.store.customers.Keys
  {
    var violations := Violations(customer);
    if violations != {} then Step(s, Err(ConstraintViolation(violations)))
    else if !ExistsById(s, customer.id) then
      var id := s.currentId + 1;
      var saved := customer.(id := Some(id));
      Step(Store(id, s.customers[id := saved]), Ok(saved))
    else
      Step(s.(customers := s.customers[customer.id.value := customer]), Ok(customer))
  }

  /** `deleteById`: remove the key; an absent key is a silent no-op, and a null key is
      refused by the concurrent map. */
  function DeleteById(s: Store, id: Option<int>): (r: Step<Outcome<Error>>)
    ensures r.result.Fail? <==> id.None?
    ensures r.result.Fail? ==> r.store == s && r.result.error == NullPointer
    ensures !ExistsById(r.store, id) && r.store.currentId == s.currentId
    ensures forall k :: k in r.store.customers <==> k in s.customers && Some(k) != id
    ensures forall k :: k in r.store.customers ==> r.store.customers[k] == s.customers[k]
  {
    if id.None? then Step(s, Fail(NullPointer))
    else Step(s.(customers := s.customers - {id.value}), Pass)
  }

  // ---------------------------------------------------------------------------
  // Properties

  lemma EmptyStoreIsValid()
    ensures Inv(Empty) && FindAll(Empty) == []
  {
  }

  /** A null id is never stored. */
  lemma NullIdIsNeverStored(s: Store)
    ensures !ExistsById(s, None) && FindById(s, None) == None
  {
  }

  /** An invalid record is rejected with its violations before anything changes. */
  lemma SaveRejectsInvalid(s: Store, c: Customer)
    requires !IsValid(c)
    ensures Save(s, c) == Step(s, Err(ConstraintViolation(Violations(c))))
    ensures Violations(c) != {}
  {
  }

  /** A valid record with a null or unknown id creates one new entry under the next
      counter value, which no stored record uses; a caller-supplied unknown id is
      discarded. */
  lemma SaveCreates(s: Store, c: Customer)
    requires Inv(s) && IsValid(c) && !ExistsById(s, c.id)
    ensures var r := Save(s, c);
            && r.store.currentId == s.currentId + 1
            && r.result == Ok(c.(id := Some(r.store.currentId)))
            && r.store.currentId !in s.customers
            && r.store.customers == s.customers[r.store.currentId := r.result.value]
            && |r.store.customers| == |s.customers| + 1
  {
    assert s.currentId + 1 !in s.customers;
  }

  /** A valid record whose id is stored replaces that entry only; the counter, the
      key set and the size are unchanged. */
  lemma SaveOverwrites(s: Store, c: Customer)
    requires IsValid(c) && ExistsById(s, c.id)
    ensures var r := Save(s, c);
            && r.store.currentId == s.currentId
            && r.result == Ok(c)
            && r.store.customers == s.customers[c.id.value := c]
            && r.store.customers.Keys == s.customers.Keys
            && |r.store.customers| == |s.customers|
  {
    assert Save(s, c).store.customers.Keys == s.customers.Keys;
  }

  lemma SavePreservesInv(s: Store, c: Customer)
    requires Inv(s)
    ensures Inv(Save(s, c).store)
  {
  }

  /** What save returns can be found again under its id. */
  lemma SaveThenFind(s: Store, c: Customer)
    requires Save(s, c).result.Ok?
    ensures var r := Save(s, c);
            ExistsById(r.store, r.result.value.id) &&
            FindById(r.store, r.result.value.id) == Some(r.result.value)
  {
  }

  /** A record found by id carries that id and is valid. */
  lemma FoundRecordCarriesItsId(s: Store, id: Option<int>)
    requires Inv(s) && FindById(s, id).Some?
    ensures FindById(s, id).value.id == id && IsValid(FindById(s, id).value)
  {
    var k := id.value;
    assert k in s.customers && FindById(s, id).value == s.customers[k];
    assert KeyedById(s.customers) && AllValid(s.customers);
  }

  /** Delete removes exactly the given key, and only from the map. */
  lemma DeleteRemovesOnlyThatKey(s: Store, id: Option<int>)
    requires id.Some?
    ensures var r := DeleteById(s, id);
            && r.result == Pass
            && r.store.currentId == s.currentId
            && r.store.customers.Keys == s.customers.Keys - {id.value}
            && (forall k :: k in r.store.customers ==> r.store.customers[k] == s.customers[k])
            && !ExistsById(r.store, id) && FindById(r.store, id).None?
            && (id.value !in s.customers ==> r.store == s)
  {
  }

  lemma DeletePreservesInv(s: Store, id: Option<int>)
    requires Inv(s)
    ensures Inv(DeleteById(s, id).store)
  {
  }

  /** The counter never goes back, and an id once issued (at most the counter) is never
      issued again, even after its record was deleted. */
  lemma IdsAreNeverReissued(s: Store, c: Customer, id: Option<int>, k: int)
    requires Inv(s) && k <= s.currentId
    ensures Save(s, c).store.currentId >= s.currentId
    ensures DeleteById(s, id).store.currentId == s.currentId
    ensures var r := Save(s, c); r.result.Ok? && !ExistsById(s, c.id) ==> r.result.value.id != Some(k)
  {
  }

  /** A run of saves, one after another, with the results in order. */
  ghost function SaveAll(s: Store, cs: seq<Customer>): (r: Step<seq<Result<Customer, Error>>>)
    ensures |r.result| == |cs|
    decreases |cs|
  {
    if cs == [] then Step(s, [])
    else
      var first := Save(s, cs[0]);
      var rest := SaveAll(first.store, cs[1..]);
      Step(rest.store, [first.result] + rest.result)
  }

  /** Saving n valid new records (no id) issues the next n counter values, in order. */
  lemma {:induction false} SaveAllIssuesConsecutiveIds(s: Store, cs: seq<Customer>)
    requires Inv(s)
    requires forall i :: 0 <= i < |cs| ==> IsValid(cs[i]) && cs[i].id.None?
    ensures Inv(SaveAll(s, cs).store)
    ensures SaveAll(s, cs).store.currentId == s.currentId + |cs|
    ensures forall i :: 0 <= i < |cs| ==> SaveAll(s, cs).result[i] == Ok(cs[i].(id := Some(s.currentId + 1 + i)))
    decreases |cs|
  {
    if cs != [] {
      var first := Save(s, cs[0]);
      SavePreservesInv(s, cs[0]);
      SaveAllIssuesConsecutiveIds(first.store, cs[1..]);
      var r := SaveAll(s, cs);
      forall i | 0 <= i < |cs|
        ensures r.result[i] == Ok(cs[i].(id := Some(s.currentId + 1 + i)))
      {
        if i > 0 {
          assert r.result[i] == SaveAll(first.store, cs[1..]).result[i - 1];
          assert cs[1..][i - 1] == cs[i];
        }
      }
    }
  }

  /** The ids issued by a run of saves of new records are pairwise distinct and none of
      them was in use before. */
  lemma SaveAllIdsAreDistinct(s: Store, cs: seq<Customer>)
    requires Inv(s)
    requires forall i :: 0 <= i < |cs| ==> IsValid(cs[i]) && cs[i].id.None?
    ensures forall i :: 0 <= i < |cs| ==> SaveAll(s, cs).result[i].Ok?
    ensures forall i, j :: 0 <= i < j < |cs| ==>
              SaveAll(s, cs).result[i].value.id != SaveAll(s, cs).result[j].value.id
    ensures forall i :: 0 <= i < |cs| ==> KeyOf(SaveAll(s, cs).result[i].value) !in s.customers
  {
    SaveAllIssuesConsecutiveIds(s, cs);
  }
}
