/** The persisted entity: the abstract Customer record with its two concrete variants,
    RealCustomer and LegalCustomer, the discriminator that names them, and the
    validation constraints declared on the base record. */
module CustomerModel {
  import opened Wrappers
  import opened Errors

  /** The discriminator enum (dk.dev.customersystem.enums.CustomerType). */
  datatype CustomerType = REAL | LEGAL

  /** Customer is abstract, so every record is one of the two subclasses. The base
      fields are `id`, `name`, `family`, `phoneNumber` and `type` (here `tag`, since
      `type` is a Dafny keyword); each is a nullable reference. RealCustomer adds
      `nationality`, LegalCustomer adds `industry`. The builders take every field,
      `tag` included, from the caller, so a record's tag need not match its variant. */
  datatype Customer =
    | RealCustomer(id: Option<int>, name: Option<string>, family: Option<string>,
                   phoneNumber: Option<string>, tag: Option<CustomerType>,
                   nationality: Option<string>)
    | LegalCustomer(id: Option<int>, name: Option<string>, family: Option<string>,
                    phoneNumber: Option<string>, tag: Option<CustomerType>,
                    industry: Option<string>)

  /** The concrete class of a record, as a discriminator value. */
  function Variant(c: Customer): CustomerType
  {
    if c.RealCustomer? then REAL else LEGAL
  }

  /** The name a discriminator value has in JSON (@JsonSubTypes) and in the
      per-table @DiscriminatorValue. */
  function TypeName(t: CustomerType): string
  {
    match t
    case REAL => "REAL"
    case LEGAL => "LEGAL"
  }

  /** The subtype selected by a "type" property value; any other name selects none. */
  function TypeByName(name: string): (t: Option<CustomerType>)
    ensures t.Some? <==> name == "REAL" || name == "LEGAL"
    ensures t.Some? ==> TypeName(t.value) == name
  {
    if name == "REAL" then Some(REAL)
    else if name == "LEGAL" then Some(LEGAL)
    else None
  }

  /** The @DiscriminatorValue of a record's class. */
  function DiscriminatorValue(c: Customer): string
  {
    match c
    case RealCustomer(_, _, _, _, _, _) => "REAL"
    case LegalCustomer(_, _, _, _, _, _) => "LEGAL"
  }

  /** Names and subtypes are in one-to-one correspondence, and a record's discriminator
      value selects the record's own class. */
  lemma DiscriminatorSelectsVariant(c: Customer, t: CustomerType)
    ensures TypeByName(TypeName(t)) == Some(t)
    ensures TypeByName(DiscriminatorValue(c)) == Some(Variant(c))
  {
  }

  /** `new RealCustomer()`: every field null except the tag, which is REAL. Validation
      is not run at construction, so the new record is not yet valid. */
  function NewRealCustomer(): (c: Customer)
    ensures Variant(c) == REAL && c.tag == Some(Variant(c))
    ensures c.id.None? && c.name.None? && c.family.None? && c.phoneNumber.None?
    ensures c.nationality.None? && !IsValid(c)
  {
    RealCustomer(None, None, None, None, Some(REAL), None)
  }

  /** `new LegalCustomer()`: every field null except the tag, which is LEGAL. */
  function NewLegalCustomer(): (c: Customer)
    ensures Variant(c) == LEGAL && c.tag == Some(Variant(c))
    ensures c.id.None? && c.name.None? && c.family.None? && c.phoneNumber.None?
    ensures c.industry.None? && !IsValid(c)
  {
    LegalCustomer(None, None, None, None, Some(LEGAL), None)
  }

  /** `new RealCustomer(nationality)`: the all-arguments constructor covers only the
      subclass's own field and calls the implicit `super()`, not `this()`, so every
      base field, the tag included, stays null and the record is not valid. */
  function AllArgsRealCustomer(nationality: Option<string>): (c: Customer)
    ensures Variant(c) == REAL && c.nationality == nationality
    ensures c.id.None? && c.name.None? && c.family.None? && c.phoneNumber.None?
    ensures c.tag.None? && !IsValid(c)
  {
    RealCustomer(None, None, None, None, None, nationality)
  }

  /** `new LegalCustomer(industry)`: likewise only the subclass's own field is set. */
  function AllArgsLegalCustomer(industry: Option<string>): (c: Customer)
    ensures Variant(c) == LEGAL && c.industry == industry
    ensures c.id.None? && c.name.None? && c.family.None? && c.phoneNumber.None?
    ensures c.tag.None? && !IsValid(c)
  {
    LegalCustomer(None, None, None, None, None, industry)
  }

  /** The builder does not force the tag: a RealCustomer may be built with any tag,
      including LEGAL or null, and stays a RealCustomer. */
  lemma BuilderTagIsFree(t: Option<CustomerType>)
    ensures var c := RealCustomer(None, Some("John"), Some("Doe"), None, t, None);
            Variant(c) == REAL && c.tag == t && IsValid(c)
    ensures var c := LegalCustomer(None, Some("Acme"), Some("Ltd"), None, t, None);
            Variant(c) == LEGAL && c.tag == t && IsValid(c)
  {
  }

  // ---------------------------------------------------------------------------
  // Validation: @NotEmpty and @NotNull on `name` and `family`; no constraint on the
  // other fields.

  const NameMessage := "name can not be empty."
  const FamilyMessage := "family can not be empty."
  /** The validator's default message for @NotNull, which declares none of its own. */
  const NotNullMessage := "must not be null"

  /** @NotEmpty on a string: non-null and of length at least one. Whitespace counts. */
  predicate NotEmpty(s: Option<string>)
  {
    s.Some? && |s.value| > 0
  }

  /** A record passes validation when its name and its family are both non-empty. */
  /** Both constraints hold: the not-null constraints are implied by the not-empty
      ones, and the other fields are never looked at. */
  predicate IsValid(c: Customer): (valid: bool)
    ensures valid ==> c.name.Some? && c.family.Some?
    ensures c.name == Some("") || c.family == Some("") ==> !valid
  {
    NotEmpty(c.name) && NotEmpty(c.family)
  }

  function FieldViolations(property: string, value: Option<string>, emptyMessage: string): set<Violation>
  {
    (if NotEmpty(value) then {} else {Violation(property, emptyMessage)}) +
    (if value.Some? then {} else {Violation(property, NotNullMessage)})
  }

  /** The violations the validator reports for a record. */
  function Violations(c: Customer): (vs: set<Violation>)
    ensures vs == {} <==> IsValid(c)
    ensures Violation("name", NameMessage) in vs <==> !NotEmpty(c.name)
    ensures Violation("family", FamilyMessage) in vs <==> !NotEmpty(c.family)
    ensures Violation("name", NotNullMessage) in vs <==> c.name.None?
    ensures Violation("family", NotNullMessage) in vs <==> c.family.None?
    ensures forall v :: v in vs ==> v.property == "name" || v.property == "family"
  {
    var vs := FieldViolations("name", c.name, NameMessage) + FieldViolations("family", c.family, FamilyMessage);
    assert !NotEmpty(c.name) ==> Violation("name", NameMessage) in vs;
    assert !NotEmpty(c.family) ==> Violation("family", FamilyMessage) in vs;
    vs
  }

  /** `id`, `phoneNumber`, `type` and the variant's own field carry no constraint:
      changing them never changes what validation reports. */
  lemma ValidationIgnoresUnconstrainedFields(c: Customer, id: Option<int>, phone: Option<string>,
                                             tag: Option<CustomerType>, extra: Option<string>)
    ensures Violations(c.(id := id, phoneNumber := phone, tag := tag)) == Violations(c)
    ensures c.RealCustomer? ==> Violations(c.(nationality := extra)) == Violations(c)
    ensures c.LegalCustomer? ==> Violations(c.(industry := extra)) == Violations(c)
  {
  }

  /** The constraint is @NotEmpty, not @NotBlank: a name and a family made of nothing but
      spaces pass validation. */
  lemma BlankNamesPass(c: Customer, n: nat)
    requires n > 0
    requires c.name == Some(seq(n, _ => ' ')) && c.family == Some(seq(n, _ => ' '))
    ensures IsValid(c) && Violations(c) == {}
  {
  }

  /** A null name violates both of its constraints; an empty one only @NotEmpty. */
  lemma NullAndEmptyNameMessages(c: Customer)
    requires NotEmpty(c.family)
    ensures c.name.None? ==> Violations(c) == {Violation("name", NameMessage), Violation("name", NotNullMessage)}
    ensures c.name == Some("") ==> Violations(c) == {Violation("name", NameMessage)}
  {
  }
}
