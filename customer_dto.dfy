/** The wire representation of a customer: the abstract CustomerDto with its two
    variants, RealCustomerDto and LegalCustomerDto, discriminated by property "type". */
module CustomerDtos {
  import opened Wrappers
  import opened CustomerModel

  /** CustomerDto is abstract, so every wire customer is one of the two subclasses. The
      fields mirror the entity's; `tag` is the `type` property. */
  datatype CustomerDto =
    | RealCustomerDto(id: Option<int>, name: Option<string>, family: Option<string>,
                      phoneNumber: Option<string>, tag: Option<CustomerType>,
                      nationality: Option<string>)
    | LegalCustomerDto(id: Option<int>, name: Option<string>, family: Option<string>,
                       phoneNumber: Option<string>, tag: Option<CustomerType>,
                       industry: Option<string>)

  /** The concrete class of a wire customer, as a discriminator value. */
  function DtoVariant(d: CustomerDto): CustomerType
  {
    if d.RealCustomerDto? then REAL else LEGAL
  }

  /** `new RealCustomerDto()`: every field null except the tag, which is REAL. */
  function NewRealCustomerDto(): (d: CustomerDto)
    ensures DtoVariant(d) == REAL && d.tag == Some(DtoVariant(d)) && d.id.None?
  {
    RealCustomerDto(None, None, None, None, Some(REAL), None)
  }

  /** `new LegalCustomerDto()`: every field null except the tag, which is LEGAL. */
  function NewLegalCustomerDto(): (d: CustomerDto)
    ensures DtoVariant(d) == LEGAL && d.tag == Some(DtoVariant(d)) && d.id.None?
  {
    LegalCustomerDto(None, None, None, None, Some(LEGAL), None)
  }

  /** The object the "type" property selects (@JsonSubTypes), as its no-argument
      constructor builds it; an unknown name selects nothing. */
  function NewDtoFor(typeName: string): (d: Option<CustomerDto>)
    ensures d.Some? <==> TypeByName(typeName).Some?
    ensures d.Some? ==> DtoVariant(d.value) == TypeByName(typeName).value
    ensures d.Some? ==> d.value.tag == TypeByName(typeName)
  {
    match TypeByName(typeName)
    case Some(REAL) => Some(NewRealCustomerDto())
    case Some(LEGAL) => Some(NewLegalCustomerDto())
    case None => None
  }

  /** The wire-level constraints: @NotNull on `name` and on `family`, nothing else. */
  predicate WireValid(d: CustomerDto)
  {
    d.name.Some? && d.family.Some?
  }

  /** The wire constraints are strictly weaker than the entity's: every entity-valid
      field pair is wire-valid, but emptying the name of any wire customer that has a
      family keeps it wire-valid while the name is no longer non-empty. */
  lemma WireValidIsWeaker(d: CustomerDto)
    ensures NotEmpty(d.name) && NotEmpty(d.family) ==> WireValid(d)
    ensures d.family.Some? ==> var e := d.(name := Some(""));
            WireValid(e) && !NotEmpty(e.name)
  {
  }
}
