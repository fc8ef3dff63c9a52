/** CustomerMapper: conversion between wire customers and entities. The four
    per-variant conversions are generated by MapStruct and modelled as a copy of the
    same-named fields; the two dispatching conversions choose one of them by the
    concrete class of their argument and throw for anything else. */
module CustomerMapper {
  import opened Wrappers
  import opened Errors
  import opened CustomerModel
  import opened CustomerDtos

  /** A `java.lang.Object` as far as the mapper can tell it apart: null, a wire
      customer, an entity, or an instance of some other class. */
  datatype JavaObject =
    | Null
    | DtoObject(dto: CustomerDto)
    | EntityObject(entity: Customer)
    | OtherObject(className: string)

  /** `getClass().getName()` of a non-null object. */
  function ClassName(o: JavaObject): string
    requires !o.Null?
  {
    match o
    case DtoObject(d) =>
      if d.RealCustomerDto? then "dk.dev.customersystem.dto.RealCustomerDto"
      else "dk.dev.customersystem.dto.LegalCustomerDto"
    case EntityObject(e) =>
      if e.RealCustomer? then "dk.dev.customersystem.model.RealCustomer"
      else "dk.dev.customersystem.model.LegalCustomer"
    case OtherObject(name) => name
  }

  /** A wire customer and an entity describe the same customer: same class, same
      base fields, same variant field. */
  predicate Corresponds(d: CustomerDto, e: Customer)
  {
    && DtoVariant(d) == Variant(e)
    && d.id == e.id && d.name == e.name && d.family == e.family
    && d.phoneNumber == e.phoneNumber && d.tag == e.tag
    && (d.RealCustomerDto? && e.RealCustomer? ==> d.nationality == e.nationality)
    && (d.LegalCustomerDto? && e.LegalCustomer? ==> d.industry == e.industry)
  }

  /** `RealCustomer toEntity(RealCustomerDto)`. */
  function RealToEntity(d: CustomerDto): (e: Customer)
    requires d.RealCustomerDto?
    ensures Corresponds(d, e)
  {
    RealCustomer(d.id, d.name, d.family, d.phoneNumber, d.tag, d.nationality)
  }

  /** `RealCustomerDto toDto(RealCustomer)`. */
  function RealToDto(e: Customer): (d: CustomerDto)
    requires e.RealCustomer?
    ensures Corresponds(d, e)
  {
    RealCustomerDto(e.id, e.name, e.family, e.phoneNumber, e.tag, e.nationality)
  }

  /** `LegalCustomer toEntity(LegalCustomerDto)`. */
  function LegalToEntity(d: CustomerDto): (e: Customer)
    requires d.LegalCustomerDto?
    ensures Corresponds(d, e)
  {
    LegalCustomer(d.id, d.name, d.family, d.phoneNumber, d.tag, d.industry)
  }

  /** `LegalCustomerDto toDto(LegalCustomer)`. */
  function LegalToDto(e: Customer): (d: CustomerDto)
    requires e.LegalCustomer?
    ensures Corresponds(d, e)
  {
    LegalCustomerDto(e.id, e.name, e.family, e.phoneNumber, e.tag, e.industry)
  }

  /** `default Customer toEntity(Object)`: a wire customer becomes the entity of the same
      class; an entity or any other object is an unsupported type; null fails on
      `getClass()`. */
  function ToEntity(o: JavaObject): (r: Result<Customer, Error>)
    ensures r.Ok? <==> o.DtoObject?
    ensures r.Ok? ==> Corresponds(o.dto, r.value)
    ensures o.Null? ==> r == Err(NullPointer)
    ensures o.EntityObject? || o.OtherObject? ==>
              r == Err(IllegalArgument("Unsupported type: " + ClassName(o)))
  {
    if o.DtoObject? && o.dto.RealCustomerDto? then Ok(RealToEntity(o.dto))
    else if o.DtoObject? && o.dto.LegalCustomerDto? then Ok(LegalToEntity(o.dto))
    else if o.Null? then Err(NullPointer)
    else Err(IllegalArgument("Unsupported type: " + ClassName(o)))
  }

  /** `default CustomerDto toDto(Object)`: an entity becomes the wire customer of the
      same class; a wire customer or any other object is an unsupported type; null
      fails on `getClass()`. */
  function ToDto(o: JavaObject): (r: Result<CustomerDto, Error>)
    ensures r.Ok? <==> o.EntityObject?
    ensures r.Ok? ==> Corresponds(r.value, o.entity)
    ensures o.Null? ==> r == Err(NullPointer)
    ensures o.DtoObject? || o.OtherObject? ==>
              r == Err(IllegalArgument("Unsupported type: " + ClassName(o)))
  {
    if o.EntityObject? && o.entity.RealCustomer? then Ok(RealToDto(o.entity))
    else if o.EntityObject? && o.entity.LegalCustomer? then Ok(LegalToDto(o.entity))
    else if o.Null? then Err(NullPointer)
    else Err(IllegalArgument("Unsupported type: " + ClassName(o)))
  }

  /** The wire customer an entity maps to; `toDto` of an entity never throws, and the
      result maps back to the entity. */
  function EntityToDto(e: Customer): (d: CustomerDto)
    ensures ToDto(EntityObject(e)) == Ok(d)
    ensures Corresponds(d, e) && ToEntity(DtoObject(d)) == Ok(e)
  {
    var d := ToDto(EntityObject(e)).value;
    CorrespondsIsOneToOne(d, d, e, ToEntity(DtoObject(d)).value);
    d
  }

  /** Each side determines the other: at most one entity corresponds to a wire customer
      and at most one wire customer to an entity. */
  lemma CorrespondsIsOneToOne(d: CustomerDto, d': CustomerDto, e: Customer, e': Customer)
    ensures Corresponds(d, e) && Corresponds(d, e') ==> e == e'
    ensures Corresponds(d, e) && Corresponds(d', e) ==> d == d'
  {
  }

  /** Dispatch follows the concrete class, not the `type` field: a RealCustomerDto
      tagged LEGAL (or untagged) still becomes a RealCustomer, and keeps its tag. */
  lemma DispatchIgnoresTag(id: Option<int>, name: Option<string>, family: Option<string>,
                           phone: Option<string>, nationality: Option<string>)
    ensures var e := ToEntity(DtoObject(RealCustomerDto(id, name, family, phone, Some(LEGAL), nationality)));
            e.Ok? && e.value.RealCustomer? && e.value.tag == Some(LEGAL)
    ensures var e := ToEntity(DtoObject(RealCustomerDto(id, name, family, phone, None, nationality)));
            e.Ok? && e.value.RealCustomer? && e.value.tag.None?
  {
  }

  /** Wire to entity and back gives the wire customer unchanged, and entity to wire and
      back gives the entity unchanged; in particular the variant survives both ways. */
  lemma RoundTrips(d: CustomerDto, e: Customer)
    ensures ToDto(EntityObject(ToEntity(DtoObject(d)).value)) == Ok(d)
    ensures ToEntity(DtoObject(ToDto(EntityObject(e)).value)) == Ok(e)
    ensures DtoVariant(ToDto(EntityObject(ToEntity(DtoObject(d)).value)).value) == DtoVariant(d)
  {
    CorrespondsIsOneToOne(d, ToDto(EntityObject(ToEntity(DtoObject(d)).value)).value,
                          ToEntity(DtoObject(d)).value, ToEntity(DtoObject(d)).value);
    CorrespondsIsOneToOne(ToDto(EntityObject(e)).value, ToDto(EntityObject(e)).value,
                          e, ToEntity(DtoObject(ToDto(EntityObject(e)).value)).value);
  }
}
