/**
 * The validation of a new person (backend-python app/schemas/person.py,
 * `PersonCreate`): field length bounds, the allowed person types, and the
 * rules that tie the required fields to the document type and to the types.
 *
 * Each field is checked in declaration order; a field that fails its own
 * bounds is reported and is not seen by the validators of later fields, so
 * an invalid `types` list switches off the client and driver rules.
 */
module PersonSchemas {
  import opened Wrappers

  /** A personal reference, with its own length bounds. */
  datatype Reference = Reference(name: string, phone: string, relationship: string)

  datatype PersonInput = PersonInput(
    types: seq<string>,
    documentType: string,
    fullName: Option<string>,
    cpf: Option<string>,
    companyName: Option<string>,
    cnpj: Option<string>,
    phone: string,
    references: seq<Reference>,
    hasDriverData: bool)

  /** The fields that can fail, in declaration order. */
  datatype PersonField = Types | FullName | Cpf | CompanyName | Cnpj | Phone | References | DriverData

  const ValidTypes: set<string> := {"client", "employee", "driver", "supplier", "partner"}

  /** `min_length`/`max_length` on an optional string: `None` passes. */
  predicate OptionalWithin(s: Option<string>, lo: nat, hi: nat)
  {
    s.Some? ==> lo <= |s.value| <= hi
  }

  /** `min_items=1` and `validate_types`. */
  predicate TypesOk(input: PersonInput)
  {
    |input.types| >= 1 && forall i :: 0 <= i < |input.types| ==> input.types[i] in ValidTypes
  }

  /** The types the later validators see: `values.get('types', [])`. */
  function SeenTypes(input: PersonInput): seq<string>
  {
    if TypesOk(input) then input.types else []
  }

  predicate FullNameOk(input: PersonInput)
  {
    OptionalWithin(input.fullName, 3, 200) && !(input.documentType == "cpf" && !Truthy(input.fullName))
  }

  predicate CompanyNameOk(input: PersonInput)
  {
    OptionalWithin(input.companyName, 3, 200) && !(input.documentType == "cnpj" && !Truthy(input.companyName))
  }

  predicate ReferenceWithin(r: Reference)
  {
    3 <= |r.name| <= 200 && 10 <= |r.phone| <= 20 && 2 <= |r.relationship| <= 50
  }

  /** `[r for r in v if r.name and r.phone and r.relationship]`, counted. */
  function CompleteReferences(refs: seq<Reference>): (n: nat)
    ensures n <= |refs|
  {
    if refs == [] then 0
    else (if refs[0].name != "" && refs[0].phone != "" && refs[0].relationship != "" then 1 else 0)
         + CompleteReferences(refs[1..])
  }

  predicate ReferencesOk(input: PersonInput)
  {
    (forall i :: 0 <= i < |input.references| ==> ReferenceWithin(input.references[i]))
    && ("client" in SeenTypes(input) ==> CompleteReferences(input.references) >= 2)
  }

  predicate DriverDataOk(input: PersonInput)
  {
    !("driver" in SeenTypes(input) && !input.hasDriverData)
  }

  /** Whether one field fails. */
  predicate Fails(input: PersonInput, f: PersonField)
  {
    match f
    case Types => !TypesOk(input)
    case FullName => !FullNameOk(input)
    case Cpf => !OptionalWithin(input.cpf, 11, 11)
    case CompanyName => !CompanyNameOk(input)
    case Cnpj => !OptionalWithin(input.cnpj, 14, 14)
    case Phone => !(10 <= |input.phone| <= 20)
    case References => !ReferencesOk(input)
    case DriverData => !DriverDataOk(input)
  }

  const FieldOrder: seq<PersonField> := [Types, FullName, Cpf, CompanyName, Cnpj, Phone, References, DriverData]

  /** The fields of `fields` that fail, in the same order. */
  function FailingAmong(input: PersonInput, fields: seq<PersonField>): (r: seq<PersonField>)
    ensures forall f :: f in r <==> f in fields && Fails(input, f)
  {
    if fields == [] then []
    else (if Fails(input, fields[0]) then [fields[0]] else []) + FailingAmong(input, fields[1..])
  }

  /** Every failing field, in declaration order. */
  function PersonErrors(input: PersonInput): (r: seq<PersonField>)
    ensures forall f :: f in r <==> Fails(input, f)
  {
    FailingAmong(input, FieldOrder)
  }

  /** Parsing a `PersonCreate` body. */
  function ValidatePerson(input: PersonInput): Result<PersonInput, seq<PersonField>>
  {
    var errors := PersonErrors(input);
    if errors == [] then Ok(input) else Err(errors)
  }

  /** References within their bounds are all complete. */
  lemma {:induction false} BoundedReferencesComplete(refs: seq<Reference>)
    requires forall i :: 0 <= i < |refs| ==> ReferenceWithin(refs[i])
    ensures CompleteReferences(refs) == |refs|
  {
    if refs != [] {
      assert ReferenceWithin(refs[0]);
      BoundedReferencesComplete(refs[1..]);
    }
  }

  /**
   * A body is accepted exactly when: at least one type, all from the five
   * known ones; a non-empty full name for a CPF and a non-empty company name
   * for a CNPJ; an 11-character CPF and a 14-character CNPJ when given; a
   * phone of 10 to 20 characters; every reference within bounds, and at least
   * two of them for a client; driver data for a driver.
   */
  lemma PersonAccepted(input: PersonInput)
    ensures ValidatePerson(input).Ok? <==>
      |input.types| >= 1 && (forall i :: 0 <= i < |input.types| ==> input.types[i] in ValidTypes)
      && (input.documentType == "cpf" ==> Truthy(input.fullName))
      && (input.documentType == "cnpj" ==> Truthy(input.companyName))
      && OptionalWithin(input.fullName, 3, 200) && OptionalWithin(input.companyName, 3, 200)
      && OptionalWithin(input.cpf, 11, 11) && OptionalWithin(input.cnpj, 14, 14)
      && 10 <= |input.phone| <= 20
      && (forall i :: 0 <= i < |input.references| ==> ReferenceWithin(input.references[i]))
      && ("client" in input.types ==> |input.references| >= 2)
      && ("driver" in input.types ==> input.hasDriverData)
    ensures ValidatePerson(input).Ok? ==> ValidatePerson(input).value == input
  {
    if forall i :: 0 <= i < |input.references| ==> ReferenceWithin(input.references[i]) {
      BoundedReferencesComplete(input.references);
    }
    var errors := PersonErrors(input);
    if errors != [] {
      assert errors[0] in errors;
    }
    assert errors == [] <==>
      !Fails(input, Types) && !Fails(input, FullName) && !Fails(input, Cpf) && !Fails(input, CompanyName)
      && !Fails(input, Cnpj) && !Fails(input, Phone) && !Fails(input, References) && !Fails(input, DriverData);
  }

  /**
   * An unknown type in the list hides the list from the later validators: a
   * "client" without references or a "driver" without driver data is then
   * reported only for its types.
   */
  lemma InvalidTypesHideRoleRules(input: PersonInput)
    requires |input.types| >= 1 && exists i :: 0 <= i < |input.types| && input.types[i] !in ValidTypes
    requires input.references == [] && !input.hasDriverData
    ensures Types in PersonErrors(input)
    ensures References !in PersonErrors(input) && DriverData !in PersonErrors(input)
  {
  }
}
