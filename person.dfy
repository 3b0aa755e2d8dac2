/**
 * The read-only properties of a person (backend-python app/models/person.py):
 * role flags read from the `types` list, the display name, the formatted
 * CPF or CNPJ and the address line.
 */
module PersonModel {
  import opened Wrappers
  import opened Text
  import Documents
  import Addresses

  /** `document_type` (a non-null column). */
  datatype DocumentKind = CpfDocument | CnpjDocument

  datatype Person = Person(
    types: Option<seq<string>>,
    documentType: DocumentKind,
    fullName: Option<string>,
    companyName: Option<string>,
    tradeName: Option<string>,
    cpf: Option<string>,
    cnpj: Option<string>,
    address: Addresses.JsonAddress)

  const NoName := "Sem nome"
  const NoDocument := "Sem documento"

  /** `self.types or []`. */
  function TypesOrEmpty(p: Person): seq<string>
  {
    if p.types.Some? then p.types.value else []
  }

  /** `PersonType.X in (self.types or [])`. */
  predicate HasType(p: Person, t: string)
  {
    t in TypesOrEmpty(p)
  }

  predicate IsClient(p: Person) { HasType(p, "client") }
  predicate IsDriver(p: Person) { HasType(p, "driver") }
  predicate IsEmployee(p: Person) { HasType(p, "employee") }
  predicate IsSupplier(p: Person) { HasType(p, "supplier") }

  /** `a or b` on optional strings. */
  function OrElse(a: Option<string>, b: string): (r: string)
    ensures Truthy(a) ==> r == a.value
    ensures !Truthy(a) ==> r == b
  {
    if Truthy(a) then a.value else b
  }

  /** `display_name`: the full name for a CPF; the trade name, then the company name, for a CNPJ. */
  function DisplayName(p: Person): string
  {
    if p.documentType == CpfDocument then OrElse(p.fullName, NoName)
    else OrElse(p.tradeName, OrElse(p.companyName, NoName))
  }

  /** `formatted_document`: the CPF or CNPJ matching the document type, punctuated, else "Sem documento". */
  function FormattedDocument(p: Person): string
  {
    if p.documentType == CpfDocument && Truthy(p.cpf) then Documents.FormatCpf(p.cpf.value)
    else if p.documentType == CnpjDocument && Truthy(p.cnpj) then Documents.FormatCnpj(p.cnpj.value)
    else NoDocument
  }

  /** `full_address`, with the person's English key names. */
  function FullAddress(p: Person): string
  {
    Addresses.FormatAddress(p.address, Addresses.PersonKeys)
  }

  /**
   * A person without a types list has no role; the four flags are
   * independent and each reads only its own entry of the list.
   */
  lemma RolesFromTypes(p: Person)
    ensures p.types.None? ==> !IsClient(p) && !IsDriver(p) && !IsEmployee(p) && !IsSupplier(p)
    ensures p.types.Some? ==>
      (IsClient(p) <==> "client" in p.types.value) && (IsDriver(p) <==> "driver" in p.types.value)
      && (IsEmployee(p) <==> "employee" in p.types.value) && (IsSupplier(p) <==> "supplier" in p.types.value)
    ensures forall q: Person :: q.types == p.types ==>
      IsClient(q) == IsClient(p) && IsDriver(q) == IsDriver(p) && IsEmployee(q) == IsEmployee(p) && IsSupplier(q) == IsSupplier(p)
  {
  }

  /**
   * The display name is never empty: it is a non-empty name of the person's
   * kind, the trade name winning over the company name, or "Sem nome" when
   * there is none.
   */
  lemma DisplayNameChoice(p: Person)
    ensures DisplayName(p) != ""
    ensures p.documentType == CpfDocument ==>
      DisplayName(p) == if Truthy(p.fullName) then p.fullName.value else NoName
    ensures p.documentType == CnpjDocument ==>
      DisplayName(p) == if Truthy(p.tradeName) then p.tradeName.value
                        else if Truthy(p.companyName) then p.companyName.value else NoName
  {
  }

  /**
   * The formatted document is the punctuated document of the person's own
   * kind: stripping it back to digits gives that document's digits, and an
   * 11-character CPF or 14-character CNPJ gives 14 or 18 characters. A
   * missing or empty document of that kind gives "Sem documento".
   */
  lemma FormattedDocumentShape(p: Person)
    ensures p.documentType == CpfDocument && Truthy(p.cpf) ==>
      KeepDigits(FormattedDocument(p)) == KeepDigits(p.cpf.value)
      && (|p.cpf.value| == 11 ==> |FormattedDocument(p)| == 14)
    ensures p.documentType == CnpjDocument && Truthy(p.cnpj) ==>
      KeepDigits(FormattedDocument(p)) == KeepDigits(p.cnpj.value)
      && (|p.cnpj.value| == 14 ==> |FormattedDocument(p)| == 18)
    ensures !(p.documentType == CpfDocument && Truthy(p.cpf)) && !(p.documentType == CnpjDocument && Truthy(p.cnpj)) ==>
      FormattedDocument(p) == NoDocument
  {
    if p.documentType == CpfDocument && Truthy(p.cpf) {
      Documents.CpfFormatKeepsDigits(p.cpf.value);
      if |p.cpf.value| == 11 {
        Documents.CpfLayout(p.cpf.value);
      }
    } else if p.documentType == CnpjDocument && Truthy(p.cnpj) {
      Documents.CnpjFormatKeepsDigits(p.cnpj.value);
      if |p.cnpj.value| == 14 {
        Documents.CnpjLayout(p.cnpj.value);
      }
    }
  }

  /** Every one of the seven address keys holds a non-empty value. */
  predicate AllPartsPresent(d: map<string, string>)
  {
    Addresses.Present(d, "street") && Addresses.Present(d, "number") && Addresses.Present(d, "complement")
    && Addresses.Present(d, "neighborhood") && Addresses.Present(d, "city") && Addresses.Present(d, "state")
    && Addresses.Present(d, "cep")
  }

  /**
   * The address line: "not registered" without an address object, the
   * "incomplete" text without any usable part, one part per usable slot
   * otherwise, and with every part filled in
   * `street, number, complement, neighborhood, city/state, CEP: cep`.
   */
  lemma FullAddressLine(p: Person)
    ensures !p.address.AddressDict? || p.address.fields == map[] ==> FullAddress(p) == Addresses.NotRegistered
    ensures p.address.AddressDict? && p.address.fields != map[]
            && Addresses.PresentSlots(p.address.fields, Addresses.PersonKeys) == 0 ==>
      FullAddress(p) == Addresses.Incomplete
    ensures p.address.AddressDict? && AllPartsPresent(p.address.fields) ==>
      var d := p.address.fields;
      FullAddress(p) == d["street"] + ", " + d["number"] + ", " + d["complement"] + ", "
        + d["neighborhood"] + ", " + d["city"] + "/" + d["state"] + ", " + "CEP: " + d["cep"]
  {
    Addresses.AddressOutcomes(p.address, Addresses.PersonKeys);
    if p.address.AddressDict? && AllPartsPresent(p.address.fields) {
      Addresses.CompleteAddressLine(p.address, Addresses.PersonKeys);
    }
  }
}
