/**
 * The address line built from a JSON address object, shared by the person
 * model (backend-python app/models/person.py, English keys) and the order
 * model (app/models/pedido.py, Portuguese keys): every present part in a
 * fixed order, city and state only together, joined by ", ".
 */
module Addresses {
  import opened Text

  /** The JSON address column: null, a value that is not an object, or an object of text fields. */
  datatype JsonAddress = Missing | NotADict | AddressDict(fields: map<string, string>)

  /** The key names one model uses for its seven address fields. */
  datatype AddressKeys = AddressKeys(street: string, number: string, complement: string,
                                     neighborhood: string, city: string, state: string, cep: string)

  const PersonKeys := AddressKeys("street", "number", "complement", "neighborhood", "city", "state", "cep")
  const PedidoKeys := AddressKeys("logradouro", "numero", "complemento", "bairro", "cidade", "estado", "cep")

  const NotRegistered := "Endereço não cadastrado"
  const Incomplete := "Endereço incompleto"

  /** `d.get(key)` is truthy. */
  predicate Present(d: map<string, string>, key: string)
  {
    key in d && d[key] != ""
  }

  /** `[value]` when the key is present, else nothing. */
  function Part(d: map<string, string>, key: string): (r: seq<string>)
    ensures |r| == if Present(d, key) then 1 else 0
    ensures Present(d, key) ==> r == [d[key]]
  {
    if Present(d, key) then [d[key]] else []
  }

  /** The parts of the address line, in order. */
  function Parts(d: map<string, string>, k: AddressKeys): seq<string>
  {
    Part(d, k.street) + Part(d, k.number) + Part(d, k.complement) + Part(d, k.neighborhood)
    + (if Present(d, k.city) && Present(d, k.state) then [d[k.city] + "/" + d[k.state]] else [])
    + (if Present(d, k.cep) then ["CEP: " + d[k.cep]] else [])
  }

  /** `full_address` / `endereco_entrega_formatado`. */
  function FormatAddress(a: JsonAddress, k: AddressKeys): string
  {
    if !a.AddressDict? || a.fields == map[] then NotRegistered
    else
      var parts := Parts(a.fields, k);
      if parts == [] then Incomplete else Join(parts, ", ")
  }

  /** The number of slots that contribute a part. */
  function PresentSlots(d: map<string, string>, k: AddressKeys): nat
  {
    (if Present(d, k.street) then 1 else 0) + (if Present(d, k.number) then 1 else 0)
    + (if Present(d, k.complement) then 1 else 0) + (if Present(d, k.neighborhood) then 1 else 0)
    + (if Present(d, k.city) && Present(d, k.state) then 1 else 0) + (if Present(d, k.cep) then 1 else 0)
  }

  /**
   * The three outcomes: no object (null, not an object, or empty) gives the
   * "not registered" text; an object with no usable slot gives the
   * "incomplete" text; otherwise one part per usable slot, at most six,
   * joined by ", ".
   */
  lemma AddressOutcomes(a: JsonAddress, k: AddressKeys)
    ensures !a.AddressDict? || a.fields == map[] ==> FormatAddress(a, k) == NotRegistered
    ensures a.AddressDict? && a.fields != map[] ==>
      var parts := Parts(a.fields, k);
      |parts| == PresentSlots(a.fields, k) <= 6
      && (PresentSlots(a.fields, k) == 0 ==> FormatAddress(a, k) == Incomplete)
      && (PresentSlots(a.fields, k) > 0 ==> FormatAddress(a, k) == Join(parts, ", "))
  {
  }

  /** With every field filled in, the line lists them all in the fixed order. */
  lemma CompleteAddressLine(a: JsonAddress, k: AddressKeys)
    requires a.AddressDict?
    requires Present(a.fields, k.street) && Present(a.fields, k.number) && Present(a.fields, k.complement)
    requires Present(a.fields, k.neighborhood) && Present(a.fields, k.city) && Present(a.fields, k.state)
    requires Present(a.fields, k.cep)
    ensures var d := a.fields;
      FormatAddress(a, k) == d[k.street] + ", " + d[k.number] + ", " + d[k.complement] + ", "
        + d[k.neighborhood] + ", " + d[k.city] + "/" + d[k.state] + ", " + "CEP: " + d[k.cep]
  {
    var d := a.fields;
    var parts := Parts(d, k);
    assert parts == [d[k.street], d[k.number], d[k.complement], d[k.neighborhood],
                     d[k.city] + "/" + d[k.state], "CEP: " + d[k.cep]];
    assert Join(parts[5..], ", ") == "CEP: " + d[k.cep];
    assert Join(parts[4..], ", ") == d[k.city] + "/" + d[k.state] + ", " + "CEP: " + d[k.cep] by {
      assert parts[4..][1..] == parts[5..];
    }
    assert Join(parts[3..], ", ") == d[k.neighborhood] + ", " + Join(parts[4..], ", ") by {
      assert parts[3..][1..] == parts[4..];
    }
    assert Join(parts[2..], ", ") == d[k.complement] + ", " + Join(parts[3..], ", ") by {
      assert parts[2..][1..] == parts[3..];
    }
    assert Join(parts[1..], ", ") == d[k.number] + ", " + Join(parts[2..], ", ") by {
      assert parts[1..][1..] == parts[2..];
    }
  }

  /** A city without a state (or a state without a city) adds nothing: the line is as if both were absent. */
  lemma CityNeedsState(d: map<string, string>, k: AddressKeys)
    requires !(Present(d, k.city) && Present(d, k.state))
    requires k.city !in {k.street, k.number, k.complement, k.neighborhood, k.cep}
    requires k.state !in {k.street, k.number, k.complement, k.neighborhood, k.cep}
    ensures Parts(d, k) == Parts(d - {k.city, k.state}, k)
  {
    var e := d - {k.city, k.state};
    assert Part(d, k.street) == Part(e, k.street);
    assert Part(d, k.number) == Part(e, k.number);
    assert Part(d, k.complement) == Part(e, k.complement);
    assert Part(d, k.neighborhood) == Part(e, k.neighborhood);
    assert Present(d, k.cep) == Present(e, k.cep);
  }

  /** The person and order formatters give the same line for the same values under their own key names. */
  lemma PersonAndPedidoAgree(person: map<string, string>, pedido: map<string, string>)
    requires forall i :: 0 <= i < 7 ==> (KeyOf(PersonKeys, i) in person <==> KeyOf(PedidoKeys, i) in pedido)
    requires forall i :: 0 <= i < 7 && KeyOf(PersonKeys, i) in person ==>
      person[KeyOf(PersonKeys, i)] == pedido[KeyOf(PedidoKeys, i)]
    requires (person == map[]) == (pedido == map[])
    ensures FormatAddress(AddressDict(person), PersonKeys) == FormatAddress(AddressDict(pedido), PedidoKeys)
  {
    SameSlot(person, pedido, 0);
    SameSlot(person, pedido, 1);
    SameSlot(person, pedido, 2);
    SameSlot(person, pedido, 3);
    SameSlot(person, pedido, 4);
    SameSlot(person, pedido, 5);
    SameSlot(person, pedido, 6);
  }

  /** The key of slot `i`: street, number, complement, neighborhood, city, state, cep. */
  function KeyOf(k: AddressKeys, i: nat): string
  {
    if i == 0 then k.street else if i == 1 then k.number else if i == 2 then k.complement
    else if i == 3 then k.neighborhood else if i == 4 then k.city else if i == 5 then k.state else k.cep
  }

  lemma SameSlot(person: map<string, string>, pedido: map<string, string>, i: nat)
    requires i < 7
    requires KeyOf(PersonKeys, i) in person <==> KeyOf(PedidoKeys, i) in pedido
    requires KeyOf(PersonKeys, i) in person ==> person[KeyOf(PersonKeys, i)] == pedido[KeyOf(PedidoKeys, i)]
    ensures Present(person, KeyOf(PersonKeys, i)) == Present(pedido, KeyOf(PedidoKeys, i))
    ensures Present(person, KeyOf(PersonKeys, i)) ==> person[KeyOf(PersonKeys, i)] == pedido[KeyOf(PedidoKeys, i)]
  {
  }
}
