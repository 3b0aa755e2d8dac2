/**
 * The read-only properties of a carrier (backend-python
 * app/models/transportadora.py): availability, the formatted CNPJ and
 * whether it serves a given city.
 *
 * City and state names are compared after ASCII lower-casing. An entry of
 * `cidades_atendidas` that is a JSON object is a map of its text values; any
 * other entry is `OtherEntry`. A boolean column that is still null reads as
 * false.
 */
module CarrierModel {
  import opened Wrappers
  import opened Text
  import Documents

  /** One entry of the `cidades_atendidas` JSON list. */
  datatype ServedCity = CityEntry(fields: map<string, string>) | OtherEntry

  datatype Transportadora = Transportadora(
    ativa: bool,
    bloqueada: bool,
    cnpj: Option<string>,
    cidadesAtendidas: Option<seq<ServedCity>>)

  /** `disponivel`. */
  predicate Disponivel(t: Transportadora)
  {
    t.ativa && !t.bloqueada
  }

  /** `cnpj_formatado`: empty without a CNPJ, else the punctuated slices. */
  function CnpjFormatado(t: Transportadora): string
  {
    if !Truthy(t.cnpj) then "" else Documents.FormatCnpj(t.cnpj.value)
  }

  /** `d.get(key, '')`. */
  function GetOrEmpty(d: map<string, string>, key: string): string
  {
    if key in d then d[key] else ""
  }

  /**
   * One entry answers the query: it is an object whose city equals `cidade`
   * ignoring case, and, when a state is given, whose state equals it too.
   */
  predicate Matches(e: ServedCity, cidade: string, estado: Option<string>)
  {
    e.CityEntry?
    && Lower(GetOrEmpty(e.fields, "cidade")) == Lower(cidade)
    && (Truthy(estado) ==> Lower(GetOrEmpty(e.fields, "estado")) == Lower(estado.value))
  }

  /** The loop of `atende_regiao`: entries in order, stopping at the first match. */
  function Scan(entries: seq<ServedCity>, cidade: string, estado: Option<string>): bool
  {
    if entries == [] then false
    else if Matches(entries[0], cidade, estado) then true
    else Scan(entries[1..], cidade, estado)
  }

  /** `atende_regiao`: false for a missing or empty list, else the scan. */
  predicate AtendeRegiao(t: Transportadora, cidade: string, estado: Option<string>)
  {
    t.cidadesAtendidas.Some? && t.cidadesAtendidas.value != [] && Scan(t.cidadesAtendidas.value, cidade, estado)
  }

  /** The scan finds a match exactly when some entry matches. */
  lemma {:induction false} ScanFindsMatch(entries: seq<ServedCity>, cidade: string, estado: Option<string>)
    ensures Scan(entries, cidade, estado) <==> exists e :: e in entries && Matches(e, cidade, estado)
  {
    if entries != [] {
      ScanFindsMatch(entries[1..], cidade, estado);
      assert entries == [entries[0]] + entries[1..];
    }
  }

  /** A carrier is available exactly when it is active and not blocked. */
  lemma Availability(t: Transportadora)
    ensures Disponivel(t) <==> t.ativa && !t.bloqueada
    ensures t.bloqueada ==> !Disponivel(t)
  {
  }

  /**
   * The formatted CNPJ is empty without a CNPJ; otherwise it keeps exactly
   * the CNPJ's digits, and 14 characters become the 18 of
   * `dd.ddd.ddd/dddd-dd`.
   */
  lemma CnpjShape(t: Transportadora)
    ensures !Truthy(t.cnpj) ==> CnpjFormatado(t) == ""
    ensures Truthy(t.cnpj) ==> KeepDigits(CnpjFormatado(t)) == KeepDigits(t.cnpj.value)
    ensures Truthy(t.cnpj) && |t.cnpj.value| == 14 ==>
      var r := CnpjFormatado(t);
      |r| == 18 && r[2] == '.' && r[6] == '.' && r[10] == '/' && r[15] == '-'
  {
    if Truthy(t.cnpj) {
      Documents.CnpjFormatKeepsDigits(t.cnpj.value);
      if |t.cnpj.value| == 14 {
        Documents.CnpjLayout(t.cnpj.value);
      }
    }
  }

  /**
   * A carrier without served cities serves nowhere. With a state given it
   * serves the city exactly when some object entry matches both city and
   * state; without one, when some object entry matches the city.
   */
  lemma RegionRules(t: Transportadora, cidade: string, estado: Option<string>)
    ensures t.cidadesAtendidas.None? || t.cidadesAtendidas == Some([]) ==> !AtendeRegiao(t, cidade, estado)
    ensures t.cidadesAtendidas.Some? && Truthy(estado) ==>
      (AtendeRegiao(t, cidade, estado) <==>
        exists e :: e in t.cidadesAtendidas.value && e.CityEntry?
          && Lower(GetOrEmpty(e.fields, "cidade")) == Lower(cidade)
          && Lower(GetOrEmpty(e.fields, "estado")) == Lower(estado.value))
    ensures t.cidadesAtendidas.Some? && !Truthy(estado) ==>
      (AtendeRegiao(t, cidade, estado) <==>
        exists e :: e in t.cidadesAtendidas.value && e.CityEntry?
          && Lower(GetOrEmpty(e.fields, "cidade")) == Lower(cidade))
  {
    if t.cidadesAtendidas.Some? {
      ScanFindsMatch(t.cidadesAtendidas.value, cidade, estado);
    }
  }

  /**
   * The answer ignores case in the query, and entries that are not objects
   * never change it: dropping them, or adding one, gives the same answer.
   */
  lemma RegionQueryInsensitive(t: Transportadora, cidade: string, otherCase: string, estado: Option<string>, extra: seq<ServedCity>)
    requires t.cidadesAtendidas.Some? && t.cidadesAtendidas.value != []
    requires Lower(otherCase) == Lower(cidade)
    requires forall e :: e in extra ==> e.OtherEntry?
    ensures AtendeRegiao(t, cidade, estado) == AtendeRegiao(t, otherCase, estado)
    ensures AtendeRegiao(t, cidade, estado) ==
      AtendeRegiao(t.(cidadesAtendidas := Some(t.cidadesAtendidas.value + extra)), cidade, estado)
  {
    var entries := t.cidadesAtendidas.value;
    ScanFindsMatch(entries, cidade, estado);
    ScanFindsMatch(entries, otherCase, estado);
    ScanFindsMatch(entries + extra, cidade, estado);
    forall e | e in entries + extra && Matches(e, cidade, estado)
      ensures e in entries
    {
    }
  }
}
