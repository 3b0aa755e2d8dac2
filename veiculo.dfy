/**
 * The read-only properties of a delivery vehicle (backend-python
 * app/models/veiculo.py): whether it can take a route, the normalised
 * licence plate, the maintenance alert and the load check.
 *
 * Weights, volumes and kilometres are exact integers; a number column that
 * is null or zero is falsy, as in Python. Instants are integers counted in
 * seconds, and the clock is the parameter `now`. A boolean column that is
 * still null reads as false.
 */
module VeiculoModel {
  import opened Wrappers
  import opened Text

  datatype VehicleStatus = Disponivel | EmRota | Manutencao | Inativo | Vendido

  datatype Veiculo = Veiculo(
    placa: Option<string>,
    status: VehicleStatus,
    ativo: bool,
    disponivel: bool,
    emManutencao: bool,
    kmAtual: Option<int>,
    kmProximaManutencao: Option<int>,
    dataProximaManutencao: Option<int>,
    capacidadePeso: int,
    capacidadeVolume: Option<int>)

  /** Python truthiness of a nullable number: set and not zero. */
  predicate NumberSet(n: Option<int>)
  {
    n.Some? && n.value != 0
  }

  const SecondsPerDay := 86400

  /** `disponivel_para_rota`. */
  predicate DisponivelParaRota(v: Veiculo)
  {
    v.ativo && v.disponivel && !v.emManutencao && v.status == Disponivel
  }

  /**
   * `precisa_manutencao`, with the clock as a parameter: with both mileages
   * set, whether at most 500 km remain; else, with a next-service date,
   * whether at most seven days remain; else false.
   */
  predicate PrecisaManutencao(v: Veiculo, now: int)
  {
    if NumberSet(v.kmProximaManutencao) && NumberSet(v.kmAtual) then
      v.kmProximaManutencao.value - v.kmAtual.value <= 500
    else if v.dataProximaManutencao.Some? then
      v.dataProximaManutencao.value - now <= 7 * SecondsPerDay
    else false
  }

  /** `placa.upper().replace("-", "").replace(" ", "")`. */
  function NormalizePlate(p: string): (r: string)
    ensures '-' !in r && ' ' !in r
    ensures |r| <= |p|
  {
    RemoveChar(RemoveChar(Upper(p), '-'), ' ')
  }

  /** The plate text as `placa_formatada` lays out an already normalised plate. */
  function LayoutPlate(n: string): string
  {
    if |n| == 7 then n else Slice(n, 0, 3) + "-" + From(n, 3)
  }

  /**
   * `placa_formatada`: empty for a missing plate; a normalised plate of
   * seven characters as it is; any other as its first three characters, a
   * dash and the rest.
   */
  function PlacaFormatada(v: Veiculo): string
  {
    if !Truthy(v.placa) then "" else LayoutPlate(NormalizePlate(v.placa.value))
  }

  /** `pode_carregar`: the weight fits, and the volume fits when both volumes are given. */
  predicate PodeCarregar(v: Veiculo, peso: int, volume: Option<int>)
  {
    !(peso > v.capacidadePeso)
    && !(NumberSet(volume) && NumberSet(v.capacidadeVolume) && volume.value > v.capacidadeVolume.value)
  }

  /** A vehicle that can take a route is active, flagged available, not in the workshop, and in the available state. */
  lemma RouteReadiness(v: Veiculo)
    ensures DisponivelParaRota(v) ==> v.status == Disponivel && !v.emManutencao
    ensures v.status != Disponivel || !v.ativo || !v.disponivel || v.emManutencao ==> !DisponivelParaRota(v)
  {
  }

  /**
   * With both mileages set the alert follows the remaining distance alone,
   * whatever the service date; a zero current mileage (the column default)
   * skips the distance rule and falls back on the date.
   */
  lemma MaintenanceByMileage(v: Veiculo, now: int)
    ensures NumberSet(v.kmProximaManutencao) && NumberSet(v.kmAtual) ==>
      (PrecisaManutencao(v, now) <==> v.kmProximaManutencao.value - v.kmAtual.value <= 500)
    ensures v.kmAtual == Some(0) ==>
      (PrecisaManutencao(v, now) <==> v.dataProximaManutencao.Some? && v.dataProximaManutencao.value - now <= 7 * SecondsPerDay)
    ensures !(NumberSet(v.kmProximaManutencao) && NumberSet(v.kmAtual)) && v.dataProximaManutencao.None? ==>
      !PrecisaManutencao(v, now)
  {
  }

  /**
   * A load is refused exactly when it is heavier than the capacity, or when
   * both volumes are given and it is bulkier; a lighter load of the same
   * volume is accepted whenever a heavier one is.
   */
  lemma LoadCheck(v: Veiculo, peso: int, volume: Option<int>, lighter: int)
    ensures !PodeCarregar(v, peso, volume) <==>
      peso > v.capacidadePeso
      || (volume.Some? && volume.value != 0 && v.capacidadeVolume.Some? && v.capacidadeVolume.value != 0
          && volume.value > v.capacidadeVolume.value)
    ensures PodeCarregar(v, peso, volume) && lighter <= peso ==> PodeCarregar(v, lighter, volume)
    ensures peso <= v.capacidadePeso && (volume.None? || volume == Some(0)) ==> PodeCarregar(v, peso, volume)
  {
  }

  // ---------------------------------------------------------------------------
  // Plate normalisation
  // ---------------------------------------------------------------------------

  lemma {:induction false} RemoveCharConcat(a: string, b: string, c: char)
    ensures RemoveChar(a + b, c) == RemoveChar(a, c) + RemoveChar(b, c)
  {
    if a == [] {
      assert a + b == b;
    } else {
      assert (a + b)[0] == a[0];
      assert (a + b)[1..] == a[1..] + b;
      RemoveCharConcat(a[1..], b, c);
    }
  }

  lemma {:induction false} RemoveAbsentChar(s: string, c: char)
    requires c !in s
    ensures RemoveChar(s, c) == s
  {
    if s != [] {
      RemoveAbsentChar(s[1..], c);
      assert [s[0]] + s[1..] == s;
    }
  }

  /** Every character is already upper case. */
  predicate UpperStable(s: string)
  {
    forall x :: x in s ==> UpperChar(x) == x
  }

  lemma UpperOfStable(s: string)
    requires UpperStable(s)
    ensures Upper(s) == s
  {
    forall i | 0 <= i < |s|
      ensures Upper(s)[i] == s[i]
    {
      assert s[i] in s;
    }
  }

  lemma NormalizedIsStable(p: string)
    ensures UpperStable(NormalizePlate(p))
  {
    var u := Upper(p);
    forall x | x in u
      ensures UpperChar(x) == x
    {
      var i :| 0 <= i < |u| && u[i] == x;
      assert x == UpperChar(p[i]);
    }
    var r1 := RemoveChar(u, '-');
    forall x | x in NormalizePlate(p)
      ensures x in u
    {
      assert x != ' ' && x in r1;
      assert x != '-';
    }
  }

  /** A dash typed between two already normalised parts is dropped. */
  lemma DashDropped(a: string, b: string)
    requires '-' !in a && ' ' !in a && UpperStable(a)
    requires '-' !in b && ' ' !in b && UpperStable(b)
    ensures NormalizePlate(a + "-" + b) == a + b
  {
    var laid := a + "-" + b;
    assert UpperStable(laid) by {
      forall x | x in laid
        ensures UpperChar(x) == x
      {
        assert x in a || x == '-' || x in b;
      }
    }
    UpperOfStable(laid);
    RemoveCharConcat(a + "-", b, '-');
    RemoveCharConcat(a, "-", '-');
    RemoveAbsentChar(a, '-');
    RemoveAbsentChar(b, '-');
    assert RemoveChar("-", '-') == "";
    assert RemoveChar(a + "-", '-') == a;
    assert RemoveChar(laid, '-') == a + b;
    RemoveAbsentChar(a + b, ' ');
  }

  /** A normalised plate laid out by `placa_formatada` normalises back to itself. */
  lemma LayoutNormalizesBack(n: string)
    requires '-' !in n && ' ' !in n && UpperStable(n)
    ensures NormalizePlate(LayoutPlate(n)) == n
  {
    if |n| == 7 {
      UpperOfStable(n);
      RemoveAbsentChar(n, '-');
      RemoveAbsentChar(n, ' ');
    } else {
      var a, b := Slice(n, 0, 3), From(n, 3);
      assert a + b == n && (forall x :: x in a || x in b ==> x in n) by {
        if |n| >= 3 {
          assert a == n[..3] && b == n[3..];
        } else {
          assert a == n && b == [];
        }
      }
      DashDropped(a, b);
    }
  }

  /**
   * Formatting a plate is idempotent: the formatted plate normalises to the
   * same characters, and formatting it again changes nothing.
   */
  lemma PlateFormatIdempotent(v: Veiculo)
    requires Truthy(v.placa)
    ensures NormalizePlate(PlacaFormatada(v)) == NormalizePlate(v.placa.value)
    ensures PlacaFormatada(v) != "" ==> PlacaFormatada(v.(placa := Some(PlacaFormatada(v)))) == PlacaFormatada(v)
  {
    var n := NormalizePlate(v.placa.value);
    NormalizedIsStable(v.placa.value);
    LayoutNormalizesBack(n);
  }

  /**
   * Seven normalised characters are kept without a dash, so an old-style
   * plate typed with its dash loses it; other lengths get a dash after the
   * third character.
   */
  lemma PlateLayouts(v: Veiculo)
    requires Truthy(v.placa)
    ensures var n := NormalizePlate(v.placa.value);
      (|n| == 7 ==> PlacaFormatada(v) == n && '-' !in PlacaFormatada(v))
      && (|n| != 7 && |n| >= 3 ==> PlacaFormatada(v) == n[..3] + "-" + n[3..] && |PlacaFormatada(v)| == |n| + 1)
  {
  }

  /** The old-style plate "ABC-1234" is shown as "ABC1234". */
  lemma OldPlateLosesDash(v: Veiculo)
    requires v.placa == Some("ABC-1234")
    ensures PlacaFormatada(v) == "ABC1234"
  {
    assert "ABC-1234" == "ABC" + "-" + "1234";
    DashDropped("ABC", "1234");
  }
}
