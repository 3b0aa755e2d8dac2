/**
 * `generate_contract_number` of the contracts router
 * (backend-python app/api/v1/contracts.py): `CON-<year>-` followed by one
 * more than the number of the greatest existing contract number of that
 * year, zero-padded to four digits.
 *
 * The query looks at every stored number, soft-deleted ones included, and
 * orders them as strings; the current year is a parameter.
 */
module ContractNumbers {
  import opened Wrappers
  import opened Text

  /** `f"CON-{year}-"`. */
  function NumberPrefix(year: nat): (p: string)
    ensures |p| >= 6 && p[..4] == "CON-" && p[|p| - 1] == '-'
    ensures AllDigits(p[4..|p| - 1]) && DigitsValue(p[4..|p| - 1]) == year
  {
    var y := NatToString(year);
    var p := "CON-" + y + "-";
    assert p[4..|p| - 1] == y;
    p
  }

  /**
   * The first row of `contract_number LIKE 'prefix%' ORDER BY contract_number
   * DESC`: a number with the prefix that no other such number follows in
   * string order, or none when no number has the prefix.
   */
  function LastWithPrefix(numbers: seq<string>, prefix: string): (r: Option<string>)
    ensures r.None? <==> forall i :: 0 <= i < |numbers| ==> !HasPrefix(prefix, numbers[i])
    ensures r.Some? ==> r.value in numbers && HasPrefix(prefix, r.value)
  {
    if numbers == [] then None
    else
      var rest := LastWithPrefix(numbers[1..], prefix);
      if !HasPrefix(prefix, numbers[0]) then rest
      else if rest.None? || LexLess(rest.value, numbers[0]) then Some(numbers[0])
      else rest
  }

  /** The number found is the greatest of the year in string order. */
  lemma {:induction false} LastWithPrefixIsGreatest(numbers: seq<string>, prefix: string)
    requires LastWithPrefix(numbers, prefix).Some?
    ensures forall i :: 0 <= i < |numbers| && HasPrefix(prefix, numbers[i]) ==>
      !LexLess(LastWithPrefix(numbers, prefix).value, numbers[i])
  {
    var r := LastWithPrefix(numbers, prefix).value;
    var rest := LastWithPrefix(numbers[1..], prefix);
    if rest.Some? {
      LastWithPrefixIsGreatest(numbers[1..], prefix);
    }
    forall i | 0 <= i < |numbers| && HasPrefix(prefix, numbers[i])
      ensures !LexLess(r, numbers[i])
    {
      if i == 0 {
        if r == numbers[0] {
          LexLessIrreflexive(r);
        }
      } else {
        assert numbers[i] == numbers[1..][i - 1];
        if r != rest.value && LexLess(r, numbers[i]) {
          LexLessTransitive(rest.value, r, numbers[i]);
        }
      }
    }
  }

  datatype NumberError = InvalidLiteral(segment: string)

  /**
   * `int(s)` for the strings the model accepts: a non-empty run of ASCII
   * digits; anything else raises `ValueError`.
   */
  function ParseInt(s: string): (r: Result<nat, NumberError>)
    ensures r.Ok? <==> s != [] && AllDigits(s)
    ensures r.Ok? ==> r.value == DigitsValue(s)
  {
    if s != [] && AllDigits(s) then Ok(DigitsValue(s)) else Err(InvalidLiteral(s))
  }

  /** The four-digit suffix of a generated number. */
  function Sequential(n: nat): string { ZeroPad(n, 4) }

  /** `generate_contract_number`, given every stored number and the current year. */
  function GenerateContractNumber(existing: seq<string>, year: nat): (r: Result<string, NumberError>)
    ensures r.Ok? ==> HasPrefix(NumberPrefix(year), r.value)
    ensures r.Ok? ==> var suffix := r.value[|NumberPrefix(year)|..];
      AllDigits(suffix) && |suffix| >= 4 && DigitsValue(suffix) >= 1
  {
    var prefix := NumberPrefix(year);
    match LastWithPrefix(existing, prefix)
    case None => Ok(prefix + Sequential(1))
    case Some(last) =>
      match ParseInt(LastSegment(last, '-'))
      case Ok(n) => Ok(prefix + Sequential(n + 1))
      case Err(e) => Err(e)
  }

  lemma SequentialOne()
    ensures Sequential(1) == "0001"
  {
    assert NatToString(1) == "1";
    assert Repeat('0', 3) == "000";
  }

  lemma SequentialTenThousand()
    ensures Sequential(10000) == "10000"
  {
    assert NatToString(1) == "1";
    assert NatToString(10) == "10";
    assert NatToString(100) == "100";
    assert NatToString(1000) == "1000";
    assert NatToString(10000) == "10000";
  }

  lemma PrefixSplit(prefix: string, n: string)
    requires HasPrefix(prefix, n)
    ensures n == prefix + n[|prefix|..]
  {
  }

  lemma PrefixOfConcat(prefix: string, x: string)
    ensures HasPrefix(prefix, prefix + x) && (prefix + x)[|prefix|..] == x
  {
    assert (prefix + x)[..|prefix|] == prefix;
  }

  /** Once the greatest number of the year is known, the next one follows from its digits. */
  lemma GenerateFromLast(existing: seq<string>, year: nat, digits: string)
    requires LastWithPrefix(existing, NumberPrefix(year)) == Some(NumberPrefix(year) + digits)
    requires digits != [] && AllDigits(digits)
    ensures GenerateContractNumber(existing, year) == Ok(NumberPrefix(year) + Sequential(DigitsValue(digits) + 1))
  {
    assert forall k :: 0 <= k < |digits| ==> digits[k] != '-';
    LastSegmentAfter(NumberPrefix(year), digits, '-');
  }

  /** Among four-digit numbers of one prefix, string order is numeric order. */
  lemma SuffixOrder(prefix: string, l: string, n: string)
    requires HasPrefix(prefix, l) && HasPrefix(prefix, n)
    requires FourDigitNumber(prefix, l) && FourDigitNumber(prefix, n)
    requires !LexLess(l, n)
    ensures DigitsValue(n[|prefix|..]) <= DigitsValue(l[|prefix|..])
  {
    var dl, dn := l[|prefix|..], n[|prefix|..];
    PrefixSplit(prefix, l);
    PrefixSplit(prefix, n);
    LexLessCommonPrefix(prefix, dl, dn);
    LexLessDigits(dn, dl);
  }

  /** The first contract of a year is numbered `0001`. */
  lemma FirstOfTheYear(existing: seq<string>, year: nat)
    requires forall i :: 0 <= i < |existing| ==> !HasPrefix(NumberPrefix(year), existing[i])
    ensures GenerateContractNumber(existing, year) == Ok(NumberPrefix(year) + "0001")
  {
    SequentialOne();
  }

  /** A stored number of the year with exactly four digits after the prefix. */
  predicate FourDigitNumber(prefix: string, n: string)
  {
    |n| == |prefix| + 4 && AllDigits(n[|prefix|..])
  }

  /**
   * While every number of the year has a four-digit suffix, the generated
   * number is new, and its suffix is greater than every suffix of the year.
   */
  lemma NewNumberIsFresh(existing: seq<string>, year: nat)
    requires forall i :: 0 <= i < |existing| && HasPrefix(NumberPrefix(year), existing[i]) ==>
      FourDigitNumber(NumberPrefix(year), existing[i])
    ensures GenerateContractNumber(existing, year).Ok?
    ensures GenerateContractNumber(existing, year).value !in existing
    ensures forall i :: 0 <= i < |existing| && HasPrefix(NumberPrefix(year), existing[i]) ==>
      FourDigitNumber(NumberPrefix(year), existing[i])
      && DigitsValue(existing[i][|NumberPrefix(year)|..])
         < DigitsValue(GenerateContractNumber(existing, year).value[|NumberPrefix(year)|..])
  {
    var prefix := NumberPrefix(year);
    var last := LastWithPrefix(existing, prefix);
    var next: nat;
    if last.Some? {
      var l := last.value;
      var i0 :| 0 <= i0 < |existing| && existing[i0] == l;
      assert FourDigitNumber(prefix, existing[i0]);
      var dl := l[|prefix|..];
      PrefixSplit(prefix, l);
      GenerateFromLast(existing, year, dl);
      next := DigitsValue(dl) + 1;
      LastWithPrefixIsGreatest(existing, prefix);
      forall i | 0 <= i < |existing| && HasPrefix(prefix, existing[i])
        ensures DigitsValue(existing[i][|prefix|..]) < next
      {
        SuffixOrder(prefix, l, existing[i]);
      }
    } else {
      next := 1;
    }
    var r := prefix + Sequential(next);
    assert GenerateContractNumber(existing, year) == Ok(r);
    PrefixOfConcat(prefix, Sequential(next));
    assert DigitsValue(r[|prefix|..]) == next;
  }

  /**
   * After `9999` the suffix grows to five digits, which sort before
   * `9999`, so `9999` stays the greatest in string order and the
   * generator hands out the five-digit number again.
   */
  lemma DuplicateAfter9999(year: nat)
    ensures var existing := [NumberPrefix(year) + "9999", NumberPrefix(year) + "10000"];
      GenerateContractNumber(existing, year) == Ok(NumberPrefix(year) + "10000")
      && GenerateContractNumber(existing, year).value in existing
  {
    var prefix := NumberPrefix(year);
    var a, b := prefix + "9999", prefix + "10000";
    PrefixOfConcat(prefix, "9999");
    PrefixOfConcat(prefix, "10000");
    assert LexLess("10000", "9999");
    LexLessCommonPrefix(prefix, "10000", "9999");
    assert LastWithPrefix([b], prefix) == Some(b) by {
      assert [b][1..] == [];
    }
    assert [a, b][1..] == [b];
    assert LastWithPrefix([a, b], prefix) == Some(a);
    assert DigitsValue("9999") == 9999 by {
      assert DigitsValue("9") == 9;
      assert DigitsValue("99") == 99;
      assert DigitsValue("999") == 999;
    }
    GenerateFromLast([a, b], year, "9999");
    SequentialTenThousand();
  }
}
