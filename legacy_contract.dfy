/**
 * The contract document of the Node/Mongo backend
 * (backend/models/Contract.model.js): the pre-save hook that numbers a new
 * contract `<year><month><sequence>`, counts its rental days and extra days
 * and recomputes its balance, and the overdue and late-fee methods.
 *
 * Dates are instants in milliseconds; the clock, the current year and month
 * and the numbers already stored are parameters. Money is exact integers.
 */
module LegacyContract {
  import opened Wrappers
  import opened Text
  import opened ContractNumbers

  type Millis = int

  /** `1000 * 60 * 60 * 24`. */
  const MsPerDay: nat := 86400000

  /** `Math.ceil(a / b)` for a positive divisor. */
  function CeilDiv(a: int, b: nat): int
    requires b > 0
  {
    -((-a) / b)
  }

  /** The rounded-up quotient is the least `r` with `r * b >= a`. */
  lemma CeilDivBounds(a: int, b: nat)
    requires b > 0
    ensures a <= CeilDiv(a, b) * b && (CeilDiv(a, b) - 1) * b < a
  {
    var q := (-a) / b;
    var m := (-a) % b;
    assert -a == q * b + m && 0 <= m < b;
    assert CeilDiv(a, b) == -q;
    assert -q * b == -(q * b);
    assert (-q - 1) * b == -(q * b) - b;
  }

  /** An exact multiple of `b` divides without rounding. */
  lemma CeilDivExact(k: int, b: nat)
    requires b > 0
    ensures CeilDiv(k * b, b) == k
  {
    CeilDivBounds(k * b, b);
    var r := CeilDiv(k * b, b);
    MulLtCancel(r - 1, k, b);
    assert (r + 1) * b == r * b + b;
    MulLtCancel(k, r + 1, b);
  }

  lemma MulLeq(x: int, y: int, b: nat)
    requires x <= y
    ensures x * b <= y * b
  {
    assert y * b - x * b == (y - x) * b;
  }

  lemma MulLtCancel(x: int, y: int, b: nat)
    requires b > 0 && x * b < y * b
    ensures x < y
  {
    assert y * b - x * b == (y - x) * b;
  }

  /** `Math.ceil((end - start) / day)`: whole days from start to end, rounded up. */
  function DayCount(start: Millis, end: Millis): int
  {
    CeilDiv(end - start, MsPerDay)
  }

  /**
   * The count is exclusive: a contract from midnight of one day to midnight
   * `k` days later is `k` days long, where the inclusive count of the Python
   * backend gives `k + 1`.
   */
  lemma ExclusiveDayCount(start: Millis, k: int)
    ensures DayCount(start, start + k * MsPerDay) == k
  {
    CeilDivExact(k, MsPerDay);
  }

  /** Any part of a day counts as a whole day. */
  lemma DayCountRoundsUp(start: Millis, end: Millis)
    ensures var d := DayCount(start, end); (d - 1) * MsPerDay < end - start <= d * MsPerDay
    ensures end > start ==> DayCount(start, end) >= 1
    ensures end <= start ==> DayCount(start, end) <= 0
  {
    CeilDivBounds(end - start, MsPerDay);
    var d := DayCount(start, end);
    if end > start && d < 1 {
      MulLeq(d, 0, MsPerDay);
    }
    if end <= start && d > 0 {
      MulLeq(1, d - 1 + 1, MsPerDay);
      MulLeq(0, d - 1, MsPerDay);
    }
  }

  // ---------------------------------------------------------------------------
  // Contract numbers
  // ---------------------------------------------------------------------------

  /** `s.slice(-4)`: the last four characters, or the whole string when shorter. */
  function LastFour(s: string): (r: string)
    ensures |r| == Min(4, |s|) && r == s[|s| - |r|..]
  {
    if |s| <= 4 then s else s[|s| - 4..]
  }

  /** The longest run of digits at the start of `s`. */
  function LeadingDigits(s: string): (r: string)
    ensures AllDigits(r) && HasPrefix(r, s)
    ensures |r| < |s| ==> !IsDigit(s[|r|])
  {
    if s == [] || !IsDigit(s[0]) then [] else [s[0]] + LeadingDigits(s[1..])
  }

  /**
   * `parseInt(s)` for decimal text: an optional sign and the digits that
   * follow it, up to the first other character; `None` is `NaN`.
   */
  function ParseIntPrefix(s: string): Option<int>
  {
    var signed := s != [] && (s[0] == '-' || s[0] == '+');
    var digits := LeadingDigits(if signed then s[1..] else s);
    var magnitude: int := DigitsValue(digits);
    var value := if signed && s[0] == '-' then 0 - magnitude else magnitude;
    if digits == [] then None else Some(value)
  }

  lemma ParseIntOfDigits(s: string)
    requires s != [] && AllDigits(s)
    ensures ParseIntPrefix(s) == Some(DigitsValue(s))
  {
    assert LeadingDigits(s) == s by { LeadingDigitsOfDigits(s); }
  }

  lemma {:induction false} LeadingDigitsOfDigits(s: string)
    requires AllDigits(s)
    ensures LeadingDigits(s) == s
  {
    if s != [] {
      LeadingDigitsOfDigits(s[1..]);
    }
  }

  /** `String(n)` for a whole number. */
  function IntToString(n: int): string
  {
    if n < 0 then "-" + NatToString(-n) else NatToString(n)
  }

  /** `String(sequence).padStart(4, '0')`, where a `NaN` sequence renders as `NaN`. */
  function SequenceText(sequence: Option<int>): string
  {
    PadLeft(if sequence.None? then "NaN" else IntToString(sequence.value), 4, '0')
  }

  /** `${year}${month}` with the month padded to two digits. */
  function MonthPrefix(year: nat, month: nat): (p: string)
    ensures |p| >= 3 && AllDigits(p)
  {
    NatToString(year) + PadLeft(NatToString(month), 2, '0')
  }

  /**
   * A month from 1 to 12 takes exactly two digits after the year's digits,
   * and they read back as the month.
   */
  lemma MonthPrefixShape(year: nat, month: nat)
    requires 1 <= month <= 12
    ensures var y := NatToString(year);
      var p := MonthPrefix(year, month);
      |p| == |y| + 2 && p[..|y|] == y && AllDigits(p[|y|..]) && DigitsValue(p[|y|..]) == month
  {
    var y := NatToString(year);
    var m := PadLeft(NatToString(month), 2, '0');
    assert m == ZeroPad(month, 2);
    assert Pow10(2) == 100;
    ZeroPadWidth(month, 2);
    assert MonthPrefix(year, month)[|y|..] == m;
  }

  /**
   * The number the hook gives a new contract: the greatest stored number
   * starting with the month prefix, in string order, its last four
   * characters read as a number plus one, or 1 when the month has none.
   */
  function NextLegacyNumber(existing: seq<string>, year: nat, month: nat): string
  {
    var prefix := MonthPrefix(year, month);
    var sequence :=
      match LastWithPrefix(existing, prefix)
      case None => Some(1)
      case Some(last) =>
        match ParseIntPrefix(LastFour(last))
        case None => None
        case Some(n) => Some(n + 1);
    prefix + SequenceText(sequence)
  }

  lemma SequenceTextOfNat(n: nat)
    ensures SequenceText(Some(n)) == ZeroPad(n, 4)
  {
  }

  /** The first contract of a month is numbered `0001`. */
  lemma FirstOfTheMonth(existing: seq<string>, year: nat, month: nat)
    requires forall i :: 0 <= i < |existing| ==> !HasPrefix(MonthPrefix(year, month), existing[i])
    ensures NextLegacyNumber(existing, year, month) == MonthPrefix(year, month) + "0001"
  {
    SequentialOne();
  }

  /**
   * While every number of the month is the prefix and four digits, the next
   * number is new and its sequence is greater than every sequence of the
   * month.
   */
  lemma LegacyNumberIsFresh(existing: seq<string>, year: nat, month: nat)
    requires forall i :: 0 <= i < |existing| && HasPrefix(MonthPrefix(year, month), existing[i]) ==>
      FourDigitNumber(MonthPrefix(year, month), existing[i])
    ensures NextLegacyNumber(existing, year, month) !in existing
    ensures var r := NextLegacyNumber(existing, year, month);
      HasPrefix(MonthPrefix(year, month), r) && AllDigits(r[|MonthPrefix(year, month)|..])
      && forall i :: 0 <= i < |existing| && HasPrefix(MonthPrefix(year, month), existing[i]) ==>
        FourDigitNumber(MonthPrefix(year, month), existing[i]) &&
        DigitsValue(existing[i][|MonthPrefix(year, month)|..]) < DigitsValue(r[|MonthPrefix(year, month)|..])
  {
    var prefix := MonthPrefix(year, month);
    var last := LastWithPrefix(existing, prefix);
    var next: nat;
    if last.Some? {
      var l := last.value;
      var i0 :| 0 <= i0 < |existing| && existing[i0] == l;
      assert FourDigitNumber(prefix, existing[i0]);
      var dl := l[|prefix|..];
      assert LastFour(l) == dl;
      ParseIntOfDigits(dl);
      next := DigitsValue(dl) + 1;
      LastWithPrefixIsGreatest(existing, prefix);
      forall i | 0 <= i < |existing| && HasPrefix(prefix, existing[i])
        ensures DigitsValue(existing[i][|prefix|..]) < next
      {
        SuffixOrder(prefix, l, existing[i]);
      }
    } else {
      next := 1;
    }
    SequenceTextOfNat(next);
    var r := prefix + ZeroPad(next, 4);
    assert NextLegacyNumber(existing, year, month) == r;
    PrefixOfConcat(prefix, ZeroPad(next, 4));
    assert DigitsValue(r[|prefix|..]) == next;
  }

  /**
   * After `9999` the sequence grows to five digits, which sort before
   * `9999`, and the last four characters of `9999` give `10000` again: the
   * hook hands out a number that is already stored.
   */
  lemma LegacyDuplicateAfter9999(year: nat, month: nat)
    ensures var prefix := MonthPrefix(year, month);
      var existing := [prefix + "9999", prefix + "10000"];
      NextLegacyNumber(existing, year, month) == prefix + "10000"
      && NextLegacyNumber(existing, year, month) in existing
  {
    var prefix := MonthPrefix(year, month);
    var a, b := prefix + "9999", prefix + "10000";
    PrefixOfConcat(prefix, "9999");
    PrefixOfConcat(prefix, "10000");
    assert LexLess("10000", "9999");
    LexLessCommonPrefix(prefix, "10000", "9999");
    assert LastWithPrefix([b], prefix) == Some(b) by {
      assert [b][1..] == [];
    }
    assert [a, b][1..] == [b];
    assert LastWithPrefix([a, b], prefix) == Some(a);
    assert LastFour(a) == "9999";
    assert DigitsValue("9999") == 9999 by {
      assert DigitsValue("9") == 9;
      assert DigitsValue("99") == 99;
      assert DigitsValue("999") == 999;
    }
    ParseIntOfDigits("9999");
    SequenceTextOfNat(10000);
    SequentialTenThousand();
  }

  // ---------------------------------------------------------------------------
  // The document
  // ---------------------------------------------------------------------------

  datatype LegacyStatus = Quotation | Pending | Approved | Active | Completed | Cancelled | Overdue

  /** What the hook leaves in `extraDays`: the days past the planned end when the return was late, else the old value. */
  function ExtraDaysAfter(previous: int, planned: Option<Millis>, actual: Option<Millis>): int
  {
    if actual.Some? && planned.Some? && DayCount(planned.value, actual.value) > 0
    then DayCount(planned.value, actual.value)
    else previous
  }

  /** Extra days are overwritten exactly when the actual end is after the planned end. */
  lemma ExtraDaysOnlyWhenLate(previous: int, planned: Option<Millis>, actual: Option<Millis>)
    ensures ExtraDaysAfter(previous, planned, actual)
      == if actual.Some? && planned.Some? && actual.value > planned.value
         then DayCount(planned.value, actual.value) else previous
    ensures actual.Some? && planned.Some? && actual.value > planned.value ==>
      ExtraDaysAfter(previous, planned, actual) >= 1
  {
    if actual.Some? && planned.Some? {
      DayCountRoundsUp(planned.value, actual.value);
    }
  }

  class LegacyContractDoc {
    var contractNumber: string
    var status: LegacyStatus
    var startDate: Option<Millis>
    var endDate: Option<Millis>
    var actualEndDate: Option<Millis>
    var rentalDays: Option<int>
    var extraDays: int
    var total: int
    var totalPaid: int
    var balance: int

    /** A new document with the schema defaults: no number yet, a quotation, nothing paid. */
    constructor(startDate: Option<Millis>, endDate: Option<Millis>, total: int)
      ensures this.contractNumber == "" && this.status == Quotation
      ensures this.startDate == startDate && this.endDate == endDate && this.actualEndDate.None?
      ensures this.rentalDays.None? && this.extraDays == 0
      ensures this.total == total && this.totalPaid == 0 && this.balance == 0
    {
      this.contractNumber := "";
      this.status := Quotation;
      this.startDate := startDate;
      this.endDate := endDate;
      this.actualEndDate := None;
      this.rentalDays := None;
      this.extraDays := 0;
      this.total := total;
      this.totalPaid := 0;
      this.balance := 0;
    }

    /**
     * The pre-save hook: a number only when there is none, the rental days
     * when both dates are set, the extra days only after a late return, and
     * the balance always.
     */
    method PreSave(existing: seq<string>, year: nat, month: nat)
      modifies this
      ensures contractNumber == if old(contractNumber) == "" then NextLegacyNumber(existing, year, month)
                                else old(contractNumber)
      ensures rentalDays == if startDate.Some? && endDate.Some? then Some(DayCount(startDate.value, endDate.value))
                            else old(rentalDays)
      ensures extraDays == ExtraDaysAfter(old(extraDays), endDate, actualEndDate)
      ensures balance == total - totalPaid
      ensures status == old(status) && startDate == old(startDate) && endDate == old(endDate)
      ensures actualEndDate == old(actualEndDate) && total == old(total) && totalPaid == old(totalPaid)
    {
      if contractNumber == "" {
        contractNumber := NextLegacyNumber(existing, year, month);
      }
      if startDate.Some? && endDate.Some? {
        rentalDays := Some(DayCount(startDate.value, endDate.value));
      }
      if actualEndDate.Some? && endDate.Some? {
        var extra := DayCount(endDate.value, actualEndDate.value);
        if extra > 0 {
          extraDays := extra;
        }
      }
      balance := total - totalPaid;
    }

    /** `isOverdue()`: an active contract whose end has passed. */
    predicate IsOverdue(now: Millis)
      reads this
    {
      status == Active && endDate.Some? && now > endDate.value
    }

    /** `calculateLateFee(lateFeePerDay)`: every started day past the end, at the daily fee. */
    function CalculateLateFee(now: Millis, lateFeePerDay: int): int
      reads this
    {
      if !IsOverdue(now) then 0 else DayCount(endDate.value, now) * lateFeePerDay
    }
  }

  /**
   * A late fee is charged only on an overdue contract, for at least one
   * day, and for exactly the started days since the end.
   */
  lemma LateFeeOnlyWhenOverdue(c: LegacyContractDoc, now: Millis, fee: int)
    ensures !c.IsOverdue(now) ==> c.CalculateLateFee(now, fee) == 0
    ensures c.IsOverdue(now) ==>
      var d := DayCount(c.endDate.value, now);
      d >= 1 && (d - 1) * MsPerDay < now - c.endDate.value <= d * MsPerDay
      && c.CalculateLateFee(now, fee) == d * fee
    ensures c.IsOverdue(now) && fee > 0 ==> c.CalculateLateFee(now, fee) >= fee
  {
    if c.IsOverdue(now) {
      var d := DayCount(c.endDate.value, now);
      DayCountRoundsUp(c.endDate.value, now);
      if fee > 0 {
        MulLeq(1, d, fee);
        assert d * fee == fee * d;
      }
    }
  }
}
