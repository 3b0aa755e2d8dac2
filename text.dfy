/**
 * String helpers with Python's semantics, shared by the formatters and
 * validators: `str.join`, clamped slicing `s[i:j]`, `str.split(sep)`,
 * `str.strip()`, ASCII `upper`/`lower`, `re.sub(r'\D', '', s)`, decimal
 * rendering with zero padding (`f"{n:04d}"`) and `int()` of a digit string.
 */
module Text {

  // ---------------------------------------------------------------------------
  // Digits and decimal numbers
  // ---------------------------------------------------------------------------

  predicate IsDigit(c: char) { '0' <= c <= '9' }

  predicate AllDigits(s: string) { forall i :: 0 <= i < |s| ==> IsDigit(s[i]) }

  function DigitValue(c: char): nat requires IsDigit(c) { c as int - '0' as int }

  function DigitChar(d: nat): (c: char)
    requires d < 10
    ensures IsDigit(c) && DigitValue(c) == d
  {
    ('0' as int + d) as char
  }

  function Pow10(k: nat): (p: nat)
    ensures p >= 1
  {
    if k == 0 then 1 else 10 * Pow10(k - 1)
  }

  /** `int(s)` for a string of decimal digits, most significant digit first. */
  function DigitsValue(s: string): nat
    requires AllDigits(s)
  {
    if s == [] then 0 else DigitValue(s[0]) * Pow10(|s| - 1) + DigitsValue(s[1..])
  }

  lemma {:induction false} DigitsValueBound(s: string)
    requires AllDigits(s)
    ensures DigitsValue(s) < Pow10(|s|)
  {
    if s != [] {
      DigitsValueBound(s[1..]);
      var d := DigitValue(s[0]);
      var p := Pow10(|s| - 1);
      MulMonotone(d, 9, p);
      assert DigitsValue(s) == d * p + DigitsValue(s[1..]);
      assert Pow10(|s|) == 10 * p;
    }
  }

  /** `c * k`: the character `c` repeated `k` times. */
  function Repeat(c: char, k: nat): (r: string)
    ensures |r| == k && forall i :: 0 <= i < k ==> r[i] == c
  {
    if k == 0 then [] else [c] + Repeat(c, k - 1)
  }

  /** Appending a digit multiplies the value by ten and adds the digit. */
  lemma {:induction false} DigitsValueSnoc(s: string, c: char)
    requires AllDigits(s) && IsDigit(c)
    ensures AllDigits(s + [c])
    ensures DigitsValue(s + [c]) == 10 * DigitsValue(s) + DigitValue(c)
  {
    if s != [] {
      var sc := s + [c];
      assert sc[0] == s[0] && sc[1..] == s[1..] + [c];
      DigitsValueSnoc(s[1..], c);
      var d := DigitValue(s[0]);
      var p := Pow10(|s| - 1);
      var v := DigitsValue(s[1..]);
      assert Pow10(|sc| - 1) == 10 * p;
      assert DigitsValue(sc) == d * (10 * p) + (10 * v + DigitValue(c));
      assert d * (10 * p) == 10 * (d * p);
    }
  }

  /** Leading zeros do not change the value of a digit string. */
  lemma {:induction false} DigitsValueLeadingZeros(k: nat, s: string)
    requires AllDigits(s)
    ensures AllDigits(Repeat('0', k) + s)
    ensures DigitsValue(Repeat('0', k) + s) == DigitsValue(s)
  {
    if k > 0 {
      var z := Repeat('0', k);
      var z' := Repeat('0', k - 1);
      DigitsValueLeadingZeros(k - 1, s);
      assert (z + s)[0] == '0' && DigitValue('0') == 0;
      assert (z + s)[1..] == z' + s;
      assert AllDigits(z + s) by {
        forall i | 0 <= i < |z + s| ensures IsDigit((z + s)[i]) {
          if i >= k { assert (z + s)[i] == s[i - k]; }
        }
      }
      assert DigitsValue(z + s) == 0 * Pow10(|z + s| - 1) + DigitsValue(z' + s);
      assert DigitsValue(z + s) == DigitsValue(z' + s) == DigitsValue(s);
    } else {
      assert Repeat('0', k) + s == s;
    }
  }

  /** The decimal rendering of a natural number, as `str(n)` gives it. */
  function NatToString(n: nat): (r: string)
    ensures |r| >= 1 && AllDigits(r)
    ensures DigitsValue(r) == n
    ensures |r| > 1 ==> r[0] != '0'
    decreases n
  {
    if n < 10 then
      [DigitChar(n)]
    else
      var prefix := NatToString(n / 10);
      DigitsValueSnoc(prefix, DigitChar(n % 10));
      prefix + [DigitChar(n % 10)]
  }

  lemma {:induction false} NatToStringLength(n: nat, k: nat)
    requires n < Pow10(k) && k >= 1
    ensures |NatToString(n)| <= k
    decreases n
  {
    if n >= 10 {
      assert Pow10(1) == 10;
      assert k >= 2;
      assert n < 10 * Pow10(k - 1);
      NatToStringLength(n / 10, k - 1);
    }
  }

  /** `s.rjust(width, c)`: left-padding with `c` up to `width` characters. */
  function PadLeft(s: string, width: nat, c: char): (r: string)
    ensures |r| == if |s| >= width then |s| else width
    ensures r[|r| - |s|..] == s
    ensures forall i :: 0 <= i < |r| - |s| ==> r[i] == c
  {
    if |s| >= width then s else Repeat(c, width - |s|) + s
  }

  /** `f"{n:0{width}d}"`: the decimal digits of `n`, zero-padded on the left to `width`. */
  function ZeroPad(n: nat, width: nat): (r: string)
    ensures AllDigits(r) && DigitsValue(r) == n
    ensures |r| >= width
  {
    var s := NatToString(n);
    if |s| >= width then s
    else
      DigitsValueLeadingZeros(width - |s|, s);
      PadLeft(s, width, '0')
  }

  lemma ZeroPadWidth(n: nat, width: nat)
    requires width >= 1 && n < Pow10(width)
    ensures |ZeroPad(n, width)| == width
  {
    NatToStringLength(n, width);
  }

  /** Python's `re.sub(r'\D', '', s)`: keeps only the decimal digits, in order. */
  function KeepDigits(s: string): (r: string)
    ensures AllDigits(r)
    ensures |r| <= |s|
    ensures forall c :: c in r <==> c in s && IsDigit(c)
  {
    if s == [] then []
    else if IsDigit(s[0]) then [s[0]] + KeepDigits(s[1..])
    else KeepDigits(s[1..])
  }

  lemma {:induction false} KeepDigitsOfDigits(s: string)
    requires AllDigits(s)
    ensures KeepDigits(s) == s
  {
    if s != [] { KeepDigitsOfDigits(s[1..]); }
  }

  // ---------------------------------------------------------------------------
  // Comparison, case, slicing
  // ---------------------------------------------------------------------------

  /** Code-point lexicographic order, as Python compares `str` values. */
  predicate LexLess(a: string, b: string)
  {
    if a == [] then b != []
    else if b == [] then false
    else a[0] < b[0] || (a[0] == b[0] && LexLess(a[1..], b[1..]))
  }

  lemma {:induction false} LexLessIrreflexive(a: string)
    ensures !LexLess(a, a)
  {
    if a != [] { LexLessIrreflexive(a[1..]); }
  }

  lemma {:induction false} LexLessTransitive(a: string, b: string, c: string)
    requires LexLess(a, b) && LexLess(b, c)
    ensures LexLess(a, c)
  {
    if a != [] && b != [] && c != [] && a[0] == b[0] == c[0] {
      LexLessTransitive(a[1..], b[1..], c[1..]);
    }
  }

  lemma {:induction false} LexLessTotal(a: string, b: string)
    requires a != b
    ensures LexLess(a, b) || LexLess(b, a)
  {
    if a != [] && b != [] && a[0] == b[0] {
      assert a == [a[0]] + a[1..] && b == [b[0]] + b[1..];
      LexLessTotal(a[1..], b[1..]);
    }
  }

  /** A common prefix does not change the order. */
  lemma {:induction false} LexLessCommonPrefix(p: string, a: string, b: string)
    ensures LexLess(p + a, p + b) <==> LexLess(a, b)
  {
    if p != [] {
      assert (p + a)[0] == p[0] == (p + b)[0];
      assert (p + a)[1..] == p[1..] + a && (p + b)[1..] == p[1..] + b;
      LexLessCommonPrefix(p[1..], a, b);
    } else {
      assert p + a == a && p + b == b;
    }
  }

  lemma MulMonotone(x: nat, y: nat, p: nat)
    requires x <= y
    ensures x * p <= y * p
  {
  }

  /** A smaller leading digit gives a smaller value, whatever follows. */
  lemma LeadingDigitDecides(a: string, b: string)
    requires AllDigits(a) && AllDigits(b) && |a| == |b| > 0
    requires DigitValue(a[0]) < DigitValue(b[0])
    ensures DigitsValue(a) < DigitsValue(b)
  {
    var p := Pow10(|a| - 1);
    var da, db := DigitValue(a[0]), DigitValue(b[0]);
    DigitsValueBound(a[1..]);
    assert DigitsValue(a) == da * p + DigitsValue(a[1..]) < da * p + p;
    MulMonotone(da + 1, db, p);
    assert da * p + p == (da + 1) * p <= db * p;
    assert db * p <= DigitsValue(b);
  }

  /** On digit strings of one length, the string order is the numeric order. */
  lemma {:induction false} LexLessDigits(a: string, b: string)
    requires AllDigits(a) && AllDigits(b) && |a| == |b|
    ensures !LexLess(b, a) ==> DigitsValue(a) <= DigitsValue(b)
  {
    if a != [] && !LexLess(b, a) {
      if a[0] == b[0] {
        LexLessDigits(a[1..], b[1..]);
        assert DigitsValue(a) == DigitValue(a[0]) * Pow10(|a| - 1) + DigitsValue(a[1..]);
        assert DigitsValue(b) == DigitValue(b[0]) * Pow10(|b| - 1) + DigitsValue(b[1..]);
      } else {
        assert a[0] < b[0];
        LeadingDigitDecides(a, b);
      }
    }
  }

  function UpperChar(c: char): char { if 'a' <= c <= 'z' then (c as int - 32) as char else c }

  function LowerChar(c: char): char { if 'A' <= c <= 'Z' then (c as int + 32) as char else c }

  /** `s.upper()` on ASCII letters. */
  function Upper(s: string): (r: string)
    ensures |r| == |s| && forall i :: 0 <= i < |s| ==> r[i] == UpperChar(s[i])
  {
    seq(|s|, i requires 0 <= i < |s| => UpperChar(s[i]))
  }

  /** `s.lower()` on ASCII letters. */
  function Lower(s: string): (r: string)
    ensures |r| == |s| && forall i :: 0 <= i < |s| ==> r[i] == LowerChar(s[i])
  {
    seq(|s|, i requires 0 <= i < |s| => LowerChar(s[i]))
  }

  function Min(a: nat, b: nat): nat { if a <= b then a else b }

  /** Python's `s[i:j]` for non-negative bounds: out-of-range bounds are clamped. */
  function Slice(s: string, i: nat, j: nat): (r: string)
    ensures |r| == if i >= Min(j, |s|) then 0 else Min(j, |s|) - i
    ensures forall k :: 0 <= k < |r| ==> r[k] == s[i + k]
  {
    if i >= Min(j, |s|) then [] else s[i..Min(j, |s|)]
  }

  /** Python's `s[i:]`. */
  function From(s: string, i: nat): (r: string)
    ensures r == Slice(s, i, |s|)
  {
    if i >= |s| then [] else s[i..]
  }

  /** `s.replace(c, "")`: every occurrence of `c` removed, the rest in order. */
  function RemoveChar(s: string, c: char): (r: string)
    ensures c !in r
    ensures |r| <= |s|
    ensures forall x :: x != c ==> (x in r <==> x in s)
  {
    if s == [] then []
    else if s[0] == c then RemoveChar(s[1..], c)
    else [s[0]] + RemoveChar(s[1..], c)
  }

  // ---------------------------------------------------------------------------
  // Joining, splitting, stripping
  // ---------------------------------------------------------------------------

  /** `sep.join(parts)`. */
  function Join(parts: seq<string>, sep: string): string
  {
    if |parts| == 0 then ""
    else if |parts| == 1 then parts[0]
    else parts[0] + sep + Join(parts[1..], sep)
  }

  /** `s.split(sep)` for a one-character separator: always at least one piece. */
  function Split(s: string, sep: char): (r: seq<string>)
    ensures |r| >= 1
    ensures forall k :: 0 <= k < |r| ==> sep !in r[k]
  {
    if s == [] then [""]
    else
      var rest := Split(s[1..], sep);
      if s[0] == sep then [""] + rest else [[s[0]] + rest[0]] + rest[1..]
  }

  /** Splitting and joining back with the same separator gives the string back. */
  lemma {:induction false} JoinSplit(s: string, sep: char)
    ensures Join(Split(s, sep), [sep]) == s
  {
    if s != [] {
      var rest := Split(s[1..], sep);
      JoinSplit(s[1..], sep);
      if s[0] == sep {
        assert ([""] + rest)[1..] == rest;
      } else {
        var r := [[s[0]] + rest[0]] + rest[1..];
        if |rest| == 1 {
          assert Join(rest, [sep]) == rest[0];
        } else {
          assert r[1..] == rest[1..];
          assert Join(rest, [sep]) == rest[0] + [sep] + Join(rest[1..], [sep]);
        }
      }
    }
  }

  /** The characters `str.strip()` removes (ASCII whitespace, including the four separators 0x1C-0x1F). */
  predicate IsSpace(c: char) { c == ' ' || 9 <= c as int <= 13 || 28 <= c as int <= 31 }

  /** What a `strip` call removes: whitespace (no argument) or one given character. */
  datatype StripSet = Whitespace | Only(c: char)

  predicate Strips(k: StripSet, c: char)
  {
    match k
    case Whitespace => IsSpace(c)
    case Only(x) => c == x
  }

  function LStrip(s: string, k: StripSet): (r: string)
    ensures |r| <= |s| && r == s[|s| - |r|..]
    ensures r != [] ==> !Strips(k, r[0])
    ensures forall i :: 0 <= i < |s| - |r| ==> Strips(k, s[i])
  {
    if s != [] && Strips(k, s[0]) then LStrip(s[1..], k) else s
  }

  function RStrip(s: string, k: StripSet): (r: string)
    ensures |r| <= |s| && r == s[..|r|]
    ensures r != [] ==> !Strips(k, r[|r| - 1])
    ensures forall i :: |r| <= i < |s| ==> Strips(k, s[i])
  {
    if s != [] && Strips(k, s[|s| - 1]) then RStrip(s[..|s| - 1], k) else s
  }

  /** `s.strip()` (whitespace) or `s.strip(c)`. */
  function Strip(s: string, k: StripSet): (r: string)
    ensures |r| <= |s|
    ensures r != [] ==> !Strips(k, r[0]) && !Strips(k, r[|r| - 1])
  {
    RStrip(LStrip(s, k), k)
  }

  /** Stripping an already stripped string changes nothing. */
  lemma StripIdempotent(s: string, k: StripSet)
    ensures Strip(Strip(s, k), k) == Strip(s, k)
  {
    var r := Strip(s, k);
    assert LStrip(r, k) == r;
    assert RStrip(r, k) == r;
  }

  /** A string is blank for `str.strip()` exactly when every character is whitespace. */
  lemma {:induction false} StripEmptyIffBlank(s: string)
    ensures Strip(s, Whitespace) == [] <==> forall i :: 0 <= i < |s| ==> IsSpace(s[i])
  {
    var l := LStrip(s, Whitespace);
    if l != [] {
      assert !IsSpace(l[0]);
      assert RStrip(l, Whitespace) != [];
      assert l[0] == s[|s| - |l|];
    }
  }

  // ---------------------------------------------------------------------------
  // Prefixes and last segments
  // ---------------------------------------------------------------------------

  /** `s.startswith(p)`, and SQL `LIKE 'p%'` for a pattern without wildcards. */
  predicate HasPrefix(p: string, s: string) { |p| <= |s| && s[..|p|] == p }

  /**
   * `s.split(sep)[-1]`: the text after the last `sep`, or the whole string
   * when it holds none.
   */
  function LastSegment(s: string, sep: char): (r: string)
    ensures |r| <= |s| && r == s[|s| - |r|..]
    ensures sep !in r
    ensures |r| < |s| ==> s[|s| - |r| - 1] == sep
  {
    if s == [] || s[|s| - 1] == sep then []
    else LastSegment(s[..|s| - 1], sep) + [s[|s| - 1]]
  }

  /** What follows a separator, when it holds no separator itself, is the last segment. */
  lemma {:induction false} LastSegmentAfter(p: string, d: string, sep: char)
    requires |p| >= 1 && p[|p| - 1] == sep && sep !in d
    ensures LastSegment(p + d, sep) == d
  {
    if d != [] {
      var s := p + d;
      assert s[|s| - 1] == d[|d| - 1];
      assert s[..|s| - 1] == p + d[..|d| - 1];
      LastSegmentAfter(p, d[..|d| - 1], sep);
      assert d == d[..|d| - 1] + [d[|d| - 1]];
    } else {
      assert p + d == p;
    }
  }
}
