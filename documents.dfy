/**
 * Brazilian tax-document formatting shared by the Python models: a CPF as
 * `ddd.ddd.ddd-dd` (backend-python app/models/person.py) and a CNPJ as
 * `dd.ddd.ddd/dddd-dd` (app/models/person.py and app/models/transportadora.py),
 * each built from Python slices of the stored text.
 */
module Documents {
  import opened Text

  /** `f"{cpf[:3]}.{cpf[3:6]}.{cpf[6:9]}-{cpf[9:]}"`. */
  function FormatCpf(cpf: string): string
  {
    Slice(cpf, 0, 3) + "." + Slice(cpf, 3, 6) + "." + Slice(cpf, 6, 9) + "-" + From(cpf, 9)
  }

  /** `f"{cnpj[:2]}.{cnpj[2:5]}.{cnpj[5:8]}/{cnpj[8:12]}-{cnpj[12:]}"`. */
  function FormatCnpj(cnpj: string): string
  {
    Slice(cnpj, 0, 2) + "." + Slice(cnpj, 2, 5) + "." + Slice(cnpj, 5, 8) + "/" + Slice(cnpj, 8, 12) + "-" + From(cnpj, 12)
  }

  /** Adjacent Python slices put back together give the wider slice. */
  lemma SliceJoin(s: string, i: nat, j: nat, k: nat)
    requires i <= j <= k
    ensures Slice(s, i, j) + Slice(s, j, k) == Slice(s, i, k)
  {
    if j >= |s| {
      assert Slice(s, j, k) == [];
    } else if i >= |s| {
    } else {
      assert Slice(s, i, j) == s[i..j];
    }
  }

  /** Removing non-digits distributes over concatenation. */
  lemma {:induction false} KeepDigitsConcat(a: string, b: string)
    ensures KeepDigits(a + b) == KeepDigits(a) + KeepDigits(b)
  {
    if a != [] {
      assert (a + b)[0] == a[0];
      assert (a + b)[1..] == a[1..] + b;
      KeepDigitsConcat(a[1..], b);
      if IsDigit(a[0]) {
        calc {
          KeepDigits(a + b);
          [a[0]] + KeepDigits(a[1..] + b);
          [a[0]] + (KeepDigits(a[1..]) + KeepDigits(b));
          ([a[0]] + KeepDigits(a[1..])) + KeepDigits(b);
        }
      }
    } else {
      assert a + b == b;
    }
  }

  /** A non-digit separator between two texts leaves only the digits of both. */
  lemma KeepDigitsSeparator(a: string, sep: char, b: string)
    requires !IsDigit(sep)
    ensures KeepDigits(a + [sep] + b) == KeepDigits(a) + KeepDigits(b)
  {
    KeepDigitsConcat(a + [sep], b);
    KeepDigitsConcat(a, [sep]);
  }

  /** Digits of `a + [s1] + b + [s2] + c + [s3] + d`, for non-digit separators. */
  lemma KeepDigitsFourParts(a: string, b: string, c: string, d: string, s1: char, s2: char, s3: char)
    requires !IsDigit(s1) && !IsDigit(s2) && !IsDigit(s3)
    ensures KeepDigits(a + [s1] + b + [s2] + c + [s3] + d) == KeepDigits(a + b + c + d)
  {
    var x1 := a + [s1] + b;
    var x2 := x1 + [s2] + c;
    KeepDigitsSeparator(a, s1, b);
    KeepDigitsSeparator(x1, s2, c);
    KeepDigitsSeparator(x2, s3, d);
    KeepDigitsConcat(a, b);
    KeepDigitsConcat(a + b, c);
    KeepDigitsConcat(a + b + c, d);
  }

  /** The same for five parts. */
  lemma KeepDigitsFiveParts(a: string, b: string, c: string, d: string, e: string, s1: char, s2: char, s3: char, s4: char)
    requires !IsDigit(s1) && !IsDigit(s2) && !IsDigit(s3) && !IsDigit(s4)
    ensures KeepDigits(a + [s1] + b + [s2] + c + [s3] + d + [s4] + e) == KeepDigits(a + b + c + d + e)
  {
    var x3 := a + [s1] + b + [s2] + c + [s3] + d;
    KeepDigitsFourParts(a, b, c, d, s1, s2, s3);
    KeepDigitsSeparator(x3, s4, e);
    KeepDigitsConcat(a + b + c + d, e);
  }

  /** Python slices at increasing cut points put back together give the whole text. */
  lemma SlicesCover(s: string, i: nat, j: nat, k: nat)
    requires i <= j <= k
    ensures Slice(s, 0, i) + Slice(s, i, j) + Slice(s, j, k) + From(s, k) == s
  {
    SliceJoin(s, 0, i, j);
    SliceJoin(s, 0, j, k);
    SliceJoin(s, 0, k, |s| + k);
    assert Slice(s, k, |s| + k) == From(s, k);
    assert Slice(s, 0, |s| + k) == s;
  }

  /**
   * The CPF layout only adds punctuation: stripping the non-digits from a
   * formatted CPF gives the digits of the stored text, whatever its length.
   */
  lemma CpfFormatKeepsDigits(cpf: string)
    ensures KeepDigits(FormatCpf(cpf)) == KeepDigits(cpf)
  {
    var a, b, c, d := Slice(cpf, 0, 3), Slice(cpf, 3, 6), Slice(cpf, 6, 9), From(cpf, 9);
    assert FormatCpf(cpf) == a + ['.'] + b + ['.'] + c + ['-'] + d;
    KeepDigitsFourParts(a, b, c, d, '.', '.', '-');
    SlicesCover(cpf, 3, 6, 9);
  }

  /** Same for the CNPJ layout. */
  lemma CnpjFormatKeepsDigits(cnpj: string)
    ensures KeepDigits(FormatCnpj(cnpj)) == KeepDigits(cnpj)
  {
    var a, b, c, d, e :=
      Slice(cnpj, 0, 2), Slice(cnpj, 2, 5), Slice(cnpj, 5, 8), Slice(cnpj, 8, 12), From(cnpj, 12);
    assert FormatCnpj(cnpj) == a + ['.'] + b + ['.'] + c + ['/'] + d + ['-'] + e;
    KeepDigitsFiveParts(a, b, c, d, e, '.', '.', '/', '-');
    SliceJoin(cnpj, 0, 2, 5);
    SlicesCover(cnpj, 5, 8, 12);
  }

  /** An 11-character CPF is laid out in 14 characters, with the punctuation at positions 3, 7 and 11. */
  lemma CpfLayout(cpf: string)
    requires |cpf| == 11
    ensures var r := FormatCpf(cpf);
      |r| == 14 && r[3] == '.' && r[7] == '.' && r[11] == '-'
      && r[..3] == cpf[..3] && r[4..7] == cpf[3..6] && r[8..11] == cpf[6..9] && r[12..] == cpf[9..]
  {
  }

  /** A 14-character CNPJ is laid out in 18 characters, with the punctuation at positions 2, 6, 10 and 15. */
  lemma CnpjLayout(cnpj: string)
    requires |cnpj| == 14
    ensures var r := FormatCnpj(cnpj);
      |r| == 18 && r[2] == '.' && r[6] == '.' && r[10] == '/' && r[15] == '-'
      && r[..2] == cnpj[..2] && r[3..6] == cnpj[2..5] && r[7..10] == cnpj[5..8]
      && r[11..15] == cnpj[8..12] && r[16..] == cnpj[12..]
  {
  }
}
