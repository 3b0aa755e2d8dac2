/**
 * The settings validator that turns `BACKEND_CORS_ORIGINS` into a list of
 * origins (backend-python app/core/config.py): a list passes through, a
 * string is trimmed, loses one pair of enclosing brackets and is split on
 * commas, and anything else becomes the empty list.
 */
module Config {
  import opened Text

  /** The raw setting before validation. */
  datatype CorsValue = CorsString(text: string) | CorsList(items: seq<string>) | CorsOther

  /** `v[1:-1]` when the trimmed text starts with `[` and ends with `]`. */
  function Unbracket(t: string): (r: string)
    ensures |t| >= 2 && t[0] == '[' && t[|t| - 1] == ']' ==> r == t[1..|t| - 1]
    ensures !(|t| >= 1 && t[0] == '[' && t[|t| - 1] == ']') ==> r == t
  {
    if |t| >= 1 && t[0] == '[' && t[|t| - 1] == ']' then t[1..|t| - 1] else t
  }

  /** `origin.strip().strip('"').strip("'")`. */
  function CleanOrigin(piece: string): string
  {
    Strip(Strip(Strip(piece, Whitespace), Only('"')), Only('\''))
  }

  /** A piece is kept when `origin.strip()` is non-empty. */
  predicate Kept(piece: string)
  {
    Strip(piece, Whitespace) != []
  }

  /** The comprehension over the comma-separated pieces. */
  function CleanPieces(pieces: seq<string>): (r: seq<string>)
    ensures |r| <= |pieces|
  {
    if pieces == [] then []
    else (if Kept(pieces[0]) then [CleanOrigin(pieces[0])] else []) + CleanPieces(pieces[1..])
  }

  /** The pieces a string setting is cut into. */
  function Pieces(text: string): seq<string>
  {
    Split(Unbracket(Strip(text, Whitespace)), ',')
  }

  /** `assemble_cors_origins`. */
  function AssembleCorsOrigins(v: CorsValue): seq<string>
  {
    match v
    case CorsString(text) => CleanPieces(Pieces(text))
    case CorsList(items) => items
    case CorsOther => []
  }

  /** Every kept origin is the cleaned form of a non-blank piece. */
  lemma {:induction false} CleanPiecesSound(pieces: seq<string>)
    ensures forall x :: x in CleanPieces(pieces) ==> exists p :: p in pieces && Kept(p) && x == CleanOrigin(p)
  {
    if pieces != [] {
      CleanPiecesSound(pieces[1..]);
      var rest := CleanPieces(pieces[1..]);
      var head: seq<string> := if Kept(pieces[0]) then [CleanOrigin(pieces[0])] else [];
      assert CleanPieces(pieces) == head + rest;
      forall x | x in CleanPieces(pieces)
        ensures exists p :: p in pieces && Kept(p) && x == CleanOrigin(p)
      {
        if x in head {
          assert pieces[0] in pieces;
        } else {
          var p :| p in pieces[1..] && Kept(p) && x == CleanOrigin(p);
          assert p in pieces;
        }
      }
    }
  }

  /** Every non-blank piece contributes its cleaned origin. */
  lemma {:induction false} CleanPiecesComplete(pieces: seq<string>)
    ensures forall p :: p in pieces && Kept(p) ==> CleanOrigin(p) in CleanPieces(pieces)
  {
    if pieces != [] {
      CleanPiecesComplete(pieces[1..]);
      var rest := CleanPieces(pieces[1..]);
      var head: seq<string> := if Kept(pieces[0]) then [CleanOrigin(pieces[0])] else [];
      assert CleanPieces(pieces) == head + rest;
      forall p | p in pieces && Kept(p)
        ensures CleanOrigin(p) in CleanPieces(pieces)
      {
        if p != pieces[0] {
          assert p in pieces[1..];
        }
      }
    }
  }

  /** Stripping only removes characters from the ends. */
  lemma StripInside(s: string, k: StripSet, c: char)
    requires c in Strip(s, k)
    ensures c in s
  {
    var l := LStrip(s, k);
    assert c in RStrip(l, k);
    assert c in l;
  }

  /**
   * A string setting: every origin is the cleaned form of a non-blank
   * comma-separated piece of the unbracketed text and holds no comma, and
   * every non-blank piece gives an origin; lists pass through and other
   * values give no origins.
   */
  lemma CorsOrigins(v: CorsValue)
    ensures v.CorsString? ==>
      var pieces := Pieces(v.text);
      var out := AssembleCorsOrigins(v);
      |out| <= |pieces|
      && (forall x :: x in out ==> ',' !in x && exists p :: p in pieces && Kept(p) && x == CleanOrigin(p))
      && (forall p :: p in pieces && Kept(p) ==> CleanOrigin(p) in out)
    ensures v.CorsList? ==> AssembleCorsOrigins(v) == v.items
    ensures v.CorsOther? ==> AssembleCorsOrigins(v) == []
  {
    if v.CorsString? {
      var pieces := Pieces(v.text);
      var out := AssembleCorsOrigins(v);
      CleanPiecesSound(pieces);
      CleanPiecesComplete(pieces);
      forall x | x in out
        ensures ',' !in x
      {
        var p :| p in pieces && Kept(p) && x == CleanOrigin(p);
        if ',' in x {
          StripInside(Strip(Strip(p, Whitespace), Only('"')), Only('\''), ',');
          StripInside(Strip(p, Whitespace), Only('"'), ',');
          StripInside(p, Whitespace, ',');
          assert false;
        }
      }
    }
  }

  /** A string setting without a comma names a single origin (or none, when blank). */
  lemma SingleOrigin(text: string)
    requires ',' !in Unbracket(Strip(text, Whitespace))
    ensures var u := Unbracket(Strip(text, Whitespace));
      AssembleCorsOrigins(CorsString(text)) == if Kept(u) then [CleanOrigin(u)] else []
  {
    var u := Unbracket(Strip(text, Whitespace));
    NoSeparatorOnePiece(u, ',');
  }

  lemma {:induction false} NoSeparatorOnePiece(s: string, sep: char)
    requires sep !in s
    ensures Split(s, sep) == [s]
  {
    if s != [] {
      NoSeparatorOnePiece(s[1..], sep);
      assert s[0] != sep;
      assert [s[0]] + s[1..] == s;
    }
  }

  /** A quoted empty piece is not blank before its quotes are stripped, so it survives as an empty origin. */
  lemma QuotedEmptyPieceSurvives()
    ensures CleanPieces(["\"\""]) == [""]
  {
    var p := "\"\"";
    assert Strip(p, Whitespace) == p by {
      assert LStrip(p, Whitespace) == p;
      assert RStrip(p, Whitespace) == p;
    }
    assert LStrip(p, Only('"')) == "" by {
      assert LStrip(p[1..], Only('"')) == LStrip(p[1..][1..], Only('"'));
    }
    assert CleanOrigin(p) == "";
  }
}
