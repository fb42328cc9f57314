/** Printing and parsing undo each other. */
module JsonRoundTrip {
  import opened Json
  import A = JsonAccepts
  import P = JsonPrinted
  import opened JsonParse
  import opened JsonScan

  lemma ParseInteger(t: Text, i: nat, n: int)
    requires Starts(t, i, Integer(n)) && EndsNumber(t, i + |Integer(n)|)
    ensures i < |t| && (t[i] == '-' || IsDigit(t[i]))
    ensures ParseNumber(t, i) == Parsed(Number(n, 0), i + |Integer(n)|)
  {
    hide *;
    P.NumeralIs(n);
    A.NumberReads(t, i, P.NumeralOf(n));
  }

  /** Every escape decodes to the character it was written for. */
  lemma UnitOfEscape(t: Text, i: nat, c: char)
    requires c != '\0' && Starts(t, i, Escape(c))
    ensures i < |t| && t[i] != '\"' && t[i] != '\0' && Unit(t, i) == Parsed([c], i + |Escape(c)|)
  {
    hide *;
    P.PieceIs(c);
    A.UnitOfPiece(t, i, P.PieceOf(c));
  }

  lemma StringOfQuote(t: Text, i: nat, s: Text)
    requires NulFree(s) && Starts(t, i, Quote(s))
    ensures ParseString(t, i) == Parsed(s, i + |Quote(s)|)
  {
    hide *;
    P.QuoteIs(s);
    A.StringReads(t, i, P.PiecesOf(s));
  }

  /** Parsing a printed value, in any context that does not extend a number, yields the value and stops
      right behind it. */
  lemma ParsePrinted(v: Value, depth: nat, fmt: bool, t: Text, i: nat)
    requires Printable(v) && Starts(t, i, Print(v, depth, fmt))
    requires v.Number? ==> EndsNumber(t, i + |Print(v, depth, fmt)|)
    ensures i <= |t| && ParseValue(t, i) == Parsed(v, i + |Print(v, depth, fmt)|)
  {
    hide *;
    P.Shown(v, depth, fmt);
    A.DocReads(t, i, P.DocOf(v, depth, fmt));
  }

  /** Parse after print, at any depth and in both modes: an equal tree, stopping exactly at the continuation. */
  lemma RoundTrip(v: Value, depth: nat, fmt: bool, rest: Text)
    requires Printable(v)
    requires v.Number? ==> EndsNumber(rest, 0)
    ensures ParseText(Print(v, depth, fmt) + rest, false) == Parsed(v, |Print(v, depth, fmt)|)
  {
    hide *;
    var p, d := Print(v, depth, fmt), P.DocOf(v, depth, fmt);
    P.Shown(v, depth, fmt);
    A.FirstChar(d);
    Continued(p, rest);
    SkipStays(p + rest, 0);
    ParsePrinted(v, depth, fmt, p + rest, 0);
    TextFrom(p + rest, v, |p|);
  }

  lemma Continued(p: Text, rest: Text)
    requires p != []
    ensures Starts(p + rest, 0, p) && (p + rest)[0] == p[0]
    ensures EndsNumber(rest, 0) ==> EndsNumber(p + rest, |p|)
  {
    assert At(p + rest, |p|) == At(rest, 0) && At(p + rest, |p| + 1) == At(rest, 1);
  }

  lemma TextFrom(t: Text, v: Value, end: nat)
    requires Skip(t, 0) == 0 && ParseValue(t, 0) == Parsed(v, end)
    ensures ParseText(t, false) == Parsed(v, end)
  {
    hide ParseValue, Skip;
  }

  /** A whole printed text passes the require_null_terminated check as well. */
  lemma RoundTripWhole(v: Value, fmt: bool)
    requires Printable(v)
    ensures ParseText(Print(v, 0, fmt), true) == Parsed(v, |Print(v, 0, fmt)|)
  {
    hide Print, ParseValue;
    RoundTrip(v, 0, fmt, []);
    assert Print(v, 0, fmt) + [] == Print(v, 0, fmt);
  }

  /** Printing is injective, and the two modes print the same tree only for the same value. */
  lemma PrintInjective(v: Value, fmt: bool, w: Value, fmt': bool)
    requires Printable(v) && Printable(w) && Print(v, 0, fmt) == Print(w, 0, fmt')
    ensures v == w
  {
    RoundTripWhole(v, fmt);
    RoundTripWhole(w, fmt');
  }
}
