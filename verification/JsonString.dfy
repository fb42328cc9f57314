/** String tokens: what the escapes of a string body mean, and the two-pass code that decodes and prints them. */
module JsonString {
  import opened Options
  import opened Json
  import H = JsonHeap
  import opened JsonParse
  import opened Unsigned

  // ---- UTF-8 ----

  predicate IsContinuation(c: char) {
    0x80 <= c as int < 0xC0
  }

  function Low6(c: char): nat
    requires IsContinuation(c)
  {
    c as int - 0x80
  }

  /** Reading one scalar value back from its UTF-8 form; None for anything but a shortest form. */
  function FromUtf8(s: Text): Option<(nat, nat)> {
    if |s| >= 1 && s[0] as int < 0x80 then Some((s[0] as int, 1))
    else if |s| >= 2 && 0xC0 <= s[0] as int < 0xE0 && IsContinuation(s[1]) then
      var u := (s[0] as int - 0xC0) * 64 + Low6(s[1]);
      if u >= 0x80 then Some((u, 2)) else None
    else if |s| >= 3 && 0xE0 <= s[0] as int < 0xF0 && IsContinuation(s[1]) && IsContinuation(s[2]) then
      var u := ((s[0] as int - 0xE0) * 64 + Low6(s[1])) * 64 + Low6(s[2]);
      if u >= 0x800 then Some((u, 3)) else None
    else if |s| >= 4 && 0xF0 <= s[0] as int < 0xF8 && IsContinuation(s[1]) && IsContinuation(s[2])
      && IsContinuation(s[3]) then
      var u := (((s[0] as int - 0xF0) * 64 + Low6(s[1])) * 64 + Low6(s[2])) * 64 + Low6(s[3]);
      if u >= 0x1_0000 then Some((u, 4)) else None
    else None
  }

  /** The encoder is undone by the decoder, whatever follows. */
  lemma Utf8RoundTrip(u: nat, rest: Text)
    requires u < 0x11_0000
    ensures FromUtf8(Utf8(u) + rest) == Some((u, |Utf8(u)|))
  {
    var s := Utf8(u) + rest;
    assert forall k | 0 <= k < |Utf8(u)| :: s[k] == Utf8(u)[k];
  }

  /** A continuation byte: the OR sets the top bit, the AND keeps six bits below it. */
  lemma ContinuationBits(u: bv32)
    ensures Byte((u | 0x80) & 0xBF) == Continuation(Nat(u))
    ensures Nat(u >> 6) == Nat(u) / 64
  {
    assert ((u | 0x80) & 0xBF) & 0xFF == (2 << 6) | (u & 0x3F) && u & 0x3F < 64;
    hide *;
    Literals();
    Join6(2, u & 0x3F);
    LowSix(u);
    Shr6(u);
    ByteIs((u | 0x80) & 0xBF);
  }

  lemma ByteIs(x: bv32)
    ensures Nat(x & 0xFF) < 0x100 && Byte(x) == Nat(x & 0xFF) as char
  {
    LowByte(x);
  }

  /** The byte of an ASCII character. */
  lemma AsciiBits(u: bv32)
    requires u < 0x80
    ensures Nat(u) < 0x80 && Byte(u | 0x00) == Nat(u) as char
  {
    assert (u | 0x00) & 0xFF == u;
    hide *;
    Below0x80(u);
    ByteIs(u | 0x00);
  }

  /** The lead bytes: the OR puts the mark in front of what is left of the scalar value. */
  lemma Lead2Bits(u: bv32)
    requires u < 32
    ensures Nat(u) < 0x80 && Byte(u | 0xC0) == (0xC0 + Nat(u)) as char
  {
    assert (u | 0xC0) & 0xFF == (3 << 6) | u && u < 64 && u < 0x80;
    hide *;
    Literals();
    Join6(3, u);
    Below0x80(u);
    ByteIs(u | 0xC0);
  }

  lemma Lead3Parts(u: bv32)
    requires u < 16
    ensures (u | 0xE0) & 0xFF == (3 << 6) | Either(2 << 4, u) && Either(2 << 4, u) < 64 && u < 0x80
    ensures Apart(2 << 4, u)
  {
  }

  lemma Lead3Bits(u: bv32)
    requires u < 16
    ensures Nat(u) < 0x80 && Byte(u | 0xE0) == (0xE0 + Nat(u)) as char
  {
    hide *;
    Lead3Parts(u);
    Literals();
    Shl4(2);
    Joined(2 << 4, u);
    Join6(3, Either(2 << 4, u));
    Below0x80(u);
    ByteIs(u | 0xE0);
  }

  lemma Lead4Parts(u: bv32)
    requires u < 8
    ensures (u | 0xF0) & 0xFF == (3 << 6) | Either(3 << 4, u) && Either(3 << 4, u) < 64 && u < 0x80
    ensures Apart(3 << 4, u)
  {
  }

  lemma Lead4Bits(u: bv32)
    requires u < 8
    ensures Nat(u) < 0x80 && Byte(u | 0xF0) == (0xF0 + Nat(u)) as char
  {
    hide *;
    Lead4Parts(u);
    Literals();
    Shl4(3);
    Joined(3 << 4, u);
    Join6(3, Either(3 << 4, u));
    Below0x80(u);
    ByteIs(u | 0xF0);
  }

  /** The ranges that the code tests for. */
  lemma SurrogateBits(u: bv32)
    ensures 0xD800 <= u <= 0xDBFF <==> IsHigh(Nat(u))
    ensures 0xDC00 <= u <= 0xDFFF <==> IsLow(Nat(u))
    ensures u == 0 <==> Nat(u) == 0
  {
    assert 0xD800 <= u <= 0xDBFF <==> u >> 10 == 0x36;
    assert 0xDC00 <= u <= 0xDFFF <==> u >> 10 == 0x37;
    hide Nat;
    Literals();
    InBlock(u, 0x36);
    InBlock(u, 0x37);
    Zero(u);
  }

  lemma BlockParts(u: bv32)
    ensures u == ((u >> 10) << 10) | (u & 0x3FF) && u >> 10 < 0x40_0000 && u & 0x3FF < 0x400
  {
  }

  /** The ten low bits of a surrogate. */
  lemma SurrogateLow(u: bv32)
    ensures u & 0x3FF < 0x400 && Nat(u) == 1024 * Nat(u >> 10) + Nat(u & 0x3FF)
  {
    hide *;
    BlockParts(u);
    Join10(u >> 10, u & 0x3FF);
  }

  lemma Plane1Parts(a: bv32)
    requires a < 0x400
    ensures 0x40 + a == (Succ(a >> 6) << 6) | (a & 0x3F)
    ensures a == ((a >> 6) << 6) | (a & 0x3F)
    ensures a >> 6 < 16 && Succ(a >> 6) < 32 && a & 0x3F < 64 && 0x40 + a < 0x40_0000
  {
  }

  /** Adding the first code point of plane 1 in front of twenty bits: the top ten get 64 more. */
  lemma Plane1(a: bv32)
    requires a < 0x400
    ensures 0x40 + a < 0x40_0000 && Nat(0x40 + a) == 0x40 + Nat(a)
  {
    Plane1Parts(a);
    hide *;
    Increased(a >> 6);
    Join6(Succ(a >> 6), a & 0x3F);
    Join6(a >> 6, a & 0x3F);
  }

  lemma PairBits(hi: bv32, lo: bv32)
    requires 0xD800 <= hi <= 0xDBFF && 0xDC00 <= lo <= 0xDFFF
    ensures IsHigh(Nat(hi)) && IsLow(Nat(lo))
    ensures Nat(0x1_0000 + (((hi & 0x3FF) << 10) | (lo & 0x3FF))) == Pair(Nat(hi), Nat(lo))
  {
    hide Nat;
    SurrogateBlocks(hi, lo);
    SurrogateBits(hi);
    SurrogateBits(lo);
    SurrogateLow(hi);
    SurrogateLow(lo);
    Literals();
    PairJoined(hi & 0x3FF, lo & 0x3FF);
  }

  lemma SurrogateBlocks(hi: bv32, lo: bv32)
    requires 0xD800 <= hi <= 0xDBFF && 0xDC00 <= lo <= 0xDFFF
    ensures hi >> 10 == 0x36 && lo >> 10 == 0x37
  {
  }

  lemma PairParts(a: bv32, b: bv32)
    requires a < 0x400 && b < 0x400
    ensures 0x1_0000 + ((a << 10) | b) == ((0x40 + a) << 10) | b
  {
  }

  lemma PairJoined(a: bv32, b: bv32)
    requires a < 0x400 && b < 0x400
    ensures Nat(0x1_0000 + ((a << 10) | b)) == 0x1_0000 + 1024 * Nat(a) + Nat(b)
  {
    hide *;
    PairParts(a, b);
    Plane1(a);
    Join10(0x40 + a, b);
  }

  /** One digit of parse_hex4. */
  function HexStep(h: bv32, c: char): bv32
    requires IsHex(c)
  {
    (h << 4) + Word(HexValue(c))
  }

  lemma HexStepValue(h: bv32, c: char)
    requires IsHex(c) && Nat(h) < 0x1000
    ensures Nat(HexStep(h, c)) == 16 * Nat(h) + HexValue(c)
  {
    hide Nat, HexValue, Word;
    Below0x1000(h);
    HexJoined(h, Word(HexValue(c)));
  }

  lemma HexJoined(h: bv32, d: bv32)
    requires h < 0x1000 && d < 16
    ensures Nat((h << 4) + d) == 16 * Nat(h) + Nat(d)
  {
    assert (h << 4) + d == Either(h << 4, d) && Apart(h << 4, d) && h < 0x1000_0000;
    hide *;
    Shl4(h);
    Joined(h << 4, d);
  }

  /** parse_hex4 on four hex digits. */
  method ParseHex4(t: Text, i: nat) returns (h: bv32)
    requires HasHex4(t, i)
    ensures Nat(h) == Hex4(t, i)
  {
    hide Nat, HexStep;
    Zero(0);
    h := 0;
    HexStepValue(h, t[i]);
    h := HexStep(h, t[i]);
    HexStepValue(h, t[i + 1]);
    h := HexStep(h, t[i + 1]);
    HexStepValue(h, t[i + 2]);
    h := HexStep(h, t[i + 2]);
    HexStepValue(h, t[i + 3]);
    h := HexStep(h, t[i + 3]);
  }

  // ---- what a string body means ----

  /** The elements of a string body, each backslash escape on its own. */
  datatype Element = Plain(c: char) | Code(u: CodeUnit)

  type CodeUnit = u: nat | u < 0x1_0000

  function Elements(t: Text, i: nat): (r: Outcome<seq<Element>>)
    requires i <= |t|
    ensures r.Parsed? ==> i <= r.end <= |t|
    decreases |t| - i
  {
    if At(t, i) == '\0' || At(t, i) == '\"' then Parsed([], i)
    else if t[i] != '\\' then
      var (rest, end) :- Elements(t, i + 1);
      Parsed([Plain(t[i])] + rest, end)
    else if At(t, i + 1) == '\0' then Truncated
    else if t[i + 1] != 'u' then
      var (rest, end) :- Elements(t, i + 2);
      Parsed([Plain(Unescape(t[i + 1]))] + rest, end)
    else if !HasHex4(t, i + 2) then Truncated
    else
      var (rest, end) :- Elements(t, i + 6);
      Parsed([Code(Hex4(t, i + 2))] + rest, end)
  }

  predicate NextIsCode(es: seq<Element>) {
    es != [] && es[0].Code?
  }

  predicate NextIsLow(es: seq<Element>) {
    NextIsCode(es) && IsLow(es[0].u)
  }

  /** What the code makes of the elements. A high surrogate takes the escape behind it along: as its other
      half if that is a low surrogate, and otherwise both are dropped. */
  function Decoded(es: seq<Element>): Text {
    if es == [] then []
    else
      match es[0]
      case Plain(c) => [c] + Decoded(es[1..])
      case Code(u) =>
        if IsLow(u) || u == 0 then Decoded(es[1..])
        else if !IsHigh(u) then Utf8(u) + Decoded(es[1..])
        else if !NextIsCode(es[1..]) then Decoded(es[1..])
        else if NextIsLow(es[1..]) then Utf8(Pair(u, es[1].u)) + Decoded(es[2..])
        else Decoded(es[2..])
  }

  /** What the standards ask for if U+0000 and unpaired surrogates, and nothing else, are dropped. */
  function Standard(es: seq<Element>): Text {
    if es == [] then []
    else
      match es[0]
      case Plain(c) => [c] + Standard(es[1..])
      case Code(u) =>
        if IsLow(u) || u == 0 then Standard(es[1..])
        else if !IsHigh(u) then Utf8(u) + Standard(es[1..])
        else if NextIsLow(es[1..]) then Utf8(Pair(u, es[1].u)) + Standard(es[2..])
        else Standard(es[1..])
  }

  /** No unpaired high surrogate is followed at once by an escape that stands for something. */
  predicate Lossless(es: seq<Element>) {
    if es == [] then true
    else if es[0].Plain? || !IsHigh(es[0].u) || !NextIsCode(es[1..]) then Lossless(es[1..])
    else if NextIsLow(es[1..]) then Lossless(es[2..])
    else
      var v := es[1].u;
      (v == 0 || (IsHigh(v) && !NextIsLow(es[2..]))) && Lossless(es[2..])
  }

  /** The text `a` is `b` with some characters left out. */
  ghost predicate Within(a: Text, b: Text) {
    if a == [] then true
    else b != [] && ((a[0] == b[0] && Within(a[1..], b[1..])) || Within(a, b[1..]))
  }

  lemma {:induction false} WithinBoth(p: Text, a: Text, b: Text)
    requires Within(a, b)
    ensures Within(p + a, p + b)
    decreases |p|
  {
    if p == [] {
      assert p + a == a && p + b == b;
    } else {
      WithinBoth(p[1..], a, b);
      assert (p + a)[1..] == p[1..] + a && (p + b)[1..] == p[1..] + b;
    }
  }

  lemma {:induction false} WithinMore(p: Text, a: Text, b: Text)
    requires Within(a, b)
    ensures Within(a, p + b)
    decreases |p|
  {
    if p == [] {
      assert p + b == b;
    } else {
      WithinMore(p[1..], a, b);
      assert (p + b)[1..] == p[1..] + b;
    }
  }

  /** parse_string loses text exactly when an unpaired high surrogate swallows a meaningful escape. */
  lemma {:induction false} DecodedIsStandard(es: seq<Element>)
    ensures Decoded(es) == Standard(es) <==> Lossless(es)
  {
    Losses(es);
  }

  /** What the code yields is what the standards ask for with something left out, and nothing is left out
      only in the lossless case. */
  lemma {:induction false} Losses(es: seq<Element>)
    ensures Within(Decoded(es), Standard(es))
    ensures Lossless(es) ==> Decoded(es) == Standard(es)
    ensures !Lossless(es) ==> |Decoded(es)| < |Standard(es)|
    decreases |es|
  {
    hide Within, Utf8;
    if es == [] {
      NothingLost();
    } else if es[0].Plain? {
      Losses(es[1..]);
      WithinBoth([es[0].c], Decoded(es[1..]), Standard(es[1..]));
    } else if IsHigh(es[0].u) && NextIsCode(es[1..]) {
      assert es[1..][0] == es[1] && es[1..][1..] == es[2..];
      Losses(es[2..]);
      var d, s := Decoded(es[2..]), Standard(es[2..]);
      var v := es[1].u;
      if IsLow(v) {
        WithinBoth(Utf8(Pair(es[0].u, v)), d, s);
      } else if v != 0 && !IsHigh(v) {
        WithinMore(Utf8(v), d, s);
      } else if IsHigh(v) && NextIsLow(es[2..]) {
        assert es[2..][0] == es[2] && es[2..][1..] == es[3..];
        Losses(es[3..]);
        WithinMore(Utf8(Pair(v, es[2].u)), Decoded(es[3..]), Standard(es[3..]));
      }
    } else {
      Losses(es[1..]);
      if !IsHigh(es[0].u) && !IsLow(es[0].u) {
        WithinBoth(Utf8(es[0].u), Decoded(es[1..]), Standard(es[1..]));
      }
    }
  }

  lemma NothingLost()
    ensures Within([], [])
  {
  }

  lemma CodeElement(t: Text, i: nat)
    requires i < |t| && t[i] == '\\' && At(t, i + 1) == 'u' && HasHex4(t, i + 2) && Elements(t, i + 6).Parsed?
    ensures Elements(t, i) == Parsed([Code(Hex4(t, i + 2))] + Elements(t, i + 6).value, Elements(t, i + 6).end)
  {
    hide Hex4, HasHex4;
  }

  lemma SwallowedCodes()
    ensures HasHex4("\\ud800\\u0041\"", 2) && Hex4("\\ud800\\u0041\"", 2) == 0xD800
    ensures HasHex4("\\ud800\\u0041\"", 8) && Hex4("\\ud800\\u0041\"", 8) == 0x41
  {
  }

  /** The smallest loss, as a text: an unpaired high surrogate swallows the letter A behind it. */
  lemma SwallowedLetter()
    ensures Body("\\ud800\\u0041\"", 0) == Parsed("", 12)
    ensures Elements("\\ud800\\u0041\"", 0) == Parsed([Code(0xD800), Code(0x41)], 12)
    ensures Standard([Code(0xD800), Code(0x41)]) == "A"
  {
    var t := "\\ud800\\u0041\"";
    var es := [Code(0xD800), Code(0x41)];
    assert es[1..] == [Code(0x41)] && es[2..] == [] && [Code(0x41)][1..] == [];
    assert Standard([Code(0x41)]) == "A";
    SwallowedCodes();
    assert Elements(t, 0) == Parsed(es, 12) by {
      hide Hex4, HasHex4;
      assert Elements(t, 12) == Parsed([], 12);
      CodeElement(t, 6);
      CodeElement(t, 0);
      assert [Code(0x41)] + [] == [Code(0x41)];
      assert [Code(0xD800)] + [Code(0x41)] == es;
    }
    hide Elements, Body;
    BodyDecodes(t, 0);
  }

  /** parse_string decodes the elements of the body: it is defined on the same texts, stops at the same place
      and yields their meaning. */
  lemma {:induction false} BodyDecodes(t: Text, i: nat)
    requires i <= |t|
    ensures Body(t, i).Parsed? <==> Elements(t, i).Parsed?
    ensures Body(t, i).Parsed? ==> Body(t, i) == Parsed(Decoded(Elements(t, i).value), Elements(t, i).end)
    decreases |t| - i
  {
    if At(t, i) != '\0' && At(t, i) != '\"' {
      if Unit(t, i).Parsed? {
        BodyDecodes(t, Unit(t, i).end);
      }
      if t[i] == '\\' && At(t, i + 1) == 'u' && HasHex4(t, i + 2) {
        EscapeDecodes(t, i);
      } else {
        hide Hex4, Utf8, HasHex4;
      }
    }
  }

  /** The \u case: the element list of the rest says what the lookahead in the code sees. */
  lemma EscapeDecodes(t: Text, i: nat)
    requires i < |t| && t[i] == '\\' && At(t, i + 1) == 'u' && HasHex4(t, i + 2)
    requires Unit(t, i).Parsed? ==>
               var j := Unit(t, i).end;
               && (Body(t, j).Parsed? <==> Elements(t, j).Parsed?)
               && (Body(t, j).Parsed? ==> Body(t, j) == Parsed(Decoded(Elements(t, j).value), Elements(t, j).end))
    ensures Body(t, i).Parsed? <==> Elements(t, i).Parsed?
    ensures Body(t, i).Parsed? ==> Body(t, i) == Parsed(Decoded(Elements(t, i).value), Elements(t, i).end)
  {
    hide Hex4, Utf8, HasHex4, Pair;
    var u := Hex4(t, i + 2);
    LookAhead(t, i + 6);
    if Unit(t, i).Parsed? && Body(t, Unit(t, i).end).Parsed? {
      var more := Body(t, Unit(t, i).end).value;
      assert [] + more == more;
    }
    if Elements(t, i + 6).Parsed? {
      var es, rest := Elements(t, i).value, Elements(t, i + 6).value;
      assert es == [Code(u)] + rest && es[0] == Code(u) && es[1..] == rest;
      if IsHigh(u) && NextIsCode(rest) {
        assert es[2..] == rest[1..];
      }
    }
  }

  /** The next element is a code unit exactly when the next characters are a backslash and u. */
  lemma LookAhead(t: Text, i: nat)
    requires i <= |t|
    ensures Elements(t, i).Parsed? ==>
              (NextIsCode(Elements(t, i).value) <==> At(t, i) == '\\' && At(t, i + 1) == 'u')
    ensures At(t, i) == '\\' && At(t, i + 1) == 'u' ==>
              && (Elements(t, i).Parsed? <==> HasHex4(t, i + 2) && Elements(t, i + 6).Parsed?)
              && (Elements(t, i).Parsed? ==>
                    && Elements(t, i).end == Elements(t, i + 6).end
                    && Elements(t, i).value[0] == Code(Hex4(t, i + 2))
                    && Elements(t, i).value[1..] == Elements(t, i + 6).value)
  {
    hide Hex4;
  }

  // ---- where a string token ends ----

  /** Hex digits are neither quotes nor backslashes. */
  lemma CloseHex4(t: Text, i: nat)
    requires HasHex4(t, i)
    ensures StringEnd(t, i) == StringEnd(t, i + 4)
  {
    assert StringEnd(t, i) == StringEnd(t, i + 1);
    assert StringEnd(t, i + 1) == StringEnd(t, i + 2);
    assert StringEnd(t, i + 2) == StringEnd(t, i + 3);
  }

  /** No unit steps over the closing quote. */
  lemma UnitCloses(t: Text, i: nat)
    requires i < |t| && t[i] != '\"' && t[i] != '\0' && Unit(t, i).Parsed?
    ensures StringEnd(t, i) == StringEnd(t, Unit(t, i).end)
  {
    if t[i] == '\\' && At(t, i + 1) == 'u' {
      assert StringEnd(t, i) == StringEnd(t, i + 2);
      CloseHex4(t, i + 2);
      if Unit(t, i).end == i + 12 {
        assert StringEnd(t, i + 6) == StringEnd(t, i + 8);
        CloseHex4(t, i + 8);
      }
      hide Hex4, HasHex4;
    }
  }

  /** A string body ends at its closing quote exactly when there is one, whatever its escapes are. */
  lemma {:induction false} BodyCloses(t: Text, i: nat)
    requires i <= |t| && Body(t, i).Parsed?
    ensures At(t, Body(t, i).end) == '\"' <==> StringEnd(t, i).Some?
    ensures StringEnd(t, i).Some? ==> StringEnd(t, i).value == Body(t, i).end + 1
    ensures StringEnd(t, i).None? ==> At(t, Body(t, i).end) == '\0'
    decreases |t| - i
  {
    if At(t, i) != '\0' && At(t, i) != '\"' {
      UnitCloses(t, i);
      hide Unit;
      BodyCloses(t, Unit(t, i).end);
    }
  }

  /** A string token is read up to and including its closing quote if it has one. If it has none, the code
      accepts it all the same and has then read to the end of the text. */
  lemma TokenCloses(t: Text, i: nat)
    requires i <= |t| && ParseString(t, i).Parsed?
    ensures StringEnd(t, i + 1).Some? ==> ParseString(t, i).end == StringEnd(t, i + 1).value
    ensures StringEnd(t, i + 1).None? ==> At(t, ParseString(t, i).end) == '\0'
  {
    BodyCloses(t, i + 1);
  }

  /** Every string token of the value read at i, names included, however deeply nested, has its closing quote. */
  ghost predicate AllQuoted(t: Text, i: nat)
    requires i <= |t|
    decreases |t| - i, 0
  {
    if At(t, i) == '\"' then StringEnd(t, i + 1).Some?
    else if At(t, i) == '[' then
      var j := Skip(t, i + 1);
      At(t, j) == ']' || ItemsQuoted(t, j)
    else if At(t, i) == '{' then
      var j := Skip(t, i + 1);
      At(t, j) == '}' || MembersQuoted(t, j)
    else true
  }

  /** The same for the items of an array from i on, */
  ghost predicate ItemsQuoted(t: Text, i: nat)
    requires i <= |t|
    decreases |t| - i, 1
  {
    var v := ParseValue(t, Skip(t, i));
    && AllQuoted(t, Skip(t, i))
    && (v.Parsed? && At(t, Skip(t, v.end)) == ',' ==> ItemsQuoted(t, Skip(t, v.end) + 1))
  }

  /** and for the members of an object. */
  ghost predicate MembersQuoted(t: Text, i: nat)
    requires i <= |t|
    decreases |t| - i, 1
  {
    && At(t, Skip(t, i)) == '\"' && StringEnd(t, Skip(t, i) + 1).Some?
    && var v := MemberValue(t, i);
       v.Some? ==>
         var r := ParseValue(t, v.value);
         && AllQuoted(t, v.value)
         && (r.Parsed? && At(t, Skip(t, r.end)) == ',' ==> MembersQuoted(t, Skip(t, r.end) + 1))
  }

  /** Where the value of the member at i starts, if the member has a name and a colon. */
  function MemberValue(t: Text, i: nat): (v: Option<nat>)
    requires i <= |t|
    ensures v.Some? ==> i < v.value <= |t|
  {
    var name := ParseString(t, Skip(t, i));
    if name.Parsed? && At(t, Skip(t, name.end)) == ':' then Some(Skip(t, Skip(t, name.end) + 1)) else None
  }

  /** A value with something behind it has all its closing quotes. */
  lemma {:induction false} ValueCloses(t: Text, i: nat)
    requires i <= |t| && ParseValue(t, i).Parsed?
    requires At(t, i) == '\"' ==> At(t, Skip(t, ParseValue(t, i).end)) != '\0'
    ensures AllQuoted(t, i)
    decreases |t| - i, 0
  {
    hide StringEnd, Body, ParseItems, ParseMembers, ItemsQuoted, MembersQuoted, ParseNumber;
    if At(t, i) == '\"' {
      assert ParseValue(t, i).end == ParseString(t, i).end;
      TokenCloses(t, i);
    } else if At(t, i) == '[' {
      if At(t, Skip(t, i + 1)) != ']' {
        ItemsClose(t, Skip(t, i + 1));
      }
    } else if At(t, i) == '{' {
      if At(t, Skip(t, i + 1)) != '}' {
        MembersClose(t, Skip(t, i + 1));
      }
    }
  }

  /** In an array every string has its closing quote, */
  lemma {:induction false} ItemsClose(t: Text, i: nat)
    requires i <= |t| && ParseItems(t, i).Parsed?
    ensures ItemsQuoted(t, i)
    decreases |t| - i, 1
  {
    hide StringEnd, ParseString, ParseValue, AllQuoted;
    ValueCloses(t, Skip(t, i));
    var j := Skip(t, ParseValue(t, Skip(t, i)).end);
    if At(t, j) == ',' {
      ItemsClose(t, j + 1);
    }
  }

  /** The parts of a member list that parses. */
  lemma MemberParts(t: Text, i: nat)
    requires i <= |t| && ParseMembers(t, i).Parsed?
    ensures At(t, Skip(t, i)) == '\"' && ParseString(t, Skip(t, i)).Parsed? && MemberValue(t, i).Some?
    ensures var r := ParseValue(t, MemberValue(t, i).value);
            && r.Parsed? && At(t, Skip(t, r.end)) != '\0'
            && (At(t, Skip(t, r.end)) == ',' ==> ParseMembers(t, Skip(t, r.end) + 1).Parsed?)
  {
    hide ParseValue, Body, Skip;
  }

  lemma NameCloses(t: Text, i: nat)
    requires i <= |t| && ParseMembers(t, i).Parsed?
    ensures At(t, Skip(t, i)) == '\"' && StringEnd(t, Skip(t, i) + 1).Some?
  {
    hide *;
    MemberParts(t, i);
    NameEnds(t, i);
    TokenCloses(t, Skip(t, i));
  }

  /** A name has a colon behind it. */
  lemma NameEnds(t: Text, i: nat)
    requires i <= |t| && ParseMembers(t, i).Parsed?
    ensures ParseString(t, Skip(t, i)).Parsed? && At(t, ParseString(t, Skip(t, i)).end) != '\0'
  {
    hide ParseValue, Body;
  }

  /** and in an object every name and every string. */
  lemma {:induction false} MembersClose(t: Text, i: nat)
    requires i <= |t| && ParseMembers(t, i).Parsed?
    ensures MembersQuoted(t, i)
    decreases |t| - i, 1
  {
    hide *;
    MemberParts(t, i);
    NameCloses(t, i);
    var v := MemberValue(t, i).value;
    ValueCloses(t, v);
    var j := Skip(t, ParseValue(t, v).end);
    if At(t, j) == ',' {
      MembersClose(t, j + 1);
    }
    MembersJoin(t, i, v, j);
  }

  lemma MembersJoin(t: Text, i: nat, v: nat, j: nat)
    requires i <= |t| && At(t, Skip(t, i)) == '\"' && StringEnd(t, Skip(t, i) + 1).Some?
    requires MemberValue(t, i) == Some(v) && v <= |t| && AllQuoted(t, v)
    requires ParseValue(t, v).Parsed? && j == Skip(t, ParseValue(t, v).end) && j <= |t|
    requires At(t, j) == ',' ==> j < |t| && MembersQuoted(t, j + 1)
    ensures MembersQuoted(t, i)
  {
    hide StringEnd, ParseString, ParseValue, AllQuoted, Skip, MemberValue;
  }

  /** So a text is accepted without one of its closing quotes exactly when it is a single string that the end of
      the text cuts off. */
  lemma TextCloses(t: Text, whole: bool)
    requires ParseText(t, whole).Parsed?
    ensures var i := Skip(t, 0);
            !AllQuoted(t, i) <==> At(t, i) == '\"' && StringEnd(t, i + 1).None?
  {
    hide StringEnd, ParseValue, ItemsQuoted, MembersQuoted;
    if At(t, Skip(t, 0)) != '\"' {
      ValueCloses(t, Skip(t, 0));
    }
  }

  lemma PlainUnit(t: Text, i: nat)
    requires i < |t| && t[i] != '\"' && t[i] != '\\' && t[i] != '\0'
    ensures Body(t, i + 1).Parsed? ==> Body(t, i) == Parsed([t[i]] + Body(t, i + 1).value, Body(t, i + 1).end)
    ensures StringEnd(t, i) == StringEnd(t, i + 1)
  {
  }

  lemma CutOffToken()
    ensures ParseString("\"abc", 0) == Parsed("abc", 4)
    ensures StringEnd("\"abc", 1).None?
  {
    var t := "\"abc";
    PlainUnit(t, 1);
    PlainUnit(t, 2);
    PlainUnit(t, 3);
    assert [t[3]] + [] == "c" && [t[2]] + "c" == "bc" && [t[1]] + "bc" == "abc";
  }

  /** A text that is accepted although it breaks off. */
  lemma CutOffAccepted()
    ensures ParseText("\"abc", false) == ParseText("\"abc", true) == Parsed(String("abc"), 4)
    ensures StringEnd("\"abc", 1).None?
  {
    hide Body, StringEnd, ParseNumber, ParseArray, ParseObject;
    CutOffToken();
    assert ParseValue("\"abc", 0) == Parsed(String("abc"), 4);
  }

  // ---- the two passes of parse_string ----

  /** What the first pass counts: one per character, except that a backslash hides the character behind it. */
  function Count(t: Text, i: nat): nat
    requires i <= |t|
    decreases |t| - i
  {
    if At(t, i) == '\0' || At(t, i) == '\"' then 0
    else if t[i] == '\\' && At(t, i + 1) != '\0' then 1 + Count(t, i + 2)
    else 1 + Count(t, i + 1)
  }

  /** Hex digits are neither quotes nor backslashes, so the first pass counts each of them. */
  lemma CountHex4(t: Text, i: nat)
    requires HasHex4(t, i)
    ensures Count(t, i) == 4 + Count(t, i + 4)
  {
    assert Count(t, i) == 1 + Count(t, i + 1);
    assert Count(t, i + 1) == 1 + Count(t, i + 2);
    assert Count(t, i + 2) == 1 + Count(t, i + 3);
    assert Count(t, i + 3) == 1 + Count(t, i + 4);
  }

  /** Every unit yields at most as many bytes as the first pass has counted for it. */
  lemma UnitFits(t: Text, i: nat)
    requires i < |t| && t[i] != '\"' && t[i] != '\0' && Unit(t, i).Parsed?
    ensures |Unit(t, i).value| + Count(t, Unit(t, i).end) <= Count(t, i)
  {
    if t[i] == '\\' && At(t, i + 1) == 'u' {
      assert Count(t, i) == 1 + Count(t, i + 2);
      CountHex4(t, i + 2);
      if Unit(t, i).end == i + 12 {
        assert Count(t, i + 6) == 1 + Count(t, i + 8);
        CountHex4(t, i + 8);
      }
      hide Hex4, HasHex4;
    }
  }

  lemma {:induction false} BodyFits(t: Text, i: nat)
    requires i <= |t| && Body(t, i).Parsed?
    ensures |Body(t, i).value| <= Count(t, i)
    decreases |t| - i
  {
    if At(t, i) != '\0' && At(t, i) != '\"' {
      UnitFits(t, i);
      hide Unit;
      BodyFits(t, Unit(t, i).end);
    }
  }

  /** What the first byte of an encoding of length 1, 2, 3 or 4 is or-ed with. */
  const FIRST_BYTE_MARK: seq<bv32> := [0x00, 0x00, 0xC0, 0xE0, 0xF0]

  /** How many bytes the encoding takes, as the code finds out. */
  function Utf8Length(u: bv32): (n: nat)
    ensures 1 <= n <= 4
  {
    if u < 0x80 then 1 else if u < 0x800 then 2 else if u < 0x1_0000 then 3 else 4
  }

  lemma LengthBits(u: bv32)
    requires Nat(u) < 0x11_0000
    ensures Utf8Length(u) == |Utf8(Nat(u))|
    ensures u < 0x20_0000
  {
    hide Nat;
    Below0x80(u);
    Below0x800(u);
    Below0x1_0000(u);
    Below0x20_0000(u);
  }

  /** The lead byte that is left after n - 1 shifts. */
  lemma LeadBits(u: bv32, n: nat)
    requires 1 <= n <= 4
    requires u < if n == 1 then 0x80 else if n == 2 then 32 else if n == 3 then 16 else 8
    ensures Nat(u) < 0x80
    ensures Byte(u | FIRST_BYTE_MARK[n]) ==
            ((if n == 1 then 0 else if n == 2 then 0xC0 else if n == 3 then 0xE0 else 0xF0) + Nat(u)) as char
  {
    hide Nat, Byte;
    if n == 1 { AsciiBits(u); }
    if n == 2 { Lead2Bits(u); }
    if n == 3 { Lead3Bits(u); }
    if n == 4 { Lead4Bits(u); }
  }

  lemma ShiftedLead(u: bv32)
    requires u < 0x20_0000
    ensures u < 0x800 ==> u >> 6 < 32
    ensures u < 0x1_0000 ==> (u >> 6) >> 6 < 16
    ensures ((u >> 6) >> 6) >> 6 < 8
  {
  }

  /** One byte further back. */
  method PutContinuation(out: array<char>, p0: nat, uc0: bv32) returns (p: nat, uc: bv32)
    requires 0 < p0 <= out.Length
    modifies out
    ensures p == p0 - 1 && uc == uc0 >> 6 && Nat(uc) == Nat(uc0) / 64
    ensures out[..] == old(out[..])[p := Continuation(Nat(uc0))]
  {
    hide Nat, Byte;
    ContinuationBits(uc0);
    p := p0 - 1;
    out[p] := Byte((uc0 | 0x80) & 0xBF);
    uc := uc0 >> 6;
  }

  /** The buffer after writing the encoding from its last byte to its first. */
  lemma Written(before: Text, at: nat, u: nat, lead: char)
    requires u < 0x11_0000 && at + |Utf8(u)| <= |before| && lead == Utf8(u)[0]
    ensures var n := |Utf8(u)|;
            var b1 := if n >= 4 then before[at + n - 1 := Continuation(u)] else before;
            var u1 := if n >= 4 then u / 64 else u;
            var b2 := if n >= 3 then b1[at + 2 := Continuation(u1)] else b1;
            var u2 := if n >= 3 then u1 / 64 else u1;
            var b3 := if n >= 2 then b2[at + 1 := Continuation(u2)] else b2;
            var b4 := b3[at := lead];
            b4[at..at + n] == Utf8(u) && b4[..at] == before[..at]
  {
  }

  /** Writing a scalar value backwards from its last byte, each byte falling through to the next. */
  method WriteUtf8(out: array<char>, at: nat, u: bv32) returns (p: nat)
    requires Nat(u) < 0x11_0000 && at + |Utf8(Nat(u))| <= out.Length
    modifies out
    ensures p == at + |Utf8(Nat(u))| && out[at..p] == Utf8(Nat(u))
    ensures out[..at] == old(out[..at])
  {
    hide Nat, Byte;
    LengthBits(u);
    ShiftedLead(u);
    var n := Utf8Length(u);
    var uc := u;
    p := at + n;
    if n >= 4 {
      p, uc := PutContinuation(out, p, uc);
    }
    if n >= 3 {
      p, uc := PutContinuation(out, p, uc);
    }
    if n >= 2 {
      p, uc := PutContinuation(out, p, uc);
    }
    p := p - 1;
    LeadBits(uc, n);
    out[p] := Byte(uc | FIRST_BYTE_MARK[n]);
    p := p + n;
    Written(old(out[..]), at, Nat(u), Utf8(Nat(u))[0]);
    assert out[at..p] == out[..][at..p] && out[..at] == out[..][..at];
  }

  /** The first pass stays inside the text: no backslash is its last character. */
  predicate Scans(t: Text, i: nat)
    requires i <= |t|
    decreases |t| - i
  {
    if At(t, i) == '\0' || At(t, i) == '\"' then true
    else if t[i] == '\\' then At(t, i + 1) != '\0' && Scans(t, i + 2)
    else Scans(t, i + 1)
  }

  lemma ScansHex4(t: Text, i: nat)
    requires HasHex4(t, i) && Scans(t, i + 4)
    ensures Scans(t, i)
  {
    assert Scans(t, i + 3);
    assert Scans(t, i + 2);
    assert Scans(t, i + 1);
  }

  lemma {:induction false} BodyScans(t: Text, i: nat)
    requires i <= |t| && Body(t, i).Parsed?
    ensures Scans(t, i)
    decreases |t| - i
  {
    if At(t, i) != '\0' && At(t, i) != '\"' {
      var j := Unit(t, i).end;
      BodyScans(t, j);
      if t[i] == '\\' && t[i + 1] == 'u' {
        if j == i + 12 {
          ScansHex4(t, i + 8);
          assert Scans(t, i + 6);
        }
        ScansHex4(t, i + 2);
      }
    }
  }

  /** The first pass: how long the result is at most. */
  method FirstPass(t: Text, start: nat) returns (len: nat)
    requires start <= |t| && Body(t, start).Parsed?
    ensures len == Count(t, start)
  {
    BodyScans(t, start);
    hide Body;
    len := 0;
    var ptr := start;
    while At(t, ptr) != '\"' && At(t, ptr) != '\0'
      invariant start <= ptr <= |t| && Scans(t, ptr) && len + Count(t, ptr) == Count(t, start)
      decreases |t| - ptr
    {
      len := len + 1;
      ptr := ptr + 1;
      if t[ptr - 1] == '\\' {
        ptr := ptr + 1;
      }
    }
  }

  /** The `u` case: one code unit, or two of them that form a pair. */
  method DecodeCode(t: Text, ptr0: nat, out: array<char>, at0: nat) returns (ptr: nat, at: nat)
    requires ptr0 < |t| && t[ptr0] == '\\' && At(t, ptr0 + 1) == 'u' && Unit(t, ptr0).Parsed?
    requires at0 + |Unit(t, ptr0).value| <= out.Length
    modifies out
    ensures ptr + 1 == Unit(t, ptr0).end && at == at0 + |Unit(t, ptr0).value|
    ensures out[..at0] == old(out[..at0]) && out[at0..at] == Unit(t, ptr0).value
  {
    hide Nat, Utf8, Pair, Hex4;
    ptr, at := ptr0 + 1, at0;
    var uc := ParseHex4(t, ptr + 1);
    ptr := ptr + 4;
    SurrogateBits(uc);
    if !(0xDC00 <= uc <= 0xDFFF) && uc != 0 {
      if !(0xD800 <= uc <= 0xDBFF) {
        at := WriteUtf8(out, at, uc);
      } else if At(t, ptr + 1) == '\\' && At(t, ptr + 2) == 'u' {
        var uc2 := ParseHex4(t, ptr + 3);
        ptr := ptr + 6;
        SurrogateBits(uc2);
        if 0xDC00 <= uc2 <= 0xDFFF {
          PairBits(uc, uc2);
          at := WriteUtf8(out, at, 0x1_0000 + (((uc & 0x3FF) << 10) | (uc2 & 0x3FF)));
        }
      }
    }
  }

  /** One round of the second pass at ptr, writing behind the first `at` characters of out. */
  method DecodeUnit(t: Text, ptr0: nat, out: array<char>, at0: nat) returns (ptr: nat, at: nat)
    requires ptr0 < |t| && t[ptr0] != '\"' && t[ptr0] != '\0' && Unit(t, ptr0).Parsed?
    requires at0 + |Unit(t, ptr0).value| <= out.Length
    modifies out
    ensures ptr == Unit(t, ptr0).end && at == at0 + |Unit(t, ptr0).value|
    ensures out[..at] == old(out[..at0]) + Unit(t, ptr0).value
  {
    hide Hex4, Utf8, HasHex4;
    ptr, at := ptr0, at0;
    if t[ptr] != '\\' {
      out[at] := t[ptr];
      at := at + 1;
    } else {
      ptr := ptr + 1;
      if t[ptr] != 'u' {
        out[at] := Unescape(t[ptr]);
        at := at + 1;
      } else {
        ptr, at := DecodeCode(t, ptr0, out, at);
      }
    }
    ptr := ptr + 1;
    assert out[..at] == out[..at0] + out[at0..at];
  }

  /** The second pass: every unit of the body, one behind the other. */
  method SecondPass(t: Text, start: nat, out: array<char>) returns (ptr: nat, at: nat)
    requires NulFree(t) && start <= |t| && Body(t, start).Parsed? && |Body(t, start).value| <= out.Length
    modifies out
    ensures ptr == Body(t, start).end && at == |Body(t, start).value|
    ensures out[..at] == Body(t, start).value
  {
    hide Unit;
    ptr, at := start, 0;
    while At(t, ptr) != '\"' && At(t, ptr) != '\0'
      invariant start <= ptr <= |t| && at <= out.Length
      invariant Body(t, ptr).Parsed? && Body(t, ptr).end == Body(t, start).end
      invariant out[..at] + Body(t, ptr).value == Body(t, start).value
      decreases |t| - ptr
    {
      ghost var unit, more := Unit(t, ptr).value, Body(t, Unit(t, ptr).end).value;
      assert out[..at] + (unit + more) == out[..at] + unit + more;
      ptr, at := DecodeUnit(t, ptr, out, at);
    }
  }

  /** parse_string, for a text whose escapes are complete: None when there is no opening quote, and otherwise
      the decoded bytes with their NUL in a buffer sized by the first pass, their number, and the position in the
      text behind the token. */
  method ParseStringBuffer(t: Text, str: nat) returns (r: Option<(array<char>, nat, nat)>)
    requires NulFree(t) && str <= |t| && ParseString(t, str) != Truncated
    ensures r.None? <==> ParseString(t, str).Failed?
    ensures r.Some? ==>
              var (out, at, end) := r.value;
              var p := ParseString(t, str);
              && fresh(out) && out.Length == Count(t, str + 1) + 1 && end == p.end
              && at == |p.value| < out.Length && out[..at] == p.value && out[at] == '\0'
  {
    if At(t, str) != '\"' {
      return None;
    }
    var len := FirstPass(t, str + 1);
    BodyFits(t, str + 1);
    hide Body, Count;
    var out := new char[len + 1];
    var ptr, at := SecondPass(t, str + 1, out);
    out[at] := '\0';
    if At(t, ptr) == '\"' {
      ptr := ptr + 1;
    }
    r := Some((out, at, ptr));
  }

  // ---- the two passes of print_string_ptr ----

  lemma {:induction false} EscapeAllSplit(a: Text, b: Text)
    ensures EscapeAll(a + b) == EscapeAll(a) + EscapeAll(b)
    decreases |a|
  {
    hide Escape;
    if a == [] {
      assert a + b == b;
    } else {
      EscapeAllSplit(a[1..], b);
      assert (a + b)[1..] == a[1..] + b;
    }
  }

  /** How much longer a character gets. */
  function Extra(c: char): nat {
    if c == '\"' || c == '\\' || ShortEscape(c) != '\0' then 1 else if c < 32 as char then 5 else 0
  }

  lemma ExtraIsEscape(c: char)
    ensures |Escape(c)| == 1 + Extra(c)
  {
  }

  /** A control character without a short escape. */
  method WriteControl(c: char, out: array<char>, at: nat)
    requires at + 6 <= out.Length && c < 32 as char
    modifies out
    ensures out[..at] == old(out[..at])
    ensures out[at..at + 6] == ['\\', 'u', '0', '0', HexDigit(c as int / 16), HexDigit(c as int % 16)]
  {
    out[at], out[at + 1], out[at + 2], out[at + 3] := '\\', 'u', '0', '0';
    out[at + 4], out[at + 5] := HexDigit(c as int / 16), HexDigit(c as int % 16);
  }

  /** One character, escaped, at position at. */
  method WriteEscape(c: char, out: array<char>, at0: nat) returns (at: nat)
    requires at0 + |Escape(c)| <= out.Length
    modifies out
    ensures at == at0 + |Escape(c)| && out[..at] == old(out[..at0]) + Escape(c)
  {
    hide HexDigit;
    if c > 31 as char && c != '\"' && c != '\\' {
      out[at0] := c;
      at := at0 + 1;
    } else if ShortEscape(c) != '\0' {
      out[at0], out[at0 + 1] := '\\', ShortEscape(c);
      at := at0 + 2;
    } else {
      WriteControl(c, out, at0);
      at := at0 + 6;
    }
    assert out[..at] == out[..at0] + out[at0..at];
  }

  lemma EscapeOne(c: char)
    ensures EscapeAll([c]) == Escape(c)
  {
    assert [c][1..] == [];
    assert Escape(c) + [] == Escape(c);
  }

  lemma EscapeNext(s: Text, i: nat)
    requires i < |s|
    ensures EscapeAll(s[..i + 1]) == EscapeAll(s[..i]) + Escape(s[i])
    ensures |EscapeAll(s[..i + 1])| <= |EscapeAll(s)|
  {
    hide EscapeAll, Escape;
    assert s[..i + 1] == s[..i] + [s[i]];
    EscapeAllSplit(s[..i], [s[i]]);
    EscapeOne(s[i]);
    assert s == s[..i + 1] + s[i + 1..];
    EscapeAllSplit(s[..i + 1], s[i + 1..]);
  }

  /** The measuring pass. */
  method MeasureString(s: Text) returns (len: nat)
    ensures len == |EscapeAll(s)|
  {
    assert EscapeAll(s[..0]) == [];
    assert s[..|s|] == s;
    hide EscapeAll, Escape, Extra;
    len := 0;
    for i := 0 to |s|
      invariant len == |EscapeAll(s[..i])|
    {
      EscapeNext(s, i);
      ExtraIsEscape(s[i]);
      len := len + 1 + Extra(s[i]);
    }
  }

  /** The writing pass, behind the first `at0` characters of out. */
  method WriteString(s: Text, out: array<char>, at0: nat) returns (at: nat)
    requires at0 + |EscapeAll(s)| <= out.Length
    modifies out
    ensures at == at0 + |EscapeAll(s)| && out[..at] == old(out[..at0]) + EscapeAll(s)
  {
    assert EscapeAll(s[..0]) == [];
    assert s[..|s|] == s;
    hide EscapeAll, Escape;
    at := at0;
    for i := 0 to |s|
      invariant at == at0 + |EscapeAll(s[..i])| <= at0 + |EscapeAll(s)|
      invariant out[..at] == old(out[..at0]) + EscapeAll(s[..i])
    {
      EscapeNext(s, i);
      at := WriteEscape(s[i], out, at);
    }
  }

  /** print_string_ptr: the measuring pass and the writing pass agree to the byte. Null if memory runs out. */
  method PrintStringPtr(heap: H.Heap, s: Text) returns (out: array?<char>)
    requires NulFree(s)
    modifies heap`live, heap`plan
    ensures H.Plenty(old(heap.plan)) ==> out != null && H.Plenty(heap.plan)
    ensures out == null ==> heap.live == old(heap.live)
    ensures out != null ==> fresh(out) && heap.live == old(heap.live) + {out} && out[..] == Quote(s) + ['\0']
  {
    hide EscapeAll;
    var len := MeasureString(s);
    out := heap.NewChars(len + 3);
    if out == null {
      return;
    }
    out[0] := '\"';
    var at := WriteString(s, out, 1);
    out[at] := '\"';
    out[at + 1] := '\0';
    assert out[..] == out[..at] + ['\"', '\0'];
  }
}
