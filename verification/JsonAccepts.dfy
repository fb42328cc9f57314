/** The parser reads every JSON text and yields its meaning. */
module JsonAccepts {
  import opened Json
  import G = JsonGrammar
  import opened JsonParse
  import opened JsonScan
  import opened Options

  // ---- strings ----

  /** Both cases of every hexadecimal digit. */
  lemma HexReads(d: nat)
    requires d < 16
    ensures IsHex("0123456789ABCDEF"[d]) && HexValue("0123456789ABCDEF"[d]) == d
    ensures IsHex("0123456789abcdef"[d]) && HexValue("0123456789abcdef"[d]) == d
  {
  }

  lemma NoHexMark(h: G.Hex)
    requires G.HexOk(h)
    ensures G.HexText(h) != '\"' && G.HexText(h) != '\\' && G.HexText(h) != '\0'
  {
  }

  /** Four digits are read most significant first. */
  lemma QuadReads(t: Text, i: nat, q: G.Quad)
    requires G.QuadOk(q) && Starts(t, i, G.QuadText(q))
    ensures HasHex4(t, i) && Hex4(t, i) == G.QuadValue(q)
  {
    StartsAt(t, i, G.QuadText(q), 0);
    StartsAt(t, i, G.QuadText(q), 1);
    StartsAt(t, i, G.QuadText(q), 2);
    StartsAt(t, i, G.QuadText(q), 3);
    HexReads(q.a.value);
    HexReads(q.b.value);
    HexReads(q.c.value);
    HexReads(q.d.value);
    hide HexValue;
  }

  lemma BytesAre(u: nat)
    requires u < 0x11_0000
    ensures Utf8(u) == G.Bytes(u)
  {
    assert u / 64 / 64 == u / 0x1000 && u / 64 / 64 / 64 == u / 0x4_0000;
  }

  lemma CodeAt(t: Text, i: nat, q: G.Quad)
    requires G.QuadOk(q) && Starts(t, i, "\\u" + G.QuadText(q))
    ensures i + 6 <= |t| && t[i] == '\\' && t[i + 1] == 'u' && HasHex4(t, i + 2) && Hex4(t, i + 2) == G.QuadValue(q)
  {
    StartsSplit(t, i, "\\u", G.QuadText(q));
    StartsAt(t, i, "\\u", 0);
    StartsAt(t, i, "\\u", 1);
    QuadReads(t, i + 2, q);
    hide Hex4, HasHex4;
  }

  lemma UnitOfShort(t: Text, i: nat, c: char)
    requires c in "\"\\/bfnrt" && Starts(t, i, ['\\', c])
    ensures i + 2 <= |t| && t[i] == '\\' && Unit(t, i) == Parsed(G.PieceMeaning(G.Short(c)), i + 2)
  {
    StartsAt(t, i, ['\\', c], 0);
    StartsAt(t, i, ['\\', c], 1);
    hide Utf8, Hex4, HasHex4;
  }

  lemma UnitOfCode(t: Text, i: nat, q: G.Quad)
    requires G.PieceOk(G.Code(q)) && Starts(t, i, "\\u" + G.QuadText(q))
    ensures i + 6 <= |t| && t[i] == '\\' && Unit(t, i) == Parsed(G.Bytes(G.QuadValue(q)), i + 6)
  {
    CodeAt(t, i, q);
    BytesAre(G.QuadValue(q));
    hide Hex4, HasHex4, Utf8, G.Bytes, G.QuadValue, Starts;
  }

  lemma SurrogatesShape(hi: G.Quad, lo: G.Quad)
    requires G.PieceOk(G.Surrogates(hi, lo))
    ensures G.QuadOk(hi) && 0xD800 <= G.QuadValue(hi) <= 0xDBFF && G.QuadOk(lo) && 0xDC00 <= G.QuadValue(lo) <= 0xDFFF
    ensures G.PieceText(G.Surrogates(hi, lo)) == ("\\u" + G.QuadText(hi)) + ("\\u" + G.QuadText(lo))
    ensures G.PieceMeaning(G.Surrogates(hi, lo)) ==
            G.Bytes(0x1_0000 + (G.QuadValue(hi) - 0xD800) * 0x400 + (G.QuadValue(lo) - 0xDC00))
  {
    hide G.QuadValue, G.Bytes, G.QuadText;
  }

  lemma UnitOfSurrogates(t: Text, i: nat, hi: G.Quad, lo: G.Quad)
    requires G.PieceOk(G.Surrogates(hi, lo)) && Starts(t, i, G.PieceText(G.Surrogates(hi, lo)))
    ensures i + 12 <= |t| && t[i] == '\\' && Unit(t, i) == Parsed(G.PieceMeaning(G.Surrogates(hi, lo)), i + 12)
  {
    hide *;
    SurrogatesShape(hi, lo);
    StartsSplit(t, i, "\\u" + G.QuadText(hi), "\\u" + G.QuadText(lo));
    CodeAt(t, i, hi);
    CodeAt(t, i + 6, lo);
    var u, v := G.QuadValue(hi), G.QuadValue(lo);
    UnitOfPair(t, i, u, v);
    BytesAre(0x1_0000 + (u - 0xD800) * 0x400 + (v - 0xDC00));
  }

  lemma UnitOfPair(t: Text, i: nat, u: nat, v: nat)
    requires i + 12 <= |t| && t[i] == t[i + 6] == '\\' && t[i + 1] == t[i + 7] == 'u'
    requires HasHex4(t, i + 2) && Hex4(t, i + 2) == u && 0xD800 <= u <= 0xDBFF
    requires HasHex4(t, i + 8) && Hex4(t, i + 8) == v && 0xDC00 <= v <= 0xDFFF
    ensures Unit(t, i) == Parsed(Utf8(0x1_0000 + (u - 0xD800) * 0x400 + (v - 0xDC00)), i + 12)
  {
    hide Hex4, HasHex4, Utf8;
  }

  /** Every way to write a character is decoded to its bytes. */
  lemma UnitOfPiece(t: Text, i: nat, p: G.Piece)
    requires G.PieceOk(p) && Starts(t, i, G.PieceText(p))
    ensures i < |t| && t[i] != '\"' && t[i] != '\0' && Unit(t, i) == Parsed(G.PieceMeaning(p), i + |G.PieceText(p)|)
  {
    match p
    case Raw(c) => StartsAt(t, i, [c], 0);
    case Short(c) =>
      UnitOfShort(t, i, c);
      hide Unit;
    case Code(q) =>
      UnitOfCode(t, i, q);
      hide Unit, Starts, G.QuadValue, G.Bytes;
    case Surrogates(hi, lo) =>
      UnitOfSurrogates(t, i, hi, lo);
      hide Unit, Starts, G.QuadValue, G.Bytes;
  }

  lemma {:induction false} BodyOfPieces(t: Text, i: nat, ps: seq<G.Piece>)
    requires G.PiecesOk(ps) && Starts(t, i, G.PiecesText(ps) + "\"")
    ensures Body(t, i) == Parsed(G.PiecesMeaning(ps), i + |G.PiecesText(ps)|)
    decreases |ps|
  {
    hide Unit, Starts, G.PieceText, G.PieceMeaning;
    if ps == [] {
      assert G.PiecesText(ps) + "\"" == "\"";
      StartsAt(t, i, "\"", 0);
    } else {
      var p, rest := G.PieceText(ps[0]), G.PiecesText(ps[1..]);
      assert G.PiecesText(ps) + "\"" == p + (rest + "\"");
      StartsSplit(t, i, p, rest + "\"");
      UnitOfPiece(t, i, ps[0]);
      BodyOfPieces(t, i + |p|, ps[1..]);
      UnitThen(t, i, G.PieceMeaning(ps[0]), i + |p|, G.PiecesMeaning(ps[1..]), i + |p| + |rest|);
    }
  }

  lemma QuotedShape(ps: seq<G.Piece>)
    requires G.PiecesOk(ps)
    ensures G.Quoted(ps) == "\"" + (G.PiecesText(ps) + "\"") && |G.Quoted(ps)| == |G.PiecesText(ps)| + 2
  {
  }

  lemma StringReads(t: Text, i: nat, ps: seq<G.Piece>)
    requires G.PiecesOk(ps) && Starts(t, i, G.Quoted(ps))
    ensures ParseString(t, i) == Parsed(G.PiecesMeaning(ps), i + |G.Quoted(ps)|)
    ensures i < |t| && t[i] == '\"'
  {
    hide *;
    QuotedShape(ps);
    var body := G.PiecesText(ps);
    StartsSplit(t, i, "\"", body + "\"");
    StartsAt(t, i, "\"", 0);
    AtIs(t, i);
    StartsAt(t, i + 1, body + "\"", |body|);
    AtIs(t, i + 1 + |body|);
    BodyOfPieces(t, i + 1, ps);
    QuotedToken(t, i, G.PiecesMeaning(ps), i + 1 + |body|);
  }

  lemma AtIs(t: Text, i: nat)
    ensures At(t, i) != '\0' ==> i < |t| && t[i] == At(t, i)
  {
  }

  // ---- numbers ----

  /** Reading digits onto n. */
  function Onto(n: nat, ds: seq<nat>): nat
    decreases |ds|
  {
    if ds == [] then n else Onto(10 * n + ds[0], ds[1..])
  }

  lemma {:induction false} OntoIs(n: nat, ds: seq<nat>, es: seq<nat>)
    requires n == G.Decimal(ds)
    ensures Onto(n, es) == G.Decimal(ds + es)
    decreases |es|
  {
    if es == [] {
      assert ds + es == ds;
    } else {
      assert (ds + [es[0]])[..|ds|] == ds && ds + es == (ds + [es[0]]) + es[1..];
      OntoIs(10 * n + es[0], ds + [es[0]], es[1..]);
    }
  }

  lemma DigitReads(d: nat)
    requires d < 10
    ensures IsDigit("0123456789"[d]) && DigitValue("0123456789"[d]) == d
    ensures "0123456789"[d] == '0' <==> d == 0
  {
  }

  lemma DigitsTextSplit(ds: seq<nat>)
    requires G.DigitsOk(ds) && ds != []
    ensures G.DigitsOk(ds[1..]) && G.DigitsText(ds) == ["0123456789"[ds[0]]] + G.DigitsText(ds[1..])
  {
  }

  lemma {:induction false} DigitsRead(t: Text, i: nat, n: nat, ds: seq<nat>)
    requires G.DigitsOk(ds) && Starts(t, i, G.DigitsText(ds))
    ensures i + |ds| <= |t| && ReadDigits(t, i, n) == ReadDigits(t, i + |ds|, Onto(n, ds))
    ensures ds != [] ==> i < |t| && IsDigit(t[i]) && (t[i] == '0' <==> ds[0] == 0)
    decreases |ds|
  {
    if ds != [] {
      var c := "0123456789"[ds[0]];
      DigitsTextSplit(ds);
      DigitReads(ds[0]);
      hide G.DigitsText;
      StartsAt(t, i, G.DigitsText(ds), 0);
      StartsSplit(t, i, [c], G.DigitsText(ds[1..]));
      hide Starts;
      DigitsRead(t, i + 1, 10 * n + ds[0], ds[1..]);
    }
  }

  /** Digits with something else behind them. */
  lemma DigitsEnd(t: Text, i: nat, n: nat, ds: seq<nat>)
    requires G.DigitsOk(ds) && Starts(t, i, G.DigitsText(ds)) && !IsDigit(At(t, i + |ds|))
    ensures i + |ds| <= |t| && ReadDigits(t, i, n) == (Onto(n, ds), i + |ds|)
  {
    DigitsRead(t, i, n, ds);
  }

  function Letter(upper: bool): (c: char)
    ensures !IsDigit(c) && c != '.'
  {
    if upper then 'E' else 'e'
  }

  lemma ExpShape(e: G.Exp)
    requires G.DigitsOk(e.digits)
    ensures G.ExpText(Some(e)) == [Letter(e.upper)] + (G.SignText(e.sign) + G.DigitsText(e.digits))
    ensures |G.ExpText(Some(e))| == 1 + |G.SignText(e.sign)| + |e.digits|
    ensures |G.SignText(e.sign)| == if e.sign.NoSign? then 0 else 1
  {
    hide G.DigitsText;
  }

  /** What the characters of an exponent part say. */
  lemma ExpParts(t: Text, i: nat, e: G.Exp, end: nat)
    requires G.DigitsOk(e.digits) && e.digits != [] && Starts(t, i, G.ExpText(Some(e)))
    requires end == i + |G.ExpText(Some(e))| && !IsDigit(At(t, end))
    ensures At(t, i) == Letter(e.upper) && SignAt(t, i + 1, e.sign)
    ensures var j := if e.sign.NoSign? then i + 1 else i + 2;
            j <= |t| && ReadDigits(t, j, 0) == (G.Decimal(e.digits), end)
  {
    hide *;
    ExpShape(e);
    ExpPlaces(t, i, [Letter(e.upper)], G.SignText(e.sign), e.digits);
    SignIs(t, i + 1, e.sign);
    FromZero(e.digits);
  }

  lemma ExpPlaces(t: Text, i: nat, letter: Text, sign: Text, ds: seq<nat>)
    requires G.DigitsOk(ds) && ds != [] && |letter| == 1
    requires Starts(t, i, letter + (sign + G.DigitsText(ds))) && !IsDigit(At(t, i + 1 + |sign| + |ds|))
    ensures At(t, i) == letter[0] && Starts(t, i + 1, sign)
    ensures i + 1 + |sign| <= |t| && IsDigit(At(t, i + 1 + |sign|))
    ensures ReadDigits(t, i + 1 + |sign|, 0) == (Onto(0, ds), i + 1 + |sign| + |ds|)
  {
    hide *;
    StartsSplit(t, i, letter, sign + G.DigitsText(ds));
    StartsAt(t, i, letter, 0);
    StartsSplit(t, i + 1, sign, G.DigitsText(ds));
    DigitsEnd(t, i + 1 + |sign|, 0, ds);
    FirstDigit(t, i + 1 + |sign|, ds);
  }

  /** The sign at i, or a digit. */
  predicate SignAt(t: Text, i: nat, sign: G.Sign) {
    match sign
    case NoSign => IsDigit(At(t, i))
    case Plus => At(t, i) == '+'
    case Minus => At(t, i) == '-'
  }

  lemma SignIs(t: Text, i: nat, sign: G.Sign)
    requires Starts(t, i, G.SignText(sign)) && IsDigit(At(t, i + |G.SignText(sign)|))
    ensures SignAt(t, i, sign)
  {
    if sign != G.NoSign {
      StartsAt(t, i, G.SignText(sign), 0);
    }
  }

  lemma FirstDigit(t: Text, i: nat, ds: seq<nat>)
    requires G.DigitsOk(ds) && ds != [] && Starts(t, i, G.DigitsText(ds))
    ensures i < |t| && IsDigit(At(t, i)) && (At(t, i) == '0' <==> ds[0] == 0)
  {
    DigitsRead(t, i, 0, ds);
  }

  lemma FromZero(ds: seq<nat>)
    ensures Onto(0, ds) == G.Decimal(ds)
  {
    OntoIs(0, [], ds);
    assert [] + ds == ds;
  }

  /** The exponent part, or its absence. */
  lemma ExpReads(t: Text, i: nat, e: Option<G.Exp>)
    requires e.Some? ==> G.DigitsOk(e.value.digits) && e.value.digits != []
    requires Starts(t, i, G.ExpText(e)) && EndsNumber(t, i + |G.ExpText(e)|)
    ensures i <= |t| && Exponent(t, i) == (G.ExpValue(e), i + |G.ExpText(e)|)
    ensures !IsDigit(At(t, i)) && !(At(t, i) == '.' && IsDigit(At(t, i + 1)))
  {
    hide *;
    if e.Some? {
      EndsDigits(t, i + |G.ExpText(e)|);
      ExpParts(t, i, e.value, i + |G.ExpText(e)|);
      SomeExp(t, i, e.value, i + |G.ExpText(e)|);
      LetterIs(e.value.upper);
    } else {
      NoExp(t, i);
    }
  }

  lemma EndsDigits(t: Text, i: nat)
    requires EndsNumber(t, i)
    ensures !IsDigit(At(t, i))
  {
  }

  lemma LetterIs(upper: bool)
    ensures !IsDigit(Letter(upper)) && Letter(upper) != '.'
  {
  }

  lemma NoExp(t: Text, i: nat)
    requires Starts(t, i, G.ExpText(None)) && EndsNumber(t, i + |G.ExpText(None)|)
    ensures i <= |t| && |G.ExpText(None)| == 0 && Exponent(t, i) == (G.ExpValue(None), i)
    ensures !IsDigit(At(t, i)) && !(At(t, i) == '.' && IsDigit(At(t, i + 1)))
  {
  }

  lemma SomeExp(t: Text, i: nat, e: G.Exp, end: nat)
    requires At(t, i) == Letter(e.upper) && SignAt(t, i + 1, e.sign)
    requires var j := if e.sign.NoSign? then i + 1 else i + 2;
             j <= |t| && ReadDigits(t, j, 0) == (G.Decimal(e.digits), end)
    ensures i <= |t| && Exponent(t, i) == (G.ExpValue(Some(e)), end)
  {
    hide ReadDigits, G.Decimal;
  }

  /** The sign of a number, and what follows it. */
  lemma MinusReads(t: Text, i: nat, negative: bool, rest: Text)
    requires Starts(t, i, (if negative then "-" else "") + rest) && rest != [] && IsDigit(rest[0])
    ensures var j := if negative then i + 1 else i; Starts(t, j, rest) && IsDigit(At(t, j))
    ensures i < |t| && (t[i] == '-' <==> negative) && (negative || IsDigit(t[i]))
  {
    var minus := if negative then "-" else "";
    StartsSplit(t, i, minus, rest);
    StartsAt(t, i + |minus|, rest, 0);
    if negative {
      StartsAt(t, i, minus, 0);
    }
  }

  /** The integer part. */
  lemma WholeReads(t: Text, i: nat, ds: seq<nat>)
    requires G.DigitsOk(ds) && ds != [] && (ds[0] == 0 ==> |ds| == 1) && Starts(t, i, G.DigitsText(ds))
    requires !IsDigit(At(t, i + |ds|))
    ensures i + |ds| <= |t|
    ensures if ds[0] == 0 then At(t, i) == '0' && |ds| == 1 && G.Decimal(ds) == 0
            else '1' <= At(t, i) <= '9' && ReadDigits(t, i, 0) == (G.Decimal(ds), i + |ds|)
  {
    hide ReadDigits, Starts, G.DigitsText;
    FirstDigit(t, i, ds);
    DigitsEnd(t, i, 0, ds);
    FromZero(ds);
    if ds[0] == 0 {
      assert ds == [0] && [0][..0] == [];
    }
  }

  /** The fraction, or its absence. */
  lemma FracReads(t: Text, i: nat, n: nat, ds: seq<nat>, fs: seq<nat>)
    requires G.DigitsOk(fs) && n == G.Decimal(ds) && Starts(t, i, G.FracText(fs))
    requires var j := i + |G.FracText(fs)|; !IsDigit(At(t, j)) && !(At(t, j) == '.' && IsDigit(At(t, j + 1)))
    ensures var j := i + |G.FracText(fs)|;
            && !IsDigit(At(t, i)) && j <= |t| && j == i + (if fs == [] then 0 else 1 + |fs|)
            && if At(t, i) == '.' && IsDigit(At(t, i + 1)) then
                 fs != [] && ReadDigits(t, i + 1, n) == (G.Decimal(ds + fs), j)
               else fs == [] && G.Decimal(ds + fs) == n
  {
    hide ReadDigits, Starts, G.DigitsText;
    if fs == [] {
      assert ds + fs == ds;
      StartsBound(t, i, []);
    } else {
      StartsSplit(t, i, ".", G.DigitsText(fs));
      StartsAt(t, i, ".", 0);
      FirstDigit(t, i + 1, fs);
      DigitsEnd(t, i + 1, n, fs);
      OntoIs(n, ds, fs);
    }
  }

  lemma StartsBound(t: Text, i: nat, s: Text)
    requires Starts(t, i, s)
    ensures i + |s| <= |t|
  {
  }

  lemma SignificandIs(t: Text, i: nat, negative: bool, d: nat, i2: nat, m: nat, i3: nat)
    requires i < |t| && (t[i] == '-' <==> negative) && (negative || IsDigit(t[i]))
    requires var i1 := if negative then i + 1 else i;
             && i1 < i2 <= |t|
             && if At(t, i1) == '0' then d == 0 && i2 == i1 + 1 && !IsDigit(At(t, i2))
                else '1' <= At(t, i1) <= '9' && ReadDigits(t, i1, 0) == (d, i2)
    requires if At(t, i2) == '.' && IsDigit(At(t, i2 + 1)) then ReadDigits(t, i2 + 1, d) == (m, i3)
             else m == d && i3 == i2
    ensures Significand(t, i) == ((if negative then -1 else 1) * m, if i3 == i2 then 0 else i2 + 1 - i3, i3)
  {
    hide ReadDigits;
  }

  lemma NumeralShape(n: G.Numeral)
    requires G.NumeralOk(n)
    ensures var rest := G.DigitsText(n.whole) + (G.FracText(n.frac) + G.ExpText(n.exp));
            && G.NumeralText(n) == (if n.negative then "-" else "") + rest && rest != [] && IsDigit(rest[0])
            && |G.NumeralText(n)|
              == (if n.negative then 1 else 0) + |n.whole| + |G.FracText(n.frac)| + |G.ExpText(n.exp)|
  {
    DigitReads(n.whole[0]);
    hide G.FracText, G.ExpText;
  }

  /** parse_number reads every number of the grammar exactly. */
  lemma NumberReads(t: Text, i: nat, n: G.Numeral)
    requires G.NumeralOk(n) && Starts(t, i, G.NumeralText(n)) && EndsNumber(t, i + |G.NumeralText(n)|)
    ensures i < |t| && (t[i] == '-' || IsDigit(t[i]))
    ensures ParseNumber(t, i) == Parsed(G.NumeralMeaning(n), i + |G.NumeralText(n)|)
  {
    hide *;
    NumeralParts(n);
    NumeralShape(n);
    var frac, exp := G.FracText(n.frac), G.ExpText(n.exp);
    var rest := G.DigitsText(n.whole) + (frac + exp);
    MinusReads(t, i, n.negative, rest);
    var i1 := if n.negative then i + 1 else i;
    StartsSplit(t, i1, G.DigitsText(n.whole), frac + exp);
    var i2 := i1 + |n.whole|;
    StartsSplit(t, i2, frac, exp);
    var i3 := i2 + |frac|;
    ExpReads(t, i3, n.exp);
    var d := G.Decimal(n.whole);
    FracReads(t, i2, d, n.whole, n.frac);
    WholeReads(t, i1, n.whole);
    SignificandIs(t, i, n.negative, d, i2, G.Decimal(n.whole + n.frac), i3);
    NumberIs(t, i, n, i3, i3 + |exp|);
  }

  lemma NumeralParts(n: G.Numeral)
    requires G.NumeralOk(n)
    ensures G.DigitsOk(n.whole) && n.whole != [] && (n.whole[0] == 0 ==> |n.whole| == 1) && G.DigitsOk(n.frac)
    ensures n.exp.Some? ==> G.DigitsOk(n.exp.value.digits) && n.exp.value.digits != []
    ensures |G.FracText(n.frac)| == if n.frac == [] then 0 else 1 + |n.frac|
  {
  }

  lemma NumberIs(t: Text, i: nat, n: G.Numeral, k: nat, end: nat)
    requires G.NumeralOk(n) && i < |t| && (t[i] == '-' || IsDigit(t[i])) && k <= |t|
    requires Significand(t, i) == ((if n.negative then -1 else 1) * G.Decimal(n.whole + n.frac), -|n.frac|, k)
    requires Exponent(t, k) == (G.ExpValue(n.exp), end)
    ensures ParseNumber(t, i) == Parsed(G.NumeralMeaning(n), end)
  {
    hide Significand, Exponent, G.Decimal, G.ExpValue;
  }

  // ---- documents ----

  lemma {:induction false} GapBlank(g: G.Gap)
    requires G.GapOk(g) && G.Bare(g)
    ensures Blank(G.GapText(g))
    decreases |g|
  {
    if g != [] {
      assert g[0] in g;
      GapBlank(g[1..]);
    }
  }

  /** A value starts with a visible character that is not a closing bracket. */
  lemma FirstChar(d: G.Doc)
    requires G.DocOk(d)
    ensures var s := G.DocText(d); |s| > 0 && s[0] > ' ' && s[0] != ']' && s[0] != '}'
  {
    match d
    case NumberDoc(n) =>
      NumeralShape(n);
      hide G.NumeralText, G.DigitsText, G.FracText, G.ExpText;
    case StringDoc(ps) => QuotedShape(ps);
    case _ => hide G.EntriesText, G.PairsText;
  }

  /** White space, then a visible character. */
  lemma GapSkipped(t: Text, i: nat, g: G.Gap, rest: Text)
    requires G.GapOk(g) && G.Bare(g) && rest != [] && rest[0] > ' ' && Starts(t, i, G.GapText(g) + rest)
    ensures var j := i + |G.GapText(g)|;
            j < |t| && t[j] == rest[0] && Skip(t, i) == j && Starts(t, j, rest)
  {
    hide *;
    GapBlank(g);
    StartsSplit(t, i, G.GapText(g), rest);
    SkipOver(t, i, G.GapText(g));
    var j := i + |G.GapText(g)|;
    StartsAt(t, j, rest, 0);
    AtIs(t, j);
    SkipStays(t, j);
  }

  predicate Ending(c: char) {
    c == ',' || c == ']' || c == '}'
  }

  /** Neither white space nor what may follow it extends a number. */
  lemma GapEndsNumber(t: Text, i: nat, g: G.Gap, rest: Text)
    requires G.GapOk(g) && G.Bare(g) && rest != [] && Ending(rest[0]) && Starts(t, i, G.GapText(g) + rest)
    ensures EndsNumber(t, i)
  {
    GapBlank(g);
    hide G.GapText, Starts;
    StartsAt(t, i, G.GapText(g) + rest, 0);
  }

  /** What follows an item, or a member. */
  function EntriesTail(more: Option<G.Entries>): (r: Text)
    requires more.Some? ==> G.EntriesOk(more.value)
    ensures r != [] && r[0] == if more.None? then ']' else ','
  {
    if more.None? then "]" else "," + G.EntriesText(more.value)
  }

  function PairsTail(more: Option<G.Pairs>): (r: Text)
    requires more.Some? ==> G.PairsOk(more.value)
    ensures r != [] && r[0] == if more.None? then '}' else ','
  {
    if more.None? then "}" else "," + G.PairsText(more.value)
  }

  /** A value with its surroundings: how it is found, read and left. */
  lemma {:induction false} ValueReads(t: Text, i: nat, before: G.Gap, v: G.Doc, after: G.Gap, tail: Text)
    requires G.GapOk(before) && G.Bare(before) && G.GapOk(after) && G.Bare(after) && G.DocOk(v) && G.Standard(v)
    requires tail != [] && Ending(tail[0])
    requires Starts(t, i, G.GapText(before) + (G.DocText(v) + (G.GapText(after) + tail)))
    ensures i <= |t|
    ensures var j := i + |G.GapText(before)|;
            var end := j + |G.DocText(v)|;
            var last := end + |G.GapText(after)|;
            && Skip(t, i) == j && ParseValue(t, j) == Parsed(G.Meaning(v), end)
            && last < |t| && Skip(t, end) == last && t[last] == tail[0] && Starts(t, last, tail)
    decreases v, 2
  {
    hide *;
    FirstChar(v);
    ShownFirst(v, G.GapText(after) + tail);
    GapSkipped(t, i, before, G.DocText(v) + (G.GapText(after) + tail));
    var j := i + |G.GapText(before)|;
    StartsSplit(t, j, G.DocText(v), G.GapText(after) + tail);
    var end := j + |G.DocText(v)|;
    GapEndsNumber(t, end, after, tail);
    EndingShown(tail[0]);
    GapSkipped(t, end, after, tail);
    DocReads(t, j, v);
  }

  lemma ShownFirst(v: G.Doc, rest: Text)
    requires G.DocOk(v)
    ensures var s := G.DocText(v) + rest; s != [] && s[0] > ' ' && s[0] == G.DocText(v)[0]
  {
    FirstChar(v);
    hide G.DocText;
  }

  lemma EndingShown(c: char)
    requires Ending(c)
    ensures c > ' ' && (c == ',' || c == ']' || c == '}')
  {
  }

  lemma EntryShape(before: G.Gap, v: G.Doc, after: G.Gap, more: Option<G.Entries>)
    requires G.EntriesOk(G.Entry(before, v, after, more))
    ensures G.EntriesText(G.Entry(before, v, after, more)) ==
            G.GapText(before) + (G.DocText(v) + (G.GapText(after) + EntriesTail(more)))
    ensures |G.EntriesText(G.Entry(before, v, after, more))| ==
            |G.GapText(before)| + |G.DocText(v)| + |G.GapText(after)| + |EntriesTail(more)|
    ensures G.EntriesMeaning(G.Entry(before, v, after, more)) ==
            Item(G.Meaning(v), if more.None? then NoItems else G.EntriesMeaning(more.value))
  {
    hide G.DocText, G.GapText, G.Meaning;
  }

  /** One round of the item loop. */
  lemma ItemStep(t: Text, i: nat, v: Value, end: nat)
    requires i <= |t| && ParseValue(t, Skip(t, i)) == Parsed(v, end) && Skip(t, end) < |t|
    ensures At(t, Skip(t, end)) == ']' ==> ParseItems(t, i) == Parsed(Item(v, NoItems), Skip(t, end) + 1)
    ensures At(t, Skip(t, end)) == ',' ==>
              (var r := ParseItems(t, Skip(t, end) + 1);
               r.Parsed? ==> ParseItems(t, i) == Parsed(Item(v, r.value), r.end))
  {
    hide ParseValue, Skip;
  }

  /** Where the first item starts and ends, and where its tail is. */
  lemma {:induction false} EntryReads(t: Text, i: nat, es: G.Entries) returns (end: nat, last: nat)
    requires G.EntriesOk(es) && G.StandardEntries(es) && es.Entry? && Starts(t, i, G.EntriesText(es))
    ensures i <= |t| && ParseValue(t, Skip(t, i)) == Parsed(G.Meaning(es.v), end) && end <= |t|
    ensures Skip(t, end) == last < |t| && t[last] == EntriesTail(es.more)[0] && Starts(t, last, EntriesTail(es.more))
    ensures last + |EntriesTail(es.more)| == i + |G.EntriesText(es)|
    decreases es, 1
  {
    hide *;
    EntriesParts(es);
    EntryShape(es.before, es.v, es.after, es.more);
    ValueReads(t, i, es.before, es.v, es.after, EntriesTail(es.more));
    end := i + |G.GapText(es.before)| + |G.DocText(es.v)|;
    last := end + |G.GapText(es.after)|;
  }

  /** The items that start at i, read from there or from behind some of the white space before them. */
  lemma {:induction false} EntriesRead(t: Text, from: nat, i: nat, es: G.Entries)
    requires G.EntriesOk(es) && G.StandardEntries(es) && es.Entry? && Starts(t, i, G.EntriesText(es))
    requires from <= |t| && i <= |t| && Skip(t, from) == Skip(t, i)
    ensures ParseItems(t, from) == Parsed(G.EntriesMeaning(es), i + |G.EntriesText(es)|)
    decreases es, 2
  {
    hide *;
    EntriesParts(es);
    EntryShape(es.before, es.v, es.after, es.more);
    var end, last := EntryReads(t, i, es);
    AtInside(t, last);
    ItemStep(t, from, G.Meaning(es.v), end);
    if es.more.Some? {
      TailSplit(t, last, es.more.value);
      EntriesRead(t, last + 1, last + 1, es.more.value);
    } else {
      NoTail();
    }
  }

  lemma EntriesParts(es: G.Entries)
    requires G.EntriesOk(es) && G.StandardEntries(es) && es.Entry?
    ensures EntriesTail(es.more)[0] == if es.more.None? then ']' else ','
    ensures G.GapOk(es.before) && G.Bare(es.before) && G.GapOk(es.after) && G.Bare(es.after)
    ensures G.DocOk(es.v) && G.Standard(es.v)
    ensures es.more.Some? ==> es.more.value.Entry? && G.EntriesOk(es.more.value) && G.StandardEntries(es.more.value)
    ensures Ending(EntriesTail(es.more)[0])
  {
  }

  lemma AtInside(t: Text, i: nat)
    requires i < |t|
    ensures At(t, i) == t[i]
  {
  }

  lemma TailSplit(t: Text, i: nat, more: G.Entries)
    requires G.EntriesOk(more) && Starts(t, i, EntriesTail(Some(more)))
    ensures Starts(t, i + 1, G.EntriesText(more)) && |EntriesTail(Some(more))| == 1 + |G.EntriesText(more)|
  {
    hide G.EntriesText, Starts;
    StartsSplit(t, i, ",", G.EntriesText(more));
  }

  lemma NoTail()
    ensures EntriesTail(None) == "]" && PairsTail(None) == "}"
  {
  }

  /** parse_value reads every JSON text and stops right behind it. */
  lemma {:induction false} DocReads(t: Text, i: nat, d: G.Doc)
    requires G.DocOk(d) && G.Standard(d) && Starts(t, i, G.DocText(d))
    requires d.NumberDoc? ==> EndsNumber(t, i + |G.DocText(d)|)
    ensures i <= |t| && ParseValue(t, i) == Parsed(G.Meaning(d), i + |G.DocText(d)|)
    decreases d, 1
  {
    hide ParseItems, ParseMembers, ParseArray, ParseObject, ParseString, ParseNumber, G.EntriesText, G.PairsText,
      G.NumeralText, G.Quoted, Starts, EndsNumber;
    FirstChar(d);
    StartsBound(t, i, G.DocText(d));
    StartsAt(t, i, G.DocText(d), 0);
    NoKeyword(t, i);
    match d
    case NumberDoc(n) =>
      NumberReads(t, i, n);
    case StringDoc(ps) => StringReads(t, i, ps);
    case ArrayDoc(items) => ArrayReads(t, i, items);
    case ObjectDoc(members) => ObjectReads(t, i, members);
    case _ =>
  }

  lemma {:induction false} ArrayReads(t: Text, i: nat, es: G.Entries)
    requires G.EntriesOk(es) && G.StandardEntries(es) && Starts(t, i, "[" + G.EntriesText(es))
    ensures i < |t| && ParseArray(t, i) == Parsed(G.EntriesMeaning(es), i + 1 + |G.EntriesText(es)|)
    decreases es, 3
  {
    hide ParseItems, Starts, Skip;
    StartsSplit(t, i, "[", G.EntriesText(es));
    StartsAt(t, i, "[", 0);
    if es.NoEntries? {
      GapSkipped(t, i + 1, es.gap, "]");
    } else {
      FirstItem(t, i + 1, es);
      SkipTwice(t, i + 1);
      EntriesRead(t, Skip(t, i + 1), i + 1, es);
    }
  }

  /** The first item is not a closing bracket. */
  lemma FirstItem(t: Text, i: nat, es: G.Entries)
    requires G.EntriesOk(es) && G.StandardEntries(es) && es.Entry? && Starts(t, i, G.EntriesText(es))
    ensures i <= |t| && At(t, Skip(t, i)) != ']'
  {
    hide *;
    EntriesParts(es);
    FirstChar(es.v);
    EntryShape(es.before, es.v, es.after, es.more);
    ShownFirst(es.v, G.GapText(es.after) + EntriesTail(es.more));
    GapSkipped(t, i, es.before, G.DocText(es.v) + (G.GapText(es.after) + EntriesTail(es.more)));
    AtInside(t, i + |G.GapText(es.before)|);
  }

  lemma {:induction false} ObjectReads(t: Text, i: nat, ps: G.Pairs)
    requires G.PairsOk(ps) && G.StandardPairs(ps) && Starts(t, i, "{" + G.PairsText(ps))
    ensures i < |t| && ParseObject(t, i) == Parsed(G.PairsMeaning(ps), i + 1 + |G.PairsText(ps)|)
    decreases ps, 3
  {
    hide ParseMembers, Starts, Skip;
    StartsSplit(t, i, "{", G.PairsText(ps));
    StartsAt(t, i, "{", 0);
    if ps.NoPairs? {
      GapSkipped(t, i + 1, ps.gap, "}");
    } else {
      SkipTwice(t, i + 1);
      PairsRead(t, Skip(t, i + 1), i + 1, ps);
    }
  }

  /** Everything of a member behind its name. */
  function BehindName(ps: G.Pairs): (r: Text)
    requires G.PairsOk(ps) && ps.Named?
  {
    G.GapText(ps.behind) + (":"
      + (G.GapText(ps.ahead) + (G.DocText(ps.v) + (G.GapText(ps.after) + PairsTail(ps.more)))))
  }

  lemma NamedShape(ps: G.Pairs)
    requires G.PairsOk(ps) && ps.Named?
    ensures G.PairsText(ps) == G.GapText(ps.before) + (G.Quoted(ps.name) + BehindName(ps))
    ensures |G.PairsText(ps)| ==
            |G.GapText(ps.before)| + |G.Quoted(ps.name)| + |G.GapText(ps.behind)| + 1 + |G.GapText(ps.ahead)|
            + |G.DocText(ps.v)| + |G.GapText(ps.after)| + |PairsTail(ps.more)|
  {
    hide G.DocText, G.GapText, G.Meaning, G.Quoted, G.PiecesMeaning;
  }

  /** The name and its colon. */
  lemma NameReads(t: Text, i: nat, before: G.Gap, name: seq<G.Piece>, behind: G.Gap, rest: Text)
    requires G.GapOk(before) && G.Bare(before) && G.PiecesOk(name) && G.GapOk(behind) && G.Bare(behind)
    requires Starts(t, i, G.GapText(before) + (G.Quoted(name) + (G.GapText(behind) + (":" + rest))))
    ensures i <= |t|
    ensures var j := i + |G.GapText(before)|;
            var k := j + |G.Quoted(name)|;
            var colon := k + |G.GapText(behind)|;
            && Skip(t, i) == j && At(t, j) == '\"' && ParseString(t, j) == Parsed(G.PiecesMeaning(name), k)
            && Skip(t, k) == colon && colon < |t| && t[colon] == ':' && Starts(t, colon + 1, rest)
  {
    hide *;
    QuotedShape(name);
    GapSkipped(t, i, before, G.Quoted(name) + (G.GapText(behind) + (":" + rest)));
    var j := i + |G.GapText(before)|;
    StartsSplit(t, j, G.Quoted(name), G.GapText(behind) + (":" + rest));
    StringReads(t, j, name);
    AtInside(t, j);
    var k := j + |G.Quoted(name)|;
    GapSkipped(t, k, behind, ":" + rest);
    StartsSplit(t, k + |G.GapText(behind)|, ":", rest);
  }

  /** One round of the member loop. */
  lemma MemberStep(t: Text, i: nat, name: Text, k: nat, v: Value, end: nat)
    requires i <= |t| && ParseString(t, Skip(t, i)) == Parsed(name, k) && Skip(t, k) < |t| && t[Skip(t, k)] == ':'
    requires ParseValue(t, Skip(t, Skip(t, k) + 1)) == Parsed(v, end) && Skip(t, end) < |t|
    ensures At(t, Skip(t, end)) == '}' ==> ParseMembers(t, i) == Parsed(Member(name, v, NoMembers), Skip(t, end) + 1)
    ensures At(t, Skip(t, end)) == ',' ==>
              (var r := ParseMembers(t, Skip(t, end) + 1);
               r.Parsed? ==> ParseMembers(t, i) == Parsed(Member(name, v, r.value), r.end))
  {
    hide ParseValue, ParseString, Skip;
  }

  /** Where the name, the value and the tail of the first member are. */
  lemma {:induction false} NamedReads(t: Text, i: nat, ps: G.Pairs) returns (k: nat, end: nat, last: nat)
    requires G.PairsOk(ps) && G.StandardPairs(ps) && ps.Named? && Starts(t, i, G.PairsText(ps))
    ensures i <= |t| && At(t, Skip(t, i)) == '\"'
    ensures ParseString(t, Skip(t, i)) == Parsed(G.PiecesMeaning(ps.name), k) && k <= |t|
    ensures Skip(t, k) < |t| && t[Skip(t, k)] == ':'
      && ParseValue(t, Skip(t, Skip(t, k) + 1)) == Parsed(G.Meaning(ps.v), end)
    ensures end <= |t| && Skip(t, end) == last < |t| && t[last] == PairsTail(ps.more)[0]
    ensures Starts(t, last, PairsTail(ps.more)) && last + |PairsTail(ps.more)| == i + |G.PairsText(ps)|
    decreases ps, 1
  {
    hide *;
    PairsParts(ps);
    NamedShape(ps);
    BehindIs(ps);
    var tail := PairsTail(ps.more);
    NameReads(t, i, ps.before, ps.name, ps.behind,
      G.GapText(ps.ahead) + (G.DocText(ps.v) + (G.GapText(ps.after) + tail)));
    k := i + |G.GapText(ps.before)| + |G.Quoted(ps.name)|;
    var colon := k + |G.GapText(ps.behind)|;
    ValueReads(t, colon + 1, ps.ahead, ps.v, ps.after, tail);
    end := colon + 1 + |G.GapText(ps.ahead)| + |G.DocText(ps.v)|;
    last := end + |G.GapText(ps.after)|;
  }

  lemma {:induction false} PairsRead(t: Text, from: nat, i: nat, ps: G.Pairs)
    requires G.PairsOk(ps) && G.StandardPairs(ps) && ps.Named? && Starts(t, i, G.PairsText(ps))
    requires from <= |t| && i <= |t| && Skip(t, from) == Skip(t, i)
    ensures At(t, Skip(t, i)) == '\"'
    ensures ParseMembers(t, from) == Parsed(G.PairsMeaning(ps), i + |G.PairsText(ps)|)
    decreases ps, 2
  {
    hide *;
    PairsParts(ps);
    MeaningOfNamed(ps);
    var k, end, last := NamedReads(t, i, ps);
    AtInside(t, last);
    MemberStep(t, from, G.PiecesMeaning(ps.name), k, G.Meaning(ps.v), end);
    if ps.more.Some? {
      PairsTailSplit(t, last, ps.more.value);
      PairsRead(t, last + 1, last + 1, ps.more.value);
    } else {
      NoTail();
    }
  }

  lemma MeaningOfNamed(ps: G.Pairs)
    requires G.PairsOk(ps) && ps.Named?
    ensures G.PiecesOk(ps.name) && G.DocOk(ps.v)
    ensures G.PairsMeaning(ps) == Member(G.PiecesMeaning(ps.name), G.Meaning(ps.v),
                                         if ps.more.None? then NoMembers else G.PairsMeaning(ps.more.value))
  {
  }

  lemma PairsParts(ps: G.Pairs)
    requires G.PairsOk(ps) && G.StandardPairs(ps) && ps.Named?
    ensures G.GapOk(ps.before) && G.Bare(ps.before) && G.PiecesOk(ps.name) && G.GapOk(ps.behind) && G.Bare(ps.behind)
    ensures G.GapOk(ps.ahead) && G.Bare(ps.ahead) && G.GapOk(ps.after) && G.Bare(ps.after)
    ensures G.DocOk(ps.v) && G.Standard(ps.v) && Ending(PairsTail(ps.more)[0])
    ensures PairsTail(ps.more)[0] == if ps.more.None? then '}' else ','
    ensures ps.more.Some? ==> ps.more.value.Named? && G.PairsOk(ps.more.value) && G.StandardPairs(ps.more.value)
  {
  }

  lemma BehindIs(ps: G.Pairs)
    requires G.PairsOk(ps) && ps.Named?
    ensures BehindName(ps) ==
            G.GapText(ps.behind) + (":" + (G.GapText(ps.ahead) + (G.DocText(ps.v) + (G.GapText(ps.after)
            + PairsTail(ps.more)))))
  {
  }

  lemma PairsTailSplit(t: Text, i: nat, more: G.Pairs)
    requires G.PairsOk(more) && Starts(t, i, PairsTail(Some(more)))
    ensures Starts(t, i + 1, G.PairsText(more)) && |PairsTail(Some(more))| == 1 + |G.PairsText(more)|
  {
    hide G.PairsText, Starts;
    StartsSplit(t, i, ",", G.PairsText(more));
  }

  /** The whole parse: any JSON text, with white space before and behind it, is accepted with its meaning. */
  lemma TextReads(before: G.Gap, d: G.Doc, after: G.Gap)
    requires G.GapOk(before) && G.Bare(before) && G.GapOk(after) && G.Bare(after) && G.DocOk(d) && G.Standard(d)
    ensures var t := G.GapText(before) + (G.DocText(d) + G.GapText(after));
            && ParseText(t, true) == Parsed(G.Meaning(d), |t|)
            && ParseText(t, false) == Parsed(G.Meaning(d), |t| - |G.GapText(after)|)
  {
    hide *;
    var a, s, b := G.GapText(before), G.DocText(d), G.GapText(after);
    var t := a + (s + b);
    WholeStarts(t);
    ShownFirst(d, b);
    GapSkipped(t, 0, before, s + b);
    StartsSplit(t, |a|, s, b);
    GapBlank(after);
    BlankEndsNumber(t, |a| + |s|, b);
    DocReads(t, |a|, d);
    SkipOver(t, |a| + |s|, b);
    EndOfText(t);
    TextIs(t, G.Meaning(d), |a|, |a| + |s|);
  }

  lemma WholeStarts(t: Text)
    ensures Starts(t, 0, t)
  {
  }

  lemma EndOfText(t: Text)
    ensures Skip(t, |t|) == |t| && At(t, |t|) == '\0'
  {
  }

  lemma TextIs(t: Text, v: Value, start: nat, end: nat)
    requires Skip(t, 0) == start <= |t| && ParseValue(t, start) == Parsed(v, end) && Skip(t, end) == |t|
    ensures ParseText(t, true) == Parsed(v, |t|) && ParseText(t, false) == Parsed(v, end)
  {
    hide ParseValue, Skip;
  }

  lemma BlankEndsNumber(t: Text, i: nat, s: Text)
    requires Blank(s) && Starts(t, i, s) && i + |s| == |t|
    ensures EndsNumber(t, i)
  {
    if s != [] {
      StartsAt(t, i, s, 0);
    }
  }
}
