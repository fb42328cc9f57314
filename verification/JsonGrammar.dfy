/** JSON texts as RFC 8259 writes them, with white space, escapes, fractions and exponents, and what they mean.
    Between the tokens there may be comments as well, which only the minifier knows. */
module JsonGrammar {
  import opened Json
  import opened Options

  // ---- strings ----

  /** A hexadecimal digit, in either case. */
  datatype Hex = Hex(value: nat, upper: bool)

  predicate HexOk(h: Hex) {
    h.value < 16
  }

  function HexText(h: Hex): char
    requires HexOk(h)
  {
    if h.upper then "0123456789ABCDEF"[h.value] else "0123456789abcdef"[h.value]
  }

  /** Four hexadecimal digits, the most significant first. */
  datatype Quad = Quad(a: Hex, b: Hex, c: Hex, d: Hex)

  predicate QuadOk(q: Quad) {
    HexOk(q.a) && HexOk(q.b) && HexOk(q.c) && HexOk(q.d)
  }

  function QuadText(q: Quad): (r: Text)
    requires QuadOk(q)
    ensures |r| == 4
  {
    [HexText(q.a), HexText(q.b), HexText(q.c), HexText(q.d)]
  }

  function QuadValue(q: Quad): (u: nat)
    requires QuadOk(q)
    ensures u < 0x1_0000
  {
    0x1000 * q.a.value + 0x100 * q.b.value + 0x10 * q.c.value + q.d.value
  }

  /** One character of a string: as it is, or escaped with a letter, with its number, or with the numbers of a
      surrogate pair. */
  datatype Piece = Raw(ch: char) | Short(letter: char) | Code(q: Quad) | Surrogates(hi: Quad, lo: Quad)

  predicate PieceOk(p: Piece) {
    match p
    case Raw(c) => c >= ' ' && c != '\"' && c != '\\'
    case Short(c) => c in "\"\\/bfnrt"
    case Code(q) => QuadOk(q) && QuadValue(q) != 0 && !(0xD800 <= QuadValue(q) <= 0xDFFF)
    case Surrogates(hi, lo) =>
      QuadOk(hi) && QuadOk(lo) && 0xD800 <= QuadValue(hi) <= 0xDBFF && 0xDC00 <= QuadValue(lo) <= 0xDFFF
  }

  function PieceText(p: Piece): (r: Text)
    requires PieceOk(p)
    ensures |r| >= 1
  {
    match p
    case Raw(c) => [c]
    case Short(c) => ['\\', c]
    case Code(q) => "\\u" + QuadText(q)
    case Surrogates(hi, lo) => "\\u" + QuadText(hi) + "\\u" + QuadText(lo)
  }

  /** The bytes of a scalar value. */
  function Bytes(u: nat): Text
    requires u < 0x11_0000
  {
    if u <= 0x7F then [u as char]
    else if u <= 0x7FF then [(0xC0 + u / 0x40) as char, (0x80 + u % 0x40) as char]
    else if u <= 0xFFFF then
      [(0xE0 + u / 0x1000) as char, (0x80 + u / 0x40 % 0x40) as char, (0x80 + u % 0x40) as char]
    else
      [(0xF0 + u / 0x4_0000) as char, (0x80 + u / 0x1000 % 0x40) as char, (0x80 + u / 0x40 % 0x40) as char,
       (0x80 + u % 0x40) as char]
  }

  function PieceMeaning(p: Piece): Text
    requires PieceOk(p)
  {
    match p
    case Raw(c) => [c]
    case Short(c) =>
      if c == 'b' then [8 as char] else if c == 'f' then [12 as char] else if c == 'n' then [10 as char]
      else if c == 'r' then [13 as char] else if c == 't' then [9 as char] else [c]
    case Code(q) => Bytes(QuadValue(q))
    case Surrogates(hi, lo) => Bytes(0x1_0000 + (QuadValue(hi) - 0xD800) * 0x400 + (QuadValue(lo) - 0xDC00))
  }

  predicate PiecesOk(ps: seq<Piece>) {
    forall p | p in ps :: PieceOk(p)
  }

  function PiecesText(ps: seq<Piece>): Text
    requires PiecesOk(ps)
  {
    if ps == [] then [] else PieceText(ps[0]) + PiecesText(ps[1..])
  }

  function PiecesMeaning(ps: seq<Piece>): Text
    requires PiecesOk(ps)
  {
    if ps == [] then [] else PieceMeaning(ps[0]) + PiecesMeaning(ps[1..])
  }

  function Quoted(ps: seq<Piece>): Text
    requires PiecesOk(ps)
  {
    "\"" + (PiecesText(ps) + "\"")
  }

  // ---- numbers ----

  datatype Sign = NoSign | Plus | Minus

  /** The exponent part: its letter, sign and digits. */
  datatype Exp = Exp(upper: bool, sign: Sign, digits: seq<nat>)

  /** The integer part has no leading zero; without a fraction `frac` is empty. */
  datatype Numeral = Numeral(negative: bool, whole: seq<nat>, frac: seq<nat>, exp: Option<Exp>)

  predicate DigitsOk(ds: seq<nat>) {
    forall k | 0 <= k < |ds| :: ds[k] < 10
  }

  predicate NumeralOk(n: Numeral) {
    && DigitsOk(n.whole) && n.whole != [] && (n.whole[0] == 0 ==> |n.whole| == 1) && DigitsOk(n.frac)
    && (n.exp.Some? ==> DigitsOk(n.exp.value.digits) && n.exp.value.digits != [])
  }

  function DigitsText(ds: seq<nat>): (r: Text)
    requires DigitsOk(ds)
    ensures |r| == |ds|
  {
    seq(|ds|, k requires 0 <= k < |ds| => "0123456789"[ds[k]])
  }

  function SignText(s: Sign): Text {
    match s
    case NoSign => ""
    case Plus => "+"
    case Minus => "-"
  }

  function FracText(ds: seq<nat>): Text
    requires DigitsOk(ds)
  {
    if ds == [] then [] else "." + DigitsText(ds)
  }

  function ExpText(e: Option<Exp>): Text
    requires e.Some? ==> DigitsOk(e.value.digits)
  {
    if e.None? then []
    else (if e.value.upper then "E" else "e") + (SignText(e.value.sign) + DigitsText(e.value.digits))
  }

  function NumeralText(n: Numeral): Text
    requires NumeralOk(n)
  {
    (if n.negative then "-" else "") + (DigitsText(n.whole) + (FracText(n.frac) + ExpText(n.exp)))
  }

  /** The number that decimal digits stand for. */
  function Decimal(ds: seq<nat>): nat {
    if ds == [] then 0 else 10 * Decimal(ds[..|ds| - 1]) + ds[|ds| - 1]
  }

  /** The mantissa, decimal point left out. */
  function Mantissa(n: Numeral): int {
    (if n.negative then -1 else 1) * Decimal(n.whole + n.frac)
  }

  function ExpValue(e: Option<Exp>): int {
    if e.None? then 0
    else if e.value.sign == Minus then -(Decimal(e.value.digits) as int)
    else Decimal(e.value.digits)
  }

  function NumeralMeaning(n: Numeral): Value {
    Number(Mantissa(n), ExpValue(n.exp) - |n.frac|)
  }

  // ---- what stands between tokens ----

  datatype Trivia = White(ch: char) | Line(s: Text) | Block(s: Text)

  predicate TriviaOk(x: Trivia) {
    match x
    case White(c) => c in " \t\n\r"
    case Line(s) => NulFree(s) && '\n' !in s
    case Block(s) => NulFree(s) && NoMark(s) && (s != [] ==> s[0] != '/')
  }

  /** No star is followed by a slash. */
  predicate NoMark(s: Text) {
    forall k | 0 <= k < |s| - 1 :: !(s[k] == '*' && s[k + 1] == '/')
  }

  function TriviaText(x: Trivia): (r: Text)
    ensures |r| >= 1
  {
    match x
    case White(c) => [c]
    case Line(s) => "//" + s + "\n"
    case Block(s) => "/*" + s + "*/"
  }

  type Gap = seq<Trivia>

  predicate GapOk(g: Gap) {
    forall x | x in g :: TriviaOk(x)
  }

  function GapText(g: Gap): Text {
    if g == [] then [] else TriviaText(g[0]) + GapText(g[1..])
  }

  /** White space only. */
  predicate Bare(g: Gap) {
    forall x | x in g :: x.White?
  }

  // ---- documents ----

  datatype Doc =
    | NullDoc | FalseDoc | TrueDoc
    | NumberDoc(n: Numeral)
    | StringDoc(ps: seq<Piece>)
    | ArrayDoc(items: Entries)
    | ObjectDoc(members: Pairs)

  /** The items of an array, each with what stands before and behind it, or the inside of an empty one. */
  datatype Entries = NoEntries(gap: Gap) | Entry(before: Gap, v: Doc, after: Gap, more: Option<Entries>)

  datatype Pairs =
    | NoPairs(gap: Gap)
    | Named(before: Gap, name: seq<Piece>, behind: Gap, ahead: Gap, v: Doc, after: Gap, more: Option<Pairs>)

  predicate DocOk(d: Doc) {
    match d
    case NumberDoc(n) => NumeralOk(n)
    case StringDoc(ps) => PiecesOk(ps)
    case ArrayDoc(items) => EntriesOk(items)
    case ObjectDoc(members) => PairsOk(members)
    case _ => true
  }

  predicate EntriesOk(es: Entries) {
    match es
    case NoEntries(g) => GapOk(g)
    case Entry(before, v, after, more) =>
      && GapOk(before) && DocOk(v) && GapOk(after)
      && (more.Some? ==> more.value.Entry? && EntriesOk(more.value))
  }

  predicate PairsOk(ps: Pairs) {
    match ps
    case NoPairs(g) => GapOk(g)
    case Named(before, name, behind, ahead, v, after, more) =>
      && GapOk(before) && PiecesOk(name) && GapOk(behind) && GapOk(ahead) && DocOk(v) && GapOk(after)
      && (more.Some? ==> more.value.Named? && PairsOk(more.value))
  }

  /** Without comments: JSON proper. */
  predicate Standard(d: Doc) {
    match d
    case ArrayDoc(items) => StandardEntries(items)
    case ObjectDoc(members) => StandardPairs(members)
    case _ => true
  }

  predicate StandardEntries(es: Entries) {
    match es
    case NoEntries(g) => Bare(g)
    case Entry(before, v, after, more) =>
      Bare(before) && Standard(v) && Bare(after) && (more.Some? ==> StandardEntries(more.value))
  }

  predicate StandardPairs(ps: Pairs) {
    match ps
    case NoPairs(g) => Bare(g)
    case Named(before, _, behind, ahead, v, after, more) =>
      && Bare(before) && Bare(behind) && Bare(ahead) && Standard(v) && Bare(after)
      && (more.Some? ==> StandardPairs(more.value))
  }

  function DocText(d: Doc): Text
    requires DocOk(d)
  {
    match d
    case NullDoc => "null"
    case FalseDoc => "false"
    case TrueDoc => "true"
    case NumberDoc(n) => NumeralText(n)
    case StringDoc(ps) => Quoted(ps)
    case ArrayDoc(items) => "[" + EntriesText(items)
    case ObjectDoc(members) => "{" + PairsText(members)
  }

  function EntriesText(es: Entries): (r: Text)
    requires EntriesOk(es)
  {
    match es
    case NoEntries(g) => GapText(g) + "]"
    case Entry(before, v, after, more) =>
      GapText(before) + (DocText(v) + (GapText(after) + if more.None? then "]" else "," + EntriesText(more.value)))
  }

  function PairsText(ps: Pairs): (r: Text)
    requires PairsOk(ps)
  {
    match ps
    case NoPairs(g) => GapText(g) + "}"
    case Named(before, name, behind, ahead, v, after, more) =>
      GapText(before) + (Quoted(name) + (GapText(behind) + (":" + (GapText(ahead) + (DocText(v) + (GapText(after)
      + if more.None? then "}" else "," + PairsText(more.value)))))))
  }

  function Meaning(d: Doc): Value
    requires DocOk(d)
  {
    match d
    case NullDoc => Value.Null
    case FalseDoc => False
    case TrueDoc => True
    case NumberDoc(n) => NumeralMeaning(n)
    case StringDoc(ps) => String(PiecesMeaning(ps))
    case ArrayDoc(items) => Array(EntriesMeaning(items))
    case ObjectDoc(members) => Object(PairsMeaning(members))
  }

  function EntriesMeaning(es: Entries): Items
    requires EntriesOk(es)
  {
    match es
    case NoEntries(_) => NoItems
    case Entry(_, v, _, more) => Item(Meaning(v), if more.None? then NoItems else EntriesMeaning(more.value))
  }

  function PairsMeaning(ps: Pairs): Members
    requires PairsOk(ps)
  {
    match ps
    case NoPairs(_) => NoMembers
    case Named(_, name, _, _, v, _, more) =>
      Member(PiecesMeaning(name), Meaning(v), if more.None? then NoMembers else PairsMeaning(more.value))
  }
}
