/** cJSON's recursive-descent parser as a function of the text and a position in it. */
module JsonParse {
  import opened Json
  import opened Options

  /** A parse succeeds and stops somewhere, fails at an error position, or meets an incomplete escape: a backslash at
      the end of the text or a `u` without four hexadecimal digits behind it. There the C code may step over the
      closing quote or the end of its input. */
  datatype Outcome<+T> = Parsed(value: T, end: nat) | Failed(at: nat) | Truncated {
    predicate IsFailure() { !Parsed? }
    function PropagateFailure<U>(): Outcome<U>
      requires IsFailure()
    {
      match this
      case Failed(at) => Failed(at)
      case Truncated => Truncated
    }
    function Extract(): (T, nat)
      requires Parsed?
    {
      (value, end)
    }
  }

  /** *(text + i), with the terminating NUL. */
  function At(t: Text, i: nat): char {
    if i < |t| then t[i] else '\0'
  }

  predicate Starts(t: Text, i: nat, s: Text) {
    i + |s| <= |t| && t[i..i + |s|] == s
  }

  /** Jump whitespace and every other control character. */
  function Skip(t: Text, i: nat): (r: nat)
    requires i <= |t|
    ensures i <= r <= |t|
    decreases |t| - i
  {
    if At(t, i) != '\0' && At(t, i) <= ' ' then Skip(t, i + 1) else i
  }

  predicate IsDigit(c: char) {
    '0' <= c <= '9'
  }

  function DigitValue(c: char): nat
    requires IsDigit(c)
  {
    (c - '0') as int
  }

  /** Accumulate decimal digits onto n. */
  function ReadDigits(t: Text, i: nat, n: nat): (r: (nat, nat))
    requires i <= |t|
    ensures i <= r.1 <= |t|
    ensures i < |t| && IsDigit(t[i]) ==> i < r.1
    decreases |t| - i
  {
    if IsDigit(At(t, i)) then ReadDigits(t, i + 1, 10 * n + DigitValue(At(t, i))) else (n, i)
  }

  /** Sign, digits and fraction of a number: the signed mantissa, its scale and where they end. */
  function Significand(t: Text, i: nat): (r: (int, int, nat))
    requires i < |t| && (t[i] == '-' || IsDigit(t[i]))
    ensures i < r.2 <= |t|
  {
    var sign: int := if t[i] == '-' then -1 else 1;
    var i1 := if t[i] == '-' then i + 1 else i;
    var i2 := if At(t, i1) == '0' then i1 + 1 else i1;
    var (n, i3) := if '1' <= At(t, i2) <= '9' then ReadDigits(t, i2, 0) else (0, i2);
    var (m, i4) := if At(t, i3) == '.' && IsDigit(At(t, i3 + 1)) then ReadDigits(t, i3 + 1, n) else (n, i3);
    (sign * m, if i4 == i3 then 0 else i3 + 1 - i4, i4)
  }

  /** What an exponent part adds to the scale, and where it ends. */
  function Exponent(t: Text, i: nat): (r: (int, nat))
    requires i <= |t|
    ensures i <= r.1 <= |t|
  {
    if At(t, i) == 'e' || At(t, i) == 'E' then
      var negative := At(t, i + 1) == '-';
      var (e, end) := ReadDigits(t, if At(t, i + 1) == '+' || negative then i + 2 else i + 1, 0);
      var scale: int := e;
      (if negative then -scale else scale, end)
    else
      (0, i)
  }

  /** parse_number: the exact value is mantissa * 10^exponent. It never fails. */
  function ParseNumber(t: Text, i: nat): (r: Outcome<Value>)
    requires i < |t| && (t[i] == '-' || IsDigit(t[i]))
    ensures r.Parsed? && i < r.end <= |t|
  {
    var (mantissa, scale, k) := Significand(t, i);
    var (e, end) := Exponent(t, k);
    Parsed(Number(mantissa, scale + e), end)
  }

  predicate IsHex(c: char) {
    IsDigit(c) || 'A' <= c <= 'F' || 'a' <= c <= 'f'
  }

  function HexValue(c: char): (d: nat)
    requires IsHex(c)
    ensures d < 16
  {
    if IsDigit(c) then (c - '0') as int
    else if 'A' <= c <= 'F' then 10 + (c - 'A') as int
    else 10 + (c - 'a') as int
  }

  predicate HasHex4(t: Text, i: nat) {
    i + 4 <= |t| && IsHex(t[i]) && IsHex(t[i + 1]) && IsHex(t[i + 2]) && IsHex(t[i + 3])
  }

  function Hex4(t: Text, i: nat): (u: nat)
    requires HasHex4(t, i)
    ensures u < 0x1_0000
  {
    ((HexValue(t[i]) * 16 + HexValue(t[i + 1])) * 16 + HexValue(t[i + 2])) * 16 + HexValue(t[i + 3])
  }

  /** A continuation byte, and the lead byte with its mark. */
  function Continuation(u: nat): char {
    (0x80 + u % 64) as char
  }

  /** The UTF-8 encoding of a scalar value. */
  function Utf8(u: nat): (r: Text)
    requires u < 0x11_0000
    ensures 1 <= |r| <= 4
  {
    if u < 0x80 then [u as char]
    else if u < 0x800 then [(0xC0 + u / 64) as char, Continuation(u)]
    else if u < 0x1_0000 then [(0xE0 + u / 64 / 64) as char, Continuation(u / 64), Continuation(u)]
    else [(0xF0 + u / 64 / 64 / 64) as char, Continuation(u / 64 / 64), Continuation(u / 64), Continuation(u)]
  }

  predicate IsHigh(u: nat) { 0xD800 <= u <= 0xDBFF }
  predicate IsLow(u: nat) { 0xDC00 <= u <= 0xDFFF }

  function Pair(hi: nat, lo: nat): (u: nat)
    requires IsHigh(hi) && IsLow(lo)
    ensures 0x1_0000 <= u < 0x11_0000
  {
    0x1_0000 + (hi - 0xD800) * 0x400 + (lo - 0xDC00)
  }

  /** The character a short escape stands for; an unknown one stands for itself. */
  function Unescape(c: char): char {
    if c == 'b' then 8 as char else if c == 'f' then 12 as char
    else if c == 'n' then '\n' else if c == 'r' then '\r' else if c == 't' then '\t'
    else c
  }

  /** One unit of a string body at i: the bytes it yields and where the next unit starts. */
  function Unit(t: Text, i: nat): (r: Outcome<Text>)
    requires i < |t| && t[i] != '\"'
    ensures r.Parsed? ==> i < r.end <= |t| && |r.value| <= r.end - i
    ensures !r.Failed?
  {
    if t[i] != '\\' then Parsed([t[i]], i + 1)
    else if At(t, i + 1) == '\0' then Truncated
    else if t[i + 1] != 'u' then Parsed([Unescape(t[i + 1])], i + 2)
    else if !HasHex4(t, i + 2) then Truncated
    else
      var u := Hex4(t, i + 2);
      if IsLow(u) || u == 0 then Parsed([], i + 6)
      else if !IsHigh(u) then Parsed(Utf8(u), i + 6)
      else if At(t, i + 6) != '\\' || At(t, i + 7) != 'u' then Parsed([], i + 6)
      else if !HasHex4(t, i + 8) then Truncated
      else if !IsLow(Hex4(t, i + 8)) then Parsed([], i + 12)
      else Parsed(Utf8(Pair(u, Hex4(t, i + 8))), i + 12)
  }

  /** A string body up to its closing quote, or up to the end of the text, which is accepted too. */
  function Body(t: Text, i: nat): (r: Outcome<Text>)
    requires i <= |t|
    ensures r.Parsed? ==> i <= r.end <= |t|
    ensures !r.Failed?
    decreases |t| - i
  {
    if At(t, i) == '\0' || At(t, i) == '\"' then Parsed([], i)
    else
      var (unit, j) :- Unit(t, i);
      var (rest, end) :- Body(t, j);
      Parsed(unit + rest, end)
  }

  /** Just behind the closing quote of a string whose inside starts at i, or None if it is not closed. */
  function StringEnd(t: Text, i: nat): (r: Option<nat>)
    requires i <= |t|
    ensures r.Some? ==> i < r.value <= |t|
    decreases |t| - i
  {
    if At(t, i) == '\0' then None
    else if t[i] == '\"' then Some(i + 1)
    else if t[i] == '\\' then if At(t, i + 1) == '\0' then None else StringEnd(t, i + 2)
    else StringEnd(t, i + 1)
  }

  /** parse_string */
  function ParseString(t: Text, i: nat): (r: Outcome<Text>)
    requires i <= |t|
    ensures r.Parsed? ==> i < r.end <= |t|
  {
    if At(t, i) != '\"' then Failed(i)
    else
      var (s, end) :- Body(t, i + 1);
      Parsed(s, if At(t, end) == '\"' then end + 1 else end)
  }

  function ParseValue(t: Text, i: nat): (r: Outcome<Value>)
    requires i <= |t|
    ensures r.Parsed? ==> i < r.end <= |t|
    decreases |t| - i, 0
  {
    if Starts(t, i, "null") then Parsed(Null, i + 4)
    else if Starts(t, i, "false") then Parsed(False, i + 5)
    else if Starts(t, i, "true") then Parsed(True, i + 4)
    else if At(t, i) == '\"' then
      var (s, end) :- ParseString(t, i);
      Parsed(String(s), end)
    else if At(t, i) == '-' || IsDigit(At(t, i)) then ParseNumber(t, i)
    else if At(t, i) == '[' then
      var (items, end) :- ParseArray(t, i);
      Parsed(Array(items), end)
    else if At(t, i) == '{' then
      var (members, end) :- ParseObject(t, i);
      Parsed(Object(members), end)
    else Failed(i)
  }

  /** parse_array */
  function ParseArray(t: Text, i: nat): (r: Outcome<Items>)
    requires i < |t|
    ensures r.Parsed? ==> i < r.end <= |t|
    decreases |t| - i - 1, 3
  {
    var j := Skip(t, i + 1);
    if At(t, j) == ']' then Parsed(NoItems, j + 1) else ParseItems(t, j)
  }

  /** parse_object */
  function ParseObject(t: Text, i: nat): (r: Outcome<Members>)
    requires i < |t|
    ensures r.Parsed? ==> i < r.end <= |t|
    decreases |t| - i - 1, 3
  {
    var j := Skip(t, i + 1);
    if At(t, j) == '}' then Parsed(NoMembers, j + 1) else ParseMembers(t, j)
  }

  /** The items of an array from the first one on, through the closing bracket. */
  function ParseItems(t: Text, i: nat): (r: Outcome<Items>)
    requires i <= |t|
    ensures r.Parsed? ==> i < r.end <= |t| && r.value.Item?
    decreases |t| - i, 1
  {
    var (v, end) :- ParseValue(t, Skip(t, i));
    var j := Skip(t, end);
    if At(t, j) == ',' then
      var (rest, last) :- ParseItems(t, j + 1);
      Parsed(Item(v, rest), last)
    else if At(t, j) == ']' then Parsed(Item(v, NoItems), j + 1)
    else Failed(j)
  }

  /** The members of an object from the first one on, through the closing brace. */
  function ParseMembers(t: Text, i: nat): (r: Outcome<Members>)
    requires i <= |t|
    ensures r.Parsed? ==> i < r.end <= |t| && r.value.Member?
    decreases |t| - i, 1
  {
    var (name, k) :- ParseString(t, Skip(t, i));
    var colon := Skip(t, k);
    if At(t, colon) != ':' then Failed(colon)
    else
      var (v, end) :- ParseValue(t, Skip(t, colon + 1));
      var j := Skip(t, end);
      if At(t, j) == ',' then
        var (rest, last) :- ParseMembers(t, j + 1);
        Parsed(Member(name, v, rest), last)
      else if At(t, j) == '}' then Parsed(Member(name, v, NoMembers), j + 1)
      else Failed(j)
  }

  /** cJSON_ParseWithOpts */
  function ParseText(t: Text, whole: bool): (r: Outcome<Value>)
    ensures r.Parsed? ==> r.end <= |t|
  {
    var (v, end) :- ParseValue(t, Skip(t, 0));
    if whole then
      var last := Skip(t, end);
      if At(t, last) != '\0' then Failed(last) else Parsed(v, last)
    else Parsed(v, end)
  }
}
