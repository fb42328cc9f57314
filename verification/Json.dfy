/** JSON values and their printed text. Characters stand for bytes; a C string is a text without '\0'. */
module Json {

  type Text = seq<char>

  datatype Value =
    | Null | False | True
    | Number(mantissa: int, exponent: int)
    | String(s: Text)
    | Array(items: Items)
    | Object(members: Members)

  /** The chain of children behind item->child, linked by next. */
  datatype Items = NoItems | Item(value: Value, rest: Items)
  datatype Members = NoMembers | Member(name: Text, value: Value, rest: Members)

  predicate NulFree(s: Text) {
    '\0' !in s
  }

  /** What can be printed with "%d" and "%s": 32-bit integers and C strings. */
  predicate Printable(v: Value) {
    match v
    case Number(m, e) => e == 0 && -0x8000_0000 <= m < 0x8000_0000
    case String(s) => NulFree(s)
    case Array(items) => PrintableItems(items)
    case Object(members) => PrintableMembers(members)
    case _ => true
  }

  predicate PrintableItems(items: Items) {
    items.Item? ==> Printable(items.value) && PrintableItems(items.rest)
  }

  predicate PrintableMembers(members: Members) {
    members.Member? ==> NulFree(members.name) && Printable(members.value) && PrintableMembers(members.rest)
  }

  function Digit(d: nat): char
    requires d < 10
  {
    '0' + d as char
  }

  function Natural(n: nat): (r: Text)
    ensures |r| >= 1
  {
    if n < 10 then [Digit(n)] else Natural(n / 10) + [Digit(n % 10)]
  }

  /** "%d" */
  function Integer(n: int): (r: Text)
    ensures |r| >= 1
  {
    if n < 0 then "-" + Natural(-n) else Natural(n)
  }

  function HexDigit(d: nat): char
    requires d < 16
  {
    if d < 10 then '0' + d as char else 'a' + (d - 10) as char
  }

  /** The letter that follows a backslash in the short escapes. */
  function ShortEscape(c: char): (r: char)
  {
    if c == '\\' then '\\' else if c == '\"' then '\"'
    else if c == 8 as char then 'b' else if c == 12 as char then 'f'
    else if c == '\n' then 'n' else if c == '\r' then 'r' else if c == '\t' then 't'
    else '\0'
  }

  /** One character of a string as print_string_ptr writes it. */
  function Escape(c: char): (r: Text)
    ensures |r| >= 1
  {
    if c > 31 as char && c != '\"' && c != '\\' then [c]
    else if ShortEscape(c) != '\0' then ['\\', ShortEscape(c)]
    else ['\\', 'u', '0', '0', HexDigit(c as int / 16), HexDigit(c as int % 16)]
  }

  function EscapeAll(s: Text): Text {
    if s == [] then [] else Escape(s[0]) + EscapeAll(s[1..])
  }

  function Quote(s: Text): (r: Text)
    ensures |r| >= 2 && r[0] == '\"'
  {
    "\"" + EscapeAll(s) + "\""
  }

  function Tabs(n: nat): (r: Text)
    ensures |r| == n
  {
    seq(n, i => '\t')
  }

  /** Text that only the formatted mode writes. */
  function Only(fmt: bool, s: Text): Text {
    if fmt then s else []
  }

  /** print_value. An object's members sit one level deeper than the object. */
  function Print(v: Value, depth: nat, fmt: bool): Text
    requires Printable(v)
    decreases v
  {
    match v
    case Null => "null"
    case False => "false"
    case True => "true"
    case Number(m, _) => Integer(m)
    case String(s) => Quote(s)
    case Array(items) =>
      if items.NoItems? then "[]" else "[" + PrintItems(items, depth, fmt)
    case Object(members) =>
      if members.NoMembers? then "{" + (Only(fmt, "\n" + Tabs(if depth == 0 then 0 else depth - 1)) + "}")
      else "{" + (Only(fmt, "\n") + PrintMembers(members, depth + 1, fmt))
  }

  /** The entries of an array from here on, and its closing bracket. */
  function PrintItems(items: Items, depth: nat, fmt: bool): Text
    requires PrintableItems(items) && items.Item?
    decreases items
  {
    Print(items.value, depth + 1, fmt)
    + if items.rest.NoItems? then "]" else "," + (Only(fmt, " ") + PrintItems(items.rest, depth, fmt))
  }

  /** The entries of an object from here on, and its closing brace. */
  function PrintMembers(members: Members, depth: nat, fmt: bool): Text
    requires PrintableMembers(members) && members.Member? && depth > 0
    decreases members
  {
    Only(fmt, Tabs(depth)) + (Quote(members.name) + (":" + (Only(fmt, "\t") + (Print(members.value, depth, fmt)
    + if members.rest.NoMembers? then Only(fmt, "\n" + Tabs(depth - 1)) + "}"
      else "," + (Only(fmt, "\n") + PrintMembers(members.rest, depth, fmt))))))
  }
}
