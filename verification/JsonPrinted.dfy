/** Everything the printers write is a JSON text of the grammar, and means the value it was printed from. */
module JsonPrinted {
  import opened Json
  import G = JsonGrammar
  import A = JsonAccepts
  import opened Options

  // ---- numbers ----

  function DigitsOf(n: nat): (r: seq<nat>)
    ensures |r| >= 1
  {
    if n < 10 then [n] else DigitsOf(n / 10) + [n % 10]
  }

  lemma {:induction false} DigitsAre(n: nat)
    ensures G.DigitsOk(DigitsOf(n)) && G.DigitsText(DigitsOf(n)) == Natural(n) && G.Decimal(DigitsOf(n)) == n
    ensures DigitsOf(n)[0] == 0 ==> n == 0 && |DigitsOf(n)| == 1
    decreases n
  {
    OneDigit(n % 10);
    if n >= 10 {
      hide G.Decimal, G.DigitsText, Natural;
      DigitsAre(n / 10);
      OneMore(DigitsOf(n / 10), n % 10);
      NaturalStep(n);
    }
  }

  lemma NaturalStep(n: nat)
    requires n >= 10
    ensures Natural(n) == Natural(n / 10) + [Digit(n % 10)] && n == 10 * (n / 10) + n % 10
  {
  }

  lemma OneMore(ds: seq<nat>, d: nat)
    requires G.DigitsOk(ds) && d < 10
    ensures G.DigitsOk(ds + [d]) && G.DigitsText(ds + [d]) == G.DigitsText(ds) + ["0123456789"[d]]
    ensures G.Decimal(ds + [d]) == 10 * G.Decimal(ds) + d
  {
    assert (ds + [d])[..|ds|] == ds;
  }

  lemma OneDigit(d: nat)
    requires d < 10
    ensures ["0123456789"[d]] == [Digit(d)] && G.Decimal([d]) == d
  {
    assert [d][..0] == [];
  }

  function NumeralOf(m: int): G.Numeral {
    G.Numeral(m < 0, DigitsOf(if m < 0 then -m else m), [], None)
  }

  lemma NumeralIs(m: int)
    ensures G.NumeralOk(NumeralOf(m)) && G.NumeralText(NumeralOf(m)) == Integer(m)
    ensures G.NumeralMeaning(NumeralOf(m)) == Number(m, 0)
  {
    var ds := DigitsOf(if m < 0 then -m else m);
    DigitsAre(if m < 0 then -m else m);
    hide Natural, DigitsOf, G.Decimal, G.DigitsText;
    assert ds + [] == ds && G.DigitsText(ds) + ([] + []) == G.DigitsText(ds);
  }

  // ---- strings ----

  function PieceOf(c: char): G.Piece
    requires c != '\0'
  {
    if c > 31 as char && c != '\"' && c != '\\' then G.Raw(c)
    else if c == 8 as char then G.Short('b')
    else if c == 12 as char then G.Short('f')
    else if c == 10 as char then G.Short('n')
    else if c == 13 as char then G.Short('r')
    else if c == 9 as char then G.Short('t')
    else if c == '\"' || c == '\\' then G.Short(c)
    else G.Code(G.Quad(G.Hex(0, false), G.Hex(0, false), G.Hex(c as int / 16, false), G.Hex(c as int % 16, false)))
  }

  /** Escaping with a letter, or with a number. */
  lemma PieceIs(c: char)
    requires c != '\0'
    ensures G.PieceOk(PieceOf(c)) && G.PieceText(PieceOf(c)) == Escape(c) && G.PieceMeaning(PieceOf(c)) == [c]
  {
    if c < 32 as char && ShortEscape(c) == '\0' {
      ControlIs(c);
      hide G.QuadText, G.QuadValue, G.Bytes, HexDigit;
    } else {
      hide G.QuadText, G.QuadValue, G.Bytes, HexDigit;
    }
  }

  lemma ControlIs(c: char)
    requires 0 < c as int < 32
    ensures var q := G.Quad(G.Hex(0, false), G.Hex(0, false), G.Hex(c as int / 16, false), G.Hex(c as int % 16, false));
            && G.QuadOk(q) && G.QuadText(q) == ['0', '0', HexDigit(c as int / 16), HexDigit(c as int % 16)]
            && G.QuadValue(q) == c as int && G.Bytes(c as int) == [c]
  {
    HexIs(c as int / 16);
    HexIs(c as int % 16);
    HexIs(0);
    hide HexDigit;
  }

  lemma HexIs(d: nat)
    requires d < 16
    ensures G.HexText(G.Hex(d, false)) == HexDigit(d)
    ensures HexDigit(0) == '0'
  {
  }

  function PiecesOf(s: Text): seq<G.Piece>
    requires NulFree(s)
  {
    if s == [] then [] else [PieceOf(s[0])] + PiecesOf(s[1..])
  }

  /** An escaped string is a sequence of characters as the standard allows them. */
  lemma {:induction false} EscapesAre(s: Text)
    requires NulFree(s)
    ensures G.PiecesOk(PiecesOf(s)) && G.PiecesText(PiecesOf(s)) == EscapeAll(s) && G.PiecesMeaning(PiecesOf(s)) == s
    decreases |s|
  {
    hide PieceOf, G.PieceOk, G.PieceText, G.PieceMeaning, Escape;
    if s != [] {
      PieceIs(s[0]);
      EscapesAre(s[1..]);
      var p, rest := PieceOf(s[0]), PiecesOf(s[1..]);
      assert ([p] + rest)[1..] == rest && [s[0]] + s[1..] == s;
      assert forall x | x in [p] + rest :: x == p || x in rest;
    }
  }

  lemma QuoteIs(s: Text)
    requires NulFree(s)
    ensures G.PiecesOk(PiecesOf(s)) && G.Quoted(PiecesOf(s)) == Quote(s) && G.PiecesMeaning(PiecesOf(s)) == s
  {
    EscapesAre(s);
    hide EscapeAll, G.PiecesText, G.PiecesMeaning, PiecesOf, G.PiecesOk;
    assert "\"" + (EscapeAll(s) + "\"") == "\"" + EscapeAll(s) + "\"";
  }

  // ---- layout ----

  /** White space as a gap. */
  function GapOf(s: Text): (g: G.Gap)
    ensures |g| == |s|
  {
    seq(|s|, k requires 0 <= k < |s| => G.White(s[k]))
  }

  lemma {:induction false} GapIs(s: Text)
    requires forall c | c in s :: c in " \t\n\r"
    ensures G.GapOk(GapOf(s)) && G.Bare(GapOf(s)) && G.GapText(GapOf(s)) == s
    decreases |s|
  {
    if s != [] {
      assert GapOf(s) == [G.White(s[0])] + GapOf(s[1..]);
      assert [s[0]] + s[1..] == s && s[0] in s;
      GapIs(s[1..]);
    }
  }

  lemma LayoutIs(fmt: bool, n: nat)
    ensures G.GapOk(GapOf(Only(fmt, Tabs(n)))) && G.Bare(GapOf(Only(fmt, Tabs(n))))
    ensures G.GapText(GapOf(Only(fmt, Tabs(n)))) == Only(fmt, Tabs(n))
    ensures G.GapOk(GapOf(Only(fmt, "\n" + Tabs(n)))) && G.Bare(GapOf(Only(fmt, "\n" + Tabs(n))))
    ensures G.GapText(GapOf(Only(fmt, "\n" + Tabs(n)))) == Only(fmt, "\n" + Tabs(n))
  {
    GapIs(Only(fmt, Tabs(n)));
    GapIs(Only(fmt, "\n" + Tabs(n)));
  }

  // ---- trees ----

  /** A printed value as a document. */
  function DocOf(v: Value, depth: nat, fmt: bool): G.Doc
    requires Printable(v)
    decreases v
  {
    match v
    case Null => G.NullDoc
    case False => G.FalseDoc
    case True => G.TrueDoc
    case Number(m, _) => G.NumberDoc(NumeralOf(m))
    case String(s) => G.StringDoc(PiecesOf(s))
    case Array(items) => G.ArrayDoc(if items.NoItems? then G.NoEntries([]) else EntriesOf(items, depth, fmt, ""))
    case Object(members) =>
      G.ObjectDoc(if members.NoMembers? then
                    G.NoPairs(GapOf(Only(fmt, "\n" + Tabs(if depth == 0 then 0 else depth - 1))))
                  else PairsOf(members, depth + 1, fmt))
  }

  function EntriesOf(items: Items, depth: nat, fmt: bool, gap: Text): (es: G.Entries)
    requires PrintableItems(items) && items.Item?
    ensures es.Entry?
    decreases items
  {
    G.Entry(GapOf(gap), DocOf(items.value, depth + 1, fmt), [],
            if items.rest.NoItems? then None else Some(EntriesOf(items.rest, depth, fmt, Only(fmt, " "))))
  }

  function PairsOf(members: Members, depth: nat, fmt: bool): (ps: G.Pairs)
    requires PrintableMembers(members) && members.Member? && depth > 0
    ensures ps.Named?
    decreases members
  {
    G.Named(GapOf(Only(fmt, "\n" + Tabs(depth))), PiecesOf(members.name), [], GapOf(Only(fmt, "\t")),
            DocOf(members.value, depth, fmt),
            if members.rest.NoMembers? then GapOf(Only(fmt, "\n" + Tabs(depth - 1))) else [],
            if members.rest.NoMembers? then None else Some(PairsOf(members.rest, depth, fmt)))
  }

  /** What a print is as a document. */
  ghost predicate Shows(d: G.Doc, text: Text, v: Value) {
    G.DocOk(d) && G.Standard(d) && G.DocText(d) == text && G.Meaning(d) == v
  }

  lemma {:induction false} PrintIs(v: Value, depth: nat, fmt: bool)
    requires Printable(v)
    ensures Shows(DocOf(v, depth, fmt), Print(v, depth, fmt), v)
    decreases v, 1
  {
    hide PrintItems, PrintMembers, G.EntriesText, G.PairsText, G.EntriesMeaning, G.PairsMeaning, EntriesOf, PairsOf;
    hide NumeralOf, PiecesOf, G.NumeralText, G.Quoted, G.PiecesMeaning, G.NumeralMeaning, G.PiecesOk, G.NumeralOk;
    match v
    case Number(m, _) => NumeralIs(m);
    case String(s) => QuoteIs(s);
    case Array(items) =>
      if items.NoItems? {
        EmptyArray();
      } else {
        EntriesAre(items, depth, fmt, "");
        assert [] + PrintItems(items, depth, fmt) == PrintItems(items, depth, fmt);
      }
    case Object(members) =>
      if members.NoMembers? {
        EmptyObject(fmt, if depth == 0 then 0 else depth - 1);
      } else {
        PairsAre(members, depth + 1, fmt);
      }
    case _ =>
  }

  /** What a print is, spelled out. */
  lemma Shown(v: Value, depth: nat, fmt: bool)
    requires Printable(v)
    ensures var d := DocOf(v, depth, fmt);
            && G.DocOk(d) && G.Standard(d) && G.DocText(d) == Print(v, depth, fmt) && G.Meaning(d) == v
            && (d.NumberDoc? <==> v.Number?)
  {
    PrintIs(v, depth, fmt);
    hide Print, EntriesOf, PairsOf, G.DocText, G.Meaning, G.DocOk, G.Standard;
  }

  lemma EmptyArray()
    ensures G.EntriesOk(G.NoEntries([])) && G.StandardEntries(G.NoEntries([]))
    ensures "[" + G.EntriesText(G.NoEntries([])) == "[]" && G.EntriesMeaning(G.NoEntries([])) == NoItems
  {
  }

  lemma EmptyObject(fmt: bool, n: nat)
    ensures var ps := G.NoPairs(GapOf(Only(fmt, "\n" + Tabs(n))));
            && G.PairsOk(ps) && G.StandardPairs(ps) && G.PairsText(ps) == Only(fmt, "\n" + Tabs(n)) + "}"
            && G.PairsMeaning(ps) == NoMembers
  {
    LayoutIs(fmt, n);
    hide Only, Tabs, GapOf;
  }

  lemma {:induction false} EntriesAre(items: Items, depth: nat, fmt: bool, gap: Text)
    requires PrintableItems(items) && items.Item? && forall c | c in gap :: c in " \t\n\r"
    ensures var es := EntriesOf(items, depth, fmt, gap);
            && G.EntriesOk(es) && G.StandardEntries(es) && G.EntriesText(es) == gap + PrintItems(items, depth, fmt)
            && G.EntriesMeaning(es) == items
    decreases items, 2
  {
    hide GapOf, DocOf, Print, G.DocText, G.Meaning, G.DocOk, G.Standard, G.GapText, G.GapOk, G.Bare;
    GapIs(gap);
    GapIs([]);
    PrintIs(items.value, depth + 1, fmt);
    if items.rest.Item? {
      EntriesAre(items.rest, depth, fmt, Only(fmt, " "));
    }
  }

  /** One member, put together from what its parts are. */
  lemma NamedShows(before: G.Gap, name: seq<G.Piece>, ahead: G.Gap, d: G.Doc, after: G.Gap, more: Option<G.Pairs>,
      text: Text, v: Value, tail: Text, rest: Members)
    requires G.GapOk(before) && G.Bare(before) && G.GapOk(ahead) && G.Bare(ahead) && G.GapOk(after) && G.Bare(after)
    requires G.PiecesOk(name) && Shows(d, text, v)
    requires more.Some? ==>
               && more.value.Named? && G.PairsOk(more.value) && G.StandardPairs(more.value)
               && tail == "," + G.PairsText(more.value) && rest == G.PairsMeaning(more.value)
    requires more.None? ==> tail == "}" && rest == NoMembers
    ensures var ps := G.Named(before, name, [], ahead, d, after, more);
            && G.PairsOk(ps) && G.StandardPairs(ps)
            && G.PairsText(ps) == G.GapText(before) + (G.Quoted(name) + (":"
                 + (G.GapText(ahead) + (text + (G.GapText(after) + tail)))))
            && G.PairsMeaning(ps) == Member(G.PiecesMeaning(name), v, rest)
  {
    hide *;
    var ps := G.Named(before, name, [], ahead, d, after, more);
    NamedOk(ps, text, v, rest);
    A.NamedShape(ps);
    A.BehindIs(ps);
    TailIs(more, tail);
    var inside := ":" + (G.GapText(ahead) + (text + (G.GapText(after) + tail)));
    NoneBefore(inside);
    NoGap();
  }

  lemma NoGap()
    ensures G.GapOk([]) && G.Bare([]) && G.GapText([]) == []
  {
  }

  lemma TailIs(more: Option<G.Pairs>, tail: Text)
    requires more.Some? ==> G.PairsOk(more.value) && tail == "," + G.PairsText(more.value)
    requires more.None? ==> tail == "}"
    ensures A.PairsTail(more) == tail
  {
  }

  lemma NamedOk(ps: G.Pairs, text: Text, v: Value, rest: Members)
    requires ps.Named? && ps.behind == []
    requires G.GapOk(ps.before) && G.Bare(ps.before) && G.GapOk(ps.ahead) && G.Bare(ps.ahead)
    requires G.GapOk(ps.after) && G.Bare(ps.after) && G.PiecesOk(ps.name) && Shows(ps.v, text, v)
    requires ps.more.Some? ==>
               && ps.more.value.Named? && G.PairsOk(ps.more.value) && G.StandardPairs(ps.more.value)
               && rest == G.PairsMeaning(ps.more.value)
    requires ps.more.None? ==> rest == NoMembers
    ensures G.PairsOk(ps) && G.StandardPairs(ps) && G.DocText(ps.v) == text
    ensures G.PairsMeaning(ps) == Member(G.PiecesMeaning(ps.name), v, rest)
  {
    hide G.Quoted, G.PiecesMeaning, G.PiecesOk, G.DocText, G.Meaning, G.DocOk, G.Standard;
  }

  /** What stands behind a member's value, as a gap and as text. */
  function AfterMember(members: Members, depth: nat, fmt: bool): Text
    requires PrintableMembers(members) && members.Member? && depth > 0
  {
    if members.rest.NoMembers? then Only(fmt, "\n" + Tabs(depth - 1)) else []
  }

  function TailOf(members: Members, depth: nat, fmt: bool): Text
    requires PrintableMembers(members) && members.Member? && depth > 0
  {
    if members.rest.NoMembers? then "}" else "," + (Only(fmt, "\n") + PrintMembers(members.rest, depth, fmt))
  }

  lemma MembersShape(members: Members, depth: nat, fmt: bool)
    requires PrintableMembers(members) && members.Member? && depth > 0
    ensures NulFree(members.name) && Printable(members.value) && PrintableMembers(members.rest)
    ensures members.rest.NoMembers? ==> TailOf(members, depth, fmt) == "}"
    ensures members.rest.Member? ==>
              TailOf(members, depth, fmt) == "," + (Only(fmt, "\n") + PrintMembers(members.rest, depth, fmt))
    ensures Only(fmt, "\n") + PrintMembers(members, depth, fmt) ==
            Only(fmt, "\n" + Tabs(depth)) + (Quote(members.name) + (":" + (Only(fmt, "\t")
            + (Print(members.value, depth, fmt) + (AfterMember(members, depth, fmt) + TailOf(members, depth, fmt))))))
  {
    hide Print, Quote, Tabs, Only, Printable;
    var y := Quote(members.name) + (":" + (Only(fmt, "\t")
      + (Print(members.value, depth, fmt) + (AfterMember(members, depth, fmt) + TailOf(members, depth, fmt)))));
    NewLineTabs(fmt, Tabs(depth), y);
    NoneBefore(TailOf(members, depth, fmt));
  }

  lemma NewLineTabs(fmt: bool, tabs: Text, y: Text)
    ensures Only(fmt, "\n") + (Only(fmt, tabs) + y) == Only(fmt, "\n" + tabs) + y
  {
  }

  lemma NoneBefore(y: Text)
    ensures [] + y == y
  {
  }

  lemma PairsOfShape(members: Members, depth: nat, fmt: bool)
    requires PrintableMembers(members) && members.Member? && depth > 0
    ensures NulFree(members.name) && Printable(members.value)
    ensures PairsOf(members, depth, fmt) ==
            G.Named(GapOf(Only(fmt, "\n" + Tabs(depth))), PiecesOf(members.name), [], GapOf(Only(fmt, "\t")),
                    DocOf(members.value, depth, fmt), GapOf(AfterMember(members, depth, fmt)),
                    if members.rest.NoMembers? then None else Some(PairsOf(members.rest, depth, fmt)))
  {
    hide DocOf, PiecesOf;
    assert GapOf([]) == [];
  }

  lemma AfterIs(members: Members, depth: nat, fmt: bool)
    requires PrintableMembers(members) && members.Member? && depth > 0
    ensures var s := AfterMember(members, depth, fmt);
            G.GapOk(GapOf(s)) && G.Bare(GapOf(s)) && G.GapText(GapOf(s)) == s
  {
    LayoutIs(fmt, depth - 1);
    GapIs([]);
    hide G.GapOk, G.Bare, G.GapText, GapOf, Only, Tabs;
  }

  lemma TabIs(fmt: bool)
    ensures var s := Only(fmt, "\t"); G.GapOk(GapOf(s)) && G.Bare(GapOf(s)) && G.GapText(GapOf(s)) == s
  {
    GapIs(Only(fmt, "\t"));
  }

  lemma {:induction false} PairsAre(members: Members, depth: nat, fmt: bool)
    requires PrintableMembers(members) && members.Member? && depth > 0
    ensures var ps := PairsOf(members, depth, fmt);
            && G.PairsOk(ps) && G.StandardPairs(ps)
            && G.PairsText(ps) == Only(fmt, "\n") + PrintMembers(members, depth, fmt)
            && G.PairsMeaning(ps) == members
    decreases members, 2
  {
    hide *;
    MembersShape(members, depth, fmt);
    PairsOfShape(members, depth, fmt);
    LayoutIs(fmt, depth);
    AfterIs(members, depth, fmt);
    TabIs(fmt);
    QuoteIs(members.name);
    PrintIs(members.value, depth, fmt);
    if members.rest.Member? {
      PairsAre(members.rest, depth, fmt);
    }
    var ps := PairsOf(members, depth, fmt);
    NamedShows(ps.before, ps.name, ps.ahead, ps.v, ps.after, ps.more, Print(members.value, depth, fmt), members.value,
      TailOf(members, depth, fmt), members.rest);
  }

  // ---- what is never written raw ----

  predicate Visible(s: Text) {
    forall k | 0 <= k < |s| :: s[k] > 31 as char
  }

  /** The number of backslashes directly before position k. */
  function Backslashes(e: Text, k: nat): nat
    requires k <= |e|
  {
    if k > 0 && e[k - 1] == '\\' then 1 + Backslashes(e, k - 1) else 0
  }

  predicate IsHexDigit(c: char) {
    '0' <= c <= '9' || 'a' <= c <= 'f' || 'A' <= c <= 'F'
  }

  /** One of the escapes of section 7 of RFC 8259. */
  predicate EscapeAt(e: Text, k: nat) {
    && k + 2 <= |e| && e[k] == '\\'
    && (|| e[k + 1] in "\"\\/bfnrt"
        || (e[k + 1] == 'u' && k + 6 <= |e| && forall j | k + 2 <= j < k + 6 :: IsHexDigit(e[j])))
  }

  /** A quotation mark stands behind an odd run of backslashes, and a backslash behind an even one starts an escape. */
  predicate SafeAt(e: Text, k: nat)
    requires k < |e|
  {
    && (e[k] == '\"' ==> Backslashes(e, k) % 2 == 1)
    && (e[k] == '\\' && Backslashes(e, k) % 2 == 0 ==> EscapeAt(e, k))
  }

  predicate Safe(e: Text) {
    Visible(e) && Backslashes(e, |e|) % 2 == 0 && forall k | 0 <= k < |e| :: SafeAt(e, k)
  }

  lemma {:induction false} BackslashesBefore(a: Text, b: Text, k: nat)
    requires k <= |a|
    ensures Backslashes(a + b, k) == Backslashes(a, k)
  {
    if k > 0 {
      BackslashesBefore(a, b, k - 1);
    }
  }

  lemma {:induction false} BackslashesBehind(a: Text, b: Text, k: nat)
    requires k <= |b| && Backslashes(a, |a|) % 2 == 0
    ensures Backslashes(a + b, |a| + k) % 2 == Backslashes(b, k) % 2
  {
    if k > 0 {
      BackslashesBehind(a, b, k - 1);
    } else {
      BackslashesBefore(a, b, |a|);
    }
  }

  lemma EscapeStays(a: Text, b: Text, k: nat)
    ensures EscapeAt(a, k) ==> EscapeAt(a + b, k)
    ensures EscapeAt(b, k) ==> EscapeAt(a + b, |a| + k)
  {
    if EscapeAt(b, k) && b[k + 1] == 'u' {
      assert forall j | |a| + k + 2 <= j < |a| + k + 6 :: (a + b)[j] == b[j - |a|];
    }
  }

  lemma SafeJoin(a: Text, b: Text)
    requires Safe(a) && Safe(b)
    ensures Safe(a + b)
  {
    hide Backslashes, EscapeAt;
    BackslashesBehind(a, b, |b|);
    forall k | 0 <= k < |a + b|
      ensures SafeAt(a + b, k)
    {
      if k < |a| {
        assert SafeAt(a, k);
        BackslashesBefore(a, b, k);
        EscapeStays(a, b, k);
      } else {
        assert SafeAt(b, k - |a|);
        BackslashesBehind(a, b, k - |a|);
        EscapeStays(a, b, k - |a|);
      }
    }
  }

  lemma EscapeIsSafe(c: char)
    requires c != '\0'
    ensures Safe(Escape(c))
  {
    var e := Escape(c);
    if |e| == 6 {
      HexIsHex(c as int / 16);
      HexIsHex(c as int % 16);
      hide HexDigit;
      assert Backslashes(e, 1) == 1;
      assert forall k | 2 <= k <= 6 :: Backslashes(e, k) == 0;
    } else if |e| == 2 {
      assert Backslashes(e, 1) == 1;
    }
  }

  lemma HexIsHex(d: nat)
    requires d < 16
    ensures IsHexDigit(HexDigit(d)) && HexDigit(d) > 31 as char && HexDigit(d) != '\\' && HexDigit(d) != '\"'
  {
  }

  /** Control characters, quotation marks and backslashes of the string appear only as escapes. */
  lemma {:induction false} EscapesAreSafe(s: Text)
    requires NulFree(s)
    ensures Safe(EscapeAll(s))
    decreases |s|
  {
    hide Escape, Safe;
    if s == [] {
      NothingIsSafe();
    } else {
      assert [s[0]] + s[1..] == s;
      EscapeIsSafe(s[0]);
      EscapesAreSafe(s[1..]);
      SafeJoin(Escape(s[0]), EscapeAll(s[1..]));
    }
  }

  lemma NothingIsSafe()
    ensures Safe([])
  {
  }

  lemma VisibleJoin(a: Text, b: Text)
    ensures Visible(a) && Visible(b) ==> Visible(a + b)
  {
  }

  lemma QuoteVisible(s: Text)
    requires NulFree(s)
    ensures Visible(Quote(s))
  {
    EscapesAreSafe(s);
    hide EscapeAll, Backslashes, SafeAt;
    VisibleJoin("\"", EscapeAll(s));
    VisibleJoin("\"" + EscapeAll(s), "\"");
  }

  lemma {:induction false} NaturalVisible(n: nat)
    ensures Visible(Natural(n))
  {
    if n >= 10 {
      NaturalVisible(n / 10);
    }
  }

  lemma IntegerVisible(n: int)
    ensures Visible(Integer(n))
  {
    NaturalVisible(if n < 0 then -n else n);
    hide Natural;
  }

  /** An unformatted print contains no control character at all. */
  lemma {:induction false} PrintVisible(v: Value, depth: nat)
    requires Printable(v)
    ensures Visible(Print(v, depth, false))
    decreases v
  {
    hide PrintItems, PrintMembers, Integer, Quote;
    match v
    case Number(m, _) => IntegerVisible(m);
    case String(s) => QuoteVisible(s);
    case Array(items) =>
      if items.Item? {
        ItemsVisible(items, depth);
        VisibleJoin("[", PrintItems(items, depth, false));
      }
    case Object(members) =>
      if members.Member? {
        MembersVisible(members, depth + 1);
        assert [] + PrintMembers(members, depth + 1, false) == PrintMembers(members, depth + 1, false);
        VisibleJoin("{", PrintMembers(members, depth + 1, false));
      }
    case _ =>
  }

  lemma {:induction false} ItemsVisible(items: Items, depth: nat)
    requires PrintableItems(items) && items.Item?
    ensures Visible(PrintItems(items, depth, false))
    decreases items
  {
    hide Print;
    PrintVisible(items.value, depth + 1);
    if items.rest.Item? {
      ItemsVisible(items.rest, depth);
    }
  }

  lemma {:induction false} MembersVisible(members: Members, depth: nat)
    requires PrintableMembers(members) && members.Member? && depth > 0
    ensures Visible(PrintMembers(members, depth, false))
    decreases members
  {
    hide *;
    MembersShape(members, depth, false);
    QuoteVisible(members.name);
    PrintVisible(members.value, depth);
    if members.rest.Member? {
      MembersVisible(members.rest, depth);
    }
    TailVisible(members, depth);
    var value, after := Print(members.value, depth, false), AfterMember(members, depth, false);
    VisibleParts(Quote(members.name), value, after + TailOf(members, depth, false));
    Unformatted(PrintMembers(members, depth, false), "\n", "\n" + Tabs(depth), "\t", Quote(members.name),
      value + (after + TailOf(members, depth, false)));
  }

  lemma Unformatted(text: Text, a: Text, b: Text, c: Text, name: Text, rest: Text)
    requires Only(false, a) + text == Only(false, b) + (name + (":" + (Only(false, c) + rest)))
    ensures text == name + (":" + rest)
  {
    NoneBefore(text);
    NoneBefore(rest);
    NoneBefore(name + (":" + rest));
  }

  lemma VisibleParts(name: Text, value: Text, tail: Text)
    requires Visible(name) && Visible(value) && Visible(tail)
    ensures Visible(name + (":" + (value + tail)))
  {
    VisibleJoin(value, tail);
    VisibleJoin(":", value + tail);
  }

  lemma TailVisible(members: Members, depth: nat)
    requires PrintableMembers(members) && members.Member? && depth > 0
    requires members.rest.Member? ==> Visible(PrintMembers(members.rest, depth, false))
    ensures Visible(AfterMember(members, depth, false) + TailOf(members, depth, false))
  {
    hide PrintMembers;
  }

  // ---- the layout of formatted prints ----

  lemma TabsAre()
    ensures Tabs(0) == "" && Tabs(1) == "\t" && Tabs(2) == "\t\t" && Tabs(3) == "\t\t\t"
  {
  }

  lemma Letters()
    ensures Quote("a") == "\"a\"" && Quote("b") == "\"b\""
  {
    assert EscapeAll("a") == Escape('a') + EscapeAll([]) && EscapeAll("b") == Escape('b') + EscapeAll([]);
  }

  /** {"b": null} inside an array inside an object. */
  lemma InnerLayout(v: Value)
    requires v == Object(Member("b", Value.Null, NoMembers))
    ensures Printable(v) && Print(v, 2, true) == "{\n\t\t\t\"b\":\tnull\n\t\t}"
  {
    TabsAre();
    Letters();
    hide Tabs, Quote;
    assert PrintMembers(v.members, 3, true) == "\t\t\t" + ("\"b\"" + (":" + ("\t" + ("null" + ("\n\t\t" + "}")))));
  }

  lemma ItemsLayout(v: Value)
    requires Printable(v)
    ensures PrintableItems(Item(v, Item(Number(7, 0), NoItems)))
    ensures Print(Array(Item(v, Item(Number(7, 0), NoItems))), 1, true) == "[" + (Print(v, 2, true) + ", 7]")
  {
    var seven := Item(Number(7, 0), NoItems);
    assert PrintItems(seven, 1, true) == "7]";
    hide Natural, Integer;
    assert "," + (" " + "7]") == ", 7]";
    hide Printable;
    assert PrintItems(Item(v, seven), 1, true) == Print(v, 2, true) + ", 7]";
  }

  lemma OuterLayout(v: Value)
    requires Printable(v)
    ensures Printable(Object(Member("a", v, NoMembers)))
    ensures Print(Object(Member("a", v, NoMembers)), 0, true) ==
            "{\n\t\"a\":\t" + (Print(v, 1, true) + "\n}")
  {
    TabsAre();
    Letters();
    var m := Member("a", v, NoMembers);
    hide Tabs, Quote, Print;
    MembersShape(m, 1, true);
    assert Only(true, "\n" + Tabs(1)) == "\n\t" && AfterMember(m, 1, true) == "\n";
    ObjectLayout(m, Print(v, 1, true));
  }

  lemma ObjectLayout(m: Members, p: Text)
    requires PrintableMembers(m) && m.Member?
    requires Only(true, "\n") + PrintMembers(m, 1, true) ==
             "\n\t" + ("\"a\"" + (":" + ("\t" + (p + ("\n" + "}")))))
    ensures Printable(Object(m)) && Print(Object(m), 0, true) == "{\n\t\"a\":\t" + (p + "\n}")
  {
    hide PrintMembers;
  }

  /** {"a": [{"b": null}, 7]}: a tab behind the colon, blanks between items, and one more level for the members of
      an object in an array. */
  lemma LayoutExample()
    ensures Print(Object(Member("a", Array(Item(Object(Member("b", Value.Null, NoMembers)),
                                                Item(Number(7, 0), NoItems))), NoMembers)), 0, true)
         == "{\n\t\"a\":\t[{\n\t\t\t\"b\":\tnull\n\t\t}, 7]\n}"
    ensures Print(Object(NoMembers), 0, true) == "{\n}" && Print(Object(NoMembers), 3, true) == "{\n\t\t}"
  {
    hide *;
    TabsAre();
    EmptyLayout();
    var v := Object(Member("b", Value.Null, NoMembers));
    InnerLayout(v);
    ItemsLayout(v);
    ArrayPrintable(v);
    OuterLayout(Array(Item(v, Item(Number(7, 0), NoItems))));
    Assembled(Print(v, 2, true));
  }

  lemma EmptyLayout()
    ensures Print(Object(NoMembers), 0, true) == "{\n}" && Print(Object(NoMembers), 3, true) == "{\n\t\t}"
  {
    TabsAre();
    hide Tabs;
  }

  lemma ArrayPrintable(v: Value)
    requires Printable(v)
    ensures Printable(Array(Item(v, Item(Number(7, 0), NoItems))))
  {
  }

  lemma Assembled(p: Text)
    requires p == "{\n\t\t\t\"b\":\tnull\n\t\t}"
    ensures "{\n\t\"a\":\t" + (("[" + (p + ", 7]")) + "\n}") == "{\n\t\"a\":\t[{\n\t\t\t\"b\":\tnull\n\t\t}, 7]\n}"
  {
  }
}
