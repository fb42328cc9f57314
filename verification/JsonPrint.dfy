/** The printer as it runs: every buffer is sized by a measuring pass before it is written, and given back if an
    allocation fails on the way. That no write ever leaves its buffer is what Dafny checks at each assignment. */
module JsonPrint {
  import opened Json
  import opened JsonBuffers
  import opened JsonHeap
  import opened JsonString

  /** A buffer holding the C string s, possibly with room to spare. */
  ghost predicate CString(a: array<char>, s: Text)
    reads a
  {
    |s| < a.Length && a[..|s| + 1] == s + ['\0']
  }

  /** A buffer that is being written: the first ptr characters are done. */
  ghost predicate Written(out: array<char>, ptr: nat, s: Text)
    reads out
  {
    ptr == |s| <= out.Length && out[..ptr] == s
  }

  /** *ptr++ = c */
  method Put(out: array<char>, ptr: nat, c: char, ghost s: Text)
    requires Written(out, ptr, s) && ptr < out.Length
    modifies out
    ensures Written(out, ptr + 1, s + [c])
  {
    out[ptr] := c;
    assert out[..ptr + 1] == out[..ptr] + [c];
  }

  /** *ptr++ = 0 */
  method Terminate(out: array<char>, ptr: nat, ghost s: Text)
    requires Written(out, ptr, s) && ptr < out.Length
    modifies out
    ensures CString(out, s)
  {
    out[ptr] := '\0';
    assert out[..ptr + 1] == out[..ptr] + ['\0'];
  }

  /** strcpy(ptr, src); ptr += strlen(src). The terminator it writes must fit as well. */
  method Copy(out: array<char>, ptr: nat, src: array<char>, n: nat, ghost s: Text, ghost text: Text) returns (p: nat)
    requires Written(out, ptr, s) && CString(src, text) && n == |text| && ptr + n < out.Length && out != src
    modifies out
    ensures p == ptr + n && Written(out, p, s + text)
  {
    forall k | 0 <= k < n + 1 {
      out[ptr + k] := src[k];
    }
    p := ptr + n;
    assert forall k | 0 <= k < n :: src[..n + 1][k] == text[k];
    assert out[..p] == s + text;
  }

  /** for (j = 0; j < n; j++) *ptr++ = '\t' */
  method PutTabs(out: array<char>, ptr: nat, n: nat, ghost s: Text) returns (p: nat)
    requires Written(out, ptr, s) && ptr + n <= out.Length
    modifies out
    ensures p == ptr + n && Written(out, p, s + Tabs(n))
  {
    p := ptr;
    assert s + Tabs(0) == s;
    for j := 0 to n
      invariant p == ptr + j && Written(out, p, s + Tabs(j))
    {
      Put(out, p, '\t', s + Tabs(j));
      assert s + Tabs(j) + ['\t'] == s + Tabs(j + 1);
      p := p + 1;
    }
  }

  /** cJSON_strdup */
  method StrDup(heap: Heap, s: Text) returns (out: array?<char>)
    modifies heap`live, heap`plan
    ensures Plenty(old(heap.plan)) ==> out != null && Plenty(heap.plan)
    ensures heap.live == Grown(old(heap.live), out)
    ensures out != null ==> fresh(out) && out.Length == |s| + 1 && CString(out, s)
  {
    out := heap.NewChars(|s| + 1);
    if out != null {
      forall i | 0 <= i <= |s| {
        out[i] := if i < |s| then s[i] else '\0';
      }
      assert out[..|s| + 1] == s + ['\0'];
    }
  }

  /** strlen */
  method StrLen(a: array<char>, ghost s: Text) returns (n: nat)
    requires CString(a, s) && NulFree(s)
    ensures n == |s|
  {
    n := 0;
    assert a[..|s| + 1][|s|] == '\0';
    while a[n] != '\0'
      invariant n <= |s|
      decreases |s| - n
    {
      assert a[..|s| + 1][n] == a[n];
      n := n + 1;
    }
  }

  // ---- printed text is a C string ----

  lemma {:induction false} NaturalNulFree(n: nat)
    ensures NulFree(Natural(n))
  {
    if n >= 10 {
      NaturalNulFree(n / 10);
    }
  }

  lemma {:induction false} EscapeNulFree(s: Text)
    requires NulFree(s)
    ensures NulFree(EscapeAll(s))
    decreases |s|
  {
    if s != [] {
      EscapeNulFree(s[1..]);
      assert NulFree(Escape(s[0]));
    }
  }

  lemma QuoteNulFree(s: Text)
    requires NulFree(s)
    ensures NulFree(Quote(s))
  {
    EscapeNulFree(s);
    hide EscapeAll;
  }

  lemma LayoutNulFree(fmt: bool, n: nat)
    ensures NulFree(Only(fmt, Tabs(n))) && NulFree(Only(fmt, "\n")) && NulFree(Only(fmt, "\t"))
      && NulFree(Only(fmt, " "))
    ensures NulFree(Only(fmt, "\n" + Tabs(n)))
  {
  }

  lemma {:induction false} PrintNulFree(v: Value, depth: nat, fmt: bool)
    requires Printable(v)
    ensures NulFree(Print(v, depth, fmt))
    decreases v, 1
  {
    hide Tabs, Only, PrintItems, PrintMembers;
    match v
    case Number(m, _) => NaturalNulFree(if m < 0 then -m else m);
    case String(s) => QuoteNulFree(s);
    case Array(items) => if items.Item? { ItemsNulFree(items, depth, fmt); }
    case Object(members) =>
      LayoutNulFree(fmt, if depth == 0 then 0 else depth - 1);
      if members.Member? { MembersNulFree(members, depth + 1, fmt); }
    case _ =>
  }

  lemma {:induction false} ItemsNulFree(items: Items, depth: nat, fmt: bool)
    requires PrintableItems(items) && items.Item?
    ensures NulFree(PrintItems(items, depth, fmt))
    decreases items, 2
  {
    hide Print, Only, Tabs;
    PrintNulFree(items.value, depth + 1, fmt);
    LayoutNulFree(fmt, 0);
    if items.rest.Item? { ItemsNulFree(items.rest, depth, fmt); }
  }

  lemma {:induction false} MembersNulFree(members: Members, depth: nat, fmt: bool)
    requires PrintableMembers(members) && members.Member? && depth > 0
    ensures NulFree(PrintMembers(members, depth, fmt))
    decreases members, 2
  {
    hide Print, Only, Tabs, Quote;
    PrintNulFree(members.value, depth, fmt);
    QuoteNulFree(members.name);
    LayoutNulFree(fmt, depth);
    LayoutNulFree(fmt, depth - 1);
    if members.rest.Member? { MembersNulFree(members.rest, depth, fmt); }
  }

  // ---- numbers ----

  /** 10^k for the few k needed. */
  function Ten(k: nat): nat {
    if k == 0 then 1 else 10 * Ten(k - 1)
  }

  lemma {:induction false} NaturalFits(n: nat, k: nat)
    requires k >= 1 && n < Ten(k)
    ensures |Natural(n)| <= k
    decreases k
  {
    if n >= 10 {
      assert Ten(1) == 10;
      NaturalFits(n / 10, k - 1);
    }
  }

  /** print_number for 32-bit integers: at most 11 characters go into 21. */
  method PrintNumber(heap: Heap, n: int) returns (out: array?<char>)
    requires -0x8000_0000 <= n < 0x8000_0000
    modifies heap`live, heap`plan
    ensures Plenty(old(heap.plan)) ==> out != null && Plenty(heap.plan)
    ensures heap.live == Grown(old(heap.live), out)
    ensures out != null ==> fresh(out) && out.Length == 21 && CString(out, Integer(n))
  {
    assert Ten(10) == 10 * (10 * (10 * (10 * (10 * Ten(5))))) && Ten(5) == 100_000;
    NaturalFits(if n < 0 then -n else n, 10);
    hide Ten;
    out := heap.NewChars(21);
    if out == null {
      return;
    }
    var s := Integer(n);
    var i := 0;
    while i < |s|
      invariant i <= |s| && Written(out, i, s[..i])
      modifies out
    {
      Put(out, i, s[i], s[..i]);
      assert s[..i] + [s[i]] == s[..i + 1];
      i := i + 1;
    }
    assert s[..|s|] == s;
    Terminate(out, i, s);
  }

  // ---- arrays ----

  function ItemTexts(items: Items, depth: nat, fmt: bool): seq<Text>
    requires PrintableItems(items)
  {
    if items.NoItems? then [] else [Print(items.value, depth + 1, fmt)] + ItemTexts(items.rest, depth, fmt)
  }

  /** What still has to be written when the texts ts are left. */
  function JoinItems(ts: seq<Text>, fmt: bool): Text {
    if ts == [] then "]"
    else if |ts| == 1 then ts[0] + "]"
    else ts[0] + ("," + (Only(fmt, " ") + JoinItems(ts[1..], fmt)))
  }

  /** What the measuring loop adds up. */
  function RoomForItems(ts: seq<Text>, fmt: bool): nat {
    if ts == [] then 0
    else RoomForItems(ts[..|ts| - 1], fmt) + |ts[|ts| - 1]| + 2 + if fmt then 1 else 0
  }

  lemma {:induction false} RoomSplit(a: seq<Text>, b: seq<Text>, fmt: bool)
    ensures RoomForItems(a + b, fmt) == RoomForItems(a, fmt) + RoomForItems(b, fmt)
    decreases |b|
  {
    if b == [] {
      assert a + b == a;
    } else {
      RoomSplit(a, b[..|b| - 1], fmt);
      assert (a + b)[..|a + b| - 1] == a + b[..|b| - 1];
    }
  }

  lemma {:induction false} ItemsFit(ts: seq<Text>, fmt: bool)
    ensures |JoinItems(ts, fmt)| <= RoomForItems(ts, fmt) + 1
    decreases |ts|
  {
    if ts != [] {
      assert ts == [ts[0]] + ts[1..];
      RoomSplit([ts[0]], ts[1..], fmt);
      assert [ts[0]][..0] == [];
      ItemsFit(ts[1..], fmt);
    }
  }

  lemma {:induction false} JoinIsPrint(items: Items, depth: nat, fmt: bool)
    requires PrintableItems(items) && items.Item?
    ensures JoinItems(ItemTexts(items, depth, fmt), fmt) == PrintItems(items, depth, fmt)
    decreases items
  {
    hide Print;
    var ts := ItemTexts(items, depth, fmt);
    assert ts[1..] == ItemTexts(items.rest, depth, fmt);
    if items.rest.Item? {
      JoinIsPrint(items.rest, depth, fmt);
    }
  }

  /** The strings of a table. */
  ghost predicate Entries(entries: Slots, ts: seq<Text>)
    reads entries
  {
    |entries| == |ts| && forall k | 0 <= k < |ts| :: entries[k] != null && CString(entries[k], ts[k])
  }

  /** The first slots hold the strings of ts. */
  ghost predicate Filled(entries: Slots, ts: seq<Text>)
    reads entries
  {
    |ts| <= |entries| && forall k | 0 <= k < |ts| :: entries[k] != null && CString(entries[k], ts[k])
  }

  lemma FilledNext(entries: Slots, ts: seq<Text>, entry: array<char>, t: Text)
    requires Filled(entries, ts) && |ts| < |entries| && CString(entry, t)
    ensures Filled(entries[|ts| := entry], ts + [t])
  {
  }

  lemma FilledAll(entries: Slots, ts: seq<Text>)
    requires Filled(entries, ts) && |ts| == |entries|
    ensures Entries(entries, ts)
  {
  }

  /** The measuring loop has reached `child`; `ts` are the texts of the items before it. */
  ghost predicate ItemsLeft(items: Items, child: Items, ts: seq<Text>, depth: nat, fmt: bool)
    requires PrintableItems(items)
  {
    && (child == items || child < items) && PrintableItems(child)
    && ts + ItemTexts(child, depth, fmt) == ItemTexts(items, depth, fmt)
  }

  lemma ItemsLeftNext(items: Items, child: Items, ts: seq<Text>, depth: nat, fmt: bool)
    requires PrintableItems(items) && ItemsLeft(items, child, ts, depth, fmt) && child.Item?
    ensures Printable(child.value) && child.value < items && child.rest < child
    ensures ItemsLeft(items, child.rest, ts + [Print(child.value, depth + 1, fmt)], depth, fmt)
  {
    hide Print;
    var text := Print(child.value, depth + 1, fmt);
    assert ts + ([text] + ItemTexts(child.rest, depth, fmt)) == ts + [text] + ItemTexts(child.rest, depth, fmt);
  }

  lemma RoomNext(ts: seq<Text>, t: Text, fmt: bool)
    ensures RoomForItems(ts + [t], fmt) == RoomForItems(ts, fmt) + |t| + 2 + if fmt then 1 else 0
  {
    assert (ts + [t])[..|ts|] == ts;
  }

  /** How many entries an array has. */
  method CountItems(items: Items) returns (n: nat)
    ensures n == ItemCount(items)
  {
    n := 0;
    var child := items;
    while child.Item?
      invariant n + ItemCount(child) == ItemCount(items)
      decreases child
    {
      n, child := n + 1, child.rest;
    }
  }

  function ItemCount(items: Items): nat {
    if items.NoItems? then 0 else 1 + ItemCount(items.rest)
  }

  lemma {:induction false} ItemCountIs(items: Items, depth: nat, fmt: bool)
    requires PrintableItems(items)
    ensures |ItemTexts(items, depth, fmt)| == ItemCount(items)
    decreases items
  {
    hide Print;
    if items.Item? {
      ItemCountIs(items.rest, depth, fmt);
    }
  }

  /** What the measuring loops keep: the first slots hold the strings of ts, the others are empty, and nothing else
      has been allocated. */
  ghost predicate Filling(entries: Slots, ts: seq<Text>, base: set<object>, live: set<object>)
    reads entries
  {
    && Filled(entries, ts) && Holds(entries, base, live)
    && forall k | |ts| <= k < |entries| :: entries[k] == null
  }

  lemma NothingFilled(entries: Slots, live: set<object>)
    requires forall k | 0 <= k < |entries| :: entries[k] == null
    ensures Filling(entries, [], live, live)
  {
    NothingHeld(entries, live);
  }

  lemma FillingNext(entries: Slots, ts: seq<Text>, base: set<object>, live: set<object>, ret: array<char>, text: Text)
    requires Filling(entries, ts, base, live) && |ts| < |entries| && ret !in live && CString(ret, text)
    ensures Filling(entries[|ts| := ret], ts + [text], base, live + {ret})
  {
    SlotFilled(entries, |ts|, ret, base, live);
    FilledNext(entries, ts, ret, text);
  }

  lemma FillingStops(entries: Slots, ts: seq<Text>, base: set<object>, live: set<object>)
    requires Filling(entries, ts, base, live) && |ts| < |entries|
    ensures entries[|ts| := null] == entries && Holds(entries, base, live)
  {
  }

  lemma FillingDone(entries: Slots, ts: seq<Text>, base: set<object>, live: set<object>)
    requires Filling(entries, ts, base, live) && |ts| == |entries|
    ensures Entries(entries, ts) && Holds(entries, base, live)
  {
  }

  lemma LeftFits(items: Items, child: Items, ts: seq<Text>, depth: nat, fmt: bool)
    requires PrintableItems(items) && ItemsLeft(items, child, ts, depth, fmt) && child.Item?
    ensures |ts| < ItemCount(items)
  {
    ItemCountIs(items, depth, fmt);
    hide Print;
  }

  /** One round: an entry is printed into the next slot. */
  method CollectItem(heap: Heap, entries: array<array?<char>>, i: nat, v: Value, depth: nat, fmt: bool,
                     ghost ts: seq<Text>, ghost base: set<object>)
    returns (ok: bool, room: nat)
    requires Printable(v) && i == |ts| < entries.Length && Filling(entries[..], ts, base, heap.live)
    modifies heap`live, heap`plan, entries
    ensures Plenty(old(heap.plan)) ==> ok && Plenty(heap.plan)
    ensures ok ==>
              && Filling(entries[..], ts + [Print(v, depth, fmt)], base, heap.live)
              && room == |Print(v, depth, fmt)| + 2 + if fmt then 1 else 0
    ensures !ok ==> Holds(entries[..], base, heap.live)
    decreases v, 5
  {
    hide Print, CString, Filling, Holds, Plenty;
    ghost var text, es, live := Print(v, depth, fmt), entries[..], heap.live;
    var ret := PrintValue(heap, v, depth, fmt);
    entries[i] := ret;
    assert entries[..] == es[i := ret];
    ok, room := ret != null, 0;
    if ok {
      PrintNulFree(v, depth, fmt);
      var n := StrLen(ret, text);
      FillingNext(es, ts, base, live, ret, text);
      room := n + 2 + if fmt then 1 else 0;
    } else {
      FillingStops(es, ts, base, live);
    }
  }

  /** The measuring loop of print_array: print every entry and add up the room it needs, until an entry fails. */
  method CollectItems(heap: Heap, entries: array<array?<char>>, items: Items, depth: nat, fmt: bool)
    returns (fail: bool, len: nat)
    requires PrintableItems(items) && entries.Length == ItemCount(items)
    requires forall k | 0 <= k < entries.Length :: entries[k] == null
    modifies heap`live, heap`plan, entries
    ensures Plenty(old(heap.plan)) ==> !fail && Plenty(heap.plan)
    ensures Holds(entries[..], old(heap.live), heap.live)
    ensures !fail ==> Entries(entries[..], ItemTexts(items, depth, fmt))
    ensures !fail ==> len == 5 + RoomForItems(ItemTexts(items, depth, fmt), fmt)
    decreases items, 2
  {
    fail, len := false, 5;
    var child, i := items, 0;
    ghost var ts: seq<Text>, base := [], heap.live;
    ItemsStart(items, depth, fmt);
    NothingFilled(entries[..], base);
    ItemCountIs(items, depth, fmt);
    hide *;
    while child.Item? && !fail
      invariant Plenty(old(heap.plan)) ==> !fail && Plenty(heap.plan)
      invariant !fail ==> i == |ts| && ItemsLeft(items, child, ts, depth, fmt) && len == 5 + RoomForItems(ts, fmt)
      invariant if fail then Holds(entries[..], base, heap.live) else Filling(entries[..], ts, base, heap.live)
      decreases child
    {
      ItemsLeftNext(items, child, ts, depth, fmt);
      LeftFits(items, child, ts, depth, fmt);
      ghost var text := Print(child.value, depth + 1, fmt);
      var ok, room := CollectItem(heap, entries, i, child.value, depth + 1, fmt, ts, base);
      RoomNext(ts, text, fmt);
      fail, len, ts := !ok, len + room, ts + [text];
      i, child := i + 1, child.rest;
    }
    if !fail {
      ItemsDone(items, ts, depth, fmt);
      FillingDone(entries[..], ts, base, heap.live);
    }
  }

  lemma ItemsStart(items: Items, depth: nat, fmt: bool)
    requires PrintableItems(items)
    ensures ItemsLeft(items, items, [], depth, fmt) && RoomForItems([], fmt) == 0
  {
    assert [] + ItemTexts(items, depth, fmt) == ItemTexts(items, depth, fmt);
  }

  lemma ItemsDone(items: Items, ts: seq<Text>, depth: nat, fmt: bool)
    requires PrintableItems(items) && ItemsLeft(items, NoItems, ts, depth, fmt)
    ensures ts == ItemTexts(items, depth, fmt)
  {
    assert ts + [] == ts;
  }

  /** What is written between entry i and the next one. */
  ghost function Separator(ts: seq<Text>, i: nat, fmt: bool): Text {
    if i + 1 == |ts| then "" else if fmt then ", " else ","
  }

  lemma NextItem(ts: seq<Text>, i: nat, fmt: bool, done: Text, whole: Text)
    requires i < |ts| && whole == done + JoinItems(ts[i..], fmt)
    ensures whole == done + ts[i] + Separator(ts, i, fmt) + JoinItems(ts[i + 1..], fmt)
    ensures |JoinItems(ts[i + 1..], fmt)| >= 1
  {
    assert ts[i..][0] == ts[i] && ts[i..][1..] == ts[i + 1..];
  }

  /** One round of the composing loop of print_array. */
  method PutItem(out: array<char>, ptr0: nat, entry: array<char>, last: bool, fmt: bool, ghost text: Text,
                 ghost done: Text)
    returns (ptr: nat)
    requires Written(out, ptr0, done) && CString(entry, text) && NulFree(text) && out != entry
    requires ptr0 + |text| + (if last then 0 else if fmt then 2 else 1) < out.Length
    modifies out
    ensures Written(out, ptr, done + text + if last then "" else if fmt then ", " else ",")
  {
    var n := StrLen(entry, text);
    ptr := Copy(out, ptr0, entry, n, done, text);
    if !last {
      Put(out, ptr, ',', done + text);
      ptr := ptr + 1;
      if fmt {
        Put(out, ptr, ' ', done + text + [',']);
        ptr := ptr + 1;
        assert done + text + [','] + [' '] == done + text + ", ";
      }
    } else {
      assert done + text + "" == done + text;
    }
  }

  /** The composing loop of print_array, which gives the entries back as it goes. */
  method PutItems(heap: Heap, out: array<char>, ptr0: nat, entries: array<array?<char>>, ghost ts: seq<Text>, fmt: bool,
                  ghost done0: Text, ghost whole: Text, ghost base: set<object>)
    returns (ptr: nat, ghost done: Text)
    requires Entries(entries[..], ts) && forall k | 0 <= k < |ts| :: NulFree(ts[k])
    requires Holds(entries[..], base, heap.live) && out in base
    requires Written(out, ptr0, done0) && ptr0 == |done0| && |whole| < out.Length
    requires whole == done0 + JoinItems(ts, fmt)
    modifies heap`live, out
    ensures heap.live == base
    ensures Written(out, ptr, done) && ptr == |done| && whole == done + JoinItems([], fmt)
  {
    ptr, done := ptr0, done0;
    ghost var es := entries[..];
    AllHeld(es, base, heap.live);
    NotInTable(es, base, heap.live, out);
    assert ts[0..] == ts && ts[|ts|..] == [] && es[0..] == es && Held(es[|es|..]) == {};
    hide JoinItems, Written, CString, Held, Holds, Differ, NulFree, Entries;
    for i := 0 to entries.Length
      invariant Written(out, ptr, done) && ptr == |done| && whole == done + JoinItems(ts[i..], fmt)
      invariant entries[..] == es && Entries(es, ts)
      invariant heap.live == base + Held(es[i..]) && base !! Held(es[i..])
    {
      EntryAt(es, ts, i);
      NextItem(ts, i, fmt, done, whole);
      assert entries[i] == es[i];
      ptr := PutItem(out, ptr, entries[i], i == entries.Length - 1, fmt, ts[i], done);
      done := done + ts[i] + Separator(ts, i, fmt);
      WrittenLength(out, ptr, done);
      FreeSlot(heap, entries, i, base);
    }
  }

  /** What print_array writes into its buffer. */
  method ComposeItems(heap: Heap, out: array<char>, entries: array<array?<char>>, ghost ts: seq<Text>, fmt: bool,
                      ghost base: set<object>)
    requires Entries(entries[..], ts) && forall k | 0 <= k < |ts| :: NulFree(ts[k])
    requires Holds(entries[..], base, heap.live) && out in base && out.Length == 5 + RoomForItems(ts, fmt)
    modifies heap`live, out
    ensures heap.live == base && CString(out, "[" + JoinItems(ts, fmt))
  {
    ItemsFit(ts, fmt);
    assert Written(out, 0, []);
    assert JoinItems([], fmt) == "]";
    hide RoomForItems, JoinItems, Written, CString, Holds, Entries, NulFree;
    Put(out, 0, '[', []);
    ghost var done := [] + ['['];
    assert done == "[";
    var ptr;
    ptr, done := PutItems(heap, out, 1, entries, ts, fmt, done, "[" + JoinItems(ts, fmt), base);
    Put(out, ptr, ']', done);
    Terminate(out, ptr + 1, done + [']']);
  }

  lemma EntryAt(es: Slots, ts: seq<Text>, i: nat)
    requires Entries(es, ts) && i < |ts|
    ensures |es| == |ts| && es[i] != null && CString(es[i], ts[i])
  {
  }

  lemma WrittenLength(out: array<char>, ptr: nat, s: Text)
    requires Written(out, ptr, s)
    ensures ptr == |s|
  {
  }

  /** print_array. If an allocation fails everything is given back. */
  method PrintArray(heap: Heap, items: Items, depth: nat, fmt: bool) returns (out: array?<char>)
    requires PrintableItems(items)
    modifies heap`live, heap`plan
    ensures Plenty(old(heap.plan)) ==> out != null && Plenty(heap.plan)
    ensures heap.live == Grown(old(heap.live), out)
    ensures out != null ==> fresh(out) && CString(out, Print(Array(items), depth, fmt))
    decreases items, 3
  {
    var n := CountItems(items);
    if n == 0 {
      assert items.NoItems?;
      out := StrDup(heap, "[]");
      return;
    }
    hide Print, CString, ItemTexts, Plenty, Entries, Holds;
    out := null;
    var entries := heap.NewTable(n);
    if entries != null {
      ghost var base := heap.live;
      var fail, len := CollectItems(heap, entries, items, depth, fmt);
      out := FinishArray(heap, entries, items, depth, fmt, fail, len, base);
      heap.Free(entries);
    }
  }

  /** The text of an array from its entries, unless one of them or the last allocation fails. */
  method FinishArray(heap: Heap, entries: array<array?<char>>, items: Items, depth: nat, fmt: bool, fail: bool,
                     len: nat, ghost base: set<object>)
    returns (out: array?<char>)
    requires PrintableItems(items) && items.Item? && Holds(entries[..], base, heap.live)
    requires !fail ==> Entries(entries[..], ItemTexts(items, depth, fmt))
    requires !fail ==> len == 5 + RoomForItems(ItemTexts(items, depth, fmt), fmt)
    modifies heap`live, heap`plan
    ensures !fail && Plenty(old(heap.plan)) ==> out != null && Plenty(heap.plan)
    ensures Plenty(old(heap.plan)) ==> Plenty(heap.plan)
    ensures heap.live == Grown(base, out)
    ensures out != null ==> fresh(out) && CString(out, Print(Array(items), depth, fmt))
  {
    out := null;
    if !fail {
      ghost var live := heap.live;
      out := heap.NewChars(len);
      if out != null {
        BesideTable(entries[..], base, live, out);
      }
    }
    if out == null {
      FreeAll(heap, entries, base);
    } else {
      ghost var ts := ItemTexts(items, depth, fmt);
      ItemTextsNulFree(items, depth, fmt);
      ArrayText(items, depth, fmt);
      hide NulFree, Holds, Entries, ItemTexts, RoomForItems, CString, Print, Plenty;
      ComposeItems(heap, out, entries, ts, fmt, base + {out});
    }
  }

  lemma ArrayText(items: Items, depth: nat, fmt: bool)
    requires PrintableItems(items) && items.Item?
    ensures Print(Array(items), depth, fmt) == "[" + JoinItems(ItemTexts(items, depth, fmt), fmt)
  {
    JoinIsPrint(items, depth, fmt);
    hide PrintItems, ItemTexts, JoinItems;
  }

  lemma {:induction false} ItemTextsNulFree(items: Items, depth: nat, fmt: bool)
    requires PrintableItems(items)
    ensures var ts := ItemTexts(items, depth, fmt);
            (items.Item? ==> ts != []) && forall k | 0 <= k < |ts| :: NulFree(ts[k])
    decreases items
  {
    if items.Item? {
      PrintNulFree(items.value, depth + 1, fmt);
      ItemTextsNulFree(items.rest, depth, fmt);
    }
  }

  // ---- objects ----

  function MemberTexts(members: Members, depth: nat, fmt: bool): seq<Text>
    requires PrintableMembers(members)
  {
    if members.NoMembers? then [] else [Print(members.value, depth, fmt)] + MemberTexts(members.rest, depth, fmt)
  }

  function MemberNames(members: Members): seq<Text>
    requires PrintableMembers(members)
  {
    if members.NoMembers? then [] else [Quote(members.name)] + MemberNames(members.rest)
  }

  /** One member with everything around it. */
  function Row(name: Text, text: Text, last: bool, depth: nat, fmt: bool): Text {
    Only(fmt, Tabs(depth)) + name + ":" + Only(fmt, "\t") + text + (if last then "" else ",") + Only(fmt, "\n")
  }

  /** What still has to be written when these names and texts are left. */
  function JoinMembers(ns: seq<Text>, ts: seq<Text>, depth: nat, fmt: bool): Text
    requires |ns| == |ts| && depth > 0
    decreases |ns|
  {
    if ns == [] then Only(fmt, Tabs(depth - 1)) + "}"
    else Row(ns[0], ts[0], |ns| == 1, depth, fmt) + JoinMembers(ns[1..], ts[1..], depth, fmt)
  }

  /** What the measuring loop of print_object adds up. */
  function RoomForMembers(ns: seq<Text>, ts: seq<Text>, depth: nat, fmt: bool): nat
    requires |ns| == |ts|
    decreases |ns|
  {
    if ns == [] then 0
    else
      var n := |ns| - 1;
      RoomForMembers(ns[..n], ts[..n], depth, fmt) + |ns[n]| + |ts[n]| + 2 + if fmt then 2 + depth else 0
  }

  lemma {:induction false} MemberRoomSplit(n: Text, t: Text, ns: seq<Text>, ts: seq<Text>, depth: nat, fmt: bool)
    requires |ns| == |ts|
    ensures RoomForMembers([n] + ns, [t] + ts, depth, fmt) ==
            |n| + |t| + 2 + (if fmt then 2 + depth else 0) + RoomForMembers(ns, ts, depth, fmt)
    decreases |ns|
  {
    var k := |ns|;
    if k == 0 {
      assert ([n] + ns)[..0] == [] && ([t] + ts)[..0] == [];
    } else {
      MemberRoomSplit(n, t, ns[..k - 1], ts[..k - 1], depth, fmt);
      assert ([n] + ns)[..k] == [n] + ns[..k - 1] && ([t] + ts)[..k] == [t] + ts[..k - 1];
    }
  }

  lemma {:induction false} MembersFit(ns: seq<Text>, ts: seq<Text>, depth: nat, fmt: bool)
    requires |ns| == |ts| && depth > 0
    ensures |JoinMembers(ns, ts, depth, fmt)| <= RoomForMembers(ns, ts, depth, fmt) + 1 + if fmt then depth - 1 else 0
    decreases |ns|
  {
    if ns != [] {
      assert ns == [ns[0]] + ns[1..] && ts == [ts[0]] + ts[1..];
      MemberRoomSplit(ns[0], ts[0], ns[1..], ts[1..], depth, fmt);
      MembersFit(ns[1..], ts[1..], depth, fmt);
      hide RoomForMembers;
    }
  }

  lemma Regroup(a: Text, b: Text, c: Text, d: Text, e: Text, f: Text, g: Text, h: Text)
    ensures a + b + c + d + e + f + g + h == a + (b + (c + (d + (e + (f + (g + h))))))
  {
  }

  lemma SameCount(members: Members, depth: nat, fmt: bool)
    requires PrintableMembers(members)
    ensures |MemberNames(members)| == |MemberTexts(members, depth, fmt)|
  {
  }

  lemma {:induction false} MembersJoinIsPrint(members: Members, depth: nat, fmt: bool)
    requires PrintableMembers(members) && members.Member? && depth > 0
    ensures |MemberNames(members)| == |MemberTexts(members, depth, fmt)|
    ensures JoinMembers(MemberNames(members), MemberTexts(members, depth, fmt), depth, fmt)
      == PrintMembers(members, depth, fmt)
    decreases members
  {
    hide Print, Quote, Tabs;
    var ns, ts := MemberNames(members), MemberTexts(members, depth, fmt);
    assert ns[1..] == MemberNames(members.rest) && ts[1..] == MemberTexts(members.rest, depth, fmt);
    SameCount(members.rest, depth, fmt);
    var last := members.rest.NoMembers?;
    var after: Text, comma: Text, line :=
      JoinMembers(ns[1..], ts[1..], depth, fmt), if last then "" else ",", Only(fmt, "\n");
    Regroup(Only(fmt, Tabs(depth)), ns[0], ":", Only(fmt, "\t"), ts[0], comma, line, after);
    if last {
      assert after == Only(fmt, Tabs(depth - 1)) + "}";
      assert comma + (line + after) == Only(fmt, "\n" + Tabs(depth - 1)) + "}";
    } else {
      MembersJoinIsPrint(members.rest, depth, fmt);
    }
  }

  ghost predicate MembersLeft(members: Members, child: Members, ns: seq<Text>, ts: seq<Text>, depth: nat, fmt: bool)
    requires PrintableMembers(members)
  {
    && (child == members || child < members) && PrintableMembers(child) && |ns| == |ts|
    && ns + MemberNames(child) == MemberNames(members)
    && ts + MemberTexts(child, depth, fmt) == MemberTexts(members, depth, fmt)
  }

  lemma MembersLeftNext(members: Members, child: Members, ns: seq<Text>, ts: seq<Text>, depth: nat, fmt: bool)
    requires PrintableMembers(members) && MembersLeft(members, child, ns, ts, depth, fmt) && child.Member?
    ensures Printable(child.value) && NulFree(child.name) && child.value < members && child.rest < child && |ns| == |ts|
    ensures MembersLeft(members, child.rest, ns + [Quote(child.name)], ts + [Print(child.value, depth, fmt)],
                        depth, fmt)
  {
    hide Print, Quote;
    var name, text := Quote(child.name), Print(child.value, depth, fmt);
    assert ns + ([name] + MemberNames(child.rest)) == ns + [name] + MemberNames(child.rest);
    assert ts + ([text] + MemberTexts(child.rest, depth, fmt)) == ts + [text] + MemberTexts(child.rest, depth, fmt);
  }

  lemma MembersDone(members: Members, ns: seq<Text>, ts: seq<Text>, depth: nat, fmt: bool)
    requires PrintableMembers(members) && MembersLeft(members, NoMembers, ns, ts, depth, fmt)
    ensures ns == MemberNames(members) && ts == MemberTexts(members, depth, fmt) && |ns| == |ts|
  {
    assert ns + [] == ns && ts + [] == ts;
  }

  lemma MemberRoomNext(ns: seq<Text>, ts: seq<Text>, n: Text, t: Text, depth: nat, fmt: bool)
    requires |ns| == |ts|
    ensures RoomForMembers(ns + [n], ts + [t], depth, fmt) ==
            RoomForMembers(ns, ts, depth, fmt) + |n| + |t| + 2 + if fmt then 2 + depth else 0
  {
    assert (ns + [n])[..|ns|] == ns && (ts + [t])[..|ts|] == ts;
  }

  lemma ExactIsCString(a: array<char>, s: Text)
    requires a[..] == s + ['\0']
    ensures CString(a, s)
  {
    assert a[..|s| + 1] == a[..];
  }

  /** How many entries an object has. */
  method CountMembers(members: Members) returns (n: nat)
    ensures n == MemberCount(members)
  {
    n := 0;
    var child := members;
    while child.Member?
      invariant n + MemberCount(child) == MemberCount(members)
      decreases child
    {
      n, child := n + 1, child.rest;
    }
  }

  function MemberCount(members: Members): nat {
    if members.NoMembers? then 0 else 1 + MemberCount(members.rest)
  }

  lemma {:induction false} MemberCountIs(members: Members, depth: nat, fmt: bool)
    requires PrintableMembers(members)
    ensures |MemberTexts(members, depth, fmt)| == MemberCount(members)
    decreases members
  {
    hide Print;
    if members.Member? {
      MemberCountIs(members.rest, depth, fmt);
    }
  }

  lemma MembersLeftFits(members: Members, child: Members, ns: seq<Text>, ts: seq<Text>, depth: nat, fmt: bool)
    requires PrintableMembers(members) && MembersLeft(members, child, ns, ts, depth, fmt) && child.Member?
    ensures |ns| == |ts| < MemberCount(members)
  {
    MemberCountIs(members, depth, fmt);
    hide Print;
  }

  /** Between two rounds of the measuring loop: the slots from i on are empty, and nothing but the strings in the
      others has been allocated. */
  ghost predicate Collecting(names: Slots, entries: Slots, i: nat, base: set<object>, live: set<object>) {
    && i <= |names| == |entries| && HoldBoth(names, entries, base, live)
    && forall k | i <= k < |names| :: names[k] == null && entries[k] == null
  }

  lemma CollectingStarts(names: Slots, entries: Slots, live: set<object>)
    requires |names| == |entries| && forall k | 0 <= k < |names| :: names[k] == null && entries[k] == null
    ensures Collecting(names, entries, 0, live, live)
  {
    NothingHeldBoth(names, entries, live);
  }

  /** The name and the entry of one member are printed into their slots. */
  method StoreMember(heap: Heap, names: array<array?<char>>, entries: array<array?<char>>, i: nat, name: Text,
                     v: Value, depth: nat, fmt: bool, ghost base: set<object>)
    returns (room: nat)
    requires Printable(v) && NulFree(name) && names != entries && i < names.Length
    requires Collecting(names[..], entries[..], i, base, heap.live)
    modifies heap`live, heap`plan, names, entries
    ensures Plenty(old(heap.plan)) ==> names[i] != null && entries[i] != null && Plenty(heap.plan)
    ensures Collecting(names[..], entries[..], i + 1, base, heap.live)
    ensures names[..] == old(names[..])[i := names[i]] && entries[..] == old(entries[..])[i := entries[i]]
    ensures names[i] != null && entries[i] != null ==>
              && CString(names[i], Quote(name)) && CString(entries[i], Print(v, depth, fmt))
              && room == |Print(v, depth, fmt)| + |Quote(name)| + 2 + if fmt then 2 + depth else 0
    decreases v, 5
  {
    ghost var ns, es, live := names[..], entries[..], heap.live;
    var str := PrintStringPtr(heap, name);
    names[i] := str;
    NameFilled(ns, es, i, str, base, live);
    live := heap.live;
    var ret := PrintValue(heap, v, depth, fmt);
    entries[i] := ret;
    assert names[..] == ns[i := str] && entries[..] == es[i := ret];
    EntryFilled(names[..], es, i, ret, base, live);
    hide HoldBoth, Print, Quote;
    room := 0;
    if str != null && ret != null {
      ExactIsCString(str, Quote(name));
      PrintNulFree(v, depth, fmt);
      QuoteNulFree(name);
      var n := StrLen(ret, Print(v, depth, fmt));
      var m := StrLen(str, Quote(name));
      room := n + m + 2 + if fmt then 2 + depth else 0;
    }
  }

  /** The slots hold these names and texts, and `len` has room for them. */
  ghost predicate Measured(names: Slots, entries: Slots, ns: seq<Text>, ts: seq<Text>, depth: nat, fmt: bool, len: int)
    reads names, entries
  {
    && |ns| == |ts| && Filled(names, ns) && Filled(entries, ts)
    && len == 7 + (if fmt then depth else 0) + RoomForMembers(ns, ts, depth, fmt)
  }

  lemma MeasuredNext(names: Slots, entries: Slots, ns: seq<Text>, ts: seq<Text>, str: array<char>, ret: array<char>,
                     name: Text, text: Text, depth: nat, fmt: bool, len: int)
    requires Measured(names, entries, ns, ts, depth, fmt, len) && |ns| < |names| && |ts| < |entries|
    requires CString(str, name) && CString(ret, text)
    ensures Measured(names[|ns| := str], entries[|ts| := ret], ns + [name], ts + [text], depth, fmt,
                     len + |text| + |name| + 2 + if fmt then 2 + depth else 0)
  {
    MemberRoomNext(ns, ts, name, text, depth, fmt);
    FilledNext(names, ns, str, name);
    FilledNext(entries, ts, ret, text);
    hide Filled, RoomForMembers, CString;
  }

  lemma MeasuredAll(names: Slots, entries: Slots, ns: seq<Text>, ts: seq<Text>, depth: nat, fmt: bool, len: int)
    requires Measured(names, entries, ns, ts, depth, fmt, len) && |ns| == |ts| == |names| == |entries|
    ensures Entries(names, ns) && Entries(entries, ts)
    ensures len == 7 + (if fmt then depth else 0) + RoomForMembers(ns, ts, depth, fmt)
  {
    FilledAll(names, ns);
    FilledAll(entries, ts);
  }

  /** One round, whatever has failed before. */
  method CollectMember(heap: Heap, names: array<array?<char>>, entries: array<array?<char>>, i: nat, name: Text,
                       v: Value, depth: nat, fmt: bool, fail0: bool, len0: nat, ghost ns: seq<Text>,
                       ghost ts: seq<Text>, ghost base: set<object>)
    returns (fail: bool, len: nat)
    requires Printable(v) && NulFree(name) && names != entries && i == |ns| == |ts| < names.Length == entries.Length
    requires Collecting(names[..], entries[..], i, base, heap.live)
    requires !fail0 ==> Measured(names[..], entries[..], ns, ts, depth, fmt, len0)
    modifies heap`live, heap`plan, names, entries
    ensures Plenty(old(heap.plan)) ==> fail == fail0 && Plenty(heap.plan)
    ensures Collecting(names[..], entries[..], i + 1, base, heap.live)
    ensures fail0 ==> fail
    ensures !fail ==>
              Measured(names[..], entries[..], ns + [Quote(name)], ts + [Print(v, depth, fmt)], depth, fmt, len)
    decreases v, 6
  {
    hide *;
    ghost var names', entries' := names[..], entries[..];
    var room := StoreMember(heap, names, entries, i, name, v, depth, fmt, base);
    fail, len := fail0, len0;
    if names[i] != null && entries[i] != null {
      if !fail {
        MeasuredNext(names', entries', ns, ts, names[i], entries[i], Quote(name), Print(v, depth, fmt), depth, fmt,
          len);
      }
      len := len + room;
    } else {
      fail := true;
    }
  }

  /** The measuring loop of print_object, which goes on after a failure. */
  method CollectMembers(heap: Heap, names: array<array?<char>>, entries: array<array?<char>>, members: Members,
                        depth: nat, fmt: bool)
    returns (fail: bool, len: nat)
    requires PrintableMembers(members) && names != entries && names.Length == entries.Length == MemberCount(members)
    requires forall k | 0 <= k < names.Length :: names[k] == null && entries[k] == null
    modifies heap`live, heap`plan, names, entries
    ensures Plenty(old(heap.plan)) ==> !fail && Plenty(heap.plan)
    ensures HoldBoth(names[..], entries[..], old(heap.live), heap.live)
    ensures |MemberNames(members)| == |MemberTexts(members, depth, fmt)|
    ensures !fail ==> Entries(names[..], MemberNames(members)) && Entries(entries[..], MemberTexts(members, depth, fmt))
    ensures !fail ==>
              len == 7 + (if fmt then depth else 0)
                     + RoomForMembers(MemberNames(members), MemberTexts(members, depth, fmt), depth, fmt)
    decreases members, 2, 0
  {
    fail, len := false, 7 + if fmt then depth else 0;
    var child, i := members, 0;
    ghost var ns: seq<Text>, ts: seq<Text>, base := [], [], heap.live;
    assert MembersLeft(members, child, ns, ts, depth, fmt) by {
      assert [] + MemberNames(members) == MemberNames(members);
      assert [] + MemberTexts(members, depth, fmt) == MemberTexts(members, depth, fmt);
    }
    CollectingStarts(names[..], entries[..], base);
    assert Measured(names[..], entries[..], ns, ts, depth, fmt, len);
    hide *;
    while child.Member?
      invariant MembersLeft(members, child, ns, ts, depth, fmt) && i == |ns| == |ts|
      invariant Plenty(old(heap.plan)) ==> !fail && Plenty(heap.plan)
      invariant Collecting(names[..], entries[..], i, base, heap.live)
      invariant !fail ==> Measured(names[..], entries[..], ns, ts, depth, fmt, len)
      decreases child
    {
      MembersLeftNext(members, child, ns, ts, depth, fmt);
      MembersLeftFits(members, child, ns, ts, depth, fmt);
      fail, len := CollectMember(heap, names, entries, i, child.name, child.value, depth, fmt, fail, len, ns, ts, base);
      ns, ts := ns + [Quote(child.name)], ts + [Print(child.value, depth, fmt)];
      i, child := i + 1, child.rest;
    }
    MembersDone(members, ns, ts, depth, fmt);
    MemberCountIs(members, depth, fmt);
    CollectingEnds(names[..], entries[..], i, base, heap.live);
    if !fail {
      MeasuredAll(names[..], entries[..], ns, ts, depth, fmt, len);
    }
  }

  lemma CollectingEnds(names: Slots, entries: Slots, i: nat, base: set<object>, live: set<object>)
    requires Collecting(names, entries, i, base, live)
    ensures HoldBoth(names, entries, base, live)
  {
  }

  /** The members before number i are in `done`. */
  ghost predicate Composed(ns: seq<Text>, ts: seq<Text>, i: nat, depth: nat, fmt: bool, done: Text, whole: Text)
    requires i <= |ns| == |ts| && depth > 0
  {
    whole == done + JoinMembers(ns[i..], ts[i..], depth, fmt)
  }

  lemma ComposedEnds(ns: seq<Text>, ts: seq<Text>, depth: nat, fmt: bool, done: Text, whole: Text)
    requires |ns| == |ts| && depth > 0
    ensures Composed(ns, ts, 0, depth, fmt, done, whole) <==> whole == done + JoinMembers(ns, ts, depth, fmt)
    ensures Composed(ns, ts, |ns|, depth, fmt, done, whole) <==> whole == done + JoinMembers([], [], depth, fmt)
  {
    assert ns[0..] == ns && ts[0..] == ts && ns[|ns|..] == ts[|ts|..] == [];
    hide JoinMembers;
  }

  lemma NextMember(ns: seq<Text>, ts: seq<Text>, i: nat, depth: nat, fmt: bool, done: Text, whole: Text)
    requires i < |ns| == |ts| && depth > 0 && Composed(ns, ts, i, depth, fmt, done, whole)
    ensures Composed(ns, ts, i + 1, depth, fmt, done + Row(ns[i], ts[i], i + 1 == |ns|, depth, fmt), whole)
    ensures |done| + |Row(ns[i], ts[i], i + 1 == |ns|, depth, fmt)| + 1 <= |whole|
  {
    assert |JoinMembers(ns[i + 1..], ts[i + 1..], depth, fmt)| >= 1;
    assert ns[i..][0] == ns[i] && ns[i..][1..] == ns[i + 1..];
    assert ts[i..][0] == ts[i] && ts[i..][1..] == ts[i + 1..];
    hide Row;
  }

  /** One round of the composing loop of print_object. */
  method PutMember(out: array<char>, ptr0: nat, name: array<char>, entry: array<char>, last: bool, depth: nat,
                   fmt: bool, ghost ntext: Text, ghost text: Text, ghost done: Text)
    returns (ptr: nat)
    requires Written(out, ptr0, done) && CString(name, ntext) && CString(entry, text) && out != entry && out != name
    requires NulFree(ntext) && NulFree(text)
    requires ptr0 + |Row(ntext, text, last, depth, fmt)| < out.Length
    modifies out
    ensures Written(out, ptr, done + Row(ntext, text, last, depth, fmt))
  {
    ghost var s := done;
    ptr := ptr0;
    var m := StrLen(name, ntext);
    var n := StrLen(entry, text);
    RowLength(ntext, text, last, depth, fmt);
    hide Written, CString, Row, Tabs;
    if fmt {
      ptr := PutTabs(out, ptr, depth, s);
      s := s + Tabs(depth);
      WrittenLength(out, ptr, s);
    }
    ptr := Copy(out, ptr, name, m, s, ntext);
    s := s + ntext;
    Put(out, ptr, ':', s);
    ptr, s := ptr + 1, s + [':'];
    if fmt {
      Put(out, ptr, '\t', s);
      ptr, s := ptr + 1, s + ['\t'];
    }
    ptr := Copy(out, ptr, entry, n, s, text);
    s := s + text;
    if !last {
      Put(out, ptr, ',', s);
      ptr, s := ptr + 1, s + [','];
    }
    if fmt {
      Put(out, ptr, '\n', s);
      ptr, s := ptr + 1, s + ['\n'];
    }
    RowWritten(ntext, text, last, depth, fmt, done, s);
  }

  lemma RowLength(name: Text, text: Text, last: bool, depth: nat, fmt: bool)
    ensures |Row(name, text, last, depth, fmt)| ==
            |name| + 1 + |text| + (if last then 0 else 1) + if fmt then depth + 2 else 0
  {
  }

  lemma RowWritten(name: Text, text: Text, last: bool, depth: nat, fmt: bool, done: Text, s: Text)
    requires var s1 := if fmt then done + Tabs(depth) else done;
             var s2 := s1 + name + [':'];
             var s3 := (if fmt then s2 + ['\t'] else s2) + text;
             var s4 := if last then s3 else s3 + [','];
             s == if fmt then s4 + ['\n'] else s4
    ensures s == done + Row(name, text, last, depth, fmt)
  {
  }

  /** The opening brace, and a line break. */
  method OpenObject(out: array<char>, fmt: bool) returns (ptr: nat)
    requires out.Length >= 2
    modifies out
    ensures Written(out, ptr, "{" + Only(fmt, "\n")) && ptr == |"{" + Only(fmt, "\n")|
  {
    assert Written(out, 0, []);
    Put(out, 0, '{', []);
    ptr := 1;
    ghost var s: Text := [] + ['{'];
    if fmt {
      Put(out, ptr, '\n', s);
      ptr, s := ptr + 1, s + ['\n'];
    }
    assert s == "{" + Only(fmt, "\n");
  }

  /** The indentation of the closing brace, the brace, and the terminator. */
  method CloseObject(out: array<char>, ptr0: nat, depth: nat, fmt: bool, ghost done: Text)
    requires depth > 0 && Written(out, ptr0, done) && ptr0 + (if fmt then depth - 1 else 0) + 1 < out.Length
    modifies out
    ensures CString(out, done + (Only(fmt, Tabs(depth - 1)) + "}"))
  {
    var ptr := ptr0;
    ghost var s := done;
    if fmt {
      ptr := PutTabs(out, ptr, depth - 1, s);
      s := s + Tabs(depth - 1);
    }
    Put(out, ptr, '}', s);
    assert s + ['}'] == done + (Only(fmt, Tabs(depth - 1)) + "}");
    Terminate(out, ptr + 1, s + ['}']);
  }

  /** What print_object writes into its buffer. `depth` is that of the members. */
  method ComposeMembers(heap: Heap, out: array<char>, names: array<array?<char>>, entries: array<array?<char>>,
                        ghost ns: seq<Text>, ghost ts: seq<Text>, depth: nat, fmt: bool, ghost base: set<object>)
    requires |ns| == |ts| && Entries(names[..], ns) && Entries(entries[..], ts) && depth > 0
    requires forall k | 0 <= k < |ts| :: NulFree(ns[k]) && NulFree(ts[k])
    requires HoldBoth(names[..], entries[..], base, heap.live) && out in base
    requires out.Length == 7 + (if fmt then depth else 0) + RoomForMembers(ns, ts, depth, fmt)
    modifies heap`live, out
    ensures heap.live == base && CString(out, "{" + Only(fmt, "\n") + JoinMembers(ns, ts, depth, fmt))
  {
    ghost var whole := "{" + Only(fmt, "\n") + JoinMembers(ns, ts, depth, fmt);
    MembersFit(ns, ts, depth, fmt);
    assert JoinMembers([], [], depth, fmt) == Only(fmt, Tabs(depth - 1)) + "}";
    hide RoomForMembers, HoldBoth, Entries, JoinMembers;
    ghost var done := "{" + Only(fmt, "\n");
    var ptr := OpenObject(out, fmt);
    ghost var all;
    ptr, all := PutMembers(heap, out, ptr, names, entries, ns, ts, depth, fmt, done, whole, base);
    CloseObject(out, ptr, depth, fmt, all);
  }

  /** One row, from the tables. */
  method PutRow(out: array<char>, ptr0: nat, names: array<array?<char>>, entries: array<array?<char>>, i: nat,
                depth: nat, fmt: bool, ghost ns: seq<Text>, ghost ts: seq<Text>, ghost done: Text)
    returns (ptr: nat)
    requires Entries(names[..], ns) && Entries(entries[..], ts) && i < |ns| == |ts|
    requires NulFree(ns[i]) && NulFree(ts[i]) && Written(out, ptr0, done)
    requires |names[..]| == |entries[..]| == |ns| && names[i] != out && entries[i] != out
    requires ptr0 + |Row(ns[i], ts[i], i + 1 == |ns|, depth, fmt)| < out.Length
    modifies out
    ensures Written(out, ptr, done + Row(ns[i], ts[i], i + 1 == |ns|, depth, fmt))
  {
    EntryAt(names[..], ns, i);
    EntryAt(entries[..], ts, i);
    hide *;
    ptr := PutMember(out, ptr0, names[i], entries[i], i == entries.Length - 1, depth, fmt, ns[i], ts[i], done);
  }

  /** The composing loop of print_object, which gives names and entries back as it goes. */
  method PutMembers(heap: Heap, out: array<char>, ptr0: nat, names: array<array?<char>>, entries: array<array?<char>>,
                    ghost ns: seq<Text>, ghost ts: seq<Text>, depth: nat, fmt: bool, ghost done0: Text,
                    ghost whole: Text, ghost base: set<object>)
    returns (ptr: nat, ghost done: Text)
    requires |ns| == |ts| && Entries(names[..], ns) && Entries(entries[..], ts) && depth > 0
    requires forall k | 0 <= k < |ts| :: NulFree(ns[k]) && NulFree(ts[k])
    requires HoldBoth(names[..], entries[..], base, heap.live) && out in base
    requires Written(out, ptr0, done0) && ptr0 == |done0| && |whole| < out.Length
    requires whole == done0 + JoinMembers(ns, ts, depth, fmt)
    modifies heap`live, out
    ensures heap.live == base
    ensures Written(out, ptr, done) && ptr == |done| && whole == done + JoinMembers([], [], depth, fmt)
  {
    ptr, done := ptr0, done0;
    ghost var names', entries' := names[..], entries[..];
    ComposedEnds(ns, ts, depth, fmt, done, whole);
    LeftAll(names', entries', base, heap.live);
    NotHeld(names', entries', base, heap.live, out);
    EntriesLength(names', ns);
    hide *;
    for i := 0 to entries.Length
      invariant Written(out, ptr, done) && ptr == |done| && Composed(ns, ts, i, depth, fmt, done, whole)
      invariant names[..] == names' && entries[..] == entries' && Entries(names', ns) && Entries(entries', ts)
      invariant LeftBoth(names', entries', i, base, heap.live)
    {
      NextMember(ns, ts, i, depth, fmt, done, whole);
      ptr := PutRow(out, ptr, names, entries, i, depth, fmt, ns, ts, done);
      done := done + Row(ns[i], ts[i], i + 1 == |ns|, depth, fmt);
      WrittenLength(out, ptr, done);
      FreePair(heap, names, entries, i, base);
    }
    LeftNothing(names', entries', base, heap.live);
    ComposedEnds(ns, ts, depth, fmt, done, whole);
  }

  lemma EntriesLength(es: Slots, ts: seq<Text>)
    requires Entries(es, ts)
    ensures |es| == |ts|
  {
  }

  /** print_object. If an allocation fails everything is given back. */
  method PrintObject(heap: Heap, members: Members, depth: nat, fmt: bool) returns (out: array?<char>)
    requires PrintableMembers(members)
    modifies heap`live, heap`plan
    ensures Plenty(old(heap.plan)) ==> out != null && Plenty(heap.plan)
    ensures heap.live == Grown(old(heap.live), out)
    ensures out != null ==> fresh(out) && CString(out, Print(Object(members), depth, fmt))
    decreases members, 3
  {
    var n := CountMembers(members);
    if n == 0 {
      assert members.NoMembers?;
      out := EmptyObject(heap, depth, fmt);
      return;
    }
    hide Print, CString, Plenty, MemberCount;
    out := null;
    var entries := heap.NewTable(n);
    if entries != null {
      out := PrintEntries(heap, entries, members, depth, fmt);
      heap.Free(entries);
    }
  }

  /** The rest of print_object, once there is a table for the entries: one for the names, and the text. */
  method PrintEntries(heap: Heap, entries: array<array?<char>>, members: Members, depth: nat, fmt: bool)
    returns (out: array?<char>)
    requires PrintableMembers(members) && members.Member? && entries.Length == MemberCount(members)
    requires forall k | 0 <= k < entries.Length :: entries[k] == null
    modifies heap`live, heap`plan, entries
    ensures Plenty(old(heap.plan)) ==> out != null && Plenty(heap.plan)
    ensures heap.live == Grown(old(heap.live), out)
    ensures out != null ==> fresh(out) && CString(out, Print(Object(members), depth, fmt))
    decreases members, 2, 1
  {
    hide Print, CString, MemberTexts, MemberNames, Plenty, Entries, HoldBoth, RoomForMembers, MemberCount;
    out := null;
    var names := heap.NewTable(entries.Length);
    if names != null {
      ghost var base := heap.live;
      var fail, len := CollectMembers(heap, names, entries, members, depth + 1, fmt);
      out := FinishObject(heap, names, entries, members, depth, fmt, fail, len, base);
      heap.Free(names);
    }
  }

  /** The text of an object from its names and entries, unless one of them or the last allocation fails. */
  method FinishObject(heap: Heap, names: array<array?<char>>, entries: array<array?<char>>, members: Members,
                      depth: nat, fmt: bool, fail: bool, len: nat, ghost base: set<object>)
    returns (out: array?<char>)
    requires PrintableMembers(members) && members.Member? && names.Length == entries.Length
    requires HoldBoth(names[..], entries[..], base, heap.live)
    requires var ns, ts := MemberNames(members), MemberTexts(members, depth + 1, fmt);
             && |ns| == |ts|
             && (!fail ==>
                   && Entries(names[..], ns) && Entries(entries[..], ts)
                   && len == 7 + (if fmt then depth + 1 else 0) + RoomForMembers(ns, ts, depth + 1, fmt))
    modifies heap`live, heap`plan
    ensures !fail && Plenty(old(heap.plan)) ==> out != null && Plenty(heap.plan)
    ensures Plenty(old(heap.plan)) ==> Plenty(heap.plan)
    ensures heap.live == Grown(base, out)
    ensures out != null ==> fresh(out) && CString(out, Print(Object(members), depth, fmt))
  {
    hide HoldBoth, Entries, MemberNames, MemberTexts, RoomForMembers, CString, Print, Plenty;
    out := null;
    if !fail {
      ghost var live := heap.live;
      out := heap.NewChars(len);
      if out != null {
        BesideBoth(names[..], entries[..], base, live, out);
      }
    }
    if out == null {
      FreeBoth(heap, names, entries, base);
    } else {
      ghost var ns, ts := MemberNames(members), MemberTexts(members, depth + 1, fmt);
      MemberTextsNulFree(members, depth + 1, fmt);
      MembersJoinIsPrint(members, depth + 1, fmt);
      ObjectText(members, depth, fmt);
      ComposeMembers(heap, out, names, entries, ns, ts, depth + 1, fmt, base + {out});
    }
  }

  lemma ObjectText(members: Members, depth: nat, fmt: bool)
    requires PrintableMembers(members) && members.Member?
    ensures "{" + Only(fmt, "\n") + PrintMembers(members, depth + 1, fmt) == Print(Object(members), depth, fmt)
  {
    hide PrintMembers;
  }

  /** An empty object in depth + 4 characters, or 3. */
  method EmptyObject(heap: Heap, depth: nat, fmt: bool) returns (out: array?<char>)
    modifies heap`live, heap`plan
    ensures Plenty(old(heap.plan)) ==> out != null && Plenty(heap.plan)
    ensures heap.live == Grown(old(heap.live), out)
    ensures out != null ==>
              && fresh(out) && out.Length == (if fmt then depth + 4 else 3)
              && CString(out, Print(Object(NoMembers), depth, fmt))
  {
    var n := if depth == 0 then 0 else depth - 1;
    out := heap.NewChars(if fmt then depth + 4 else 3);
    if out == null {
      return;
    }
    assert Written(out, 0, []);
    Put(out, 0, '{', []);
    var ptr: nat := 1;
    ghost var s: Text := [] + ['{'];
    if fmt {
      Put(out, ptr, '\n', s);
      s := s + ['\n'];
      ptr := PutTabs(out, 2, n, s);
      s := s + Tabs(n);
    }
    Put(out, ptr, '}', s);
    s := s + ['}'];
    Terminate(out, ptr + 1, s);
    assert s == Print(Object(NoMembers), depth, fmt);
  }

  lemma {:induction false} MemberTextsNulFree(members: Members, depth: nat, fmt: bool)
    requires PrintableMembers(members)
    ensures var ns, ts := MemberNames(members), MemberTexts(members, depth, fmt);
            && |ns| == |ts|
            && forall k | 0 <= k < |ts| :: NulFree(ns[k]) && NulFree(ts[k])
    decreases members
  {
    if members.Member? {
      PrintNulFree(members.value, depth, fmt);
      QuoteNulFree(members.name);
      MemberTextsNulFree(members.rest, depth, fmt);
    }
  }

  /** print_value: the text, or null if memory runs out; beside the text nothing that has been allocated on the
      way is left behind. */
  method PrintValue(heap: Heap, v: Value, depth: nat, fmt: bool) returns (out: array?<char>)
    requires Printable(v)
    modifies heap`live, heap`plan
    ensures Plenty(old(heap.plan)) ==> out != null && Plenty(heap.plan)
    ensures heap.live == Grown(old(heap.live), out)
    ensures out != null ==> fresh(out) && CString(out, Print(v, depth, fmt))
    decreases v, 4
  {
    hide PrintItems, PrintMembers, Quote, Plenty;
    match v
    case Null => out := StrDup(heap, "null");
    case False => out := StrDup(heap, "false");
    case True => out := StrDup(heap, "true");
    case Number(m, _) => out := PrintNumber(heap, m);
    case String(s) =>
      out := PrintStringPtr(heap, s);
      if out != null {
        ExactIsCString(out, Quote(s));
      }
    case Array(items) => out := PrintArray(heap, items, depth, fmt);
    case Object(members) => out := PrintObject(heap, members, depth, fmt);
  }
}
