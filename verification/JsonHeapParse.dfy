/** The parser as it fills nodes on the heap: it agrees with the parser on texts, and gives everything back when it
    fails. */
module JsonHeapParse {
  import opened Options
  import opened Json
  import opened JsonHeap
  import opened JsonTree
  import JsonString
  import P = JsonParse

  type Outcome<T> = P.Outcome<T>

  // ---- what nodes say about values ----

  /** The node data that represents a value. */
  ghost function Image(v: Value, name: Option<Text>): Rec
    decreases v
  {
    match v
    case Null => Rec(KNull, 0, 0, None, name, [])
    case False => Rec(KFalse, 0, 0, None, name, [])
    case True => Rec(KTrue, 0, 0, None, name, [])
    case Number(m, e) => Rec(KNumber, m, e, None, name, [])
    case String(s) => Rec(KString, 0, 0, Some(s), name, [])
    case Array(items) => Rec(KArray, 0, 0, None, name, ItemImages(items))
    case Object(members) => Rec(KObject, 0, 0, None, name, MemberImages(members))
  }

  ghost function ItemImages(items: Items): seq<Rec>
    decreases items
  {
    match items
    case NoItems => []
    case Item(v, rest) => [Image(v, None)] + ItemImages(rest)
  }

  ghost function MemberImages(members: Members): seq<Rec>
    decreases members
  {
    match members
    case NoMembers => []
    case Member(name, v, rest) => [Image(v, Some(name))] + MemberImages(rest)
  }

  ghost function ItemsOutcome(o: Outcome<Items>): Outcome<seq<Rec>> {
    if o.Parsed? then P.Parsed(ItemImages(o.value), o.end) else o.PropagateFailure()
  }

  ghost function MembersOutcome(o: Outcome<Members>): Outcome<seq<Rec>> {
    if o.Parsed? then P.Parsed(MemberImages(o.value), o.end) else o.PropagateFailure()
  }

  /** `done` has been read and the rest turns out as `o`. */
  ghost function Extend(done: seq<Rec>, o: Outcome<seq<Rec>>): Outcome<seq<Rec>> {
    if o.Parsed? then P.Parsed(done + o.value, o.end) else o
  }

  /** What an array or object still holds after one of its entries: `closer` ends it, a comma continues it. */
  ghost function Rest(t: Text, j: nat, named: bool): Outcome<seq<Rec>>
    requires j <= |t|
  {
    if P.At(t, j) == ',' then Entries(t, j + 1, named)
    else if P.At(t, j) == (if named then '}' else ']') then P.Parsed([], j + 1)
    else P.Failed(j)
  }

  ghost function Entries(t: Text, i: nat, named: bool): Outcome<seq<Rec>>
    requires i <= |t|
  {
    if named then MembersOutcome(P.ParseMembers(t, i)) else ItemsOutcome(P.ParseItems(t, i))
  }

  /** What the brackets at i enclose. */
  ghost function Container(t: Text, i: nat, named: bool): Outcome<seq<Rec>>
    requires i < |t|
  {
    var j := P.Skip(t, i + 1);
    if P.At(t, j) == (if named then '}' else ']') then P.Parsed([], j + 1) else Entries(t, j, named)
  }

  lemma ContainerParses(t: Text, i: nat)
    requires i < |t|
    ensures Container(t, i, false) == ItemsOutcome(P.ParseArray(t, i))
    ensures Container(t, i, true) == MembersOutcome(P.ParseObject(t, i))
  {
    hide P.ParseItems, P.ParseMembers, P.Skip;
    NoImages();
  }

  /** The name of a member and its colon. */
  ghost function Key(t: Text, i: nat): (r: Outcome<Text>)
    requires i <= |t|
    ensures r.Parsed? ==> i < r.end <= |t|
  {
    var (name, k) :- P.ParseString(t, P.Skip(t, i));
    var colon := P.Skip(t, k);
    if P.At(t, colon) != ':' then P.Failed(colon) else P.Parsed(name, colon + 1)
  }

  /** One entry: its data and where it ends. */
  ghost function Entry(t: Text, i: nat, named: bool): (r: Outcome<Rec>)
    requires i <= |t|
    ensures r.Parsed? ==> i < r.end <= |t|
  {
    if named then
      var (name, k) :- Key(t, i);
      var (v, end) :- P.ParseValue(t, P.Skip(t, k));
      P.Parsed(Image(v, Some(name)), end)
    else
      var (v, end) :- P.ParseValue(t, P.Skip(t, i));
      P.Parsed(Image(v, None), end)
  }

  /** Entries are read one at a time. */
  lemma EntriesStep(t: Text, i: nat, named: bool)
    requires i <= |t|
    ensures var e := Entry(t, i, named);
      Entries(t, i, named) ==
      if e.Parsed? then Extend([e.value], Rest(t, P.Skip(t, e.end), named)) else e.PropagateFailure()
  {
    if named {
      MembersStep(t, i);
    } else {
      ItemsStep(t, i);
    }
  }

  lemma NoImages()
    ensures ItemImages(NoItems) == [] && MemberImages(NoMembers) == [] && DataOf(Empty) == []
  {
  }

  lemma ItemsByValue(t: Text, i: nat)
    requires i <= |t|
    ensures P.ParseItems(t, i) == (
      var (v, end) :- P.ParseValue(t, P.Skip(t, i));
      var j := P.Skip(t, end);
      if P.At(t, j) == ',' then
        var (rest, last) :- P.ParseItems(t, j + 1);
        P.Parsed(Item(v, rest), last)
      else if P.At(t, j) == ']' then P.Parsed(Item(v, NoItems), j + 1)
      else P.Failed(j))
  {
    hide P.ParseValue, P.ParseString, P.Skip, P.ParseMembers, P.At;
  }

  /** Another item in front. */
  function WithItem(v: Value, o: Outcome<Items>): Outcome<Items> {
    if o.Parsed? then P.Parsed(Item(v, o.value), o.end) else o.PropagateFailure()
  }

  lemma ItemInFront(v: Value, o: Outcome<Items>)
    ensures ItemsOutcome(WithItem(v, o)) == Extend([Image(v, None)], ItemsOutcome(o))
    ensures Extend([Image(v, None)], P.Parsed([], 0)).value == ItemImages(Item(v, NoItems))
  {
    hide Image;
    NoImages();
  }

  lemma ItemsStep(t: Text, i: nat)
    requires i <= |t|
    ensures var e := Entry(t, i, false);
      Entries(t, i, false) ==
      if e.Parsed? then Extend([e.value], Rest(t, P.Skip(t, e.end), false)) else e.PropagateFailure()
  {
    hide P.ParseValue, P.Skip, P.ParseItems, Image, ItemImages;
    ItemsByValue(t, i);
    if P.ParseValue(t, P.Skip(t, i)).Parsed? {
      var (v, end) := P.ParseValue(t, P.Skip(t, i)).Extract();
      var j := P.Skip(t, end);
      if P.At(t, j) == ',' {
        assert P.ParseItems(t, i) == WithItem(v, P.ParseItems(t, j + 1));
        ItemInFront(v, P.ParseItems(t, j + 1));
      } else if P.At(t, j) == ']' {
        ItemInFront(v, P.Failed(0));
      }
    }
  }

  lemma MembersByKey(t: Text, i: nat)
    requires i <= |t|
    ensures P.ParseMembers(t, i) == (
      var (name, k) :- Key(t, i);
      var (v, end) :- P.ParseValue(t, P.Skip(t, k));
      var j := P.Skip(t, end);
      if P.At(t, j) == ',' then
        var (rest, last) :- P.ParseMembers(t, j + 1);
        P.Parsed(Member(name, v, rest), last)
      else if P.At(t, j) == '}' then P.Parsed(Member(name, v, NoMembers), j + 1)
      else P.Failed(j))
  {
    hide P.ParseValue, P.ParseString, P.Skip, P.ParseItems, P.At;
  }

  /** Another member in front. */
  function WithMember(name: Text, v: Value, o: Outcome<Members>): Outcome<Members> {
    if o.Parsed? then P.Parsed(Member(name, v, o.value), o.end) else o.PropagateFailure()
  }

  lemma MemberInFront(name: Text, v: Value, o: Outcome<Members>)
    ensures MembersOutcome(WithMember(name, v, o)) == Extend([Image(v, Some(name))], MembersOutcome(o))
    ensures Extend([Image(v, Some(name))], P.Parsed([], 0)).value == MemberImages(Member(name, v, NoMembers))
  {
    hide Image;
    NoImages();
  }

  lemma MembersStep(t: Text, i: nat)
    requires i <= |t|
    ensures var e := Entry(t, i, true);
      Entries(t, i, true) ==
      if e.Parsed? then Extend([e.value], Rest(t, P.Skip(t, e.end), true)) else e.PropagateFailure()
  {
    hide P.ParseValue, P.Skip, P.ParseMembers, Image, MemberImages, Key;
    MembersByKey(t, i);
    if Key(t, i).Parsed? {
      var (name, k) := Key(t, i).Extract();
      if P.ParseValue(t, P.Skip(t, k)).Parsed? {
        var (v, end) := P.ParseValue(t, P.Skip(t, k)).Extract();
        var j := P.Skip(t, end);
        if P.At(t, j) == ',' {
          assert P.ParseMembers(t, i) == WithMember(name, v, P.ParseMembers(t, j + 1));
          MemberInFront(name, v, P.ParseMembers(t, j + 1));
        } else if P.At(t, j) == '}' {
          MemberInFront(name, v, P.Failed(0));
        }
      }
    }
  }

  /** One round of the loop over the entries of an array or object. */
  lemma Advance(t: Text, first: nat, done: seq<Rec>, value: nat, named: bool)
    requires first <= |t| && value < |t| && t[value] == ','
    requires Entries(t, first, named) == Extend(done, Rest(t, value, named))
    ensures var e := Entry(t, value + 1, named);
      Entries(t, first, named) ==
      if e.Parsed? then Extend(done + [e.value], Rest(t, P.Skip(t, e.end), named)) else e.PropagateFailure()
  {
    var e := Entry(t, value + 1, named);
    RestGoesOn(t, value, named);
    hide *;
    EntriesStep(t, value + 1, named);
    if e.Parsed? {
      ExtendTwice(done, e.value, Rest(t, P.Skip(t, e.end), named));
    } else {
      ExtendFailure(done, e);
    }
  }

  lemma RestGoesOn(t: Text, value: nat, named: bool)
    requires value < |t| && t[value] == ','
    ensures Rest(t, value, named) == Entries(t, value + 1, named)
  {
    hide Entries;
  }

  lemma ExtendTwice(done: seq<Rec>, x: Rec, o: Outcome<seq<Rec>>)
    ensures Extend(done, Extend([x], o)) == Extend(done + [x], o)
  {
    if o.Parsed? {
      assert done + ([x] + o.value) == done + [x] + o.value;
    }
  }

  lemma ExtendFailure(done: seq<Rec>, e: Outcome<Rec>)
    requires !e.Parsed?
    ensures Extend(done, e.PropagateFailure()) == e.PropagateFailure()
  {
  }

  // ---- the parser ----

  /** An end position was found, or the error position was set, or memory ran out. */
  ghost predicate Agrees<T>(end: Option<nat>, ep: Option<nat>, enough: bool, o: Outcome<T>) {
    if end.Some? then ep.None? && o.Parsed? && o.end == end.value
    else if ep.Some? then o.Failed? && o.at == ep.value
    else !enough
  }

  /** As cJSON_New_Item made it, or as parse_string left it after its string became the name. */
  ghost predicate Blank(n: Node)
    reads n
  {
    n.next == null && n.child == null && !n.isReference && n.valuestring == null && n.mantissa == 0 && n.exponent == 0
  }

  /** Beyond `base`, exactly n, its strings and the chain `kids` below it are allocated. */
  ghost predicate Holds(n: Node, kids: Forest, base: set<object>, live: set<object>)
    reads n, Foot(Single(n, n.Data(), kids))
  {
    Owns(Single(n, n.Data(), kids), n, n.prev, null) && Adds(Single(n, n.Data(), kids), base, live)
  }

  ghost predicate Ready(heap: Heap, item: Node, base: set<object>)
    reads heap, item, Foot(Single(item, item.Data(), Empty))
  {
    heap !in heap.live && heap.ep == None && Blank(item) && Holds(item, Empty, base, heap.live)
  }

  /** skip */
  method SkipSpace(t: Text, i: nat) returns (j: nat)
    requires NulFree(t) && i <= |t|
    ensures j == P.Skip(t, i)
  {
    j := i;
    while j < |t| && t[j] <= ' '
      invariant i <= j <= |t| && P.Skip(t, j) == P.Skip(t, i)
    {
      j := j + 1;
    }
  }

  /** The digits from i on, accumulated onto n. */
  method Digits(t: Text, i: nat, n: nat) returns (m: nat, j: nat)
    requires i <= |t|
    ensures (m, j) == P.ReadDigits(t, i, n)
  {
    m, j := n, i;
    while P.IsDigit(P.At(t, j))
      invariant i <= j <= |t| && P.ReadDigits(t, j, m) == P.ReadDigits(t, i, n)
      decreases |t| - j
    {
      m, j := 10 * m + P.DigitValue(t[j]), j + 1;
    }
  }

  /** Sign, digits and fraction. */
  method Significand(t: Text, i: nat) returns (mantissa: int, scale: int, num: nat)
    requires i < |t| && (t[i] == '-' || P.IsDigit(t[i]))
    ensures (mantissa, scale, num) == P.Significand(t, i)
  {
    hide P.ReadDigits;
    var sign, n: nat := 1, 0;
    num, scale := i, 0;
    if t[num] == '-' {
      sign, num := -1, num + 1;
    }
    if P.At(t, num) == '0' {
      num := num + 1;
    }
    if '1' <= P.At(t, num) <= '9' {
      n, num := Digits(t, num, 0);
    }
    if P.At(t, num) == '.' && P.IsDigit(P.At(t, num + 1)) {
      var point := num;
      n, num := Digits(t, num + 1, n);
      scale := point + 1 - num;
    }
    mantissa := sign * n;
  }

  /** parse_number */
  method ParseNumber(item: Node, t: Text, i: nat) returns (num: nat)
    requires i < |t| && (t[i] == '-' || P.IsDigit(t[i]))
    modifies item`kind, item`mantissa, item`exponent
    ensures item.kind == KNumber && P.ParseNumber(t, i) == P.Parsed(Number(item.mantissa, item.exponent), num)
  {
    hide P.ReadDigits, P.Significand;
    var mantissa, scale;
    mantissa, scale, num := Significand(t, i);
    if P.At(t, num) == 'e' || P.At(t, num) == 'E' {
      var negative := P.At(t, num + 1) == '-';
      num := if P.At(t, num + 1) == '+' || negative then num + 2 else num + 1;
      var subscale;
      subscale, num := Digits(t, num, 0);
      scale := if negative then scale - subscale else scale + subscale;
    }
    item.kind, item.mantissa, item.exponent := KNumber, mantissa, scale;
  }

  /** Filling in a node's own value keeps what it holds. */
  lemma StillHolds(n: Node, kids: Forest, info: Info, base: set<object>, before: set<object>, live: set<object>)
    requires Adds(Single(n, info, kids), base, before)
    requires n.Data().StringsDiffer() && !n.isReference && Owns(kids, n.child, null, null) && n.next == null
    requires live == before + n.Data().Strings() && n.Data().Strings() - info.Strings() !! before
      && info.Strings() <= n.Data().Strings()
    ensures Holds(n, kids, base, live)
  {
  }

  /** parse_string: room for the text first, then the text. */
  method ParseString(heap: Heap, t: Text, item: Node, i: nat, ghost base: set<object>) returns (end: Option<nat>)
    requires NulFree(t) && i <= |t| && P.ParseString(t, i) != P.Truncated && Ready(heap, item, base)
    modifies heap, item`kind, item`valuestring
    ensures heap !in heap.live && (Plenty(old(heap.plan)) ==> Plenty(heap.plan))
    ensures Agrees(end, heap.ep, Plenty(old(heap.plan)), P.ParseString(t, i))
    ensures Holds(item, Empty, base, heap.live)
    ensures if end.Some? then item.kind == KString && TextOf(item.valuestring) == Some(P.ParseString(t, i).value)
            else item.valuestring == null
  {
    hide P.ParseString;
    if P.At(t, i) != '\"' {
      StringNeedsQuote(t, i);
      heap.ep := Some(i);
      return None;
    }
    StringNeedsQuote(t, i);
    ghost var before, info := heap.live, item.Data();
    var decoded := JsonString.ParseStringBuffer(t, i);
    var out := heap.NewStr(decoded.value.0[..decoded.value.1]);
    if out == null {
      return None;
    }
    item.valuestring, item.kind := out, KString;
    StillHolds(item, Empty, info, base, before, heap.live);
    end := Some(decoded.value.2);
  }

  lemma StringNeedsQuote(t: Text, i: nat)
    requires i <= |t|
    ensures P.At(t, i) != '\"' ==> P.ParseString(t, i) == P.Failed(i)
    ensures P.At(t, i) == '\"' ==> !P.ParseString(t, i).Failed?
  {
  }

  lemma KeepsHolding(n: Node, kids: Forest, info: Info, base: set<object>, live: set<object>)
    requires Adds(Single(n, info, kids), base, live) && n.Data().Strings() == info.Strings()
    requires n.Data().StringsDiffer() && !n.isReference && Owns(kids, n.child, null, null) && n.next == null
    ensures Holds(n, kids, base, live)
  {
  }

  lemma HoldsFacts(n: Node, kids: Forest, base: set<object>, live: set<object>)
    requires Holds(n, kids, base, live)
    ensures Adds(Single(n, n.Data(), kids), base, live) && Owns(Single(n, n.Data(), kids), n, n.prev, null)
    ensures n.Data().StringsDiffer() && !n.isReference && Owns(kids, n.child, null, null) && n.next == null
    ensures Foot(Single(n, n.Data(), kids)) <= live
  {
    assert !n.Data().isReference;
    OwnsTree(Single(n, n.Data(), kids), n, n.prev, null);
  }

  /** The three literals. */
  method SetKind(item: Node, kind: Kind, ghost base: set<object>, ghost live: set<object>)
    requires Holds(item, Empty, base, live) && Blank(item)
    modifies item`kind
    ensures Holds(item, Empty, base, live) && Blank(item) && item.kind == kind
  {
    HoldsFacts(item, Empty, base, live);
    OwnsNothing(null, null);
    ghost var info := item.Data();
    hide Owns, Adds, Single, Holds, Foot;
    item.kind := kind;
    KeepsHolding(item, Empty, info, base, live);
  }

  method SetNumber(item: Node, t: Text, i: nat, ghost base: set<object>, ghost live: set<object>) returns (num: nat)
    requires i < |t| && (t[i] == '-' || P.IsDigit(t[i]))
    requires Holds(item, Empty, base, live) && Blank(item)
    modifies item`kind, item`mantissa, item`exponent
    ensures Holds(item, Empty, base, live)
    ensures item.kind == KNumber && P.ParseNumber(t, i) == P.Parsed(Number(item.mantissa, item.exponent), num)
  {
    HoldsFacts(item, Empty, base, live);
    OwnsNothing(null, null);
    ghost var info := item.Data();
    hide Owns, Adds, Single, Holds, Foot, P.ParseNumber;
    num := ParseNumber(item, t, i);
    KeepsHolding(item, Empty, info, base, live);
  }

  /** parse_value. Whatever happens, all that was allocated hangs below the item. */
  method ParseValue(heap: Heap, t: Text, item: Node, i: nat, ghost base: set<object>)
    returns (end: Option<nat>, ghost kids: Forest)
    requires NulFree(t) && i <= |t| && P.ParseValue(t, i) != P.Truncated && Ready(heap, item, base)
    modifies heap, item`kind, item`child, item`valuestring, item`mantissa, item`exponent
    ensures heap !in heap.live && (Plenty(old(heap.plan)) ==> Plenty(heap.plan))
    ensures Agrees(end, heap.ep, Plenty(old(heap.plan)), P.ParseValue(t, i))
    ensures Holds(item, kids, base, heap.live)
    ensures end.Some? ==> RecOf(item.Data(), DataOf(kids)) == Image(P.ParseValue(t, i).value, TextOf(item.name))
    decreases |t| - i, 1
  {
    hide Owns, Adds, Single, Holds, Foot, DataOf, Container, P.ParseNumber, P.ParseString, P.ParseArray, P.ParseObject;
    NoImages();
    HoldsFacts(item, Empty, base, heap.live);
    kids := Empty;
    if P.Starts(t, i, "null") {
      SetKind(item, KNull, base, heap.live);
      end := Some(i + 4);
    } else if P.Starts(t, i, "false") {
      SetKind(item, KFalse, base, heap.live);
      end := Some(i + 5);
    } else if P.Starts(t, i, "true") {
      SetKind(item, KTrue, base, heap.live);
      end := Some(i + 4);
    } else if P.At(t, i) == '\"' {
      end := ParseString(heap, t, item, i, base);
    } else if P.At(t, i) == '-' || P.IsDigit(P.At(t, i)) {
      var num := SetNumber(item, t, i, base, heap.live);
      end := Some(num);
    } else if P.At(t, i) == '[' {
      ContainerParses(t, i);
      end, kids := ParseContainer(heap, t, false, item, i, base);
    } else if P.At(t, i) == '{' {
      ContainerParses(t, i);
      end, kids := ParseContainer(heap, t, true, item, i, base);
    } else {
      heap.ep := Some(i);
      end := None;
    }
  }

  /** A blank node joins a chain of children. */
  method AddBlank(heap: Heap, parent: Node, last: Node?, ghost all: Forest, ghost mid: set<object>) returns (n: Node?)
    requires heap !in heap.live && Adds(all, mid, heap.live) && parent in mid
    requires Owns(all, parent.child, null, null) && last == Last(all, null)
    modifies heap`live, heap`plan, parent`child, (if last == null then {} else {last})`next
    ensures heap !in heap.live && (Plenty(old(heap.plan)) ==> Plenty(heap.plan))
    ensures n == null ==> heap.live == old(heap.live) && !Plenty(old(heap.plan)) && Owns(all, parent.child, null, null)
    ensures n != null ==>
      && fresh(n) && Blank(n) && n.name == null && n.prev == Last(all, null)
      && Owns(all, parent.child, null, n) && Holds(n, Empty, old(heap.live), heap.live)
  {
    ghost var before := heap.live;
    AddsFacts(all, mid, before);
    assert allocated(Foot(all));
    hide Owns, Adds, Foot, Separate, Concat, Last, Holds, Single, NoReferences;
    n := heap.NewItem();
    if n != null {
      assert n.Data().Strings() == {};
      Childless(n, before, heap.live);
      ghost var zero := Single(n, n.Data(), Empty);
      AddsFacts(zero, before, heap.live);
      Hang(parent, last, n, all, zero);
      SplitOwns(all, zero, parent.child, null, null);
      BlankHolds(n, Last(all, null), before, heap.live);
    }
  }

  lemma BlankHolds(n: Node, prev: Node?, base: set<object>, live: set<object>)
    requires var zero := Single(n, n.Data(), Empty);
      Owns(zero, n, prev, null) && Adds(zero, base, live)
    ensures n.prev == prev && n.next == null && Holds(n, Empty, base, live)
  {
  }

  /** The last child is complete again: so is the chain. */
  lemma Completed(all: Forest, head: Node?, n: Node, kids: Forest, mid: set<object>, before: set<object>,
                  live: set<object>)
    requires Owns(all, head, null, n) && Adds(all, mid, before)
    requires n.prev == Last(all, null) && Holds(n, kids, before, live)
    ensures var grown := Concat(all, Single(n, n.Data(), kids));
      && Owns(grown, head, null, null) && Adds(grown, mid, live) && Last(grown, null) == n
      && DataOf(grown) == DataOf(all) + [RecOf(n.Data(), DataOf(kids))]
  {
    ghost var tree := Single(n, n.Data(), kids);
    ConcatOwns(all, tree, head, null, n, null);
    AddsUp(all, tree, mid, before, live);
    ConcatLast(all, tree, null);
  }

  /** The value of a new array item. The chain in front of it does not change. */
  method ParseItem(heap: Heap, t: Text, n: Node, i: nat, ghost all: Forest, head: Node?, ghost base: set<object>)
    returns (end: Option<nat>, ghost kids: Forest)
    requires NulFree(t) && i <= |t| && Entry(t, i, false) != P.Truncated && Ready(heap, n, base) && n.name == null
    requires Owns(all, head, null, n) && n !in Foot(all) && heap !in Foot(all)
    modifies heap, n`kind, n`child, n`valuestring, n`mantissa, n`exponent
    ensures heap !in heap.live && (Plenty(old(heap.plan)) ==> Plenty(heap.plan))
    ensures Agrees(end, heap.ep, Plenty(old(heap.plan)), Entry(t, i, false))
    ensures Owns(all, head, null, n) && Holds(n, kids, base, heap.live)
    ensures end.Some? ==> RecOf(n.Data(), DataOf(kids)) == Entry(t, i, false).value
    decreases |t| - i, 2
  {
    hide Owns, Foot, Holds, Image, P.ParseValue, P.Skip, DataOf;
    assert allocated(Foot(all)) && allocated(Foot(Single(n, n.Data(), Empty)));
    var value := SkipSpace(t, i);
    end, kids := ParseValue(heap, t, n, value, base);
  }

  /** child->string = child->valuestring; child->valuestring = 0 */
  method TakeName(n: Node, ghost base: set<object>, ghost live: set<object>)
    requires Holds(n, Empty, base, live) && n.child == null && n.name == null && n.mantissa == 0 && n.exponent == 0
    modifies n`name, n`valuestring
    ensures Holds(n, Empty, base, live) && Blank(n) && n.name == old(n.valuestring)
  {
    HoldsFacts(n, Empty, base, live);
    OwnsNothing(null, null);
    ghost var info := n.Data();
    assert info.Strings() == if n.valuestring == null then {} else {n.valuestring};
    hide Owns, Adds, Single, Holds, Foot;
    n.name := n.valuestring;
    n.valuestring := null;
    assert n.Data().Strings() == info.Strings();
    KeepsHolding(n, Empty, info, base, live);
  }

  /** The name of a new member, and its colon. */
  method ParseKey(heap: Heap, t: Text, n: Node, i: nat, ghost base: set<object>) returns (end: Option<nat>)
    requires NulFree(t) && i <= |t| && Key(t, i) != P.Truncated && Ready(heap, n, base) && n.name == null
    modifies heap, n`kind, n`valuestring, n`name
    ensures heap !in heap.live && (Plenty(old(heap.plan)) ==> Plenty(heap.plan))
    ensures Agrees(end, heap.ep, Plenty(old(heap.plan)), Key(t, i))
    ensures Holds(n, Empty, base, heap.live) && Blank(n)
    ensures end.Some? ==> TextOf(n.name) == Some(Key(t, i).value)
  {
    hide Owns, Adds, Single, Holds, Foot, P.Skip, P.ParseString;
    assert allocated(Foot(Single(n, n.Data(), Empty)));
    var value := SkipSpace(t, i);
    end := ParseString(heap, t, n, value, base);
    TakeName(n, base, heap.live);
    if end.Some? {
      HoldsFacts(n, Empty, base, heap.live);
      assert allocated(Foot(Single(n, n.Data(), Empty)));
      value := SkipSpace(t, end.value);
      if P.At(t, value) == ':' {
        end := Some(value + 1);
      } else {
        heap.ep := Some(value);
        end := None;
      }
    }
  }

  /** The name and value of a new member. The chain in front of it does not change. */
  method ParseMember(heap: Heap, t: Text, n: Node, i: nat, ghost all: Forest, head: Node?, ghost base: set<object>)
    returns (end: Option<nat>, ghost kids: Forest)
    requires NulFree(t) && i <= |t| && Entry(t, i, true) != P.Truncated && Ready(heap, n, base) && n.name == null
    requires Owns(all, head, null, n) && n !in Foot(all) && heap !in Foot(all)
    modifies heap, n`kind, n`child, n`valuestring, n`mantissa, n`exponent, n`name
    ensures heap !in heap.live && (Plenty(old(heap.plan)) ==> Plenty(heap.plan))
    ensures Agrees(end, heap.ep, Plenty(old(heap.plan)), Entry(t, i, true))
    ensures Owns(all, head, null, n) && Holds(n, kids, base, heap.live)
    ensures end.Some? ==> RecOf(n.Data(), DataOf(kids)) == Entry(t, i, true).value
    decreases |t| - i, 2
  {
    hide Owns, Foot, Holds, Image, P.ParseValue, P.Skip, DataOf, Key;
    assert allocated(Foot(all));
    kids := Empty;
    end := ParseKey(heap, t, n, i, base);
    if end.Some? {
      assert allocated(Foot(Single(n, n.Data(), Empty)));
      var value := SkipSpace(t, end.value);
      end, kids := ParseValue(heap, t, n, value, base);
    }
  }

  /** One more item of an array, or member of an object: linked to the chain first, then parsed. */
  method NextEntry(heap: Heap, t: Text, named: bool, parent: Node, last: Node?, i: nat, ghost all: Forest,
                   ghost mid: set<object>)
    returns (n: Node?, end: Option<nat>, ghost grown: Forest)
    requires NulFree(t) && i <= |t| && Entry(t, i, named) != P.Truncated
    requires heap !in heap.live && heap.ep == None && Adds(all, mid, heap.live) && parent in mid
    requires Owns(all, parent.child, null, null) && last == Last(all, null)
    modifies heap, parent`child, (if last == null then {} else {last})`next
    ensures heap !in heap.live && (Plenty(old(heap.plan)) ==> Plenty(heap.plan))
    ensures Agrees(end, heap.ep, Plenty(old(heap.plan)), Entry(t, i, named))
    ensures Owns(grown, parent.child, null, null) && Adds(grown, mid, heap.live)
    ensures end.Some? ==>
      && n != null && fresh(n) && n == Last(grown, null)
      && DataOf(grown) == DataOf(all) + [Entry(t, i, named).value]
    decreases |t| - i, 3
  {
    ghost var before := heap.live;
    AddsFacts(all, mid, before);
    hide Owns, Adds, Foot, Separate, Concat, Last, Holds, Single, NoReferences, Entry, DataOf;
    end, grown := None, all;
    n := AddBlank(heap, parent, last, all, mid);
    if n != null {
      ghost var kids;
      if named {
        end, kids := ParseMember(heap, t, n, i, all, parent.child, before);
      } else {
        end, kids := ParseItem(heap, t, n, i, all, parent.child, before);
      }
      Completed(all, parent.child, n, kids, mid, before, heap.live);
      grown := Concat(all, Single(n, n.Data(), kids));
    }
  }

  lemma NoChildren(live: set<object>)
    ensures Owns(Empty, null, null, null) && Adds(Empty, live, live) && Last(Empty, null) == null && DataOf(Empty) == []
  {
  }

  /** The entries of an array or object, up to the closing bracket. */
  method ParseEntries(heap: Heap, t: Text, named: bool, item: Node, first: nat)
    returns (end: Option<nat>, ghost all: Forest)
    requires NulFree(t) && first <= |t| && Entries(t, first, named) != P.Truncated
    requires heap !in heap.live && heap.ep == None && item in heap.live && item.child == null
    modifies heap, item`child
    ensures heap !in heap.live && (Plenty(old(heap.plan)) ==> Plenty(heap.plan))
    ensures Agrees(end, heap.ep, Plenty(old(heap.plan)), Entries(t, first, named))
    ensures Owns(all, item.child, null, null) && Adds(all, old(heap.live), heap.live)
    ensures end.Some? ==> DataOf(all) == Entries(t, first, named).value
    decreases |t| - first, 4
  {
    hide Owns, Adds, Foot, Last, Entry, Entries, DataOf, P.Skip;
    NoChildren(heap.live);
    EntriesStep(t, first, named);
    var child;
    child, end, all := NextEntry(heap, t, named, item, null, first, Empty, heap.live);
    if end.Some? {
      assert allocated(Foot(all)) && DataOf(all) == [Entry(t, first, named).value];
      var value := SkipSpace(t, end.value);
      end, all := MoreEntries(heap, t, named, item, child, value, all, first, old(heap.live));
    }
  }

  /** The loop over the entries behind the first one. */
  method MoreEntries(heap: Heap, t: Text, named: bool, item: Node, child0: Node, value0: nat, ghost all0: Forest,
                     ghost first: nat, ghost mid: set<object>)
    returns (end: Option<nat>, ghost all: Forest)
    requires NulFree(t) && first < value0 <= |t| && Entries(t, first, named) != P.Truncated
    requires heap !in heap.live && heap.ep == None && Adds(all0, mid, heap.live) && item in mid
    requires Owns(all0, item.child, null, null) && child0 == Last(all0, null)
    requires Entries(t, first, named) == Extend(DataOf(all0), Rest(t, value0, named))
    modifies heap, item`child, child0`next
    ensures heap !in heap.live && (Plenty(old(heap.plan)) ==> Plenty(heap.plan))
    ensures Agrees(end, heap.ep, Plenty(old(heap.plan)), Entries(t, first, named))
    ensures Owns(all, item.child, null, null) && Adds(all, mid, heap.live)
    ensures end.Some? ==> DataOf(all) == Entries(t, first, named).value
    decreases |t| - value0, 4
  {
    hide Owns, Adds, Foot, Last, Entry, Entries, DataOf, P.Skip;
    var value, child := value0, child0;
    all := all0;
    while P.At(t, value) == ','
      invariant value0 <= value <= |t| && heap !in heap.live && heap.ep == None
        && (Plenty(old(heap.plan)) ==> Plenty(heap.plan))
      invariant Owns(all, item.child, null, null) && Adds(all, mid, heap.live)
      invariant (child == child0 || fresh(child)) && child == Last(all, null)
      invariant Entries(t, first, named) == Extend(DataOf(all), Rest(t, value, named))
      decreases |t| - value
    {
      Advance(t, first, DataOf(all), value, named);
      var n;
      n, end, all := NextEntry(heap, t, named, item, child, value + 1, all, mid);
      if end.None? {
        return;
      }
      assert allocated(Foot(all));
      value := SkipSpace(t, end.value);
      child := n;
    }
    AddsFacts(all, mid, heap.live);
    if P.At(t, value) == (if named then '}' else ']') {
      end := Some(value + 1);
    } else {
      heap.ep := Some(value);
      end := None;
    }
  }

  lemma ParentHolds(n: Node, kids: Forest, info: Info, base: set<object>, mid: set<object>, live: set<object>)
    requires Adds(Single(n, info, Empty), base, mid) && Adds(kids, mid, live) && n.Data().Strings() == info.Strings()
    requires n.Data().StringsDiffer() && !n.isReference && Owns(kids, n.child, null, null) && n.next == null
    ensures Holds(n, kids, base, live)
  {
    AddsTree(n, info, kids, base, mid, live);
    KeepsHolding(n, kids, info, base, live);
  }

  /** parse_array and parse_object, which differ in their brackets and in how an entry is read. */
  method ParseContainer(heap: Heap, t: Text, named: bool, item: Node, i: nat, ghost base: set<object>)
    returns (end: Option<nat>, ghost kids: Forest)
    requires NulFree(t) && i < |t| && Container(t, i, named) != P.Truncated && Ready(heap, item, base)
    modifies heap, item`kind, item`child
    ensures heap !in heap.live && (Plenty(old(heap.plan)) ==> Plenty(heap.plan))
    ensures Agrees(end, heap.ep, Plenty(old(heap.plan)), Container(t, i, named))
    ensures Holds(item, kids, base, heap.live) && item.kind == if named then KObject else KArray
    ensures end.Some? ==> DataOf(kids) == Container(t, i, named).value
    decreases |t| - i, 0
  {
    ghost var info, mid := item.Data(), heap.live;
    HoldsFacts(item, Empty, base, heap.live);
    NoChildren(heap.live);
    assert item in heap.live;
    hide Owns, Adds, Foot, Last, Entry, Entries, DataOf, P.Skip, Holds, Single;
    item.kind := if named then KObject else KArray;
    assert item.Data().Strings() == info.Strings();
    var value := SkipSpace(t, i + 1);
    if P.At(t, value) == (if named then '}' else ']') {
      end, kids := Some(value + 1), Empty;
    } else {
      end, kids := ParseEntries(heap, t, named, item, value);
    }
    ParentHolds(item, kids, info, base, mid, heap.live);
  }

  method NewRoot(heap: Heap) returns (c: Node?)
    requires heap !in heap.live
    modifies heap
    ensures heap !in heap.live && (Plenty(old(heap.plan)) ==> Plenty(heap.plan)) && heap.ep == None
    ensures c == null ==> heap.live == old(heap.live) && !Plenty(old(heap.plan))
    ensures c != null ==> fresh(c) && c.prev == null && c.name == null && Ready(heap, c, old(heap.live))
  {
    c := heap.NewItem();
    heap.ep := None;
    if c != null {
      assert c.Data().Strings() == {};
      Childless(c, old(heap.live), heap.live);
      BlankHolds(c, null, old(heap.live), heap.live);
    }
  }

  /** cJSON_ParseWithOpts. On success the caller owns exactly the new tree, which represents the value of the text. On
      failure every node and string allocated on the way has been freed, and the error position is the parser's;
      it is unset only when memory ran out. */
  method ParseWithOpts(heap: Heap, t: Text, whole: bool) returns (c: Node?, end: nat, ghost tree: Forest)
    requires NulFree(t) && P.ParseText(t, whole) != P.Truncated && heap !in heap.live
    modifies heap
    ensures heap !in heap.live
    ensures Agrees(if c == null then None else Some(end), heap.ep, Plenty(old(heap.plan)), P.ParseText(t, whole))
    ensures c == null ==> heap.live == old(heap.live)
    ensures c != null ==>
      && fresh(c) && tree.Tree? && tree.rest == Empty && Owns(tree, c, null, null)
        && Adds(tree, old(heap.live), heap.live)
      && DataOf(tree) == [Image(P.ParseText(t, whole).value, None)]
  {
    hide Owns, Adds, Foot, DataOf, P.Skip, P.ParseValue, Holds, Single, Image;
    ghost var base := heap.live;
    c := NewRoot(heap);
    end, tree := 0, Empty;
    if c == null {
      return;
    }
    assert allocated(Foot(Single(c, c.Data(), Empty)));
    var value := SkipSpace(t, 0);
    var stop;
    ghost var kids;
    stop, kids := ParseValue(heap, t, c, value, base);
    HoldsFacts(c, kids, base, heap.live);
    tree := Single(c, c.Data(), kids);
    SingleData(c, c.Data(), kids);
    if stop.None? {
      Undo(heap, c, tree, base);
      c := null;
      return;
    }
    end := stop.value;
    if whole {
      assert allocated(Foot(tree));
      end := SkipSpace(t, end);
      if end < |t| {
        AddsFacts(tree, base, heap.live);
        Undo(heap, c, tree, base);
        heap.ep := Some(end);
        c := null;
      }
    }
  }

  lemma SingleData(n: Node, info: Info, kids: Forest)
    ensures DataOf(Single(n, info, kids)) == [RecOf(info, DataOf(kids))] && Single(n, info, kids).rest == Empty
  {
  }

  /** What a node's fields say to a reader who goes by its type, as the printer and the users of a tree do. */
  ghost function Read(r: Rec): Value
    decreases r
  {
    match r.kind
    case KNull => Null
    case KFalse => False
    case KTrue => True
    case KNumber => Number(r.mantissa, r.exponent)
    case KString => String(if r.valuestring.Some? then r.valuestring.value else [])
    case KArray => Array(ReadItems(r.kids))
    case KObject => Object(ReadMembers(r.kids))
  }

  ghost function ReadItems(rs: seq<Rec>): Items
    decreases rs
  {
    if rs == [] then NoItems else Item(Read(rs[0]), ReadItems(rs[1..]))
  }

  ghost function ReadMembers(rs: seq<Rec>): Members
    decreases rs
  {
    if rs == [] then NoMembers
    else Member(if rs[0].name.Some? then rs[0].name.value else [], Read(rs[0]), ReadMembers(rs[1..]))
  }

  /** Read that way, the nodes the parser makes are the value that was parsed. */
  lemma {:induction false} ReadImage(v: Value, name: Option<Text>)
    ensures Read(Image(v, name)) == v && Image(v, name).name == name
    decreases v
  {
    match v
    case Array(items) => ReadItemImages(items);
    case Object(members) => ReadMemberImages(members);
    case _ =>
  }

  lemma {:induction false} ReadItemImages(items: Items)
    ensures ReadItems(ItemImages(items)) == items
    decreases items
  {
    if items.Item? {
      ReadImage(items.value, None);
      ReadItemImages(items.rest);
      assert ItemImages(items)[1..] == ItemImages(items.rest);
    }
  }

  lemma {:induction false} ReadMemberImages(members: Members)
    ensures ReadMembers(MemberImages(members)) == members
    decreases members
  {
    if members.Member? {
      ReadImage(members.value, Some(members.name));
      ReadMemberImages(members.rest);
      assert MemberImages(members)[1..] == MemberImages(members.rest);
    }
  }

  /** The data of a node determines the value it represents. */
  lemma {:induction false} ImageInjective(v: Value, w: Value, name: Option<Text>, other: Option<Text>)
    requires Image(v, name) == Image(w, other)
    ensures v == w && name == other
    decreases v
  {
    ReadImage(v, name);
    ReadImage(w, other);
  }
}
