/** The children of an array or object as a doubly linked list: lookup, append, detach, replace, reference nodes. */
module JsonList {
  import opened Options
  import opened Json
  import opened JsonHeap
  import opened JsonTree

  // ---- chains as sequences ----

  /** The nodes of a chain, first to last. */
  ghost function Nodes(f: Forest): seq<Node> {
    match f
    case Empty => []
    case Tree(n, _, _, rest) => [n] + Nodes(rest)
  }

  ghost function Take(f: Forest, k: nat): (r: Forest)
    requires k <= |Nodes(f)|
    ensures Nodes(r) == Nodes(f)[..k]
  {
    if k == 0 then Empty else Tree(f.node, f.info, f.kids, Take(f.rest, k - 1))
  }

  ghost function Drop(f: Forest, k: nat): (r: Forest)
    requires k <= |Nodes(f)|
    ensures Nodes(r) == Nodes(f)[k..]
  {
    if k == 0 then f else Drop(f.rest, k - 1)
  }

  /** The k-th node with what hangs below it. */
  ghost function Nth(f: Forest, k: nat): (x: Forest)
    requires k < |Nodes(f)|
    ensures x.Tree? && x.rest == Empty && x.node == Nodes(f)[k]
  {
    if k == 0 then Tree(f.node, f.info, f.kids, Empty) else Nth(f.rest, k - 1)
  }

  ghost function RemoveAt(f: Forest, k: nat): Forest
    requires k < |Nodes(f)|
  {
    Concat(Take(f, k), Drop(f, k + 1))
  }

  ghost function UpdateAt(f: Forest, k: nat, g: Forest): Forest
    requires k < |Nodes(f)|
  {
    Concat(Take(f, k), Concat(g, Drop(f, k + 1)))
  }

  lemma {:induction false} ConcatNodes(f: Forest, g: Forest)
    ensures Nodes(Concat(f, g)) == Nodes(f) + Nodes(g)
  {
    if f.Tree? {
      ConcatNodes(f.rest, g);
      assert [f.node] + (Nodes(f.rest) + Nodes(g)) == [f.node] + Nodes(f.rest) + Nodes(g);
    }
  }

  /** Detaching is removal from the sequence, and replacing is update. */
  lemma SurgeryNodes(f: Forest, k: nat, g: Forest)
    requires k < |Nodes(f)| && g.Tree? && g.rest == Empty
    ensures Nodes(RemoveAt(f, k)) == Nodes(f)[..k] + Nodes(f)[k + 1..]
    ensures Nodes(UpdateAt(f, k, g)) == Nodes(f)[k := g.node]
  {
    SingleNode(g);
    var a, b := Take(f, k), Drop(f, k + 1);
    hide Nodes, Concat, Take, Drop;
    ConcatNodes(a, b);
    ConcatNodes(g, b);
    ConcatNodes(a, Concat(g, b));
    Spliced(Nodes(f), k, g.node);
  }

  lemma Spliced<T>(s: seq<T>, k: nat, x: T)
    requires k < |s|
    ensures s[..k] + ([x] + s[k + 1..]) == s[k := x]
  {
  }

  lemma SingleNode(g: Forest)
    requires g.Tree? && g.rest == Empty
    ensures Nodes(g) == [g.node]
  {
  }

  lemma {:induction false} CutAt(f: Forest, k: nat)
    requires k < |Nodes(f)|
    ensures f == Concat(Take(f, k), Concat(Nth(f, k), Drop(f, k + 1)))
    ensures Drop(f, k).Tree? && Drop(f, k).rest == Drop(f, k + 1) && Drop(f, k).node == Nodes(f)[k]
  {
    if k > 0 {
      CutAt(f.rest, k - 1);
    }
  }

  lemma {:induction false} CutTwo(f: Forest, k: nat)
    requires k <= |Nodes(f)|
    ensures f == Concat(Take(f, k), Drop(f, k))
  {
    if k > 0 {
      CutTwo(f.rest, k - 1);
    }
  }

  /** What the walk along a chain sees at its k-th step. */
  lemma WalkAt(f: Forest, head: Node?, k: nat)
    requires Owns(f, head, null, null) && k <= |Nodes(f)|
    ensures Owns(Drop(f, k), if k < |Nodes(f)| then Nodes(f)[k] else null, Last(Take(f, k), null), null)
    ensures k < |Nodes(f)| ==>
      && Nodes(f)[k].next == (if k + 1 < |Nodes(f)| then Nodes(f)[k + 1] else null)
      && Nodes(f)[k].Data() == Nth(f, k).info
    ensures (head == null) == (|Nodes(f)| == 0) && (head != null ==> head == Nodes(f)[0])
  {
    CutTwo(f, k);
    SplitOwns(Take(f, k), Drop(f, k), head, null, null);
    if k < |Nodes(f)| {
      CutAt(f, k);
      var d := Drop(f, k);
      assert Owns(d.rest, d.node.next, d.node, null);
      NthInfo(f, k);
    }
  }

  /** prev and next are mutually inverse along a chain, and nothing is linked outside it. */
  lemma Links(f: Forest, head: Node?, k: nat)
    requires Owns(f, head, null, null) && k < |Nodes(f)|
    ensures Nodes(f)[k].next == NodeAt(f, k + 1) && Nodes(f)[k].prev == (if k == 0 then null else Nodes(f)[k - 1])
    ensures head == Nodes(f)[0]
  {
    WalkAt(f, head, k);
    if k > 0 {
      LastNode(Take(f, k), null);
    }
  }

  lemma {:induction false} NthInfo(f: Forest, k: nat)
    requires k < |Nodes(f)|
    ensures Drop(f, k).Tree? && Nth(f, k).info == Drop(f, k).info && Nth(f, k).kids == Drop(f, k).kids
  {
    if k > 0 {
      NthInfo(f.rest, k - 1);
    }
  }

  // ---- lookup ----

  /** cJSON_GetArraySize */
  method GetArraySize(list: Node, ghost f: Forest) returns (i: nat)
    requires Owns(f, list.child, null, null)
    ensures i == |Nodes(f)|
  {
    var c := list.child;
    i := 0;
    WalkAt(f, c, 0);
    while c != null
      invariant Owns(f, list.child, null, null)
      invariant i <= |Nodes(f)| && c == if i < |Nodes(f)| then Nodes(f)[i] else null
      decreases |Nodes(f)| - i
    {
      WalkAt(f, list.child, i);
      i, c := i + 1, c.next;
    }
  }

  /** A negative index means the first child. */
  function Index(which: int): nat {
    if which < 0 then 0 else which
  }

  ghost function NodeAt(f: Forest, k: nat): Node? {
    if k < |Nodes(f)| then Nodes(f)[k] else null
  }

  /** cJSON_GetArrayItem */
  method GetArrayItem(list: Node, item: int, ghost f: Forest) returns (c: Node?)
    requires Owns(f, list.child, null, null)
    ensures c == NodeAt(f, Index(item))
    ensures 0 <= item < |Nodes(f)| ==> c == Nodes(f)[item]
    ensures item < 0 && Nodes(f) != [] ==> c == Nodes(f)[0]
    ensures item >= |Nodes(f)| ==> c == null
  {
    c := list.child;
    var left := item;
    ghost var k := 0;
    WalkAt(f, c, 0);
    while c != null && left > 0
      invariant Owns(f, list.child, null, null) && k <= |Nodes(f)| && c == NodeAt(f, k)
      invariant if left >= 0 then k + left == Index(item) else k == Index(item) == 0
      decreases |Nodes(f)| - k
    {
      WalkAt(f, list.child, k);
      left, c, k := left - 1, c.next, k + 1;
    }
  }

  /** tolower in the C locale */
  function Lower(c: char): char {
    if 'A' <= c <= 'Z' then c + ' ' else c
  }

  function Capital(k: nat): char
    requires k < 26
  {
    "ABCDEFGHIJKLMNOPQRSTUVWXYZ"[k]
  }

  function Small(k: nat): char
    requires k < 26
  {
    "abcdefghijklmnopqrstuvwxyz"[k]
  }

  /** The same letter of the alphabet, as a capital and a small one. */
  predicate CaseVariants(c: char, d: char) {
    exists k | 0 <= k < 26 :: c == Capital(k) && d == Small(k)
  }

  /** Two characters are taken for the same exactly if they are, or are variants of one letter. */
  lemma Folds(c: char, d: char)
    ensures Lower(c) == Lower(d) <==> c == d || CaseVariants(c, d) || CaseVariants(d, c)
  {
    Variants(c, d);
    Variants(d, c);
  }

  lemma Letters(k: nat)
    requires k < 26
    ensures Capital(k) as int == 65 + k && Small(k) as int == 97 + k
  {
  }

  lemma Variants(c: char, d: char)
    ensures CaseVariants(c, d) <==> 'A' <= c <= 'Z' && d as int == c as int + 32
  {
    hide Capital, Small;
    if k: nat :| k < 26 && c == Capital(k) && d == Small(k) {
      Letters(k);
    }
    if 'A' <= c <= 'Z' && d as int == c as int + 32 {
      Letters(c as int - 65);
      assert c == Capital(c as int - 65);
    }
  }

  /** Equal but for the case of ASCII letters. */
  predicate SameName(a: Text, b: Text) {
    |a| == |b| && forall i | 0 <= i < |a| :: Lower(a[i]) == Lower(b[i])
  }

  function At(t: Text, i: nat): char {
    if i < |t| then t[i] else '\0'
  }

  /** cJSON_strcasecmp: 0 exactly for names that differ in case at most. */
  method StrCaseCmp(s1: Str?, s2: Text) returns (diff: int)
    requires NulFree(s2) && (s1 != null ==> NulFree(s1.text))
    ensures diff == 0 <==> s1 != null && SameName(s1.text, s2)
  {
    if s1 == null {
      return 1;
    }
    var i := 0;
    while Lower(At(s1.text, i)) == Lower(At(s2, i))
      invariant i <= |s1.text| && i <= |s2| && forall j | 0 <= j < i :: Lower(s1.text[j]) == Lower(s2[j])
      decreases |s1.text| - i
    {
      if At(s1.text, i) == '\0' {
        return 0;
      }
      i := i + 1;
    }
    diff := Lower(At(s1.text, i)) as int - Lower(At(s2, i)) as int;
  }

  ghost predicate Named(info: Info, key: Text) {
    info.name != null && SameName(info.name.text, key)
  }

  /** The position of the first node with that name, or the length of the chain. */
  ghost function Find(f: Forest, key: Text): (k: nat)
    ensures k <= |Nodes(f)|
    ensures k < |Nodes(f)| ==> Named(Nth(f, k).info, key)
    ensures forall j | 0 <= j < k :: !Named(Nth(f, j).info, key)
  {
    if f.Empty? || Named(f.info, key) then 0 else 1 + Find(f.rest, key)
  }

  /** All names are C strings. */
  ghost predicate NamesNulFree(f: Forest) {
    f.Tree? ==> (f.info.name != null ==> NulFree(f.info.name.text)) && NamesNulFree(f.rest)
  }

  lemma {:induction false} NameAt(f: Forest, k: nat)
    requires NamesNulFree(f) && k < |Nodes(f)|
    ensures var name := Nth(f, k).info.name; name != null ==> NulFree(name.text)
  {
    if k > 0 {
      NameAt(f.rest, k - 1);
    }
  }

  lemma {:induction false} FindIs(f: Forest, key: Text, k: nat)
    requires k <= |Nodes(f)| && forall j | 0 <= j < k :: !Named(Nth(f, j).info, key)
    requires k < |Nodes(f)| ==> Named(Nth(f, k).info, key)
    ensures Find(f, key) == k
  {
    if k > 0 {
      assert !Named(Nth(f, 0).info, key);
      forall j | 0 <= j < k - 1
        ensures !Named(Nth(f.rest, j).info, key)
      {
        assert Nth(f, j + 1) == Nth(f.rest, j);
      }
      FindIs(f.rest, key, k - 1);
    }
  }

  /** cJSON_GetObjectItem, with the position that cJSON_DetachItemFromObject counts along the way. */
  method GetObjectItem(parent: Node, key: Text, ghost f: Forest) returns (c: Node?, i: nat)
    requires Owns(f, parent.child, null, null) && NulFree(key) && NamesNulFree(f)
    ensures i == Find(f, key) && c == NodeAt(f, i)
  {
    c, i := parent.child, 0;
    WalkAt(f, c, 0);
    while c != null
      invariant Owns(f, parent.child, null, null) && i <= |Nodes(f)| && c == NodeAt(f, i)
      invariant forall j | 0 <= j < i :: !Named(Nth(f, j).info, key)
      decreases |Nodes(f)| - i
    {
      WalkAt(f, parent.child, i);
      NameAt(f, i);
      assert allocated(Foot(f));
      var diff := StrCaseCmp(c.name, key);
      if diff == 0 {
        break;
      }
      i, c := i + 1, c.next;
    }
    FindIs(f, key, i);
  }

  // ---- surgery ----

  /** A chain cut before and after one of its nodes. */
  ghost predicate Cut(head: Node?, c: Node, a: Forest, x: Forest, b: Forest)
    reads c, Foot(a), Foot(x), Foot(b)
  {
    && x.Tree? && x.rest == Empty && x.node == c
    && Owns(a, head, null, c) && Owns(x, c, Last(a, null), c.next) && Owns(b, c.next, c, null)
  }

  /** No object occurs twice in the pieces. */
  ghost predicate Pieces(a: Forest, x: Forest, b: Forest) {
    && Separate(a) && Separate(x) && Separate(b)
    && Foot(a) !! Foot(x) && Foot(a) !! Foot(b) && Foot(x) !! Foot(b)
  }

  lemma CutPieces(f: Forest, head: Node?, k: nat)
    requires Owns(f, head, null, null) && Separate(f) && k < |Nodes(f)|
    ensures var a, x, b := Take(f, k), Nth(f, k), Drop(f, k + 1);
      && Cut(head, Nodes(f)[k], a, x, b) && Pieces(a, x, b) && Foot(f) == Foot(a) + Foot(x) + Foot(b)
  {
    var a, x, b := Take(f, k), Nth(f, k), Drop(f, k + 1);
    CutAt(f, k);
    hide Take, Nth, Drop, Owns, Separate;
    SplitOwns(a, Concat(x, b), head, null, null);
    SplitOwns(x, b, x.node, Last(a, null), null);
    ConcatSeparate(a, Concat(x, b));
    ConcatSeparate(x, b);
    SingleNext(x, Last(a, null), if b.Tree? then b.node else null);
  }

  lemma SingleNext(x: Forest, prev: Node?, tail: Node?)
    requires x.Tree? && x.rest == Empty
    ensures Owns(x, x.node, prev, tail) ==> x.node.next == tail && x.node.prev == prev
    ensures Last(x, prev) == x.node
  {
    OwnsTree(x, x.node, prev, tail);
    assert x == Tree(x.node, x.info, x.kids, Empty);
    assert Last(Empty, x.node) == x.node;
    assert Owns(Empty, x.node.next, x.node, tail) == (x.node.next == tail);
  }

  /** The neighbours, as seen from the node. */
  lemma Neighbours(head: Node?, c: Node, a: Forest, x: Forest, b: Forest)
    requires Cut(head, c, a, x, b) && Pieces(a, x, b)
    ensures c.prev == Last(a, null) && c in Foot(x)
    ensures if a.Tree? then c.prev != null && c.prev in Foot(a) && head != c else c.prev == null && head == c
    ensures if b.Tree? then c.next == b.node && b.node in Foot(b) else c.next == null
  {
    if a.Tree? {
      CutLast(a, null);
      LastApart(a);
    }
  }

  method SetLinks(c: Node, prev: Node?, next: Node?, ghost x: Forest, ghost p: Node?, ghost q: Node?)
    requires Owns(x, c, p, q) && Separate(x) && x.Tree? && x.rest == Empty
    modifies c`prev, c`next
    ensures Owns(x, c, prev, next) && c.prev == prev && c.next == next
  {
    HeadApart(x);
    hide Owns, Foot, Separate, Below;
    OwnsTree(x, c, p, q);
    assert allocated(Foot(x.kids));
    c.prev, c.next := prev, next;
    OwnsNothing(next, c);
    OwnsTree(x, c, prev, next);
  }

  ghost function Maybe(n: Node?): set<Node> {
    if n == null then {} else {n}
  }

  /** The neighbours of c, or the parent, bypass it. */
  method Bypass(list: Node, c: Node, ghost a: Forest, ghost x: Forest, ghost b: Forest)
    requires Cut(list.child, c, a, x, b) && Pieces(a, x, b) && list !in Foot(a) + Foot(x) + Foot(b)
    modifies list`child, (Maybe(c.prev))`next, (Maybe(c.next))`prev
    ensures Owns(Concat(a, b), list.child, null, null)
  {
    Neighbours(list.child, c, a, x, b);
    assert a.Empty? ==> Concat(a, b) == b;
    hide Owns, Foot, Separate, Last, Concat;
    assert allocated(Foot(a)) && allocated(Foot(b));
    if c.prev != null {
      SetNext(c.prev, c.next, a, list.child, null, c);
    }
    if c.next != null {
      SetPrev(c.next, c.prev, b, c, null);
    } else {
      OwnsNothing(null, c.prev);
    }
    if c == list.child {
      list.child := c.next;
    }
    if a.Tree? {
      ConcatOwns(a, b, list.child, null, c.next, null);
    }
  }

  /** Take c out of the list and clear its links. */
  method Unlink(list: Node, c: Node, ghost a: Forest, ghost x: Forest, ghost b: Forest)
    requires Cut(list.child, c, a, x, b) && Pieces(a, x, b) && list !in Foot(a) + Foot(x) + Foot(b)
    modifies list`child, (Maybe(c.prev) + {c})`next, (Maybe(c.next) + {c})`prev
    ensures Owns(Concat(a, b), list.child, null, null) && Owns(x, c, null, null)
  {
    Neighbours(list.child, c, a, x, b);
    ghost var p, q := c.prev, c.next;
    hide Owns, Foot, Separate, Last, Concat;
    assert allocated(Foot(x)) && allocated(Foot(Concat(a, b)));
    Bypass(list, c, a, x, b);
    SetLinks(c, null, null, x, p, q);
  }

  /** cJSON_DetachItemFromArray: the node at that index, if any, leaves the chain with its links cleared. */
  method DetachItemFromArray(list: Node, which: int, ghost f: Forest) returns (c: Node?)
    requires Owns(f, list.child, null, null) && Separate(f) && list !in Foot(f)
    modifies list`child, Foot(f)
    ensures c == NodeAt(f, Index(which))
    ensures c == null ==> Owns(f, list.child, null, null)
    ensures c != null ==> var k := Index(which);
      && Owns(RemoveAt(f, k), list.child, null, null) && Owns(Nth(f, k), c, null, null)
  {
    assert allocated(Foot(f));
    hide Owns, Separate, Take, Nth, Drop, Foot, Nodes, Concat, Last;
    c := GetArrayItem(list, which, f);
    if c != null {
      ghost var k := Index(which);
      CutPieces(f, list.child, k);
      Neighbours(list.child, c, Take(f, k), Nth(f, k), Drop(f, k + 1));
      Unlink(list, c, Take(f, k), Nth(f, k), Drop(f, k + 1));
    }
  }

  /** cJSON_DeleteItemFromArray frees exactly what the detached node owns. */
  method DeleteItemFromArray(heap: Heap, list: Node, which: int, ghost f: Forest)
    requires Owns(f, list.child, null, null) && Separate(f) && list !in Foot(f) && Foot(f) <= heap.live
      && heap !in heap.live
    modifies heap`live, list`child, Foot(f)
    ensures var k := Index(which);
      if k < |Nodes(f)| then Owns(RemoveAt(f, k), list.child, null, null)
        && heap.live == old(heap.live) - Foot(Nth(f, k))
      else Owns(f, list.child, null, null) && heap.live == old(heap.live)
  {
    ghost var k, head := Index(which), list.child;
    var c := DetachItemFromArray(list, which, f);
    if c != null {
      NthApart(f, k);
      assert allocated(Foot(RemoveAt(f, k)));
      Delete(heap, c, null, Nth(f, k));
    }
  }

  lemma NthApart(f: Forest, k: nat)
    requires Separate(f) && k < |Nodes(f)|
    ensures Separate(Nth(f, k)) && Foot(Nth(f, k)) <= Foot(f) && Foot(RemoveAt(f, k)) == Foot(f) - Foot(Nth(f, k))
  {
    var a, x, b := Take(f, k), Nth(f, k), Drop(f, k + 1);
    CutAt(f, k);
    hide Take, Nth, Drop, Separate;
    ConcatSeparate(a, Concat(x, b));
    ConcatSeparate(x, b);
  }

  /** cJSON_DetachItemFromObject detaches the very node that cJSON_GetObjectItem finds. */
  method DetachItemFromObject(parent: Node, key: Text, ghost f: Forest) returns (c: Node?)
    requires Owns(f, parent.child, null, null) && Separate(f) && parent !in Foot(f) && NulFree(key) && NamesNulFree(f)
    modifies parent`child, Foot(f)
    ensures var k := Find(f, key);
      && c == NodeAt(f, k)
      && if k < |Nodes(f)| then Owns(RemoveAt(f, k), parent.child, null, null) && Owns(Nth(f, k), c, null, null)
         else Owns(f, parent.child, null, null)
  {
    assert allocated(Foot(f));
    var i;
    c, i := GetObjectItem(parent, key, f);
    if c != null {
      c := DetachItemFromArray(parent, i, f);
    }
  }

  lemma {:induction false} LastNode(f: Forest, prev: Node?)
    requires f.Tree?
    ensures Last(f, prev) == Nodes(f)[|Nodes(f)| - 1]
    decreases f
  {
    if f.rest.Tree? {
      LastNode(f.rest, f.node);
    }
  }

  /** cJSON_AddItemToArray: item, with whatever is linked behind it, goes to the end. */
  method AddItemToArray(list: Node, item: Node?, ghost f: Forest, ghost g: Forest)
    requires Owns(f, list.child, null, null) && Separate(f) && list !in Foot(f)
    requires Owns(g, item, null, null) && Separate(g) && list !in Foot(g) && Foot(f) !! Foot(g)
    modifies list`child, Foot(f), (Maybe(item))`prev
    ensures Owns(Concat(f, g), list.child, null, null) && Nodes(Concat(f, g)) == Nodes(f) + Nodes(g)
  {
    ConcatNodes(f, g);
    if item == null {
      NothingBehind(f, g);
      return;
    }
    var c := list.child;
    ghost var k := 0;
    WalkAt(f, c, 0);
    assert allocated(Foot(f)) && allocated(Foot(g));
    while c != null && c.next != null
      invariant Owns(f, list.child, null, null) && Owns(g, item, null, null)
      invariant k <= |Nodes(f)| && c == NodeAt(f, k) && (k == |Nodes(f)| ==> k == 0)
      decreases |Nodes(f)| - k
    {
      WalkAt(f, list.child, k);
      c, k := c.next, k + 1;
    }
    WalkEnd(f, list.child, c, k);
    Hang(list, c, item, f, g);
  }

  lemma NothingBehind(f: Forest, g: Forest)
    requires Owns(g, null, null, null)
    ensures Concat(f, g) == f
  {
    if f.Tree? {
      NothingBehind(f.rest, g);
    }
  }

  lemma WalkEnd(f: Forest, head: Node?, c: Node?, k: nat)
    requires Owns(f, head, null, null) && k <= |Nodes(f)| && c == NodeAt(f, k) && (c == null || c.next == null)
    requires k == |Nodes(f)| ==> k == 0
    ensures c == Last(f, null)
    ensures c != null ==> c in Foot(f)
  {
    WalkAt(f, head, k);
    if f.Tree? {
      LastNode(f, null);
      CutLast(f, null);
      if Separate(f) { LastApart(f); }
    }
  }

  /** n gets the links of c, and what follows c follows n. */
  method TakeLinks(c: Node, n: Node, ghost b: Forest, ghost g: Forest)
    requires Owns(b, c.next, c, null) && Separate(b) && c !in Foot(b)
    requires Owns(g, n, null, null) && Separate(g) && g.Tree? && g.rest == Empty && c !in Foot(g) && Foot(g) !! Foot(b)
    modifies n`next, n`prev, Maybe(c.next)`prev
    ensures Owns(Concat(g, b), n, c.prev, null) && n.prev == c.prev
  {
    SingleNext(g, c.prev, c.next);
    HeadApart(g);
    NextIn(b, c.next, c);
    hide Owns, Foot, Separate, Last, Concat;
    assert allocated(Foot(b)) && allocated(Foot(g));
    SetLinks(n, c.prev, c.next, g, null, null);
    if n.next != null {
      SetPrev(n.next, n, b, c, null);
    } else {
      OwnsNothing(null, n);
    }
    ConcatOwns(g, b, n, c.prev, c.next, null);
  }

  lemma NextIn(b: Forest, next: Node?, c: Node)
    requires Owns(b, next, c, null)
    ensures if b.Tree? then next == b.node && b.node in Foot(b) else next == null
  {
  }

  /** n takes the place of c between its neighbours, or as the first child. */
  method Substitute(list: Node, c: Node, n: Node, ghost a: Forest, ghost x: Forest, ghost b: Forest, ghost g: Forest)
    requires Cut(list.child, c, a, x, b) && Pieces(a, x, b) && list !in Foot(a) + Foot(x) + Foot(b)
    requires Owns(g, n, null, null) && Separate(g) && g.Tree? && g.rest == Empty && list !in Foot(g)
    requires Foot(g) !! Foot(a) && Foot(g) !! Foot(b) && Foot(g) !! Foot(x)
    modifies list`child, n`next, n`prev, Maybe(c.prev)`next, Maybe(c.next)`prev
    ensures Owns(Concat(a, Concat(g, b)), list.child, null, null)
  {
    Neighbours(list.child, c, a, x, b);
    HeadApart(g);
    assert n == g.node && c != n;
    ghost var gb := Concat(g, b);
    assert a.Empty? ==> Concat(a, gb) == gb;
    hide Owns, Foot, Separate, Last, Concat;
    assert allocated(Foot(a));
    TakeLinks(c, n, b, g);
    assert allocated(Foot(gb));
    if c == list.child {
      list.child := n;
    } else {
      SetNext(n.prev, n, a, list.child, null, c);
      ConcatOwns(a, gb, list.child, null, n, null);
    }
  }

  /** cJSON_ReplaceItemInArray: the old node is freed with all it owns. Without a node at that index nothing happens. */
  method ReplaceItemInArray(heap: Heap, list: Node, which: int, n: Node, ghost f: Forest, ghost g: Forest)
    requires Owns(f, list.child, null, null) && Separate(f) && list !in Foot(f)
    requires Owns(g, n, null, null) && Separate(g) && g.Tree? && g.rest == Empty && list !in Foot(g)
      && Foot(f) !! Foot(g)
    requires Foot(f) <= heap.live && heap !in heap.live && heap !in Foot(g)
    modifies heap`live, list`child, n`next, n`prev, Foot(f)
    ensures var k := Index(which);
      if k < |Nodes(f)| then Owns(UpdateAt(f, k, g), list.child, null, null)
        && heap.live == old(heap.live) - Foot(Nth(f, k))
      else Owns(f, list.child, null, null) && Owns(g, n, null, null) && heap.live == old(heap.live)
  {
    ghost var k := Index(which);
    HeadApart(g);
    assert n == g.node;
    assert allocated(Foot(f)) && allocated(Foot(g));
    hide Owns, Separate, Take, Nth, Drop, Foot, Nodes, Concat, Last;
    var c := GetArrayItem(list, which, f);
    if c != null {
      ghost var a, x, b := Take(f, k), Nth(f, k), Drop(f, k + 1);
      CutPieces(f, list.child, k);
      Neighbours(list.child, c, a, x, b);
      Exchange(heap, list, c, n, a, x, b, g);
    }
  }

  /** What is exchanged lies apart from what stays. */
  lemma ExchangeApart(heap: Heap, list: Node, c: Node, n: Node, a: Forest, x: Forest, b: Forest, g: Forest)
    requires Cut(list.child, c, a, x, b) && Pieces(a, x, b) && list !in Foot(a) + Foot(x) + Foot(b)
    requires Owns(g, n, null, null) && Separate(g) && g.Tree? && g.rest == Empty && list !in Foot(g)
    requires Foot(g) !! Foot(a) && Foot(g) !! Foot(b) && Foot(g) !! Foot(x)
    requires heap !in Foot(x) + Foot(a) + Foot(b) + Foot(g)
    ensures n !in Foot(x) && c.prev !in Foot(x) && c.next !in Foot(x)
    ensures Foot(Concat(a, Concat(g, b))) !! Foot(x) && heap !in Foot(Concat(a, Concat(g, b)))
  {
    Neighbours(list.child, c, a, x, b);
    HeadApart(g);
    assert n == g.node;
    hide Owns, Separate, Last, Concat;
  }

  /** n takes the place of c, and c is deleted. */
  method Exchange(heap: Heap, list: Node, c: Node, n: Node, ghost a: Forest, ghost x: Forest, ghost b: Forest,
                  ghost g: Forest)
    requires Cut(list.child, c, a, x, b) && Pieces(a, x, b) && list !in Foot(a) + Foot(x) + Foot(b)
    requires Owns(g, n, null, null) && Separate(g) && g.Tree? && g.rest == Empty && list !in Foot(g)
    requires Foot(g) !! Foot(a) && Foot(g) !! Foot(b) && Foot(g) !! Foot(x)
    requires Foot(x) <= heap.live && heap !in Foot(x) + Foot(a) + Foot(b) + Foot(g) && heap !in heap.live
    modifies heap`live, list`child, n`next, n`prev, c`next, c`prev, Maybe(c.prev)`next, Maybe(c.next)`prev
    ensures Owns(Concat(a, Concat(g, b)), list.child, null, null) && heap.live == old(heap.live) - Foot(x)
  {
    ExchangeApart(heap, list, c, n, a, x, b, g);
    ghost var p, q := c.prev, c.next;
    ghost var f := Concat(a, Concat(g, b));
    assert allocated(Foot(x)) && list !in Foot(x) && (p == null || p !in Foot(x)) && (q == null || q !in Foot(x));
    hide Owns, Foot, Separate, Last, Concat, Cut, Pieces;
    Substitute(list, c, n, a, x, b, g);
    Dispose(heap, c, x, p, q, f, list.child);
  }

  /** c->next = c->prev = 0; cJSON_Delete(c), beside a chain that does not change. */
  method Dispose(heap: Heap, c: Node, ghost x: Forest, ghost p: Node?, ghost q: Node?, ghost f: Forest, head: Node?)
    requires Owns(x, c, p, q) && Separate(x) && x.Tree? && x.rest == Empty && Foot(x) <= heap.live && heap !in heap.live
    requires Owns(f, head, null, null) && Foot(f) !! Foot(x) && heap !in Foot(f)
    modifies heap`live, c`next, c`prev
    ensures Owns(f, head, null, null) && heap.live == old(heap.live) - Foot(x)
  {
    HeadApart(x);
    assert c == x.node;
    assert allocated(Foot(f)) && allocated(Foot(x));
    hide Owns, Foot, Separate;
    SetLinks(c, null, null, x, p, q);
    Delete(heap, c, null, x);
  }

  // ---- names and references ----

  ghost function Objects(s: Str?): set<object> {
    if s == null then {} else {s}
  }

  /** A node with a new name, beside its old strings. */
  lemma Renamed(n: Node, info: Info, name: Str?, kids: Forest)
    requires Separate(Single(n, info, kids)) && (name != null ==> name !in Foot(Single(n, info, kids)))
    ensures Separate(Single(n, info.(name := name), kids))
    ensures Foot(Single(n, info.(name := name), kids))
      == Foot(Single(n, info, kids)) - Objects(info.name) + Objects(name)
  {
  }

  /** item->string = cJSON_strdup(string). cJSON_AddItemToObject frees the old name first, cJSON_ReplaceItemInObject
      does not. */
  method SetName(heap: Heap, item: Node, key: Text, freeOld: bool, ghost kids: Forest)
    requires Owns(Single(item, item.Data(), kids), item, null, null) && Separate(Single(item, item.Data(), kids))
    requires Foot(Single(item, item.Data(), kids)) <= heap.live && heap !in heap.live
    modifies heap`live, heap`plan, item`name
    ensures heap !in heap.live && Owns(Single(item, item.Data(), kids), item, null, null)
    ensures Separate(Single(item, item.Data(), kids)) && item.Data() == old(item.Data()).(name := item.name)
    ensures Foot(Single(item, item.Data(), kids))
      == old(Foot(Single(item, item.Data(), kids)) - Objects(item.name)) + Objects(item.name)
    ensures item.name != null ==> fresh(item.name) && item.name.text == key
    ensures item.name == null ==> !Plenty(old(heap.plan))
    ensures heap.live == (old(heap.live) - if freeOld then Objects(old(item.name)) else {}) + Objects(item.name)
  {
    ghost var info, single := item.Data(), Single(item, item.Data(), kids);
    OwnsTree(single, item, null, null);
    HeadApart(single);
    OwnsNothing(null, item);
    assert item.name != null ==> item.name in Foot(single);
    assert allocated(Foot(kids)) && heap !in Foot(kids) && item !in Foot(kids) && Below(item, info, kids);
    assert allocated(Foot(single)) && item.next == null && item.prev == null;
    hide Owns, Separate, Foot, Single, Below;
    if freeOld && item.name != null {
      heap.Free(item.name);
    }
    var s := heap.NewStr(key);
    item.name := s;
    Renamed(item, info, s, kids);
    SingleOwns(item, kids);
  }

  lemma SingleOwns(n: Node, kids: Forest)
    requires n.next == null && n.prev == null && Below(n, n.Data(), kids)
    ensures Owns(Single(n, n.Data(), kids), n, null, null)
  {
  }

  /** The item gets its name and goes behind the last child. */
  method AddNamed(heap: Heap, parent: Node, key: Text, item: Node, ghost f: Forest, ghost kids: Forest)
    requires Owns(f, parent.child, null, null) && Separate(f) && parent !in Foot(f) && heap !in Foot(f)
      && heap !in heap.live
    requires Foot(f) <= heap.live
    requires var g := Single(item, item.Data(), kids);
      && Owns(g, item, null, null) && Separate(g) && Foot(g) <= heap.live && parent !in Foot(g) && Foot(f) !! Foot(g)
    modifies heap`live, heap`plan, parent`child, Foot(f), item
    ensures heap !in heap.live
    ensures Owns(Concat(f, Single(item, item.Data(), kids)), parent.child, null, null)
    ensures item.Data() == old(item.Data()).(name := item.name)
      && (Plenty(old(heap.plan)) ==> TextOf(item.name) == Some(key))
    ensures heap.live == old(heap.live) - old(Objects(item.name)) + Objects(item.name)
  {
    ghost var g := Single(item, item.Data(), kids);
    assert allocated(Foot(f)) && item !in Foot(f) && item in Foot(g);
    hide *;
    SetName(heap, item, key, true, kids);
    AddItemToArray(parent, item, f, Single(item, item.Data(), kids));
  }

  /** cJSON_AddItemToObject */
  method AddItemToObject(heap: Heap, parent: Node, key: Text, item: Node?, ghost f: Forest, ghost kids: Forest)
    requires Owns(f, parent.child, null, null) && Separate(f) && parent !in Foot(f) && heap !in Foot(f)
      && heap !in heap.live
    requires Foot(f) <= heap.live
    requires item != null ==> var g := Single(item, item.Data(), kids);
      && Owns(g, item, null, null) && Separate(g) && Foot(g) <= heap.live && parent !in Foot(g) && Foot(f) !! Foot(g)
    modifies heap`live, heap`plan, parent`child, Foot(f), Maybe(item)
    ensures heap !in heap.live
    ensures item == null ==> Owns(f, parent.child, null, null) && heap.live == old(heap.live)
    ensures item != null ==>
      && Owns(Concat(f, Single(item, item.Data(), kids)), parent.child, null, null)
      && item.Data() == old(item.Data()).(name := item.name)
        && (Plenty(old(heap.plan)) ==> TextOf(item.name) == Some(key))
      && heap.live == old(heap.live) - old(Objects(item.name)) + Objects(item.name)
  {
    if item != null {
      hide Owns, Separate, Foot, Single, Concat;
      AddNamed(heap, parent, key, item, f, kids);
    }
  }

  /** The new node n gets its name; the list it is to enter does not change, and the old name is left behind. */
  method Rename(heap: Heap, parent: Node, key: Text, n: Node, ghost f: Forest, ghost g0: Forest)
    requires Owns(f, parent.child, null, null) && heap !in heap.live && parent !in Foot(f)
    requires Foot(f) <= heap.live && g0.Tree? && g0 == Single(n, n.Data(), g0.kids)
    requires Owns(g0, n, null, null) && Separate(g0) && Foot(g0) <= heap.live && parent !in Foot(g0)
      && Foot(f) !! Foot(g0)
    modifies heap`live, heap`plan, n`name
    ensures var g := Single(n, g0.info.(name := n.name), g0.kids);
      && Owns(f, parent.child, null, null) && Owns(g, n, null, null) && Separate(g)
      && parent !in Foot(g) && Foot(f) !! Foot(g) && heap !in Foot(g) && heap !in heap.live
      && heap.live == old(heap.live) + Objects(n.name)
      && Objects(old(n.name)) <= old(heap.live) - Foot(f) && Objects(old(n.name)) !! Foot(g)
  {
    ghost var kids := g0.kids;
    assert n.Data() == g0.info && g0.node == n && g0 == Single(n, g0.info, kids);
    hide Owns, Separate, Foot, Nodes, Single;
    HeadApart(g0);
    StringsIn(g0);
    assert allocated(Foot(f)) && allocated(Foot(g0)) && n !in Foot(f);
    SetName(heap, n, key, false, kids);
    Renamed(n, g0.info, n.name, kids);
  }

  /** The new node n takes the name and then the place of the i-th node. */
  method ReplaceNamed(heap: Heap, parent: Node, key: Text, n: Node, i: nat, ghost f: Forest, ghost g0: Forest)
    requires Owns(f, parent.child, null, null) && Separate(f) && parent !in Foot(f) && heap !in heap.live
    requires Foot(f) <= heap.live && i < |Nodes(f)| && g0.Tree? && g0 == Single(n, n.Data(), g0.kids)
    requires Owns(g0, n, null, null) && Separate(g0) && Foot(g0) <= heap.live && parent !in Foot(g0)
      && Foot(f) !! Foot(g0)
    modifies heap`live, heap`plan, parent`child, n, Foot(f)
    ensures var g := Single(n, g0.info.(name := n.name), g0.kids);
      && Owns(UpdateAt(f, i, g), parent.child, null, null)
      && heap.live == old(heap.live) + Objects(n.name) - Foot(Nth(f, i))
      && Objects(old(n.name)) <= heap.live && (Objects(old(n.name)) !! Foot(UpdateAt(f, i, g)))
  {
    NthApart(f, i);
    hide Owns, Separate, Foot, Nodes, Take, Drop, Nth, Concat, Single, UpdateAt;
    Rename(heap, parent, key, n, f, g0);
    ghost var g := Single(n, g0.info.(name := n.name), g0.kids);
    UpdateFoot(f, i, g);
    ReplaceItemInArray(heap, parent, i, n, f, g);
  }

  lemma StringsIn(g: Forest)
    requires g.Tree?
    ensures Objects(g.info.name) <= Foot(g)
  {
  }

  /** cJSON_ReplaceItemInObject. The replaced node is freed with all it owns; a name that the new node already had is
      overwritten and leaks. */
  method ReplaceItemInObject(heap: Heap, parent: Node, key: Text, n: Node, ghost f: Forest, ghost g0: Forest)
    requires Owns(f, parent.child, null, null) && Separate(f) && parent !in Foot(f) && heap !in heap.live
    requires Foot(f) <= heap.live && NulFree(key) && NamesNulFree(f) && g0.Tree? && g0 == Single(n, n.Data(), g0.kids)
    requires Owns(g0, n, null, null) && Separate(g0) && Foot(g0) <= heap.live && parent !in Foot(g0)
      && Foot(f) !! Foot(g0)
    modifies heap`live, heap`plan, parent`child, n, Foot(f)
    ensures var k, g := Find(f, key), Single(n, g0.info.(name := n.name), g0.kids);
      if k < |Nodes(f)| then
        && Owns(UpdateAt(f, k, g), parent.child, null, null)
        && heap.live == old(heap.live) + Objects(n.name) - Foot(Nth(f, k))
        && Objects(old(n.name)) <= heap.live && (Objects(old(n.name)) !! Foot(UpdateAt(f, k, g)))
      else Owns(f, parent.child, null, null) && Owns(g0, n, null, null) && heap.live == old(heap.live)
  {
    hide Owns, Separate, Foot, Nodes, Find, Take, Drop, Nth, Concat, Single, NamesNulFree, UpdateAt;
    assert allocated(Foot(f)) && allocated(Foot(g0));
    var c, i := GetObjectItem(parent, key, f);
    if c != null {
      ReplaceNamed(heap, parent, key, n, i, f, g0);
    }
  }

  lemma UpdateFoot(f: Forest, k: nat, g: Forest)
    requires Separate(f) && k < |Nodes(f)|
    ensures Foot(UpdateAt(f, k, g)) == Foot(f) - Foot(Nth(f, k)) + Foot(g) && Foot(Nth(f, k)) <= Foot(f)
  {
    NthApart(f, k);
  }

  /** create_reference: a shallow copy that borrows the children and the string of the original. Deleting it frees the
      copy alone. */
  method CreateReference(heap: Heap, item: Node) returns (ref: Node?)
    requires heap !in heap.live
    modifies heap`live, heap`plan
    ensures heap !in heap.live
    ensures ref == null ==> heap.live == old(heap.live) && !Plenty(old(heap.plan))
    ensures ref != null ==> var tree := Single(ref, ref.Data(), Empty);
      && fresh(ref) && ref.child == item.child && ref.Data() == item.Data().(isReference := true, name := null)
      && Owns(tree, ref, null, null) && Separate(tree) && Foot(tree) == {ref} && heap.live == old(heap.live) + {ref}
  {
    ref := heap.NewItem();
    if ref != null {
      ref.kind, ref.mantissa, ref.exponent := item.kind, item.mantissa, item.exponent;
      ref.valuestring, ref.child := item.valuestring, item.child;
      ref.name := null;
      ref.isReference := true;
      ref.next, ref.prev := null, null;
    }
  }
}
