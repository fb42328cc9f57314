/** Chains put together, and the data a structure carries. */
module JsonTree {
  import opened Options
  import opened Json
  import opened JsonHeap

  ghost function Concat(f: Forest, g: Forest): (r: Forest)
    ensures Foot(r) == Foot(f) + Foot(g)
  {
    match f
    case Empty => g
    case Tree(n, info, kids, rest) => Tree(n, info, kids, Concat(rest, g))
  }

  /** The last node of a chain that comes after `prev`. */
  ghost function Last(f: Forest, prev: Node?): Node? {
    match f
    case Empty => prev
    case Tree(n, _, _, rest) => Last(rest, n)
  }

  /** A lone node and the chain below it. */
  ghost function Single(n: Node, info: Info, kids: Forest): (f: Forest)
    ensures f.Tree? && f.node == n && f.rest == Empty && Foot(f) == {n} + info.Strings() + Foot(kids)
  {
    Tree(n, info, kids, Empty)
  }

  lemma {:induction false} ConcatAssoc(f: Forest, g: Forest, h: Forest)
    ensures Concat(Concat(f, g), h) == Concat(f, Concat(g, h))
  {
    if f.Tree? {
      ConcatAssoc(f.rest, g, h);
    }
  }

  lemma {:induction false} ConcatLast(f: Forest, g: Forest, prev: Node?)
    ensures Last(Concat(f, g), prev) == Last(g, Last(f, prev))
    decreases f
  {
    if f.Tree? {
      ConcatLast(f.rest, g, f.node);
    }
  }

  lemma {:induction false} ConcatSeparate(f: Forest, g: Forest)
    ensures Separate(Concat(f, g)) <==> Separate(f) && Separate(g) && Foot(f) !! Foot(g)
  {
    if f.Tree? {
      ConcatSeparate(f.rest, g);
    }
  }

  /** Two chains, one behind the other, are one chain. */
  lemma {:induction false} ConcatOwns(f: Forest, g: Forest, head: Node?, prev: Node?, mid: Node?, tail: Node?)
    requires Owns(f, head, prev, mid) && Owns(g, mid, Last(f, prev), tail)
    ensures Owns(Concat(f, g), head, prev, tail)
    decreases f
  {
    if f.Tree? {
      ConcatOwns(f.rest, g, f.node.next, f.node, mid, tail);
    }
  }

  /** A chain can be cut anywhere. */
  lemma {:induction false} SplitOwns(f: Forest, g: Forest, head: Node?, prev: Node?, tail: Node?)
    requires Owns(Concat(f, g), head, prev, tail)
    ensures Owns(f, head, prev, if g.Tree? then g.node else tail)
    ensures Owns(g, if g.Tree? then g.node else tail, Last(f, prev), tail)
    decreases f
  {
    if f.Tree? {
      SplitOwns(f.rest, g, f.node.next, f.node, tail);
    }
  }

  // ---- linking ----

  ghost function Front(f: Forest): Forest
    requires f.Tree?
  {
    if f.rest.Empty? then Empty else f.(rest := Front(f.rest))
  }

  ghost function LastTree(f: Forest): (l: Forest)
    requires f.Tree?
    ensures l.Tree? && l.rest == Empty
  {
    if f.rest.Empty? then f else LastTree(f.rest)
  }

  lemma {:induction false} CutLast(f: Forest, prev: Node?)
    requires f.Tree?
    ensures f == Concat(Front(f), LastTree(f)) && LastTree(f).node == Last(f, prev)
    decreases f
  {
    if f.rest.Tree? {
      CutLast(f.rest, f.node);
    }
  }

  /** The last node can be given a successor without touching anything else of the chain. */
  lemma LastApart(f: Forest)
    requires f.Tree? && Separate(f)
    ensures var l := LastTree(f);
      && Separate(l) && l.node !in Foot(Front(f)) && l.node !in Foot(l.kids)
      && Foot(Front(f)) <= Foot(f) && Foot(l.kids) <= Foot(f) && l.node in Foot(f)
  {
    CutLast(f, null);
    ConcatSeparate(Front(f), LastTree(f));
  }

  /** The chain below a node. */
  ghost predicate Below(n: Node, info: Info, kids: Forest)
    reads n`child, Foot(kids)
  {
    if info.isReference then kids == Empty else Owns(kids, n.child, null, null)
  }

  /** A chain is its first node and the chain behind it. */
  lemma OwnsTree(f: Forest, head: Node?, prev: Node?, tail: Node?)
    requires f.Tree?
    ensures Owns(f, head, prev, tail) <==>
      && head == f.node && f.node.prev == prev && f.node.Data() == f.info && Below(f.node, f.info, f.kids)
      && Owns(f.rest, f.node.next, f.node, tail)
  {
  }

  lemma OwnsNothing(head: Node?, prev: Node?)
    ensures Owns(Empty, head, prev, head) && Foot(Empty) == {} && Separate(Empty)
  {
  }

  lemma HeadApart(f: Forest)
    requires f.Tree? && Separate(f)
    ensures f.node !in Foot(f.kids) && f.node !in Foot(f.rest) && f.node in Foot(f)
    ensures Foot(f.kids) <= Foot(f) && Foot(f.rest) <= Foot(f)
  {
  }

  /** prev->next = item, for the last node of f. */
  method SetNext(prev: Node, item: Node?, ghost f: Forest, ghost head: Node?, ghost before: Node?, ghost tail: Node?)
    requires Owns(f, head, before, tail) && Separate(f) && f.Tree? && prev == Last(f, before)
    modifies prev`next
    ensures Owns(f, head, before, item)
  {
    ghost var a, l := Front(f), LastTree(f);
    CutLast(f, before);
    LastApart(f);
    hide Owns, Foot, Separate, Concat, Front, LastTree, Last, Below;
    SplitOwns(a, l, head, before, tail);
    OwnsTree(l, prev, Last(a, before), tail);
    assert allocated(Foot(a)) && allocated(Foot(l.kids));
    prev.next := item;
    OwnsNothing(item, prev);
    OwnsTree(l, prev, Last(a, before), item);
    ConcatOwns(a, l, head, before, prev, item);
  }

  /** item->prev = prev */
  method SetPrev(item: Node, prev: Node?, ghost g: Forest, ghost before: Node?, ghost tail: Node?)
    requires Owns(g, item, before, tail) && Separate(g) && g.Tree?
    modifies item`prev
    ensures Owns(g, item, prev, tail)
  {
    HeadApart(g);
    hide Owns, Foot, Separate, Below;
    OwnsTree(g, item, before, tail);
    assert allocated(Foot(g.kids)) && allocated(Foot(g.rest));
    item.prev := prev;
    OwnsTree(g, item, prev, tail);
  }

  /** suffix_object: item, and what is linked behind it, goes behind the last node of f. */
  method SuffixObject(prev: Node, item: Node, ghost f: Forest, ghost g: Forest, ghost head: Node?)
    requires Owns(f, head, null, null) && Separate(f) && f.Tree? && prev == Last(f, null)
    requires Owns(g, item, null, null) && g.Tree? && Separate(g) && Foot(f) !! Foot(g)
    modifies prev`next, item`prev
    ensures Owns(Concat(f, g), head, null, null)
  {
    LastApart(f);
    CutLast(f, null);
    HeadApart(g);
    assert item == g.node;
    hide Owns, Foot, Separate, Concat, Front, LastTree, Last, Below;
    assert allocated(Foot(f)) && allocated(Foot(g));
    SetNext(prev, item, f, head, null, null);
    SetPrev(item, prev, g, null, null);
    ConcatOwns(f, g, head, null, item, null);
  }

  /** The first node of a chain becomes the first child, or goes behind the last child. */
  method Hang(parent: Node, last: Node?, n: Node, ghost all: Forest, ghost tree: Forest)
    requires Owns(all, parent.child, null, null) && Separate(all) && last == Last(all, null) && parent !in Foot(all)
    requires Owns(tree, n, null, null) && Separate(tree) && Foot(all) !! Foot(tree) && parent !in Foot(tree)
    modifies parent`child, (if last == null then {} else {last})`next, n`prev
    ensures Owns(Concat(all, tree), parent.child, null, null)
  {
    if all.Tree? {
      CutLast(all, null);
    }
    assert tree.Tree? && (all.Empty? ==> Concat(all, tree) == tree && last == null);
    assert allocated(Foot(tree));
    hide Owns, Foot, Separate, Concat, Front, LastTree, Last;
    if last != null {
      SuffixObject(last, n, all, tree, parent.child);
    } else {
      parent.child := n;
    }
  }

  // ---- data ----

  /** What a node says, links and flags aside. */
  datatype Rec = Rec(kind: Kind, mantissa: int, exponent: int, valuestring: Option<Text>, name: Option<Text>,
                     kids: seq<Rec>)

  ghost function TextOf(s: Str?): Option<Text> {
    if s == null then None else Some(s.text)
  }

  ghost function RecOf(info: Info, kids: seq<Rec>): Rec {
    Rec(info.kind, info.mantissa, info.exponent, TextOf(info.valuestring), TextOf(info.name), kids)
  }

  ghost function DataOf(f: Forest): seq<Rec> {
    match f
    case Empty => []
    case Tree(_, info, kids, rest) => [RecOf(info, DataOf(kids))] + DataOf(rest)
  }

  lemma {:induction false} ConcatData(f: Forest, g: Forest)
    ensures DataOf(Concat(f, g)) == DataOf(f) + DataOf(g)
  {
    if f.Tree? {
      ConcatData(f.rest, g);
      assert [RecOf(f.info, DataOf(f.kids))] + (DataOf(f.rest) + DataOf(g))
          == [RecOf(f.info, DataOf(f.kids))] + DataOf(f.rest) + DataOf(g);
    }
  }

  ghost predicate NoReferences(f: Forest) {
    match f
    case Empty => true
    case Tree(_, info, kids, rest) => !info.isReference && NoReferences(kids) && NoReferences(rest)
  }

  lemma {:induction false} ConcatNoReferences(f: Forest, g: Forest)
    ensures NoReferences(Concat(f, g)) <==> NoReferences(f) && NoReferences(g)
  {
    if f.Tree? {
      ConcatNoReferences(f.rest, g);
    }
  }

  // ---- what a call adds to the heap ----

  /** Everything allocated beyond `base` belongs to the chain, each object once, and no node is a reference. */
  ghost predicate Adds(f: Forest, base: set<object>, live: set<object>) {
    Separate(f) && NoReferences(f) && Foot(f) !! base && live == base + Foot(f)
  }

  lemma AddsNothing(live: set<object>)
    ensures Adds(Empty, live, live) && DataOf(Empty) == []
  {
  }

  lemma AddsUp(f: Forest, g: Forest, base: set<object>, mid: set<object>, live: set<object>)
    requires Adds(f, base, mid) && Adds(g, mid, live)
    ensures Adds(Concat(f, g), base, live) && DataOf(Concat(f, g)) == DataOf(f) + DataOf(g) && Foot(f) !! Foot(g)
  {
    ConcatSeparate(f, g);
    ConcatNoReferences(f, g);
    ConcatData(f, g);
  }

  lemma AddsFacts(f: Forest, base: set<object>, live: set<object>)
    requires Adds(f, base, live)
    ensures Separate(f) && Foot(f) !! base && live == base + Foot(f)
  {
  }

  /** A parent adopts the chain below it. */
  lemma AddsTree(n: Node, info: Info, kids: Forest, base: set<object>, mid: set<object>, live: set<object>)
    requires Adds(Single(n, info, Empty), base, mid) && Adds(kids, mid, live)
    ensures Adds(Single(n, info, kids), base, live)
    ensures DataOf(Single(n, info, kids)) == [RecOf(info, DataOf(kids))]
  {
  }

  lemma Childless(n: Node, base: set<object>, live: set<object>)
    requires n.next == null && n.prev == null && n.child == null && !n.isReference && n.Data().StringsDiffer()
    requires n !in n.Data().Strings() && n !in base && n.Data().Strings() !! base
    requires live == base + {n} + n.Data().Strings()
    ensures Owns(Single(n, n.Data(), Empty), n, null, null) && Adds(Single(n, n.Data(), Empty), base, live)
    ensures DataOf(Single(n, n.Data(), Empty)) == [RecOf(n.Data(), [])]
  {
  }

  /** Delete a new structure: the heap is as it was before. */
  method Undo(heap: Heap, n: Node, ghost f: Forest, ghost base: set<object>)
    requires Owns(f, n, null, null) && Adds(f, base, heap.live) && heap !in heap.live
    modifies heap`live
    ensures heap.live == base
  {
    Delete(heap, n, null, f);
  }

  lemma ChainLast(f: Forest, g: Forest, n: Node)
    requires Owns(g, n, null, null) && g.Tree? && g.rest == Empty
    ensures Last(Concat(f, g), null) == n
  {
    ConcatLast(f, g, null);
  }
}
