/** cJSON_Duplicate: an independent copy of a structure, reference nodes included. */
module JsonDuplicate {
  import opened JsonHeap
  import opened JsonTree

  /** f lists what can be reached from `head` through next and child. Unlike Owns it also follows the chains that
      reference nodes borrow. */
  ghost predicate Views(f: Forest, head: Node?)
    reads Foot(f)
    decreases f
  {
    match f
    case Empty => head == null
    case Tree(n, info, kids, rest) => head == n && n.Data() == info && Views(kids, n.child) && Views(rest, n.next)
  }

  lemma ViewsTree(f: Forest, head: Node)
    requires Views(f, head)
    ensures f.Tree? && f.node == head && head.Data() == f.info && Views(f.kids, head.child) && Views(f.rest, head.next)
    ensures Foot(f.kids) <= Foot(f) && Foot(f.rest) <= Foot(f) && head in Foot(f)
    ensures DataOf(f) == [RecOf(f.info, DataOf(f.kids))] + DataOf(f.rest)
  {
  }

  /** Every structure without references can be duplicated: it is its own view. */
  lemma {:induction false} OwnedViews(f: Forest, head: Node?, prev: Node?)
    requires Owns(f, head, prev, null) && NoReferences(f)
    ensures Views(f, head)
    decreases f
  {
    if f.Tree? {
      OwnedViews(f.kids, f.node.child, null);
      OwnedViews(f.rest, f.node.next, f.node);
    }
  }

  lemma ViewsEnd(f: Forest)
    requires Views(f, null)
    ensures DataOf(f) == []
  {
  }

  /** cJSON_strdup of a string that may be missing. */
  method CopyString(heap: Heap, s: Str?) returns (ok: bool, r: Str?)
    requires heap !in heap.live
    modifies heap
    ensures heap !in heap.live && (Plenty(old(heap.plan)) ==> Plenty(heap.plan))
    ensures !ok ==> r == null && !Plenty(old(heap.plan))
    ensures ok ==> TextOf(r) == TextOf(s)
    ensures heap.live == old(heap.live) + if r == null then {} else {r}
    ensures r != null ==> fresh(r)
  {
    ok, r := true, null;
    if s != null {
      r := heap.NewStr(s.text);
      ok := r != null;
    }
  }

  /** Every field but the links; the reference flag is cleared. */
  method FillCopy(heap: Heap, item: Node, copy: Node) returns (ok: bool)
    requires heap !in heap.live && copy != item && copy.valuestring == null && copy.name == null
    modifies heap, copy`kind, copy`isReference, copy`mantissa, copy`exponent, copy`valuestring, copy`name
    ensures heap !in heap.live && (Plenty(old(heap.plan)) ==> Plenty(heap.plan))
    ensures !ok ==> !Plenty(old(heap.plan))
    ensures !copy.isReference && copy.Data().StringsDiffer() && fresh(copy.Data().Strings())
    ensures heap.live == old(heap.live) + copy.Data().Strings()
    ensures ok ==> RecOf(copy.Data(), []) == old(RecOf(item.Data(), []))
  {
    copy.kind, copy.isReference, copy.mantissa, copy.exponent := item.kind, false, item.mantissa, item.exponent;
    ok, copy.valuestring := CopyString(heap, item.valuestring);
    if ok {
      ok, copy.name := CopyString(heap, item.name);
    }
  }

  /** The node and its strings, without links and without the reference flag. */
  method CopyFields(heap: Heap, item: Node) returns (copy: Node?)
    requires heap !in heap.live && item in heap.live
    modifies heap
    ensures heap !in heap.live && (Plenty(old(heap.plan)) ==> Plenty(heap.plan))
    ensures copy == null ==> heap.live == old(heap.live) && !Plenty(old(heap.plan))
    ensures copy != null ==>
      && fresh(copy) && copy.next == null && copy.prev == null && copy.child == null && !copy.isReference
      && Owns(Single(copy, copy.Data(), Empty), copy, null, null)
      && Adds(Single(copy, copy.Data(), Empty), old(heap.live), heap.live)
      && RecOf(copy.Data(), []) == old(RecOf(item.Data(), []))
  {
    copy := heap.NewItem();
    if copy == null {
      return;
    }
    hide Owns, Foot, Separate, Single, Adds, NoReferences, DataOf, RecOf;
    var ok := FillCopy(heap, item, copy);
    Childless(copy, old(heap.live), heap.live);
    if !ok {
      Undo(heap, copy, Single(copy, copy.Data(), Empty), old(heap.live));
      copy := null;
    }
  }

  /** cJSON_Duplicate. The copy owns exactly what was allocated for it, has no references and null outer links, and
      says what the original says. If memory runs out, everything is given back. */
  method Duplicate(heap: Heap, item: Node?, recurse: bool, ghost view: Forest) returns (copy: Node?, ghost tree: Forest)
    requires heap !in heap.live && Foot(view) <= heap.live
    requires item != null ==> item in heap.live && Views(view, item.child)
    modifies heap
    ensures heap !in heap.live && (Plenty(old(heap.plan)) ==> Plenty(heap.plan))
    ensures copy == null ==> heap.live == old(heap.live) && (item == null || !Plenty(old(heap.plan)))
    ensures copy != null ==>
      && item != null && fresh(copy) && tree.Tree? && tree.rest == Empty
      && Owns(tree, copy, null, null) && Adds(tree, old(heap.live), heap.live)
      && DataOf(tree) == old([RecOf(item.Data(), if recurse then DataOf(view) else [])])
    decreases view, 1
  {
    tree, copy := Empty, null;
    if item == null {
      return;
    }
    copy := CopyFields(heap, item);
    if copy == null {
      return;
    }
    tree := Single(copy, copy.Data(), Empty);
    if !recurse {
      Childless(copy, old(heap.live), heap.live);
      return;
    }
    var ok;
    ok, tree := CopyBelow(heap, copy, item.child, view, old(heap.live));
    if !ok {
      Undo(heap, copy, tree, old(heap.live));
      copy := null;
    }
  }

  /** The children of the copy. */
  method CopyBelow(heap: Heap, copy: Node, head: Node?, ghost view: Forest, ghost base: set<object>)
    returns (ok: bool, ghost tree: Forest)
    requires heap !in heap.live && Foot(view) <= base && Views(view, head) && copy !in Foot(view)
    requires copy.next == null && copy.prev == null && copy.child == null && !copy.isReference
    requires Adds(Single(copy, copy.Data(), Empty), base, heap.live)
    modifies heap, copy`child
    ensures heap !in heap.live && (Plenty(old(heap.plan)) ==> Plenty(heap.plan))
    ensures Owns(tree, copy, null, null) && Adds(tree, base, heap.live) && tree.Tree? && tree.rest == Empty
    ensures ok ==> DataOf(tree) == [RecOf(old(copy.Data()), DataOf(view))]
    ensures !ok ==> !Plenty(old(heap.plan))
    decreases view, 0, 3
  {
    ghost var all;
    ok, all := CopyChildren(heap, copy, head, view);
    tree := Single(copy, copy.Data(), all);
    AddsTree(copy, copy.Data(), all, base, old(heap.live), heap.live);
  }

  /** Hang a finished copy below `copy`. Nothing of the original changes. */
  method HangCopy(copy: Node, nptr: Node?, n: Node, ghost all: Forest, ghost tree: Forest, next: Node?,
                  ghost rest: Forest)
    requires Owns(all, copy.child, null, null) && Separate(all) && nptr == Last(all, null) && copy !in Foot(all)
    requires Owns(tree, n, null, null) && Separate(tree) && Foot(all) !! Foot(tree) && copy !in Foot(tree)
    requires Views(rest, next) && Foot(rest) !! Foot(all) && Foot(rest) !! Foot(tree) && copy !in Foot(rest)
    modifies copy`child, (if nptr == null then {} else {nptr})`next, n`prev
    ensures Owns(Concat(all, tree), copy.child, null, null)
    ensures Views(rest, next)
  {
    if all.Tree? {
      CutLast(all, null);
      LastApart(all);
    }
    assert n in Foot(tree) && (nptr == null || nptr in Foot(all));
    assert allocated(Foot(rest));
    hide Owns, Foot, Separate, Concat, Front, LastTree, Last, Views;
    Hang(copy, nptr, n, all, tree);
  }

  /** The new copy is apart from everything older. */
  lemma Clear(all: Forest, tree: Forest, cur: Forest, copy: Node, base: set<object>, mid: set<object>,
              live: set<object>)
    requires Adds(all, base, mid) && Adds(tree, mid, live) && {copy} + Foot(cur) <= base && cur.Tree?
    ensures Separate(all) && Separate(tree) && Foot(all) !! Foot(tree) && copy !in Foot(all) && copy !in Foot(tree)
    ensures Foot(cur.rest) !! Foot(all) && Foot(cur.rest) !! Foot(tree) && cur.node !in Foot(all)
      && cur.node !in Foot(tree)
    ensures Adds(Concat(all, tree), base, live) && DataOf(Concat(all, tree)) == DataOf(all) + DataOf(tree)
  {
    AddsUp(all, tree, base, mid, live);
  }

  /** One more item is duplicated. Neither the original nor the copies made so far change. */
  method DuplicateNext(heap: Heap, copy: Node, item: Node, ghost cur: Forest, ghost all: Forest)
    returns (n: Node?, next: Node?, ghost tree: Forest)
    requires heap !in heap.live && Foot(cur) <= heap.live && Foot(all) <= heap.live && Views(cur, item)
    requires Owns(all, copy.child, null, null)
    modifies heap
    ensures heap !in heap.live && (Plenty(old(heap.plan)) ==> Plenty(heap.plan))
    ensures Owns(all, copy.child, null, null) && cur.Tree? && Views(cur.rest, next)
    ensures n == null ==> heap.live == old(heap.live) && !Plenty(old(heap.plan))
    ensures n != null ==>
      && fresh(n) && tree.Tree? && tree.rest == Empty && Owns(tree, n, null, null)
        && Adds(tree, old(heap.live), heap.live)
      && DataOf(tree) == [RecOf(cur.info, DataOf(cur.kids))]
    decreases cur, 0, 0
  {
    ViewsTree(cur, item);
    ghost var rest := cur.rest;
    assert allocated(Foot(all)) && allocated(Foot(rest));
    hide Owns, Foot, Views, DataOf, Adds;
    next := item.next;
    n, tree := Duplicate(heap, item, true, cur.kids);
  }

  /** The copy of one more item joins the copies made so far, and the walk moves on. */
  method CopyOne(heap: Heap, copy: Node, nptr: Node?, item: Node, ghost cur: Forest, ghost all: Forest,
                 ghost base: set<object>)
    returns (n: Node?, next: Node?, ghost grown: Forest)
    requires heap !in heap.live && {copy} + Foot(cur) <= base && copy !in Foot(cur) && Views(cur, item)
    requires Owns(all, copy.child, null, null) && nptr == Last(all, null) && Adds(all, base, heap.live)
    modifies heap, copy`child, (if nptr == null then {} else {nptr})`next
    ensures heap !in heap.live && (Plenty(old(heap.plan)) ==> Plenty(heap.plan))
    ensures Owns(grown, copy.child, null, null) && Adds(grown, base, heap.live)
    ensures n == null ==> !Plenty(old(heap.plan))
    ensures n != null ==> fresh(n) && n == Last(grown, null)
    ensures n != null ==> cur.Tree? && Views(cur.rest, next) && Foot(cur.rest) <= Foot(cur)
    ensures n != null ==> DataOf(grown) == DataOf(all) + [RecOf(cur.info, DataOf(cur.kids))]
    decreases cur, 0, 1
  {
    ghost var before := heap.live;
    ViewsTree(cur, item);
    AddsFacts(all, base, before);
    hide Owns, Foot, Separate, Concat, Last, Views, DataOf, NoReferences, Adds;
    ghost var tree;
    grown := all;
    n, next, tree := DuplicateNext(heap, copy, item, cur, all);
    if n != null {
      Clear(all, tree, cur, copy, base, before, heap.live);
      ChainLast(all, tree, n);
      grown := Concat(all, tree);
      HangCopy(copy, nptr, n, all, tree, next, cur.rest);
    }
  }

  lemma Shifted(done: Forest, all: Forest, cur: Forest, total: seq<Rec>)
    requires cur.Tree? && DataOf(all) == DataOf(done) + [RecOf(cur.info, DataOf(cur.kids))]
    requires DataOf(done) + DataOf(cur) == total
    ensures DataOf(all) + DataOf(cur.rest) == total
  {
  }

  /** Duplicate each item of the chain and hang the copies below `copy`. */
  method CopyChildren(heap: Heap, copy: Node, head: Node?, ghost view: Forest) returns (ok: bool, ghost all: Forest)
    requires heap !in heap.live && Foot(view) <= heap.live && Views(view, head)
    requires copy in heap.live && copy !in Foot(view) && copy.child == null
    modifies heap, copy`child
    ensures heap !in heap.live && (Plenty(old(heap.plan)) ==> Plenty(heap.plan))
    ensures Owns(all, copy.child, null, null) && Adds(all, old(heap.live), heap.live)
    ensures ok ==> DataOf(all) == DataOf(view)
    ensures !ok ==> !Plenty(old(heap.plan))
    decreases view, 0, 2
  {
    var cptr := head;
    var nptr: Node? := null;
    ghost var cur := view;
    all := Empty;
    AddsNothing(heap.live);
    OwnsNothing(null, null);
    assert Last(all, null) == null;
    assert allocated(Foot(view));
    hide Owns, Foot, Separate, Concat, Last, Views, DataOf, NoReferences, Adds;
    while cptr != null
      invariant heap !in heap.live && (Plenty(old(heap.plan)) ==> Plenty(heap.plan))
      invariant nptr != null ==> fresh(nptr)
      invariant Views(cur, cptr) && Foot(cur) <= Foot(view) && (cur == view || cur < view)
      invariant Owns(all, copy.child, null, null) && nptr == Last(all, null) && Adds(all, old(heap.live), heap.live)
      invariant DataOf(all) + DataOf(cur) == DataOf(view)
      decreases cur
    {
      ghost var done := all;
      var n, next;
      n, next, all := CopyOne(heap, copy, nptr, cptr, cur, all, old(heap.live));
      if n == null {
        return false, all;
      }
      Shifted(done, all, cur, DataOf(view));
      nptr, cptr, cur := n, next, cur.rest;
    }
    ViewsEnd(cur);
    ok := true;
  }
}
