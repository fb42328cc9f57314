/** :nth-child and :nth-last-child with their position caches. */
module NthChild {
  import opened Dom
  import opened Options

  /** How many of a list's nodes are counted. */
  function Count(nodes: seq<Node>, counted: set<Node>): (n: nat)
    ensures n <= |nodes|
  {
    if nodes == [] then 0
    else Count(nodes[..|nodes| - 1], counted) + if nodes[|nodes| - 1] in counted then 1 else 0
  }

  lemma {:induction false} CountSplit(a: seq<Node>, b: seq<Node>, counted: set<Node>)
    ensures Count(a + b, counted) == Count(a, counted) + Count(b, counted)
  {
    if b == [] {
      assert a + b == a;
    } else {
      CountSplit(a, b[..|b| - 1], counted);
      assert (a + b)[..|a + b| - 1] == a + b[..|b| - 1];
    }
  }

  /** The one-based position of x among its counted siblings, from the first or from the last child. */
  function Position(dom: Tree, x: Node, forward: bool, counted: set<Node>): nat
    requires dom.Valid() && x in dom.parent
  {
    var kids := dom.kids[dom.parent[x]];
    if forward then Count(kids[..dom.rank[x] + 1], counted) else Count(kids[dom.rank[x]..], counted)
  }

  ghost predicate Distinct(nodes: seq<Node>) {
    forall j, k | 0 <= j < k < |nodes| :: nodes[j] != nodes[k]
  }

  ghost function Of(nodes: seq<Node>, counted: set<Node>): set<Node> {
    set y | y in nodes && y in counted
  }

  lemma OfMore(nodes: seq<Node>, x: Node, counted: set<Node>)
    requires Distinct(nodes + [x])
    ensures Distinct(nodes) && |Of(nodes + [x], counted)| == |Of(nodes, counted)| + if x in counted then 1 else 0
  {
    assert forall k | 0 <= k < |nodes| :: (nodes + [x])[k] == nodes[k];
    assert (nodes + [x])[|nodes|] == x && x !in nodes;
    assert Of(nodes + [x], counted) == if x in counted then Of(nodes, counted) + {x} else Of(nodes, counted);
  }

  /** Of different nodes, as many are counted as belong to the counted ones. */
  lemma {:induction false} CountIsSize(nodes: seq<Node>, counted: set<Node>)
    requires Distinct(nodes)
    ensures Count(nodes, counted) == |Of(nodes, counted)|
    decreases |nodes|
  {
    if nodes == [] {
      assert Of(nodes, counted) == {};
    } else {
      var n := |nodes| - 1;
      assert nodes == nodes[..n] + [nodes[n]];
      OfMore(nodes[..n], nodes[n], counted);
      CountIsSize(nodes[..n], counted);
      hide Of, Distinct;
    }
  }

  /** The counted siblings of a node up to it, or from it on. */
  ghost function Siblings(dom: Tree, x: Node, forward: bool, counted: set<Node>): set<Node>
    requires x in dom.parent
  {
    set y | y in counted && y in dom.parent && dom.parent[y] == dom.parent[x] && if forward then y <= x else y >= x
  }

  function Side(kids: seq<Node>, at: nat, forward: bool): seq<Node>
    requires at < |kids|
  {
    if forward then kids[..at + 1] else kids[at..]
  }

  lemma RankOrder(dom: Tree, x: Node, y: Node)
    requires dom.Valid() && x in dom.parent && y in dom.parent && dom.parent[x] == dom.parent[y]
    ensures var kids := dom.kids[dom.parent[x]];
            && dom.rank[x] < |kids| && dom.rank[y] < |kids| && kids[dom.rank[y]] == y
            && (y <= x <==> dom.rank[y] <= dom.rank[x])
  {
    var kids := dom.kids[dom.parent[x]];
    assert kids[dom.rank[x]] == x && kids[dom.rank[y]] == y;
  }

  lemma KidsOf(dom: Tree, p: Node)
    requires dom.Valid() && p in dom.kids
    ensures Distinct(dom.kids[p])
    ensures forall k | 0 <= k < |dom.kids[p]| ::
              var y := dom.kids[p][k]; y in dom.parent && dom.parent[y] == p && dom.rank[y] == k
  {
  }

  lemma SideDistinct(kids: seq<Node>, at: nat, forward: bool)
    requires at < |kids| && Distinct(kids)
    ensures Distinct(Side(kids, at, forward))
  {
  }

  lemma InSide(kids: seq<Node>, at: nat, forward: bool, y: Node)
    requires at < |kids|
    ensures y in Side(kids, at, forward) <==>
            exists k :: 0 <= k < |kids| && kids[k] == y && if forward then k <= at else k >= at
  {
    var side := Side(kids, at, forward);
    if k :| 0 <= k < |kids| && kids[k] == y && if forward then k <= at else k >= at {
      assert side[if forward then k else k - at] == y;
    }
  }

  lemma SideIs(dom: Tree, x: Node, forward: bool, counted: set<Node>, y: Node)
    requires dom.Valid() && x in dom.parent && dom.rank[x] < |dom.kids[dom.parent[x]]|
    ensures y in Of(Side(dom.kids[dom.parent[x]], dom.rank[x], forward), counted)
       <==> y in Siblings(dom, x, forward, counted)
  {
    var p := dom.parent[x];
    KidsOf(dom, p);
    InSide(dom.kids[p], dom.rank[x], forward, y);
    if y in dom.parent && dom.parent[y] == p {
      RankOrder(dom, x, y);
    } else {
      assert y !in dom.kids[p];
    }
    hide Distinct, Side;
  }

  /** A node's position is the number of its counted siblings up to it, or from it on: itself included if it counts. */
  lemma PositionIsSize(dom: Tree, x: Node, forward: bool, counted: set<Node>)
    requires dom.Valid() && x in dom.parent
    ensures Position(dom, x, forward, counted) == |Siblings(dom, x, forward, counted)|
  {
    hide *;
    RankOf(dom, x);
    var kids, at := dom.kids[dom.parent[x]], dom.rank[x];
    var side := Side(kids, at, forward);
    forall y
      ensures y in Of(side, counted) <==> y in Siblings(dom, x, forward, counted)
    {
      SideIs(dom, x, forward, counted, y);
    }
    KidsOf(dom, dom.parent[x]);
    SideDistinct(kids, at, forward);
    CountIsSize(side, counted);
    assert Of(side, counted) == Siblings(dom, x, forward, counted);
    PositionIs(dom, x, forward, counted);
  }

  lemma RankOf(dom: Tree, x: Node)
    requires dom.Valid() && x in dom.parent
    ensures dom.parent[x] in dom.kids && x in dom.rank && dom.rank[x] < |dom.kids[dom.parent[x]]|
  {
  }

  lemma PositionIs(dom: Tree, x: Node, forward: bool, counted: set<Node>)
    requires dom.Valid() && x in dom.parent && dom.rank[x] < |dom.kids[dom.parent[x]]|
    ensures Position(dom, x, forward, counted) == Count(Side(dom.kids[dom.parent[x]], dom.rank[x], forward), counted)
  {
    hide Count;
  }

  /** The an+b microsyntax: position p is selected when p = a*n + b for some n >= 0. */
  ghost predicate InProgression(p: int, a: int, b: int) {
    exists n: nat :: p == a * n + b
  }

  /** The test at the end of the filter, after the offset has been subtracted. Remainder by zero is NaN in
      the original, which compares unequal to 0. */
  predicate CycleTest(diff: int, first: int) {
    diff == first || (first != 0 && diff % first == 0 && diff / first >= 0)
  }

  lemma CycleTestCorrect(p: int, a: int, b: int)
    ensures CycleTest(p - b, a) <==> InProgression(p, a, b)
  {
    var d := p - b;
    if CycleTest(d, a) {
      if d == a {
        assert p == a * 1 + b;
      } else {
        var n: nat := d / a;
        assert p == a * n + b;
      }
    }
    if n: nat :| p == a * n + b {
      if a != 0 {
        Divides(d, a, n);
      }
    }
  }

  lemma Divides(d: int, a: int, n: nat)
    requires a != 0 && d == a * n
    ensures d % a == 0 && d / a == n
  {
    var q, r := d / a, d % a;
    assert d == a * q + r && 0 <= r;
    assert a * (n - q) == r;
    SmallMultiple(a, n - q, r);
  }

  lemma SmallMultiple(a: int, k: int, r: nat)
    requires r == a * k && r < if a < 0 then -a else a
    ensures k == 0
  {
    if k > 0 {
      Scale(if a < 0 then -a else a, k);
    } else if k < 0 {
      Scale(if a < 0 then -a else a, -k);
    }
  }

  lemma Scale(a: int, k: int)
    requires k >= 1
    ensures a > 0 ==> a * k >= a
    ensures a * -k == -a * k == -(a * k)
  {
  }

  lemma CountHead(kids: seq<Node>, i: nat, counted: set<Node>)
    requires i < |kids|
    ensures Count(kids[i..], counted) == Count(kids[i + 1..], counted) + if kids[i] in counted then 1 else 0
  {
    assert kids[i..] == [kids[i]] + kids[i + 1..];
    CountSplit([kids[i]], kids[i + 1..], counted);
    assert [kids[i]][..0] == [];
  }

  /** The child at index i of its parent, counted from the first and from the last child. */
  lemma PositionAt(dom: Tree, p: Node, i: nat, counted: set<Node>)
    requires dom.Valid() && p in dom.kids && i < |dom.kids[p]|
    ensures var y := dom.kids[p][i];
            && y in dom.parent && dom.parent[y] == p && dom.rank[y] == i
            && Position(dom, y, true, counted) == Count(dom.kids[p][..i + 1], counted)
            && Position(dom, y, false, counted) == Count(dom.kids[p][i..], counted)
  {
    hide Count;
  }

  lemma CountNothing(kids: seq<Node>, counted: set<Node>)
    ensures Count(kids[|kids|..], counted) == 0
  {
  }

  lemma {:induction false} NothingCounted(nodes: seq<Node>, counted: set<Node>)
    ensures Count(nodes, counted) == 0 <==> forall k | 0 <= k < |nodes| :: nodes[k] !in counted
  {
    if nodes != [] {
      NothingCounted(nodes[..|nodes| - 1], counted);
    }
  }

  /** :first-*, :last-* and :only-*. */
  datatype Simple = First | Last | Only

  /** Is nothing counted on one side of the child at index `at`? */
  method Alone(kids: seq<Node>, at: nat, back: bool, counted: set<Node>) returns (b: bool)
    requires at < |kids|
    ensures b <==> Count(if back then kids[..at] else kids[at + 1..], counted) == 0
  {
    ghost var side := if back then kids[..at] else kids[at + 1..];
    NothingCounted(side, counted);
    hide Count;
    var k: int := if back then at - 1 else at + 1;
    while 0 <= k < |kids|
      invariant if back then -1 <= k < at else at < k <= |kids|
      invariant forall j | (if back then k < j < at else at < j < k) :: kids[j] !in counted
      decreases if back then k + 1 else |kids| - k
    {
      if kids[k] in counted {
        assert side[if back then k else k - at - 1] in counted;
        return false;
      }
      k := if back then k - 1 else k + 1;
    }
    b := true;
  }

  /** A counted child is one more than what is counted before it, or behind it. */
  lemma PositionSides(dom: Tree, x: Node, counted: set<Node>)
    requires dom.Valid() && x in dom.parent && x in counted
    ensures var kids, at := dom.kids[dom.parent[x]], dom.rank[x];
            && Position(dom, x, true, counted) == Count(kids[..at], counted) + 1
            && Position(dom, x, false, counted) == Count(kids[at + 1..], counted) + 1
  {
    var kids, at := dom.kids[dom.parent[x]], dom.rank[x];
    assert kids[..at + 1][..at] == kids[..at];
    CountHead(kids, at, counted);
  }

  /** The filter for :first-*, :last-* and :only-*: no cache, just a look at one side or, in turn, both. */
  method QuerySimple(dom: Tree, x: Node, counted: set<Node>, kind: Simple) returns (b: bool)
    requires dom.Valid() && x in counted
    ensures b <==> && x in dom.parent
                   && (kind != Last ==> Position(dom, x, true, counted) == 1)
                   && (kind != First ==> Position(dom, x, false, counted) == 1)
  {
    if x !in dom.parent {
      return false;
    }
    var kids, at := dom.kids[dom.parent[x]], dom.rank[x];
    PositionSides(dom, x, counted);
    hide Count, Position;
    b := Alone(kids, at, kind != Last, counted);
    if b && kind == Only {
      b := Alone(kids, at, false, counted);
    }
  }

  /** The cache a query leaves on the parent: the run, an index in childNodes and the count up to there. */
  datatype ParentSlot = ParentSlot(run: nat, index: nat, diff: nat)

  /** The cache a query leaves on every element it passes. */
  datatype ElemSlot = ElemSlot(run: nat, diff: nat)

  class PositionCache {
    var dirruns: nat
    var onParent: map<Node, ParentSlot>
    var onElem: map<Node, ElemSlot>

    constructor ()
      ensures forall dom: Tree | dom.Valid() :: Valid(dom)
    {
      dirruns, onParent, onElem := 0, map[], map[];
    }

    /** Entries of the current run describe the current tree. */
    ghost predicate Valid(dom: Tree)
      reads this
    {
      && dom.Valid()
      && (forall p | p in onParent ::
            && onParent[p].run <= dirruns
            && (onParent[p].run == dirruns ==>
                  && p in dom.kids && onParent[p].index < |dom.kids[p]|
                  && onParent[p].diff == Count(dom.kids[p][..onParent[p].index + 1], dom.elements)))
      && (forall y | y in onElem ::
            && onElem[y].run <= dirruns
            && (onElem[y].run == dirruns ==>
                  && y in dom.parent
                  && onElem[y].diff == Position(dom, y, false, dom.elements)))
    }

    /** A new outermost run may look at a changed tree. */
    method NextRun(dom: Tree, next: Tree)
      requires Valid(dom) && next.Valid()
      modifies this`dirruns
      ensures Valid(next) && dirruns == old(dirruns) + 1
    {
      dirruns := dirruns + 1;
    }

    /** The loop of :nth-child: resume after a known position, or start again from the first child, once. */
    static method Resume(kids: seq<Node>, counted: set<Node>, at: nat, index: nat, diff0: nat)
      returns (nodeIndex: nat, diff: nat, ghost restarts: nat)
      requires at < |kids| && kids[at] in counted
      requires forall j, k | 0 <= j < k < |kids| :: kids[j] != kids[k]
      requires index < |kids| && (index > 0 ==> diff0 == Count(kids[..index + 1], counted))
      ensures nodeIndex == at && diff == Count(kids[..at + 1], counted)
      ensures restarts <= 1
    {
      var start: Option<Node> := Some(kids[0]);
      var node: Option<Node> := if index == 0 then None else Some(kids[index]);
      nodeIndex, diff, restarts := index, diff0, 0;
      while true
        invariant node.Some? ==> nodeIndex < |kids| && node.value == kids[nodeIndex]
        invariant node.Some? ==> diff == Count(kids[..nodeIndex + 1], counted)
        invariant start.Some? ==> start.value == kids[0] && restarts == 0
        invariant start.None? ==> restarts == 1 && node.Some? && nodeIndex < at
        decreases start.Some?, |kids| - nodeIndex, node.Some?
      {
        nodeIndex := nodeIndex + 1;
        if node.Some? && nodeIndex < |kids| {
          node := Some(kids[nodeIndex]);
        } else {
          diff, nodeIndex := 0, 0;
          restarts := restarts + 1;
          node, start := start, None;
        }
        assert kids[..nodeIndex + 1][..nodeIndex] == kids[..nodeIndex];
        if node.value in counted {
          diff := diff + 1;
          if node.value == kids[at] {
            return;
          }
        }
      }
    }

    /** :nth-child, counting forwards and resuming from the index cached on the parent. */
    method SeekForward(dom: Tree, x: Node) returns (diff: nat)
      requires Valid(dom) && x in dom.parent && x in dom.elements
      modifies this`onParent
      ensures Valid(dom)
      ensures diff == Position(dom, x, true, dom.elements)
    {
      hide Count;
      var p := dom.parent[x];
      var kids := dom.kids[p];
      var nodeIndex: nat := 0;
      diff := 0;
      if p in onParent && onParent[p].run == dirruns {
        nodeIndex, diff := onParent[p].index, onParent[p].diff;
      }
      ghost var restarts;
      nodeIndex, diff, restarts := Resume(kids, dom.elements, dom.rank[x], nodeIndex, diff);
      onParent := onParent[p := ParentSlot(dirruns, nodeIndex, diff)];
    }

    /** The slot an element gets when the backward walk passes it. */
    method Remember(dom: Tree, y: Node, diff: nat)
      requires Valid(dom) && y in dom.parent && diff == Position(dom, y, false, dom.elements)
      modifies this`onElem
      ensures Valid(dom) && onElem == old(onElem)[y := ElemSlot(dirruns, diff)]
    {
      hide Count, Position;
      onElem := onElem[y := ElemSlot(dirruns, diff)];
    }

    /** :nth-last-child, counting backwards; every element passed on the way gets its own slot. */
    method SeekBackward(dom: Tree, x: Node) returns (diff: nat)
      requires Valid(dom) && x in dom.parent && x in dom.elements
      modifies this`onElem
      ensures Valid(dom)
      ensures diff == Position(dom, x, false, dom.elements)
    {
      if x in onElem && onElem[x].run == dirruns {
        return onElem[x].diff;
      }
      var p := dom.parent[x];
      var kids := dom.kids[p];
      var i := |kids|;
      CountNothing(kids, dom.elements);
      hide Count, Position;
      diff := 0;
      while true
        invariant dom.rank[x] < i <= |kids|
        invariant diff == Count(kids[i..], dom.elements)
        invariant Valid(dom)
        decreases i
      {
        i := i - 1;
        CountHead(kids, i, dom.elements);
        PositionAt(dom, p, i, dom.elements);
        if kids[i] in dom.elements {
          diff := diff + 1;
          Remember(dom, kids[i], diff);
          if kids[i] == x {
            return;
          }
        }
      }
    }

    /** :nth-of-type, and every query on XML: the same walks without a cache. */
    static method SeekUncached(kids: seq<Node>, at: nat, forward: bool, counted: set<Node>) returns (diff: nat)
      requires at < |kids| && kids[at] in counted
      requires forall j, k | 0 <= j < k < |kids| :: kids[j] != kids[k]
      ensures diff == if forward then Count(kids[..at + 1], counted) else Count(kids[at..], counted)
    {
      diff := 0;
      if forward {
        var i := 0;
        while true
          invariant 0 <= i <= at && diff == Count(kids[..i], counted)
          decreases at - i
        {
          assert kids[..i + 1][..i] == kids[..i];
          if kids[i] in counted {
            diff := diff + 1;
            if kids[i] == kids[at] {
              return;
            }
          }
          i := i + 1;
        }
      } else {
        var i := |kids|;
        while true
          invariant at < i <= |kids| && diff == Count(kids[i..], counted)
          decreases i
        {
          i := i - 1;
          CountHead(kids, i, counted);
          if kids[i] in counted {
            diff := diff + 1;
            if kids[i] == kids[at] {
              return;
            }
          }
        }
      }
    }

    /** The whole filter for :nth-*(first n + last), over any sequence of queries in a run. */
    method Query(dom: Tree, x: Node, forward: bool, useCache: bool, counted: set<Node>, first: int, last: int)
      returns (b: bool)
      requires Valid(dom) && x in dom.elements && x in counted
      requires useCache ==> counted == dom.elements
      modifies this`onParent, this`onElem
      ensures Valid(dom)
      ensures b <==> x in dom.parent && InProgression(Position(dom, x, forward, counted), first, last)
    {
      if x !in dom.parent {
        return false;
      }
      if first == 1 && last == 0 {
        assert Position(dom, x, forward, counted) == 1 * Position(dom, x, forward, counted) + 0;
        return true;
      }
      var diff: nat;
      if forward && useCache {
        diff := SeekForward(dom, x);
      } else if useCache {
        diff := SeekBackward(dom, x);
      } else {
        diff := SeekUncached(dom.kids[dom.parent[x]], dom.rank[x], forward, counted);
      }
      CycleTestCorrect(diff, first, last);
      b := CycleTest(diff - last, first);
    }
  }
}
