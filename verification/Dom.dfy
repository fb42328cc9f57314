/** The part of the DOM that selector matching reads: a finite forest with sibling order. */
module Dom {
  import opened Options

  /** Nodes are numbered in document order, so a parent and every preceding sibling have smaller numbers. */
  type Node = nat

  /** The two pointers a combinator may follow. */
  datatype Dir = ParentNode | PreviousSibling

  /** `parent` and `rank` give a node's parent and its index there, `kids` the child list of a parent,
      `elements` the nodes whose nodeType is 1 (the others are text, comments and the document). */
  datatype Tree = Tree(parent: map<Node, Node>, rank: map<Node, nat>, kids: map<Node, seq<Node>>, elements: set<Node>) {

    ghost predicate Valid() {
      && (forall p, k | p in kids && 0 <= k < |kids[p]| ::
            && kids[p][k] in parent && parent[kids[p][k]] == p
            && kids[p][k] in rank && rank[kids[p][k]] == k
            && p < kids[p][k])
      && (forall p, j, k | p in kids && 0 <= j < k < |kids[p]| :: kids[p][j] < kids[p][k])
      && (forall x | x in parent ::
            && parent[x] in kids
            && x in rank && rank[x] < |kids[parent[x]]|
            && kids[parent[x]][rank[x]] == x)
    }

    /** elem[dir] */
    function Up(x: Node, dir: Dir): (r: Option<Node>)
      requires Valid()
      ensures r.Some? ==> r.value < x
    {
      if x !in parent then None
      else
        match dir
        case ParentNode =>
          assert kids[parent[x]][rank[x]] == x;
          Some(parent[x])
        case PreviousSibling =>
          if rank[x] == 0 then None else Some(kids[parent[x]][rank[x] - 1])
    }

    /** All proper ancestors, or all preceding siblings. */
    function Above(x: Node, dir: Dir): (r: set<Node>)
      requires Valid()
      ensures forall y | y in r :: y < x
      decreases x
    {
      match Up(x, dir)
      case None => {}
      case Some(u) => {u} + Above(u, dir)
    }

    /** What a walk that has reached `e` still has to look at. */
    function From(e: Option<Node>, dir: Dir): (r: set<Node>)
      requires Valid()
    {
      match e
      case None => {}
      case Some(u) => {u} + Above(u, dir)
    }

    /** The closest node above that is an element (or any node at all, when `any` is set). */
    function Closest(x: Node, dir: Dir, any: bool): (r: Option<Node>)
      requires Valid()
      ensures r.Some? ==> r.value < x
      decreases x
    {
      match Up(x, dir)
      case None => None
      case Some(u) => if any || u in elements then Some(u) else Closest(u, dir, any)
    }

    /** Above is transitive. */
    lemma {:induction false} AboveTrans(x: Node, y: Node, dir: Dir)
      requires Valid() && y in Above(x, dir)
      ensures Above(y, dir) < Above(x, dir)
      decreases x
    {
      var u := Up(x, dir).value;
      if y != u {
        AboveTrans(u, y, dir);
      }
    }

    /** Closest really is the nearest eligible node. */
    lemma {:induction false} ClosestNearest(x: Node, dir: Dir, any: bool)
      requires Valid()
      ensures Closest(x, dir, any).None? ==> forall y | y in Above(x, dir) :: !any && y !in elements
      ensures Closest(x, dir, any).Some? ==>
                var c := Closest(x, dir, any).value;
                && c in Above(x, dir) && (any || c in elements)
                && forall y | y in Above(x, dir) && y > c :: !any && y !in elements
      decreases x
    {
      match Up(x, dir)
      case None =>
      case Some(u) => if !(any || u in elements) { ClosestNearest(u, dir, any); }
    }
  }
}
