/** What selectors mean in terms of parents and child lists alone. */
module SelectorMeaning {
  import opened Dom
  import opened Options
  import opened Selectors

  /** Each node of the path is the parent of the one before. */
  ghost predicate ParentPath(dom: Tree, path: seq<Node>) {
    forall k | 0 <= k < |path| - 1 :: path[k] in dom.parent && dom.parent[path[k]] == path[k + 1]
  }

  ghost predicate IsAncestor(dom: Tree, a: Node, x: Node) {
    exists path | ParentPath(dom, path) :: |path| >= 2 && path[0] == x && path[|path| - 1] == a
  }

  ghost predicate IsEarlierSibling(dom: Tree, a: Node, x: Node)
    requires dom.Valid()
  {
    x in dom.parent && a in dom.kids[dom.parent[x]][..dom.rank[x]]
  }

  /** Following parentNode reaches exactly the ancestors. */
  lemma AboveIsAncestors(dom: Tree, a: Node, x: Node)
    requires dom.Valid()
    ensures a in dom.Above(x, ParentNode) <==> IsAncestor(dom, a, x)
  {
    if a in dom.Above(x, ParentNode) {
      AboveAncestor(dom, a, x);
    }
    if IsAncestor(dom, a, x) {
      var path :| ParentPath(dom, path) && |path| >= 2 && path[0] == x && path[|path| - 1] == a;
      PathAbove(dom, path);
    }
  }

  lemma {:induction false} AboveAncestor(dom: Tree, a: Node, x: Node)
    requires dom.Valid() && a in dom.Above(x, ParentNode)
    ensures IsAncestor(dom, a, x)
    decreases x
  {
    var p := dom.Up(x, ParentNode).value;
    if a == p {
      assert ParentPath(dom, [x, p]);
    } else {
      AboveAncestor(dom, a, p);
      var path :| ParentPath(dom, path) && |path| >= 2 && path[0] == p && path[|path| - 1] == a;
      assert ParentPath(dom, [x] + path);
    }
  }

  lemma {:induction false} PathAbove(dom: Tree, path: seq<Node>)
    requires dom.Valid() && ParentPath(dom, path) && |path| >= 2
    ensures path[|path| - 1] in dom.Above(path[0], ParentNode)
    decreases |path|
  {
    assert path[0] in dom.parent && dom.parent[path[0]] == path[1];
    if |path| > 2 {
      assert ParentPath(dom, path[1..]);
      PathAbove(dom, path[1..]);
    }
  }

  /** Following previousSibling reaches exactly the earlier children of the same parent. */
  lemma {:induction false} AboveIsEarlier(dom: Tree, a: Node, x: Node)
    requires dom.Valid()
    ensures a in dom.Above(x, PreviousSibling) <==> IsEarlierSibling(dom, a, x)
    decreases x
  {
    if x in dom.parent && dom.rank[x] > 0 {
      var kids, r := dom.kids[dom.parent[x]], dom.rank[x];
      var u := kids[r - 1];
      AboveIsEarlier(dom, a, u);
      assert kids[..r] == kids[..r - 1] + [u];
    }
  }

  // ---- combinators ----

  /** The combinators by their symbols. */
  function Symbol(c: char): Combinator
    requires c in {' ', '>', '~', '+'}
  {
    match c
    case ' ' => Combinator(ParentNode, false)
    case '>' => Combinator(ParentNode, true)
    case '~' => Combinator(PreviousSibling, false)
    case _ => Combinator(PreviousSibling, true)
  }

  ghost predicate IsBefore(dom: Tree, a: Node, x: Node, dir: Dir)
    requires dom.Valid()
  {
    match dir
    case ParentNode => IsAncestor(dom, a, x)
    case PreviousSibling => IsEarlierSibling(dom, a, x)
  }

  /** Node a stands in relation r to x: it is an ancestor or earlier sibling of the right kind, and the nearest one
      if r asks for the first. `any` admits nodes that are not elements. */
  ghost predicate Relates(dom: Tree, a: Node, r: Combinator, x: Node, any: bool)
    requires dom.Valid()
  {
    && IsBefore(dom, a, x, r.dir) && (any || a in dom.elements)
    && (r.first ==> forall b: Node | IsBefore(dom, b, x, r.dir) && (any || b in dom.elements) :: b <= a)
  }

  lemma AboveIsBefore(dom: Tree, a: Node, x: Node, dir: Dir)
    requires dom.Valid()
    ensures a in dom.Above(x, dir) <==> IsBefore(dom, a, x, dir)
  {
    match dir
    case ParentNode => AboveIsAncestors(dom, a, x);
    case PreviousSibling => AboveIsEarlier(dom, a, x);
  }

  lemma ReachIsRelates(dom: Tree, a: Node, r: Combinator, x: Node, any: bool)
    requires dom.Valid()
    ensures a in Reach(dom, x, r, any) <==> Relates(dom, a, r, x, any)
  {
    forall b: Node
      ensures b in dom.Above(x, r.dir) <==> IsBefore(dom, b, x, r.dir)
    {
      AboveIsBefore(dom, b, x, r.dir);
    }
    dom.ClosestNearest(x, r.dir, any);
    hide IsBefore;
  }

  /** A parent that is not an element is a document: it has no parent. */
  ghost predicate Rooted(dom: Tree) {
    forall x | x in dom.parent :: dom.parent[x] in dom.elements || dom.parent[x] !in dom.parent
  }

  /** a is child k of the parent of x, before x, and no element stands between. */
  ghost predicate IsNext(dom: Tree, a: Node, k: nat, x: Node)
    requires dom.Valid() && x in dom.parent
  {
    var kids := dom.kids[dom.parent[x]];
    && k < dom.rank[x] && kids[k] == a && a in dom.elements
    && forall j | k < j < dom.rank[x] :: kids[j] !in dom.elements
  }

  /** The four combinators as the selectors standard explains them. */
  lemma SymbolsMean(dom: Tree, a: Node, x: Node)
    requires dom.Valid() && Rooted(dom)
    ensures Relates(dom, a, Symbol(' '), x, false) <==> IsAncestor(dom, a, x) && a in dom.elements
    ensures Relates(dom, a, Symbol('>'), x, false) <==>
            x in dom.parent && dom.parent[x] == a && a in dom.elements
    ensures Relates(dom, a, Symbol('~'), x, false) <==> IsEarlierSibling(dom, a, x) && a in dom.elements
    ensures Relates(dom, a, Symbol('+'), x, false) <==>
            x in dom.parent && exists k :: IsNext(dom, a, k, x)
  {
    ChildMeans(dom, a, x);
    NextMeans(dom, a, x);
    hide IsAncestor;
  }

  lemma ChildMeans(dom: Tree, a: Node, x: Node)
    requires dom.Valid() && Rooted(dom)
    ensures Relates(dom, a, Symbol('>'), x, false) <==>
            x in dom.parent && dom.parent[x] == a && a in dom.elements
  {
    ReachIsRelates(dom, a, Symbol('>'), x, false);
    hide Relates;
    if x in dom.parent {
      assert dom.Up(x, ParentNode) == Some(dom.parent[x]);
      if dom.parent[x] !in dom.elements {
        assert dom.Up(dom.parent[x], ParentNode) == None;
        assert dom.Closest(dom.parent[x], ParentNode, false) == None;
        assert dom.Closest(x, ParentNode, false) == None;
      }
    }
  }

  lemma NextMeans(dom: Tree, a: Node, x: Node)
    requires dom.Valid()
    ensures Relates(dom, a, Symbol('+'), x, false) <==> x in dom.parent && exists k :: IsNext(dom, a, k, x)
  {
    if Relates(dom, a, Symbol('+'), x, false) {
      var kids, r := dom.kids[dom.parent[x]], dom.rank[x];
      var k :| 0 <= k < r && kids[..r][k] == a;
      forall j | k < j < r
        ensures kids[j] !in dom.elements
      {
        assert kids[..r][j] in kids[..r];
        assert IsBefore(dom, kids[j], x, PreviousSibling);
      }
      assert IsNext(dom, a, k, x);
    }
    if x in dom.parent {
      if k: nat :| IsNext(dom, a, k, x) {
        NextRelates(dom, a, k, x);
      }
    }
  }

  lemma NextRelates(dom: Tree, a: Node, k: nat, x: Node)
    requires dom.Valid() && x in dom.parent && IsNext(dom, a, k, x)
    ensures Relates(dom, a, Symbol('+'), x, false)
  {
    var kids := dom.kids[dom.parent[x]];
    KidsAscend(dom, dom.parent[x]);
    LastElement(kids, dom.rank[x], k, dom.elements);
    hide IsNext, Ascending;
  }

  ghost predicate Ascending(s: seq<Node>) {
    forall i, j | 0 <= i < j < |s| :: s[i] < s[j]
  }

  lemma KidsAscend(dom: Tree, p: Node)
    requires dom.Valid() && p in dom.kids
    ensures Ascending(dom.kids[p])
  {
  }

  lemma LastElement(kids: seq<Node>, r: nat, k: nat, elements: set<Node>)
    requires k < r <= |kids| && Ascending(kids) && forall j | k < j < r :: kids[j] !in elements
    ensures kids[k] in kids[..r] && forall b | b in kids[..r] && b in elements :: b <= kids[k]
  {
    assert kids[..r][k] in kids[..r];
    forall b | b in kids[..r] && b in elements
      ensures b <= kids[k]
    {
      var j :| 0 <= j < r && kids[..r][j] == b;
    }
  }

  // ---- selectors ----

  /** Starting at x and going from right to left, the tests hold and the nodes stand in the relations the tokens
      ask for; y is the node that fits the leftmost of them. */
  ghost predicate Chain(dom: Tree, tokens: seq<Token>, x: Node, y: Node)
    requires dom.Valid()
    decreases |tokens|
  {
    if tokens == [] then y == x
    else
      var rest := tokens[..|tokens| - 1];
      match tokens[|tokens| - 1]
      case Filter(t) => t(x) && Chain(dom, rest, x, y)
      case Relative(r) => exists z :: Relates(dom, z, r, x, false) && Chain(dom, rest, z, y)
  }

  lemma {:induction false} SelectsIsChain(env: Env, leading: bool, c: Combinator, tokens: seq<Token>, x: Node)
    requires env.Valid()
    ensures Selects(env, leading, c, tokens, x) <==>
            exists y :: Chain(env.dom, tokens, x, y) && ContextHolds(env, leading, c, y)
    decreases |tokens|
  {
    hide ContextHolds, Relates, Reach;
    if tokens != [] {
      var rest := tokens[..|tokens| - 1];
      match tokens[|tokens| - 1]
      case Filter(t) => SelectsIsChain(env, leading, c, rest, x);
      case Relative(r) =>
        forall z: Node
          ensures z in Reach(env.dom, x, r, false) <==> Relates(env.dom, z, r, x, false)
          ensures Selects(env, leading, c, rest, z) <==>
                  exists y :: Chain(env.dom, rest, z, y) && ContextHolds(env, leading, c, y)
        {
          ReachIsRelates(env.dom, z, r, x, false);
          SelectsIsChain(env, leading, c, rest, z);
        }
    }
  }

  /** A selector that starts with a filter matches x exactly when its chain ends at a node below the context: a
      context node, element or not, is a proper ancestor. The XML walk, and a walk for another context than the
      outermost, do without the context. */
  lemma MatchesMeans(env: Env, tokens: seq<Token>, x: Node)
    requires env.Valid() && tokens != [] && tokens[0].Filter?
    ensures Matches(env, tokens, x) <==>
            exists y ::
              && Chain(env.dom, tokens, x, y)
              && (env.xml || !env.outermost || exists c | c in env.context :: IsAncestor(env.dom, c, y))
  {
    SelectsIsChain(env, false, DESCENDANT, tokens, x);
    forall y: Node, c: Node
      ensures c in Reach(env.dom, y, DESCENDANT, true) <==> IsAncestor(env.dom, c, y)
    {
      ReachIsRelates(env.dom, c, DESCENDANT, y, true);
    }
    hide IsAncestor, Chain, Reach, Selects;
  }

  /** One that starts with a combinator relates the leftmost node to the context, in every walk. */
  lemma LeadingMeans(env: Env, r: Combinator, tokens: seq<Token>, x: Node)
    requires env.Valid()
    ensures Matches(env, [Relative(r)] + tokens, x) <==>
            exists y ::
              && Chain(env.dom, tokens, x, y)
              && exists c | c in env.context :: Relates(env.dom, c, r, y, r.dir == ParentNode)
  {
    assert ([Relative(r)] + tokens)[1..] == tokens;
    SelectsIsChain(env, true, r, tokens, x);
    var any := r.dir == ParentNode;
    forall y: Node, c: Node
      ensures c in Reach(env.dom, y, r, any) <==> Relates(env.dom, c, r, y, any)
    {
      ReachIsRelates(env.dom, c, r, y, any);
    }
    hide Relates, Chain, Reach, Selects;
  }

  /** Filters alone: all of them hold, below the context. */
  lemma FiltersMean(env: Env, tests: seq<Token>, x: Node)
    requires env.Valid() && !env.xml && env.outermost && tests != [] && forall t | t in tests :: t.Filter?
    ensures Matches(env, tests, x) <==>
            (forall t | t in tests :: t.test(x)) && exists y | y in env.dom.Above(x, ParentNode) :: y in env.context
  {
    assert tests[0] in tests;
    MatchesMeans(env, tests, x);
    forall y: Node
      ensures Chain(env.dom, tests, x, y) <==> y == x && forall t | t in tests :: t.test(x)
    {
      FilterChain(env.dom, tests, x, y);
    }
    forall c: Node
      ensures c in env.dom.Above(x, ParentNode) <==> IsAncestor(env.dom, c, x)
    {
      AboveIsAncestors(env.dom, c, x);
    }
    hide Matches, Chain, IsAncestor;
    assert (forall t | t in tests :: t.test(x)) <==> Chain(env.dom, tests, x, x);
  }

  lemma {:induction false} FilterChain(dom: Tree, tests: seq<Token>, x: Node, y: Node)
    requires dom.Valid() && forall t | t in tests :: t.Filter?
    ensures Chain(dom, tests, x, y) <==> y == x && forall t | t in tests :: t.test(x)
    decreases |tests|
  {
    if tests != [] {
      var n := |tests| - 1;
      assert tests == tests[..n] + [tests[n]] && tests[n] in tests;
      FilterChain(dom, tests[..n], x, y);
      assert forall t :: t in tests <==> t in tests[..n] || t == tests[n];
    }
  }
}
