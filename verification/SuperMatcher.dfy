/** Compiling selectors and running them over many elements. */
module SuperMatcher {
  import opened Dom
  import opened Selectors
  import opened Sizzle

  /** The compiled form of one complex selector means what its tokens mean. */
  ghost predicate Faithful(ms: seq<Matcher>, tokens: seq<Token>) {
    forall env: Env, x: Node | env.Valid() && tokens != [] :: HoldsAll(env, ms, x) <==> Matches(env, tokens, x)
  }

  ghost predicate Agrees(ms: seq<Matcher>, leading: bool, c: Combinator, tokens: seq<Token>) {
    forall env: Env, x: Node | env.Valid() :: HoldsAll(env, ms, x) <==> Selects(env, leading, c, tokens, x)
  }

  lemma AgreesFilter(ms: seq<Matcher>, leading: bool, c: Combinator, tokens: seq<Token>, t: Node -> bool)
    requires Agrees(ms, leading, c, tokens)
    ensures Agrees(ms + [Test(t)], leading, c, tokens + [Filter(t)])
  {
    forall env: Env, x: Node | env.Valid()
      ensures HoldsAll(env, ms + [Test(t)], x) <==> Selects(env, leading, c, tokens + [Filter(t)], x)
    {
      assert (tokens + [Filter(t)])[..|tokens|] == tokens;
      assert HoldsAll(env, ms + [Test(t)], x) <==> HoldsAll(env, ms, x) && Holds(env, Test(t), x) by {
        assert forall m :: m in ms + [Test(t)] <==> m in ms || m == Test(t);
      }
    }
  }

  lemma AgreesRelative(ms: seq<Matcher>, leading: bool, c: Combinator, tokens: seq<Token>, r: Combinator, done: nat)
    requires Agrees(ms, leading, c, tokens)
    ensures Agrees([Step(ms, r, done)], leading, c, tokens + [Relative(r)])
  {
    forall env: Env, x: Node | env.Valid()
      ensures HoldsAll(env, [Step(ms, r, done)], x) <==> Selects(env, leading, c, tokens + [Relative(r)], x)
    {
      assert (tokens + [Relative(r)])[..|tokens|] == tokens;
      var m := Step(ms, r, done);
      assert HoldsAll(env, [m], x) <==> Holds(env, m, x) by { assert m in [m]; }
      assert forall y | y in Reach(env.dom, x, r, false) ::
        HoldsAll(env, ms, y) <==> Selects(env, leading, c, tokens, y);
    }
  }

  lemma AgreesContext(leading: bool, c: Combinator, one: nat, many: nat)
    ensures Agrees([Context(leading, c, one, many)], leading, c, [])
  {
    var m := Context(leading, c, one, many);
    forall env: Env, x: Node | env.Valid()
      ensures HoldsAll(env, [m], x) <==> Selects(env, leading, c, [], x)
    {
      assert HoldsAll(env, [m], x) <==> Holds(env, m, x) by { assert m in [m]; }
    }
  }

  /** matcherFromTokens, without positional filters. */
  method MatcherFromTokens(engine: Engine, tokens: seq<Token>) returns (ms: seq<Matcher>)
    requires tokens != []
    modifies engine`done
    ensures Compiled(ms, old(engine.done), engine.done)
    ensures Faithful(ms, tokens)
  {
    var leading := tokens[0].Relative?;
    var c := if leading then tokens[0].comb else DESCENDANT;
    var first := if leading then 1 else 0;
    var i := first;
    ms := [Context(leading, c, engine.done, engine.done + 1)];
    AgreesContext(leading, c, engine.done, engine.done + 1);
    engine.done := engine.done + 2;
    hide Agrees, Faithful;
    while i < |tokens|
      invariant first <= i <= |tokens|
      invariant old(engine.done) <= engine.done
      invariant Compiled(ms, old(engine.done), engine.done)
      invariant Agrees(ms, leading, c, tokens[first..i])
    {
      assert tokens[first..i + 1] == tokens[first..i] + [tokens[i]];
      match tokens[i] {
        case Relative(r) =>
          AgreesRelative(ms, leading, c, tokens[first..i], r, engine.done);
          ms := [Step(ms, r, engine.done)];
          engine.done := engine.done + 1;
        case Filter(t) =>
          AgreesFilter(ms, leading, c, tokens[first..i], t);
          ms := ms + [Test(t)];
      }
      i := i + 1;
    }
    assert tokens[first..|tokens|] == tokens[first..] && tokens[0..] == tokens;
    AgreesIsFaithful(ms, tokens);
  }

  lemma AgreesIsFaithful(ms: seq<Matcher>, tokens: seq<Token>)
    requires tokens != []
    requires match tokens[0]
             case Relative(r) => Agrees(ms, true, r, tokens[1..])
             case Filter(_) => Agrees(ms, false, DESCENDANT, tokens)
    ensures Faithful(ms, tokens)
  {
    hide HoldsAll, Selects;
  }

  /** A compiled selector group and its own run counter. */
  class Selector {
    const groups: seq<seq<Matcher>>
    const tokens: seq<seq<Token>>
    ghost const bounds: seq<nat>
    var matcherCachedRuns: nat

    /** compile: the groups are compiled from the last one to the first. */
    constructor (engine: Engine, tokens: seq<seq<Token>>)
      requires forall k | 0 <= k < |tokens| :: tokens[k] != []
      modifies engine`done
      ensures Valid() && this.tokens == tokens
    {
      var ms: seq<seq<Matcher>> := [];
      ghost var bs: seq<nat> := [engine.done];
      var i := |tokens|;
      while i > 0
        invariant 0 <= i <= |tokens| && |ms| == |tokens| - i && |bs| == |ms| + 1
        invariant bs[|ms|] == engine.done
        invariant forall k | 0 <= k < |ms| :: ms[k] != [] && Compiled(ms[k], bs[k], bs[k + 1])
        invariant forall k | 0 <= k < |ms| :: Faithful(ms[k], tokens[|tokens| - 1 - k])
        invariant forall j, k | 0 <= j <= k < |bs| :: bs[j] <= bs[k]
      {
        i := i - 1;
        var m := MatcherFromTokens(engine, tokens[i]);
        CompiledGrows(m, bs[|bs| - 1], engine.done);
        ms := ms + [m];
        bs := bs + [engine.done];
      }
      this.tokens, groups, bounds, matcherCachedRuns := tokens, ms, bs, 0;
    }

    ghost predicate Valid() {
      && |groups| == |tokens| && |bounds| == |groups| + 1
      && (forall k | 0 <= k < |tokens| :: tokens[k] != [])
      && (forall k | 0 <= k < |groups| :: groups[k] != [])
      && (forall k | 0 <= k < |groups| :: Compiled(groups[k], bounds[k], bounds[k + 1]))
      && (forall j, k | 0 <= j <= k < |bounds| :: bounds[j] <= bounds[k])
      && (forall k | 0 <= k < |groups| :: Faithful(groups[k], tokens[|groups| - 1 - k]))
    }
  }

  lemma CompiledGrows(ms: seq<Matcher>, lo: nat, hi: nat)
    requires Compiled(ms, lo, hi)
    ensures lo < hi
  {
  }

  /** A selector group selects what any of its members matches. */
  ghost predicate SelectsAny(env: Env, tokens: seq<seq<Token>>, x: Node)
    requires env.Valid() && forall k | 0 <= k < |tokens| :: tokens[k] != []
  {
    exists g | g in tokens :: Matches(env, g, x)
  }

  /** The elements, in order, that a selector group selects. */
  ghost function Chosen(env: Env, tokens: seq<seq<Token>>, elems: seq<Node>): seq<Node>
    requires env.Valid() && forall k | 0 <= k < |tokens| :: tokens[k] != []
  {
    if elems == [] then []
    else
      var last := elems[|elems| - 1];
      Chosen(env, tokens, elems[..|elems| - 1]) + if SelectsAny(env, tokens, last) then [last] else []
  }

  ghost predicate AllOk(env: Env, groups: seq<seq<Matcher>>, slots: Slots, run: nat, runs: nat, strong: bool)
    requires env.Valid() && forall k | 0 <= k < |groups| :: groups[k] != []
  {
    forall k | 0 <= k < |groups| :: SlotsOk(env, groups[k][0], slots, run, runs, strong)
  }

  /** A group's misses survive what another group, with doneNames of its own, does to the slots. */
  lemma OthersKeep(env: Env, m: Matcher, lo: nat, hi: nat, other: Matcher, lo': nat, hi': nat,
                   before: Slots, after: Slots, run: nat, runs: nat, x: Node)
    requires env.Valid() && CompiledFirst(m, lo, hi) && CompiledFirst(other, lo', hi') && (hi <= lo' || hi' <= lo)
    requires SlotsOk(env, m, before, run, runs, true) && Touched(before, after, run, other, x)
    ensures SlotsOk(env, m, after, run, runs, true)
  {
    forall n | Owner(m, n).Some? && Owner(other, n).Some?
      ensures false
    {
      OwnerInRange(m, lo, hi, n);
      OwnerInRange(other, lo', hi', n);
    }
  }

  /** Moving on to the next element makes every recorded miss an old one, so the weak reading is enough. */
  lemma NextRun(env: Env, m: Matcher, slots: Slots, run: nat, runs: nat, strong: bool)
    requires env.Valid() && SlotsOk(env, m, slots, run, runs, strong)
    ensures SlotsOk(env, m, slots, run, runs + 1, true)
  {
  }

  /** The element loop of superMatcher for an outermost run: whatever earlier runs left in the slots, on
      whatever tree, the cached matchers select exactly what the selectors mean. */
  method Run(engine: Engine, sel: Selector, dom: Tree, xml: bool, context: seq<Node>, single: bool, isDocument: bool,
             elems: seq<Node>) returns (results: seq<Node>)
    requires engine.Valid() && sel.Valid() && dom.Valid() && (single ==> |context| == 1)
    modifies engine`slots, engine`dirruns, engine`cachedruns, sel`matcherCachedRuns
    ensures engine.Valid()
    ensures results == Chosen(Env(dom, xml, context, single, !isDocument), sel.tokens, elems)
    ensures engine.dirruns == old(engine.dirruns) + 1
    ensures sel.matcherCachedRuns == old(sel.matcherCachedRuns) + |elems|
    ensures xml ==> engine.slots == old(engine.slots)
  {
    var env := Env(dom, xml, context, single, !isDocument);
    engine.dirruns := engine.dirruns + 1;
    engine.cachedruns := sel.matcherCachedRuns;
    results := [];
    var i := 0;
    while i < |elems|
      invariant 0 <= i <= |elems|
      invariant engine.Valid() && engine.dirruns == old(engine.dirruns) + 1
      invariant engine.cachedruns == sel.matcherCachedRuns == old(sel.matcherCachedRuns) + i
      invariant AllOk(env, sel.groups, engine.slots, engine.dirruns, engine.cachedruns, true)
      invariant results == Chosen(env, sel.tokens, elems[..i])
      invariant xml ==> engine.slots == old(engine.slots)
    {
      assert elems[..i + 1][..i] == elems[..i];
      var b := MatchAny(engine, sel, env, elems[i]);
      if b {
        results := results + [elems[i]];
      }
      sel.matcherCachedRuns := sel.matcherCachedRuns + 1;
      engine.cachedruns := sel.matcherCachedRuns;
      i := i + 1;
    }
    assert elems[..|elems|] == elems;
  }

  /** One element against every group, until one matches. The slots are then ready for the next element. */
  method MatchAny(engine: Engine, sel: Selector, env: Env, x: Node) returns (b: bool)
    requires engine.Valid() && sel.Valid() && env.Valid()
    requires AllOk(env, sel.groups, engine.slots, engine.dirruns, engine.cachedruns, true)
    modifies engine`slots
    ensures engine.Valid()
    ensures b == SelectsAny(env, sel.tokens, x)
    ensures AllOk(env, sel.groups, engine.slots, engine.dirruns, engine.cachedruns + 1, true)
    ensures env.xml ==> engine.slots == old(engine.slots)
  {
    var j := 0;
    while j < |sel.groups|
      invariant 0 <= j <= |sel.groups|
      invariant engine.Valid()
      invariant AllOk(env, sel.groups, engine.slots, engine.dirruns, engine.cachedruns, true)
      invariant forall k | 0 <= k < j :: !HoldsAll(env, sel.groups[k], x)
      invariant env.xml ==> engine.slots == old(engine.slots)
    {
      ghost var before := engine.slots;
      b := engine.MatchAll(env, sel.groups[j], x, sel.bounds[j], sel.bounds[j + 1]);
      forall k | 0 <= k < |sel.groups| && k != j
        ensures SlotsOk(env, sel.groups[k][0], engine.slots, engine.dirruns, engine.cachedruns, true)
      {
        OthersKeep(env, sel.groups[k][0], sel.bounds[k], sel.bounds[k + 1],
                   sel.groups[j][0], sel.bounds[j], sel.bounds[j + 1],
                   before, engine.slots, engine.dirruns, engine.cachedruns, x);
      }
      if b {
        assert Matches(env, sel.tokens[|sel.groups| - 1 - j], x);
        forall k | 0 <= k < |sel.groups|
          ensures SlotsOk(env, sel.groups[k][0], engine.slots, engine.dirruns, engine.cachedruns + 1, true)
        {
          NextRun(env, sel.groups[k][0], engine.slots, engine.dirruns, engine.cachedruns, k != j);
        }
        return;
      }
      j := j + 1;
    }
    forall k | 0 <= k < |sel.groups|
      ensures SlotsOk(env, sel.groups[k][0], engine.slots, engine.dirruns, engine.cachedruns + 1, true)
    {
      NextRun(env, sel.groups[k][0], engine.slots, engine.dirruns, engine.cachedruns, true);
    }
    forall g | g in sel.tokens
      ensures !Matches(env, g, x)
    {
      var k :| 0 <= k < |sel.tokens| && sel.tokens[k] == g;
      assert !HoldsAll(env, sel.groups[|sel.groups| - 1 - k], x);
    }
    b := false;
  }

  /** The context check aside, the XML walk and the HTML walk pick the same nodes; XML skips that check, so
      it can only select more. */
  lemma {:induction false} XmlSelectsMore(html: Env, leading: bool, c: Combinator, tokens: seq<Token>, x: Node)
    requires html.Valid() && !html.xml
    ensures Selects(html, leading, c, tokens, x) ==> Selects(html.(xml := true), leading, c, tokens, x)
    ensures leading || !html.outermost ==>
              (Selects(html, leading, c, tokens, x) <==> Selects(html.(xml := true), leading, c, tokens, x))
    decreases |tokens|
  {
    if tokens != [] {
      var rest := tokens[..|tokens| - 1];
      match tokens[|tokens| - 1]
      case Filter(_) => XmlSelectsMore(html, leading, c, rest, x);
      case Relative(r) =>
        forall y | y in Reach(html.dom, x, r, false) {
          XmlSelectsMore(html, leading, c, rest, y);
        }
    }
  }

  /** Exactly: the XML walk selects what the HTML walk selects once its context check is left out. */
  lemma {:induction false} XmlIsUnscoped(html: Env, leading: bool, c: Combinator, tokens: seq<Token>, x: Node)
    requires html.Valid() && !html.xml
    ensures Selects(html.(xml := true), leading, c, tokens, x)
      <==> Selects(html.(outermost := false), leading, c, tokens, x)
    decreases |tokens|
  {
    if tokens != [] {
      var rest := tokens[..|tokens| - 1];
      match tokens[|tokens| - 1]
      case Filter(_) => XmlIsUnscoped(html, leading, c, rest, x);
      case Relative(r) =>
        forall y | y in Reach(html.dom, x, r, false) {
          XmlIsUnscoped(html, leading, c, rest, y);
        }
    }
  }

  /** On XML and HTML documents the engine chooses the same elements whenever the context is the document or
      every selector starts with a combinator. */
  lemma CachedAgreesWithPlain(html: Env, tokens: seq<seq<Token>>, elems: seq<Node>)
    requires html.Valid() && !html.xml && forall k | 0 <= k < |tokens| :: tokens[k] != []
    requires !html.outermost || forall k | 0 <= k < |tokens| :: tokens[k][0].Relative?
    ensures Chosen(html, tokens, elems) == Chosen(html.(xml := true), tokens, elems)
  {
    forall g: seq<Token>, x: Node | g in tokens && x in elems
      ensures Matches(html, g, x) <==> Matches(html.(xml := true), g, x)
    {
      match g[0]
      case Relative(r) => XmlSelectsMore(html, true, r, g[1..], x);
      case Filter(_) => XmlSelectsMore(html, false, DESCENDANT, g, x);
    }
    ChosenAlike(html, html.(xml := true), tokens, elems);
  }

  lemma {:induction false} ChosenAlike(env: Env, other: Env, tokens: seq<seq<Token>>, elems: seq<Node>)
    requires env.Valid() && other.Valid() && forall k | 0 <= k < |tokens| :: tokens[k] != []
    requires forall g, x | g in tokens && x in elems :: Matches(env, g, x) <==> Matches(other, g, x)
    ensures Chosen(env, tokens, elems) == Chosen(other, tokens, elems)
    decreases |elems|
  {
    if elems != [] {
      var n := |elems| - 1;
      assert elems[n] in elems;
      ChosenAlike(env, other, tokens, elems[..n]);
    }
  }

  /** A node is not one of its own ancestors or preceding siblings, so in a context that consists of x alone
      nothing at or before x is ever selected. */
  lemma {:induction false} SelfIsNoContext(html: Env, leading: bool, c: Combinator, tokens: seq<Token>, x: Node,
                                           y: Node)
    requires html.Valid() && !html.xml && html.outermost && html.context == [x] && y <= x
    ensures !Selects(html, leading, c, tokens, y)
    decreases |tokens|
  {
    if tokens != [] {
      var rest := tokens[..|tokens| - 1];
      match tokens[|tokens| - 1]
      case Filter(_) => SelfIsNoContext(html, leading, c, rest, x, y);
      case Relative(r) =>
        forall z | z in Reach(html.dom, y, r, false) {
          SelfIsNoContext(html, leading, c, rest, x, z);
        }
    }
  }

  /** Without the check the context is never looked at. */
  lemma {:induction false} UnscopedAnywhere(env: Env, other: Env, tokens: seq<Token>, x: Node)
    requires env.Valid() && other.Valid() && !env.outermost && !other.outermost && env.dom == other.dom
    ensures Selects(env, false, DESCENDANT, tokens, x) <==> Selects(other, false, DESCENDANT, tokens, x)
    decreases |tokens|
  {
    if tokens != [] {
      var rest := tokens[..|tokens| - 1];
      match tokens[|tokens| - 1]
      case Filter(_) => UnscopedAnywhere(env, other, rest, x);
      case Relative(r) =>
        forall y | y in Reach(env.dom, x, r, false) {
          UnscopedAnywhere(env, other, rest, y);
        }
    }
  }

  /** Run against x alone, a selector that fits x and does not start with a combinator is selected by the
      plain walk only. */
  lemma ScopeMatters(html: Env, g: seq<Token>, x: Node)
    requires html.Valid() && !html.xml && html.outermost && html.context == [x]
    requires g != [] && g[0].Filter? && Matches(html.(outermost := false), g, x)
    ensures !Matches(html, g, x) && Matches(html.(xml := true), g, x)
  {
    SelfIsNoContext(html, false, DESCENDANT, g, x, x);
    XmlIsUnscoped(html, false, DESCENDANT, g, x);
  }

  /** The selector is relative to its context, or selects nothing on this tree whatever the context. */
  ghost predicate NeedsNoScope(html: Env, g: seq<Token>)
    requires html.Valid() && g != []
  {
    g[0].Relative? || forall x :: !Matches(html.(outermost := false), g, x)
  }

  ghost predicate AgreesOn(html: Env, tokens: seq<seq<Token>>, context: seq<Node>, elems: seq<Node>)
    requires html.dom.Valid() && forall k | 0 <= k < |tokens| :: tokens[k] != []
  {
    var env := html.(context := context, single := |context| == 1);
    Chosen(env, tokens, elems) == Chosen(env.(xml := true), tokens, elems)
  }

  /** Exactly: on a tree the outermost runs of both walks choose the same elements, for every context and every
      list of elements, when no selector of the group needs to be kept inside its context. */
  lemma AgreesExactly(html: Env, tokens: seq<seq<Token>>)
    requires html.Valid() && !html.xml && html.outermost && forall k | 0 <= k < |tokens| :: tokens[k] != []
    ensures (forall context, elems :: AgreesOn(html, tokens, context, elems)) <==>
            forall g | g in tokens :: NeedsNoScope(html, g)
  {
    if g: seq<Token> :| g in tokens && !NeedsNoScope(html, g) {
      var x: Node :| Matches(html.(outermost := false), g, x);
      ScopeIsLost(html, tokens, g, x);
      assert !AgreesOn(html, tokens, [x], [x]);
    } else {
      forall context: seq<Node>, elems: seq<Node>
        ensures AgreesOn(html, tokens, context, elems)
      {
        ScopeUnneeded(html, tokens, html.(context := context, single := |context| == 1), elems);
      }
    }
  }

  lemma ScopeUnneeded(html: Env, tokens: seq<seq<Token>>, env: Env, elems: seq<Node>)
    requires html.Valid() && env.Valid() && !env.xml && html.dom == env.dom
    requires forall k | 0 <= k < |tokens| :: tokens[k] != []
    requires forall g | g in tokens :: NeedsNoScope(html, g)
    ensures Chosen(env, tokens, elems) == Chosen(env.(xml := true), tokens, elems)
  {
    forall g: seq<Token>, x: Node | g in tokens && x in elems
      ensures Matches(env, g, x) <==> Matches(env.(xml := true), g, x)
    {
      if g[0].Relative? {
        XmlSelectsMore(env, true, g[0].comb, g[1..], x);
      } else {
        assert !Matches(html.(outermost := false), g, x);
        UnscopedAnywhere(env.(outermost := false), html.(outermost := false), g, x);
        XmlIsUnscoped(env, false, DESCENDANT, g, x);
        XmlSelectsMore(env, false, DESCENDANT, g, x);
      }
    }
    ChosenAlike(env, env.(xml := true), tokens, elems);
  }

  lemma ScopeIsLost(html: Env, tokens: seq<seq<Token>>, g: seq<Token>, x: Node)
    requires html.Valid() && !html.xml && html.outermost && forall k | 0 <= k < |tokens| :: tokens[k] != []
    requires g in tokens && g[0].Filter? && Matches(html.(outermost := false), g, x)
    ensures var env := html.(context := [x], single := true);
            Chosen(env, tokens, [x]) == [] && Chosen(env.(xml := true), tokens, [x]) == [x]
  {
    var env := html.(context := [x], single := true);
    UnscopedAnywhere(env.(outermost := false), html.(outermost := false), g, x);
    ScopeMatters(env, g, x);
    forall h: seq<Token> | h in tokens
      ensures !Matches(env, h, x)
    {
      SelfIsNoContext(env, true, if h[0].Relative? then h[0].comb else DESCENDANT, h[1..], x, x);
      SelfIsNoContext(env, false, DESCENDANT, h, x, x);
    }
    assert [x][..0] == [];
    assert !SelectsAny(env, tokens, x) && SelectsAny(env.(xml := true), tokens, x);
  }

  /** An instance: the selector "*" run against a context that is a leaf selects the leaf itself on XML
      documents but not on HTML documents. */
  lemma XmlIsNotScoped(any: Node -> bool)
    requires any(0)
    ensures var html := Env(Tree(map[], map[], map[], {0}), false, [0], true, true);
            html.Valid() && !Matches(html, [Filter(any)], 0) && Matches(html.(xml := true), [Filter(any)], 0)
  {
    var html := Env(Tree(map[], map[], map[], {0}), false, [0], true, true);
    assert [Filter(any)][..0] == [];
    ScopeMatters(html, [Filter(any)], 0);
  }
}
