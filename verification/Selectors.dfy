/** What a selector means: tokens, the compiled matcher chain, and their declarative semantics. */
module Selectors {
  import opened Dom
  import opened Options

  datatype Combinator = Combinator(dir: Dir, first: bool)

  const DESCENDANT := Combinator(ParentNode, false)

  /** A filter token carries its compiled test, a pure predicate on nodes. */
  datatype Token = Relative(comb: Combinator) | Filter(test: Node -> bool)

  /** A compiled matcher: the context check every chain starts from (two cached walks, `one` for a single
      context node and `many` for a collection), a combinator applied to an inner matcher list, or a filter.
      The numbers are the doneNames that tag cache slots. */
  datatype Matcher =
    | Context(leading: bool, comb: Combinator, one: nat, many: nat)
    | Step(inner: seq<Matcher>, comb: Combinator, done: nat)
    | Test(test: Node -> bool)

  /** The arguments every matcher receives. `single` is context.nodeType, `outermost` says that
      context === outermostContext. */
  datatype Env = Env(dom: Tree, xml: bool, context: seq<Node>, single: bool, outermost: bool) {
    ghost predicate Valid() {
      dom.Valid() && (single ==> |context| == 1)
    }
  }

  /** The nodes a combinator offers its inner matcher. */
  function Reach(dom: Tree, x: Node, c: Combinator, any: bool): (r: set<Node>)
    requires dom.Valid()
    ensures forall y | y in r :: y < x
  {
    if c.first then
      match dom.Closest(x, c.dir, any)
      case None => {}
      case Some(y) => {y}
    else
      set y | y in dom.Above(x, c.dir) && (any || y in dom.elements)
  }

  /** Only the base matcher looks at non-elements, and only on the way to the root. */
  predicate ChecksNonElements(c: Combinator) {
    c.dir == ParentNode
  }

  /** The condition under which the base matcher skips the context check. */
  predicate SkipsContext(env: Env, leading: bool) {
    !leading && (env.xml || !env.outermost)
  }

  ghost predicate ContextHolds(env: Env, leading: bool, c: Combinator, x: Node)
    requires env.Valid()
  {
    SkipsContext(env, leading) || exists y | y in Reach(env.dom, x, c, ChecksNonElements(c)) :: y in env.context
  }

  /** Selector semantics on tokens, read right to left: the reference the matcher machinery is proved against. */
  ghost predicate Selects(env: Env, leading: bool, c: Combinator, tokens: seq<Token>, x: Node)
    requires env.Valid()
    decreases |tokens|
  {
    if tokens == [] then ContextHolds(env, leading, c, x)
    else
      var rest := tokens[..|tokens| - 1];
      match tokens[|tokens| - 1]
      case Filter(t) => t(x) && Selects(env, leading, c, rest, x)
      case Relative(r) => exists y | y in Reach(env.dom, x, r, false) :: Selects(env, leading, c, rest, y)
  }

  /** A complex selector may start with a combinator, which then relates the subject to the context. */
  ghost predicate Matches(env: Env, tokens: seq<Token>, x: Node)
    requires env.Valid() && tokens != []
  {
    match tokens[0]
    case Relative(r) => Selects(env, true, r, tokens[1..], x)
    case Filter(_) => Selects(env, false, DESCENDANT, tokens, x)
  }

  /** What a compiled matcher computes when nothing is cached. */
  ghost predicate Holds(env: Env, m: Matcher, x: Node)
    requires env.Valid()
    decreases m, 0
  {
    match m
    case Context(leading, c, _, _) => ContextHolds(env, leading, c, x)
    case Step(inner, c, _) => exists y | y in Reach(env.dom, x, c, false) :: HoldsAll(env, inner, y)
    case Test(t) => t(x)
  }

  ghost predicate HoldsAll(env: Env, ms: seq<Matcher>, x: Node)
    requires env.Valid()
    decreases ms, 1
  {
    forall m | m in ms :: Holds(env, m, x)
  }

  /** What a walk looks for above its start. */
  ghost predicate Target(env: Env, m: Matcher, y: Node)
    requires env.Valid()
  {
    match m
    case Context(_, _, _, _) => y in env.context
    case Step(inner, _, _) => HoldsAll(env, inner, y)
    case Test(t) => t(y)
  }

  predicate Eligible(dom: Tree, m: Matcher, y: Node) {
    y in dom.elements || (m.Context? && ChecksNonElements(m.comb))
  }

  /** The walk of matcher `m` from x should return this. */
  ghost predicate Found(env: Env, m: Matcher, x: Node)
    requires env.Valid() && !m.Test?
  {
    exists y | y in Reach(env.dom, x, m.comb, m.Context? && ChecksNonElements(m.comb)) :: Target(env, m, y)
  }

  /** The shape matcherFromTokens builds: the combinator (or context check) at index 0, filters after it,
      doneNames growing outwards within [lo, hi). */
  ghost predicate Compiled(ms: seq<Matcher>, lo: nat, hi: nat)
    decreases ms, 1
  {
    && |ms| > 0
    && (forall i | 1 <= i < |ms| :: ms[i].Test?)
    && CompiledFirst(ms[0], lo, hi)
  }

  ghost predicate CompiledFirst(m: Matcher, lo: nat, hi: nat)
    decreases m, 0
  {
    match m
    case Context(_, _, one, many) => lo <= one < many < hi
    case Step(inner, _, done) => lo <= done < hi && inner != [] && Compiled(inner, lo, done)
    case Test(_) => false
  }

  /** The doneNames under which m itself writes. */
  predicate Owns(m: Matcher, n: nat) {
    match m
    case Context(_, _, one, many) => n == one || n == many
    case Step(_, _, done) => n == done
    case Test(_) => false
  }

  /** The matcher, m or one inside it, whose cache entries carry doneName n. */
  ghost function Owner(m: Matcher, n: nat): Option<Matcher>
    decreases m
  {
    if Owns(m, n) then Some(m)
    else if m.Step? && m.inner != [] then Owner(m.inner[0], n)
    else None
  }

  lemma {:induction false} OwnerInRange(m: Matcher, lo: nat, hi: nat, n: nat)
    requires CompiledFirst(m, lo, hi) && Owner(m, n).Some?
    ensures lo <= n < hi
    ensures !Owner(m, n).value.Test?
    decreases m
  {
    if !Owns(m, n) {
      OwnerInRange(m.inner[0], lo, m.done, n);
    }
  }
}
