/** Sizzle's matching engine: cached combinator walks and the run counters that make them sound. */
module Sizzle {
  import opened Dom
  import opened Options
  import opened Selectors

  /** The second element of a cache slot: not yet assigned, true, or the cachedruns value at the time of a miss. */
  datatype Data = Unset | Hit | Miss(runs: nat)

  /** A cache slot: its dirkey (dirruns and doneName) and its data. */
  datatype Entry = Entry(run: nat, done: nat, data: Data)

  /** elem[expando][dir] */
  datatype Key = Key(node: Node, dir: Dir)
  type Slots = map<Key, Entry>

  /** An entry is right for its matcher: a hit is a hit, a miss is a miss, and a miss of the current
      cachedruns (claimed only when `strong`) means that nothing further up matches either. */
  ghost predicate EntryOk(env: Env, m: Matcher, y: Node, dir: Dir, data: Data, runs: nat, strong: bool)
    requires env.Valid() && !m.Test?
  {
    && dir == m.comb.dir
    && match data {
         case Unset => false
         case Hit => Target(env, m, y)
         case Miss(n) => n <= runs && !Target(env, m, y) && (strong && n == runs ==> NoneAbove(env, m, y))
       }
  }

  ghost predicate NoneAbove(env: Env, m: Matcher, y: Node)
    requires env.Valid() && !m.Test?
  {
    forall z | z in env.dom.Above(y, m.comb.dir) && Eligible(env.dom, m, z) :: !Target(env, m, z)
  }

  /** Every slot written in this run by m or a matcher inside it is right. */
  ghost predicate SlotsOk(env: Env, m: Matcher, slots: Slots, run: nat, runs: nat, strong: bool)
    requires env.Valid()
  {
    forall k | k in slots && slots[k].run == run && Owner(m, slots[k].done).Some? ::
      !Owner(m, slots[k].done).value.Test? &&
      EntryOk(env, Owner(m, slots[k].done).value, k.node, k.dir, slots[k].data, runs, strong)
  }

  /** Below x, slots may have been rewritten by m or a matcher inside it; all others are as before. */
  ghost predicate Touched(before: Slots, after: Slots, run: nat, m: Matcher, x: Node) {
    && (forall k | k in before :: k in after && (k.node >= x ==> after[k] == before[k]))
    && (forall k | k in after ::
          || (k in before && after[k] == before[k])
          || (k.node < x && after[k].run == run && Owner(m, after[k].done).Some?))
  }

  /** Misses that m itself has recorded under the current cachedruns: the walk in progress still vouches for
      the nodes in `passed`; for all others nothing further up matches. */
  ghost predicate OwnMisses(env: Env, m: Matcher, slots: Slots, run: nat, runs: nat, passed: set<Node>)
    requires env.Valid() && !m.Test?
  {
    forall k | k in slots && slots[k].run == run && Owns(m, slots[k].done) && slots[k].data == Miss(runs) ::
      k.node in passed || NoneAbove(env, m, k.node)
  }

  /** The strong reading of the slots is the weak one plus the promise about misses, level by level. */
  lemma Strengthen(env: Env, m: Matcher, slots: Slots, run: nat, runs: nat, lo: nat, hi: nat)
    requires env.Valid() && CompiledFirst(m, lo, hi)
    requires SlotsOk(env, m, slots, run, runs, false)
    requires m.Step? ==> SlotsOk(env, m.inner[0], slots, run, runs, true)
    requires OwnMisses(env, m, slots, run, runs, {})
    ensures SlotsOk(env, m, slots, run, runs, true)
  {
  }

  lemma Weaken(env: Env, m: Matcher, slots: Slots, run: nat, runs: nat, lo: nat, hi: nat)
    requires env.Valid() && CompiledFirst(m, lo, hi)
    requires SlotsOk(env, m, slots, run, runs, true)
    ensures SlotsOk(env, m, slots, run, runs, false)
    ensures m.Step? ==> SlotsOk(env, m.inner[0], slots, run, runs, true)
    ensures OwnMisses(env, m, slots, run, runs, {})
  {
    if m.Step? {
      forall k | k in slots && slots[k].run == run && Owner(m.inner[0], slots[k].done).Some?
        ensures !Owns(m, slots[k].done)
      {
        OwnerInRange(m.inner[0], lo, m.done, slots[k].done);
      }
    }
  }

  /** Whatever the inner matcher does to the slots while it looks at y, m's own entries survive. */
  lemma ProbeKeeps(env: Env, m: Matcher, before: Slots, after: Slots, run: nat, runs: nat, y: Node, b: bool,
                   passed: set<Node>, lo: nat, hi: nat)
    requires env.Valid() && CompiledFirst(m, lo, hi) && m.Step?
    requires SlotsOk(env, m, before, run, runs, false) && OwnMisses(env, m, before, run, runs, passed)
    requires Touched(before, after, run, m.inner[0], y)
    requires SlotsOk(env, m.inner[0], after, run, runs, !b)
    ensures SlotsOk(env, m, after, run, runs, false)
    ensures OwnMisses(env, m, after, run, runs, passed)
  {
    forall k | k in after && Owner(m.inner[0], after[k].done).Some?
      ensures !Owns(m, after[k].done)
    {
      OwnerInRange(m.inner[0], lo, m.done, after[k].done);
    }
  }

  lemma ReserveKeeps(env: Env, m: Matcher, slots: Slots, run: nat, runs: nat, name: nat, u: Node, lo: nat, hi: nat)
    requires env.Valid() && CompiledFirst(m, lo, hi) && Owns(m, name) && m.Step?
    requires SlotsOk(env, m.inner[0], slots, run, runs, true)
    ensures SlotsOk(env, m.inner[0], slots[Key(u, m.comb.dir) := Entry(run, name, Unset)], run, runs, true)
  {
    if Owner(m.inner[0], name).Some? {
      OwnerInRange(m.inner[0], lo, m.done, name);
    }
  }

  lemma TouchedTrans(a: Slots, b: Slots, c: Slots, run: nat, m: Matcher, x: Node)
    requires Touched(a, b, run, m, x) && Touched(b, c, run, m, x)
    ensures Touched(a, c, run, m, x)
  {
  }

  /** Where m stands when its inner matcher has answered for u: the slot of u was reserved before, and the inner
      matcher may have written anything it owns below u. */
  ghost predicate Probed(env: Env, m: Matcher, before: Slots, after: Slots, run: nat, runs: nat, name: nat, u: Node,
                         hit: bool, passed: set<Node>, lo: nat, hi: nat) {
    && env.Valid() && CompiledFirst(m, lo, hi) && Owns(m, name)
    && hit == Target(env, m, u)
    && SlotsOk(env, m, before, run, runs, false) && OwnMisses(env, m, before, run, runs, passed)
    && var reserved := before[Key(u, m.comb.dir) := Entry(run, name, Unset)];
       if m.Step? then
         && Touched(reserved, after, run, m.inner[0], u)
         && SlotsOk(env, m.inner[0], after, run, runs, !hit)
       else after == reserved
  }

  /** Names that the inner matcher owns are not m's own. */
  lemma OthersNames(m: Matcher, lo: nat, hi: nat)
    requires CompiledFirst(m, lo, hi) && m.Step?
    ensures forall n | Owner(m.inner[0], n).Some? :: !Owns(m, n)
  {
    forall n | Owner(m.inner[0], n).Some?
      ensures !Owns(m, n)
    {
      OwnerInRange(m.inner[0], lo, m.done, n);
    }
  }

  lemma WrittenSlots(env: Env, m: Matcher, before: Slots, after: Slots, run: nat, runs: nat, name: nat, u: Node,
                     hit: bool, passed: set<Node>, lo: nat, hi: nat)
    requires Probed(env, m, before, after, run, runs, name, u, hit, passed, lo, hi)
    ensures var written := after[Key(u, m.comb.dir) := Entry(run, name, if hit then Hit else Miss(runs))];
            && SlotsOk(env, m, written, run, runs, false)
            && (m.Step? && !hit ==> SlotsOk(env, m.inner[0], written, run, runs, true))
  {
    if m.Step? {
      OthersNames(m, lo, hi);
    }
  }

  lemma WrittenMisses(env: Env, m: Matcher, before: Slots, after: Slots, run: nat, runs: nat, name: nat, u: Node,
                      hit: bool, passed: set<Node>, lo: nat, hi: nat)
    requires Probed(env, m, before, after, run, runs, name, u, hit, passed, lo, hi)
    ensures var written := after[Key(u, m.comb.dir) := Entry(run, name, if hit then Hit else Miss(runs))];
            OwnMisses(env, m, written, run, runs, passed + {u})
  {
    hide SlotsOk;
    if m.Step? {
      OthersNames(m, lo, hi);
    }
  }

  lemma WrittenTouched(env: Env, m: Matcher, before: Slots, after: Slots, run: nat, runs: nat, name: nat, u: Node,
                       hit: bool, passed: set<Node>, lo: nat, hi: nat, x: Node)
    requires Probed(env, m, before, after, run, runs, name, u, hit, passed, lo, hi) && u < x
    ensures var written := after[Key(u, m.comb.dir) := Entry(run, name, if hit then Hit else Miss(runs))];
            Touched(before, written, run, m, x)
  {
    hide SlotsOk, OwnMisses;
    if m.Step? {
      OthersNames(m, lo, hi);
    }
  }

  /** A miss at u, written back into the slot reserved for it, keeps every promise about the slots. */
  lemma WriteBack(env: Env, m: Matcher, before: Slots, after: Slots, run: nat, runs: nat, name: nat, u: Node, hit: bool,
                  passed: set<Node>, lo: nat, hi: nat)
    requires env.Valid() && CompiledFirst(m, lo, hi) && Owns(m, name)
    requires hit == Target(env, m, u)
    requires SlotsOk(env, m, before, run, runs, false) && OwnMisses(env, m, before, run, runs, passed)
    requires var reserved := before[Key(u, m.comb.dir) := Entry(run, name, Unset)];
             if m.Step? then
               && Touched(reserved, after, run, m.inner[0], u)
               && SlotsOk(env, m.inner[0], after, run, runs, !hit)
             else after == reserved
    ensures var written := after[Key(u, m.comb.dir) := Entry(run, name, if hit then Hit else Miss(runs))];
            && SlotsOk(env, m, written, run, runs, false)
            && OwnMisses(env, m, written, run, runs, passed + {u})
            && (m.Step? && !hit ==> SlotsOk(env, m.inner[0], written, run, runs, true))
            && forall x | u < x :: Touched(before, written, run, m, x)
  {
    assert Probed(env, m, before, after, run, runs, name, u, hit, passed, lo, hi);
    hide Probed, SlotsOk, OwnMisses, Touched, CompiledFirst, Owns, Target;
    WrittenSlots(env, m, before, after, run, runs, name, u, hit, passed, lo, hi);
    WrittenMisses(env, m, before, after, run, runs, name, u, hit, passed, lo, hi);
    var written := after[Key(u, m.comb.dir) := Entry(run, name, if hit then Hit else Miss(runs))];
    forall x | u < x
      ensures Touched(before, written, run, m, x)
    {
      WrittenTouched(env, m, before, after, run, runs, name, u, hit, passed, lo, hi, x);
    }
  }

  /** Once everything above x is known to fail, the nodes passed on the way need no special treatment. */
  lemma WalkEnds(env: Env, m: Matcher, x: Node, slots: Slots, run: nat, runs: nat, passed: set<Node>)
    requires env.Valid() && !m.Test? && passed <= env.dom.Above(x, m.comb.dir)
    requires NoneAbove(env, m, x)
    requires OwnMisses(env, m, slots, run, runs, passed)
    ensures OwnMisses(env, m, slots, run, runs, {})
  {
    forall y | y in passed
      ensures NoneAbove(env, m, y)
    {
      env.dom.AboveTrans(x, y, m.comb.dir);
    }
  }

  /** The invariant of the cached walk of m from x: it has reached e, and the nodes in `passed` all failed. */
  ghost predicate Walking(env: Env, m: Matcher, x: Node, e: Option<Node>, passed: set<Node>, slots: Slots, run: nat,
                          runs: nat)
    requires env.Valid() && !m.Test?
  {
    && env.dom.From(e, m.comb.dir) <= env.dom.Above(x, m.comb.dir)
    && passed == env.dom.Above(x, m.comb.dir) - env.dom.From(e, m.comb.dir)
    && (forall z | z in passed && Eligible(env.dom, m, z) :: !Target(env, m, z))
    && SlotsOk(env, m, slots, run, runs, false)
    && (m.Step? ==> m.inner != [] && SlotsOk(env, m.inner[0], slots, run, runs, true))
    && OwnMisses(env, m, slots, run, runs, passed)
  }

  lemma WalkStarts(env: Env, m: Matcher, x: Node, slots: Slots, run: nat, runs: nat, lo: nat, hi: nat)
    requires env.Valid() && CompiledFirst(m, lo, hi) && SlotsOk(env, m, slots, run, runs, true)
    ensures Walking(env, m, x, env.dom.Up(x, m.comb.dir), {}, slots, run, runs)
  {
    Weaken(env, m, slots, run, runs, lo, hi);
  }

  /** The node u the walk had reached with slots `before` fails; the slots are now `after`. */
  lemma WalkAdvances(env: Env, m: Matcher, x: Node, u: Node, passed: set<Node>, before: Slots, after: Slots, run: nat,
                     runs: nat)
    requires env.Valid() && !m.Test? && Walking(env, m, x, Some(u), passed, before, run, runs)
    requires Eligible(env.dom, m, u) ==> !Target(env, m, u)
    requires SlotsOk(env, m, after, run, runs, false)
    requires m.Step? ==> SlotsOk(env, m.inner[0], after, run, runs, true)
    requires OwnMisses(env, m, after, run, runs, passed + {u})
    ensures Walking(env, m, x, env.dom.Up(u, m.comb.dir), passed + {u}, after, run, runs)
  {
    assert u !in env.dom.Above(u, m.comb.dir);
  }

  /** The walk fails, at the root or at a node that the current run has already vouched for. */
  lemma WalkFails(env: Env, m: Matcher, x: Node, e: Option<Node>, passed: set<Node>, slots: Slots, run: nat, runs: nat,
                  lo: nat, hi: nat)
    requires env.Valid() && CompiledFirst(m, lo, hi) && !m.comb.first
    requires Walking(env, m, x, e, passed, slots, run, runs)
    requires e.Some? ==> NoneAbove(env, m, e.value) && !Target(env, m, e.value)
    ensures !Found(env, m, x) && SlotsOk(env, m, slots, run, runs, true)
  {
    assert NoneAbove(env, m, x);
    WalkEnds(env, m, x, slots, run, runs, passed);
    Strengthen(env, m, slots, run, runs, lo, hi);
  }

  lemma HoldsIsFound(env: Env, m: Matcher, x: Node)
    requires env.Valid() && !m.Test?
    ensures Holds(env, m, x) <==> (m.Context? && SkipsContext(env, m.leading)) || Found(env, m, x)
  {
    if m.Step? {
      assert forall y | y in Reach(env.dom, x, m.comb, false) :: HoldsAll(env, m.inner, y) <==> Target(env, m, y);
    } else {
      assert forall y | y in Reach(env.dom, x, m.comb, ChecksNonElements(m.comb)) ::
        y in env.context <==> Target(env, m, y);
    }
  }

  /** The three counters and the expando slots that all compiled matchers share. */
  class Engine {
    var dirruns: nat
    var cachedruns: nat
    var done: nat
    var slots: Slots

    constructor ()
      ensures Valid() && dirruns == 0 && done == 0
    {
      dirruns, cachedruns, done, slots := 0, 0, 0, map[];
    }

    /** No slot is tagged with a run that has not started. */
    ghost predicate Valid()
      reads this
    {
      forall k | k in slots :: slots[k].run <= dirruns
    }

    ghost predicate Ok(env: Env, m: Matcher, strong: bool)
      reads this
      requires env.Valid()
    {
      SlotsOk(env, m, slots, dirruns, cachedruns, strong)
    }

    /** elementMatcher: filters first, from the last one down, and the combinator at index 0 at the very end. */
    method MatchAll(env: Env, ms: seq<Matcher>, x: Node, ghost lo: nat, ghost hi: nat) returns (b: bool)
      requires env.Valid() && Compiled(ms, lo, hi) && Ok(env, ms[0], true)
      modifies this`slots
      ensures b == HoldsAll(env, ms, x)
      ensures Touched(old(slots), slots, dirruns, ms[0], x)
      ensures Ok(env, ms[0], !b)
      ensures env.xml ==> slots == old(slots)
      decreases x, 2
    {
      var i := |ms|;
      while i > 1
        invariant 1 <= i <= |ms|
        invariant slots == old(slots)
        invariant forall j | i <= j < |ms| :: Holds(env, ms[j], x)
      {
        i := i - 1;
        if !ms[i].test(x) {
          assert !Holds(env, ms[i], x);
          return false;
        }
      }
      b := MatchFirst(env, ms[0], x, lo, hi);
      assert forall m | m in ms && m != ms[0] :: Holds(env, m, x);
    }

    /** The matcher at index 0: a context check or a combinator. */
    method MatchFirst(env: Env, m: Matcher, x: Node, ghost lo: nat, ghost hi: nat) returns (b: bool)
      requires env.Valid() && CompiledFirst(m, lo, hi) && Ok(env, m, true)
      modifies this`slots
      ensures b == Holds(env, m, x)
      ensures Touched(old(slots), slots, dirruns, m, x)
      ensures Ok(env, m, !b)
      ensures env.xml ==> slots == old(slots)
      decreases x, 1
    {
      if m.Context? && SkipsContext(env, m.leading) {
        return true;
      }
      HoldsIsFound(env, m, x);
      var name := if m.Step? then m.done else if env.single then m.one else m.many;
      if m.comb.first {
        b := WalkFirst(env, m, x, lo, hi);
      } else if env.xml {
        b := WalkPlain(env, m, x, lo, hi);
      } else {
        b := WalkCached(env, m, name, x, lo, hi);
      }
    }

    /** The call matcher( elem, context, xml ) a walk makes at y. */
    method Probe(env: Env, m: Matcher, y: Node, ghost lo: nat, ghost hi: nat) returns (b: bool)
      requires env.Valid() && CompiledFirst(m, lo, hi)
      requires m.Step? ==> Ok(env, m.inner[0], true)
      modifies this`slots
      ensures b == Target(env, m, y)
      ensures m.Context? || env.xml ==> slots == old(slots)
      ensures m.Step? ==> Touched(old(slots), slots, dirruns, m.inner[0], y) && Ok(env, m.inner[0], !b)
      decreases y, 3
    {
      if m.Step? {
        b := MatchAll(env, m.inner, y, lo, m.done);
      } else {
        b := if env.single then y == env.context[0] else y in env.context;
      }
    }

    /** The closest-only walk of `>` and `+`. */
    method WalkFirst(env: Env, m: Matcher, x: Node, ghost lo: nat, ghost hi: nat) returns (b: bool)
      requires env.Valid() && CompiledFirst(m, lo, hi) && Ok(env, m, true) && m.comb.first
      modifies this`slots
      ensures b == Found(env, m, x)
      ensures Touched(old(slots), slots, dirruns, m, x)
      ensures Ok(env, m, !b)
      ensures env.xml ==> slots == old(slots)
      decreases x, 0
    {
      ghost var any := m.Context? && ChecksNonElements(m.comb);
      var e: Option<Node> := env.dom.Up(x, m.comb.dir);
      while e.Some?
        invariant e.Some? ==> e.value < x
        invariant env.dom.Closest(x, m.comb.dir, any) ==
                  match e case None => None
                          case Some(u) => if Eligible(env.dom, m, u) then e else env.dom.Closest(u, m.comb.dir, any)
        invariant slots == old(slots)
        decreases if e.Some? then e.value + 1 else 0
      {
        var u := e.value;
        if Eligible(env.dom, m, u) {
          Weaken(env, m, slots, dirruns, cachedruns, lo, hi);
          b := Probe(env, m, u, lo, hi);
          if m.Step? {
            ProbeKeeps(env, m, old(slots), slots, dirruns, cachedruns, u, b, {}, lo, hi);
          }
          if !b {
            Strengthen(env, m, slots, dirruns, cachedruns, lo, hi);
          }
          assert Reach(env.dom, x, m.comb, any) == {u};
          return b;
        }
        e := env.dom.Up(u, m.comb.dir);
      }
      b := false;
    }

    /** The walk over all ancestors or preceding siblings on XML documents, which has no cache. */
    method WalkPlain(env: Env, m: Matcher, x: Node, ghost lo: nat, ghost hi: nat) returns (b: bool)
      requires env.Valid() && CompiledFirst(m, lo, hi) && Ok(env, m, true) && !m.comb.first && env.xml
      modifies this`slots
      ensures b == Found(env, m, x)
      ensures slots == old(slots)
      decreases x, 0
    {
      var e: Option<Node> := env.dom.Up(x, m.comb.dir);
      while e.Some?
        invariant e.Some? ==> e.value < x
        invariant env.dom.From(e, m.comb.dir) <= env.dom.Above(x, m.comb.dir)
        invariant forall z | z in env.dom.Above(x, m.comb.dir) - env.dom.From(e, m.comb.dir)
          && Eligible(env.dom, m, z) ::
                    !Target(env, m, z)
        invariant slots == old(slots)
        decreases if e.Some? then e.value + 1 else 0
      {
        var u := e.value;
        if Eligible(env.dom, m, u) {
          Weaken(env, m, slots, dirruns, cachedruns, lo, hi);
          b := Probe(env, m, u, lo, hi);
          if b {
            return;
          }
        }
        e := env.dom.Up(u, m.comb.dir);
      }
      b := false;
    }

    /** A slot miss at u: reserve the slot, ask the inner matcher, record its answer. */
    method Visit(env: Env, m: Matcher, name: nat, u: Node, ghost passed: set<Node>, ghost lo: nat, ghost hi: nat)
      returns (hit: bool)
      requires env.Valid() && CompiledFirst(m, lo, hi) && Owns(m, name)
      requires Ok(env, m, false) && OwnMisses(env, m, slots, dirruns, cachedruns, passed)
      requires m.Step? ==> Ok(env, m.inner[0], true)
      modifies this`slots
      ensures hit == Target(env, m, u)
      ensures Ok(env, m, false) && OwnMisses(env, m, slots, dirruns, cachedruns, passed + {u})
      ensures m.Step? && !hit ==> Ok(env, m.inner[0], true)
      ensures forall x | u < x :: Touched(old(slots), slots, dirruns, m, x)
      decreases u, 4
    {
      var key := Key(u, m.comb.dir);
      ghost var before := slots;
      slots := slots[key := Entry(dirruns, name, Unset)];
      if m.Step? {
        ReserveKeeps(env, m, before, dirruns, cachedruns, name, u, lo, hi);
      }
      hit := Probe(env, m, u, lo, hi);
      // the slot at u itself has not moved: inner matchers only look further up
      assert slots[key] == Entry(dirruns, name, Unset);
      WriteBack(env, m, before, slots, dirruns, cachedruns, name, u, hit, passed, lo, hi);
      slots := slots[key := Entry(dirruns, name, if hit then Hit else Miss(cachedruns))];
    }

    /** The walk over all ancestors or preceding siblings on HTML documents: one slot per node and direction,
        shared by every level, and an early exit on a miss of the current cachedruns. */
    method WalkCached(env: Env, m: Matcher, name: nat, x: Node, ghost lo: nat, ghost hi: nat) returns (b: bool)
      requires env.Valid() && CompiledFirst(m, lo, hi) && Ok(env, m, true) && !m.comb.first && !env.xml
      requires Owns(m, name)
      modifies this`slots
      ensures b == Found(env, m, x)
      ensures Touched(old(slots), slots, dirruns, m, x)
      ensures Ok(env, m, !b)
      decreases x, 0
    {
      WalkStarts(env, m, x, slots, dirruns, cachedruns, lo, hi);
      var dir := m.comb.dir;
      var e: Option<Node> := env.dom.Up(x, dir);
      ghost var passed: set<Node> := {};
      while e.Some?
        invariant e.Some? ==> e.value < x
        invariant Walking(env, m, x, e, passed, slots, dirruns, cachedruns)
        invariant Touched(old(slots), slots, dirruns, m, x)
        decreases if e.Some? then e.value + 1 else 0
      {
        var u := e.value;
        ghost var before := slots;
        if Eligible(env.dom, m, u) {
          var key := Key(u, dir);
          if key in slots && slots[key].run == dirruns && slots[key].done == name {
            var data := slots[key].data;
            assert EntryOk(env, m, u, dir, data, cachedruns, false);
            if data == Hit || data == Miss(cachedruns) {
              b := data == Hit;
              if !b {
                assert NoneAbove(env, m, u);
                WalkFails(env, m, x, e, passed, slots, dirruns, cachedruns, lo, hi);
              }
              return;
            }
          } else {
            b := Visit(env, m, name, u, passed, lo, hi);
            TouchedTrans(old(slots), before, slots, dirruns, m, x);
            if b {
              return;
            }
          }
        }
        WalkAdvances(env, m, x, u, passed, before, slots, dirruns, cachedruns);
        e := env.dom.Up(u, dir);
        passed := passed + {u};
      }
      WalkFails(env, m, x, e, passed, slots, dirruns, cachedruns, lo, hi);
      b := false;
    }
  }
}
