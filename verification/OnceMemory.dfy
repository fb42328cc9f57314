/** The promise of a "once memory" callback list, stated without lists, indexes or flags, and the proof that
    the machinery of jQuery.Callbacks keeps it over every run. */
module OnceMemory {
  import opened Options
  import opened Callbacks

  /** Lost: added behind a point the running batch had already been at, because the list was emptied meanwhile. */
  datatype Fate = Waiting | Called | Removed | Lost

  /** One addition of a callback and what became of it. */
  datatype Slip<F> = Slip(fn: F, fate: Fate)

  /** Every addition so far in order, the data of the first firing, whether a callback is running, whether the
      list is disabled, and whether it has been emptied back to life after its firing (`mute`). `passed` is what
      the running batch has been through and still holds, `debt` how many additions it is going to step over. */
  datatype Ledger<F, D> = Ledger(slips: seq<Slip<F>>, data: Option<D>, busy: bool, dead: bool, mute: bool,
                                 passed: seq<F>, debt: nat)

  ghost function Slips<F>(fns: seq<F>, fate: Fate): (r: seq<Slip<F>>)
    ensures |r| == |fns|
  {
    seq(|fns|, i requires 0 <= i < |fns| => Slip(fns[i], fate))
  }

  ghost function WithFate<F>(slips: seq<Slip<F>>, fate: Fate): (r: seq<F>) {
    if slips == [] then []
    else
      var last := slips[|slips| - 1];
      WithFate(slips[..|slips| - 1], fate) + if last.fate == fate then [last.fn] else []
  }

  /** The oldest waiting slip. */
  ghost function Next<F>(slips: seq<Slip<F>>): (k: nat)
    ensures k <= |slips|
    ensures k < |slips| ==> slips[k].fate == Waiting
    ensures forall j | 0 <= j < k :: slips[j].fate != Waiting
  {
    if slips == [] then 0
    else
      var k := Next(slips[..|slips| - 1]);
      if k < |slips| - 1 then k
      else if slips[k].fate == Waiting then k else |slips|
  }

  /** The next waiting callback is called, in order of addition, with the data of the first firing. */
  ghost function Take<F, D>(l: Ledger<F, D>): (r: (Ledger<F, D>, Call<F, D>))
    requires l.data.Some?
  {
    var k := Next(l.slips);
    if l.dead || k == |l.slips| then
      (l.(busy := false, passed := [], debt := 0, dead := l.dead || l.mute, mute := false), None)
    else
      (l.(busy := true, slips := l.slips[k := Slip(l.slips[k].fn, Called)], passed := l.passed + [l.slips[k].fn]),
       Some((l.slips[k].fn, l.data.value)))
  }

  ghost function Strike<F>(slips: seq<Slip<F>>, f: F): (r: seq<Slip<F>>)
    ensures |r| == |slips|
  {
    seq(|slips|, i requires 0 <= i < |slips| =>
      if slips[i].fn == f && slips[i].fate == Waiting then Slip(f, Removed) else slips[i])
  }

  ghost function StrikeAll<F>(slips: seq<Slip<F>>): (r: seq<Slip<F>>)
    ensures |r| == |slips|
  {
    seq(|slips|, i requires 0 <= i < |slips| =>
      if slips[i].fate == Waiting then Slip(slips[i].fn, Removed) else slips[i])
  }

  /** How many of the next n additions are lost. */
  ghost function Overrun<F, D>(l: Ledger<F, D>, n: nat): (m: nat)
    ensures m <= n
  {
    if l.debt < n then l.debt else n
  }

  /** The slips of an addition. */
  ghost function Filed<F, D>(l: Ledger<F, D>, fns: seq<F>): Ledger<F, D> {
    var m := Overrun(l, |fns|);
    l.(slips := l.slips + Slips(fns[..m], Lost) + Slips(fns[m..], Waiting), passed := l.passed + fns[..m],
      debt := l.debt - m)
  }

  ghost function Emptied<F, D>(l: Ledger<F, D>): Ledger<F, D> {
    l.(slips := StrikeAll(l.slips), passed := [], debt := |l.passed| + l.debt, dead := false,
       mute := l.mute || (l.dead && l.data.Some?))
  }

  ghost function LedgerStep<F, D>(l: Ledger<F, D>, e: Event<F, D>): (r: (Ledger<F, D>, Call<F, D>))
    requires l.busy ==> l.data.Some?
    ensures r.0.busy ==> r.0.data.Some?
  {
    match e
    case AddFns(fns) =>
      if l.dead then (l, None)
      else if !l.busy && l.data.Some? && !l.mute then Take(Filed(l, fns))
      else (Filed(l, fns), None)
    case RemoveFn(f) => (if l.dead then l else l.(slips := Strike(l.slips, f), passed := Without(l.passed, f)), None)
    case Fire(d) => if l.dead || l.data.Some? then (l, None) else Take(l.(data := Some(d)))
    case EmptyList => (Emptied(l), None)
    case DisableList => (l.(dead := true, mute := false), None)
    case LockList => (if l.data.None? || l.mute then l.(dead := true, mute := false) else l, None)
    case Returns => if l.busy then Take(l) else (l, None)
  }

  ghost function LedgerRun<F, D>(events: seq<Event<F, D>>): (r: (Ledger<F, D>, seq<(F, D)>))
    ensures r.0.busy ==> r.0.data.Some?
  {
    if events == [] then (Ledger([], None, false, false, false, [], 0), [])
    else
      var (l, log) := LedgerRun(events[..|events| - 1]);
      var (m, call) := LedgerStep(l, events[|events| - 1]);
      (m, log + ToSeq(call))
  }

  /** The simulation: the list is what the running batch has passed and then exactly what still waits, and the
      loop index stands behind the passed part, further behind only while there is a debt. */
  ghost predicate Linked<F, D>(s: State<F, D>, l: Ledger<F, D>) {
    && s.Valid() && s.once && s.remember
    && s.firing == l.busy && s.list.None? == l.dead && s.fired == l.data.Some?
    && (l.mute ==> !l.dead && l.data.Some?)
    && (l.busy ==> s.data == l.data && s.firingIndex + 1 == |l.passed| + l.debt)
    && (!l.busy ==> l.passed == [] && l.debt == 0)
    && (!l.dead ==>
          && s.memory == (if l.mute then None else l.data)
          && s.list.value == l.passed + WithFate(l.slips, Waiting)
          && (l.debt > 0 || (!l.busy && s.memory.Some?) ==> WithFate(l.slips, Waiting) == []))
  }

  lemma {:induction false} WithFateSplit<F>(a: seq<Slip<F>>, b: seq<Slip<F>>, fate: Fate)
    ensures WithFate(a + b, fate) == WithFate(a, fate) + WithFate(b, fate)
  {
    if b == [] {
      assert a + b == a;
    } else {
      WithFateSplit(a, b[..|b| - 1], fate);
      assert (a + b)[..|a + b| - 1] == a + b[..|b| - 1];
    }
  }

  lemma LastFate<F>(slips: seq<Slip<F>>, last: Slip<F>, fate: Fate)
    ensures WithFate(slips + [last], fate) == WithFate(slips, fate) + if last.fate == fate then [last.fn] else []
  {
    assert (slips + [last])[..|slips|] == slips;
  }

  lemma SlipsLast<F>(fns: seq<F>, f: F, fate: Fate)
    ensures Slips(fns + [f], fate) == Slips(fns, fate) + [Slip(f, fate)]
  {
  }

  lemma {:induction false} SlipsFate<F>(fns: seq<F>, fate: Fate, other: Fate)
    ensures WithFate(Slips(fns, fate), other) == if fate == other then fns else []
    decreases |fns|
  {
    if fns != [] {
      hide WithFate, Slips;
      var n := |fns| - 1;
      assert fns == fns[..n] + [fns[n]];
      SlipsFate(fns[..n], fate, other);
      SlipsLast(fns[..n], fns[n], fate);
      LastFate(Slips(fns[..n], fate), Slip(fns[n], fate), other);
    }
  }

  /** What an addition does to each pile of slips. */
  lemma FiledFates<F, D>(l: Ledger<F, D>, fns: seq<F>, fate: Fate)
    ensures var m := Overrun(l, |fns|);
            WithFate(Filed(l, fns).slips, fate) ==
            WithFate(l.slips, fate) + (if fate == Lost then fns[..m] else [])
              + (if fate == Waiting then fns[m..] else [])
  {
    var m := Overrun(l, |fns|);
    SlipsFate(fns[..m], Lost, fate);
    SlipsFate(fns[m..], Waiting, fate);
    WithFateSplit(l.slips, Slips(fns[..m], Lost), fate);
    WithFateSplit(l.slips + Slips(fns[..m], Lost), Slips(fns[m..], Waiting), fate);
  }

  lemma {:induction false} NoneWaiting<F>(slips: seq<Slip<F>>)
    requires forall j | 0 <= j < |slips| :: slips[j].fate != Waiting
    ensures WithFate(slips, Waiting) == []
  {
    if slips != [] {
      NoneWaiting(slips[..|slips| - 1]);
    }
  }

  /** Taking the oldest waiting slip drops the head of the waiting callbacks. */
  lemma {:induction false} TakeOldest<F>(slips: seq<Slip<F>>)
    ensures var k := Next(slips);
            if k == |slips| then WithFate(slips, Waiting) == []
            else WithFate(slips, Waiting) == [slips[k].fn] + WithFate(slips[k := Slip(slips[k].fn, Called)], Waiting)
    decreases |slips|
  {
    if slips != [] {
      var n := |slips| - 1;
      TakeOldest(slips[..n]);
      var k := Next(slips);
      if k < n {
        var after := slips[k := Slip(slips[k].fn, Called)];
        assert after[..n] == slips[..n][k := Slip(slips[k].fn, Called)];
        assert after[n] == slips[n];
      } else if k == n {
        var after := slips[n := Slip(slips[n].fn, Called)];
        assert after[..n] == slips[..n];
      }
    }
  }

  lemma {:induction false} StrikeDrops<F>(slips: seq<Slip<F>>, f: F)
    ensures WithFate(Strike(slips, f), Waiting) == Without(WithFate(slips, Waiting), f)
    ensures WithFate(Strike(slips, f), Called) == WithFate(slips, Called)
  {
    if slips != [] {
      var n := |slips| - 1;
      StrikeDrops(slips[..n], f);
      assert Strike(slips, f)[..n] == Strike(slips[..n], f);
      var w, last, struck := WithFate(slips[..n], Waiting), slips[n], Strike(slips, f);
      assert struck[..|struck| - 1] == Strike(slips[..n], f);
      if last.fate == Waiting {
        assert WithFate(slips, Waiting) == w + [last.fn];
        WithoutSplit(w, [last.fn], f);
        assert [last.fn][..0] == [];
        assert Without([last.fn], f) == if last.fn == f then [] else [last.fn];
      } else {
        assert struck[n] == last;
        assert WithFate(slips, Waiting) == w;
        assert WithFate(struck, Waiting) == WithFate(Strike(slips[..n], f), Waiting);
      }
    }
  }

  lemma {:induction false} StrikeAllDrops<F>(slips: seq<Slip<F>>)
    ensures WithFate(StrikeAll(slips), Waiting) == []
    ensures WithFate(StrikeAll(slips), Called) == WithFate(slips, Called)
  {
    if slips != [] {
      var n := |slips| - 1;
      StrikeAllDrops(slips[..n]);
      assert StrikeAll(slips)[..n] == StrikeAll(slips[..n]);
    }
  }

  /** Head of the firing loop: both machines make the same call, or both come to rest. */
  lemma TurnLinked<F, D>(s: State<F, D>, l: Ledger<F, D>)
    requires s.Valid() && s.once && s.remember && s.firing && s.data == l.data && l.data.Some?
    requires l.dead == s.list.None? && (l.mute ==> !l.dead) && s.firingIndex == |l.passed| + l.debt
    requires !l.dead ==>
               && s.memory == (if l.mute then None else l.data)
               && s.list.value == l.passed + WithFate(l.slips, Waiting)
               && (l.debt > 0 ==> WithFate(l.slips, Waiting) == [])
    ensures Turn(s).1 == Take(l).1 && Linked(Turn(s).0, Take(l).0)
  {
    hide WithFate;
    TakeOldest(l.slips);
    if !l.dead && s.firingIndex < |s.list.value| {
      var k := Next(l.slips);
      var after := l.slips[k := Slip(l.slips[k].fn, Called)];
      assert l.debt == 0 && k < |l.slips|;
      assert s.list.value == l.passed + [l.slips[k].fn] + WithFate(after, Waiting);
    } else if !l.dead {
      assert WithFate(l.slips, Waiting) == [];
    }
  }

  lemma RemoveLinked<F, D>(s: State<F, D>, l: Ledger<F, D>, f: F)
    requires Linked(s, l)
    ensures Linked(Remove(s, f), LedgerStep(l, RemoveFn(f)).0)
  {
    hide WithFate;
    if !l.dead {
      StrikeDrops(l.slips, f);
      WithoutSplit(l.passed, WithFate(l.slips, Waiting), f);
      if l.busy {
        assert Done(s) == l.passed;
      }
    }
  }

  /** Emptying the list strikes what waits; what the batch has been through turns into a debt. */
  lemma EmptyLinked<F, D>(s: State<F, D>, l: Ledger<F, D>)
    requires Linked(s, l)
    ensures Linked(Empty(s), Emptied(l))
  {
    StrikeAllDrops(l.slips);
  }

  lemma StepLinked<F, D>(s: State<F, D>, l: Ledger<F, D>, e: Event<F, D>)
    requires Linked(s, l)
    ensures Step(s, e).1 == LedgerStep(l, e).1 && Linked(Step(s, e).0, LedgerStep(l, e).0)
  {
    hide WithFate, Strike, StrikeAll, Turn, Take, Without;
    match e
    case AddFns(fns) => if !l.dead { AddLinked(s, l, fns); }
    case RemoveFn(f) => RemoveLinked(s, l, f);
    case Fire(d) => if !l.dead && l.data.None? { FireLinked(s, l, d); }
    case EmptyList => EmptyLinked(s, l);
    case DisableList =>
    case LockList =>
    case Returns => if l.busy { TurnLinked(s.(firingIndex := s.firingIndex + 1), l); }
  }

  /** Both sides file the new callbacks alike. */
  lemma FiledList<F, D>(l: Ledger<F, D>, list: seq<F>, fns: seq<F>)
    requires list == l.passed + WithFate(l.slips, Waiting)
    requires l.debt > 0 ==> WithFate(l.slips, Waiting) == []
    ensures var m := Filed(l, fns);
            && list + fns == m.passed + WithFate(m.slips, Waiting)
            && |m.passed| + m.debt == |l.passed| + l.debt
            && (m.debt > 0 ==> WithFate(m.slips, Waiting) == [])
  {
    hide WithFate;
    FiledFates(l, fns, Waiting);
    var n := Overrun(l, |fns|);
    assert fns[..n] + fns[n..] == fns;
  }

  lemma AddLinked<F, D>(s: State<F, D>, l: Ledger<F, D>, fns: seq<F>)
    requires Linked(s, l) && !l.dead
    ensures Add(s, fns).1 == LedgerStep(l, AddFns(fns)).1 && Linked(Add(s, fns).0, LedgerStep(l, AddFns(fns)).0)
  {
    hide WithFate, Turn, Take, Overrun;
    FiledList(l, s.list.value, fns);
    if !l.busy {
      assert Filed(l, fns).passed == [] && Filed(l, fns).debt == 0 by { NoOverrun(l, fns); }
    }
    if !l.busy && l.data.Some? && !l.mute {
      AddAtRestLinked(s, l, fns);
    } else {
      assert Filed(l, fns) == LedgerStep(l, AddFns(fns)).0;
      hide Filed;
    }
  }

  lemma NoOverrun<F, D>(l: Ledger<F, D>, fns: seq<F>)
    requires l.passed == [] && l.debt == 0
    ensures Filed(l, fns).passed == [] && Filed(l, fns).debt == 0
  {
  }

  /** Adding to a fired list that is at rest starts a batch. */
  lemma AddAtRestLinked<F, D>(s: State<F, D>, l: Ledger<F, D>, fns: seq<F>)
    requires Linked(s, l) && !l.dead && !l.busy && l.data.Some? && !l.mute
    ensures Add(s, fns).1 == Take(Filed(l, fns)).1 && Linked(Add(s, fns).0, Take(Filed(l, fns)).0)
  {
    hide WithFate, Turn, Take, Overrun;
    FiledList(l, s.list.value, fns);
    NoOverrun(l, fns);
    var m, list := Filed(l, fns), s.list.value + fns;
    assert m.data == l.data && m.dead == l.dead && m.mute == l.mute;
    hide Filed;
    var t := s.(list := Some(list), firingStart := |s.list.value|);
    TurnLinked(t.(memory := Some(s.memory.value), fired := true, firing := true, data := Some(s.memory.value),
                  firingIndex := t.firingStart, firingStart := 0, firingLength := |list|), m);
  }

  lemma FireLinked<F, D>(s: State<F, D>, l: Ledger<F, D>, d: D)
    requires Linked(s, l) && !l.dead && l.data.None?
    ensures FireWith(s, d).1 == LedgerStep(l, Fire(d)).1 && Linked(FireWith(s, d).0, LedgerStep(l, Fire(d)).0)
  {
    hide WithFate, Turn, Take;
    TurnLinked(s.(memory := Some(d), fired := true, firing := true, data := Some(d), firingIndex := 0,
                  firingStart := 0, firingLength := |s.list.value|), l.(data := Some(d)));
  }

  /** The list machinery calls what the ledger says, when the ledger says, over every run. */
  lemma {:induction false} ListKeepsLedger<F, D>(events: seq<Event<F, D>>)
    ensures var (s, log) := Run(Fresh<F, D>(true, true), events);
            var (l, calls) := LedgerRun(events);
            log == calls && Linked(s, l)
    decreases |events|
  {
    if events != [] {
      var n := |events| - 1;
      hide Step, LedgerStep, Linked;
      ListKeepsLedger(events[..n]);
      StepLinked(Run(Fresh<F, D>(true, true), events[..n]).0, LedgerRun(events[..n]).0, events[n]);
    }
  }

  /** What was added, in order, while the list was alive. */
  ghost function Additions<F, D>(events: seq<Event<F, D>>): seq<F> {
    if events == [] then []
    else
      var n := |events| - 1;
      Additions(events[..n])
      + if events[n].AddFns? && Run(Fresh<F, D>(true, true), events[..n]).0.list.Some? then events[n].fns else []
  }

  /** The data of the first firing of a live list. */
  ghost function FirstFire<F, D>(events: seq<Event<F, D>>): Option<D> {
    if events == [] then None
    else
      var n := |events| - 1;
      var before := FirstFire(events[..n]);
      if before.None? && events[n].Fire?
        && Run(Fresh<F, D>(true, true), events[..n]).0.list.Some? then Some(events[n].data)
      else before
  }

  ghost function Fns<F>(slips: seq<Slip<F>>): (r: seq<F>)
    ensures |r| == |slips|
  {
    seq(|slips|, i requires 0 <= i < |slips| => slips[i].fn)
  }

  /** No callback still waits behind one that was called later. */
  ghost predicate InOrder<F>(slips: seq<Slip<F>>) {
    forall i, j | 0 <= i < j < |slips| && slips[i].fate == Waiting :: slips[j].fate != Called
  }

  /** What every ledger satisfies. */
  ghost predicate Kept<F, D>(l: Ledger<F, D>, log: seq<(F, D)>) {
    && InOrder(l.slips)
    && (l.data.None? ==> log == [] && WithFate(l.slips, Called) == [])
    && (l.data.Some? ==> log == Calls(WithFate(l.slips, Called), l.data.value))
    && (l.data.Some? && !l.busy && !l.dead && !l.mute ==> forall i | 0 <= i < |l.slips| :: l.slips[i].fate != Waiting)
  }

  lemma TakeKept<F, D>(l: Ledger<F, D>, log: seq<(F, D)>)
    requires l.data.Some? && InOrder(l.slips) && log == Calls(WithFate(l.slips, Called), l.data.value)
    ensures var (m, call) := Take(l);
            Kept(m, log + ToSeq(call)) && Fns(m.slips) == Fns(l.slips) && m.data == l.data
  {
    hide WithFate;
    var k := Next(l.slips);
    if !l.dead && k < |l.slips| {
      TakeCalled(l.slips);
      var after := l.slips[k := Slip(l.slips[k].fn, Called)];
      var called := WithFate(l.slips, Called);
      assert Calls(called + [l.slips[k].fn], l.data.value)
        == Calls(called, l.data.value) + [(l.slips[k].fn, l.data.value)];
      assert Fns(after) == Fns(l.slips);
    }
  }

  /** In an ordered ledger the oldest waiting slip comes after everything called so far. */
  lemma {:induction false} TakeCalled<F>(slips: seq<Slip<F>>)
    requires InOrder(slips) && Next(slips) < |slips|
    ensures var k := Next(slips);
            var after := slips[k := Slip(slips[k].fn, Called)];
            InOrder(after) && WithFate(after, Called) == WithFate(slips, Called) + [slips[k].fn]
    decreases |slips|
  {
    var k, n := Next(slips), |slips| - 1;
    var after := slips[k := Slip(slips[k].fn, Called)];
    if k < n {
      TakeCalled(slips[..n]);
      assert after[..n] == slips[..n][k := Slip(slips[k].fn, Called)];
      assert slips[n].fate != Called && after[n] == slips[n];
    } else {
      assert after[..n] == slips[..n];
    }
  }

  lemma LedgerStepKept<F, D>(l: Ledger<F, D>, log: seq<(F, D)>, e: Event<F, D>)
    requires Kept(l, log) && (l.busy ==> l.data.Some?)
    ensures var (m, call) := LedgerStep(l, e);
            && Kept(m, log + ToSeq(call))
            && Fns(m.slips) == Fns(l.slips) + (if e.AddFns? && !l.dead then e.fns else [])
            && m.data == (if l.data.None? && e.Fire? && !l.dead then Some(e.data) else l.data)
  {
    hide WithFate, Take, Strike, StrikeAll, Filed, InOrder;
    match e
    case AddFns(fns) => if !l.dead { AddKept(l, log, fns); }
    case RemoveFn(f) => if !l.dead { RemoveKept(l, log, f); }
    case Fire(d) => if !l.dead && l.data.None? { FireKept(l, log, d); }
    case EmptyList => EmptyKept(l, log);
    case DisableList =>
    case LockList =>
    case Returns => if l.busy { TakeKept(l, log); }
  }

  lemma FireKept<F, D>(l: Ledger<F, D>, log: seq<(F, D)>, d: D)
    requires Kept(l, log) && l.data.None? && !l.dead
    ensures var (m, call) := Take(l.(data := Some(d)));
            Kept(m, log + ToSeq(call)) && Fns(m.slips) == Fns(l.slips) && m.data == Some(d)
  {
    TakeKept(l.(data := Some(d)), log);
  }

  lemma AddKept<F, D>(l: Ledger<F, D>, log: seq<(F, D)>, fns: seq<F>)
    requires Kept(l, log) && (l.busy ==> l.data.Some?) && !l.dead
    ensures var (m, call) := LedgerStep(l, AddFns(fns));
            && Kept(m, log + ToSeq(call))
            && Fns(m.slips) == Fns(l.slips) + fns
            && m.data == l.data
  {
    hide WithFate;
    var m, n := Filed(l, fns), Overrun(l, |fns|);
    FiledFates(l, fns, Called);
    assert m.slips == l.slips + Slips(fns[..n], Lost) + Slips(fns[n..], Waiting);
    assert Fns(m.slips) == Fns(l.slips) + fns;
    assert InOrder(m.slips);
    if !l.busy && l.data.Some? && !l.mute {
      TakeKept(m, log);
    }
  }

  lemma RemoveKept<F, D>(l: Ledger<F, D>, log: seq<(F, D)>, f: F)
    requires Kept(l, log) && (l.busy ==> l.data.Some?) && !l.dead
    ensures var m := LedgerStep(l, RemoveFn(f)).0;
            Kept(m, log) && Fns(m.slips) == Fns(l.slips) && m.data == l.data
  {
    StrikeDrops(l.slips, f);
    assert Fns(Strike(l.slips, f)) == Fns(l.slips);
  }

  lemma EmptyKept<F, D>(l: Ledger<F, D>, log: seq<(F, D)>)
    requires Kept(l, log)
    ensures var m := Emptied(l);
            Kept(m, log) && Fns(m.slips) == Fns(l.slips) && m.data == l.data
  {
    StrikeAllDrops(l.slips);
    assert Fns(StrikeAll(l.slips)) == Fns(l.slips);
  }

  lemma {:induction false} LedgerKept<F, D>(events: seq<Event<F, D>>)
    ensures var (l, log) := LedgerRun(events);
            Kept(l, log) && Fns(l.slips) == Additions(events) && l.data == FirstFire(events)
    decreases |events|
  {
    if events != [] {
      var n := |events| - 1;
      LedgerKept(events[..n]);
      ListKeepsLedger(events[..n]);
      hide Kept, LedgerStep, Run;
      var (l, log) := LedgerRun(events[..n]);
      LedgerStepKept(l, log, events[n]);
    }
  }

  // ---- why an addition is not called ----

  /** Event e strikes a waiting slip of f. */
  ghost predicate Strikes<F, D>(l: Ledger<F, D>, e: Event<F, D>, f: F) {
    e.EmptyList? || (e.RemoveFn? && e.fn == f && !l.dead)
  }

  /** Event number r takes addition number k away before its turn: it has been added, it has not been called. */
  ghost predicate Struck<F, D>(events: seq<Event<F, D>>, k: nat, r: nat) {
    r < |events|
    && var l := LedgerRun(events[..r]).0;
    k < |l.slips| && l.slips[k].fate == Waiting && Strikes(l, events[r], l.slips[k].fn)
  }

  /** Event number r adds addition number k within the stretch that the running batch steps over. */
  ghost predicate SteppedOver<F, D>(events: seq<Event<F, D>>, k: nat, r: nat) {
    r < |events|
    && var l := LedgerRun(events[..r]).0;
    events[r].AddFns? && !l.dead && |l.slips| <= k < |l.slips| + Overrun(l, |events[r].fns|)
  }

  lemma TakeFates<F, D>(l: Ledger<F, D>, k: nat)
    requires l.data.Some? && k < |l.slips|
    ensures var m := Take(l).0.slips;
            |m| == |l.slips| && m[k].fn == l.slips[k].fn
            && (m[k] == l.slips[k] || (l.slips[k].fate == Waiting && m[k].fate == Called))
  {
  }

  /** What one event does to one slip, old or new. */
  lemma StepFate<F, D>(l: Ledger<F, D>, e: Event<F, D>, k: nat)
    requires (l.busy ==> l.data.Some?) && k < |LedgerStep(l, e).0.slips|
    ensures var m := LedgerStep(l, e).0.slips;
            if k < |l.slips| then
              && m[k].fn == l.slips[k].fn
              && if l.slips[k].fate != Waiting then m[k] == l.slips[k]
                 else if Strikes(l, e, l.slips[k].fn) then m[k].fate == Removed
                 else m[k].fate == Waiting || m[k].fate == Called
            else
              && e.AddFns? && !l.dead && m[k].fate != Removed
              && (m[k].fate == Lost <==> k < |l.slips| + Overrun(l, |e.fns|))
    ensures |l.slips| <= |LedgerStep(l, e).0.slips|
  {
    hide Next;
    match e
    case AddFns(fns) =>
      if !l.dead {
        var m, n := Filed(l, fns), Overrun(l, |fns|);
        assert m.slips == l.slips + Slips(fns[..n], Lost) + Slips(fns[n..], Waiting);
        if !l.busy && l.data.Some? && !l.mute {
          hide Take, Filed;
          TakeSize(m);
          TakeFates(m, k);
        }
      }
    case Fire(d) => if !l.dead && l.data.None? { TakeSize(l.(data := Some(d))); TakeFates(l.(data := Some(d)), k); }
    case Returns => if l.busy { TakeSize(l); TakeFates(l, k); }
    case _ =>
  }

  lemma TakeSize<F, D>(l: Ledger<F, D>)
    requires l.data.Some?
    ensures |Take(l).0.slips| == |l.slips|
  {
  }

  lemma StepSize<F, D>(l: Ledger<F, D>, e: Event<F, D>)
    requires l.busy ==> l.data.Some?
    ensures |LedgerStep(l, e).0.slips| == |l.slips| + if e.AddFns? && !l.dead then |e.fns| else 0
  {
  }

  lemma SameCauses<F, D>(events: seq<Event<F, D>>, k: nat, r: nat)
    requires events != [] && r != |events| - 1
    ensures Struck(events, k, r) <==> Struck(events[..|events| - 1], k, r)
    ensures SteppedOver(events, k, r) <==> SteppedOver(events[..|events| - 1], k, r)
  {
    var n := |events| - 1;
    if r < n {
      assert events[..n][..r] == events[..r] && events[..n][r] == events[r];
    }
  }

  /** The causes within a run: those of the run without its last event, and the last event. */
  lemma StruckCauses<F, D>(events: seq<Event<F, D>>, k: nat)
    requires events != []
    ensures var n := |events| - 1;
            (exists r :: Struck(events, k, r)) <==> (exists r :: Struck(events[..n], k, r)) || Struck(events, k, n)
  {
    hide Struck, SteppedOver;
    var n := |events| - 1;
    NoCauseBehind(events[..n], k, n);
    if r: nat :| Struck(events, k, r) {
      if r != n {
        SameCauses(events, k, r);
      }
    }
    if r: nat :| Struck(events[..n], k, r) {
      SameCauses(events, k, r);
    }
  }

  lemma SteppedOverCauses<F, D>(events: seq<Event<F, D>>, k: nat)
    requires events != []
    ensures var n := |events| - 1;
            (exists r :: SteppedOver(events, k, r)) <==>
            (exists r :: SteppedOver(events[..n], k, r)) || SteppedOver(events, k, n)
  {
    hide Struck, SteppedOver;
    var n := |events| - 1;
    NoCauseBehind(events[..n], k, n);
    if r: nat :| SteppedOver(events, k, r) {
      if r != n {
        SameCauses(events, k, r);
      }
    }
    if r: nat :| SteppedOver(events[..n], k, r) {
      SameCauses(events, k, r);
    }
  }

  lemma LastCause<F, D>(events: seq<Event<F, D>>, k: nat)
    requires events != []
    ensures var n := |events| - 1;
            var l := LedgerRun(events[..n]).0;
            && (Struck(events, k, n) <==>
                  k < |l.slips| && l.slips[k].fate == Waiting && Strikes(l, events[n], l.slips[k].fn))
            && (SteppedOver(events, k, n) <==>
                  events[n].AddFns? && !l.dead && |l.slips| <= k < |l.slips| + Overrun(l, |events[n].fns|))
  {
    hide LedgerRun, Strikes, Overrun;
  }

  lemma NoCauseBehind<F, D>(events: seq<Event<F, D>>, k: nat, r: nat)
    requires r >= |events|
    ensures !Struck(events, k, r) && !SteppedOver(events, k, r)
  {
  }

  /** Nothing happens to an addition before it is made. */
  lemma {:induction false} Unborn<F, D>(events: seq<Event<F, D>>, k: nat)
    requires k >= |LedgerRun(events).0.slips|
    ensures !(exists r :: Struck(events, k, r)) && !(exists r :: SteppedOver(events, k, r))
    decreases |events|
  {
    if events != [] {
      var n := |events| - 1;
      StruckCauses(events, k);
      SteppedOverCauses(events, k);
      LastCause(events, k);
      hide Struck, SteppedOver, LedgerStep, Strikes;
      StepSize(LedgerRun(events[..n]).0, events[n]);
      Unborn(events[..n], k);
    }
  }

  /** An addition is removed, or lost, exactly when some event of the run says so. */
  lemma {:induction false} FateCauses<F, D>(events: seq<Event<F, D>>, k: nat)
    requires k < |LedgerRun(events).0.slips|
    ensures LedgerRun(events).0.slips[k].fate == Removed <==> exists r :: Struck(events, k, r)
    ensures LedgerRun(events).0.slips[k].fate == Lost <==> exists r :: SteppedOver(events, k, r)
    decreases |events|
  {
    var n := |events| - 1;
    var l := LedgerRun(events[..n]).0;
    assert LedgerRun(events).0 == LedgerStep(l, events[n]).0;
    StruckCauses(events, k);
    SteppedOverCauses(events, k);
    LastCause(events, k);
    hide Struck, SteppedOver, LedgerStep, Strikes, LedgerRun;
    StepFate(l, events[n], k);
    if k < |l.slips| {
      FateCauses(events[..n], k);
    } else {
      Unborn(events[..n], k);
    }
  }

  // ---- the promise ----

  /** The promise. Over every run, re-entrant or not: the ledger records every addition; the calls are exactly
      the called additions, each once, in order of addition and with the data of the first firing; an addition
      is dropped only by a removal of its callback, or an emptying, that comes after it and before its turn, or
      because an emptied batch steps over it; and whenever no callback is running on a fired, live list,
      nothing else is still waiting. */
  lemma {:induction false} OnceMemoryPromise<F, D>(events: seq<Event<F, D>>)
    ensures var (s, log) := Run(Fresh<F, D>(true, true), events);
            var l := LedgerRun(events).0;
            && Fns(l.slips) == Additions(events)
            && InOrder(l.slips)
            && l.data == FirstFire(events)
            && (FirstFire(events).None? ==> log == [])
            && (FirstFire(events).Some? ==> log == Calls(WithFate(l.slips, Called), FirstFire(events).value))
            && (forall k | 0 <= k < |l.slips| :: l.slips[k].fate == Removed <==> exists r :: Struck(events, k, r))
            && (forall k | 0 <= k < |l.slips| :: l.slips[k].fate == Lost <==> exists r :: SteppedOver(events, k, r))
            && (s.memory.Some? && !s.firing ==> forall k | 0 <= k < |l.slips| :: l.slips[k].fate != Waiting)
  {
    ListKeepsLedger(events);
    LedgerKept(events);
    hide Struck, SteppedOver, WithFate, LedgerRun;
    forall k | 0 <= k < |LedgerRun(events).0.slips| {
      FateCauses(events, k);
    }
  }

  /** `empty` is never called by a running callback that the list still holds, or held before it. */
  ghost predicate EmptiesAtRest<F, D>(events: seq<Event<F, D>>) {
    forall r | 0 <= r < |events| && events[r].EmptyList? ::
      var s := Run(Fresh<F, D>(true, true), events[..r]).0;
      !s.firing || s.firingIndex == -1
  }

  lemma {:induction false} NoDebt<F, D>(events: seq<Event<F, D>>)
    requires EmptiesAtRest(events)
    ensures LedgerRun(events).0.debt == 0
    decreases |events|
  {
    if events != [] {
      var n := |events| - 1;
      AtRestBefore(events);
      assert events[..|events|] == events;
      NoDebt(events[..n]);
      ListKeepsLedger(events[..n]);
      DebtStep(Run(Fresh<F, D>(true, true), events[..n]).0, LedgerRun(events[..n]).0, events[n]);
    }
  }

  lemma DebtStep<F, D>(s: State<F, D>, l: Ledger<F, D>, e: Event<F, D>)
    requires Linked(s, l) && l.debt == 0 && (e.EmptyList? ==> !s.firing || s.firingIndex == -1)
    ensures LedgerStep(l, e).0.debt == 0
  {
  }

  lemma AtRestBefore<F, D>(events: seq<Event<F, D>>)
    requires events != [] && EmptiesAtRest(events)
    ensures EmptiesAtRest(events[..|events| - 1])
  {
    var n := |events| - 1;
    forall r | 0 <= r < n && events[..n][r].EmptyList?
      ensures var s := Run(Fresh<F, D>(true, true), events[..n][..r]).0; !s.firing || s.firingIndex == -1
    {
      assert events[..n][..r] == events[..r] && events[r].EmptyList?;
    }
  }

  /** Emptying the list between firings is harmless: then nothing is ever lost. */
  lemma {:induction false} NothingLost<F, D>(events: seq<Event<F, D>>)
    requires EmptiesAtRest(events)
    ensures forall k | 0 <= k < |LedgerRun(events).0.slips| :: LedgerRun(events).0.slips[k].fate != Lost
    decreases |events|
  {
    if events != [] {
      var n := |events| - 1;
      var l := LedgerRun(events[..n]).0;
      AtRestBefore(events);
      NothingLost(events[..n]);
      NoDebt(events[..n]);
      hide EmptiesAtRest;
      assert LedgerRun(events).0 == LedgerStep(l, events[n]).0;
      hide LedgerRun, LedgerStep;
      forall k | 0 <= k < |LedgerRun(events).0.slips|
        ensures LedgerRun(events).0.slips[k].fate != Lost
      {
        StepFate(l, events[n], k);
      }
    }
  }

  lemma NothingStruck<F, D>(events: seq<Event<F, D>>, k: nat)
    requires forall e | e in events :: !e.RemoveFn? && !e.EmptyList?
    ensures !(exists r :: Struck(events, k, r))
  {
    forall r: nat
      ensures !Struck(events, k, r)
    {
      if r < |events| {
        assert events[r] in events;
      }
    }
  }

  /** A run without removals: once at rest on a fired, live list, every addition has been called. */
  lemma {:induction false} EverythingCalled<F, D>(events: seq<Event<F, D>>)
    requires forall e | e in events :: !e.RemoveFn? && !e.EmptyList?
    ensures var (s, log) := Run(Fresh<F, D>(true, true), events);
            s.memory.Some? && !s.firing ==>
              FirstFire(events).Some? && log == Calls(Additions(events), FirstFire(events).value)
  {
    OnceMemoryPromise(events);
    FiredHasData(events);
    assert EmptiesAtRest(events);
    NothingLost(events);
    hide Run, LedgerRun, Struck, SteppedOver, WithFate, EmptiesAtRest, Additions, FirstFire, InOrder;
    var slips := LedgerRun(events).0.slips;
    if forall k | 0 <= k < |slips| :: slips[k].fate != Waiting {
      forall k | 0 <= k < |slips|
        ensures slips[k].fate == Called
      {
        NothingStruck(events, k);
      }
      AllCalled(slips);
    }
  }

  lemma FiredHasData<F, D>(events: seq<Event<F, D>>)
    ensures Run(Fresh<F, D>(true, true), events).0.memory.Some? ==> LedgerRun(events).0.data.Some?
  {
    ListKeepsLedger(events);
  }

  lemma {:induction false} AllCalled<F>(slips: seq<Slip<F>>)
    requires forall k | 0 <= k < |slips| :: slips[k].fate == Called
    ensures WithFate(slips, Called) == Fns(slips)
  {
    if slips != [] {
      var n := |slips| - 1;
      AllCalled(slips[..n]);
      assert Fns(slips) == Fns(slips[..n]) + [slips[n].fn];
    }
  }

  lemma RunOneMore<F, D>(events: seq<Event<F, D>>, e: Event<F, D>)
    ensures LedgerRun(events + [e]).0 == LedgerStep(LedgerRun(events).0, e).0
  {
    assert (events + [e])[..|events|] == events;
  }

  /** What has become of an addition stays: in particular what is removed or lost is never called. */
  lemma {:induction false} FatesStay<F, D>(events: seq<Event<F, D>>, more: seq<Event<F, D>>, k: nat)
    requires k < |LedgerRun(events).0.slips| && LedgerRun(events).0.slips[k].fate != Waiting
    ensures k < |LedgerRun(events + more).0.slips|
    ensures LedgerRun(events + more).0.slips[k] == LedgerRun(events).0.slips[k]
    decreases |more|
  {
    hide LedgerRun, LedgerStep;
    if more == [] {
      assert events + more == events;
    } else {
      var n := |more| - 1;
      FatesStay(events, more[..n], k);
      assert events + more == (events + more[..n]) + [more[n]];
      RunOneMore(events + more[..n], more[n]);
      var l := LedgerRun(events + more[..n]).0;
      StepSize(l, more[n]);
      StepFate(l, more[n], k);
    }
  }

  /** Emptying a list from inside one of its callbacks is the exception: the loop index does not move, so of
      what is added next exactly the first firingIndex + 1 callbacks are lost. */
  lemma EmptyLosesAdditions<F, D>(events: seq<Event<F, D>>, fns: seq<F>, k: nat)
    requires Run(Fresh<F, D>(true, true), events).0.firing && k < |fns|
    ensures var s := Run(Fresh<F, D>(true, true), events).0;
            var before := |LedgerRun(events).0.slips|;
            var slips := LedgerRun(events + [EmptyList] + [AddFns(fns)]).0.slips;
            && |slips| == before + |fns| && slips[before + k].fn == fns[k]
            && slips[before + k].fate == if k < s.firingIndex + 1 then Lost else Waiting
  {
    ListKeepsLedger(events);
    RunOneMore(events, EmptyList);
    RunOneMore(events + [EmptyList], AddFns(fns));
    var l := LedgerRun(events).0;
    hide LedgerRun, Run;
    assert LedgerStep(Emptied(l), AddFns(fns)).0 == Filed(Emptied(l), fns);
  }
}
