/** jQuery.Callbacks as a re-entrant machine. Control leaves the list whenever a callback is called and comes
    back with a Return; in between, any operation may be performed on the list. */
module Callbacks {
  import opened Options

  /** The variables of the closure. `data` is the argument of the fire call in progress. */
  datatype State<F, D> = State(
    once: bool, remember: bool,
    list: Option<seq<F>>, stack: Option<seq<D>>, memory: Option<D>,
    fired: bool, firing: bool, firingStart: nat, firingIndex: int, firingLength: int, data: Option<D>)
  {
    /** While firing with a live list, firingLength is the length of the list. */
    ghost predicate Valid() {
      && (once ==> stack.None?)
      && firingStart == 0
      && (firing ==> fired && data.Some? && -1 <= firingIndex)
      && (memory.Some? ==> fired)
      && (firing && list.Some? ==> firingLength == |list.value|)
      && (list.None? ==> stack.None? && memory.None?)
      && (!firing && stack.Some? ==> stack.value == [])
    }
  }

  /** A callback about to be called. */
  type Call<F, D> = Option<(F, D)>

  /** The callback at the firing index. */
  function AboutToCall<F, D>(s: State<F, D>): Call<F, D> {
    if s.firing && s.list.Some? && 0 <= s.firingIndex < s.firingLength == |s.list.value| && s.data.Some? then
      Some((s.list.value[s.firingIndex], s.data.value))
    else None
  }

  function Fresh<F, D>(once: bool, remember: bool): (s: State<F, D>)
    ensures s.Valid()
  {
    State(once, remember, Some([]), if once then None else Some([]), None, false, false, 0, 0, 0, None)
  }

  function Disable<F, D>(s: State<F, D>): State<F, D> {
    s.(list := None, stack := None, memory := None)
  }

  function Lock<F, D>(s: State<F, D>): State<F, D> {
    if s.memory.None? then Disable(s) else s.(stack := None)
  }

  /** The head of the loop in fire, up to the next call or to the end of all queued firings. */
  function Turn<F, D>(s: State<F, D>): (r: (State<F, D>, Call<F, D>))
    requires s.Valid() && s.firing && 0 <= s.firingIndex
    ensures r.0.Valid() && r.0.firing == r.1.Some?
    ensures r.0.once == s.once && r.0.remember == s.remember && r.0.fired
    ensures r.1.Some? ==> AboutToCall(r.0) == r.1
    ensures r.0.list.None? || r.0.list.value == [] || r.0.list == s.list
    ensures (s.list.None? ==> r.0.list.None?) && (s.stack.None? ==> r.0.stack.None?)
    decreases if s.stack.Some? then |s.stack.value| else 0, 0
  {
    if s.list.Some? && s.firingIndex < s.firingLength then
      (s, Some((s.list.value[s.firingIndex], s.data.value)))
    else
      var t := s.(firing := false);
      if s.list.None? then (t, None)
      else if s.stack.Some? then
        if s.stack.value == [] then (t, None)
        else Begin(t.(stack := Some(s.stack.value[1..])), s.stack.value[0])
      else if s.memory.Some? then (t.(list := Some([])), None)
      else (Disable(t), None)
  }

  /** The start of fire. */
  function Begin<F, D>(s: State<F, D>, d: D): (r: (State<F, D>, Call<F, D>))
    requires s.(firingStart := 0, stack := if s.stack.None? then None else Some([])).Valid() && !s.firing
      && s.list.Some?
    ensures r.0.Valid() && r.0.firing == r.1.Some?
    ensures r.0.once == s.once && r.0.remember == s.remember && r.0.fired
    ensures r.1.Some? ==> AboutToCall(r.0) == r.1
    ensures r.0.list.None? || r.0.list.value == [] || r.0.list == s.list
    ensures (s.list.None? ==> r.0.list.None?) && (s.stack.None? ==> r.0.stack.None?)
    decreases if s.stack.Some? then |s.stack.value| else 0, 1
  {
    Turn(s.(memory := if s.remember then Some(d) else None, fired := true, firing := true, data := Some(d),
            firingIndex := s.firingStart, firingStart := 0, firingLength := |s.list.value|))
  }

  function Return<F, D>(s: State<F, D>): (r: (State<F, D>, Call<F, D>))
    requires s.Valid() && s.firing
    ensures r.0.Valid() && r.0.firing == r.1.Some?
    ensures r.0.once == s.once && r.0.remember == s.remember && r.0.fired
    ensures r.1.Some? ==> AboutToCall(r.0) == r.1
    ensures r.0.list.None? || r.0.list.value == [] || r.0.list == s.list
    ensures (s.list.None? ==> r.0.list.None?) && (s.stack.None? ==> r.0.stack.None?)
  {
    Turn(s.(firingIndex := s.firingIndex + 1))
  }

  function Add<F, D>(s: State<F, D>, fns: seq<F>): (r: (State<F, D>, Call<F, D>))
    requires s.Valid()
    ensures r.0.Valid()
  {
    if s.list.None? then (s, None)
    else
      var list := s.list.value + fns;
      if s.firing then (s.(list := Some(list), firingLength := |list|), None)
      else if s.memory.Some? then Begin(s.(list := Some(list), firingStart := |s.list.value|), s.memory.value)
      else (s.(list := Some(list)), None)
  }

  function Without<F(==)>(list: seq<F>, f: F): (r: seq<F>)
    ensures |r| <= |list|
  {
    if list == [] then []
    else Without(list[..|list| - 1], f) + if list[|list| - 1] == f then [] else [list[|list| - 1]]
  }

  /** How many entries a removal of f takes out of list. */
  function Taken<F(==)>(list: seq<F>, f: F): nat {
    |list| - |Without(list, f)|
  }

  lemma {:induction false} WithoutSplit<F>(a: seq<F>, b: seq<F>, f: F)
    ensures Without(a + b, f) == Without(a, f) + Without(b, f)
  {
    if b == [] {
      assert a + b == a;
    } else {
      WithoutSplit(a, b[..|b| - 1], f);
      assert (a + b)[..|a + b| - 1] == a + b[..|b| - 1];
    }
  }

  /** The part of the list that the firing loop has been through. */
  function Done<F, D>(s: State<F, D>): seq<F>
    requires s.list.Some? && -1 <= s.firingIndex
  {
    if s.firingIndex + 1 <= |s.list.value| then s.list.value[..s.firingIndex + 1] else s.list.value
  }

  function Remove<F(==), D>(s: State<F, D>, f: F): (r: State<F, D>)
    requires s.Valid()
    ensures r.Valid()
  {
    if s.list.None? then s
    else
      var list := s.list.value;
      if s.firing then
        assert Taken(Done(s), f) <= |Done(s)| <= s.firingIndex + 1;
        s.(list := Some(Without(list, f)), firingLength := s.firingLength - Taken(list, f),
           firingIndex := s.firingIndex - Taken(Done(s), f))
      else s.(list := Some(Without(list, f)))
  }

  /** The loop index stays where it is, and a disabled list is a list again. */
  function Empty<F, D>(s: State<F, D>): (r: State<F, D>)
    ensures s.Valid() ==> r.Valid()
  {
    s.(list := Some([]), firingLength := 0)
  }

  function FireWith<F, D>(s: State<F, D>, d: D): (r: (State<F, D>, Call<F, D>))
    requires s.Valid()
    ensures r.0.Valid()
  {
    if s.list.Some? && (!s.fired || s.stack.Some?) then
      if s.firing then (s.(stack := Some(s.stack.value + [d])), None)
      else Begin(s, d)
    else (s, None)
  }

  /** Anything that can happen to a list: an operation, by whoever holds it, or the return of the callback
      that is running. */
  datatype Event<F, D> =
    | AddFns(fns: seq<F>) | RemoveFn(fn: F) | Fire(data: D) | EmptyList | DisableList | LockList | Returns

  function Step<F(==), D>(s: State<F, D>, e: Event<F, D>): (r: (State<F, D>, Call<F, D>))
    requires s.Valid()
    ensures r.0.Valid()
  {
    match e
    case AddFns(fns) => Add(s, fns)
    case RemoveFn(f) => (Remove(s, f), None)
    case Fire(d) => FireWith(s, d)
    case EmptyList => (Empty(s), None)
    case DisableList => (Disable(s), None)
    case LockList => (Lock(s), None)
    case Returns => if s.firing then Return(s) else (s, None)
  }

  function ToSeq<F, D>(call: Call<F, D>): seq<(F, D)> {
    if call.Some? then [call.value] else []
  }

  /** A whole run: the final state and every call made, in order. */
  function Run<F(==), D>(s: State<F, D>, events: seq<Event<F, D>>): (r: (State<F, D>, seq<(F, D)>))
    requires s.Valid()
    ensures r.0.Valid()
  {
    if events == [] then (s, [])
    else
      var (t, log) := Run(s, events[..|events| - 1]);
      var (u, call) := Step(t, events[|events| - 1]);
      (u, log + ToSeq(call))
  }

  /** Each of the callbacks called with the same data. */
  ghost function Calls<F, D>(fns: seq<F>, d: D): (r: seq<(F, D)>)
    ensures |r| == |fns|
  {
    seq(|fns|, i requires 0 <= i < |fns| => (fns[i], d))
  }

  /** No firing gets through any more. */
  predicate Locked<F, D>(s: State<F, D>) {
    s.stack.None? && (s.list.None? || s.fired)
  }

  /** Locking works, and for good unless an unfired list is emptied: over any run that follows, firing makes no
      call and changes nothing. */
  lemma {:induction false} LockedForGood<F, D>(s: State<F, D>, events: seq<Event<F, D>>, d: D)
    requires s.Valid() && (s.fired || EmptyList !in events)
    ensures var t := Run(Lock(s), events).0; Locked(t) && FireWith(t, d) == (t, None)
  {
    StaysLocked(Lock(s), events);
  }

  lemma StepLocked<F, D>(s: State<F, D>, e: Event<F, D>)
    requires s.Valid() && Locked(s) && (s.fired || !e.EmptyList?)
    ensures Locked(Step(s, e).0) && (s.fired ==> Step(s, e).0.fired)
  {
  }

  lemma {:induction false} StaysLocked<F, D>(s: State<F, D>, events: seq<Event<F, D>>)
    requires s.Valid() && Locked(s) && (s.fired || EmptyList !in events)
    ensures Locked(Run(s, events).0) && (s.fired ==> Run(s, events).0.fired)
    decreases |events|
  {
    hide Step, Locked;
    if events != [] {
      var n := |events| - 1;
      assert events[n] in events;
      StaysLocked(s, events[..n]);
      StepLocked(Run(s, events[..n]).0, events[n]);
    }
  }

  /** A disabled list calls nothing over any run that follows, unless it is emptied too early: before it has
      ever fired or while it is still firing. */
  lemma {:induction false} DisabledForGood<F, D>(s: State<F, D>, events: seq<Event<F, D>>)
    requires s.Valid() && s.list.None? && (EmptyList !in events || (s.fired && !s.firing))
    ensures Run(s, events).1 == []
  {
    StaysMute(s, events, EmptyList !in events);
  }

  /** Disabled, or a list that has had its only firing and remembers nothing. */
  ghost predicate Mute<F, D>(s: State<F, D>, disabled: bool) {
    && s.Valid() && s.stack.None? && s.memory.None?
    && if disabled then s.list.None? else s.fired && !s.firing
  }

  lemma StepMute<F, D>(s: State<F, D>, e: Event<F, D>, disabled: bool)
    requires Mute(s, disabled) && (disabled ==> !e.EmptyList?)
    ensures Step(s, e).1 == None && Mute(Step(s, e).0, disabled)
  {
  }

  lemma {:induction false} StaysMute<F, D>(s: State<F, D>, events: seq<Event<F, D>>, disabled: bool)
    requires Mute(s, disabled) && (disabled ==> EmptyList !in events)
    ensures s.Valid() && Run(s, events).1 == [] && Mute(Run(s, events).0, disabled)
    decreases |events|
  {
    if events != [] {
      var n := |events| - 1;
      assert events[n] in events;
      StaysMute(s, events[..n], disabled);
      assert s.Valid();
      hide Step, Mute;
      StepMute(Run(s, events[..n]).0, events[n], disabled);
    }
  }

  function Copies<F>(n: nat, f: F): (r: seq<F>)
    ensures |r| == n
  {
    seq(n, _ => f)
  }

  /** In those two cases it really does come back: before it has fired, */
  lemma EmptyRevives<F, D>(s: State<F, D>, f: F, d: D)
    requires s.Valid() && s.list.None? && !s.fired
    ensures Run(s, [EmptyList, AddFns([f]), Fire(d)]).1 == [(f, d)]
  {
    var t := Empty(s);
    var u := Add(t, [f]).0;
    assert u.list == Some([f]) by { assert [] + [f] == [f]; }
    assert u.Valid() && u.firingStart == 0;
    assert FireWith(u, d) == Begin(u, d);
    assert Begin(u, d).1 == Some((f, d));
    hide Add, Empty, FireWith;
    ThreeEvents(s, EmptyList, AddFns([f]), Fire(d));
  }

  /** and while it is firing. */
  lemma EmptyRevivesFiring<F, D>(s: State<F, D>, f: F)
    requires s.Valid() && s.list.None? && s.firing
    ensures Run(s, [EmptyList, AddFns(Copies(s.firingIndex + 2, f)), Returns]).1 == [(f, s.data.value)]
  {
    var fns := Copies(s.firingIndex + 2, f);
    var t := Empty(s);
    var u := Add(t, fns).0;
    assert u.list == Some(fns) by { assert [] + fns == fns; }
    assert Return(u).1 == Some((f, s.data.value));
    hide Add, Empty, Return;
    ThreeEvents(s, EmptyList, AddFns(fns), Returns);
  }

  lemma ThreeEvents<F, D>(s: State<F, D>, a: Event<F, D>, b: Event<F, D>, c: Event<F, D>)
    requires s.Valid()
    ensures var t := Step(s, a);
            var u := Step(t.0, b);
            var v := Step(u.0, c);
            Run(s, [a, b, c]) == (v.0, ToSeq(t.1) + ToSeq(u.1) + ToSeq(v.1))
  {
    hide Step;
    assert [a, b, c][..2] == [a, b] && [a, b][..1] == [a] && [a][..0] == [];
    assert Run(s, []) == (s, []);
    assert [] + ToSeq(Step(s, a).1) == ToSeq(Step(s, a).1);
    assert Run(s, [a]) == (Step(s, a).0, ToSeq(Step(s, a).1));
  }

  // ---- one firing of a list at rest ----

  /** The firing of d under way: the callback at index i is running. */
  function Calling<F, D>(s: State<F, D>, list: seq<F>, d: D, i: nat): State<F, D> {
    s.(list := Some(list), memory := if s.remember then Some(d) else None, fired := true, firing := true,
       data := Some(d), firingIndex := i, firingStart := 0, firingLength := |list|)
  }

  /** What the list is after it. A list that fires once is disabled then; with memory it is empty instead, and ready
      to call what is added later. */
  ghost predicate Rested<F, D>(s: State<F, D>, list: seq<F>, d: D, r: State<F, D>) {
    && r.fired && !r.firing && r.once == s.once && r.remember == s.remember
    && r.list == (if !s.once then Some(list) else if s.remember then Some([]) else None)
    && r.memory == (if s.remember then Some(d) else None)
    && (!s.once ==> r.stack == s.stack)
  }

  /** At rest, and not locked. */
  predicate Resting<F, D>(s: State<F, D>) {
    s.list.Some? && !s.firing && (s.stack.Some? <==> !s.once)
  }

  /** An event and the returns of the callbacks it leads to. */
  function Led<F, D>(e: Event<F, D>, n: nat): seq<Event<F, D>> {
    [e] + Copies(n, Returns)
  }

  lemma LedMore<F, D>(e: Event<F, D>, n: nat)
    ensures n > 0 ==> var es := Led(e, n); |es| == n + 1 && es[..n] == Led(e, n - 1) && es[n] == Returns
    ensures Led(e, 0) == [e]
  {
  }

  lemma RunLast<F, D>(s: State<F, D>, es: seq<Event<F, D>>)
    requires s.Valid() && es != []
    ensures var (t, log) := Run(s, es[..|es| - 1]);
            var (u, call) := Step(t, es[|es| - 1]);
            Run(s, es) == (u, log + ToSeq(call))
  {
    hide Step;
  }

  lemma RunOne<F, D>(s: State<F, D>, e: Event<F, D>)
    requires s.Valid()
    ensures Run(s, [e]) == (Step(s, e).0, ToSeq(Step(s, e).1))
  {
    hide Step;
    assert [e][..0] == [];
    assert [] + ToSeq(Step(s, e).1) == ToSeq(Step(s, e).1);
  }

  lemma OneCall<F, D>(list: seq<F>, d: D, from: nat, to: nat)
    requires from <= to < |list|
    ensures ToSeq(Some((list[to], d))) == Calls(list[to..to + 1], d)
    ensures Calls(list[from..to], d) + ToSeq(Some((list[to], d))) == Calls(list[from..to + 1], d)
    ensures Calls(list[from..to], d) + ToSeq<F, D>(None) == Calls(list[from..to], d)
  {
  }

  lemma NextCall<F, D>(s: State<F, D>, list: seq<F>, d: D, i: nat)
    requires s.Valid() && 0 < i < |list| && Calling(s, list, d, i - 1).Valid()
    ensures Step(Calling(s, list, d, i - 1), Returns) == (Calling(s, list, d, i), Some((list[i], d)))
  {
  }

  lemma CallingValid<F, D>(s: State<F, D>, list: seq<F>, d: D, i: nat)
    requires s.Valid() && s.list.Some?
    ensures Calling(s, list, d, i).Valid() && Calling(s, list, d, i).firing
  {
  }

  lemma {:induction false} CallsOn<F, D>(s: State<F, D>, e: Event<F, D>, list: seq<F>, d: D, from: nat, j: nat)
    requires s.Valid() && s.list.Some? && from + j < |list|
    requires Step(s, e) == (Calling(s, list, d, from), Some((list[from], d)))
    ensures Run(s, Led(e, j)) == (Calling(s, list, d, from + j), Calls(list[from..from + j + 1], d))
    decreases j
  {
    hide *;
    LedMore(e, j);
    OneCall(list, d, from, from + j);
    if j == 0 {
      RunOne(s, e);
    } else {
      CallsOn(s, e, list, d, from, j - 1);
      CallingValid(s, list, d, from + j - 1);
      NextCall(s, list, d, from + j);
      RunLast(s, Led(e, j));
    }
  }

  /** The return of the last callback, or a firing with nothing to call. */
  lemma LastTurn<F, D>(s: State<F, D>, list: seq<F>, d: D)
    requires s.Valid() && Resting(s) && Calling(s, list, d, |list|).Valid()
    ensures var (r, call) := Turn(Calling(s, list, d, |list|)); call == None && Rested(s, list, d, r)
  {
  }

  lemma LastReturn<F, D>(s: State<F, D>, list: seq<F>, d: D)
    requires s.Valid() && Resting(s) && list != []
    ensures var n := |list| - 1;
            && Calling(s, list, d, n).Valid()
            && var (r, call) := Step(Calling(s, list, d, n), Returns); call == None && Rested(s, list, d, r)
  {
    CallingValid(s, list, d, |list| - 1);
    CallingValid(s, list, d, |list|);
    LastTurn(s, list, d);
    hide Turn, Rested;
  }

  /** From the first call through the last return. */
  lemma CalledThrough<F, D>(s: State<F, D>, e: Event<F, D>, list: seq<F>, d: D, from: nat)
    requires s.Valid() && Resting(s) && from < |list|
    requires Step(s, e) == (Calling(s, list, d, from), Some((list[from], d)))
    ensures var (r, log) := Run(s, Led(e, |list| - from)); log == Calls(list[from..], d) && Rested(s, list, d, r)
  {
    hide *;
    RestingList(s);
    var n := |list| - from;
    CallsOn(s, e, list, d, from, n - 1);
    LedMore(e, n);
    LastReturn(s, list, d);
    RunLast(s, Led(e, n));
    OneCall(list, d, from, |list| - 1);
    NoCall(list[from..], d);
    assert list[from..from + n] == list[from..];
  }

  lemma NoCall<F, D>(fns: seq<F>, d: D)
    ensures Calls(fns, d) + ToSeq<F, D>(None) == Calls(fns, d)
    ensures fns == [] ==> Calls(fns, d) == ToSeq<F, D>(None)
  {
  }

  lemma RestingList<F, D>(s: State<F, D>)
    requires Resting(s)
    ensures s.list.Some? && !s.firing && (s.stack.Some? <==> !s.once)
  {
  }

  lemma FireStarts<F, D>(s: State<F, D>, d: D)
    requires s.Valid() && Resting(s) && (s.once ==> !s.fired)
    ensures s.list.Some? && Calling(s, s.list.value, d, 0).Valid()
    ensures Step(s, Fire(d)) == Turn(Calling(s, s.list.value, d, 0))
    ensures s.list.value != [] ==> Step(s, Fire(d)) == (Calling(s, s.list.value, d, 0), Some((s.list.value[0], d)))
  {
  }

  /** One firing calls every callback of the list, in order, with its data; then the list rests. */
  lemma OneFiring<F, D>(s: State<F, D>, d: D)
    requires s.Valid() && Resting(s) && (s.once ==> !s.fired)
    ensures var (r, log) := Run(s, Led(Fire(d), |s.list.value|));
            log == Calls(s.list.value, d) && Rested(s, s.list.value, d, r)
  {
    hide *;
    RestingList(s);
    var list := s.list.value;
    FireStarts(s, d);
    NoCall(list, d);
    if list == [] {
      LastTurn(s, list, d);
      LedMore<F, D>(Fire(d), 0);
      RunOne(s, Fire(d));
    } else {
      CalledThrough(s, Fire(d), list, d, 0);
      assert list[0..] == list;
    }
  }

  lemma AddStarts<F, D>(s: State<F, D>, fns: seq<F>)
    requires s.Valid() && Resting(s) && fns != []
    ensures var list, k := s.list.value + fns, |s.list.value|;
            if s.memory.Some? then Step(s, AddFns(fns)) == (Calling(s, list, s.memory.value, k),
                                                            Some((list[k], s.memory.value)))
            else Step(s, AddFns(fns)) == (s.(list := Some(list)), None)
  {
    var list, k := s.list.value + fns, |s.list.value|;
    assert k < |list|;
    if s.memory.Some? {
      var d := s.memory.value;
      var t := s.(list := Some(list), firingStart := k);
      assert Add(s, fns) == Begin(t, d);
      assert Begin(t, d) == Turn(Calling(s, list, d, k));
    }
  }

  /** Adding to a list at rest calls the new callbacks at once if the list remembers a firing, with its data, and calls
      nothing otherwise. */
  lemma AddedLater<F, D>(s: State<F, D>, fns: seq<F>)
    requires s.Valid() && Resting(s) && fns != []
    ensures var (r, log) := Run(s, Led(AddFns(fns), if s.memory.Some? then |fns| else 0));
            if s.memory.Some? then
              log == Calls(fns, s.memory.value) && Rested(s, s.list.value + fns, s.memory.value, r)
            else log == [] && r == s.(list := Some(s.list.value + fns))
  {
    hide *;
    RestingList(s);
    AddStarts(s, fns);
    LedMore<F, D>(AddFns(fns), 0);
    var list, k := s.list.value + fns, |s.list.value|;
    if s.memory.Some? {
      CalledThrough(s, AddFns(fns), list, s.memory.value, k);
      assert list[k..] == fns;
    } else {
      RunOne(s, AddFns(fns));
      NoCalls<F, D>();
    }
  }

  lemma NoCalls<F, D>()
    ensures ToSeq<F, D>(None) == []
  {
  }

  /** Over any run: a list without memory remembers nothing. */
  lemma {:induction false} NoMemory<F, D>(once: bool, events: seq<Event<F, D>>)
    ensures var s := Run(Fresh<F, D>(once, false), events).0; s.memory.None? && !s.remember
    decreases |events|
  {
    hide Step;
    if events != [] {
      var n := |events| - 1;
      NoMemory(once, events[..n]);
      StepNoMemory(Run(Fresh<F, D>(once, false), events[..n]).0, events[n]);
    }
  }

  lemma StepNoMemory<F, D>(s: State<F, D>, e: Event<F, D>)
    requires s.Valid() && s.memory.None? && !s.remember
    ensures Step(s, e).0.memory.None? && !Step(s, e).0.remember
  {
    match e
    case Fire(d) => FireNoMemory(s, d);
    case Returns =>
      if s.firing {
        TurnNoMemory(s.(firingIndex := s.firingIndex + 1));
      }
    case _ =>
  }

  lemma FireNoMemory<F, D>(s: State<F, D>, d: D)
    requires s.Valid() && s.memory.None? && !s.remember
    ensures FireWith(s, d).0.memory.None?
  {
    if s.list.Some? && (!s.fired || s.stack.Some?) && !s.firing {
      TurnNoMemory(s.(memory := None, fired := true, firing := true, data := Some(d), firingIndex := s.firingStart,
                      firingStart := 0, firingLength := |s.list.value|));
    }
  }

  lemma {:induction false} TurnNoMemory<F, D>(s: State<F, D>)
    requires s.Valid() && s.firing && 0 <= s.firingIndex && s.memory.None? && !s.remember
    ensures Turn(s).0.memory.None?
    decreases if s.stack.Some? then |s.stack.value| else 0
  {
    if !(s.list.Some? && s.firingIndex < s.firingLength) && s.list.Some? && s.stack.Some? && s.stack.value != [] {
      TurnNoMemory(s.(stack := Some(s.stack.value[1..]), memory := None, fired := true, firing := true,
                      data := Some(s.stack.value[0]), firingIndex := s.firingStart, firingStart := 0,
                      firingLength := |s.list.value|));
    }
  }
}
