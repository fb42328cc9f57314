/** jQuery.when over real deferreds: what the subordinates deliver to the closure of `when`, and when. The same
    deferred may be given several times. */
module WhenDeferreds {
  import opened Options
  import opened Announcements
  import opened Callbacks
  import opened Deferred
  import opened DeferredProof
  import Notices
  import opened When

  /** The callbacks on a deferred: the three that `when` adds for argument i, and everybody else's. */
  datatype Listener<X> = Update(i: nat) | RejectMaster(i: nat) | Report(i: nat) | Other(x: X)

  type Entry<X, V> = (Which, Listener<X>, V)

  /** An argument of `when`: a plain value, or deferred number p. */
  datatype Source<V> = Value(v: V) | At(p: nat)

  /** Nobody but `when` adds the callbacks of `when`. */
  ghost predicate Foreign<X, V>(e: Action<Listener<X>, V>) {
    e.AddTo? ==> forall u | u in e.us :: u.Other?
  }

  ghost predicate AllForeign<X, V>(actions: seq<Action<Listener<X>, V>>) {
    forall e | e in actions :: Foreign(e)
  }

  /** What a call tells `when` about the end of argument i. */
  function Told<X, V>(entry: Entry<X, V>, i: nat): Option<Outcome<V>> {
    if entry.0 == Done && entry.1 == Update(i) then Some(Success(entry.2))
    else if entry.0 == Fail && entry.1 == RejectMaster(i) then Some(Failure(entry.2))
    else None
  }

  /** The first thing a deferred's calls have told `when` about argument i. */
  ghost function Delivered<X, V>(log: seq<Entry<X, V>>, i: nat): Option<Outcome<V>> {
    if log == [] then None
    else
      var before := Delivered(log[..|log| - 1], i);
      if before.Some? then before else Told(log[|log| - 1], i)
  }

  ghost predicate AtMostOnce<X>(us: seq<Listener<X>>, u: Listener<X>) {
    forall j, k | 0 <= j < k < |us| :: !(us[j] == u && us[k] == u)
  }

  /** The listeners of `when` for argument i sit on the right lists, once. */
  ghost predicate WiredFor<X, V>(actions: seq<Action<Listener<X>, V>>, i: nat) {
    && AtMostOnce(Added(actions, Done), Update(i)) && RejectMaster(i) !in Added(actions, Done)
    && AtMostOnce(Added(actions, Fail), RejectMaster(i)) && Update(i) !in Added(actions, Fail)
  }

  ghost predicate Wired<X, V>(actions: seq<Action<Listener<X>, V>>) {
    forall i: nat :: WiredFor(actions, i)
  }

  // ---- one action calls at most one user callback ----

  ghost predicate LogGrowsByOne<U, A>(before: seq<(Which, U, A)>, after: seq<(Which, U, A)>) {
    after == before || (|after| == |before| + 1 && after[..|before|] == before)
  }

  lemma {:induction false} DispatchLogs<U, A>(d: Deferred<U, A>, w: Which, call: Call<Fn<U>, A>)
    requires d.Sound() && (call.Some? ==> call == AboutToCall(d.Get(w)))
    ensures LogGrowsByOne(d.log, Dispatch(d, w, call).log)
    decreases if call.Some? then d.Get(w).firingLength - d.Get(w).firingIndex else 0
  {
    if call.Some? && !call.value.0.User? {
      var e := Effect(d, w, call.value.0);
      var (s, next) := Return(e.Get(w));
      assert next.Some? ==> s.firingIndex == d.Get(w).firingIndex + 1 && s.firingLength == d.Get(w).firingLength;
      DispatchLogs(e.Set(w, s), w, next);
    }
  }

  lemma AddLogs<U, A>(d: Deferred<U, A>, w: Which, us: seq<U>)
    requires d.Sound()
    ensures LogGrowsByOne(d.log, Apply(d, AddTo(w, us)).log)
  {
    hide Dispatch;
    var (s, call) := Add(d.Get(w), Users(us));
    DispatchLogs(d.Set(w, s), w, call);
  }

  lemma ReturnLogs<U, A>(d: Deferred<U, A>)
    requires d.Sound()
    ensures LogGrowsByOne(d.log, Apply(d, Action.Returns).log)
  {
    hide Dispatch;
    if d.frames != [] && d.Get(d.frames[|d.frames| - 1]).firing {
      var w := d.frames[|d.frames| - 1];
      var (s, call) := Return(d.Get(w));
      DispatchLogs(d.Set(w, s).(frames := d.frames[..|d.frames| - 1]), w, call);
    }
  }

  lemma OneCall<U, A>(d: Deferred<U, A>, e: Action<U, A>)
    requires d.Sound()
    ensures LogGrowsByOne(d.log, Apply(d, e).log)
  {
    hide Dispatch, FireWith, Add, Return, FireList, LogGrowsByOne;
    match e
    case AddTo(w, us) => AddLogs(d, w, us);
    case Resolve(a) => FireLogs(d, Done, a);
    case Reject(a) => FireLogs(d, Fail, a);
    case Notify(a) => FireLogs(d, Progress, a);
    case Returns => ReturnLogs(d);
  }

  lemma FireLogs<U, A>(d: Deferred<U, A>, w: Which, a: A)
    requires d.Sound()
    ensures LogGrowsByOne(d.log, FireList(d, w, a).log)
  {
    hide Dispatch;
    var (s, call) := FireWith(d.Get(w), a);
    DispatchLogs(d.Set(w, s), w, call);
  }

  // ---- each subordinate delivers at most once ----

  lemma {:induction false} DeliveredWas<X, V>(log: seq<Entry<X, V>>, i: nat) returns (j: nat)
    requires Delivered(log, i).Some?
    ensures j < |log| && Told(log[j], i) == Delivered(log, i)
  {
    var n := |log| - 1;
    if Delivered(log[..n], i).Some? {
      j := DeliveredWas(log[..n], i);
    } else {
      j := n;
    }
  }

  /** Entry j of the log is a call of its list, before all later ones. */
  lemma {:induction false} EntryIsCall<U, A>(log: seq<(Which, U, A)>, j: nat) returns (k: nat)
    requires j < |log|
    ensures k < |CallsOf(log, log[j].0)| && CallsOf(log, log[j].0)[k] == (log[j].1, log[j].2)
    decreases |log|
  {
    var n := |log| - 1;
    if j < n {
      k := EntryIsCall(log[..n], j);
    } else {
      k := |CallsOf(log[..n], log[n].0)|;
    }
  }

  /** A call on a settled deferred is one of the callbacks added to the winning list. */
  lemma CallWasAdded<U, A>(actions: seq<Action<U, A>>, w: Which, k: nat)
    requires w != Progress && k < |CallsOf(After(actions).log, w)|
    ensures k < |Added(actions, w)| && CallsOf(After(actions).log, w)[k].0 == Added(actions, w)[k]
    ensures Settlement(actions) == Some((w, CallsOf(After(actions).log, w)[k].1))
  {
    SettlesOnce(actions);
    hide After, Settlement, Added, CallsOf;
    var calls, a := CallsOf(After(actions).log, w), Settlement(actions).value.1;
    assert Settlement(actions).value.0 == w;
    assert calls == Calls(Added(actions, w)[..|calls|], a);
  }

  /** A log of a wired run never tells `when` a second time about the same argument. */
  lemma ToldOnce<X, V>(actions: seq<Action<Listener<X>, V>>, log: seq<Entry<X, V>>, x: Entry<X, V>, i: nat)
    requires WiredFor(actions, i) && After(actions).log == log + [x]
    ensures Delivered(log, i).None? || Told(x, i).None?
  {
    hide After, Settlement, Added, CallsOf;
    if Delivered(log, i).Some? && Told(x, i).Some? {
      var j := DeliveredWas(log, i);
      var k := EntryIsCall(log, j);
      LogGrows(log, x.0, x.1, x.2);
      var last := |CallsOf(log, x.0)|;
      CallWasAdded(actions, x.0, last);
      CallWasAdded(actions, log[j].0, k);
    }
  }

  // ---- a run of one subordinate, action by action ----

  lemma AddedMore<U, A>(actions: seq<Action<U, A>>, e: Action<U, A>, w: Which)
    ensures Added(actions + [e], w) == Added(actions, w) + if e.AddTo? && e.w == w then e.us else []
    ensures After(actions + [e]) == Apply(After(actions), e)
  {
    assert (actions + [e])[..|actions|] == actions;
  }

  lemma OnlyOthers<X>(us: seq<Listener<X>>)
    requires forall u | u in us :: u.Other?
    ensures forall k | 0 <= k < |us| :: us[k].Other?
  {
    forall k | 0 <= k < |us|
      ensures us[k].Other?
    {
      assert us[k] in us;
    }
  }

  lemma {:induction false} ForeignAdds<X, V>(actions: seq<Action<Listener<X>, V>>, w: Which)
    requires AllForeign(actions)
    ensures forall u | u in Added(actions, w) :: u.Other?
  {
    if actions != [] {
      var n := |actions| - 1;
      assert actions[n] in actions;
      ForeignAdds(actions[..n], w);
    }
  }

  /** Before `when` is called nothing of it is on a deferred. */
  lemma ForeignWired<X, V>(actions: seq<Action<Listener<X>, V>>, i: nat)
    requires AllForeign(actions)
    ensures WiredFor(actions, i) && Update(i) !in Added(actions, Done) && RejectMaster(i) !in Added(actions, Fail)
  {
    ForeignAdds(actions, Done);
    ForeignAdds(actions, Fail);
    OnlyOthers(Added(actions, Done));
    OnlyOthers(Added(actions, Fail));
    hide Added;
  }

  /** What has not been attached has told nothing. */
  lemma Unheard<X, V>(actions: seq<Action<Listener<X>, V>>, i: nat)
    requires Update(i) !in Added(actions, Done) && RejectMaster(i) !in Added(actions, Fail)
    ensures Delivered(After(actions).log, i) == None
  {
    hide After, Added, CallsOf;
    var log := After(actions).log;
    if Delivered(log, i).Some? {
      var j := DeliveredWas(log, i);
      var k := EntryIsCall(log, j);
      CallWasAdded(actions, log[j].0, k);
    }
  }

  /** `when` may add each of its listeners if it has not done so, everybody else may do anything. */
  ghost predicate Allowed<X, V>(actions: seq<Action<Listener<X>, V>>, e: Action<Listener<X>, V>) {
    || Foreign(e)
    || (|e.us| == 1 && e.us[0] !in Added(actions, e.w)
        && match e.us[0]
           case Update(_) => e.w == Done
           case RejectMaster(_) => e.w == Fail
           case Report(_) => e.w == Progress
           case Other(_) => true)
  }

  lemma StillOnce<X>(us: seq<Listener<X>>, more: seq<Listener<X>>, u: Listener<X>)
    requires AtMostOnce(us, u)
    requires u !in more || (u !in us && more == [u])
    ensures AtMostOnce(us + more, u)
  {
    forall i, j | 0 <= i < j < |us + more|
      ensures !((us + more)[i] == u && (us + more)[j] == u)
    {
      if i < |us| {
        assert (us + more)[i] in us;
      }
      if j >= |us| {
        assert (us + more)[j] in more;
      }
    }
  }

  lemma StaysWired<X, V>(actions: seq<Action<Listener<X>, V>>, e: Action<Listener<X>, V>, i: nat)
    requires WiredFor(actions, i) && Allowed(actions, e)
    ensures WiredFor(actions + [e], i)
  {
    AddedMore(actions, e, Done);
    AddedMore(actions, e, Fail);
    var done, fail := if e.AddTo? && e.w == Done then e.us else [], if e.AddTo? && e.w == Fail then e.us else [];
    WhatIsAdded(actions, e, i);
    hide *;
    StillOnce(Added(actions, Done), done, Update(i));
    StillOnce(Added(actions, Fail), fail, RejectMaster(i));
    JoinWired(actions, actions + [e], done, fail, i);
  }

  lemma WhatIsAdded<X, V>(actions: seq<Action<Listener<X>, V>>, e: Action<Listener<X>, V>, i: nat)
    requires WiredFor(actions, i) && Allowed(actions, e)
    ensures AtMostOnce(Added(actions, Done), Update(i)) && AtMostOnce(Added(actions, Fail), RejectMaster(i))
    ensures e.AddTo? && e.w == Done ==>
              RejectMaster(i) !in e.us
                && (Update(i) in e.us ==> Update(i) !in Added(actions, Done) && e.us == [Update(i)])
    ensures e.AddTo? && e.w == Fail ==>
              Update(i) !in e.us
              && (RejectMaster(i) in e.us ==> RejectMaster(i) !in Added(actions, Fail) && e.us == [RejectMaster(i)])
  {
    hide Added, AtMostOnce;
    if Foreign(e) {
      if e.AddTo? {
        NotForeign(e.us, Update(i));
        NotForeign(e.us, RejectMaster(i));
      }
    } else {
      OneOf(e.us);
    }
  }

  lemma NotForeign<X>(us: seq<Listener<X>>, u: Listener<X>)
    requires (forall v | v in us :: v.Other?) && !u.Other?
    ensures u !in us
  {
  }

  lemma OneOf<U>(us: seq<U>)
    requires |us| == 1
    ensures us == [us[0]] && forall u | u in us :: u == us[0]
  {
  }

  lemma JoinWired<X, V>(actions: seq<Action<Listener<X>, V>>, next: seq<Action<Listener<X>, V>>,
                        done: seq<Listener<X>>, fail: seq<Listener<X>>, i: nat)
    requires WiredFor(actions, i)
    requires Added(next, Done) == Added(actions, Done) + done && Added(next, Fail) == Added(actions, Fail) + fail
    requires AtMostOnce(Added(next, Done), Update(i)) && AtMostOnce(Added(next, Fail), RejectMaster(i))
    requires RejectMaster(i) !in done && Update(i) !in fail
    ensures WiredFor(next, i)
  {
    hide Added, AtMostOnce;
  }

  /** One action on a deferred, and the one call it may lead to. What `when` hears of each argument agrees with
      what the deferred has delivered for it, and it hears of the end only once. */
  method Act<X, V>(d: Deferred<Listener<X>, V>, e: Action<Listener<X>, V>, ghost past: seq<Action<Listener<X>, V>>)
    returns (r: Deferred<Listener<X>, V>, heard: Option<Entry<X, V>>)
    requires d == After(past) && Wired(past) && Allowed(past, e)
    ensures r == Apply(d, e) == After(past + [e]) && Wired(past + [e])
    ensures r.log == d.log + if heard.Some? then [heard.value] else []
    ensures forall i: nat :: Agrees(d.log, r.log, heard, i)
  {
    AddedMore(past, e, Done);
    OneCall(d, e);
    GrownLog(d.log, Apply(d, e).log);
    AllStayWired(past, e);
    hide *;
    r := Apply(d, e);
    heard := None;
    if |r.log| > |d.log| {
      heard := Some(r.log[|d.log|]);
      forall i: nat {
        CallAgrees(past + [e], d.log, heard.value, i);
      }
    } else {
      forall i: nat {
        SilenceAgrees(d.log, heard, i);
      }
    }
  }

  /** A call tells of argument i for the first time, or leaves it as it was. */
  ghost predicate Agrees<X, V>(before: seq<Entry<X, V>>, after: seq<Entry<X, V>>, heard: Option<Entry<X, V>>, i: nat) {
    var end := if heard.Some? then Told(heard.value, i) else None;
    && (end.Some? ==> Delivered(before, i) == None)
    && Delivered(after, i) == if end.Some? then end else Delivered(before, i)
  }

  lemma AllStayWired<X, V>(actions: seq<Action<Listener<X>, V>>, e: Action<Listener<X>, V>)
    requires Wired(actions) && Allowed(actions, e)
    ensures Wired(actions + [e])
  {
    hide WiredFor, Allowed;
    forall i: nat
      ensures WiredFor(actions + [e], i)
    {
      StaysWired(actions, e, i);
    }
  }

  lemma CallAgrees<X, V>(actions: seq<Action<Listener<X>, V>>, log: seq<Entry<X, V>>, x: Entry<X, V>, i: nat)
    requires Wired(actions) && After(actions).log == log + [x]
    ensures Agrees(log, log + [x], Some(x), i)
  {
    hide After, WiredFor;
    ToldOnce(actions, log, x, i);
    DeliveredMore(log, x, i);
  }

  lemma SilenceAgrees<X, V>(log: seq<Entry<X, V>>, heard: Option<Entry<X, V>>, i: nat)
    requires heard.None?
    ensures Agrees(log, log, heard, i)
  {
  }

  lemma GrownLog<U, A>(before: seq<(Which, U, A)>, after: seq<(Which, U, A)>)
    requires LogGrowsByOne(before, after)
    ensures |after| > |before| ==> after == before + [after[|before|]]
    ensures |after| <= |before| ==> after == before
  {
  }

  lemma DeliveredMore<X, V>(log: seq<Entry<X, V>>, x: Entry<X, V>, i: nat)
    ensures Delivered(log + [x], i) == if Delivered(log, i).Some? then Delivered(log, i) else Told(x, i)
  {
    assert (log + [x])[..|log|] == log;
  }

  /** What `when` has heard of an argument while attaching to it: its end, and its latest report. */
  datatype News<V> = News(end: Option<Outcome<V>>, report: Option<V>)

  function Noted<X, V>(news: News<V>, x: Entry<X, V>, i: nat): News<V> {
    if Told(x, i).Some? then news.(end := Told(x, i))
    else if x.0 == Progress && x.1 == Report(i) then news.(report := Some(x.2))
    else news
  }

  /** A callback added to a list that is at rest is called at once if the list remembers, and nothing else is;
      when it has returned the list is at rest again. */
  lemma AddOne<F, D>(s: State<F, D>, f: F)
    requires s.Valid()
    ensures var (t, call) := Add(s, [f]);
            call.Some? ==> call.value.0 == f && t.firing && t.Valid() && Return(t).1.None?
  {
    if s.list.Some? && !s.firing && s.memory.Some? {
      var list := s.list.value + [f];
      var t := s.(list := Some(list), firingStart := |s.list.value|);
      assert list[|s.list.value|] == f;
      assert Add(s, [f]) == Begin(t, s.memory.value);
      var u := t.(memory := if s.remember then s.memory else None, fired := true, firing := true, data := s.memory,
                  firingIndex := |s.list.value|, firingStart := 0, firingLength := |list|);
      assert Begin(t, s.memory.value) == (u, Some((f, s.memory.value)));
      assert u.stack.Some? ==> u.stack.value == [];
      assert Turn(u.(firingIndex := |list|)).1.None?;
    }
  }

  lemma HookCalls<U, A>(d: Deferred<U, A>, w: Which, u: U)
    requires d.Sound()
    ensures var r := Apply(d, AddTo(w, [u]));
            && (|r.log| > |d.log| ==>
                  && |r.log| == |d.log| + 1 && r.log[|d.log|].0 == w && r.log[|d.log|].1 == u
                  && Apply(r, Action.Returns).log == r.log)
  {
    assert Users([u]) == [User(u)];
    AddOne(d.Get(w), User(u));
    hide Add, Return;
    var (s, call) := Add(d.Get(w), Users([u]));
    if call.Some? {
      var r := Apply(d, AddTo(w, [u]));
      assert r.frames == d.frames + [w] && r.Get(w) == s;
    }
  }

  /** One listener is added for argument i; if that calls it at once, it returns. */
  method Hook<X, V>(d: Deferred<Listener<X>, V>, w: Which, u: Listener<X>, i: nat, news0: News<V>,
                    ghost past: seq<Action<Listener<X>, V>>)
    returns (r: Deferred<Listener<X>, V>, news: News<V>, ghost run: seq<Action<Listener<X>, V>>)
    requires d == After(past) && Wired(past) && Allowed(past, AddTo(w, [u])) && !u.Other? && u.i == i
    requires news0.end == Delivered(d.log, i)
    ensures r == After(run) && Wired(run) && news.end == Delivered(r.log, i)
    ensures past <= run && forall v: Which :: Added(run, v) == Added(past, v) + if v == w then [u] else []
    ensures forall k: nat | k != i :: Delivered(r.log, k) == Delivered(d.log, k)
  {
    HookCalls(d, w, u);
    HookAdds(past, w, u);
    hide *;
    var heard;
    r, heard := Act(d, AddTo(w, [u]), past);
    news, run := news0, past + [AddTo(w, [u])];
    forall k: nat {
      Hears(d.log, r.log, heard, k);
    }
    if heard.Some? {
      HookNoted(news, heard.value, i);
      news := Noted(news, heard.value, i);
      ReturnsAllowed(run);
      r, heard := Act(r, Action.Returns, run);
      run := run + [Action.Returns];
    }
  }

  lemma HookNoted<X, V>(news: News<V>, x: Entry<X, V>, i: nat)
    ensures Noted(news, x, i).end == if Told(x, i).Some? then Told(x, i) else news.end
  {
  }

  lemma HookAdds<U, A>(past: seq<Action<U, A>>, w: Which, u: U)
    ensures var run := past + [AddTo(w, [u])];
            forall v: Which ::
              && Added(run, v) == Added(past, v) + (if v == w then [u] else [])
              && Added(run + [Action.Returns], v) == Added(past, v) + (if v == w then [u] else [])
    ensures After(past + [AddTo(w, [u])]) == Apply(After(past), AddTo(w, [u]))
  {
    var run := past + [AddTo(w, [u])];
    forall v: Which
      ensures Added(run, v) == Added(past, v) + (if v == w then [u] else [])
      ensures Added(run + [Action.Returns], v) == Added(past, v) + (if v == w then [u] else [])
      ensures After(run) == Apply(After(past), AddTo(w, [u]))
    {
      AddedMore(past, AddTo(w, [u]), v);
      AddedMore(run, Action.Returns, v);
      assert Added(run, v) + [] == Added(run, v);
    }
  }

  lemma Hears<X, V>(before: seq<Entry<X, V>>, after: seq<Entry<X, V>>, heard: Option<Entry<X, V>>, k: nat)
    requires Agrees(before, after, heard, k)
    ensures heard.Some? && Told(heard.value, k).Some? ==>
              && !heard.value.1.Other? && heard.value.1.i == k
              && Delivered(before, k).None? && Delivered(after, k) == Told(heard.value, k)
    ensures heard.None? || Told(heard.value, k).None? ==> Delivered(after, k) == Delivered(before, k)
  {
  }

  lemma ReturnsAllowed<X, V>(actions: seq<Action<Listener<X>, V>>)
    ensures Allowed(actions, Action.Returns)
  {
  }

  /** The listeners for argument i that are on a deferred. */
  ghost predicate Hooked<X, V>(run: seq<Action<Listener<X>, V>>, i: nat) {
    && Update(i) in Added(run, Done) && RejectMaster(i) in Added(run, Fail) && Report(i) in Added(run, Progress)
  }

  ghost predicate Unhooked<X, V>(run: seq<Action<Listener<X>, V>>, i: nat) {
    && Update(i) !in Added(run, Done) && RejectMaster(i) !in Added(run, Fail) && Report(i) !in Added(run, Progress)
  }

  /** The done, fail and progress calls of `when` for argument i. */
  method Watch<X, V>(ghost past: seq<Action<Listener<X>, V>>, d: Deferred<Listener<X>, V>, i: nat)
    returns (r: Deferred<Listener<X>, V>, news: News<V>, ghost run: seq<Action<Listener<X>, V>>)
    requires d == After(past) && Wired(past) && Unhooked(past, i)
    ensures r == After(run) && Wired(run) && past <= run && news.end == Delivered(r.log, i)
    ensures Added(run, Done) == Added(past, Done) + [Update(i)]
    ensures Added(run, Fail) == Added(past, Fail) + [RejectMaster(i)]
    ensures Added(run, Progress) == Added(past, Progress) + [Report(i)]
    ensures forall k: nat | k != i :: Delivered(r.log, k) == Delivered(d.log, k)
  {
    Unheard(past, i);
    MayHook(past, i);
    hide After, Added, Wired, Delivered, Allowed, Unhooked;
    ghost var run1, run2;
    r, news, run1 := Hook(d, Done, Update(i), i, News(None, None), past);
    SameAdded(past, run1, Fail);
    SameAdded(past, run1, Progress);
    MayHook(run1, i);
    r, news, run2 := Hook(r, Fail, RejectMaster(i), i, news, run1);
    SameAdded(run1, run2, Progress);
    MayHook(run2, i);
    r, news, run := Hook(r, Progress, Report(i), i, news, run2);
    SameAdded(run1, run2, Done);
    SameAdded(run2, run, Done);
    SameAdded(run2, run, Fail);
  }

  lemma SameAdded<U, A>(a: seq<Action<U, A>>, b: seq<Action<U, A>>, w: Which)
    ensures Added(b, w) == Added(a, w) + [] ==> Added(b, w) == Added(a, w)
  {
    hide Added;
  }

  lemma MayHook<X, V>(actions: seq<Action<Listener<X>, V>>, i: nat)
    ensures Update(i) !in Added(actions, Done) ==> Allowed(actions, AddTo(Done, [Update(i)]))
    ensures RejectMaster(i) !in Added(actions, Fail) ==> Allowed(actions, AddTo(Fail, [RejectMaster(i)]))
    ensures Report(i) !in Added(actions, Progress) ==> Allowed(actions, AddTo(Progress, [Report(i)]))
    ensures Unhooked(actions, i) ==>
              && Update(i) !in Added(actions, Done) && RejectMaster(i) !in Added(actions, Fail)
              && Report(i) !in Added(actions, Progress)
  {
    hide Added;
  }

  // ---- what a delivery says about its deferred ----

  /** What `when` is told is how the deferred has settled, and once none of its callbacks is running any more it
      has been told. */
  lemma DeliveredIsSettled<X, V>(run: seq<Action<Listener<X>, V>>, i: nat)
    requires Hooked(run, i)
    ensures var d := After(run);
            && (Delivered(d.log, i).Some? ==> Settlement(run) == Some(SettledBy(Delivered(d.log, i).value)))
            && (d.frames == [] && Settlement(run).Some? ==> Delivered(d.log, i).Some?)
  {
    var log := After(run).log;
    if Delivered(log, i).Some? {
      hide After, Added, CallsOf, Settlement;
      var j := DeliveredWas(log, i);
      var k := EntryIsCall(log, j);
      CallWasAdded(run, log[j].0, k);
    } else if After(run).frames == [] && Settlement(run).Some? {
      AllCalled(run, i);
    }
  }

  function SettledBy<V>(o: Outcome<V>): (Which, V) {
    match o
    case Success(v) => (Done, v)
    case Failure(v) => (Fail, v)
  }

  /** At rest the listener of `when` on the winning list has been called. */
  lemma AllCalled<X, V>(run: seq<Action<Listener<X>, V>>, i: nat)
    requires Hooked(run, i) && After(run).frames == [] && Settlement(run).Some?
    ensures Delivered(After(run).log, i).Some?
  {
    SettlesOnce(run);
    hide After, Added, CallsOf, Settlement;
    var log, w, a := After(run).log, Settlement(run).value.0, Settlement(run).value.1;
    var us := Added(run, w);
    var u: Listener<X> := if w == Done then Update(i) else RejectMaster(i);
    var k :| 0 <= k < |us| && us[k] == u;
    assert us[..|us|] == us;
    assert CallsOf(log, w)[k] == (u, a);
    var j := CallIsEntry(log, w, k);
    Heard(log, j, i);
  }

  lemma {:induction false} CallIsEntry<U, A>(log: seq<(Which, U, A)>, w: Which, k: nat) returns (j: nat)
    requires k < |CallsOf(log, w)|
    ensures j < |log| && log[j].0 == w && (log[j].1, log[j].2) == CallsOf(log, w)[k]
  {
    var n := |log| - 1;
    if k < |CallsOf(log[..n], w)| {
      j := CallIsEntry(log[..n], w, k);
    } else {
      j := n;
    }
  }

  lemma {:induction false} Heard<X, V>(log: seq<Entry<X, V>>, j: nat, i: nat)
    requires j < |log| && Told(log[j], i).Some?
    ensures Delivered(log, i).Some?
    decreases |log|
  {
    var n := |log| - 1;
    if j < n {
      assert log[..n][j] == log[j];
      Heard(log[..n], j, i);
    }
  }

  /** Whatever a deferred calls was added to the list that calls it. */
  lemma CalledWasAdded<U, A>(actions: seq<Action<U, A>>, j: nat)
    requires j < |After(actions).log|
    ensures After(actions).log[j].1 in Added(actions, After(actions).log[j].0)
  {
    hide After, Added, CallsOf, Settlement;
    var log := After(actions).log;
    var k := EntryIsCall(log, j);
    if log[j].0 == Progress {
      var batches := Notices.NotifyPromise(actions);
      SpokenIn(Added(actions, Progress), batches, k);
    } else {
      CallWasAdded(actions, log[j].0, k);
    }
  }

  lemma {:induction false} SpokenIn<F, D>(added: seq<F>, batches: seq<Batch<D>>, k: nat)
    requires Bounded(batches, |added|) && k < |Spoken(added, batches)|
    ensures Spoken(added, batches)[k].0 in added
    decreases |batches|
  {
    if batches != [] {
      var n := |batches| - 1;
      var before := Spoken(added, batches[..n]);
      if k < |before| {
        SpokenIn(added, batches[..n], k);
      } else {
        assert Spoken(added, batches)[k].0 == added[k - |before|];
      }
    }
  }

  // ---- who is attached where ----

  /** Of the listeners of `when` only those for arguments below n that are this deferred are on it, each on its
      own list. */
  ghost predicate Placed<X, V>(run: seq<Action<Listener<X>, V>>, p: nat, sources: seq<Source<V>>, n: nat)
    requires n <= |sources|
  {
    forall w: Which, u | u in Added(run, w) :: Belongs(u, w, p, sources, n)
  }

  ghost predicate Belongs<X, V>(u: Listener<X>, w: Which, p: nat, sources: seq<Source<V>>, n: nat)
    requires n <= |sources|
  {
    match u
    case Update(i) => i < n && sources[i] == At(p) && w == Done
    case RejectMaster(i) => i < n && sources[i] == At(p) && w == Fail
    case Report(i) => i < n && sources[i] == At(p) && w == Progress
    case Other(_) => true
  }

  /** Nothing of `when` is on a deferred before it is called. */
  lemma ForeignPlaced<X, V>(actions: seq<Action<Listener<X>, V>>, p: nat, sources: seq<Source<V>>)
    requires AllForeign(actions)
    ensures Placed(actions, p, sources, 0)
  {
    hide Added;
    forall w: Which, u | u in Added(actions, w)
      ensures Belongs(u, w, p, sources, 0)
    {
      ForeignAdds(actions, w);
    }
  }

  lemma ForeignKeeps<X, V>(run: seq<Action<Listener<X>, V>>, e: Action<Listener<X>, V>, p: nat, sources: seq<Source<V>>,
                           n: nat)
    requires n <= |sources| && Placed(run, p, sources, n) && Foreign(e)
    ensures Placed(run + [e], p, sources, n)
    ensures forall i: nat | Hooked(run, i) :: Hooked(run + [e], i)
    ensures Allowed(run, e)
  {
    forall w: Which {
      AddedMore(run, e, w);
    }
    hide Added, After;
  }

  /** Attaching the next argument. */
  lemma PlacedNext<X, V>(before: seq<Action<Listener<X>, V>>, after: seq<Action<Listener<X>, V>>, p: nat,
                         sources: seq<Source<V>>, i: nat)
    requires i < |sources| && sources[i] == At(p) && Placed(before, p, sources, i)
    requires Added(after, Done) == Added(before, Done) + [Update(i)]
    requires Added(after, Fail) == Added(before, Fail) + [RejectMaster(i)]
    requires Added(after, Progress) == Added(before, Progress) + [Report(i)]
    ensures Placed(after, p, sources, i + 1) && Hooked(after, i)
    ensures forall k: nat | Hooked(before, k) :: Hooked(after, k)
  {
    hide Added;
    forall w: Which, u | u in Added(after, w)
      ensures Belongs(u, w, p, sources, i + 1)
    {
      if u in Added(before, w) {
        assert Belongs(u, w, p, sources, i);
      } else {
        match w
        case Done => assert u == Update(i);
        case Fail => assert u == RejectMaster(i);
        case Progress => assert u == Report(i);
      }
    }
  }

  lemma PlacedStays<X, V>(run: seq<Action<Listener<X>, V>>, p: nat, sources: seq<Source<V>>, i: nat)
    requires i < |sources| && Placed(run, p, sources, i)
    ensures Placed(run, p, sources, i + 1) && Unhooked(run, i)
  {
    hide Added;
    forall w: Which, u | u in Added(run, w)
      ensures Belongs(u, w, p, sources, i + 1)
    {
      assert Belongs(u, w, p, sources, i);
    }
  }

  // ---- the whole ----

  /** Deferred p, with the listeners of the arguments below n. */
  ghost predicate Stands<X, V>(d: Deferred<Listener<X>, V>, run: seq<Action<Listener<X>, V>>,
                               past: seq<Action<Listener<X>, V>>, p: nat, sources: seq<Source<V>>, n: nat)
    requires n <= |sources|
  {
    d == After(run) && Wired(run) && past <= run && Placed(run, p, sources, n)
  }

  lemma PastStands<X, V>(past: seq<Action<Listener<X>, V>>, p: nat, sources: seq<Source<V>>)
    requires AllForeign(past)
    ensures Stands(After(past), past, past, p, sources, 0)
  {
    ForeignPlaced(past, p, sources);
    hide After, WiredFor, AllForeign;
    forall i: nat
      ensures WiredFor(past, i)
    {
      ForeignWired(past, i);
    }
  }

  /** Argument i, attached to: what the closure is given. */
  ghost predicate Attached<X, V>(arg: Arg<V>, i: nat, sources: seq<Source<V>>, ds: seq<Deferred<Listener<X>, V>>,
                                 runs: seq<seq<Action<Listener<X>, V>>>)
    requires i < |sources| && |ds| == |runs|
  {
    match sources[i]
    case Value(v) => arg == Plain(v)
    case At(p) =>
      p < |ds| && arg.Subordinate? && arg.now == Delivered(ds[p].log, i) && Hooked(runs[p], i)
  }

  ghost predicate AllStand<X, V>(ds: seq<Deferred<Listener<X>, V>>, runs: seq<seq<Action<Listener<X>, V>>>,
                                 pasts: seq<seq<Action<Listener<X>, V>>>, sources: seq<Source<V>>, n: nat)
    requires n <= |sources|
  {
    |ds| == |runs| == |pasts| && forall p | 0 <= p < |pasts| :: Stands(ds[p], runs[p], pasts[p], p, sources, n)
  }

  ghost predicate AllAttached<X, V>(args: seq<Arg<V>>, sources: seq<Source<V>>, ds: seq<Deferred<Listener<X>, V>>,
                                    runs: seq<seq<Action<Listener<X>, V>>>)
    requires |args| <= |sources| && |ds| == |runs|
  {
    forall k | 0 <= k < |args| :: Attached(args[k], k, sources, ds, runs)
  }

  lemma AllStart<X, V>(ds: seq<Deferred<Listener<X>, V>>, pasts: seq<seq<Action<Listener<X>, V>>>,
                       sources: seq<Source<V>>)
    requires |ds| == |pasts| && forall p | 0 <= p < |pasts| :: AllForeign(pasts[p]) && ds[p] == After(pasts[p])
    ensures AllStand(ds, pasts, pasts, sources, 0)
  {
    hide Stands, AllForeign, After;
    forall p | 0 <= p < |pasts|
      ensures Stands(ds[p], pasts[p], pasts[p], p, sources, 0)
    {
      PastStands(pasts[p], p, sources);
    }
  }

  lemma AllGoOn<X, V>(ds: seq<Deferred<Listener<X>, V>>, runs: seq<seq<Action<Listener<X>, V>>>,
                      pasts: seq<seq<Action<Listener<X>, V>>>, sources: seq<Source<V>>, i: nat)
    requires i < |sources| && AllStand(ds, runs, pasts, sources, i)
    ensures AllStand(ds, runs, pasts, sources, i + 1)
  {
    hide Stands;
    forall p | 0 <= p < |pasts|
      ensures Stands(ds[p], runs[p], pasts[p], p, sources, i + 1)
    {
      StandsOn(ds[p], runs[p], pasts[p], p, sources, i);
    }
  }

  /** What changes on deferred p does not concern the arguments before. */
  lemma AttachedStay<X, V>(args: seq<Arg<V>>, sources: seq<Source<V>>, ds: seq<Deferred<Listener<X>, V>>,
                           runs: seq<seq<Action<Listener<X>, V>>>, p: nat, d: Deferred<Listener<X>, V>,
                           run: seq<Action<Listener<X>, V>>)
    requires |args| <= |sources| && p < |ds| == |runs| && AllAttached(args, sources, ds, runs)
    requires forall k | 0 <= k < |args| :: Delivered(d.log, k) == Delivered(ds[p].log, k)
    requires forall k: nat | Hooked(runs[p], k) :: Hooked(run, k)
    ensures AllAttached(args, sources, ds[p := d], runs[p := run])
  {
    hide Delivered, Hooked;
    forall k | 0 <= k < |args|
      ensures Attached(args[k], k, sources, ds[p := d], runs[p := run])
    {
      assert Attached(args[k], k, sources, ds, runs);
    }
  }

  /** One round of the attaching loop on a deferred. */
  method WatchOne<X, V>(ghost sources: seq<Source<V>>, i: nat, ghost p: nat, d0: Deferred<Listener<X>, V>,
                        ghost run0: seq<Action<Listener<X>, V>>, ghost past: seq<Action<Listener<X>, V>>)
    returns (arg: Arg<V>, d: Deferred<Listener<X>, V>, ghost run: seq<Action<Listener<X>, V>>)
    requires i < |sources| && sources[i] == At(p) && Stands(d0, run0, past, p, sources, i)
    ensures Stands(d, run, past, p, sources, i + 1)
    ensures arg.Subordinate? && arg.now == Delivered(d.log, i) && Hooked(run, i)
    ensures forall k: nat | k != i :: Delivered(d.log, k) == Delivered(d0.log, k)
    ensures forall k: nat | Hooked(run0, k) :: Hooked(run, k)
  {
    PlacedStays(run0, p, sources, i);
    hide After, Wired, Placed, Hooked, Unhooked, Delivered;
    var news;
    d, news, run := Watch(run0, d0, i);
    PlacedNext(run0, run, p, sources, i);
    arg := Subordinate(news.end, news.report);
  }

  /** One round of the attaching loop. */
  method WatchNext<X, V>(sources: seq<Source<V>>, i: nat, args0: seq<Arg<V>>, ds0: seq<Deferred<Listener<X>, V>>,
                         ghost runs0: seq<seq<Action<Listener<X>, V>>>, ghost pasts: seq<seq<Action<Listener<X>, V>>>)
    returns (args: seq<Arg<V>>, ds: seq<Deferred<Listener<X>, V>>, ghost runs: seq<seq<Action<Listener<X>, V>>>)
    requires |args0| == i < |sources| && (sources[i].At? ==> sources[i].p < |pasts|)
    requires AllStand(ds0, runs0, pasts, sources, i) && |ds0| == |runs0| && AllAttached(args0, sources, ds0, runs0)
    ensures |args| == i + 1 && args[..i] == args0 && (args[i].Plain? <==> sources[i].Value?)
    ensures AllStand(ds, runs, pasts, sources, i + 1) && |ds| == |runs| && AllAttached(args, sources, ds, runs)
  {
    AllGoOn(ds0, runs0, pasts, sources, i);
    args, ds, runs := args0, ds0, runs0;
    match sources[i] {
      case Value(v) =>
        AttachedNext(args, Plain(v), sources, ds, runs);
        args := args + [Plain(v)];
      case At(p) =>
        OneStands(ds, runs, pasts, sources, i, p);
        hide *;
        var arg, d;
        ghost var run;
        arg, d, run := WatchOne(sources, i, p, ds[p], runs[p], pasts[p]);
        AttachedStay(args, sources, ds, runs, p, d, run);
        StandUpdated(ds, runs, pasts, sources, i + 1, p, d, run);
        ds, runs := ds[p := d], runs[p := run];
        AttachedNext(args, arg, sources, ds, runs);
        args := args + [arg];
    }
  }

  lemma OneStands<X, V>(ds: seq<Deferred<Listener<X>, V>>, runs: seq<seq<Action<Listener<X>, V>>>,
                        pasts: seq<seq<Action<Listener<X>, V>>>, sources: seq<Source<V>>, n: nat, p: nat)
    requires n <= |sources| && p < |pasts| && AllStand(ds, runs, pasts, sources, n)
    ensures |ds| == |runs| == |pasts| && Stands(ds[p], runs[p], pasts[p], p, sources, n)
  {
  }

  lemma StandUpdated<X, V>(ds: seq<Deferred<Listener<X>, V>>, runs: seq<seq<Action<Listener<X>, V>>>,
                           pasts: seq<seq<Action<Listener<X>, V>>>, sources: seq<Source<V>>, n: nat, p: nat,
                           d: Deferred<Listener<X>, V>, run: seq<Action<Listener<X>, V>>)
    requires n <= |sources| && p < |ds| == |runs| == |pasts| && AllStand(ds, runs, pasts, sources, n)
    requires Stands(d, run, pasts[p], p, sources, n)
    ensures AllStand(ds[p := d], runs[p := run], pasts, sources, n)
  {
    hide Stands;
  }

  lemma AttachedNext<X, V>(args: seq<Arg<V>>, arg: Arg<V>, sources: seq<Source<V>>, ds: seq<Deferred<Listener<X>, V>>,
                           runs: seq<seq<Action<Listener<X>, V>>>)
    requires |args| < |sources| && |ds| == |runs| && AllAttached(args, sources, ds, runs)
    requires match sources[|args|]
             case Value(v) => arg == Plain(v)
             case At(p) =>
               p < |ds| && arg.Subordinate? && arg.now == Delivered(ds[p].log, |args|) && Hooked(runs[p], |args|)
    ensures AllAttached(args + [arg], sources, ds, runs)
  {
    hide Delivered, Hooked;
    assert Attached(arg, |args|, sources, ds, runs);
  }

  /** The attaching loop, seen from the deferreds. */
  method WatchAll<X, V>(sources: seq<Source<V>>, pasts: seq<seq<Action<Listener<X>, V>>>)
    returns (args: seq<Arg<V>>, ds: seq<Deferred<Listener<X>, V>>, ghost runs: seq<seq<Action<Listener<X>, V>>>)
    requires forall p | 0 <= p < |pasts| :: AllForeign(pasts[p])
    requires forall k | 0 <= k < |sources| && sources[k].At? :: sources[k].p < |pasts|
    ensures |args| == |sources| && AllStand(ds, runs, pasts, sources, |sources|)
    ensures |ds| == |runs| && AllAttached(args, sources, ds, runs)
    ensures forall k | 0 <= k < |sources| :: args[k].Plain? <==> sources[k].Value?
  {
    args, ds, runs := [], seq(|pasts|, p requires 0 <= p < |pasts| => After(pasts[p])), pasts;
    AllStart(ds, pasts, sources);
    hide AllStand, Attached, AllForeign;
    for i := 0 to |sources|
      invariant |args| == i && AllStand(ds, runs, pasts, sources, i)
      invariant |ds| == |runs| && AllAttached(args, sources, ds, runs)
      invariant forall k | 0 <= k < i :: args[k].Plain? <==> sources[k].Value?
    {
      ghost var before := args;
      args, ds, runs := WatchNext(sources, i, args, ds, runs, pasts);
      assert forall k | 0 <= k < i :: args[k] == args[..i][k];
    }
  }

  lemma StandsOn<X, V>(d: Deferred<Listener<X>, V>, run: seq<Action<Listener<X>, V>>,
                       past: seq<Action<Listener<X>, V>>, p: nat, sources: seq<Source<V>>, i: nat)
    requires i < |sources| && Stands(d, run, past, p, sources, i)
    ensures Stands(d, run, past, p, sources, i + 1)
  {
    PlacedStays(run, p, sources, i);
    hide Placed, Wired, After;
  }

  /** The closure hears of one call of one of the deferreds. */
  method Hear<U, X, V>(closure: When<U, V>, x: Entry<X, V>)
    requires closure.Valid() && (!x.1.Other? ==> x.1.i < |closure.outcomes|)
    requires forall i | 0 <= i < |closure.outcomes| && Told(x, i).Some? :: closure.outcomes[i].None?
    modifies closure
    ensures closure.Valid() && |closure.outcomes| == |old(closure.outcomes)|
    ensures forall i | 0 <= i < |closure.outcomes| ::
              closure.outcomes[i] == if Told(x, i).Some? then Told(x, i) else old(closure.outcomes[i])
    ensures closure.failed ==
            if old(closure.failed).None? && x.0 == Fail && x.1.RejectMaster? then Some(x.1.i) else old(closure.failed)
  {
    if x.0 == Done && x.1.Update? {
      assert Told(x, x.1.i).Some?;
      closure.Succeeded(x.1.i, x.2);
    } else if x.0 == Fail && x.1.RejectMaster? {
      assert Told(x, x.1.i).Some?;
      closure.Failed(x.1.i, x.2);
    } else if x.0 == Progress && x.1.Report? {
      closure.Progressed(x.1.i, x.2);
    }
  }

  /** One call of `when`: the closure and the deferreds it is attached to. */
  class Gathering<U, X, V> {
    const sources: seq<Source<V>>
    /** What had happened to the deferreds before. */
    ghost const pasts: seq<seq<Action<Listener<X>, V>>>
    const closure: When<U, V>
    var subs: seq<Deferred<Listener<X>, V>>
    ghost var runs: seq<seq<Action<Listener<X>, V>>>

    ghost predicate Shaped()
      reads this
    {
      && |subs| == |runs| == |pasts|
      && forall i | 0 <= i < |sources| && sources[i].At? :: sources[i].p < |subs|
    }

    /** How argument i has ended, as far as the calls of its deferred have told. */
    ghost function End(i: nat): Option<Outcome<V>>
      requires Shaped() && i < |sources|
      reads this
    {
      match sources[i]
      case Value(v) => Some(Success(v))
      case At(p) => Delivered(subs[p].log, i)
    }

    ghost predicate OnIt(i: nat)
      requires Shaped() && i < |sources|
      reads this
    {
      sources[i].At? ==> Hooked(runs[sources[i].p], i)
    }

    ghost predicate Valid()
      reads this, closure
    {
      && closure.Valid() && Shaped() && |sources| == |closure.outcomes|
      && AllStand(subs, runs, pasts, sources, |sources|)
      && (forall i | 0 <= i < |sources| :: OnIt(i) && closure.outcomes[i] == End(i))
    }

    constructor (sources: seq<Source<V>>, pasts: seq<seq<Action<Listener<X>, V>>>)
      requires |sources| == 1 ==> sources[0].Value?
      requires forall p | 0 <= p < |pasts| :: AllForeign(pasts[p])
      requires forall k | 0 <= k < |sources| && sources[k].At? :: sources[k].p < |pasts|
      ensures Valid() && fresh(closure) && this.sources == sources && this.pasts == pasts
      ensures closure.failed == FirstFailure(closure.outcomes)
    {
      var args, ds;
      ghost var rs;
      args, ds, rs := WatchAll(sources, pasts);
      hide Stands, Hooked, Delivered, FirstFailure;
      this.sources, this.pasts, subs, runs := sources, pasts, ds, rs;
      closure := new When(args);
      new;
      assert Shaped();
      forall i | 0 <= i < |sources|
        ensures OnIt(i) && closure.outcomes[i] == End(i)
      {
        assert Attached(args[i], i, sources, subs, runs);
      }
    }

    /** The deferred's side of an action. */
    method ActAt(p: nat, e: Action<Listener<X>, V>) returns (heard: Option<Entry<X, V>>)
      requires Shaped() && p < |subs| && AllStand(subs, runs, pasts, sources, |sources|) && Foreign(e)
      modifies this
      ensures Shaped() && AllStand(subs, runs, pasts, sources, |sources|)
      ensures subs == old(subs)[p := subs[p]] && runs == old(runs)[p := old(runs[p]) + [e]]
      ensures forall i: nat :: Agrees(old(subs[p].log), subs[p].log, heard, i)
      ensures heard.Some? ==> Belongs(heard.value.1, heard.value.0, p, sources, |sources|)
      ensures forall i: nat | Hooked(old(runs[p]), i) :: Hooked(runs[p], i)
    {
      assert Stands(subs[p], runs[p], pasts[p], p, sources, |sources|);
      var d;
      d, heard := ActStands(sources, p, subs[p], runs[p], pasts[p], e);
      hide Stands, Agrees, Belongs, Hooked;
      subs, runs := subs[p := d], runs[p := runs[p] + [e]];
    }

    /** The closure's side of it. */
    method HearOf(p: nat, heard: Option<Entry<X, V>>)
      requires closure.Valid() && Shaped() && |sources| == |closure.outcomes|
      requires AllStand(subs, runs, pasts, sources, |sources|)
      requires heard.Some? ==> Belongs(heard.value.1, heard.value.0, p, sources, |sources|)
      requires forall i | 0 <= i < |sources| :: OnIt(i) && Ends(i, closure.outcomes[i], heard)
      modifies closure
      ensures Valid()
      ensures closure.failed ==
              if old(closure.failed).None? && heard.Some? && heard.value.0 == Fail && heard.value.1.RejectMaster? then
                Some(heard.value.1.i)
              else old(closure.failed)
    {
      if heard.Some? {
        Hear(closure, heard.value);
      }
    }

    /** How argument i stood before the call, given how it stands now. */
    ghost predicate Ends(i: nat, before: Option<Outcome<V>>, heard: Option<Entry<X, V>>)
      requires Shaped() && i < |sources|
      reads this
    {
      var end := if heard.Some? then Told(heard.value, i) else None;
      (end.Some? ==> before.None?) && End(i) == if end.Some? then end else before
    }

    /** Anybody does something to a deferred, or one of its callbacks returns. Whatever that calls, the closure is
        told of it; the first rejection it is told of is the one it keeps. */
    method Happens(p: nat, e: Action<Listener<X>, V>)
      requires Valid() && p < |subs| && Foreign(e)
      modifies this, closure
      ensures Valid() && runs == old(runs)[p := old(runs[p]) + [e]]
      ensures old(closure.failed).Some? ==> closure.failed == old(closure.failed)
      ensures old(closure.failed).None? && closure.failed.Some? ==>
                && closure.failed.value < |sources| && sources[closure.failed.value] == At(p)
                && IsFailure(End(closure.failed.value))
                && forall i | 0 <= i < |sources| && i != closure.failed.value :: End(i) == old(End(i))
    {
      hide Stands, Hooked, AllStand, Delivered;
      var heard := ActAt(p, e);
      forall i | 0 <= i < |sources|
        ensures OnIt(i) && Ends(i, closure.outcomes[i], heard)
      {
        assert old(OnIt(i)) && old(closure.outcomes[i] == End(i));
        assert Agrees(old(subs[p].log), subs[p].log, heard, i);
      }
      HearOf(p, heard);
    }

    /** Somebody uses the promise that `when` has returned, or one of its callbacks returns. */
    method Used(e: Action<U, Payload<V>>)
      requires Valid() && (e.AddTo? || e.Returns?)
      modifies closure
      ensures Valid() && closure.failed == old(closure.failed)
    {
      closure.Used(e);
    }

    /** At rest, what the closure knows of an argument is the state of its deferred. */
    lemma EndIsState(i: nat)
      requires Valid() && i < |sources| && sources[i].At? && subs[sources[i].p].frames == []
      ensures var p := sources[i].p;
              && (subs[p].status == Resolved <==> IsSuccess(End(i)))
              && (subs[p].status == Rejected <==> IsFailure(End(i)))
              && (End(i).Some? ==> Settlement(runs[p]).Some? && Settlement(runs[p]).value.1 == End(i).value.v)
    {
      var p := sources[i].p;
      assert OnIt(i) && Stands(subs[p], runs[p], pasts[p], p, sources, |sources|);
      DeliveredIsSettled(runs[p], i);
      SettlesOnce(runs[p]);
    }

    /** The composition. When no callback is running anywhere, the master has resolved exactly when every
        deferred among the arguments has, with the values in argument order, and has rejected exactly when one
        of them has, with the arguments of the first rejection to arrive (`failed`: the first in argument order
        among those that came while attaching, otherwise the one of the earliest action that brought one). */
    lemma MasterFollowsDeferreds()
      requires Valid()
      requires forall i | 0 <= i < |sources| && sources[i].At? :: subs[sources[i].p].frames == []
      ensures closure.Master().status == Resolved <==>
              forall i | 0 <= i < |sources| && sources[i].At? :: subs[sources[i].p].status == Resolved
      ensures closure.Master().status == Resolved ==>
                && Settlement(closure.history) == Some((Done, Many(closure.resolveValues)))
                && |closure.resolveValues| == |sources|
                && forall i | 0 <= i < |sources| ::
                     match sources[i]
                     case Value(v) => closure.resolveValues[i] == Some(v)
                     case At(p) =>
                       Settlement(runs[p]).Some? && closure.resolveValues[i] == Some(Settlement(runs[p]).value.1)
      ensures closure.Master().status == Rejected <==>
              exists i :: 0 <= i < |sources| && sources[i].At? && subs[sources[i].p].status == Rejected
      ensures closure.Master().status == Rejected ==>
                && closure.failed.Some? && closure.failed.value < |sources| && sources[closure.failed.value].At?
                && var p := sources[closure.failed.value].p;
                   && subs[p].status == Rejected && Settlement(runs[p]).Some?
                   && Settlement(closure.history) == Some((Fail, One(Settlement(runs[p]).value.1)))
    {
      closure.MasterFollows();
      assert |closure.resolveValues| == |sources|;
      hide After, Settlement, Delivered, Hooked, Stands, Open;
      forall i | 0 <= i < |sources|
        ensures closure.outcomes[i] == End(i)
        ensures sources[i].At? ==>
                  var p := sources[i].p;
                  && (subs[p].status == Resolved <==> IsSuccess(End(i)))
                  && (subs[p].status == Rejected <==> IsFailure(End(i)))
                  && (End(i).Some? ==> Settlement(runs[p]).Some? && Settlement(runs[p]).value.1 == End(i).value.v)
      {
        if sources[i].At? {
          EndIsState(i);
        }
      }
    }
  }

  /** An action keeps a deferred with its listeners, and what it calls is on it. */
  method ActStands<X, V>(ghost sources: seq<Source<V>>, ghost p: nat, d0: Deferred<Listener<X>, V>,
                         ghost run0: seq<Action<Listener<X>, V>>, ghost past: seq<Action<Listener<X>, V>>,
                         e: Action<Listener<X>, V>)
    returns (d: Deferred<Listener<X>, V>, heard: Option<Entry<X, V>>)
    requires Stands(d0, run0, past, p, sources, |sources|) && Foreign(e)
    ensures Stands(d, run0 + [e], past, p, sources, |sources|)
    ensures forall i: nat :: Agrees(d0.log, d.log, heard, i)
    ensures heard.Some? ==> Belongs(heard.value.1, heard.value.0, p, sources, |sources|)
    ensures forall i: nat | Hooked(run0, i) :: Hooked(run0 + [e], i)
  {
    ForeignKeeps(run0, e, p, sources, |sources|);
    PrefixGrows(past, run0, e);
    hide After, Wired, Agrees, Hooked, Foreign, Allowed, Belongs;
    d, heard := Act(d0, e, run0);
    if heard.Some? {
      CalledWasAdded(run0 + [e], |d0.log|);
    }
  }

  lemma PrefixGrows<T>(a: seq<T>, b: seq<T>, x: T)
    requires a <= b
    ensures a <= b + [x]
  {
  }
}
