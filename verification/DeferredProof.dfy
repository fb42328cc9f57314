/** A deferred settles once: what every run of Deferred keeps. */
module DeferredProof {
  import opened Options
  import opened Callbacks
  import opened Deferred

  /** All user callbacks ever added to a list, in order. */
  ghost function Added<U, A>(actions: seq<Action<U, A>>, w: Which): seq<U> {
    if actions == [] then []
    else
      var n := |actions| - 1;
      Added(actions[..n], w) + if actions[n].AddTo? && actions[n].w == w then actions[n].us else []
  }

  /** The first resolve or reject of a run: the list it fires and its arguments. */
  ghost function Settlement<U, A>(actions: seq<Action<U, A>>): Option<(Which, A)> {
    if actions == [] then None
    else
      var n := |actions| - 1;
      var before := Settlement(actions[..n]);
      if before.Some? then before
      else
        match actions[n]
        case Resolve(a) => Some((Done, a))
        case Reject(a) => Some((Fail, a))
        case _ => None
  }

  /** The calls a list has made. */
  ghost function CallsOf<U, A>(log: seq<(Which, U, A)>, w: Which): seq<(U, A)> {
    if log == [] then []
    else
      var last := log[|log| - 1];
      CallsOf(log[..|log| - 1], w) + if last.0 == w then [(last.1, last.2)] else []
  }

  function BuiltIns<U>(): seq<Fn<U>> {
    [SetState, DisableOther, LockProgress]
  }

  /** A done or fail list before settlement. */
  ghost predicate Unfired<U, A>(s: State<Fn<U>, A>, us: seq<U>) {
    && !s.fired && !s.firing && s.memory.None?
    && s.list == Some(BuiltIns<U>() + Users(us))
  }

  /** The winning list: the callbacks from number k on are still to be called, with a. */
  ghost predicate Won<U, A>(s: State<Fn<U>, A>, us: seq<U>, k: nat, a: A) {
    && k <= |us| && s.fired && s.list.Some? && s.memory == Some(a)
    && (s.firing ==> s.data == Some(a) && -1 <= s.firingIndex < |s.list.value|
                     && s.list.value[s.firingIndex + 1..] == Users(us[k..]))
    && (!s.firing ==> s.list.value == [] && k == |us|)
  }

  ghost predicate Lost<U, A>(s: State<Fn<U>, A>) {
    s.list.None? && !s.firing
  }

  function StatusOf(w: Which): Status {
    if w == Done then Resolved else Rejected
  }

  /** How far the winning list has got, and that the other one is silent. */
  ghost predicate Settled<U, A>(d: Deferred<U, A>, w: Which, us: seq<U>, k: nat, a: A) {
    && w != Progress && d.status == StatusOf(w)
    && k <= |us| && CallsOf(d.log, w) == Calls(us[..k], a)
    && Lost(d.Get(Other(w))) && CallsOf(d.log, Other(w)) == []
    && Locked(d.progress)
  }

  ghost predicate Link<U, A>(d: Deferred<U, A>, done: seq<U>, fail: seq<U>, outcome: Option<(Which, A)>) {
    && d.Valid()
    && match outcome
       case None =>
         && d.status == Pending && Unfired(d.done, done) && Unfired(d.fail, fail)
         && CallsOf(d.log, Done) == [] && CallsOf(d.log, Fail) == []
       case Some((w, a)) =>
         var us := if w == Done then done else fail;
         && Settled(d, w, us, |CallsOf(d.log, w)|, a)
         && Won(d.Get(w), us, |CallsOf(d.log, w)|, a)
  }

  /** d is consistent except that control is with list w, whose frame has been taken off. */
  ghost predicate Around<U, A>(d: Deferred<U, A>, w: Which) {
    && d.Sound() && w !in d.frames
    && (forall v: Which | v != w :: v in d.frames <==> d.Get(v).firing)
    && (forall i, j | 0 <= i < j < |d.frames| :: d.frames[i] != d.frames[j])
  }

  lemma LogGrows<U, A>(log: seq<(Which, U, A)>, w: Which, u: U, a: A)
    ensures CallsOf(log + [(w, u, a)], w) == CallsOf(log, w) + [(u, a)]
    ensures forall v: Which | v != w :: CallsOf(log + [(w, u, a)], v) == CallsOf(log, v)
  {
    assert (log + [(w, u, a)])[..|log|] == log;
  }

  /** A list at the head of its loop, callbacks us[k..] still to come. */
  ghost predicate AtHead<U, A>(s: State<Fn<U>, A>, us: seq<U>, k: nat, a: A) {
    && s.Valid() && s.once && s.remember && s.firing && s.memory == s.data == Some(a)
    && s.list.Some? && 0 <= s.firingIndex <= |s.list.value|
    && k <= |us| && s.list.value[s.firingIndex..] == Users(us[k..])
  }

  /** It calls callback k if there is one, and otherwise comes to rest with an empty list. */
  lemma HeadTurns<U, A>(s: State<Fn<U>, A>, us: seq<U>, k: nat, a: A)
    requires AtHead(s, us, k, a)
    ensures var (t, call) := Turn(s);
            if k < |us| then call == Some((User(us[k]), a)) && Won(t, us, k + 1, a) && t.firing
            else call == None && Won(t, us, k, a) && !t.firing
  {
    if k < |us| {
      var rest := s.list.value[s.firingIndex..];
      assert rest[0] == User(us[k]);
      assert s.list.value[s.firingIndex + 1..] == rest[1..];
      assert Users(us[k..])[1..] == Users(us[k + 1..]);
    } else {
      assert |s.list.value[s.firingIndex..]| == 0;
    }
  }

  /** The winning list has control, with callback k next. */
  lemma WinnerTurns<U, A>(d: Deferred<U, A>, w: Which, s: State<Fn<U>, A>, us: seq<U>, k: nat, a: A)
    requires Around(d, w) && Settled(d, w, us, k, a) && AtHead(s, us, k, a)
    ensures var (t, call) := Turn(s);
            var r := Dispatch(d.Set(w, t), w, call);
            var n := |CallsOf(r.log, w)|;
            r.Valid() && Settled(r, w, us, n, a) && Won(r.Get(w), us, n, a)
  {
    hide Turn, CallsOf;
    HeadTurns(s, us, k, a);
    var (t, call) := Turn(s);
    var e := d.Set(w, t);
    if k < |us| {
      var r := e.(frames := d.frames + [w], log := d.log + [(w, us[k], a)]);
      assert r == Dispatch(e, w, call);
      LogGrows(d.log, w, us[k], a);
      assert Calls(us[..k + 1], a) == Calls(us[..k], a) + [(us[k], a)];
      FramePushed(d, w, t, d.log + [(w, us[k], a)]);
    } else {
      FrameGone(d, w, t);
    }
  }

  lemma FramePushed<U, A>(d: Deferred<U, A>, w: Which, t: State<Fn<U>, A>, log: seq<(Which, U, A)>)
    requires Around(d, w) && d.Set(w, t).Sound() && t.firing
    ensures d.Set(w, t).(frames := d.frames + [w], log := log).Valid()
  {
  }

  lemma FrameGone<U, A>(d: Deferred<U, A>, w: Which, t: State<Fn<U>, A>)
    requires Around(d, w) && d.Set(w, t).Sound() && !t.firing
    ensures d.Set(w, t).Valid()
  {
  }

  /** The progress list may do what it likes: nothing else changes. */
  lemma ProgressMoves<U, A>(d: Deferred<U, A>, t: State<Fn<U>, A>, call: Call<Fn<U>, A>)
    requires Around(d, Progress) && d.(progress := t).Sound() && t.firing == call.Some?
    requires call.Some? ==> call == AboutToCall(t)
    ensures var r := Dispatch(d.Set(Progress, t), Progress, call);
            && r.Valid() && r.done == d.done && r.fail == d.fail && r.progress == t && r.status == d.status
            && CallsOf(r.log, Done) == CallsOf(d.log, Done) && CallsOf(r.log, Fail) == CallsOf(d.log, Fail)
  {
    if call.Some? {
      LogGrows(d.log, Progress, call.value.0.u, call.value.1);
      FramePushed(d, Progress, t, d.log + [(Progress, call.value.0.u, call.value.1)]);
    } else {
      FrameGone(d, Progress, t);
    }
  }

  /** The list w, number k in its loop, with everything else as d has it. */
  function Firing<U, A>(s: State<Fn<U>, A>, k: nat, a: A): State<Fn<U>, A>
    requires s.list.Some?
  {
    s.(memory := Some(a), fired := true, firing := true, data := Some(a), firingIndex := k,
       firingLength := |s.list.value|)
  }

  /** The head of the loop at a built-in callback. */
  lemma BuiltInTurn<U, A>(s: State<Fn<U>, A>, us: seq<U>, k: nat, a: A)
    requires Unfired(s, us) && s.Valid() && s.once && s.remember && k < 3
    ensures Firing(s, k, a).Valid() && Firing(s, k + 1, a).Valid()
    ensures var call := Some((BuiltIns<U>()[k], a));
            Turn(Firing(s, k, a)) == (Firing(s, k, a), call) && AboutToCall(Firing(s, k, a)) == call
    ensures Return(Firing(s, k, a)) == Turn(Firing(s, k + 1, a))
  {
    assert Firing(s, k, a).(firingIndex := k + 1) == Firing(s, k + 1, a);
    assert Firing(s, k, a).list.value[k] == BuiltIns<U>()[k];
  }

  /** Calling it: its effect, and on to the next index. */
  lemma BuiltInRuns<U, A>(d: Deferred<U, A>, w: Which, s: State<Fn<U>, A>, us: seq<U>, k: nat, a: A)
    requires d.Sound() && w != Progress && Unfired(s, us) && s.Valid() && s.once && s.remember && k < 3
    ensures Firing(s, k, a).Valid() && Firing(s, k + 1, a).Valid()
    ensures var call := Some((BuiltIns<U>()[k], a));
            var e := Effect(d.Set(w, Firing(s, k, a)), w, BuiltIns<U>()[k]);
            var (t, next) := Turn(Firing(s, k + 1, a));
            && Turn(Firing(s, k, a)) == (Firing(s, k, a), call)
            && e.Set(w, t).Sound()
            && Dispatch(d.Set(w, Firing(s, k, a)), w, call) == Dispatch(e.Set(w, t), w, next)
  {
    BuiltInTurn(s, us, k, a);
    hide Turn, AboutToCall, Return, Unfired, Firing;
  }

  /** What settling makes of everything but the winning list. */
  function Settle<U, A>(d: Deferred<U, A>, w: Which): Deferred<U, A>
    requires w != Progress
  {
    d.(status := StatusOf(w), progress := Lock(d.progress)).Set(Other(w), Disable(d.Get(Other(w))))
  }

  lemma FirstTurn<U, A>(s: State<Fn<U>, A>, us: seq<U>, a: A)
    requires s.Valid() && s.remember && Unfired(s, us)
    ensures FireWith(s, a) == Turn(Firing(s, 0, a))
  {
    hide Turn;
    assert s.(memory := Some(a), fired := true, firing := true, data := Some(a), firingIndex := s.firingStart,
              firingStart := 0, firingLength := |s.list.value|) == Firing(s, 0, a);
  }

  /** The deferred after k of the three. */
  function Partly<U, A>(d: Deferred<U, A>, w: Which, k: nat): Deferred<U, A>
    requires w != Progress && k <= 3
  {
    if k == 0 then d
    else if k == 1 then d.(status := StatusOf(w))
    else if k == 2 then Partly(d, w, 1).Set(Other(w), Disable(d.Get(Other(w))))
    else Settle(d, w)
  }

  lemma PartlyStep<U, A>(d: Deferred<U, A>, w: Which, s: State<Fn<U>, A>, us: seq<U>, k: nat, a: A)
    requires d.Sound() && w != Progress && Unfired(s, us) && s.Valid() && s.once && s.remember && k < 3
    ensures Firing(s, k, a).Valid() && Partly(d, w, k).Sound() && Partly(d, w, k + 1).Sound()
    ensures Partly(d, w, k).Set(w, Firing(s, k, a)).Sound()
    ensures forall t ::
              Effect(Partly(d, w, k).Set(w, Firing(s, k, a)), w, BuiltIns<U>()[k]).Set(w, t) ==
              Partly(d, w, k + 1).Set(w, t)
  {
    assert Firing(s, k, a).Valid();
    assert BuiltIns<U>()[k] == if k == 0 then SetState else if k == 1 then DisableOther else LockProgress;
    hide Unfired, BuiltIns, Firing;
    if w == Done {
      assert Partly(d, w, k).Sound();
    }
  }

  /** One built-in callback takes the deferred one step further. */
  lemma BuiltInAdvances<U, A>(d: Deferred<U, A>, w: Which, s: State<Fn<U>, A>, us: seq<U>, k: nat, a: A)
    requires d.Sound() && w != Progress && Unfired(s, us) && s.Valid() && s.once && s.remember && k < 3
    ensures Firing(s, k, a).Valid() && Firing(s, k + 1, a).Valid()
    ensures var (t, call) := Turn(Firing(s, k, a));
            var (u, next) := Turn(Firing(s, k + 1, a));
            && Partly(d, w, k).Set(w, t).Sound() && Partly(d, w, k + 1).Set(w, u).Sound()
            && Dispatch(Partly(d, w, k).Set(w, t), w, call) == Dispatch(Partly(d, w, k + 1).Set(w, u), w, next)
  {
    PartlyStep(d, w, s, us, k, a);
    hide Partly, Turn, Dispatch, Firing, Unfired;
    BuiltInRuns(Partly(d, w, k), w, s, us, k, a);
  }

  /** Firing a pending list runs the three built-in callbacks before any user callback. */
  lemma BuiltInsRun<U, A>(d: Deferred<U, A>, w: Which, us: seq<U>, a: A)
    requires d.Sound() && w != Progress && Unfired(d.Get(w), us)
    ensures var (t, call) := Turn(Firing(d.Get(w), 3, a));
            Settle(d, w).Sound() && FireList(d, w, a) == Dispatch(Settle(d, w).Set(w, t), w, call)
  {
    var s := d.Get(w);
    BuiltInsStart(d, w, us, a);
    BuiltInsEnd(d, w, s, us, a);
    hide *;
    BuiltInAdvances(d, w, s, us, 0, a);
    BuiltInAdvances(d, w, s, us, 1, a);
    BuiltInAdvances(d, w, s, us, 2, a);
  }

  lemma BuiltInsStart<U, A>(d: Deferred<U, A>, w: Which, us: seq<U>, a: A)
    requires d.Sound() && w != Progress && Unfired(d.Get(w), us)
    ensures var s := d.Get(w);
            var (t, call) := Turn(Firing(s, 0, a));
            && s.Valid() && s.once && s.remember
            && Partly(d, w, 0).Set(w, t).Sound()
            && FireList(d, w, a) == Dispatch(Partly(d, w, 0).Set(w, t), w, call)
  {
    FirstTurn(d.Get(w), us, a);
    hide Turn, Dispatch, FireWith, AboutToCall, Firing;
  }

  lemma BuiltInsEnd<U, A>(d: Deferred<U, A>, w: Which, s: State<Fn<U>, A>, us: seq<U>, a: A)
    requires d.Sound() && w != Progress && Unfired(s, us) && s.Valid() && s.once && s.remember
    ensures Firing(s, 3, a).Valid() && Partly(d, w, 3) == Settle(d, w) && Settle(d, w).Sound()
  {
    PartlyStep(d, w, s, us, 2, a);
  }

  lemma Settles<U, A>(d: Deferred<U, A>, w: Which, done: seq<U>, fail: seq<U>, a: A)
    requires Link(d, done, fail, None) && w != Progress
    ensures Link(FireList(d, w, a), done, fail, Some((w, a)))
  {
    hide Turn, Dispatch, FireWith, FireList;
    var us := if w == Done then done else fail;
    BuiltInsRun(d, w, us, a);
    var s := Firing(d.Get(w), 3, a);
    assert s.list.value[3..] == Users(us[0..]);
    assert AtHead(s, us, 0, a);
    WinnerTurns(Settle(d, w), w, s, us, 0, a);
  }

  /** A fired list ignores later fires once its stack is gone; a disabled one always does. */
  lemma LaterFiresIgnored<U, A>(d: Deferred<U, A>, done: seq<U>, fail: seq<U>, w: Which, a: A, v: Which, b: A)
    requires Link(d, done, fail, Some((w, a)))
    ensures FireList(d, v, b) == d
  {
  }

  lemma AddLinked<U, A>(d: Deferred<U, A>, done: seq<U>, fail: seq<U>, outcome: Option<(Which, A)>, w: Which,
                        us: seq<U>)
    requires Link(d, done, fail, outcome)
    ensures Link(Apply(d, AddTo(w, us)),
                 done + (if w == Done then us else []), fail + (if w == Fail then us else []), outcome)
  {
    assert done + [] == done && fail + [] == fail;
    if w == Progress {
      ProgressAdds(d, done, fail, outcome, us);
    } else if outcome.None? {
      PendingAdds(d, w, done, fail, us);
    } else if outcome.value.0 == w {
      var before := if w == Done then done else fail;
      if d.Get(w).firing {
        WinnerAddsFiring(d, w, before, us, outcome.value.1);
      } else {
        WinnerAddsAtRest(d, w, before, us, outcome.value.1);
      }
    } else {
      assert Apply(d, AddTo(w, us)) == d;
    }
  }

  /** Callbacks on the progress list leave everything else alone. */
  lemma ProgressAddsOnly<U, A>(d: Deferred<U, A>, us: seq<U>)
    requires d.Valid()
    ensures var r := Apply(d, AddTo(Progress, us));
            && r.Valid() && r.done == d.done && r.fail == d.fail && r.status == d.status
            && CallsOf(r.log, Done) == CallsOf(d.log, Done) && CallsOf(r.log, Fail) == CallsOf(d.log, Fail)
            && (Locked(d.progress) ==> Locked(r.progress))
  {
    var (s, call) := Add(d.progress, Users(us));
    if d.progress.firing {
      assert call.None?;
    } else {
      ProgressMoves(d, s, call);
    }
  }

  lemma SameLink<U, A>(d: Deferred<U, A>, r: Deferred<U, A>, done: seq<U>, fail: seq<U>, outcome: Option<(Which, A)>)
    requires Link(d, done, fail, outcome)
    requires r.Valid() && r.done == d.done && r.fail == d.fail && r.status == d.status
    requires CallsOf(r.log, Done) == CallsOf(d.log, Done) && CallsOf(r.log, Fail) == CallsOf(d.log, Fail)
    requires Locked(d.progress) ==> Locked(r.progress)
    ensures Link(r, done, fail, outcome)
  {
  }

  lemma ProgressAdds<U, A>(d: Deferred<U, A>, done: seq<U>, fail: seq<U>, outcome: Option<(Which, A)>, us: seq<U>)
    requires Link(d, done, fail, outcome)
    ensures Link(Apply(d, AddTo(Progress, us)), done, fail, outcome)
  {
    hide Apply, CallsOf;
    ProgressAddsOnly(d, us);
    SameLink(d, Apply(d, AddTo(Progress, us)), done, fail, outcome);
  }

  lemma PendingAdds<U, A>(d: Deferred<U, A>, w: Which, done: seq<U>, fail: seq<U>, us: seq<U>)
    requires Link(d, done, fail, None) && w != Progress
    ensures Link(Apply(d, AddTo(w, us)),
                 done + (if w == Done then us else []), fail + (if w == Fail then us else []), None)
  {
    assert done + [] == done && fail + [] == fail;
    var before := if w == Done then done else fail;
    assert BuiltIns<U>() + Users(before) + Users(us) == BuiltIns<U>() + Users(before + us);
  }

  /** A callback added while the winning list is firing joins the current batch. */
  lemma WinnerAddsFiring<U, A>(d: Deferred<U, A>, w: Which, before: seq<U>, us: seq<U>, a: A)
    requires d.Valid() && w != Progress && d.Get(w).firing
    requires Settled(d, w, before, |CallsOf(d.log, w)|, a) && Won(d.Get(w), before, |CallsOf(d.log, w)|, a)
    ensures var r := Apply(d, AddTo(w, us));
            var n := |CallsOf(r.log, w)|;
            r.Valid() && Settled(r, w, before + us, n, a) && Won(r.Get(w), before + us, n, a)
  {
    var k := |CallsOf(d.log, w)|;
    var s := d.Get(w);
    assert (before + us)[..k] == before[..k];
    var list := s.list.value + Users(us);
    assert list[s.firingIndex + 1..] == s.list.value[s.firingIndex + 1..] + Users(us);
    assert Users(before[k..]) + Users(us) == Users((before + us)[k..]);
    assert Apply(d, AddTo(w, us)) == d.Set(w, s.(list := Some(list), firingLength := |list|));
  }

  /** A callback added later still is called at once. */
  lemma WinnerAddsAtRest<U, A>(d: Deferred<U, A>, w: Which, before: seq<U>, us: seq<U>, a: A)
    requires d.Valid() && w != Progress && !d.Get(w).firing
    requires Settled(d, w, before, |before|, a) && Won(d.Get(w), before, |before|, a)
    ensures var r := Apply(d, AddTo(w, us));
            var n := |CallsOf(r.log, w)|;
            r.Valid() && Settled(r, w, before + us, n, a) && Won(r.Get(w), before + us, n, a)
  {
    var k := |before|;
    var s := d.Get(w);
    assert (before + us)[..k] == before[..k];
    var list := s.list.value + Users(us);
    var t := s.(list := Some(list), firing := true, data := Some(a), firingIndex := 0, firingLength := |list|);
    assert list == Users(us) && (before + us)[k..] == us;
    assert AtHead(t, before + us, k, a);
    RestartTurns(s, Users(us), a);
    WinnerTurns(d, w, t, before + us, k, a);
  }

  lemma RestartTurns<U, A>(s: State<Fn<U>, A>, fns: seq<Fn<U>>, a: A)
    requires s.Valid() && !s.firing && s.fired && s.list == Some([]) && s.memory == Some(a) && s.remember
    ensures Add(s, fns) ==
            Turn(s.(list := Some(fns), firing := true, data := Some(a), firingIndex := 0, firingLength := |fns|))
  {
    assert [] + fns == fns;
    var t := s.(list := Some(fns));
    assert t.(firingStart := 0) == t;
    assert t.(memory := Some(a), fired := true, firing := true, data := Some(a), firingIndex := 0, firingStart := 0,
              firingLength := |fns|)
        == s.(list := Some(fns), firing := true, data := Some(a), firingIndex := 0, firingLength := |fns|);
  }

  /** Only the winning list of a settled deferred can be running. */
  lemma RunningWinner<U, A>(d: Deferred<U, A>, done: seq<U>, fail: seq<U>, outcome: Option<(Which, A)>, w: Which)
    requires Link(d, done, fail, outcome) && w != Progress && d.Get(w).firing
    ensures d.Valid() && outcome.Some? && outcome.value.0 == w
    ensures var us, n, a := if w == Done then done else fail, |CallsOf(d.log, w)|, outcome.value.1;
            Settled(d, w, us, n, a) && Won(d.Get(w), us, n, a)
  {
  }

  lemma WinnerLink<U, A>(d: Deferred<U, A>, done: seq<U>, fail: seq<U>, w: Which, a: A)
    requires d.Valid()
    requires var us, n := if w == Done then done else fail, |CallsOf(d.log, w)|;
             Settled(d, w, us, n, a) && Won(d.Get(w), us, n, a)
    ensures Link(d, done, fail, Some((w, a)))
  {
  }

  lemma ReturnIs<U, A>(d: Deferred<U, A>)
    requires d.Valid() && d.frames != []
    ensures var w := d.frames[|d.frames| - 1];
            var e := d.(frames := d.frames[..|d.frames| - 1]);
            d.Get(w).firing && d.Get(w).Valid() &&
            var (t, call) := Return(d.Get(w));
            e.Set(w, t).Sound() && Apply(d, Action.Returns) == Dispatch(e.Set(w, t), w, call)
  {
    hide Dispatch, Return;
    FramePopped(d);
  }

  lemma ReturnLinked<U, A>(d: Deferred<U, A>, done: seq<U>, fail: seq<U>, outcome: Option<(Which, A)>)
    requires Link(d, done, fail, outcome)
    ensures Link(Apply(d, Action.Returns), done, fail, outcome)
  {
    assert d.Valid();
    if d.frames != [] {
      var w := d.frames[|d.frames| - 1];
      ReturnIs(d);
      FramePopped(d);
      hide Dispatch, CallsOf, Return, Around, Link, Settled, Won, Apply;
      var e := d.(frames := d.frames[..|d.frames| - 1]);
      if w == Progress {
        ProgressReturns(d, e);
        SameLink(d, Apply(d, Action.Returns), done, fail, outcome);
      } else {
        RunningWinner(d, done, fail, outcome, w);
        WinnerReturns(d, e, w, if w == Done then done else fail, outcome.value.1);
        WinnerLink(Apply(d, Action.Returns), done, fail, w, outcome.value.1);
      }
    }
  }

  lemma ProgressReturns<U, A>(d: Deferred<U, A>, e: Deferred<U, A>)
    requires d.Sound() && d.progress.firing && e == d.(frames := e.frames) && Around(e, Progress)
    ensures var (t, call) := Return(d.progress);
            var r := Dispatch(e.Set(Progress, t), Progress, call);
            && r.Valid() && r.done == d.done && r.fail == d.fail && r.status == d.status
            && CallsOf(r.log, Done) == CallsOf(d.log, Done) && CallsOf(r.log, Fail) == CallsOf(d.log, Fail)
            && (Locked(d.progress) ==> Locked(r.progress))
  {
    var (t, call) := Return(d.progress);
    hide Dispatch, CallsOf;
    ProgressMoves(e, t, call);
  }

  lemma WinnerReturns<U, A>(d: Deferred<U, A>, e: Deferred<U, A>, w: Which, us: seq<U>, a: A)
    requires d.Valid() && w != Progress && d.Get(w).firing
    requires Settled(d, w, us, |CallsOf(d.log, w)|, a) && Won(d.Get(w), us, |CallsOf(d.log, w)|, a)
    requires e == d.(frames := e.frames) && Around(e, w)
    ensures var (t, call) := Return(d.Get(w));
            var r := Dispatch(e.Set(w, t), w, call);
            var n := |CallsOf(r.log, w)|;
            r.Valid() && Settled(r, w, us, n, a) && Won(r.Get(w), us, n, a)
  {
    hide CallsOf, Turn, Dispatch;
    var t := d.Get(w).(firingIndex := d.Get(w).firingIndex + 1);
    assert AtHead(t, us, |CallsOf(d.log, w)|, a);
    WinnerTurns(e, w, t, us, |CallsOf(d.log, w)|, a);
  }

  lemma FramePopped<U, A>(d: Deferred<U, A>)
    requires d.Valid() && d.frames != []
    ensures var w := d.frames[|d.frames| - 1];
            Around(d.(frames := d.frames[..|d.frames| - 1]), w) && d.Get(w).firing
  {
    var w := d.frames[|d.frames| - 1];
    assert w in d.frames;
    var e := d.(frames := d.frames[..|d.frames| - 1]);
    assert forall v: Which :: e.Get(v) == d.Get(v);
    assert forall v: Which | v != w :: v in e.frames <==> v in d.frames;
  }

  lemma NotifyLinked<U, A>(d: Deferred<U, A>, done: seq<U>, fail: seq<U>, outcome: Option<(Which, A)>, a: A)
    requires Link(d, done, fail, outcome)
    ensures Link(Apply(d, Notify(a)), done, fail, outcome)
  {
    if outcome.Some? {
      LaterFiresIgnored(d, done, fail, outcome.value.0, outcome.value.1, Progress, a);
    } else {
      var (s, call) := FireWith(d.progress, a);
      if d.progress.firing {
        assert call.None?;
      } else {
        ProgressMoves(d, s, call);
      }
    }
  }

  /** One action, whatever it is. */
  lemma ActionLinked<U, A>(d: Deferred<U, A>, done: seq<U>, fail: seq<U>, outcome: Option<(Which, A)>, e: Action<U, A>)
    requires Link(d, done, fail, outcome)
    ensures Link(Apply(d, e),
                 done + (if e.AddTo? && e.w == Done then e.us else []),
                 fail + (if e.AddTo? && e.w == Fail then e.us else []),
                 if outcome.Some? then outcome
                 else if e.Resolve? then Some((Done, e.a)) else if e.Reject? then Some((Fail, e.a)) else None)
  {
    hide FireList, Dispatch, FireWith, Add, Return, CallsOf, Turn, Begin, Link;
    assert done + [] == done && fail + [] == fail;
    match e
    case AddTo(w, us) => AddLinked(d, done, fail, outcome, w, us);
    case Resolve(a) =>
      if outcome.None? { Settles(d, Done, done, fail, a); }
      else { LaterFiresIgnored(d, done, fail, outcome.value.0, outcome.value.1, Done, a); }
    case Reject(a) =>
      if outcome.None? { Settles(d, Fail, done, fail, a); }
      else { LaterFiresIgnored(d, done, fail, outcome.value.0, outcome.value.1, Fail, a); }
    case Notify(a) => NotifyLinked(d, done, fail, outcome, a);
    case Returns => ReturnLinked(d, done, fail, outcome);
  }

  lemma {:induction false} RunLinked<U, A>(actions: seq<Action<U, A>>)
    ensures Link(After(actions), Added(actions, Done), Added(actions, Fail), Settlement(actions))
    decreases |actions|
  {
    if actions == [] {
      assert BuiltIns<U>() + Users([]) == BuiltIns<U>();
      assert [] + BuiltIns<U>() == BuiltIns<U>();
    } else {
      hide Apply, Link;
      var n := |actions| - 1;
      RunLinked(actions[..n]);
      ActionLinked(After(actions[..n]), Added(actions[..n], Done), Added(actions[..n], Fail), Settlement(actions[..n]),
                   actions[n]);
    }
  }

  /** Over every run, nested callbacks included: the state is that of the first resolve or reject; the other
      list never calls a user callback; the winning list calls the callbacks added to it in order, each once,
      with the settling arguments, and at rest it has called every one of them. */
  lemma SettlesOnce<U, A>(actions: seq<Action<U, A>>)
    ensures var d := After(actions);
            var outcome := Settlement(actions);
            if outcome.None? then
              d.status == Pending && CallsOf(d.log, Done) == [] && CallsOf(d.log, Fail) == []
            else
              var w, a := outcome.value.0, outcome.value.1;
              var us, n := Added(actions, w), |CallsOf(d.log, w)|;
              && w != Progress && d.status == (if w == Done then Resolved else Rejected)
              && n <= |us| && CallsOf(d.log, w) == Calls(us[..n], a)
              && (w !in d.frames ==> n == |us|)
              && CallsOf(d.log, if w == Done then Fail else Done) == []
  {
    RunLinked(actions);
  }

  predicate Ends<U, A>(e: Action<U, A>) {
    e.Resolve? || e.Reject?
  }

  lemma {:induction false} SettlementIsFirst<U, A>(actions: seq<Action<U, A>>, k: nat)
    requires k <= |actions| && forall j | 0 <= j < k :: !Ends(actions[j])
    requires k < |actions| ==> Ends(actions[k])
    ensures Settlement(actions) ==
            if k == |actions| then None
            else match actions[k] case Resolve(a) => Some((Done, a)) case Reject(a) => Some((Fail, a)) case _ => None
    decreases |actions|
  {
    if actions != [] {
      var n := |actions| - 1;
      SettlementIsFirst(actions[..n], if k <= n then k else n);
    }
  }

  /** The first resolve, number k of the actions, settles: the deferred is resolved, the done callbacks are called with
      its arguments, in the order in which they were added, and no fail callback ever is. The same for a reject that
      comes first, the other way round; and without either the deferred is pending and calls neither. */
  lemma FirstSettles<U, A>(actions: seq<Action<U, A>>, k: nat)
    requires k <= |actions| && forall j | 0 <= j < k :: !actions[j].Resolve? && !actions[j].Reject?
    ensures var d := After(actions);
            var done, fail := CallsOf(d.log, Done), CallsOf(d.log, Fail);
            && (k == |actions| ==> d.status == Pending && done == [] && fail == [])
            && (k < |actions| && actions[k].Resolve? ==>
                  && d.status == Resolved && fail == [] && |done| <= |Added(actions, Done)|
                  && done == Calls(Added(actions, Done)[..|done|], actions[k].a)
                  && (Done !in d.frames ==> |done| == |Added(actions, Done)|))
            && (k < |actions| && actions[k].Reject? ==>
                  && d.status == Rejected && done == [] && |fail| <= |Added(actions, Fail)|
                  && fail == Calls(Added(actions, Fail)[..|fail|], actions[k].a)
                  && (Fail !in d.frames ==> |fail| == |Added(actions, Fail)|))
  {
    SettlesOnce(actions);
    if k == |actions| || Ends(actions[k]) {
      SettlementIsFirst(actions, k);
    }
    hide After, Settlement, Added, CallsOf, Calls;
  }

  /** Once settled, resolve, reject and notify leave the whole deferred exactly as it is. */
  lemma SettledIsFinal<U, A>(actions: seq<Action<U, A>>, a: A)
    requires After(actions).status != Pending
    ensures Apply(After(actions), Resolve(a)) == After(actions)
    ensures Apply(After(actions), Reject(a)) == After(actions)
    ensures Apply(After(actions), Notify(a)) == After(actions)
  {
    RunLinked(actions);
    var d, done, fail, outcome := After(actions), Added(actions, Done), Added(actions, Fail), Settlement(actions);
    LaterFiresIgnored(d, done, fail, outcome.value.0, outcome.value.1, Done, a);
    LaterFiresIgnored(d, done, fail, outcome.value.0, outcome.value.1, Fail, a);
    LaterFiresIgnored(d, done, fail, outcome.value.0, outcome.value.1, Progress, a);
  }

  /** A deferred leaves "pending" at most once: however a run goes on, the state and its arguments stay. */
  lemma {:induction false} LeavesPendingOnce<U, A>(actions: seq<Action<U, A>>, more: seq<Action<U, A>>)
    requires After(actions).status != Pending
    ensures After(actions + more).status == After(actions).status
    ensures Settlement(actions + more) == Settlement(actions) != None
    decreases |more|
  {
    RunLinked(actions);
    if more == [] {
      assert actions + more == actions;
    } else {
      LeavesPendingOnce(actions, more[..|more| - 1]);
      assert (actions + more)[..|actions + more| - 1] == actions + more[..|more| - 1];
      RunLinked(actions + more);
    }
  }
}
