/** What becomes of notify: the progress callbacks of a deferred over every run. */
module Notices {
  import opened Options
  import opened Callbacks
  import opened Deferred
  import opened DeferredProof
  import opened Announcements

  /** The notifications of a run before it settles, in order. */
  ghost function Notified<U, A>(actions: seq<Action<U, A>>): seq<Request<A>> {
    if actions == [] then []
    else
      var n := |actions| - 1;
      Notified(actions[..n]) +
      if actions[n].Notify? && Settlement(actions[..n]).None? then
        [Request(actions[n].a, |Added(actions[..n], Progress)|)]
      else []
  }

  /** Calls of user callbacks as calls of list entries. */
  ghost function Entries<U, A>(calls: seq<(U, A)>): (r: seq<(Fn<U>, A)>)
    ensures |r| == |calls|
  {
    seq(|calls|, i requires 0 <= i < |calls| => (User(calls[i].0), calls[i].1))
  }

  // ---- what one action is for the progress list ----

  function EventOf<U, A>(d: Deferred<U, A>, e: Action<U, A>): Option<Event<Fn<U>, A>> {
    match e
    case AddTo(w, us) => if w == Progress then Some(AddFns(Users(us))) else None
    case Notify(a) => Some(Fire(a))
    case Resolve(_) => if d.status == Pending then Some(LockList) else None
    case Reject(_) => if d.status == Pending then Some(LockList) else None
    case Returns =>
      if d.frames != [] && d.frames[|d.frames| - 1] == Progress && d.progress.firing then Some(Event.Returns) else None
  }

  /** The progress list is in state t and has made this call. */
  ghost predicate Speaks<U, A>(d: Deferred<U, A>, r: Deferred<U, A>, t: State<Fn<U>, A>, call: Call<Fn<U>, A>) {
    && r.progress == t
    && Entries(CallsOf(r.log, Progress)) == Entries(CallsOf(d.log, Progress)) + ToSeq(call)
  }

  lemma ProgressSpeaks<U, A>(d: Deferred<U, A>, e: Deferred<U, A>, t: State<Fn<U>, A>, call: Call<Fn<U>, A>)
    requires e.log == d.log && e.Set(Progress, t).Sound() && (call.Some? ==> call == AboutToCall(t))
    ensures Speaks(d, Dispatch(e.Set(Progress, t), Progress, call), t, call)
  {
    if call.Some? {
      LogGrows(d.log, Progress, call.value.0.u, call.value.1);
      var before := CallsOf(d.log, Progress);
      assert Entries(before + [(call.value.0.u, call.value.1)]) == Entries(before) + [call.value];
    } else {
      assert Entries(CallsOf(d.log, Progress)) + [] == Entries(CallsOf(d.log, Progress));
    }
  }

  /** A call of another list that is not one of the built-in callbacks. */
  lemma OthersSilent<U, A>(d: Deferred<U, A>, e: Deferred<U, A>, w: Which, t: State<Fn<U>, A>, call: Call<Fn<U>, A>)
    requires e.log == d.log && w != Progress && e.Set(w, t).Sound() && (call.Some? ==> call == AboutToCall(t))
    requires call.Some? ==> call.value.0.User?
    ensures Speaks(d, Dispatch(e.Set(w, t), w, call), e.progress, None)
  {
    assert Entries(CallsOf(d.log, Progress)) + [] == Entries(CallsOf(d.log, Progress));
    if call.Some? {
      LogGrows(d.log, w, call.value.0.u, call.value.1);
    }
  }

  /** Adding to the done or fail list calls user callbacks at most. */
  lemma AddCallsUsers<U, A>(d: Deferred<U, A>, done: seq<U>, fail: seq<U>, outcome: Option<(Which, A)>, w: Which,
                            us: seq<U>)
    requires Link(d, done, fail, outcome) && w != Progress
    ensures d.Sound() && var call := Add(d.Get(w), Users(us)).1; call.Some? ==> call.value.0.User?
  {
    var s := d.Get(w);
    if outcome.Some? && outcome.value.0 == w && !s.firing {
      var a := outcome.value.1;
      var t := s.(list := Some(Users(us)), firing := true, data := Some(a), firingIndex := 0, firingLength := |us|);
      RestartTurns(s, Users(us), a);
      assert t.list.value[0..] == Users(us[0..]);
      HeadTurns(t, us, 0, a);
    }
  }

  lemma AddSpeaks<U, A>(d: Deferred<U, A>, done: seq<U>, fail: seq<U>, outcome: Option<(Which, A)>, w: Which,
                        us: seq<U>)
    requires Link(d, done, fail, outcome) && w != Progress
    ensures d.Sound() && Speaks(d, Apply(d, AddTo(w, us)), d.progress, None)
  {
    AddCallsUsers(d, done, fail, outcome, w, us);
    hide Dispatch, CallsOf, Link, Entries;
    var (s, call) := Add(d.Get(w), Users(us));
    OthersSilent(d, d, w, s, call);
  }

  /** So does going on with the done or fail list. */
  lemma ReturnCallsUsers<U, A>(d: Deferred<U, A>, done: seq<U>, fail: seq<U>, outcome: Option<(Which, A)>, w: Which)
    requires Link(d, done, fail, outcome) && w != Progress && d.Get(w).firing
    ensures d.Sound() && d.Get(w).Valid() && var call := Return(d.Get(w)).1; call.Some? ==> call.value.0.User?
  {
    RunningWinner(d, done, fail, outcome, w);
    var us, k, a := if w == Done then done else fail, |CallsOf(d.log, w)|, outcome.value.1;
    hide CallsOf;
    HeadTurns(d.Get(w).(firingIndex := d.Get(w).firingIndex + 1), us, k, a);
  }

  lemma ReturnSpeaks<U, A>(d: Deferred<U, A>, done: seq<U>, fail: seq<U>, outcome: Option<(Which, A)>)
    requires Link(d, done, fail, outcome)
    requires d.Sound()
    ensures var r := Apply(d, Action.Returns);
            var e := EventOf(d, Action.Returns);
            if e.None? then Speaks(d, r, d.progress, None)
            else d.progress.firing && Speaks(d, r, Return(d.progress).0, Return(d.progress).1)
  {
    if d.frames == [] {
      assert Entries(CallsOf(d.log, Progress)) + [] == Entries(CallsOf(d.log, Progress));
    } else {
      ReturnIs(d);
      FramePopped(d);
      var w := d.frames[|d.frames| - 1];
      var e := d.(frames := d.frames[..|d.frames| - 1]);
      var (t, call) := Return(d.Get(w));
      if w == Progress {
        hide Dispatch, CallsOf, Link, Entries, Return, Apply;
        ProgressSpeaks(d, e, t, call);
      } else {
        ReturnCallsUsers(d, done, fail, outcome, w);
        hide Dispatch, CallsOf, Link, Entries, Return, Apply;
        OthersSilent(d, e, w, t, call);
      }
    }
  }

  /** The first resolve or reject locks the progress list. */
  lemma SettleSpeaks<U, A>(d: Deferred<U, A>, done: seq<U>, fail: seq<U>, w: Which, a: A)
    requires Link(d, done, fail, None) && w != Progress
    ensures d.Sound() && Speaks(d, FireList(d, w, a), Lock(d.progress), None)
  {
    var us := if w == Done then done else fail;
    BuiltInsRun(d, w, us, a);
    var s := Firing(d.Get(w), 3, a);
    assert s.list.value[3..] == Users(us[0..]);
    assert AtHead(s, us, 0, a);
    HeadTurns(s, us, 0, a);
    hide Dispatch, CallsOf, Entries, Turn, Link, FireList;
    var (t, call) := Turn(s);
    OthersSilent(d, Settle(d, w), w, t, call);
  }

  /** What this operation does to the progress list is all that happens to it. */
  ghost predicate Follows<U, A>(d: Deferred<U, A>, r: Deferred<U, A>, ev: Option<Event<Fn<U>, A>>)
    requires d.Sound()
  {
    match ev
    case None => Speaks(d, r, d.progress, None)
    case Some(e) => Announces(e) && Speaks(d, r, Step(d.progress, e).0, Step(d.progress, e).1)
  }

  lemma AddFollows<U, A>(d: Deferred<U, A>, done: seq<U>, fail: seq<U>, outcome: Option<(Which, A)>, w: Which,
                         us: seq<U>)
    requires Link(d, done, fail, outcome)
    ensures d.Sound() && Follows(d, Apply(d, AddTo(w, us)), EventOf(d, AddTo(w, us)))
  {
    if w == Progress {
      AddProgressSpeaks(d, us);
      hide Link, Add, Apply, Speaks;
    } else {
      AddSpeaks(d, done, fail, outcome, w, us);
      hide Link, Apply, Speaks;
    }
  }

  lemma AddProgressSpeaks<U, A>(d: Deferred<U, A>, us: seq<U>)
    requires d.Sound()
    ensures Speaks(d, Apply(d, AddTo(Progress, us)), Add(d.progress, Users(us)).0, Add(d.progress, Users(us)).1)
  {
    var (t, call) := Add(d.progress, Users(us));
    hide Dispatch, Speaks, CallsOf, Entries;
    ProgressSpeaks(d, d, t, call);
  }

  lemma NotifyFollows<U, A>(d: Deferred<U, A>, a: A)
    requires d.Sound()
    ensures Follows(d, FireList(d, Progress, a), Some(Fire(a)))
  {
    hide FireList, FireWith, Speaks;
    NotifySpeaks(d, a);
  }

  lemma FireFollows<U, A>(d: Deferred<U, A>, done: seq<U>, fail: seq<U>, outcome: Option<(Which, A)>, w: Which, a: A)
    requires Link(d, done, fail, outcome) && w != Progress
    ensures d.Sound() && (outcome.None? <==> d.status == Pending)
    ensures Follows(d, FireList(d, w, a), if d.status == Pending then Some(LockList) else None)
  {
    FireSpeaks(d, done, fail, outcome, w, a);
    assert outcome.None? <==> d.status == Pending;
    hide Link, FireList, Lock, Speaks;
  }

  lemma ReturnFollows<U, A>(d: Deferred<U, A>, done: seq<U>, fail: seq<U>, outcome: Option<(Which, A)>)
    requires Link(d, done, fail, outcome)
    ensures d.Sound() && Follows(d, Apply(d, Action.Returns), EventOf(d, Action.Returns))
  {
    assert d.Sound();
    hide Link, Apply, Return, Speaks;
    ReturnSpeaks(d, done, fail, outcome);
  }

  /** Every action is an operation on the progress list, or none. */
  lemma ActionFollows<U, A>(d: Deferred<U, A>, done: seq<U>, fail: seq<U>, outcome: Option<(Which, A)>, e: Action<U, A>)
    requires Link(d, done, fail, outcome)
    ensures d.Sound() && Follows(d, Apply(d, e), EventOf(d, e))
  {
    assert d.Sound();
    hide Link, Follows, FireList, Dispatch, Add, Return;
    match e
    case AddTo(w, us) => AddFollows(d, done, fail, outcome, w, us);
    case Notify(a) => NotifyFollows(d, a);
    case Resolve(a) => FireFollows(d, done, fail, outcome, Done, a);
    case Reject(a) => FireFollows(d, done, fail, outcome, Fail, a);
    case Returns => ReturnFollows(d, done, fail, outcome);
  }

  lemma NotifySpeaks<U, A>(d: Deferred<U, A>, a: A)
    requires d.Sound()
    ensures Speaks(d, FireList(d, Progress, a), FireWith(d.progress, a).0, FireWith(d.progress, a).1)
  {
    hide Dispatch, Begin, Speaks, CallsOf, Entries;
    var (t, call) := FireWith(d.progress, a);
    ProgressSpeaks(d, d, t, call);
  }

  lemma FireSpeaks<U, A>(d: Deferred<U, A>, done: seq<U>, fail: seq<U>, outcome: Option<(Which, A)>, w: Which, a: A)
    requires Link(d, done, fail, outcome) && w != Progress
    ensures d.Sound()
    ensures Speaks(d, FireList(d, w, a), if outcome.None? then Lock(d.progress) else d.progress, None)
  {
    if outcome.None? {
      SettleSpeaks(d, done, fail, w, a);
    } else {
      LaterFiresIgnored(d, done, fail, outcome.value.0, outcome.value.1, w, a);
      assert Entries(CallsOf(d.log, Progress)) + [] == Entries(CallsOf(d.log, Progress));
    }
  }

  // ---- every run ----

  lemma UsersJoin<U>(a: seq<U>, b: seq<U>)
    ensures Users(a + b) == Users(a) + Users(b)
  {
  }

  /** The progress list after a run, and its calls so far. */
  ghost predicate Told<U, A>(d: Deferred<U, A>, added: seq<U>, told: seq<Request<A>>, settled: bool,
                             batches: seq<Batch<A>>) {
    && InStep(d.progress, Users(added), told, batches) && Bounded(batches, |added|)
    && Entries(CallsOf(d.log, Progress)) == Spoken(Users(added), batches)
    && (d.progress.stack.None? <==> settled)
  }

  lemma TellMore<U, A>(d: Deferred<U, A>, r: Deferred<U, A>, added: seq<U>, told: seq<Request<A>>, settled: bool,
                       batches: seq<Batch<A>>, ev: Event<Fn<U>, A>, us: seq<U>)
    returns (more: seq<Batch<A>>)
    requires Told(d, added, told, settled, batches) && Announces(ev) && FnsOf(ev) == Users(us)
    requires d.progress.Valid() && Speaks(d, r, Step(d.progress, ev).0, Step(d.progress, ev).1)
    ensures Told(r, added + us, told + RequestOf(ev, settled, |added|), settled || ev.LockList?, more)
  {
    UsersJoin(added, us);
    hide InStep, Step, Spoken, Bounded, CallsOf, Entries, FnsOf, RequestOf, Announces, Users;
    more := EventInStep(d.progress, Users(added), told, batches, ev);
  }

  lemma TellNoMore<U, A>(d: Deferred<U, A>, r: Deferred<U, A>, added: seq<U>, told: seq<Request<A>>, settled: bool,
                         batches: seq<Batch<A>>)
    requires Told(d, added, told, settled, batches) && Speaks(d, r, d.progress, None)
    ensures Told(r, added, told, settled, batches)
  {
    hide InStep, Spoken, Bounded, CallsOf, Entries;
  }

  lemma NewTold<U, A>()
    ensures Told(After<U, A>([]), Added<U, A>([], Progress), Notified<U, A>([]), Settlement<U, A>([]).Some?, [])
  {
    assert CallsOf<U, A>([], Progress) == [] && Users<U>([]) == [];
  }

  lemma {:induction false} RunTold<U, A>(actions: seq<Action<U, A>>) returns (batches: seq<Batch<A>>)
    ensures Told(After(actions), Added(actions, Progress), Notified(actions), Settlement(actions).Some?, batches)
    decreases |actions|
  {
    hide *;
    if actions == [] {
      NewTold<U, A>();
      batches := [];
    } else {
      var n := |actions| - 1;
      var before := RunTold(actions[..n]);
      batches := ActionTold(actions[..n], actions[n], before);
      assert actions == actions[..n] + [actions[n]];
    }
  }

  lemma ActionTold<U, A>(actions: seq<Action<U, A>>, e: Action<U, A>, batches: seq<Batch<A>>)
    returns (more: seq<Batch<A>>)
    requires Told(After(actions), Added(actions, Progress), Notified(actions), Settlement(actions).Some?, batches)
    ensures var next := actions + [e];
            Told(After(next), Added(next, Progress), Notified(next), Settlement(next).Some?, more)
  {
    PendingUnsettled(actions);
    hide *;
    var d, added, told, settled := After(actions), Added(actions, Progress), Notified(actions),
      Settlement(actions).Some?;
    RunLinked(actions);
    ActionFollows(d, Added(actions, Done), Added(actions, Fail), Settlement(actions), e);
    Extended(actions, e);
    EventFacts(d, e, settled, |added|);
    more := FollowTold(d, Apply(d, e), added, told, settled, batches, EventOf(d, e),
                       if e.AddTo? && e.w == Progress then e.us else [],
                       if e.Notify? && !settled then [Request(e.a, |added|)] else []);
  }

  lemma PendingUnsettled<U, A>(actions: seq<Action<U, A>>)
    ensures After(actions).status == Pending <==> Settlement(actions).None?
  {
    SettlesOnce(actions);
  }

  /** Which operation an action is, seen from the run. */
  lemma EventFacts<U, A>(d: Deferred<U, A>, e: Action<U, A>, settled: bool, known: nat)
    requires d.status == Pending <==> !settled
    ensures var us := if e.AddTo? && e.w == Progress then e.us else [];
            var asked := if e.Notify? && !settled then [Request(e.a, known)] else [];
            var ends := e.Resolve? || e.Reject?;
            match EventOf(d, e)
            case None => us == [] && asked == [] && (ends ==> settled)
            case Some(ev) =>
              FnsOf(ev) == Users(us) && RequestOf(ev, settled, known) == asked && (ev.LockList? <==> !settled && ends)
  {
  }

  lemma FollowTold<U, A>(d: Deferred<U, A>, r: Deferred<U, A>, added: seq<U>, told: seq<Request<A>>, settled: bool,
                         batches: seq<Batch<A>>, ev: Option<Event<Fn<U>, A>>, us: seq<U>, asked: seq<Request<A>>)
    returns (more: seq<Batch<A>>)
    requires Told(d, added, told, settled, batches) && d.Sound() && Follows(d, r, ev)
    requires match ev
             case None => us == [] && asked == []
             case Some(e) => FnsOf(e) == Users(us) && RequestOf(e, settled, |added|) == asked
    ensures Told(r, added + us, told + asked, settled || (ev.Some? && ev.value.LockList?), more)
  {
    hide Told, Speaks, Step, FnsOf, RequestOf, Users, Announces;
    if ev.None? {
      TellNoMore(d, r, added, told, settled, batches);
      assert added + us == added && told + asked == told;
      more := batches;
    } else {
      more := TellMore(d, r, added, told, settled, batches, ev.value, us);
    }
  }

  /** The functions of a run, one action further. */
  lemma Extended<U, A>(actions: seq<Action<U, A>>, e: Action<U, A>)
    ensures var next := actions + [e];
            && After(next) == Apply(After(actions), e)
            && Added(next, Progress) == Added(actions, Progress) + (if e.AddTo? && e.w == Progress then e.us else [])
            && Notified(next) == Notified(actions) +
               (if e.Notify? && Settlement(actions).None? then [Request(e.a, |Added(actions, Progress)|)] else [])
            && (Settlement(next).Some? <==> Settlement(actions).Some? || e.Resolve? || e.Reject?)
  {
    assert (actions + [e])[..|actions|] == actions;
  }

  lemma {:induction false} SpokenUsers<U, A>(added: seq<U>, batches: seq<Batch<A>>)
    requires Bounded(batches, |added|)
    ensures Spoken(Users(added), batches) == Entries(Spoken(added, batches))
  {
    if batches != [] {
      var n := |batches| - 1;
      SpokenUsers(added, batches[..n]);
      var a, b := Spoken(added, batches[..n]), Calls(added[..batches[n].upTo], batches[n].data);
      assert Calls(Users(added)[..batches[n].upTo], batches[n].data) == Entries(b);
      assert Entries(a + b) == Entries(a) + Entries(b);
    }
  }

  lemma SameEntries<U, A>(a: seq<(U, A)>, b: seq<(U, A)>)
    requires Entries(a) == Entries(b)
    ensures a == b
  {
    forall i | 0 <= i < |a|
      ensures a[i] == b[i]
    {
      assert Entries(a)[i] == Entries(b)[i];
    }
  }

  /** Over every run of a deferred, nested callbacks included: the progress callbacks are called for one
      notification after the other, in the order of the notify calls before the settlement. Each notification
      calls, in order of addition, at least the callbacks that had been added when it was made and those that
      heard the one before, and none starts before that is done. At rest the last one has reached everybody,
      and unless the deferred has settled all of them have been delivered. */
  lemma NotifyPromise<U, A>(actions: seq<Action<U, A>>) returns (batches: seq<Batch<A>>)
    ensures var d, added, told := After(actions), Added(actions, Progress), Notified(actions);
            && |batches| <= |told| && Bounded(batches, |added|)
            && CallsOf(d.log, Progress) == Spoken(added, batches)
            && (forall k | 0 <= k < |batches| :: batches[k].data == told[k].data)
            && (forall k | 0 <= k < |batches| && (k + 1 < |batches| || Progress !in d.frames) ::
                  told[k].known <= batches[k].upTo)
            && (forall j, k | 0 <= j < k < |batches| && (k + 1 < |batches| || Progress !in d.frames) ::
                  batches[j].upTo <= batches[k].upTo)
            && (Progress !in d.frames && batches != [] ==> batches[|batches| - 1].upTo == |added|)
            && (Progress !in d.frames && d.status == Pending ==> |batches| == |told|)
  {
    batches := RunTold(actions);
    RunLinked(actions);
    SettlesOnce(actions);
    var d, added := After(actions), Added(actions, Progress);
    assert Progress in d.frames <==> d.progress.firing;
    SpokenUsers(added, batches);
    SameEntries(CallsOf(d.log, Progress), Spoken(added, batches));
    hide After, Added, Notified, Settlement, Spoken, CallsOf, Entries, Link;
  }
}
