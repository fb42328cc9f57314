/** Repeatable lists with memory, such as the progress list of a deferred: firings made from running callbacks
    are queued, and every firing reaches every callback, over every run. */
module Announcements {
  import opened Options
  import opened Callbacks

  /** A firing that was asked for, and how many callbacks had been added by then. */
  datatype Request<D> = Request(data: D, known: nat)

  /** A firing that has begun, and how many callbacks it has called, in order of addition. */
  datatype Batch<D> = Batch(data: D, upTo: nat)

  ghost predicate Bounded<D>(batches: seq<Batch<D>>, known: nat) {
    forall k | 0 <= k < |batches| :: batches[k].upTo <= known
  }

  /** The calls of some batches, one after the other. */
  ghost function Spoken<F, D>(added: seq<F>, batches: seq<Batch<D>>): seq<(F, D)>
    requires Bounded(batches, |added|)
  {
    if batches == [] then []
    else
      var n := |batches| - 1;
      Spoken(added, batches[..n]) + Calls(added[..batches[n].upTo], batches[n].data)
  }

  /** The batches are the first requests in order, and each of the first n has called every callback that was
      there when it was asked for, and every one that its predecessors have called. */
  ghost predicate InOrder<D>(known: nat, requests: seq<Request<D>>, batches: seq<Batch<D>>, n: nat) {
    && n <= |batches| <= |requests|
    && (forall k | 0 <= k < |batches| :: batches[k].data == requests[k].data)
    && (forall k | 0 <= k < |requests| :: requests[k].known <= known) && Bounded(batches, known)
    && (forall k | 0 <= k < n :: requests[k].known <= batches[k].upTo)
    && (forall j, k | 0 <= j < k < n :: batches[j].upTo <= batches[k].upTo)
  }

  /** What the list remembers, and what it has queued. */
  ghost predicate Keeps<F, D>(s: State<F, D>, added: seq<F>, requests: seq<Request<D>>, batches: seq<Batch<D>>) {
    && s.Valid() && !s.once && s.remember
    && (s.fired <==> batches != [])
    && (s.list.None? ==> batches == [] && !s.firing)
    && (s.list.Some? ==> s.memory == if batches == [] then None else Some(batches[|batches| - 1].data))
    && (s.stack.Some? ==>
          && s.list == Some(added) && |batches| + |s.stack.value| == |requests|
          && forall k | 0 <= k < |s.stack.value| :: s.stack.value[k] == requests[|batches| + k].data)
    && (s.list.Some? && s.stack.None? ==> batches != [])
  }

  /** Between two steps: the last batch is under way while a callback is running and complete otherwise. */
  ghost predicate InStep<F, D>(s: State<F, D>, added: seq<F>, requests: seq<Request<D>>, batches: seq<Batch<D>>) {
    && Keeps(s, added, requests, batches)
    && InOrder(|added|, requests, batches, if s.firing then |batches| - 1 else |batches|)
    && (s.firing ==> Under(s, added, batches, s.firingIndex + 1))
    && (!s.firing && batches != [] ==> s.list.Some? && batches[|batches| - 1].upTo == |added|)
  }

  /** The last batch has i entries of the list behind it. */
  ghost predicate Under<F, D>(s: State<F, D>, added: seq<F>, batches: seq<Batch<D>>, i: int) {
    && batches != [] && s.list.Some? && 0 <= i <= |s.list.value|
    && var last := batches[|batches| - 1];
       && s.data == Some(last.data) && last.upTo <= |added|
       && s.list.value[i..] == added[last.upTo..]
       && (s.stack.Some? ==> i == last.upTo)
  }

  /** At the head of the firing loop. */
  ghost predicate Looping<F, D>(s: State<F, D>, added: seq<F>, requests: seq<Request<D>>, batches: seq<Batch<D>>) {
    && Keeps(s, added, requests, batches) && s.firing
    && InOrder(|added|, requests, batches, |batches| - 1)
    && Under(s, added, batches, s.firingIndex)
  }

  lemma CallsMore<F, D>(added: seq<F>, k: nat, d: D)
    requires k < |added|
    ensures Calls(added[..k + 1], d) == Calls(added[..k], d) + [(added[k], d)]
  {
  }

  /** One more call of the last batch. */
  ghost function OneMore<D>(batches: seq<Batch<D>>): (r: seq<Batch<D>>)
    requires batches != []
    ensures |r| == |batches|
  {
    var last := batches[|batches| - 1];
    batches[|batches| - 1 := last.(upTo := last.upTo + 1)]
  }

  lemma SpokenLast<F, D>(added: seq<F>, front: seq<Batch<D>>, last: Batch<D>)
    requires Bounded(front, |added|) && last.upTo <= |added|
    ensures Bounded(front + [last], |added|)
    ensures Spoken(added, front + [last]) == Spoken(added, front) + Calls(added[..last.upTo], last.data)
  {
    assert (front + [last])[..|front|] == front;
  }

  lemma SpokenMore<F, D>(added: seq<F>, batches: seq<Batch<D>>)
    requires batches != [] && Bounded(batches, |added|) && batches[|batches| - 1].upTo < |added|
    ensures var last := batches[|batches| - 1];
            && Bounded(OneMore(batches), |added|)
            && Spoken(added, OneMore(batches)) == Spoken(added, batches) + [(added[last.upTo], last.data)]
  {
    hide *;
    var front, last, next := OneMoreParts(batches, |added|);
    SpokenLast(added, front, last);
    SpokenLast(added, front, next);
    CallsMore(added, last.upTo, last.data);
  }

  lemma OneMoreParts<D>(batches: seq<Batch<D>>, known: nat)
    returns (front: seq<Batch<D>>, last: Batch<D>, next: Batch<D>)
    requires batches != [] && Bounded(batches, known)
    ensures batches == front + [last] && OneMore(batches) == front + [next] && Bounded(front, known)
    ensures last == batches[|batches| - 1] && next == last.(upTo := last.upTo + 1)
  {
    var n := |batches| - 1;
    front, last := batches[..n], batches[n];
    next := last.(upTo := last.upTo + 1);
  }

  /** A batch that has called nothing yet. */
  lemma SpokenNew<F, D>(added: seq<F>, batches: seq<Batch<D>>, d: D)
    requires Bounded(batches, |added|)
    ensures Spoken(added, batches + [Batch(d, 0)]) == Spoken(added, batches)
  {
    SpokenLast(added, batches, Batch(d, 0));
    assert Calls(added[..0], d) == [];
  }

  lemma {:induction false} SpokenAdds<F, D>(added: seq<F>, fns: seq<F>, batches: seq<Batch<D>>)
    requires Bounded(batches, |added|)
    ensures Spoken(added + fns, batches) == Spoken(added, batches)
  {
    if batches != [] {
      var n := |batches| - 1;
      SpokenAdds(added, fns, batches[..n]);
      assert (added + fns)[..batches[n].upTo] == added[..batches[n].upTo];
    }
  }

  /** The next batch begins. */
  lemma OrderNext<D>(known: nat, requests: seq<Request<D>>, batches: seq<Batch<D>>)
    requires InOrder(known, requests, batches, |batches|) && |batches| < |requests|
    ensures InOrder(known, requests, batches + [Batch(requests[|batches|].data, 0)], |batches|)
  {
  }

  /** The last batch has reached everybody. */
  lemma OrderDone<D>(known: nat, requests: seq<Request<D>>, batches: seq<Batch<D>>)
    requires batches != [] && InOrder(known, requests, batches, |batches| - 1)
    requires batches[|batches| - 1].upTo == known
    ensures InOrder(known, requests, batches, |batches|)
  {
  }

  lemma OrderCall<D>(known: nat, requests: seq<Request<D>>, batches: seq<Batch<D>>)
    requires batches != [] && InOrder(known, requests, batches, |batches| - 1) && batches[|batches| - 1].upTo < known
    ensures InOrder(known, requests, OneMore(batches), |batches| - 1)
  {
  }

  /** The list at the head of the loop for a firing of d that starts at entry i. */
  function Started<F, D>(s: State<F, D>, d: D, i: nat): State<F, D>
    requires s.list.Some?
  {
    s.(memory := Some(d), fired := true, firing := true, data := Some(d), firingIndex := i, firingStart := 0,
       firingLength := |s.list.value|)
  }

  /** The loop calls the next callback, goes on to the next queued firing, or comes to rest. */
  lemma {:induction false} TurnInStep<F, D>(s: State<F, D>, added: seq<F>, requests: seq<Request<D>>,
                                            batches: seq<Batch<D>>)
    returns (more: seq<Batch<D>>)
    requires Looping(s, added, requests, batches)
    ensures s.Valid() && 0 <= s.firingIndex && s.firing && InStep(Turn(s).0, added, requests, more)
    ensures Bounded(batches, |added|) && Bounded(more, |added|)
    ensures Spoken(added, more) == Spoken(added, batches) + ToSeq(Turn(s).1)
    ensures Turn(s).0.stack.None? == s.stack.None?
    decreases if s.stack.Some? then |s.stack.value| else 0
  {
    var n := |batches| - 1;
    var last := batches[n];
    if s.firingIndex < |s.list.value| {
      more := CallInStep(s, added, requests, batches);
    } else {
      assert |added[last.upTo..]| == |s.list.value[s.firingIndex..]| == 0;
      OrderDone(|added|, requests, batches);
      if s.stack.Some? && s.stack.value != [] {
        var d := s.stack.value[0];
        var t := s.(firing := false, stack := Some(s.stack.value[1..]));
        NextLoop(s, added, requests, batches);
        SpokenNew(added, batches, d);
        assert Turn(s) == Turn(Started(t, d, 0));
        more := TurnInStep(Started(t, d, 0), added, requests, batches + [Batch(d, 0)]);
      } else {
        more := batches;
      }
    }
  }

  lemma CallInStep<F, D>(s: State<F, D>, added: seq<F>, requests: seq<Request<D>>, batches: seq<Batch<D>>)
    returns (more: seq<Batch<D>>)
    requires Looping(s, added, requests, batches) && s.firingIndex < |s.list.value|
    ensures s.Valid() && 0 <= s.firingIndex && s.firing && InStep(Turn(s).0, added, requests, more)
    ensures Bounded(batches, |added|) && Bounded(more, |added|)
    ensures Spoken(added, more) == Spoken(added, batches) + ToSeq(Turn(s).1)
    ensures Turn(s).0.stack.None? == s.stack.None?
  {
    LoopingParts(s, added, requests, batches);
    hide *;
    UnderMoves(s, added, batches);
    OrderCall(|added|, requests, batches);
    SpokenMore(added, batches);
    KeepsCall(s, added, requests, batches);
    more := OneMore(batches);
    CallTurns(s);
    JoinInStep(s, added, requests, more);
  }

  lemma LoopingParts<F, D>(s: State<F, D>, added: seq<F>, requests: seq<Request<D>>, batches: seq<Batch<D>>)
    requires Looping(s, added, requests, batches)
    ensures s.Valid() && s.firing && s.list.Some? && batches != [] && s.data.Some?
    ensures Keeps(s, added, requests, batches) && InOrder(|added|, requests, batches, |batches| - 1)
    ensures 0 <= s.firingIndex && Under(s, added, batches, s.firingIndex)
    ensures Bounded(batches, |added|)
  {
  }

  lemma JoinInStep<F, D>(s: State<F, D>, added: seq<F>, requests: seq<Request<D>>, batches: seq<Batch<D>>)
    requires s.firing && batches != [] && Keeps(s, added, requests, batches)
    requires InOrder(|added|, requests, batches, |batches| - 1) && Under(s, added, batches, s.firingIndex + 1)
    ensures InStep(s, added, requests, batches)
  {
    hide Keeps, InOrder, Under;
  }

  lemma KeepsCall<F, D>(s: State<F, D>, added: seq<F>, requests: seq<Request<D>>, batches: seq<Batch<D>>)
    requires batches != [] && Keeps(s, added, requests, batches)
    ensures Keeps(s, added, requests, OneMore(batches))
  {
  }

  lemma CallTurns<F, D>(s: State<F, D>)
    requires s.Valid() && s.firing && s.list.Some? && s.data.Some? && 0 <= s.firingIndex < |s.list.value|
    ensures Turn(s) == (s, Some((s.list.value[s.firingIndex], s.data.value)))
  {
  }

  lemma UnderMoves<F, D>(s: State<F, D>, added: seq<F>, batches: seq<Batch<D>>)
    requires s.list.Some? && 0 <= s.firingIndex < |s.list.value| && Under(s, added, batches, s.firingIndex)
    ensures var last := batches[|batches| - 1];
            && last.upTo < |added| && s.list.value[s.firingIndex] == added[last.upTo] && s.data == Some(last.data)
            && Under(s, added, OneMore(batches), s.firingIndex + 1)
  {
    var last := batches[|batches| - 1];
    assert s.list.value[s.firingIndex..][0] == added[last.upTo..][0];
    assert s.list.value[s.firingIndex + 1..] == s.list.value[s.firingIndex..][1..];
    assert added[last.upTo + 1..] == added[last.upTo..][1..];
  }

  /** The queue moves up. */
  lemma NextLoop<F, D>(s: State<F, D>, added: seq<F>, requests: seq<Request<D>>, batches: seq<Batch<D>>)
    requires Looping(s, added, requests, batches) && InOrder(|added|, requests, batches, |batches|)
    requires s.stack.Some? && s.stack.value != [] && s.firingIndex == |s.list.value|
    ensures var d := s.stack.value[0];
            Looping(Started(s.(firing := false, stack := Some(s.stack.value[1..])), d, 0), added, requests,
                    batches + [Batch(d, 0)])
  {
    OrderNext(|added|, requests, batches);
    assert s.stack.value[0] == requests[|batches|].data;
  }

  // ---- every operation ----

  lemma AddInStep<F, D>(s: State<F, D>, added: seq<F>, requests: seq<Request<D>>, batches: seq<Batch<D>>, fns: seq<F>)
    returns (more: seq<Batch<D>>)
    requires InStep(s, added, requests, batches)
    ensures s.Valid() && InStep(Add(s, fns).0, added + fns, requests, more)
    ensures Bounded(batches, |added|) && Bounded(more, |added + fns|)
    ensures Spoken(added + fns, more) == Spoken(added, batches) + ToSeq(Add(s, fns).1)
    ensures Add(s, fns).0.stack.None? == s.stack.None?
  {
    more := batches;
    SpokenAdds(added, fns, batches);
    if s.list.Some? && s.firing {
      var last := batches[|batches| - 1];
      var list, i := s.list.value + fns, s.firingIndex + 1;
      assert list[i..] == s.list.value[i..] + fns;
      assert (added + fns)[last.upTo..] == added[last.upTo..] + fns;
    } else if s.list.Some? && s.memory.Some? {
      var t := Started(s.(list := Some(s.list.value + fns)), s.memory.value, |s.list.value|);
      assert t.list.value[|s.list.value|..] == fns == (added + fns)[|added|..];
      assert Add(s, fns) == Turn(t);
      more := TurnInStep(t, added + fns, requests, batches);
    }
  }

  lemma FireInStep<F, D>(s: State<F, D>, added: seq<F>, requests: seq<Request<D>>, batches: seq<Batch<D>>, d: D)
    returns (more: seq<Batch<D>>)
    requires InStep(s, added, requests, batches)
    ensures s.Valid() && FireWith(s, d).0.stack.None? == s.stack.None?
    ensures var asked := if s.stack.None? then requests else requests + [Request(d, |added|)];
            InStep(FireWith(s, d).0, added, asked, more)
    ensures Bounded(batches, |added|) && Bounded(more, |added|)
    ensures Spoken(added, more) == Spoken(added, batches) + ToSeq(FireWith(s, d).1)
  {
    more := batches;
    if s.stack.Some? && !s.firing {
      FireLoops(s, added, requests, batches, d);
      hide *;
      SpokenNew(added, batches, d);
      more := TurnInStep(Started(s, d, 0), added, requests + [Request(d, |added|)], batches + [Batch(d, 0)]);
    } else {
      FireWaits(s, added, requests, batches, d);
      hide *;
      assert Spoken(added, batches) + [] == Spoken(added, batches);
    }
  }

  lemma FireLoops<F, D>(s: State<F, D>, added: seq<F>, requests: seq<Request<D>>, batches: seq<Batch<D>>, d: D)
    requires InStep(s, added, requests, batches) && s.stack.Some? && !s.firing
    ensures s.Valid() && s.list.Some? && Bounded(batches, |added|)
    ensures var t := Started(s, d, 0);
            && t.Valid() && t.firing && t.firingIndex == 0 && t.stack == s.stack && FireWith(s, d) == Turn(t)
            && Looping(t, added, requests + [Request(d, |added|)], batches + [Batch(d, 0)])
  {
    hide Turn;
    OrderNext(|added|, requests + [Request(d, |added|)], batches);
  }

  /** The firing is ignored, or queued. */
  lemma FireWaits<F, D>(s: State<F, D>, added: seq<F>, requests: seq<Request<D>>, batches: seq<Batch<D>>, d: D)
    requires InStep(s, added, requests, batches) && (s.stack.None? || s.firing)
    ensures s.Valid() && Bounded(batches, |added|)
    ensures FireWith(s, d).1.None? && FireWith(s, d).0.stack.None? == s.stack.None?
    ensures var asked := if s.stack.None? then requests else requests + [Request(d, |added|)];
            InStep(FireWith(s, d).0, added, asked, batches)
  {
    if s.stack.Some? {
      var t := FireWith(s, d).0;
      var asked := requests + [Request(d, |added|)];
      assert t == s.(stack := Some(s.stack.value + [d]));
      assert Keeps(t, added, asked, batches);
      OrderAsked(|added|, requests, batches, d);
      hide Keeps, InOrder;
    }
  }

  lemma OrderAsked<D>(known: nat, requests: seq<Request<D>>, batches: seq<Batch<D>>, d: D)
    ensures forall n | InOrder(known, requests, batches, n) ::
              InOrder(known, requests + [Request(d, known)], batches, n)
  {
  }

  lemma ReturnInStep<F, D>(s: State<F, D>, added: seq<F>, requests: seq<Request<D>>, batches: seq<Batch<D>>)
    returns (more: seq<Batch<D>>)
    requires InStep(s, added, requests, batches) && s.firing
    ensures s.Valid() && InStep(Return(s).0, added, requests, more)
    ensures Bounded(batches, |added|) && Bounded(more, |added|)
    ensures Spoken(added, more) == Spoken(added, batches) + ToSeq(Return(s).1)
    ensures Return(s).0.stack.None? == s.stack.None?
  {
    ReturnLoops(s, added, requests, batches);
    hide *;
    more := TurnInStep(s.(firingIndex := s.firingIndex + 1), added, requests, batches);
  }

  lemma ReturnLoops<F, D>(s: State<F, D>, added: seq<F>, requests: seq<Request<D>>, batches: seq<Batch<D>>)
    requires InStep(s, added, requests, batches) && s.firing
    ensures var t := s.(firingIndex := s.firingIndex + 1);
            && s.Valid() && Bounded(batches, |added|) && t.Valid() && t.firing && 0 <= t.firingIndex
            && Return(s) == Turn(t) && Looping(t, added, requests, batches)
  {
    hide Turn;
  }

  lemma LockInStep<F, D>(s: State<F, D>, added: seq<F>, requests: seq<Request<D>>, batches: seq<Batch<D>>)
    requires InStep(s, added, requests, batches)
    ensures InStep(Lock(s), added, requests, batches) && Lock(s).stack.None?
  {
  }

  // ---- every run of a list ----

  /** What a deferred does with its progress list: nobody removes from it, empties or disables it. */
  predicate Announces<F, D>(e: Event<F, D>) {
    e.AddFns? || e.Fire? || e.LockList? || e.Returns?
  }

  function FnsOf<F, D>(e: Event<F, D>): seq<F> {
    if e.AddFns? then e.fns else []
  }

  function RequestOf<F, D>(e: Event<F, D>, locked: bool, known: nat): seq<Request<D>> {
    if e.Fire? && !locked then [Request(e.data, known)] else []
  }

  /** All callbacks ever added, in order. */
  ghost function AddedFns<F, D>(events: seq<Event<F, D>>): seq<F> {
    if events == [] then []
    else
      var n := |events| - 1;
      AddedFns(events[..n]) + FnsOf(events[n])
  }

  /** All firings asked for before the list was locked, in order. */
  ghost function Requests<F, D>(events: seq<Event<F, D>>): seq<Request<D>> {
    if events == [] then []
    else
      var n := |events| - 1;
      Requests(events[..n]) + RequestOf(events[n], LockList in events[..n], |AddedFns(events[..n])|)
  }

  lemma InStepBounded<F, D>(s: State<F, D>, added: seq<F>, requests: seq<Request<D>>, batches: seq<Batch<D>>)
    requires InStep(s, added, requests, batches)
    ensures s.Valid() && Bounded(batches, |added|)
  {
  }

  lemma EventInStep<F, D>(s: State<F, D>, added: seq<F>, requests: seq<Request<D>>, batches: seq<Batch<D>>,
                          e: Event<F, D>)
    returns (more: seq<Batch<D>>)
    requires InStep(s, added, requests, batches) && Announces(e)
    ensures s.Valid()
    ensures InStep(Step(s, e).0, added + FnsOf(e), requests + RequestOf(e, s.stack.None?, |added|), more)
    ensures Bounded(batches, |added|) && Bounded(more, |added + FnsOf(e)|)
    ensures Spoken(added + FnsOf(e), more) == Spoken(added, batches) + ToSeq(Step(s, e).1)
    ensures Step(s, e).0.stack.None? <==> s.stack.None? || e.LockList?
  {
    InStepBounded(s, added, requests, batches);
    hide InStep, Add, FireWith, Return, Lock, Spoken, Bounded;
    if e.AddFns? {
      more := AddInStep(s, added, requests, batches, e.fns);
      assert requests + RequestOf(e, s.stack.None?, |added|) == requests;
    } else {
      assert added + FnsOf(e) == added;
      more := OtherInStep(s, added, requests, batches, e);
    }
  }

  lemma OtherInStep<F, D>(s: State<F, D>, added: seq<F>, requests: seq<Request<D>>, batches: seq<Batch<D>>,
                          e: Event<F, D>)
    returns (more: seq<Batch<D>>)
    requires InStep(s, added, requests, batches) && Announces(e) && !e.AddFns?
    ensures s.Valid() && Bounded(batches, |added|) && Bounded(more, |added|)
    ensures InStep(Step(s, e).0, added, requests + RequestOf(e, s.stack.None?, |added|), more)
    ensures Spoken(added, more) == Spoken(added, batches) + ToSeq(Step(s, e).1)
    ensures Step(s, e).0.stack.None? <==> s.stack.None? || e.LockList?
  {
    InStepBounded(s, added, requests, batches);
    hide InStep, Add, FireWith, Return, Lock, Spoken, Bounded;
    if e.Fire? {
      more := FireInStep(s, added, requests, batches, e.data);
      assert requests + RequestOf(e, s.stack.None?, |added|) ==
             if s.stack.None? then requests else requests + [Request(e.data, |added|)];
    } else {
      assert requests + RequestOf(e, s.stack.None?, |added|) == requests;
      if e.Returns? && s.firing {
        more := ReturnInStep(s, added, requests, batches);
      } else {
        LockInStep(s, added, requests, batches);
        more := batches;
        assert Spoken(added, batches) + [] == Spoken(added, batches);
      }
    }
  }

  lemma {:induction false} RunInStep<F, D>(events: seq<Event<F, D>>) returns (batches: seq<Batch<D>>)
    requires forall e | e in events :: Announces(e)
    ensures Bounded(batches, |AddedFns(events)|)
    ensures var (s, log) := Run(Fresh<F, D>(false, true), events);
            && InStep(s, AddedFns(events), Requests(events), batches)
            && log == Spoken(AddedFns(events), batches)
            && (s.stack.None? <==> LockList in events)
    decreases |events|
  {
    if events == [] {
      batches := [];
    } else {
      var n := |events| - 1;
      assert events[n] in events && events == events[..n] + [events[n]];
      var before := RunInStep(events[..n]);
      hide InStep, Step, Spoken, Bounded, FnsOf, RequestOf;
      batches := EventInStep(Run(Fresh<F, D>(false, true), events[..n]).0, AddedFns(events[..n]), Requests(events[..n]),
                             before, events[n]);
    }
  }

  /** Over every run, nested callbacks included: the calls are those of the firings asked for, one firing after
      the other in the order they were asked for. Each calls, in order of addition, at least the callbacks that
      had been added when it was asked for and those its predecessors have called, and none starts before that is
      done. At rest the last one has reached everybody, and unless the list is locked all of them have been made. */
  lemma AnnouncementPromise<F, D>(events: seq<Event<F, D>>) returns (batches: seq<Batch<D>>)
    requires forall e | e in events :: Announces(e)
    ensures var (s, log) := Run(Fresh<F, D>(false, true), events);
            var added, requests := AddedFns(events), Requests(events);
            && |batches| <= |requests| && Bounded(batches, |added|)
            && log == Spoken(added, batches)
            && (forall k | 0 <= k < |batches| :: batches[k].data == requests[k].data)
            && (forall k | 0 <= k < |batches| && (k + 1 < |batches| || !s.firing) ::
                  requests[k].known <= batches[k].upTo)
            && (forall j, k | 0 <= j < k < |batches| && (k + 1 < |batches| || !s.firing) ::
                  batches[j].upTo <= batches[k].upTo)
            && (!s.firing && batches != [] ==> batches[|batches| - 1].upTo == |added|)
            && (!s.firing && LockList !in events ==> |batches| == |requests|)
  {
    batches := RunInStep(events);
    hide Run, AddedFns, Requests, Spoken;
  }
}
