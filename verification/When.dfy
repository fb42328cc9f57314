/** jQuery.when: one master deferred over many subordinates. */
module When {
  import opened Options
  import opened Deferred
  import opened DeferredProof

  /** How a subordinate ends, which it does at most once (`WhenDeferreds` proves that of real deferreds). */
  datatype Outcome<V> = Success(v: V) | Failure(v: V)

  /** An argument of `when`: a plain value, or a deferred that may have settled already (`now`) or reported
      progress (`told`), in which cases attaching to it calls back at once. */
  datatype Arg<V> = Plain(v: V) | Subordinate(now: Option<Outcome<V>>, told: Option<V>)

  /** What the master settles or notifies with: the array of values (a slot is None while it still holds the
      subordinate itself, or nothing) or the arguments of one subordinate. */
  datatype Payload<V> = Many(parts: seq<Option<V>>) | One(v: V)

  predicate IsSuccess<V>(o: Option<Outcome<V>>) {
    o.Some? && o.value.Success?
  }

  predicate IsFailure<V>(o: Option<Outcome<V>>) {
    o.Some? && o.value.Failure?
  }

  /** The first argument, in argument order, that has rejected. */
  ghost function FirstFailure<V>(outcomes: seq<Option<Outcome<V>>>): (r: Option<nat>)
    ensures r.Some? ==> r.value < |outcomes| && IsFailure(outcomes[r.value])
    ensures forall k | 0 <= k < |outcomes| && IsFailure(outcomes[k]) :: r.Some? && r.value <= k
  {
    if outcomes == [] then None
    else
      var n := |outcomes| - 1;
      var before := FirstFailure(outcomes[..n]);
      if before.Some? then before else if IsFailure(outcomes[n]) then Some(n) else None
  }

  /** Arguments that have not resolved. */
  ghost function Open<V>(outcomes: seq<Option<Outcome<V>>>): (n: nat)
    ensures n <= |outcomes|
  {
    if outcomes == [] then 0
    else Open(outcomes[..|outcomes| - 1]) + if IsSuccess(outcomes[|outcomes| - 1]) then 0 else 1
  }

  lemma {:induction false} OpenUpdate<V>(outcomes: seq<Option<Outcome<V>>>, i: nat, o: Option<Outcome<V>>)
    requires i < |outcomes| && !IsSuccess(outcomes[i])
    ensures Open(outcomes[i := o]) == Open(outcomes) - if IsSuccess(o) then 1 else 0
    ensures Open(outcomes) > 0
  {
    var n := |outcomes| - 1;
    if i < n {
      OpenUpdate(outcomes[..n], i, o);
      assert outcomes[i := o][..n] == outcomes[..n][i := o];
    } else {
      assert outcomes[i := o][..n] == outcomes[..n];
    }
  }

  lemma {:induction false} OpenZero<V>(outcomes: seq<Option<Outcome<V>>>)
    ensures Open(outcomes) == 0 <==> forall i | 0 <= i < |outcomes| :: IsSuccess(outcomes[i])
  {
    if outcomes != [] {
      OpenZero(outcomes[..|outcomes| - 1]);
    }
  }

  lemma {:induction false} OpenAll<V>(outcomes: seq<Option<Outcome<V>>>)
    requires forall i | 0 <= i < |outcomes| :: outcomes[i].None?
    ensures Open(outcomes) == |outcomes|
  {
    if outcomes != [] {
      OpenAll(outcomes[..|outcomes| - 1]);
    }
  }

  /** The variables of the closure. `U` is the type of the callbacks users add to the master's promise. */
  class When<U, V> {
    var remaining: int
    var resolveValues: seq<Option<V>>
    var progressValues: seq<Option<V>>
    /** The operations performed on the master so far; the master is in state Master(). */
    var history: seq<Action<U, Payload<V>>>

    /** How each argument has ended, and which rejection arrived first. */
    ghost var outcomes: seq<Option<Outcome<V>>>
    ghost var failed: Option<nat>

    /** While attaching, all arguments may already be done without the master knowing. */
    ghost predicate Consistent()
      reads this
    {
      && |resolveValues| == |progressValues| == |outcomes|
      && remaining == Open(outcomes)
      && (forall i | 0 <= i < |outcomes| && IsSuccess(outcomes[i]) :: resolveValues[i] == Some(outcomes[i].value.v))
      && (failed.None? ==> forall i | 0 <= i < |outcomes| :: outcomes[i].None? || outcomes[i].value.Success?)
      && (failed.Some? ==>
            && failed.value < |outcomes| && outcomes[failed.value].Some? && outcomes[failed.value].value.Failure?
            && Settlement(history) == Some((Fail, One(outcomes[failed.value].value.v))))
      && (failed.None? && Settlement(history).Some? ==>
            remaining == 0 && Settlement(history) == Some((Done, Many(resolveValues))))
    }

    ghost function Master(): Deferred<U, Payload<V>>
      reads this
    {
      After(history)
    }

    ghost predicate Valid()
      reads this
    {
      Consistent() && (remaining == 0 ==> Settlement(history).Some?)
    }

    /** The whole call. With a single subordinate `when` just returns that subordinate's own promise, so
        that case never gets here. */
    constructor (args: seq<Arg<V>>)
      requires |args| == 1 ==> args[0].Plain?
      ensures Valid() && |outcomes| == |args| && failed == FirstFailure(outcomes)
      ensures forall i | 0 <= i < |args| :: outcomes[i] == Ended(args[i])
    {
      var none: seq<Option<Outcome<V>>> := seq(|args|, i => None);
      remaining := |args|;
      resolveValues := seq(|args|, i requires 0 <= i < |args| => if args[i].Plain? then Some(args[i].v) else None);
      progressValues := seq(|args|, i => None);
      history, failed := [], None;
      outcomes := none;
      new;
      OpenAll(outcomes);
      assert Settlement(history).None?;
      hide Settlement, Open;
      if |args| == 1 {
        OpenUpdate(outcomes, 0, Some(Success(args[0].v)));
        outcomes := [Some(Success(args[0].v))];
        remaining := 0;
      } else {
        AttachAll(args);
      }
      Finish();
    }

    /** How an argument has ended when `when` has attached to it. */
    static function Ended(arg: Arg<V>): Option<Outcome<V>> {
      if arg.Plain? then Some(Success(arg.v)) else arg.now
    }

    /** The attaching loop. */
    method AttachAll(args: seq<Arg<V>>)
      requires Consistent() && |outcomes| == |args| && forall k | 0 <= k < |args| :: outcomes[k].None?
      requires forall k | 0 <= k < |args| && args[k].Plain? :: resolveValues[k] == Some(args[k].v)
      requires failed.None?
      modifies this`remaining, this`resolveValues, this`progressValues, this`history, this`outcomes, this`failed
      ensures Consistent() && |outcomes| == |args| && failed == FirstFailure(outcomes)
      ensures forall k | 0 <= k < |args| :: outcomes[k] == Ended(args[k])
    {
      hide Settlement, Open, FirstFailure;
      for i := 0 to |args|
        invariant Consistent() && |outcomes| == |args| && (failed.Some? ==> failed.value < i)
        invariant forall k | 0 <= k < |args| && IsFailure(outcomes[k]) :: failed.Some? && failed.value <= k
        invariant forall k | 0 <= k < i :: outcomes[k] == Ended(args[k])
        invariant forall k | i <= k < |args| :: outcomes[k].None?
        invariant forall k | 0 <= k < |args| && args[k].Plain? :: resolveValues[k] == Some(args[k].v)
      {
        Attach(i, args[i]);
      }
    }

    /** If there is nothing to wait for, the master resolves. */
    method Finish()
      requires Consistent()
      modifies this`history
      ensures Valid()
    {
      hide Settlement, Open;
      if remaining == 0 {
        OpenZero(outcomes);
        Tell(Resolve(Many(resolveValues)));
      }
    }

    /** One round of the attaching loop. */
    method Attach(i: nat, arg: Arg<V>)
      requires Consistent() && i < |outcomes| && outcomes[i].None?
      requires arg.Plain? ==> resolveValues[i] == Some(arg.v)
      modifies this`remaining, this`resolveValues, this`progressValues, this`history, this`outcomes, this`failed
      ensures Consistent()
      ensures outcomes == old(outcomes)[i := Ended(arg)]
      ensures failed == if old(failed).None? && IsFailure(Ended(arg)) then Some(i) else old(failed)
      ensures forall k | 0 <= k < |outcomes| && k != i :: resolveValues[k] == old(resolveValues)[k]
      ensures arg.Plain? ==> resolveValues == old(resolveValues)
    {
      match arg {
        case Plain(v) =>
          remaining := remaining - 1;
          OpenUpdate(outcomes, i, Some(Success(v)));
          outcomes := outcomes[i := Some(Success(v))];
        case Subordinate(now, told) =>
          match now {
            case None => assert outcomes[i := None] == outcomes;
            case Some(Success(v)) => Succeeded(i, v);
            case Some(Failure(v)) => Failed(i, v);
          }
          if told.Some? {
            Progressed(i, told.value);
          }
      }
    }

    /** One operation on the master. */
    method Tell(e: Action<U, Payload<V>>)
      modifies this`history
      ensures history == old(history) + [e]
      ensures Settlement(old(history)).Some? ==> Settlement(history) == Settlement(old(history))
      ensures Settlement(old(history)).None? ==>
                Settlement(history) ==
                if e.Resolve? then Some((Done, e.a)) else if e.Reject? then Some((Fail, e.a)) else None
    {
      assert (history + [e])[..|history|] == history;
      history := history + [e];
    }

    /** A subordinate has resolved: updateFunc. */
    method Succeeded(i: nat, v: V)
      requires Consistent() && i < |outcomes| && outcomes[i].None?
      modifies this`remaining, this`resolveValues, this`history, this`outcomes
      ensures Valid()
      ensures outcomes == old(outcomes)[i := Some(Success(v))]
      ensures resolveValues == old(resolveValues)[i := Some(v)]
    {
      hide Settlement, Open;
      OpenUpdate(outcomes, i, Some(Success(v)));
      outcomes := outcomes[i := Some(Success(v))];
      OpenZero(outcomes);
      resolveValues := resolveValues[i := Some(v)];
      remaining := remaining - 1;
      if remaining == 0 {
        Tell(Resolve(Many(resolveValues)));
      }
    }

    /** A subordinate has rejected: the master's own reject is its callback. */
    method Failed(i: nat, v: V)
      requires Consistent() && i < |outcomes| && outcomes[i].None?
      modifies this`history, this`outcomes, this`failed
      ensures Valid()
      ensures outcomes == old(outcomes)[i := Some(Failure(v))]
      ensures failed == if old(failed).None? then Some(i) else old(failed)
    {
      OpenUpdate(outcomes, i, Some(Failure(v)));
      outcomes := outcomes[i := Some(Failure(v))];
      Tell(Reject(One(v)));
      if failed.None? {
        failed := Some(i);
      }
      OpenZero(outcomes);
    }

    /** A subordinate reports progress, perhaps while `when` is still attaching: its slot is filled and the
        master notified with all the slots. */
    method Progressed(i: nat, v: V)
      requires Consistent() && i < |outcomes|
      modifies this`progressValues, this`history
      ensures Consistent() && (old(Valid()) ==> Valid())
      ensures progressValues == old(progressValues)[i := Some(v)]
      ensures history == old(history) + [Notify(Many(progressValues))]
    {
      progressValues := progressValues[i := Some(v)];
      Tell(Notify(Many(progressValues)));
    }

    /** Users of the promise add callbacks, and those callbacks return. */
    method Used(e: Action<U, Payload<V>>)
      requires Valid() && (e.AddTo? || e.Returns?)
      modifies this`history
      ensures Valid()
    {
      Tell(e);
    }

    /** What every run of these steps keeps: the master is resolved exactly when every argument is, and then
        with all the values in argument order; it is rejected exactly when some argument was, with the first
        rejection to arrive; and once one argument has rejected the count never reaches zero. */
    lemma MasterFollows()
      requires Valid()
      ensures Master().status == Resolved <==> forall i | 0 <= i < |outcomes| :: IsSuccess(outcomes[i])
      ensures Master().status == Resolved ==>
                && Settlement(history) == Some((Done, Many(resolveValues)))
                && forall i | 0 <= i < |outcomes| :: resolveValues[i] == Some(outcomes[i].value.v)
      ensures Master().status == Rejected <==>
              exists i :: 0 <= i < |outcomes| && outcomes[i].Some? && outcomes[i].value.Failure?
      ensures Master().status == Rejected ==>
                && remaining > 0 && failed.Some? && failed.value < |outcomes|
                && outcomes[failed.value].Some? && outcomes[failed.value].value.Failure?
                && Settlement(history) == Some((Fail, One(outcomes[failed.value].value.v)))
    {
      hide After, Settlement, Open, Added, CallsOf;
      SettlesOnce(history);
      OpenZero(outcomes);
    }
  }
}
