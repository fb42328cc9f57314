/** jQuery.Deferred: three callback lists wired so that the first settlement wins. */
module Deferred {
  import opened Options
  import opened Callbacks

  datatype Which = Done | Fail | Progress

  datatype Status = Pending | Resolved | Rejected

  /** The three callbacks the constructor puts on the done and fail lists (set the state, disable the other
      list, lock the progress list), and callbacks added by users. */
  datatype Fn<U> = SetState | DisableOther | LockProgress | User(u: U)

  /** `frames` are the lists whose callbacks are running, innermost last; `log` every call of a user callback. */
  datatype Deferred<U, A> = Deferred(done: State<Fn<U>, A>, fail: State<Fn<U>, A>, progress: State<Fn<U>, A>,
                                     status: Status, frames: seq<Which>, log: seq<(Which, U, A)>)
  {
    function Get(w: Which): State<Fn<U>, A> {
      match w
      case Done => done
      case Fail => fail
      case Progress => progress
    }

    function Set(w: Which, s: State<Fn<U>, A>): Deferred<U, A> {
      match w
      case Done => this.(done := s)
      case Fail => this.(fail := s)
      case Progress => this.(progress := s)
    }

    ghost predicate Sound() {
      && done.Valid() && done.once && done.remember
      && fail.Valid() && fail.once && fail.remember
      && progress.Valid() && !progress.once && progress.remember && OnlyUsers(progress)
    }

    /** The lists are sound, a list fires exactly while one of its callbacks runs, and only the done and fail
        lists hold built-in callbacks. */
    ghost predicate Valid() {
      && Sound()
      && (forall w: Which :: w in frames <==> Get(w).firing)
      && (forall i, j | 0 <= i < j < |frames| :: frames[i] != frames[j])
    }
  }

  predicate OnlyUsers<U, A>(s: State<Fn<U>, A>) {
    s.list.Some? ==> forall i | 0 <= i < |s.list.value| :: s.list.value[i].User?
  }

  function Other(w: Which): Which
    requires w != Progress
  {
    if w == Done then Fail else Done
  }

  function Users<U>(us: seq<U>): (r: seq<Fn<U>>)
    ensures |r| == |us|
  {
    seq(|us|, i requires 0 <= i < |us| => User(us[i]))
  }

  /** What a built-in callback of list w does. */
  function Effect<U, A>(d: Deferred<U, A>, w: Which, fn: Fn<U>): (r: Deferred<U, A>)
    requires d.Sound() && w != Progress
    ensures r.Sound() && r.Get(w) == d.Get(w)
  {
    match fn
    case SetState => d.(status := if w == Done then Resolved else Rejected)
    case DisableOther => d.Set(Other(w), Disable(d.Get(Other(w))))
    case LockProgress => d.(progress := Lock(d.progress))
    case User(_) => d
  }

  /** A list is about to call a callback: the built-in ones run at once, a user callback takes control. */
  function Dispatch<U, A>(d: Deferred<U, A>, w: Which, call: Call<Fn<U>, A>): (r: Deferred<U, A>)
    requires d.Sound()
    requires call.Some? ==> call == AboutToCall(d.Get(w))
    ensures r.Sound()
    decreases if call.Some? then d.Get(w).firingLength - d.Get(w).firingIndex else 0
  {
    if call.None? then d
    else if call.value.0.User? then
      d.(frames := d.frames + [w], log := d.log + [(w, call.value.0.u, call.value.1)])
    else
      var e := Effect(d, w, call.value.0);
      var (s, next) := Return(e.Get(w));
      assert next.Some? ==> s.firingIndex == d.Get(w).firingIndex + 1 && s.firingLength == d.Get(w).firingLength;
      Dispatch(e.Set(w, s), w, next)
  }

  /** jQuery.Deferred(), before func is called. */
  function New<U, A>(): (d: Deferred<U, A>)
    ensures d.Valid()
  {
    var list := Add(Fresh<Fn<U>, A>(true, true), [SetState, DisableOther, LockProgress]).0;
    Deferred(list, list, Fresh(false, true), Pending, [], [])
  }

  /** What the outside world, including running callbacks, can do to a deferred. `Returns` is the return of
      the innermost running callback. */
  datatype Action<U, A> = AddTo(w: Which, us: seq<U>) | Resolve(a: A) | Reject(a: A) | Notify(a: A) | Returns

  function FireList<U, A>(d: Deferred<U, A>, w: Which, a: A): (r: Deferred<U, A>)
    requires d.Sound()
    ensures r.Sound()
  {
    var (s, call) := FireWith(d.Get(w), a);
    Dispatch(d.Set(w, s), w, call)
  }

  function Apply<U, A>(d: Deferred<U, A>, e: Action<U, A>): (r: Deferred<U, A>)
    requires d.Sound()
    ensures r.Sound()
  {
    match e
    case AddTo(w, us) =>
      var (s, call) := Add(d.Get(w), Users(us));
      Dispatch(d.Set(w, s), w, call)
    case Resolve(a) => FireList(d, Done, a)
    case Reject(a) => FireList(d, Fail, a)
    case Notify(a) => FireList(d, Progress, a)
    case Returns =>
      if d.frames == [] || !d.Get(d.frames[|d.frames| - 1]).firing then d
      else
        var w := d.frames[|d.frames| - 1];
        var (s, call) := Return(d.Get(w));
        Dispatch(d.Set(w, s).(frames := d.frames[..|d.frames| - 1]), w, call)
  }

  function After<U, A>(actions: seq<Action<U, A>>): (d: Deferred<U, A>)
    ensures d.Sound()
  {
    if actions == [] then New()
    else Apply(After(actions[..|actions| - 1]), actions[|actions| - 1])
  }
}
