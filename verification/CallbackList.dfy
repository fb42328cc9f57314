/** The closure of jQuery.Callbacks as an object, each method proved against its function on State. */
module CallbackList {
  import opened Options
  import opened Callbacks

  class CallbackList<F(==), D> {
    const once: bool
    const remember: bool
    var list: Option<seq<F>>
    var stack: Option<seq<D>>
    var memory: Option<D>
    var fired: bool
    var firing: bool
    var firingStart: nat
    var firingIndex: int
    var firingLength: int
    var data: Option<D>

    ghost function Now(): State<F, D>
      reads this
    {
      State(once, remember, list, stack, memory, fired, firing, firingStart, firingIndex, firingLength, data)
    }

    constructor (once: bool, remember: bool)
      ensures Now() == Fresh(once, remember) && Now().Valid()
    {
      this.once, this.remember := once, remember;
      list, stack, memory, data := Some([]), if once then None else Some([]), None, None;
      fired, firing, firingStart, firingIndex, firingLength := false, false, 0, 0, 0;
    }

    /** fire, up to the first callback it calls. */
    method Fire(d: D) returns (call: Call<F, D>)
      requires Now().(firingStart := 0, stack := if stack.None? then None else Some([])).Valid() && !firing
        && list.Some?
      modifies this
      ensures (Now(), call) == Begin(old(Now()), d)
      decreases if stack.Some? then |stack.value| else 0, 1
    {
      memory := if remember then Some(d) else None;
      fired := true;
      firingIndex := firingStart;
      firingStart := 0;
      firingLength := |list.value|;
      firing := true;
      data := Some(d);
      call := LoopHead();
    }

    /** The loop condition of fire and, once it fails, what follows the loop. */
    method LoopHead() returns (call: Call<F, D>)
      requires Now().Valid() && firing && 0 <= firingIndex
      modifies this
      ensures (Now(), call) == Turn(old(Now()))
      decreases if stack.Some? then |stack.value| else 0, 0
    {
      if list.Some? && firingIndex < firingLength {
        return Some((list.value[firingIndex], data.value));
      }
      firing := false;
      call := None;
      if list.Some? {
        if stack.Some? {
          if stack.value != [] {
            var next := stack.value[0];
            stack := Some(stack.value[1..]);
            call := Fire(next);
          }
        } else if memory.Some? {
          list := Some([]);
        } else {
          DisableList();
        }
      }
    }

    /** The running callback returns to the loop. */
    method Returned() returns (call: Call<F, D>)
      requires Now().Valid() && firing
      modifies this
      ensures (Now(), call) == Return(old(Now()))
    {
      firingIndex := firingIndex + 1;
      call := LoopHead();
    }

    method AddFns(fns: seq<F>) returns (call: Call<F, D>)
      requires Now().Valid()
      modifies this
      ensures (Now(), call) == Add(old(Now()), fns)
    {
      call := None;
      if list.Some? {
        var start := |list.value|;
        for i := 0 to |fns|
          invariant list.Some? && list.value == old(list.value) + fns[..i]
          invariant Now() == old(Now()).(list := list)
        {
          list := Some(list.value + [fns[i]]);
          assert fns[..i + 1] == fns[..i] + [fns[i]];
        }
        assert fns[..|fns|] == fns;
        if firing {
          firingLength := |list.value|;
        } else if memory.Some? {
          firingStart := start;
          call := Fire(memory.value);
        }
      }
    }

    /** jQuery.inArray */
    static method IndexOf(list: seq<F>, f: F, from: nat) returns (index: int)
      requires from <= |list|
      ensures index == -1 || (from <= index < |list| && list[index] == f)
      ensures forall k | from <= k < if index < 0 then |list| else index :: list[k] != f
    {
      for k := from to |list|
        invariant forall j | from <= j < k :: list[j] != f
      {
        if list[k] == f {
          return k;
        }
      }
      index := -1;
    }

    static lemma {:induction false} WithoutKeeps(list: seq<F>, f: F)
      requires forall k | 0 <= k < |list| :: list[k] != f
      ensures Without(list, f) == list
    {
      if list != [] {
        WithoutKeeps(list[..|list| - 1], f);
      }
    }

    /** Removing f at position p of the original list, the first p entries of which have been dealt with. */
    static lemma OneOut(all: seq<F>, f: F, p: nat, q: nat)
      requires p <= q < |all| && all[q] == f && forall k | p <= k < q :: all[k] != f
      ensures Without(all[..q], f) == Without(all[..p], f) + all[p..q]
      ensures Without(all[..q + 1], f) == Without(all[..q], f)
      ensures Taken(all[..q + 1], f) == Taken(all[..p], f) + 1
    {
      assert all[..q] == all[..p] + all[p..q];
      WithoutSplit(all[..p], all[p..q], f);
      WithoutKeeps(all[p..q], f);
      assert all[..q + 1][..q] == all[..q];
    }

    static lemma TakenMonotone(all: seq<F>, f: F, p: nat, q: nat)
      requires p <= q <= |all|
      ensures |Without(all[..p], f)| <= |Without(all[..q], f)|
    {
      assert all[..q] == all[..p] + all[p..q];
      WithoutSplit(all[..p], all[p..q], f);
    }

    /** The state when the first p entries have been searched for f and the rest have not. */
    static ghost function Partly(s: State<F, D>, f: F, p: nat): State<F, D>
      requires s.Valid() && s.list.Some? && p <= |s.list.value|
    {
      var all := s.list.value;
      var t := s.(list := Some(Without(all[..p], f) + all[p..]));
      if s.firing then
        var done := |Done(s)|;
        t.(firingLength := s.firingLength - Taken(all[..p], f),
           firingIndex := s.firingIndex - Taken(all[..if p < done then p else done], f))
      else t
    }

    static lemma Splice(w: seq<F>, all: seq<F>, p: nat, q: nat)
      requires p <= q < |all|
      ensures var list, index := w + all[p..], |w| + q - p;
              w + all[p..q] + all[q + 1..] == list[..index] + list[index + 1..]
    {
    }

    /** One splice takes care of everything up to the next occurrence of f. */
    static lemma CutList(s: State<F, D>, f: F, p: nat, q: nat)
      requires s.Valid() && s.list.Some? && p <= q < |s.list.value| && s.list.value[q] == f
      requires forall k | p <= k < q :: s.list.value[k] != f
      ensures var list, index := Partly(s, f, p).list.value, |Without(s.list.value[..p], f)| + q - p;
              && index < |list|
              && Partly(s, f, q + 1).list.value == list[..index] + list[index + 1..]
    {
      var w := Without(s.list.value[..p], f);
      OneOut(s.list.value, f, p, q);
      Splice(w, s.list.value, p, q);
      assert Partly(s, f, p).list.value == w + s.list.value[p..];
      assert Partly(s, f, q + 1).list.value == w + s.list.value[p..q] + s.list.value[q + 1..];
    }

    /** And the index adjustments that go with the splice keep the loop of fire where it was. */
    static lemma CutIndexes(s: State<F, D>, f: F, p: nat, q: nat)
      requires s.Valid() && s.list.Some? && p <= q < |s.list.value| && s.list.value[q] == f && s.firing
      requires forall k | p <= k < q :: s.list.value[k] != f
      ensures var t, index := Partly(s, f, p), |Without(s.list.value[..p], f)| + q - p;
              var u := Partly(s, f, q + 1);
              && index <= t.firingLength && u.firingLength == t.firingLength - 1
              && u.firingIndex == if index <= t.firingIndex then t.firingIndex - 1 else t.firingIndex
    {
      var all, done := s.list.value, |Done(s)|;
      OneOut(all, f, p, q);
      if q >= done {
        TakenMonotone(all, f, done, q);
        if p < done {
          NothingTaken(all, f, p, done);
        }
      }
    }

    static lemma NothingTaken(all: seq<F>, f: F, p: nat, q: nat)
      requires p <= q <= |all| && forall k | p <= k < q :: all[k] != f
      ensures Without(all[..q], f) == Without(all[..p], f) + all[p..q]
    {
      assert all[..q] == all[..p] + all[p..q];
      WithoutSplit(all[..p], all[p..q], f);
      WithoutKeeps(all[p..q], f);
    }

    static lemma PartlyNone(s: State<F, D>, f: F)
      requires s.Valid() && s.list.Some?
      ensures Partly(s, f, 0) == s
    {
      assert Partly(s, f, 0).list.value == s.list.value;
    }

    static lemma AllCut(s: State<F, D>, f: F, p: nat)
      requires s.Valid() && s.list.Some? && p <= |s.list.value|
      requires forall k | p <= k < |s.list.value| :: s.list.value[k] != f
      ensures Partly(s, f, p) == Remove(s, f)
    {
      var all := s.list.value;
      assert all[..|all|] == all;
      NothingTaken(all, f, p, |all|);
      if s.firing && p < |Done(s)| {
        NothingTaken(all, f, p, |Done(s)|);
      }
    }

    /** The search that drives the removal: from where the last splice happened to the next occurrence. */
    method FindNext(f: F, index: nat, ghost s: State<F, D>, ghost p: nat) returns (found: int, ghost q: int)
      requires list.Some? && s.Valid() && s.list.Some? && p <= |s.list.value|
      requires list == Partly(s, f, p).list && index == |Without(s.list.value[..p], f)|
      ensures found >= -1
      ensures found == -1 ==> forall k | p <= k < |s.list.value| :: s.list.value[k] != f
      ensures found > -1 ==> p <= q < |s.list.value| && s.list.value[q] == f && found == index + q - p
                             && forall k | p <= k < q :: s.list.value[k] != f
    {
      ghost var w, rest := Without(s.list.value[..p], f), s.list.value[p..];
      assert list.value == w + rest;
      found := IndexOf(list.value, f, index);
      assert forall k | 0 <= k < |rest| :: rest[k] == list.value[index + k] && rest[k] == s.list.value[p + k];
      q := p + found - index;
      forall k | p <= k < if found == -1 then |s.list.value| else q
        ensures s.list.value[k] != f
      {
        assert rest[k - p] == list.value[index + (k - p)];
      }
    }

    /** Where the removal loop stands: p entries dealt with, the next occurrence at q of the original list. */
    static ghost predicate At(s: State<F, D>, f: F, p: nat, q: int, index: int) {
      && s.Valid() && s.list.Some? && p <= |s.list.value| && -1 <= index
      && (index == -1 ==> forall k | p <= k < |s.list.value| :: s.list.value[k] != f)
      && (index > -1 ==>
            && p <= q < |s.list.value| && s.list.value[q] == f
            && index == |Without(s.list.value[..p], f)| + q - p)
      && (index > -1 ==> forall k | p <= k < q :: s.list.value[k] != f)
    }

    static lemma Round(s: State<F, D>, f: F, p: nat, q: nat, index: nat, u: State<F, D>)
      requires At(s, f, p, q, index)
      requires var t := Partly(s, f, p);
               && u == t.(list := u.list, firingLength := u.firingLength, firingIndex := u.firingIndex)
               && u.list.Some? && index < |t.list.value|
               && u.list.value == t.list.value[..index] + t.list.value[index + 1..]
               && u.firingLength == t.firingLength - (if t.firing && index <= t.firingLength then 1 else 0)
               && u.firingIndex == t.firingIndex - (if t.firing && index <= t.firingIndex then 1 else 0)
      ensures u == Partly(s, f, q + 1) && index == |Without(s.list.value[..q + 1], f)|
    {
      CutList(s, f, p, q);
      if s.firing {
        CutIndexes(s, f, p, q);
      }
      OneOut(s.list.value, f, p, q);
    }

    /** One round of the removal loop. */
    method Cut(index: nat, ghost s: State<F, D>, f: F, ghost p: nat, ghost q: nat)
      requires At(s, f, p, q, index) && Now() == Partly(s, f, p)
      modifies this`list, this`firingLength, this`firingIndex
      ensures Now() == Partly(s, f, q + 1) && index == |Without(s.list.value[..q + 1], f)|
    {
      CutList(s, f, p, q);
      list := Some(list.value[..index] + list.value[index + 1..]);
      if firing {
        if index <= firingLength {
          firingLength := firingLength - 1;
        }
        if index <= firingIndex {
          firingIndex := firingIndex - 1;
        }
      }
      Round(s, f, p, q, index, Now());
    }

    method CutAll(f: F, start: int, ghost s: State<F, D>, ghost start': int)
      requires At(s, f, 0, start', start) && Now() == Partly(s, f, 0)
      modifies this`list, this`firingLength, this`firingIndex
      ensures Now() == Remove(s, f)
    {
      var index := start;
      ghost var p, q := 0, start';
      while index > -1
        invariant At(s, f, p, q, index)
        invariant Now() == Partly(s, f, p)
        decreases |s.list.value| - p
      {
        Cut(index, s, f, p, q);
        p := q + 1;
        index, q := FindNext(f, index, s, p);
      }
      AllCut(s, f, p);
    }

    method RemoveFn(f: F)
      requires Now().Valid()
      modifies this
      ensures Now() == Remove(old(Now()), f)
    {
      if list.Some? {
        ghost var before := Now();
        PartlyNone(before, f);
        var index;
        ghost var q;
        index, q := FindNext(f, 0, before, 0);
        CutAll(f, index, before, q);
      }
    }

    method EmptyList()
      modifies this
      ensures Now() == Empty(old(Now()))
    {
      list := Some([]);
      firingLength := 0;
    }

    method DisableList()
      modifies this
      ensures Now() == Disable(old(Now()))
    {
      list, stack, memory := None, None, None;
    }

    method LockList()
      modifies this
      ensures Now() == Lock(old(Now()))
    {
      stack := None;
      if memory.None? {
        DisableList();
      }
    }

    method FireWithData(d: D) returns (call: Call<F, D>)
      requires Now().Valid()
      modifies this
      ensures (Now(), call) == FireWith(old(Now()), d)
    {
      call := None;
      if list.Some? && (!fired || stack.Some?) {
        if firing {
          stack := Some(stack.value + [d]);
        } else {
          call := Fire(d);
        }
      }
    }
  }
}
