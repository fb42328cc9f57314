/** The two receive queues between the receiving thread and the main loop, without locks: every interleaving of their
    single reads and writes. */
module QueueClient {
  import opened RevQueue

  /** sizeof(PKG_Format): head and command of three bytes each, two length bytes and the body. */
  const SIZE: nat := 3 + 3 + 2 + 4096

  type Package = p: seq<char> | |p| == SIZE witness seq(SIZE, _ => '\0')

  datatype Which = Cmd | Respond

  /** A queue, everything routed to it and everything the main loop has taken from it. */
  datatype Lane = Lane(base: seq<Package>, front: nat, rear: nat, routed: seq<Package>, dequeued: seq<Package>) {
    predicate Shaped() {
      |base| == MAXQSIZE && front < MAXQSIZE && rear < MAXQSIZE
    }

    predicate Full() {
      RevQueue.Next(rear) == front
    }
  }

  /** Where the receiving thread is: its own two tests, waiting for a package, the test inside EnQueue, copying the
      package byte by byte and then moving the rear. */
  datatype Producer = CheckCmd | CheckRespond | Receiving | CheckAgain(to: Which) | Filling(to: Which, done: nat)

  /** Where the main loop is: the emptiness tests, copying a package out and then moving the front. */
  datatype Consumer = PollCmd | Fetching(from: Which, done: nat) | Dealing | Waiting | PollRespond

  datatype State = State(cmd: Lane, respond: Lane, package: Package, buffer: Package, p: Producer, c: Consumer,
                         lost: bool) {
    function At(w: Which): Lane {
      if w == Cmd then cmd else respond
    }

    function With(w: Which, l: Lane): State {
      if w == Cmd then this.(cmd := l) else this.(respond := l)
    }

    predicate Shaped() {
      cmd.Shaped() && respond.Shaped()
    }
  }

  /** What recv_serpkg_struct brings: a package, a malformed one, or a broken connection, on which both queues are
      cleared. */
  datatype Input = Good(package: Package) | Bad | Broken

  datatype Event = Produce(input: Input) | Consume(choice: bool)

  /** Commands and responses are told apart by the first command letter. */
  function Route(package: Package): Which {
    if package[3] != 'f' then Cmd else Respond
  }

  /** ClearQueue. The packages still queued are given up. */
  function Cleared(l: Lane): Lane {
    l.(front := 0, rear := 0, routed := l.dequeued)
  }

  /** One step of pthr_rev. */
  function ProduceStep(s: State, input: Input): (r: State)
    requires s.Shaped()
    ensures r.Shaped()
  {
    match s.p
    case CheckCmd => if s.cmd.Full() then s else s.(p := CheckRespond)
    case CheckRespond => s.(p := if s.respond.Full() then CheckCmd else Receiving)
    case Receiving =>
      (match input
       case Good(package) =>
         var to := Route(package);
         s.With(to, s.At(to).(routed := s.At(to).routed + [package])).(package := package, p := CheckAgain(to))
       case Bad => s.(p := CheckCmd)
       case Broken => s.(cmd := Cleared(s.cmd), respond := Cleared(s.respond)))
    case CheckAgain(to) =>
      if s.At(to).Full() then s.(lost := true, p := CheckCmd) else s.(p := Filling(to, 0))
    case Filling(to, done) =>
      var l := s.At(to);
      if done < SIZE then
        s.With(to, l.(base := l.base[l.rear := l.base[l.rear][done := s.package[done]]])).(p := Filling(to, done + 1))
      else s.With(to, l.(rear := RevQueue.Next(l.rear))).(p := CheckCmd)
  }

  /** One step of the main loop. The choice is the outcome of deal_cmd, or that the wait for a response timed out. */
  function ConsumeStep(s: State, choice: bool): (r: State)
    requires s.Shaped()
    ensures r.Shaped()
  {
    match s.c
    case PollCmd => if s.cmd.front == s.cmd.rear then s else s.(c := Fetching(Cmd, 0))
    case Dealing => s.(c := if choice then Waiting else PollCmd)
    case Waiting => if s.respond.front == s.respond.rear && !choice then s else s.(c := PollRespond)
    case PollRespond => s.(c := if s.respond.front == s.respond.rear then PollCmd else Fetching(Respond, 0))
    case Fetching(from, done) =>
      var l := s.At(from);
      if done < SIZE then s.(buffer := s.buffer[done := l.base[l.front][done]], c := Fetching(from, done + 1))
      else s.With(from, l.(front := RevQueue.Next(l.front), dequeued := l.dequeued + [s.buffer]))
            .(c := if from == Cmd then Dealing else PollCmd)
  }

  function Step(s: State, e: Event): (r: State)
    requires s.Shaped()
    ensures r.Shaped()
  {
    match e
    case Produce(input) => ProduceStep(s, input)
    case Consume(choice) => ConsumeStep(s, choice)
  }

  function Run(s: State, es: seq<Event>): (r: State)
    requires s.Shaped()
    ensures r.Shaped()
    decreases |es|
  {
    if es == [] then s else Run(Step(s, es[0]), es[1..])
  }

  /** After InitQueue, before either loop has done anything. The slots hold whatever malloc returned. */
  ghost predicate Initial(s: State) {
    && s.Shaped() && s.cmd.front == s.cmd.rear == 0 && s.respond.front == s.respond.rear == 0
    && s.cmd.routed == s.cmd.dequeued == [] && s.respond.routed == s.respond.dequeued == []
    && s.p == CheckCmd && s.c == PollCmd && !s.lost
  }

  /** The queues are cleared only while the main loop is not inside DeQueue. */
  predicate Quiet(s: State, e: Event) {
    e == Produce(Broken) && s.p == Receiving ==> !s.c.Fetching?
  }

  predicate Calm(s: State, es: seq<Event>)
    requires s.Shaped()
    decreases |es|
  {
    es != [] ==> Quiet(s, es[0]) && Calm(Step(s, es[0]), es[1..])
  }

  // ---- the invariant ----

  /** The package on its way into the queue. */
  function Pending(s: State, w: Which): seq<Package> {
    if (s.p.CheckAgain? || s.p.Filling?) && s.p.to == w then [s.package] else []
  }

  /** Everything routed here has been taken out, is queued, or is on its way in; then there is room for it. */
  ghost predicate Ledger(l: Lane, pending: seq<Package>) {
    && l.Shaped()
    && l.routed == l.dequeued + Contents(l.base, l.front, l.rear) + pending
    && (pending != [] ==> !l.Full())
  }

  /** The part of the rear slot that has been written. */
  ghost predicate Filled(l: Lane, package: Package, done: nat) {
    l.Shaped() && done <= SIZE && l.base[l.rear][..done] == package[..done]
  }

  /** The part of the front slot that has been read. */
  ghost predicate Fetched(l: Lane, buffer: Package, done: nat) {
    l.Shaped() && l.front != l.rear && done <= SIZE && buffer[..done] == l.base[l.front][..done]
  }

  ghost predicate LaneOk(s: State, w: Which) {
    && Ledger(s.At(w), Pending(s, w))
    && (s.p.Filling? && s.p.to == w ==> Filled(s.At(w), s.package, s.p.done))
    && (s.c.Fetching? && s.c.from == w ==> Fetched(s.At(w), s.buffer, s.c.done))
  }

  ghost predicate Inv(s: State) {
    && LaneOk(s, Cmd) && LaneOk(s, Respond) && !s.lost
    && (s.p == CheckRespond || s.p == Receiving ==> !s.cmd.Full())
    && (s.p == Receiving ==> !s.respond.Full())
  }

  lemma OneMore<T>(to: seq<T>, from: seq<T>, i: nat)
    requires |to| == |from| && i < |from| && to[..i] == from[..i]
    ensures to[i := from[i]][..i + 1] == from[..i + 1]
  {
  }

  lemma Whole<T>(a: seq<T>, b: seq<T>)
    requires |a| == |b| && a[..|b|] == b[..|b|]
    ensures a == b
  {
    assert a == a[..|b|] && b == b[..|b|];
  }

  lemma Regrouped<T>(a: seq<T>, x: T, b: seq<T>, c: seq<T>)
    ensures a + ([x] + b) + c == (a + [x]) + b + c
  {
  }

  /** The consumer has read the whole slot and moves the front: the oldest package leaves. */
  lemma Taken(l: Lane, buffer: Package, pending: seq<Package>)
    requires Ledger(l, pending) && Fetched(l, buffer, SIZE)
    ensures Ledger(l.(front := RevQueue.Next(l.front), dequeued := l.dequeued + [buffer]), pending)
  {
    hide Contents;
    Whole(buffer, l.base[l.front]);
    Removed(l.base, l.front, l.rear);
    Regrouped(l.dequeued, buffer, Contents(l.base, RevQueue.Next(l.front), l.rear), pending);
  }

  /** The producer writes one byte of the free slot. */
  lemma Written(l: Lane, package: Package, done: nat)
    requires Ledger(l, [package]) && Filled(l, package, done) && done < SIZE
    ensures var m := l.(base := l.base[l.rear := l.base[l.rear][done := package[done]]]);
      Ledger(m, [package]) && Filled(m, package, done + 1)
  {
    OneMore(l.base[l.rear], package, done);
    RearIsFree(l.base, l.front, l.rear, l.base[l.rear][done := package[done]]);
  }

  /** The producer moves the rear: the package is queued. */
  lemma Published(l: Lane, package: Package)
    requires Ledger(l, [package]) && Filled(l, package, SIZE)
    ensures Ledger(l.(rear := RevQueue.Next(l.rear)), [])
  {
    Whole(l.base[l.rear], package);
    Appended(l.base, l.front, l.rear, package);
    assert l.base[l.rear := package] == l.base;
    var queued := Contents(l.base, l.front, l.rear);
    assert l.dequeued + queued + [package] == l.dequeued + (queued + [package]) + [];
  }

  /** A step of the main loop on one queue. */
  lemma ConsumeLane(s: State, choice: bool, w: Which)
    requires Inv(s)
    ensures LaneOk(ConsumeStep(s, choice), w)
  {
    var l, pending := s.At(w), Pending(s, w);
    hide Ledger, SIZE;
    if s.c.Fetching? && s.c.from == w {
      assert l.Shaped();
      if s.c.done < SIZE {
        OneMore(s.buffer, l.base[l.front], s.c.done);
      } else {
        Taken(l, s.buffer, pending);
      }
    }
  }

  /** Moving the front only makes room. */
  lemma FrontMoves(l: Lane, buffer: Package, done: nat)
    requires Fetched(l, buffer, done)
    ensures !l.(front := RevQueue.Next(l.front), dequeued := l.dequeued + [buffer]).Full()
  {
  }

  lemma ConsumeKeeps(s: State, choice: bool)
    requires Inv(s)
    ensures Inv(ConsumeStep(s, choice))
  {
    ConsumeLane(s, choice, Cmd);
    ConsumeLane(s, choice, Respond);
    if s.c.Fetching? {
      FrontMoves(s.At(s.c.from), s.buffer, s.c.done);
    }
    hide Ledger, Filled, Fetched, LaneOk, RevQueue.Next;
  }

  /** A step of the receiving thread on one queue. */
  lemma ProduceLane(s: State, input: Input, w: Which)
    requires Inv(s) && Quiet(s, Produce(input))
    ensures LaneOk(ProduceStep(s, input), w)
  {
    var l, pending := s.At(w), Pending(s, w);
    hide Ledger, SIZE;
    if s.p.Filling? && s.p.to == w {
      RearApart(l, s.package);
      if s.p.done < SIZE {
        Written(l, s.package, s.p.done);
      } else {
        Published(l, s.package);
      }
    } else if s.p.CheckAgain? && s.p.to == w {
      RearApart(l, s.package);
    } else if s.p.Receiving? && input.Good? && Route(input.package) == w {
      Routed(l, input.package);
    } else if s.p.Receiving? && input.Broken? {
      Forgotten(l);
    }
  }

  /** The slot being written is not the front of a queue that holds something, nor is the next one. */
  lemma RearApart(l: Lane, package: Package)
    requires Ledger(l, [package])
    ensures l.Shaped() && RevQueue.Next(l.rear) != l.front
  {
  }

  lemma Routed(l: Lane, package: Package)
    requires Ledger(l, []) && !l.Full()
    ensures Ledger(l.(routed := l.routed + [package]), [package])
  {
  }

  lemma Forgotten(l: Lane)
    requires Ledger(l, [])
    ensures Ledger(Cleared(l), [])
  {
  }

  lemma ProduceKeeps(s: State, input: Input)
    requires Inv(s) && Quiet(s, Produce(input))
    ensures Inv(ProduceStep(s, input))
  {
    ProduceLane(s, input, Cmd);
    ProduceLane(s, input, Respond);
    if s.p.CheckAgain? {
      RearApart(s.At(s.p.to), s.package);
    }
    hide LaneOk, Ledger, Filled, Fetched;
  }

  lemma StepKeeps(s: State, e: Event)
    requires Inv(s) && Quiet(s, e)
    ensures Inv(Step(s, e))
  {
    match e
    case Produce(input) => ProduceKeeps(s, input);
    case Consume(choice) => ConsumeKeeps(s, choice);
  }

  lemma InitiallyOk(s: State)
    requires Initial(s)
    ensures Inv(s)
  {
  }

  lemma {:induction false} RunKeeps(s: State, es: seq<Event>)
    requires Inv(s) && Calm(s, es)
    ensures Inv(Run(s, es))
    decreases |es|
  {
    if es != [] {
      StepKeeps(s, es[0]);
      RunKeeps(Step(s, es[0]), es[1..]);
    }
  }

  /** What the invariant says to a reader of the queues. */
  lemma FirstInFirstOut(s: State, w: Which)
    requires Inv(s)
    ensures s.At(w).dequeued <= s.At(w).routed
    ensures |Contents(s.At(w).base, s.At(w).front, s.At(w).rear)| <= 8
    ensures |s.At(w).routed| - |s.At(w).dequeued| <= 8
    ensures s.p.Filling? && s.c.Fetching? && s.p.to == s.c.from == w ==> s.At(w).rear != s.At(w).front
  {
    var l := s.At(w);
    assert LaneOk(s, w);
    FullAndEmpty(l.front, l.rear);
  }

  /** Over every interleaving, as long as the queues are not cleared under a running DeQueue: the main loop takes from
      each queue a prefix of what was routed to it, at most eight packages wait, and EnQueue never drops one. */
  lemma EveryRun(s: State, es: seq<Event>)
    requires Initial(s) && Calm(s, es)
    ensures var r := Run(s, es);
      && !r.lost && r.cmd.dequeued <= r.cmd.routed && r.respond.dequeued <= r.respond.routed
      && |r.cmd.routed| - |r.cmd.dequeued| <= 8 && |r.respond.routed| - |r.respond.dequeued| <= 8
  {
    InitiallyOk(s);
    RunKeeps(s, es);
    FirstInFirstOut(Run(s, es), Cmd);
    FirstInFirstOut(Run(s, es), Respond);
  }

  // ---- what a run routes, and what it takes ----

  /** The packages that arrive while the receiving thread waits for one. */
  function Received(s: State, es: seq<Event>): seq<Package>
    requires s.Shaped()
    decreases |es|
  {
    if es == [] then []
    else
      (if es[0].Produce? && es[0].input.Good? && s.p == Receiving then [es[0].input.package] else [])
      + Received(Step(s, es[0]), es[1..])
  }

  /** The responses among some packages, or the others, in order: a response's command starts with an f. */
  function Among(g: seq<Package>, responses: bool): seq<Package> {
    if g == [] then []
    else (if (g[0][3] == 'f') == responses then [g[0]] else []) + Among(g[1..], responses)
  }

  lemma RoutedStep(s: State, e: Event)
    requires s.Shaped() && e != Produce(Broken)
    ensures var t := Step(s, e);
            var g := if e.Produce? && e.input.Good? && s.p == Receiving then [e.input.package] else [];
            && t.cmd.routed == s.cmd.routed + Among(g, false) && t.respond.routed == s.respond.routed + Among(g, true)
  {
    if e.Produce? && e.input.Good? && s.p == Receiving {
      OneAmong(e.input.package);
    } else {
      RoutedStays(s, e);
      NoneAmong();
      hide Step;
      assert s.cmd.routed + [] == s.cmd.routed && s.respond.routed + [] == s.respond.routed;
    }
  }

  lemma RoutedStays(s: State, e: Event)
    requires s.Shaped() && e != Produce(Broken) && !(e.Produce? && e.input.Good? && s.p == Receiving)
    ensures Step(s, e).cmd.routed == s.cmd.routed && Step(s, e).respond.routed == s.respond.routed
  {
    hide SIZE, RevQueue.Next;
  }

  lemma OneAmong(x: Package)
    ensures Among([x], false) == if x[3] == 'f' then [] else [x]
    ensures Among([x], true) == if x[3] == 'f' then [x] else []
    ensures forall l: seq<Package> :: l + [] == l
  {
    assert [x][1..] == [];
    assert [x] + [] == [x];
  }

  lemma {:induction false} AmongJoins(a: seq<Package>, b: seq<Package>, responses: bool)
    ensures Among(a + b, responses) == Among(a, responses) + Among(b, responses)
    decreases |a|
  {
    if a == [] {
      assert a + b == b;
    } else {
      assert (a + b)[1..] == a[1..] + b;
      AmongJoins(a[1..], b, responses);
    }
  }

  /** From any state, without a broken connection: every package that arrives is routed, the commands to the one
      queue and the responses to the other, in the order of arrival. */
  lemma {:induction false} RoutedInOrder(s: State, es: seq<Event>)
    requires s.Shaped() && Produce(Broken) !in es
    ensures var r := Run(s, es);
            && r.cmd.routed == s.cmd.routed + Among(Received(s, es), false)
            && r.respond.routed == s.respond.routed + Among(Received(s, es), true)
    decreases |es|
  {
    hide Step, Among;
    if es == [] {
      NoneAmong();
      assert s.cmd.routed + [] == s.cmd.routed && s.respond.routed + [] == s.respond.routed;
    } else {
      assert es[0] in es;
      var t, rest := Step(s, es[0]), es[1..];
      RoutedStep(s, es[0]);
      RoutedInOrder(t, rest);
      var g := if es[0].Produce? && es[0].input.Good? && s.p == Receiving then [es[0].input.package] else [];
      AmongJoins(g, Received(t, rest), false);
      AmongJoins(g, Received(t, rest), true);
    }
  }

  lemma NoneAmong()
    ensures Among([], false) == [] && Among([], true) == []
  {
  }

  /** So the main loop takes as commands a prefix of the packages that are no responses, in the order of arrival, and
      as responses a prefix of the others; of either at most eight are still to come. */
  lemma TakenInOrder(s: State, es: seq<Event>)
    requires Initial(s) && Produce(Broken) !in es
    ensures var r, g := Run(s, es), Received(s, es);
            && r.cmd.dequeued <= Among(g, false) && r.respond.dequeued <= Among(g, true)
            && |Among(g, false)| - |r.cmd.dequeued| <= 8 && |Among(g, true)| - |r.respond.dequeued| <= 8
  {
    NothingBroken(s, es);
    EveryRun(s, es);
    RoutedInOrder(s, es);
    hide Run, Received, Among;
    assert [] + Among(Received(s, es), false) == Among(Received(s, es), false);
    assert [] + Among(Received(s, es), true) == Among(Received(s, es), true);
  }

  /** Only packages of its kind are in a lane. */
  ghost predicate Sorted(s: State) {
    && (forall x | x in s.cmd.routed :: x[3] != 'f') && (forall x | x in s.respond.routed :: x[3] == 'f')
  }

  lemma StepSorts(s: State, e: Event)
    requires Inv(s) && Sorted(s)
    ensures Sorted(Step(s, e))
  {
    if e == Produce(Broken) && s.p == Receiving {
      FirstInFirstOut(s, Cmd);
      FirstInFirstOut(s, Respond);
      assert forall x | x in s.cmd.dequeued :: x in s.cmd.routed;
      assert forall x | x in s.respond.dequeued :: x in s.respond.routed;
    } else if e != Produce(Broken) {
      RoutedStep(s, e);
      hide SIZE, RevQueue.Next;
    }
  }

  lemma {:induction false} RunSorts(s: State, es: seq<Event>)
    requires s.Shaped() && Inv(s) && Sorted(s) && Calm(s, es)
    ensures Inv(Run(s, es)) && Sorted(Run(s, es))
    decreases |es|
  {
    hide Step, Inv, Sorted, Quiet;
    if es != [] {
      StepKeeps(s, es[0]);
      StepSorts(s, es[0]);
      RunSorts(Step(s, es[0]), es[1..]);
    }
  }

  /** Even when the connection breaks: no response is ever taken as a command, and no command as a response. */
  lemma NeverMixed(s: State, es: seq<Event>)
    requires Initial(s) && Calm(s, es)
    ensures forall x | x in Run(s, es).cmd.dequeued :: x[3] != 'f'
    ensures forall x | x in Run(s, es).respond.dequeued :: x[3] == 'f'
  {
    InitiallyOk(s);
    RunSorts(s, es);
    FirstInFirstOut(Run(s, es), Cmd);
    FirstInFirstOut(Run(s, es), Respond);
  }

  /** How often deal_cmd has ended, and how often with success. */
  function Dealt(s: State, es: seq<Event>, success: bool): nat
    requires s.Shaped()
    decreases |es|
  {
    if es == [] then 0
    else
      (if es[0].Consume? && s.c == Dealing && (success ==> es[0].choice) then 1 else 0)
      + Dealt(Step(s, es[0]), es[1..], success)
  }

  /** A command is being dealt with; a response is awaited. */
  function InHand(s: State): nat {
    if s.c == Dealing then 1 else 0
  }

  function Awaited(s: State): nat {
    if s.c == Waiting || s.c == PollRespond || (s.c.Fetching? && s.c.from == Respond) then 1 else 0
  }

  lemma {:induction false} Counted(s: State, es: seq<Event>)
    requires s.Shaped()
    ensures var r := Run(s, es);
            && |r.cmd.dequeued| + InHand(s) == |s.cmd.dequeued| + Dealt(s, es, false) + InHand(r)
            && |r.respond.dequeued| + Awaited(r) <= |s.respond.dequeued| + Dealt(s, es, true) + Awaited(s)
    decreases |es|
  {
    if es != [] {
      var t := Step(s, es[0]);
      CountedStep(s, es[0]);
      hide Step, InHand, Awaited;
      Counted(t, es[1..]);
    }
  }

  lemma CountedStep(s: State, e: Event)
    requires s.Shaped()
    ensures var t := Step(s, e);
            var ended, well := e.Consume? && s.c == Dealing, e.Consume? && s.c == Dealing && e.choice;
            && |t.cmd.dequeued| + InHand(s) == |s.cmd.dequeued| + (if ended then 1 else 0) + InHand(t)
            && |t.respond.dequeued| + Awaited(t) <= |s.respond.dequeued| + (if well then 1 else 0) + Awaited(s)
  {
    hide SIZE, RevQueue.Next;
    match e
    case Produce(input) => ProducerApart(s, input);
    case Consume(choice) =>
      if s.c.Fetching? && s.c.done < SIZE {
        StillFetching(s, choice);
      }
  }

  lemma ProducerApart(s: State, input: Input)
    requires s.Shaped()
    ensures var t := ProduceStep(s, input);
            t.c == s.c && t.cmd.dequeued == s.cmd.dequeued && t.respond.dequeued == s.respond.dequeued
  {
    hide SIZE, RevQueue.Next;
  }

  lemma StillFetching(s: State, choice: bool)
    requires s.Shaped() && s.c.Fetching? && s.c.done < SIZE
    ensures var t := ConsumeStep(s, choice);
            t.c == Fetching(s.c.from, s.c.done + 1) && t.cmd == s.cmd && t.respond == s.respond
  {
    hide SIZE, RevQueue.Next;
  }

  /** The main loop deals with every command it takes, once, and takes at most one response for each command that
      deal_cmd has carried out, and none for the others. */
  lemma OneResponseEach(s: State, es: seq<Event>)
    requires Initial(s)
    ensures var r := Run(s, es);
            && |r.cmd.dequeued| == Dealt(s, es, false) + (if r.c == Dealing then 1 else 0)
            && |r.respond.dequeued| <= Dealt(s, es, true)
  {
    Counted(s, es);
    hide Run, Dealt;
  }

  /** The main loop goes on from a test exactly if something is queued there, from the wait also on a time-out; and
      only a response ends the wait otherwise. */
  lemma GoesOnWhenQueued(s: State, choice: bool)
    requires s.Shaped() && Inv(s)
    ensures var t := Step(s, Consume(choice));
            var cmds, responses := Contents(s.cmd.base, s.cmd.front, s.cmd.rear),
                Contents(s.respond.base, s.respond.front, s.respond.rear);
            && (s.c == PollCmd ==> t.c == if cmds != [] then Fetching(Cmd, 0) else PollCmd)
            && (s.c == Waiting ==> t.c == if responses != [] || choice then PollRespond else Waiting)
            && (s.c == PollRespond ==> t.c == if responses != [] then Fetching(Respond, 0) else PollCmd)
            && (s.c == Dealing ==> t.c == if choice then Waiting else PollCmd)
  {
    FullAndEmpty(s.cmd.front, s.cmd.rear);
    FullAndEmpty(s.respond.front, s.respond.rear);
  }

  /** Whatever the receiving thread does short of clearing, the slot being read stays as it is. */
  lemma NeverOverwritten(s: State, input: Input)
    requires Inv(s) && s.c.Fetching? && input != Broken
    ensures var l, m := s.At(s.c.from), ProduceStep(s, input).At(s.c.from);
      m.front == l.front && m.base[m.front] == l.base[l.front]
  {
    var l := s.At(s.c.from);
    assert LaneOk(s, s.c.from);
  }

  // ---- clearing under a running DeQueue ----

  /** The main loop alone, until it has read the slot and moved the front. */
  lemma {:induction false} FinishFetch(s: State)
    requires s.Shaped() && s.c.Fetching? && s.c.done <= SIZE
    ensures var l, r := s.At(s.c.from), Run(s, seq(SIZE - s.c.done + 1, _ => Consume(false))).At(s.c.from);
      && r.front == RevQueue.Next(l.front) && r.rear == l.rear && r.routed == l.routed
        && |r.dequeued| == |l.dequeued| + 1
    decreases SIZE - s.c.done
  {
    var es := seq(SIZE - s.c.done + 1, _ => Consume(false));
    var t := Step(s, es[0]);
    if s.c.done < SIZE {
      assert es[1..] == seq(SIZE - t.c.done + 1, _ => Consume(false));
      FinishFetch(t);
    } else {
      assert es[1..] == [];
    }
  }

  /** The condition is exact: after a clear in the middle of DeQueue, once the main loop has finished that DeQueue, it
      has taken a package that is not in the queue, and the queue claims to hold eight. */
  lemma ClearUnderDequeue(s: State)
    requires Inv(s) && s.p == Receiving && !Quiet(s, Produce(Broken))
    ensures var es := [Produce(Broken)] + seq(SIZE - s.c.done + 1, _ => Consume(false));
      var r := Run(s, es).At(s.c.from);
      !(r.dequeued <= r.routed) && Length(r.front, r.rear) == 8
  {
    assert LaneOk(s, s.c.from);
    var tail := seq(SIZE - s.c.done + 1, _ => Consume(false));
    var es := [Produce(Broken)] + tail;
    assert es[1..] == tail;
    FinishFetch(Step(s, es[0]));
  }

  // ---- such a state is reached ----

  lemma {:induction false} RunSplit(s: State, a: seq<Event>, b: seq<Event>)
    requires s.Shaped()
    ensures Run(s, a + b) == Run(Run(s, a), b)
    decreases |a|
  {
    hide Step;
    if a == [] {
      assert a + b == b;
    } else {
      assert (a + b)[1..] == a[1..] + b;
      RunSplit(Step(s, a[0]), a[1..], b);
    }
  }

  lemma {:induction false} NothingBroken(s: State, es: seq<Event>)
    requires s.Shaped() && Produce(Broken) !in es
    ensures Calm(s, es)
    decreases |es|
  {
    hide Step;
    if es != [] {
      assert es[0] in es;
      NothingBroken(Step(s, es[0]), es[1..]);
    }
  }

  function FillEvents(done: nat): (es: seq<Event>)
    requires done <= SIZE
    ensures |es| == SIZE - done + 1 && forall e | e in es :: e == Produce(Bad)
  {
    seq(SIZE - done + 1, _ => Produce(Bad))
  }

  /** The receiving thread alone, until it has filled the slot and moved the rear. */
  lemma {:induction false} FinishFill(s: State)
    requires s.Shaped() && s.p.Filling? && s.p.to == Cmd && s.p.done <= SIZE
    ensures var r := Run(s, FillEvents(s.p.done));
      && r.p == CheckCmd && r.c == s.c && r.respond == s.respond
      && r.cmd.front == s.cmd.front && r.cmd.rear == RevQueue.Next(s.cmd.rear)
    decreases SIZE - s.p.done
  {
    var es := FillEvents(s.p.done);
    var t := Step(s, es[0]);
    if s.p.done < SIZE {
      assert es[1..] == FillEvents(t.p.done);
      FinishFill(t);
    } else {
      assert es[1..] == [];
    }
  }

  /** A package is received and its slot about to be filled. */
  lemma StartFill(s: State, package: Package)
    requires Initial(s) && Route(package) == Cmd
    ensures var r := Run(s, [Produce(Bad), Produce(Bad), Produce(Good(package)), Produce(Bad)]);
      && r.p == Filling(Cmd, 0) && r.c == PollCmd && r.cmd.front == r.cmd.rear == 0
        && r.respond.front == r.respond.rear == 0
  {
    var s1 := Step(s, Produce(Bad));
    var s2 := Step(s1, Produce(Bad));
    var s3 := Step(s2, Produce(Good(package)));
    var s4 := Step(s3, Produce(Bad));
    assert s2.p == Receiving && s3.p == CheckAgain(Cmd) && s4.p == Filling(Cmd, 0);
    FourSteps(s, Produce(Bad), Produce(Bad), Produce(Good(package)), Produce(Bad));
  }

  lemma FourSteps(s: State, a: Event, b: Event, c: Event, d: Event)
    requires s.Shaped()
    ensures Run(s, [a, b, c, d]) == Step(Step(Step(Step(s, a), b), c), d)
    ensures Run(s, [a, b, c]) == Step(Step(Step(s, a), b), c)
  {
    hide Step;
    assert [a, b, c, d][1..] == [b, c, d] && [b, c, d][1..] == [c, d] && [c, d][1..] == [d] && [d][1..] == [];
    assert [a, b, c][1..] == [b, c] && [b, c][1..] == [c] && [c][1..] == [];
    var s1 := Step(s, a);
    var s2 := Step(s1, b);
    var s3 := Step(s2, c);
    assert Run(s2, [c]) == Step(s2, c) && Run(s1, [b, c]) == Step(Step(s1, b), c);
    assert Run(s3, [d]) == Step(s3, d) && Run(s2, [c, d]) == Step(s3, d) && Run(s1, [b, c, d]) == Step(s3, d);
  }

  function Reaching(package: Package): (es: seq<Event>)
    ensures Produce(Broken) !in es
  {
    [Produce(Bad), Produce(Bad), Produce(Good(package)), Produce(Bad)] + FillEvents(0)
    + [Consume(false), Produce(Bad), Produce(Bad)]
  }

  /** From the start, one command package is enough to have the receiving thread wait for the next package while the
      main loop is inside DeQueue. */
  lemma ClearIsReachable(s: State, package: Package)
    requires Initial(s) && Route(package) == Cmd
    ensures var r := Run(s, Reaching(package));
      Calm(s, Reaching(package)) && r.p == Receiving && r.c.Fetching? && r.c.done <= SIZE
  {
    var a, b: seq<Event> := [Produce(Bad), Produce(Bad), Produce(Good(package)), Produce(Bad)],
                            [Consume(false), Produce(Bad), Produce(Bad)];
    NothingBroken(s, Reaching(package));
    StartFill(s, package);
    var s1 := Run(s, a);
    FinishFill(s1);
    var s2 := Run(s1, FillEvents(0));
    RunSplit(s, a, FillEvents(0));
    RunSplit(s, a + FillEvents(0), b);
    FourSteps(s2, Consume(false), Produce(Bad), Produce(Bad), Produce(Bad));
    hide Run;
    var t1 := Step(s2, Consume(false));
    var t2 := Step(t1, Produce(Bad));
    assert t1.c == Fetching(Cmd, 0) && t2.p == CheckRespond;
  }

  /** So there is a run from the start, with a single clear in it, that takes a package out of the queue that is not
      there. */
  lemma BrokenRun(s: State, package: Package)
    requires Initial(s) && Route(package) == Cmd
    ensures exists es ::
              var r := Run(s, es);
              !(r.cmd.dequeued <= r.cmd.routed) || !(r.respond.dequeued <= r.respond.routed)
  {
    ClearIsReachable(s, package);
    InitiallyOk(s);
    var first := Reaching(package);
    RunKeeps(s, first);
    var t := Run(s, first);
    var more := [Produce(Broken)] + seq(SIZE - t.c.done + 1, _ => Consume(false));
    ClearUnderDequeue(t);
    RunSplit(s, first, more);
    var r := Run(s, first + more);
    assert r.At(t.c.from) == r.cmd || r.At(t.c.from) == r.respond;
  }
}
