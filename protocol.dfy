/** The Foo-Bar countdown protocol of main/main.cpp as a sequential state
    machine. Each loop iteration of a FreeRTOS task is one atomic step over the
    shared state: the semaphore count, EVENT_FLAG_1, the inbox xQueue and the
    lines written to the serial port. */
module Protocol {
  import opened Primality
  import opened Lines

  /** QUEUE_LENGTH (main/main.cpp:51): capacity of the inbox. */
  const QueueLength: nat := 8

  /** The shared state of the four tasks. */
  datatype State = State(
    count: nat,         // count of the counting semaphore xSemaphore
    running: bool,      // EVENT_FLAG_1 of eventGroup
    inbox: seq<nat>,    // xQueue, oldest entry first
    log: seq<Line>      // everything written to the serial port, in order
  )

  /** The four tasks as app_main and idleTask leave them: empty inbox, semaphore
      created with count 0, flag clear, prompt written. */
  function Init(): State {
    State(0, false, [], [Prompt])
  }

  /** uxQueueSpacesAvailable(xQueue). */
  function SpacesAvailable(s: State): int {
    QueueLength - |s.inbox|
  }

  // ---------------------------------------------------------------------------
  // The four steps
  // ---------------------------------------------------------------------------

  /** esp_restart(): all four tasks start again from their initial state and the
      prompt is written again; lines already written stay written. */
  function Restart(s: State): (r: State)
    ensures r == Init().(log := s.log + [Prompt])
  {
    State(0, false, [], s.log + [Prompt])
  }

  /** uart_event_task after parsing a number n from the serial port. Every
      input writes exactly one line; a nonzero one leaves the countdown alone
      and the queued entries in place, adding at most one at the tail, never
      beyond QUEUE_LENGTH. */
  function Input(s: State, n: nat): (r: State)
    ensures |r.log| == |s.log| + 1 && r.log[..|s.log|] == s.log
    ensures n != 0 ==> r.count == s.count && r.running == s.running
    ensures n != 0 ==> s.inbox <= r.inbox && |r.inbox| <= |s.inbox| + 1
    ensures |s.inbox| <= QueueLength ==> |r.inbox| <= QueueLength
  {
    if n == 0 then Restart(s)
    else if SpacesAvailable(s) == 0 then s.(log := s.log + [CurrentlyFull])
    else s.(inbox := s.inbox + [n], log := s.log + [Received(n)])
  }

  /** One iteration of idleTask: when the flag is clear and the inbox holds
      something, raise the flag and restart the countdown at the oldest entry. */
  function Coordinate(s: State): (r: State)
    ensures r.log == s.log
    ensures r == s || (!s.running && r.running && [r.count] + r.inbox == s.inbox)
  {
    if !s.running && SpacesAvailable(s) < 8 then
      State(s.inbox[0], true, s.inbox[1..], s.log)
    else s
  }

  predicate EvenEnabled(s: State) {
    s.running && s.count % 2 == 0
  }

  predicate OddEnabled(s: State) {
    s.running && s.count % 2 == 1
  }

  /** One iteration of foo_task: for an even count, write its line, then take
      the semaphore, or at 0 clear the flag instead. */
  function EvenStep(s: State): (r: State)
    ensures r.inbox == s.inbox
    ensures r == s || (EvenEnabled(s) && r.log == s.log + [Classify(s.count)])
    ensures r.count == s.count || r.count + 1 == s.count
  {
    if !EvenEnabled(s) then s
    else if s.count != 0 then s.(count := s.count - 1, log := s.log + [Classify(s.count)])
    else s.(running := false, log := s.log + [Classify(s.count)])
  }

  /** One iteration of bar_task: for an odd count, write its line and take the
      semaphore. */
  function OddStep(s: State): (r: State)
    ensures r.inbox == s.inbox && r.running == s.running
    ensures r == s || (OddEnabled(s) && r.count + 1 == s.count && r.log == s.log + [Classify(s.count)])
  {
    if !OddEnabled(s) then s
    else s.(count := s.count - 1, log := s.log + [Classify(s.count)])
  }

  datatype Event = In(n: nat) | Coord | Even | Odd

  function Apply(s: State, e: Event): State {
    match e
    case In(n) => Input(s, n)
    case Coord => Coordinate(s)
    case Even => EvenStep(s)
    case Odd => OddStep(s)
  }

  /** The state after the given steps, in order, from s. */
  function Run(s: State, es: seq<Event>): State
    decreases |es|
  {
    if es == [] then s else Run(Apply(s, es[0]), es[1..])
  }

  /** The worker step that is enabled, whichever it is. */
  function WorkerStep(s: State): State {
    if s.count % 2 == 0 then EvenStep(s) else OddStep(s)
  }

  /** k enabled worker steps from s. */
  function WorkerSteps(s: State, k: nat): State
    decreases k
  {
    if k == 0 then s else WorkerSteps(WorkerStep(s), k - 1)
  }

  // ---------------------------------------------------------------------------
  // What the protocol owes: countdowns and the ledger
  // ---------------------------------------------------------------------------

  /** The lines a countdown from v writes: v, v - 1, ..., 0, each classified. */
  function Countdown(v: nat): seq<Line> {
    [Classify(v)] + if v == 0 then [] else Countdown(v - 1)
  }

  /** The countdowns of the queued values, in queue order. */
  function Owed(q: seq<nat>): seq<Line> {
    if q == [] then [] else Countdown(q[0]) + Owed(q[1..])
  }

  /** Lines the running countdown has still to write. */
  function Pending(s: State): seq<Line> {
    if s.running then Countdown(s.count) else []
  }

  /** Every worker line the state still owes, if left to run. */
  function Future(s: State): seq<Line> {
    Pending(s) + Owed(s.inbox)
  }

  /** The part of a log written since the last (re)start. */
  function SinceStart(log: seq<Line>): seq<Line> {
    if log == [] then []
    else if log[|log| - 1] == Prompt then []
    else SinceStart(log[..|log| - 1]) + [log[|log| - 1]]
  }

  function WorkerLines(ls: seq<Line>): seq<Line> {
    if ls == [] then []
    else WorkerLines(ls[..|ls| - 1]) + if IsWorkerLine(ls[|ls| - 1]) then [ls[|ls| - 1]] else []
  }

  /** The values of the Received lines, in order. */
  function ReceivedValues(ls: seq<Line>): seq<nat> {
    if ls == [] then []
    else ReceivedValues(ls[..|ls| - 1]) + if ls[|ls| - 1].Received? then [ls[|ls| - 1].value] else []
  }

  /** The invariant of every reachable state. The inbox holds at most
      QUEUE_LENGTH positive values; an idle semaphore is at 0; and, since the
      last start, the worker lines written followed by the lines still owed
      are exactly the countdowns of the accepted values, in order of
      acceptance: nothing is skipped, repeated or reordered. */
  ghost predicate Inv(s: State) {
    && |s.inbox| <= QueueLength
    && (forall k :: 0 <= k < |s.inbox| ==> s.inbox[k] > 0)
    && (!s.running ==> s.count == 0)
    && Ledger(s)
  }

  ghost predicate Ledger(s: State) {
    WorkerLines(SinceStart(s.log)) + Future(s) == Owed(ReceivedValues(SinceStart(s.log)))
  }

  // ---------------------------------------------------------------------------
  // Lemmas
  // ---------------------------------------------------------------------------

  /** A countdown from v has v + 1 lines and line k classifies v - k:
      strictly descending to 0, no gaps, no repeats. */
  lemma {:induction false} CountdownDescends(v: nat)
    ensures |Countdown(v)| == v + 1
    ensures forall k :: 0 <= k <= v ==> Countdown(v)[k] == Classify(v - k)
  {
    CountdownLength(v);
    forall k | 0 <= k <= v
      ensures Countdown(v)[k] == Classify(v - k)
    {
      CountdownAt(v, k);
    }
  }

  lemma {:induction false} CountdownLength(v: nat)
    ensures |Countdown(v)| == v + 1
  {
    if v > 0 {
      CountdownLength(v - 1);
    }
  }

  lemma {:induction false} CountdownAt(v: nat, k: nat)
    requires k <= v
    ensures k < |Countdown(v)| && Countdown(v)[k] == Classify(v - k)
    decreases k
  {
    CountdownLength(v);
    if k > 0 {
      CountdownAt(v - 1, k - 1);
      assert Countdown(v)[k] == Countdown(v - 1)[k - 1];
    }
  }

  lemma {:induction false} OwedAppend(q: seq<nat>, n: nat)
    ensures Owed(q + [n]) == Owed(q) + Countdown(n)
  {
    if q == [] {
      assert q + [n] == [n];
    } else {
      assert (q + [n])[1..] == q[1..] + [n];
      OwedAppend(q[1..], n);
    }
  }

  lemma SinceStartAppend(log: seq<Line>, l: Line)
    ensures SinceStart(log + [l]) == if l == Prompt then [] else SinceStart(log) + [l]
  {
    assert (log + [l])[..|log|] == log;
  }

  lemma LedgerAppend(ls: seq<Line>, l: Line)
    ensures IsWorkerLine(l) ==> WorkerLines(ls + [l]) == WorkerLines(ls) + [l]
    ensures !IsWorkerLine(l) ==> WorkerLines(ls + [l]) == WorkerLines(ls)
    ensures l.Received? ==> ReceivedValues(ls + [l]) == ReceivedValues(ls) + [l.value]
    ensures !l.Received? ==> ReceivedValues(ls + [l]) == ReceivedValues(ls)
  {
    assert (ls + [l])[..|ls|] == ls;
    assert WorkerLines(ls) + [] == WorkerLines(ls);
    assert ReceivedValues(ls) + [] == ReceivedValues(ls);
  }

  /** Writing a line other than the prompt extends the part of the log since
      the last start by that line. */
  lemma AppendLine(log: seq<Line>, l: Line)
    requires l != Prompt
    ensures SinceStart(log + [l]) == SinceStart(log) + [l]
    ensures IsWorkerLine(l) ==> WorkerLines(SinceStart(log + [l])) == WorkerLines(SinceStart(log)) + [l]
    ensures !IsWorkerLine(l) ==> WorkerLines(SinceStart(log + [l])) == WorkerLines(SinceStart(log))
    ensures l.Received? ==>
      ReceivedValues(SinceStart(log + [l])) == ReceivedValues(SinceStart(log)) + [l.value]
    ensures !l.Received? ==> ReceivedValues(SinceStart(log + [l])) == ReceivedValues(SinceStart(log))
  {
    SinceStartAppend(log, l);
    LedgerAppend(SinceStart(log), l);
  }

  /** The gate discipline: the two workers are never enabled together; no
      worker acts while the flag is clear; only the coordinator raises the
      flag, at the oldest inbox value; only foo_task at count 0, or a restart,
      lowers it; and a worker step lowers the count by exactly one, never
      below zero. */
  lemma GateDiscipline(s: State, e: Event)
    ensures !(EvenEnabled(s) && OddEnabled(s))
    ensures !s.running ==> EvenStep(s) == s && OddStep(s) == s
    ensures !s.running && Apply(s, e).running ==>
      e == Coord && s.inbox != [] && Apply(s, e).count == s.inbox[0]
    ensures s.running && !Apply(s, e).running ==> (e == Even && s.count == 0) || e == In(0)
    ensures (e == Even || e == Odd) && Apply(s, e).count != s.count ==>
      s.count > 0 && Apply(s, e).count == s.count - 1
  {
  }

  lemma WorkerStepPending(s: State)
    requires s.running
    ensures Pending(s) == [Classify(s.count)] + Pending(WorkerStep(s))
  {
    var t := WorkerStep(s);
    if s.count == 0 {
      assert !t.running;
    } else {
      assert t.running && t.count == s.count - 1;
    }
  }

  /** The state after a worker step from a running state. */
  lemma WorkerStepShape(s: State)
    requires s.running
    ensures s.count == 0 ==>
      WorkerStep(s) == s.(running := false, log := s.log + [Classify(s.count)])
    ensures s.count != 0 ==>
      WorkerStep(s) == s.(count := s.count - 1, log := s.log + [Classify(s.count)])
  {
  }

  /** A worker step from a running state writes the first line the state owes
      and leaves the rest owed; the inbox is untouched. */
  lemma WorkerStepPaysFirst(s: State)
    requires s.running
    ensures WorkerStep(s).log == s.log + [Classify(s.count)]
    ensures Future(s) == [Classify(s.count)] + Future(WorkerStep(s))
    ensures WorkerStep(s).inbox == s.inbox
    ensures !WorkerStep(s).running ==> WorkerStep(s).count == 0
  {
    WorkerStepPending(s);
    var t := WorkerStep(s);
    assert t.inbox == s.inbox;
    calc {
      Future(s);
      Pending(s) + Owed(s.inbox);
      ([Classify(s.count)] + Pending(t)) + Owed(t.inbox);
      [Classify(s.count)] + (Pending(t) + Owed(t.inbox));
    }
  }

  /** The coordinator moves the oldest queued countdown into the running one:
      what is owed does not change. */
  lemma CoordinateKeepsFuture(s: State)
    ensures Future(Coordinate(s)) == Future(s)
    ensures Coordinate(s).log == s.log
  {
  }

  lemma InitInv()
    ensures Inv(Init())
  {
  }

  lemma RestartLedger(s: State)
    ensures Ledger(Restart(s))
  {
    SinceStartAppend(s.log, Prompt);
  }

  lemma RejectLedger(s: State)
    requires Ledger(s)
    ensures Ledger(s.(log := s.log + [CurrentlyFull]))
  {
    var t := s.(log := s.log + [CurrentlyFull]);
    AppendLine(s.log, CurrentlyFull);
    assert Future(t) == Future(s);
  }

  lemma AcceptLedger(s: State, n: nat)
    requires Ledger(s)
    ensures Ledger(s.(inbox := s.inbox + [n], log := s.log + [Received(n)]))
  {
    var t := s.(inbox := s.inbox + [n], log := s.log + [Received(n)]);
    var r := ReceivedValues(SinceStart(s.log));
    var w := WorkerLines(SinceStart(s.log));
    var c := Countdown(n);
    assert WorkerLines(SinceStart(t.log)) == w && ReceivedValues(SinceStart(t.log)) == r + [n] by {
      AppendLine(s.log, Received(n));
    }
    assert Future(t) == Pending(s) + (Owed(s.inbox) + c) by {
      OwedAppend(s.inbox, n);
      assert Pending(t) == Pending(s);
    }
    assert Owed(r + [n]) == Owed(r) + c by {
      OwedAppend(r, n);
    }
    SeqShift(w, Pending(s), Owed(s.inbox), Owed(r), c);
  }

  /** The algebra of appending the same lines on both sides of the ledger. */
  lemma SeqShift(w: seq<Line>, p: seq<Line>, o: seq<Line>, r: seq<Line>, c: seq<Line>)
    requires w + (p + o) == r
    ensures w + (p + (o + c)) == r + c
  {
    assert w + (p + (o + c)) == (w + (p + o)) + c;
  }

  lemma InputInv(s: State, n: nat)
    requires Inv(s)
    ensures Inv(Input(s, n))
  {
    if n == 0 {
      RestartLedger(s);
    } else if SpacesAvailable(s) == 0 {
      RejectLedger(s);
    } else {
      AcceptLedger(s, n);
    }
  }

  lemma CoordinateInv(s: State)
    requires Inv(s)
    ensures Inv(Coordinate(s))
  {
    CoordinateKeepsFuture(s);
  }

  lemma WorkerLedger(s: State)
    requires Ledger(s) && s.running
    ensures Ledger(WorkerStep(s))
  {
    var t := WorkerStep(s);
    WorkerStepPaysFirst(s);
    var l := Classify(s.count);
    AppendLine(s.log, l);
    LogShift(WorkerLines(SinceStart(s.log)), l, Future(t), Future(s));
  }

  lemma WorkerInv(s: State, e: Event)
    requires Inv(s)
    requires e == Even || e == Odd
    ensures Inv(Apply(s, e))
  {
    if (e == Even && EvenEnabled(s)) || (e == Odd && OddEnabled(s)) {
      assert Apply(s, e) == WorkerStep(s);
      WorkerLedger(s);
      WorkerStepPaysFirst(s);
    }
  }

  /** Every step keeps the invariant. */
  lemma StepInv(s: State, e: Event)
    requires Inv(s)
    ensures Inv(Apply(s, e))
  {
    match e
    case In(n) => InputInv(s, n);
    case Coord => CoordinateInv(s);
    case Even => WorkerInv(s, e);
    case Odd => WorkerInv(s, e);
  }

  /** Any sequence of steps keeps the invariant. */
  lemma {:induction false} RunInv(s: State, es: seq<Event>)
    requires Inv(s)
    ensures Inv(Run(s, es))
    decreases |es|
  {
    if es != [] {
      StepInv(s, es[0]);
      RunInv(Apply(s, es[0]), es[1..]);
    }
  }

  /** Every state reachable from start-up, under any interleaving of inputs and
      task iterations, satisfies the invariant: in particular the inbox never
      holds more than QUEUE_LENGTH values and the worker lines are the
      countdowns of the accepted values, in order. */
  lemma Reachable(es: seq<Event>)
    ensures Inv(Run(Init(), es))
    ensures |Run(Init(), es).inbox| <= QueueLength
  {
    InitInv();
    RunInv(Init(), es);
  }

  /** A countdown from v: the first v steps keep the flag raised and the count
      at v - k; after v + 1 steps the lines v, v - 1, ..., 0 have been written
      and the flag is cleared with the count at 0. */
  lemma {:induction false} Dispatch(s: State, v: nat)
    requires s.running && s.count == v
    ensures WorkerSteps(s, v + 1) == s.(count := 0, running := false, log := s.log + Countdown(v))
    ensures forall k :: 0 <= k <= v ==> WorkerSteps(s, k).running && WorkerSteps(s, k).count == v - k
    decreases v
  {
    var t := WorkerStep(s);
    WorkerStepShape(s);
    assert WorkerSteps(s, v + 1) == WorkerSteps(t, v);
    if v == 0 {
      assert Countdown(0) == [Classify(0)];
    } else {
      Dispatch(t, v - 1);
      LogShift(s.log, Classify(v), Countdown(v - 1), Countdown(v));
      forall k | 1 <= k <= v
        ensures WorkerSteps(s, k).running && WorkerSteps(s, k).count == v - k
      {
        assert WorkerSteps(s, k) == WorkerSteps(t, k - 1);
      }
    }
  }

  /** From idle, the coordinator takes the oldest inbox value v; v + 1 worker
      steps later the countdown of v is written, the flag is clear and the
      rest of the inbox is waiting. */
  lemma DispatchOldest(s: State)
    requires !s.running && s.inbox != []
    ensures WorkerSteps(Coordinate(s), s.inbox[0] + 1) ==
      State(0, false, s.inbox[1..], s.log + Countdown(s.inbox[0]))
  {
    Dispatch(Coordinate(s), s.inbox[0]);
  }

  /** Let all four tasks run with no further input: finish the running countdown,
      then dispatch the inbox entries one by one. */
  function Drain(s: State): State
    decreases |s.inbox|, if s.running then s.count + 1 else 0
  {
    if s.running then Drain(WorkerStep(s))
    else if s.inbox != [] then Drain(Coordinate(s))
    else s
  }

  /** Left to run, the four tasks write exactly what the state owes and come to
      rest idle, with an empty inbox: every accepted value is counted down. */
  lemma {:induction false} DrainPaysAll(s: State)
    requires !s.running ==> s.count == 0
    ensures Drain(s) == State(0, false, [], s.log + Future(s))
    decreases |s.inbox|, if s.running then s.count + 1 else 0
  {
    if s.running {
      var t := WorkerStep(s);
      WorkerStepPaysFirst(s);
      DrainPaysAll(t);
      assert Drain(s) == Drain(t);
      LogShift(s.log, Classify(s.count), Future(t), Future(s));
    } else if s.inbox != [] {
      CoordinateKeepsFuture(s);
      DrainPaysAll(Coordinate(s));
    } else {
      assert s.log + Future(s) == s.log;
    }
  }

  /** Moving a line from the front of what is owed to the end of the log. */
  lemma LogShift(log: seq<Line>, l: Line, rest: seq<Line>, owed: seq<Line>)
    requires owed == [l] + rest
    ensures (log + [l]) + rest == log + owed
  {
  }

  /** Every line of ls is a worker line. */
  predicate AllWorkerLines(ls: seq<Line>) {
    forall k :: 0 <= k < |ls| ==> IsWorkerLine(ls[k])
  }

  lemma CountdownWorkerLines(v: nat)
    ensures AllWorkerLines(Countdown(v))
  {
    CountdownDescends(v);
  }

  lemma {:induction false} OwedWorkerLines(q: seq<nat>)
    ensures AllWorkerLines(Owed(q))
    decreases |q|
  {
    if q != [] {
      CountdownWorkerLines(q[0]);
      OwedWorkerLines(q[1..]);
      ConcatWorkerLines(Countdown(q[0]), Owed(q[1..]));
    }
  }

  lemma ConcatWorkerLines(a: seq<Line>, b: seq<Line>)
    requires AllWorkerLines(a) && AllWorkerLines(b)
    ensures AllWorkerLines(a + b)
  {
    forall k | 0 <= k < |a + b|
      ensures IsWorkerLine((a + b)[k])
    {
      if k >= |a| {
        assert (a + b)[k] == b[k - |a|];
      }
    }
  }

  /** What the state owes is made of worker lines only. */
  lemma FutureWorkerLines(s: State)
    ensures AllWorkerLines(Future(s))
  {
    OwedWorkerLines(s.inbox);
    if s.running {
      CountdownWorkerLines(s.count);
      ConcatWorkerLines(Pending(s), Owed(s.inbox));
    } else {
      assert Future(s) == Owed(s.inbox);
    }
  }

  /** Writing worker lines adds them to the worker lines since the last start
      and leaves the accepted values alone. */
  lemma {:induction false} AppendWorkerLines(log: seq<Line>, ws: seq<Line>)
    requires AllWorkerLines(ws)
    ensures WorkerLines(SinceStart(log + ws)) == WorkerLines(SinceStart(log)) + ws
    ensures ReceivedValues(SinceStart(log + ws)) == ReceivedValues(SinceStart(log))
    decreases |ws|
  {
    if ws == [] {
      assert log + ws == log;
      assert WorkerLines(SinceStart(log)) + ws == WorkerLines(SinceStart(log));
    } else {
      var init, l := ws[..|ws| - 1], ws[|ws| - 1];
      assert ws == init + [l];
      assert AllWorkerLines(init) by {
        forall k | 0 <= k < |init|
          ensures IsWorkerLine(init[k])
        {
          assert init[k] == ws[k];
        }
      }
      AppendWorkerLines(log, init);
      assert log + ws == (log + init) + [l];
      assert IsWorkerLine(l) && l != Prompt;
      AppendLine(log + init, l);
      SeqSnoc(WorkerLines(SinceStart(log)), init, l);
    }
  }

  lemma SeqSnoc(w: seq<Line>, init: seq<Line>, l: Line)
    ensures (w + init) + [l] == w + (init + [l])
  {
  }

  /** Once all four tasks have drained, the worker lines written since the last
      start are exactly the countdowns of all values accepted since then. */
  lemma AllAcceptedCountedDown(s: State)
    requires Inv(s)
    ensures Drain(s).inbox == [] && !Drain(s).running
    ensures WorkerLines(SinceStart(Drain(s).log)) == Owed(ReceivedValues(SinceStart(Drain(s).log)))
  {
    DrainPaysAll(s);
    FutureWorkerLines(s);
    AppendWorkerLines(s.log, Future(s));
  }

  /** Start value 5: Bar 5 Prime, Foo 4, Bar 3 Prime, Foo 2 Prime, Bar 1, Foo 0. */
  lemma CountdownFive()
    ensures Countdown(5) ==
      [Bar(5, true), Foo(4, false), Bar(3, true), Foo(2, true), Bar(1, false), Foo(0, false)]
  {
    PrimeMeans(5);
    PrimeMeans(3);
    NoDivisorBelowRoot(5, 3);
    NoDivisorBelowRoot(3, 2);
    assert Divides(2, 4);
  }

  /** The text of the countdown from 5 on the serial port. */
  lemma CountdownFiveText()
    ensures RenderAll(Countdown(5)) ==
      ["Bar 5 Prime\n", "Foo 4\n", "Bar 3 Prime\n", "Foo 2 Prime\n", "Bar 1\n", "Foo 0\n"]
  {
    CountdownFive();
    RenderAllLines(Countdown(5));
    RenderExamples();
  }
}
