/** The whole control plane as one transition system: vhost callbacks in small steps, socket
    assignments from elsewhere, a FIFO of records, the port controller, and its handlers'
    workers, interleaved at will. */
module Protocol {
  import opened Records
  import opened Replica
  import opened ConfigManager
  import opened VhostController
  import opened SenderHistory
  import opened Midway
  import D = Descriptors
  import C = PortController
  import H = PortHandler

  /** events, done, trace and history record the run: done has the callbacks' operations, trace
      the socket assignments between them as well. pending is what is left of the running
      callback. */
  datatype System = System(events: seq<Event>, done: seq<Op>, pending: seq<Op>, sender: Sender,
                           channel: seq<RingState>, controller: C.Controller, history: seq<C.Step>,
                           trace: seq<Op>)

  datatype Step =
    | Begin(event: Event)
    | Advance
    | Assign(op: Op)
    | Receive(grants: H.Grants)
    | Work(handler: nat, worker: nat)

  function Initial(): System {
    System([], [], [], NewSender("Loopback"), [], C.NewController(), [], [])
  }

  /** Callbacks run one at a time; the receiver takes whole records in order. */
  predicate Enabled(s: System, step: Step)
    requires C.WellFormed(s.controller)
  {
    match step
    case Begin(e) => s.pending == [] && Legal(e)
    case Advance => s.pending != []
    case Assign(op) => SocketOp(op)
    case Receive(_) => s.channel != [] && s.channel[0].InRange()
    case Work(k, i) => C.Enabled(s.controller, C.Work(k, i))
  }

  function ControllerStep(s: System, step: Step): C.Step
    requires C.WellFormed(s.controller) && Enabled(s, step) && (step.Receive? || step.Work?)
  {
    match step
    case Receive(g) => C.Deliver(s.channel[0], g)
    case Work(k, i) => C.Work(k, i)
  }

  function Next(s: System, st: H.Settings, step: Step): (s': System)
    requires C.WellFormed(s.controller) && Enabled(s, step)
    ensures C.WellFormed(s'.controller)
  {
    match step
    case Begin(e) => s.(events := s.events + [e], pending := Program(e))
    case Advance =>
      var sender := Exec(s.sender, s.pending[0]);
      s.(done := s.done + [s.pending[0]], pending := s.pending[1..], sender := sender,
         channel := s.channel + sender.sent[|s.sender.sent|..], trace := s.trace + [s.pending[0]])
    case Assign(op) => s.(sender := Exec(s.sender, op), trace := s.trace + [op])
    case Receive(_) =>
      s.(channel := s.channel[1..],
         controller := C.Next(s.controller, st, ControllerStep(s, step)),
         history := s.history + [ControllerStep(s, step)])
    case Work(_, _) =>
      s.(controller := C.Next(s.controller, st, ControllerStep(s, step)),
         history := s.history + [ControllerStep(s, step)])
  }

  predicate Possible(st: H.Settings, steps: seq<Step>)
    decreases |steps|, 0
  {
    steps != [] ==>
      && Possible(st, steps[..|steps| - 1])
      && Enabled(After(st, steps[..|steps| - 1]), steps[|steps| - 1])
  }

  function After(st: H.Settings, steps: seq<Step>): (s: System)
    requires Possible(st, steps)
    ensures C.WellFormed(s.controller)
    decreases |steps|, 1
  {
    if steps == [] then Initial()
    else Next(After(st, steps[..|steps| - 1]), st, steps[|steps| - 1])
  }

  // ----- The invariant of every run

  ghost predicate Inv(s: System, st: H.Settings) {
    && AllLegal(s.events)
    && s.done + s.pending == AllOps(s.events)
    && (s.pending != [] ==> s.events != [] && |s.pending| <= |Program(s.events[|s.events| - 1])|)
    && SameSender(s.sender, ExecAll(NewSender("Loopback"), s.done))
    && SocketsPaired(s.sender.config)
    && s.sender == ExecAll(NewSender("Loopback"), s.trace)
    && C.Possible(st, s.history)
    && s.controller == C.After(st, s.history)
    && C.Delivered(s.history) + s.channel == s.sender.sent
  }

  lemma {:induction false} ControllerStepKeepsInv(s: System, st: H.Settings, step: Step)
    requires Inv(s, st) && C.WellFormed(s.controller) && Enabled(s, step)
    requires step.Receive? || step.Work?
    ensures Inv(Next(s, st, step), st)
  {
    hide ExecAll, AllOps, Program, SameSender, SocketsPaired, C.Process, C.After, C.Possible, C.Next, C.Delivered;
    var c := ControllerStep(s, step);
    assert C.Enabled(s.controller, c);
    C.AfterStep(st, s.history, c);
    C.DeliveredStep(s.history, c);
    if step.Receive? {
      assert s.channel == [s.channel[0]] + s.channel[1..];
    }
  }

  lemma {:induction false} BeginKeepsInv(s: System, st: H.Settings, e: Event)
    requires Inv(s, st) && C.WellFormed(s.controller) && Enabled(s, Begin(e))
    ensures Inv(Next(s, st, Begin(e)), st)
  {
    hide C.After, C.Possible, C.Delivered, ExecAll, SameSender, SocketsPaired;
    var events := s.events + [e];
    assert events[..|s.events|] == s.events;
    assert s.done + [] == s.done;
  }

  lemma {:induction false} AdvanceKeepsInv(s: System, st: H.Settings)
    requires Inv(s, st) && C.WellFormed(s.controller) && Enabled(s, Advance)
    ensures Inv(Next(s, st, Advance), st)
  {
    hide C.After, C.Possible, C.Delivered, Exec, ExecAll, AllOps, Program, SameSender, SocketsPaired;
    var op := s.pending[0];
    var sender := Exec(s.sender, op);
    ExecSame(s.sender, ExecAll(NewSender("Loopback"), s.done), op);
    ExecKeepsPairing(s.sender, op);
    assert s.done + s.pending == s.done + [op] + s.pending[1..];
    ExecAllStep(NewSender("Loopback"), s.done, op);
    ExecAllStep(NewSender("Loopback"), s.trace, op);
    assert sender.sent == s.sender.sent + sender.sent[|s.sender.sent|..];
  }

  lemma {:induction false} AssignKeepsInv(s: System, st: H.Settings, op: Op)
    requires Inv(s, st) && C.WellFormed(s.controller) && SocketOp(op)
    ensures Inv(Next(s, st, Assign(op)), st)
  {
    hide C.After, C.Possible, C.Delivered, ExecAll, AllOps, SocketsPaired;
    SocketOpSame(s.sender, ExecAll(NewSender("Loopback"), s.done), op);
    ExecKeepsPairing(s.sender, op);
    ExecAllStep(NewSender("Loopback"), s.trace, op);
  }

  lemma {:induction false} RunKeepsInv(st: H.Settings, steps: seq<Step>)
    requires Possible(st, steps)
    ensures Inv(After(st, steps), st)
  {
    if steps != [] {
      var front, step := steps[..|steps| - 1], steps[|steps| - 1];
      RunKeepsInv(st, front);
      hide Inv;
      match step {
        case Begin(e) => BeginKeepsInv(After(st, front), st, e);
        case Advance => AdvanceKeepsInv(After(st, front), st);
        case Assign(op) => AssignKeepsInv(After(st, front), st, op);
        case _ => ControllerStepKeepsInv(After(st, front), st, step);
      }
    }
  }

  /** The sender as it will be when its running callback has finished. */
  function Settled(s: System): Sender {
    ExecAll(s.sender, s.pending)
  }

  /** Small steps add nothing: the settled sender is, but for socket descriptors, the one the
      callbacks, run whole, lead to. What was delivered and what is in flight are a prefix of what it sends, and no
      record ever indexes outside the receiver's rows. */
  lemma {:induction false} RunSettles(st: H.Settings, steps: seq<Step>)
    requires Possible(st, steps)
    ensures var s := After(st, steps);
            && AllLegal(s.events)
            && SameSender(Settled(s), SenderOf(s.events))
            && C.Possible(st, s.history) && s.controller == C.After(st, s.history)
            && C.Delivered(s.history) + s.channel == s.sender.sent <= Settled(s).sent
            && AllInRange(C.Delivered(s.history) + s.channel)
            && AllInRange(C.Delivered(s.history))
            && s.controller.rows == Replay(C.Delivered(s.history))
  {
    RunKeepsInv(st, steps);
    var s := After(st, steps);
    ExecAllAppends(NewSender("Loopback"), s.done, s.pending);
    ExecAllSame(s.sender, ExecAll(NewSender("Loopback"), s.done), s.pending);
    SenderFacts(s.events);
    C.ControllerReplays(st, s.history);
    var all := C.Delivered(s.history) + s.channel;
    forall i | 0 <= i < |all|
      ensures all[i].InRange()
    {
      assert all[i] == Settled(s).sent[i];
    }
  }

  ghost predicate Quiet(s: System) {
    s.pending == [] && s.channel == []
  }

  lemma {:induction false} QuietSettles(st: H.Settings, steps: seq<Step>)
    requires Possible(st, steps) && Quiet(After(st, steps))
    ensures var s := After(st, steps);
            && AllLegal(s.events) && AllInRange(s.sender.sent)
            && SameSender(s.sender, SenderOf(s.events))
            && C.Delivered(s.history) == s.sender.sent
            && s.controller.rows == Replay(s.sender.sent)
  {
    RunSettles(st, steps);
    var s := After(st, steps);
    assert C.Delivered(s.history) + s.channel == C.Delivered(s.history);
  }

  // ----- Replica agreement

  /** In every state of every run, once the running callback finishes and the undelivered
      records are replayed, the receiver agrees with the configuration on queue q of key p
      exactly when the callbacks so far do not make the copies diverge there. */
  lemma {:induction false} ReplicaAgreement(st: H.Settings, steps: seq<Step>, p: int, q: int)
    requires Possible(st, steps)
    requires var c := Settled(After(st, steps)).config; p in c && 0 <= q < 2 * c[p].pairs
    ensures var s := After(st, steps);
            var final := Settled(s);
            && AllInRange(final.sent)
            && C.Delivered(s.history) + s.channel <= final.sent
            && ((On(Replay(final.sent), p, q) <==> q in final.config[p].enabled) <==> !Diverges(s.events, p, q))
  {
    RunSettles(st, steps);
    CopiesAgreeIff(After(st, steps).events, p, q);
    hide After, Possible, SenderOf, ExecAll, On, Diverges, Replay, C.After, C.Possible, C.Delivered;
  }

  /** When the copies agree as they stand, the running callback half way. */
  ghost predicate AgreesNow(s: System, p: int, q: int)
    requires s.pending != [] ==> s.events != []
  {
    if s.pending == [] then !Diverges(s.events, p, q)
    else AgreesMidway(s.events[..|s.events| - 1], s.events[|s.events| - 1], s.pending, p, q)
  }

  /** The operations done so far are those of the earlier callbacks and of a part of this one. */
  lemma {:induction false} DoneSplits(s: System, st: H.Settings)
    requires Inv(s, st) && s.pending != []
    ensures var front, e := s.events[..|s.events| - 1], s.events[|s.events| - 1];
            var m := |Program(e)| - |s.pending|;
            && 0 <= m < |Program(e)| && s.pending == Program(e)[m..]
            && AllLegal(front) && Legal(e)
            && SameSender(s.sender, ExecAll(SenderOf(front), Program(e)[..m]))
  {
    hide ExecAll, Program, SameSender, C.After, C.Possible, C.Delivered, SocketsPaired;
    LegalSplit(s.events);
    var front, e := s.events[..|s.events| - 1], s.events[|s.events| - 1];
    var m := |Program(e)| - |s.pending|;
    assert s.done + s.pending == AllOps(front) + Program(e)[..m] + Program(e)[m..] by {
      assert Program(e) == Program(e)[..m] + Program(e)[m..];
    }
    SameSplit(s.done, s.pending, AllOps(front) + Program(e)[..m], Program(e)[m..]);
    ExecAllAppends(NewSender("Loopback"), AllOps(front), Program(e)[..m]);
  }

  lemma {:induction false} MidwayAgrees(s: System, st: H.Settings, p: int, q: int)
    requires Inv(s, st) && s.pending != [] && AllInRange(s.sender.sent)
    requires p in s.sender.config && 0 <= q < 2 * s.sender.config[p].pairs
    ensures (On(Replay(s.sender.sent), p, q) <==> q in s.sender.config[p].enabled) <==> AgreesNow(s, p, q)
  {
    hide C.After, C.Possible, C.Delivered, Program, ExecAll, AgreesMidway, Replay, On, SocketsPaired;
    DoneSplits(s, st);
    var front, e := s.events[..|s.events| - 1], s.events[|s.events| - 1];
    MidwayAgreeIff(front, e, |Program(e)| - |s.pending|, p, q);
  }

  lemma {:induction false} PausedAgrees(s: System, st: H.Settings, p: int, q: int)
    requires Inv(s, st) && s.pending == [] && AllInRange(s.sender.sent)
    requires p in s.sender.config && 0 <= q < 2 * s.sender.config[p].pairs
    ensures (On(Replay(s.sender.sent), p, q) <==> q in s.sender.config[p].enabled) <==> AgreesNow(s, p, q)
  {
    hide C.After, C.Possible, C.Delivered, ExecAll, Diverges, Replay, On, SocketsPaired;
    assert s.done + [] == s.done;
    CopiesAgreeIff(s.events, p, q);
  }

  /** The copies as they are, in every state of every run, only the channel replayed: they
      differ beyond Diverges at most on the queues the running callback sets, and there from
      the moment the configuration has it to the moment the record is written. */
  lemma {:induction false} CurrentAgreement(st: H.Settings, steps: seq<Step>, p: int, q: int)
    requires Possible(st, steps)
    requires var c := After(st, steps).sender.config; p in c && 0 <= q < 2 * c[p].pairs
    ensures var s := After(st, steps);
            var ms := C.Delivered(s.history) + s.channel;
            && AllInRange(ms) && (s.pending != [] ==> s.events != [])
            && (s.channel == [] ==> s.controller.rows == Replay(ms))
            && ((On(Replay(ms), p, q) <==> q in s.sender.config[p].enabled) <==> AgreesNow(s, p, q))
  {
    hide AgreesNow, Replay, On, Settled;
    RunSettles(st, steps);
    RunKeepsInv(st, steps);
    var s := After(st, steps);
    assert C.Delivered(s.history) + [] == C.Delivered(s.history);
    hide After, Possible, C.After, C.Possible, C.Delivered;
    if s.pending == [] {
      PausedAgrees(s, st, p, q);
    } else {
      MidwayAgrees(s, st, p, q);
    }
  }

  /** With no callback running and an empty channel, the two maps as they are agree on queue q
      of key p exactly when the callbacks do not make them diverge there. */
  lemma {:induction false} QuietAgreement(st: H.Settings, steps: seq<Step>, p: int, q: int)
    requires Possible(st, steps) && Quiet(After(st, steps))
    requires var c := After(st, steps).sender.config; p in c && 0 <= q < 2 * c[p].pairs
    ensures var s := After(st, steps);
            (On(s.controller.rows, p, q) <==> q in s.sender.config[p].enabled) <==> !Diverges(s.events, p, q)
  {
    CurrentAgreement(st, steps, p, q);
    hide After, Possible, On, Diverges, Replay, C.Delivered;
  }

  /** Where ids equal port numbers, every live device has a row, and the maps differ exactly on
      a queue from 2 on last enabled before its device's arrival, and on queues 0 and 1 when
      they were last disabled. */
  lemma {:induction false} FreshAgreement(st: H.Settings, steps: seq<Step>, d: int, q: int)
    requires Possible(st, steps) && Quiet(After(st, steps)) && Fresh(After(st, steps).events)
    requires var c := After(st, steps).sender.config; d in c && 0 <= q < 2 * c[d].pairs
    ensures var s := After(st, steps);
            && q < VRINGS && d in s.controller.rows && |s.controller.rows[d]| == VRINGS
            && ((s.controller.rows[d][q] == 1 <==> q in s.sender.config[d].enabled) <==>
                !exists i: nat :: LatestSet(s.events, i, d, q) &&
                                  if q >= 2 then i < Birth(s.events, d) && TurnsOn(s.events[i])
                                  else !TurnsOn(s.events[i]))
  {
    QuietSettles(st, steps);
    var es := After(st, steps).events;
    FreshAgreeIff(es, d, q);
    PairsBounded(es, d);
    hide After, Possible, SenderOf, Replay, C.Delivered, LatestSet;
  }

  // ----- Readiness reaches the handler

  /** is_queue_ready between callbacks, in any run, for any id: the answer is about arrival
      number d, whichever device that was. */
  lemma {:induction false} ReadyNow(st: H.Settings, steps: seq<Step>, d: int, k: int)
    requires Possible(st, steps) && After(st, steps).pending == []
    ensures var s := After(st, steps);
            var es := s.events;
            Ready(s.sender.config, d, k) <==>
            && Present(es, d) && 0 <= k < es[Birth(es, d)].vringCount / 2
            && VringOn(es[Birth(es, d)..], d, 2 * k)
            && VringOn(es[Birth(es, d)..], d, 2 * k + 1)
  {
    RunSettles(st, steps);
    ReadyIff(After(st, steps).events, d, k);
    hide After, Possible, SenderOf, Present, VringOn, Birth, C.After, C.Possible, C.Delivered;
  }

  /** The callbacks whose starts have been sent: the one under way counts as soon as the record
      that may start a handler is written. */
  ghost function Heard(s: System): seq<Event>
    requires s.pending != [] ==> s.events != []
  {
    if s.pending == [] then s.events
    else HeardOf(s.events[..|s.events| - 1], s.events[|s.events| - 1], s.pending)
  }

  lemma {:induction false} StartsHeard(s: System, st: H.Settings)
    requires Inv(s, st)
    ensures AllLegal(Heard(s)) && AllInRange(s.sender.sent) && Starts(s.sender.sent) == StartsOf(Heard(s))
  {
    hide C.After, C.Possible, C.Delivered, ExecAll, Program, Starts, StartsOf, SocketsPaired, StartPending;
    if s.pending == [] {
      assert s.done + [] == s.done;
      SentStarts(s.events);
    } else {
      DoneSplits(s, st);
      var front, e := s.events[..|s.events| - 1], s.events[|s.events| - 1];
      assert s.events == front + [e];
      MidwayStarts(front, e, |Program(e)| - |s.pending|);
    }
  }

  /** In every state of every run the start() calls made and still in flight are those of the
      callbacks heard so far, in order, and the ones made are the first of them. */
  lemma {:induction false} CurrentStarts(st: H.Settings, steps: seq<Step>)
    requires Possible(st, steps)
    ensures var s := After(st, steps);
            var ms := C.Delivered(s.history);
            && AllInRange(ms) && AllInRange(ms + s.channel)
            && (s.pending != [] ==> s.events != [])
            && Starts(ms + s.channel) == StartsOf(Heard(s))
            && Starts(ms) <= StartsOf(Heard(s))
            && (s.channel == [] ==> Starts(ms) == StartsOf(Heard(s)))
  {
    hide Heard, Starts, StartsOf, Settled;
    RunSettles(st, steps);
    RunKeepsInv(st, steps);
    var s := After(st, steps);
    var ms := C.Delivered(s.history);
    hide After, Possible, C.After, C.Possible, C.Delivered;
    StartsHeard(s, st);
    assert (ms + s.channel)[..|ms|] == ms;
    assert s.channel == [] ==> ms + s.channel == ms;
    StartsPrefix(ms + s.channel, |ms|);
  }

  /** In every state of every run a start() of pair k of d was asked for by the callbacks heard
      so far; with an empty channel it has been called exactly when they asked for it. */
  lemma {:induction false} StartSeenIff(st: H.Settings, steps: seq<Step>, d: int, k: nat)
    requires Possible(st, steps)
    ensures var s := After(st, steps);
            && AllInRange(C.Delivered(s.history)) && (s.pending != [] ==> s.events != [])
            && var called := StartCall(k, d, 2 * k, 2 * k + 1) in Starts(C.Delivered(s.history));
               && (called ==> Asked(Heard(s), d, k))
               && (s.channel == [] ==> (called <==> Asked(Heard(s), d, k)))
  {
    hide Heard, Starts, StartsOf, Asked, After, Possible, C.Delivered;
    CurrentStarts(st, steps);
    AskedIff(Heard(After(st, steps)), d, k);
  }

  /** Queue 2k+1 of d is only enabled while 2k is on. */
  ghost predicate EvenFirst(es: seq<Event>, d: int, k: int) {
    forall i | 0 <= i < |es| && es[i] == VringState(d, 2 * k + 1, 1) :: VringOn(es[..i], d, 2 * k)
  }

  /** What lets readiness of pair k of d reach its handler: for pair 0 that a device with id d
      has arrived, for a later pair that its odd queue is only enabled while the even one is. */
  ghost predicate Announcing(es: seq<Event>, d: int, k: int) {
    if k == 0 then Arrived(es, d) else EvenFirst(es, d, k)
  }

  /** No record that enables the odd queue of pair k of d waits to be written. */
  predicate NoteWritten(s: System, d: int, k: int) {
    NotifyOp(0, d, 2 * k + 1, 1) !in s.pending
  }

  lemma {:induction false} ArrivalHeard(s: System, st: H.Settings, d: int)
    requires Inv(s, st) && NoteWritten(s, d, 0) && Arrived(s.events, d)
    ensures Arrived(Heard(s), d)
  {
    hide C.After, C.Possible, C.Delivered, ExecAll, Program, SocketsPaired, SameSender, StartPending;
    if s.pending != [] {
      DoneSplits(s, st);
      var front, e := s.events[..|s.events| - 1], s.events[|s.events| - 1];
      assert s.events == front + [e];
      PendingStart(e, |Program(e)| - |s.pending|);
      var i :| 0 <= i < |s.events| && s.events[i].NewDevice? && s.events[i].vid == d;
      assert i < |front| ==> Heard(s)[i] == s.events[i];
    }
  }

  lemma {:induction false} OddQueueHeard(s: System, st: H.Settings, d: int, k: int)
    requires Inv(s, st) && NoteWritten(s, d, k) && k >= 1 && Ready(s.sender.config, d, k)
    ensures exists i :: 0 <= i < |Heard(s)| && Heard(s)[i] == VringState(d, 2 * k + 1, 1)
  {
    hide C.After, C.Possible, C.Delivered, ExecAll, Program, SocketsPaired, StartPending, HeardOf;
    if s.pending == [] {
      assert s.done + [] == s.done;
      assert Bit(SenderOf(s.events).config, d, 2 * k + 1);
      HeldWasHeard(s.events, d, 2 * k + 1);
      assert Heard(s) == s.events;
    } else {
      DoneSplits(s, st);
      var front, e := s.events[..|s.events| - 1], s.events[|s.events| - 1];
      var m := |Program(e)| - |s.pending|;
      OddBitWasHeard(front, e, m, d, 2 * k + 1);
      assert Heard(s) == HeardOf(front, e, Program(e)[m..]);
    }
  }

  /** In any run, with the channel empty, even in the middle of a callback: a pair the
      configuration calls ready has had start() called on its handler with that id and the
      pair's queues, unless the very record that asks for it is still to be written. */
  lemma {:induction false} ReadinessReachesHandler(st: H.Settings, steps: seq<Step>, d: int, k: nat)
    requires Possible(st, steps) && After(st, steps).channel == [] && NoteWritten(After(st, steps), d, k)
    requires Ready(After(st, steps).sender.config, d, k) && Announcing(After(st, steps).events, d, k)
    ensures C.Possible(st, After(st, steps).history)
    ensures exists a | a in C.Attempts(st, After(st, steps).history) :: a.call == StartCall(k, d, 2 * k, 2 * k + 1)
  {
    hide Heard, Starts, Asked, Ready, Announcing, NoteWritten;
    var s := After(st, steps);
    RunSettles(st, steps);
    RunKeepsInv(st, steps);
    StartSeenIff(st, steps, d, k);
    hide After, Possible, Settled, C.After, C.Possible, C.Delivered, C.Attempts;
    ReadyWasAsked(s, st, d, k);
    CallsAreAttempted(s, st, StartCall(k, d, 2 * k, 2 * k + 1));
  }

  lemma {:induction false} ReadyWasAsked(s: System, st: H.Settings, d: int, k: nat)
    requires Inv(s, st) && NoteWritten(s, d, k) && Ready(s.sender.config, d, k) && Announcing(s.events, d, k)
    ensures Asked(Heard(s), d, k)
  {
    hide Inv, NoteWritten, Ready, VringOn;
    HeardIsPrefix(s, st);
    if k == 0 {
      ArrivalHeard(s, st, d);
    } else {
      OddQueueHeard(s, st, d, k);
      var i :| 0 <= i < |Heard(s)| && Heard(s)[i] == VringState(d, 2 * k + 1, 1);
      assert s.events[..i] == Heard(s)[..i];
    }
  }

  lemma {:induction false} HeardIsPrefix(s: System, st: H.Settings)
    requires Inv(s, st)
    ensures Heard(s) <= s.events
  {
    hide C.After, C.Possible, C.Delivered, ExecAll, AllOps, Program, SocketsPaired, SameSender, StartPending;
  }

  /** Every start() called has been attempted. */
  lemma {:induction false} CallsAreAttempted(s: System, st: H.Settings, call: StartCall)
    requires C.Possible(st, s.history) && AllInRange(C.Delivered(s.history))
    requires call in Starts(C.Delivered(s.history))
    ensures exists a | a in C.Attempts(st, s.history) :: a.call == call
  {
    C.AttemptsAreStarts(st, s.history);
    hide Starts, C.Attempts, C.Possible, C.Delivered;
    var i :| 0 <= i < |Starts(C.Delivered(s.history))| && Starts(C.Delivered(s.history))[i] == call;
    assert C.Attempts(st, s.history)[i].call == call;
  }

  // ----- Keys

  /** Between callbacks all keys of the configuration are below the port counter and every
      entry holds the id of its own arrival; in fresh runs that is the key itself. */
  lemma {:induction false} KeysBelowCounter(st: H.Settings, steps: seq<Step>, p: int)
    requires Possible(st, steps) && After(st, steps).pending == []
    requires p in After(st, steps).sender.config
    ensures var s := After(st, steps);
            var dev := s.sender.config[p];
            && 0 <= p < s.sender.portCntr && Birth(s.events, p) >= 0
            && dev.vid == s.events[Birth(s.events, p)].vid
            && (Fresh(s.events) ==> dev.vid == p)
  {
    RunSettles(st, steps);
    var es := After(st, steps).events;
    FreshKeys(es);
    ConfigMeaning(es, p);
    if Fresh(es) {
      FreshBirth(es, p);
    }
    hide After, Possible, SenderOf, Birth, C.After, C.Possible, C.Delivered;
  }

  /** Sockets are assigned at any moment, to keys present or not, in the middle of callbacks:
      the two data sockets of every slot stay equal in every state of every run. */
  lemma {:induction false} SocketsStayPaired(st: H.Settings, steps: seq<Step>, p: int, i: nat)
    requires Possible(st, steps) && p in After(st, steps).sender.config && i < MAX_QUEUE_PAIRS
    ensures var slot := After(st, steps).sender.config[p].sockets[i];
            slot.rxqId == slot.txqId
  {
    RunKeepsInv(st, steps);
  }

  /** In every state of every run, slot i of a live device's own pairs holds, for both directions,
      the descriptor last assigned to it since the device was initialised, or -1. */
  lemma {:induction false} SlotsNow(st: H.Settings, steps: seq<Step>, p: int, m: nat, i: nat)
    requires Possible(st, steps) && D.LastMakes(After(st, steps).trace, m, p)
    requires var c := After(st, steps).sender.config; p in c && i < c[p].pairs && i < MAX_QUEUE_PAIRS
    ensures var s := After(st, steps);
            var slot := s.sender.config[p].sockets[i];
            && (forall j: nat | D.LastAssigned(s.trace, m, j, p, i) ::
                  slot == PortQueuePair(s.trace[j].fd, s.trace[j].fd))
            && ((forall j: nat :: !D.LastAssigned(s.trace, m, j, p, i)) ==> slot == PortQueuePair(-1, -1))
  {
    RunKeepsInv(st, steps);
    D.SlotSinceArrival("Loopback", After(st, steps).trace, p, m, i);
    hide After, Possible, ExecAll, C.After, C.Possible, C.Delivered;
  }

  /** Two splits of a list with the second parts of equal length are the same split. */
  lemma {:induction false} SameSplit<T>(a: seq<T>, b: seq<T>, c: seq<T>, d: seq<T>)
    requires a + b == c + d && |b| == |d|
    ensures a == c && b == d
  {
    assert a == (a + b)[..|a|] == (c + d)[..|c|] == c;
    assert b == (a + b)[|a|..] == (c + d)[|c|..] == d;
  }

  /** Initialisation is the first operation of an arrival and of nothing else. */
  lemma {:induction false} InitComesFirst(e: Event, before: seq<Op>, pending: seq<Op>, all: seq<Op>)
    requires before + pending == all + Program(e)
    requires 0 < |pending| <= |Program(e)| && pending[0].InitOp?
    ensures before == all && pending == Program(e)
  {
    var rest := |Program(e)| - |pending|;
    assert (before + pending)[|before|] == pending[0];
    assert (all + Program(e))[|all| + rest] == Program(e)[rest];
    SameSplit(before, pending, all, Program(e));
  }

  /** Whenever an entry is about to be initialised, its key is absent: no stale pair data
      survives into a new device. */
  lemma {:induction false} InitMeetsAbsentKey(st: H.Settings, steps: seq<Step>)
    requires Possible(st, steps)
    requires var s := After(st, steps); s.pending != [] && s.pending[0].InitOp?
    ensures After(st, steps).sender.portCntr !in After(st, steps).sender.config
  {
    hide After, Possible, C.After, C.Possible, C.Delivered, Exec, ExecAll, Program, SocketsPaired;
    RunKeepsInv(st, steps);
    var s := After(st, steps);
    var n := |s.events| - 1;
    InitComesFirst(s.events[n], s.done, s.pending, AllOps(s.events[..n]));
    FreshKeys(s.events[..n]);
  }

  // ----- Handler 0 and arrivals

  function ArrivalVids(es: seq<Event>): seq<int> {
    if es == [] then []
    else ArrivalVids(es[..|es| - 1]) + match es[|es| - 1]
                                       case NewDevice(v, _) => [v]
                                       case _ => []
  }

  /** The devices whose second record is among ms, in order. */
  function Announced(ms: seq<RingState>): seq<int> {
    if ms == [] then []
    else
      var m := ms[|ms| - 1];
      Announced(ms[..|ms| - 1]) + if m.Addresses(m.deviceId, 1) then [m.deviceId] else []
  }

  function CallsOn(calls: seq<StartCall>, handler: int): seq<StartCall> {
    if calls == [] then []
    else
      var c := calls[|calls| - 1];
      CallsOn(calls[..|calls| - 1], handler) + if c.handler == handler then [c] else []
  }

  function PairZeroCalls(vids: seq<int>): seq<StartCall> {
    seq(|vids|, i requires 0 <= i < |vids| => StartCall(0, vids[i], 0, 1))
  }

  /** Records for vring 1 only ever enable it, and find vring 0 of their device enabled. */
  ghost predicate AnnouncedInOrder(ms: seq<RingState>) {
    forall i | 0 <= i < |ms| && ms[i].Addresses(ms[i].deviceId, 1) ::
      ms[i].enable == 1 && LastOn(ms[..i], ms[i].deviceId, 0)
  }

  lemma {:induction false} AnnouncedStep(ms: seq<RingState>, m: RingState)
    requires AnnouncedInOrder(ms)
    requires m.Addresses(m.deviceId, 1) ==> m.enable == 1 && LastOn(ms, m.deviceId, 0)
    ensures AnnouncedInOrder(ms + [m])
    ensures Announced(ms + [m]) == Announced(ms) + if m.Addresses(m.deviceId, 1) then [m.deviceId] else []
  {
    var ms' := ms + [m];
    assert ms'[..|ms|] == ms;
    forall i | 0 <= i < |ms'| && ms'[i].Addresses(ms'[i].deviceId, 1)
      ensures ms'[i].enable == 1 && LastOn(ms'[..i], ms'[i].deviceId, 0)
    {
      if i < |ms| {
        assert ms'[i] == ms[i] && ms'[..i] == ms[..i];
      }
    }
  }

  lemma {:induction false} ArrivalAnnounces(ms: seq<RingState>, port: int, v: int)
    requires AnnouncedInOrder(ms)
    ensures var ms' := ms + [RingState(0, port, v, 0, 1)] + [RingState(0, port, v, 1, 1)];
            AnnouncedInOrder(ms') && Announced(ms') == Announced(ms) + [v]
  {
    hide AnnouncedInOrder, Announced, LastOn;
    var m0, m1 := RingState(0, port, v, 0, 1), RingState(0, port, v, 1, 1);
    AnnouncedStep(ms, m0);
    LastOnAppends(ms, m0, v, 0);
    AnnouncedStep(ms + [m0], m1);
    assert Announced(ms) + [] == Announced(ms);
  }

  lemma {:induction false} SentAnnounces(es: seq<Event>)
    requires AllLegal(es)
    ensures AnnouncedInOrder(SenderOf(es).sent)
    ensures Announced(SenderOf(es).sent) == ArrivalVids(es)
  {
    if es != [] {
      var n := |es| - 1;
      var front := es[..n];
      SentAnnounces(front);
      SenderFacts(front);
      assert es == front + [es[n]];
      SentStep(front, es[n]);
      var s := SenderOf(front);
      hide SenderOf, AnnouncedInOrder, Announced;
      match es[n] {
        case NewDevice(v, _) =>
          ArrivalAnnounces(s.sent, s.portCntr, v);
        case VringState(v, q, en) =>
          if q >= 2 {
            AnnouncedStep(s.sent, RingState(0, s.portCntr, v, q, en));
          }
        case Destroy(v) =>
          AnnouncedStep(s.sent, RingState(1, s.portCntr, v, 0, 0));
      }
    }
  }

  lemma {:induction false} HandlerZeroFollows(ms: seq<RingState>)
    requires AllInRange(ms) && AnnouncedInOrder(ms)
    ensures CallsOn(Starts(ms), 0) == PairZeroCalls(Announced(ms))
  {
    if ms != [] {
      var n := |ms| - 1;
      var front := ms[..n];
      assert AnnouncedInOrder(front) by {
        forall i | 0 <= i < n && front[i].Addresses(front[i].deviceId, 1)
          ensures front[i].enable == 1 && LastOn(front[..i], front[i].deviceId, 0)
        {
          assert front[i] == ms[i] && front[..i] == ms[..i];
        }
      }
      HandlerZeroFollows(front);
      assert ms == front + [ms[n]];
      StartsStep(front, ms[n]);
      hide Starts, Triggers, Replay, LastOn;
      var m := ms[n];
      var vids := Announced(front);
      assert (Starts(front) + [CallFor(m)])[..|Starts(front)|] == Starts(front);
      assert PairZeroCalls(vids + [m.deviceId]) == PairZeroCalls(vids) + [StartCall(0, m.deviceId, 0, 1)];
      if m.Addresses(m.deviceId, 1) {
        assert AnnouncedInOrder(ms) && m.enable == 1 && LastOn(ms[..n], m.deviceId, 0);
      } else {
        assert Announced(ms) == vids + [] == vids;
        assert Starts(front) + [] == Starts(front);
        assert Triggers(Replay(front), m) ==> m.qid / 2 != 0;
      }
    }
  }

  lemma {:induction false} AnnouncedPrefix(ms: seq<RingState>, n: nat)
    requires n <= |ms|
    ensures Announced(ms[..n]) <= Announced(ms)
    ensures AnnouncedInOrder(ms) ==> AnnouncedInOrder(ms[..n])
  {
    if n == |ms| {
      assert ms[..n] == ms;
    } else {
      AnnouncedPrefix(ms[..|ms| - 1], n);
      assert ms[..|ms| - 1][..n] == ms[..n];
      if AnnouncedInOrder(ms) {
        forall i | 0 <= i < n && ms[..n][i].Addresses(ms[..n][i].deviceId, 1)
          ensures ms[..n][i].enable == 1 && LastOn(ms[..n][..i], ms[..n][i].deviceId, 0)
        {
          assert ms[..n][i] == ms[i] && ms[..n][..i] == ms[..i];
        }
      }
    }
  }

  /** In every state of every run, the start() calls on handler 0 are, one for one and in
      order, those of the first arrivals: the ones whose second record has been delivered. */
  lemma {:induction false} PairZeroOncePerArrival(st: H.Settings, steps: seq<Step>)
    requires Possible(st, steps)
    ensures var s := After(st, steps);
            var ms := C.Delivered(s.history);
            && AllInRange(ms)
            && Announced(ms) <= ArrivalVids(s.events)
            && CallsOn(Starts(ms), 0) == PairZeroCalls(ArrivalVids(s.events)[..|Announced(ms)|])
  {
    hide *;
    RunSettles(st, steps);
    var s := After(st, steps);
    var ms := C.Delivered(s.history);
    var sent := Settled(s).sent;
    assert ms == sent[..|ms|];
    SentAnnounces(s.events);
    AnnouncedPrefix(sent, |ms|);
    HandlerZeroFollows(ms);
    assert Announced(ms) <= ArrivalVids(s.events);
    assert Announced(ms) == ArrivalVids(s.events)[..|Announced(ms)|];
  }

  // ----- Launches and exits in the whole system

  /** In every run of the system, whatever DPDK refuses: each device and pair has its workers
      launched at most once, launches share no resource, and a worker that left its loop did
      so after a destroy record reached the controller, and that after its own store. */
  lemma {:induction false} LaunchAndExitSafety(st: H.Settings, steps: seq<Step>)
    requires Possible(st, steps)
    ensures var s := After(st, steps);
            && C.Possible(st, s.history)
            && (forall i, j | 0 <= i < j < |C.Launches(st, s.history)| ::
                  C.Apart(C.Launches(st, s.history)[i], C.Launches(st, s.history)[j]))
            && (forall k: nat, i: nat | k < C.HANDLERS && i < |s.controller.handlers[k].life.workers| ::
                  s.controller.handlers[k].life.workers[i].Finished? ==>
                  C.DestroyedAfterStore(st, s.history, k, i))
  {
    RunSettles(st, steps);
    var s := After(st, steps);
    C.AtMostOneLaunch(st, s.history);
    forall k: nat, i: nat | k < C.HANDLERS && i < |s.controller.handlers[k].life.workers|
                            && s.controller.handlers[k].life.workers[i].Finished?
      ensures C.DestroyedAfterStore(st, s.history, k, i)
    {
      C.ExitFollowsDestroy(st, s.history, k, i);
    }
  }

  /** End to end: in any run in loopback mode where DPDK refuses nothing but duplicate names,
      a pair the configuration calls ready, with its readiness announced and the announcing
      record written, has its workers launched, exactly once, as soon as the channel is empty. */
  lemma {:induction false} ReadyPairsRun(st: H.Settings, steps: seq<Step>, d: int, k: nat)
    requires Possible(st, steps) && After(st, steps).channel == [] && NoteWritten(After(st, steps), d, k)
    requires H.WorkersFor(st) > 0 && C.AllGranted(After(st, steps).history)
    requires Ready(After(st, steps).sender.config, d, k) && Announcing(After(st, steps).events, d, k)
    ensures C.Possible(st, After(st, steps).history)
    ensures exists i: nat :: C.SoleLaunch(C.Launches(st, After(st, steps).history), i, d, k)
  {
    ReadinessReachesHandler(st, steps, d, k);
    hide *;
    var history := After(st, steps).history;
    var a :| a in C.Attempts(st, history) && a.call == StartCall(k, d, 2 * k, 2 * k + 1);
    C.GrantedAttemptLaunchesOnce(st, history, a);
  }

  /** Where DPDK refuses nothing but duplicate names: in every state pair k of d has had workers
      launched exactly when its start() has been called, hence only if the callbacks heard so
      far asked for it, and with an empty channel exactly then. Removals do not matter. */
  lemma {:induction false} LaunchSeenIff(st: H.Settings, steps: seq<Step>, d: int, k: nat)
    requires Possible(st, steps)
    requires H.WorkersFor(st) > 0 && C.AllGranted(After(st, steps).history)
    ensures var s := After(st, steps);
            && C.Possible(st, s.history) && AllInRange(C.Delivered(s.history))
            && (s.pending != [] ==> s.events != [])
            && var launched := C.HasLaunch(C.Launches(st, s.history), d, 2 * k + 1);
               && (launched <==> StartCall(k, d, 2 * k, 2 * k + 1) in Starts(C.Delivered(s.history)))
               && (launched ==> Asked(Heard(s), d, k))
               && (s.channel == [] ==> (launched <==> Asked(Heard(s), d, k)))
  {
    RunSettles(st, steps);
    var s := After(st, steps);
    C.LaunchWasCalled(st, s.history, d, k);
    StartSeenIff(st, steps, d, k);
    hide After, Possible, Settled, Starts, Asked, Heard, C.After, C.Possible, C.Delivered, C.Attempts, C.Launches;
    var call := StartCall(k, d, 2 * k, 2 * k + 1);
    if call in Starts(C.Delivered(s.history)) {
      CallsAreAttempted(s, st, call);
      C.GrantedAttemptsLaunch(st, s.history);
    }
  }

  // ----- Every list of callbacks can be played out

  lemma {:induction false} Extend(st: H.Settings, steps: seq<Step>, step: Step)
    requires Possible(st, steps) && Enabled(After(st, steps), step)
    ensures Possible(st, steps + [step])
    ensures After(st, steps + [step]) == Next(After(st, steps), st, step)
  {
    assert (steps + [step])[..|steps|] == steps;
  }

  /** Lets the running callback finish and everything in flight arrive, all with grants g. */
  lemma {:induction false} PlayOut(st: H.Settings, steps: seq<Step>, g: H.Grants) returns (steps': seq<Step>)
    requires Possible(st, steps)
    ensures Possible(st, steps') && Quiet(After(st, steps'))
    ensures After(st, steps').events == After(st, steps).events
    ensures C.GrownBy(After(st, steps).history, After(st, steps').history, g)
    decreases |After(st, steps).pending|, |After(st, steps).channel|
  {
    hide After, Possible, C.After, C.Possible, C.Next, Exec, ExecAll;
    var s := After(st, steps);
    if Quiet(s) {
      return steps;
    }
    var step := Advance;
    if s.pending == [] {
      RunSettles(st, steps);
      assert s.channel[0] == (C.Delivered(s.history) + s.channel)[|C.Delivered(s.history)|];
      step := Receive(g);
    }
    Extend(st, steps, step);
    steps' := PlayOut(st, steps + [step], g);
  }

  lemma {:induction false} PlayOne(st: H.Settings, steps: seq<Step>, e: Event, g: H.Grants) returns (steps': seq<Step>)
    requires Possible(st, steps) && Quiet(After(st, steps)) && Legal(e)
    ensures Possible(st, steps') && Quiet(After(st, steps'))
    ensures After(st, steps').events == After(st, steps).events + [e]
    ensures C.GrownBy(After(st, steps).history, After(st, steps').history, g)
  {
    hide After, Possible;
    Extend(st, steps, Begin(e));
    steps' := PlayOut(st, steps + [Begin(e)], g);
  }

  lemma {:induction false} PlayAll(st: H.Settings, steps: seq<Step>, es: seq<Event>, g: H.Grants)
    returns (steps': seq<Step>)
    requires Possible(st, steps) && Quiet(After(st, steps)) && AllLegal(es)
    ensures Possible(st, steps') && Quiet(After(st, steps'))
    ensures After(st, steps').events == After(st, steps).events + es
    ensures C.GrownBy(After(st, steps).history, After(st, steps').history, g)
  {
    hide After, Possible;
    if es == [] {
      steps' := steps;
      assert After(st, steps).events + es == After(st, steps).events;
    } else {
      LegalSplit(es);
      var front := PlayAll(st, steps, es[..|es| - 1], g);
      steps' := PlayOne(st, front, es[|es| - 1], g);
      assert After(st, steps).events + es[..|es| - 1] + [es[|es| - 1]] == After(st, steps).events + es;
    }
  }

  /** From the start, every legal list of callbacks can be played out until nothing is in
      flight: the conditions above speak about states that exist. */
  lemma {:induction false} EveryHistoryRuns(st: H.Settings, es: seq<Event>)
    requires AllLegal(es)
    ensures exists steps :: Possible(st, steps) && Quiet(After(st, steps)) && After(st, steps).events == es
  {
    var steps := PlayAll(st, [], es, H.Grants(true, true, true));
    assert [] + es == es;
  }
}
