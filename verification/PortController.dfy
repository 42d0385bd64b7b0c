/** The loopback port controller: process_notification over eight handlers and the DPDK
    registry, run by record deliveries and interleaved worker steps. */
module PortController {
  import opened Records
  import opened Replica
  import opened Names
  import opened PortHandler
  import L = Lifecycle

  const HANDLERS: nat := 8

  datatype Controller = Controller(rows: Rows, ready: bool, handlers: seq<Handler>, dpdk: Dpdk)

  datatype Step = Deliver(record: RingState, grants: Grants) | Work(handler: nat, worker: nat)

  predicate WellFormed(c: Controller) {
    Full(c.rows) && |c.handlers| == HANDLERS
  }

  function NewController(): Controller {
    Controller(map[], false, seq(HANDLERS, _ => NEW_HANDLER), Dpdk({}, {}))
  }

  function Stopped(h: Handler): Handler {
    h.(life := L.Next(h.life, L.Stop))
  }

  function Aimed(h: Handler, call: StartCall): Handler {
    h.(vid := call.vid, rxqid := call.rxqid, txqid := call.txqid)
  }

  /** The start() call record m makes, with its outcome. */
  function StartFor(c: Controller, s: Settings, m: RingState, g: Grants): (Handler, Dpdk, StartResult)
    requires WellFormed(c) && m.InRange() && Triggers(c.rows, m)
  {
    AfterStart(Aimed(c.handlers[m.qid / 2], CallFor(m)), c.dpdk, s, g)
  }

  function Process(c: Controller, s: Settings, m: RingState, g: Grants): (c': Controller)
    requires WellFormed(c) && m.InRange()
    ensures WellFormed(c')
  {
    if m.IsDestroy() then c.(handlers := seq(HANDLERS, k requires 0 <= k < HANDLERS => Stopped(c.handlers[k])))
    else
      var c1 := c.(rows := Apply(c.rows, m), ready := NextReady(c.ready, c.rows, m));
      if !Triggers(c.rows, m) then c1
      else
        var (h, d, _) := StartFor(c, s, m, g);
        c1.(handlers := c.handlers[m.qid / 2 := h], dpdk := d)
  }

  predicate Enabled(c: Controller, step: Step)
    requires WellFormed(c)
  {
    match step
    case Deliver(m, _) => m.InRange()
    case Work(k, i) => k < HANDLERS && L.Enabled(c.handlers[k].life, L.Work(i))
  }

  function Next(c: Controller, s: Settings, step: Step): (c': Controller)
    requires WellFormed(c) && Enabled(c, step)
    ensures WellFormed(c')
  {
    match step
    case Deliver(m, g) => Process(c, s, m, g)
    case Work(k, i) =>
      c.(handlers := c.handlers[k := c.handlers[k].(life := L.Next(c.handlers[k].life, L.Work(i)))])
  }

  predicate Possible(s: Settings, steps: seq<Step>)
    decreases |steps|, 0
  {
    steps != [] ==>
      && Possible(s, steps[..|steps| - 1])
      && Enabled(After(s, steps[..|steps| - 1]), steps[|steps| - 1])
  }

  /** The controller after a run from its construction. */
  function After(s: Settings, steps: seq<Step>): (c: Controller)
    requires Possible(s, steps)
    ensures WellFormed(c)
    decreases |steps|, 1
  {
    if steps == [] then NewController()
    else Next(After(s, steps[..|steps| - 1]), s, steps[|steps| - 1])
  }

  lemma {:induction false} AfterStep(s: Settings, steps: seq<Step>, step: Step)
    requires Possible(s, steps) && Enabled(After(s, steps), step)
    ensures Possible(s, steps + [step])
    ensures After(s, steps + [step]) == Next(After(s, steps), s, step)
  {
    assert (steps + [step])[..|steps|] == steps;
  }

  function Delivered(steps: seq<Step>): seq<RingState> {
    if steps == [] then []
    else Delivered(steps[..|steps| - 1]) + match steps[|steps| - 1]
                                           case Deliver(m, _) => [m]
                                           case Work(_, _) => []
  }

  lemma {:induction false} DeliveredStep(steps: seq<Step>, step: Step)
    ensures Delivered(steps + [step]) == Delivered(steps) + if step.Deliver? then [step.record] else []
  {
    assert (steps + [step])[..|steps|] == steps;
  }

  lemma {:induction false} ControllerReplays(s: Settings, steps: seq<Step>)
    requires Possible(s, steps)
    ensures AllInRange(Delivered(steps))
    ensures After(s, steps).rows == Replay(Delivered(steps))
  {
    if steps != [] {
      var front := steps[..|steps| - 1];
      ControllerReplays(s, front);
      match steps[|steps| - 1] {
        case Deliver(m, _) => StartsStep(Delivered(front), m);
        case Work(_, _) => assert Delivered(steps) == Delivered(front);
      }
    }
  }

  // ----- Start attempts and launches of a run

  datatype Attempt = Attempt(call: StartCall, grants: Grants)

  datatype Launched = Launched(vid: int, rxqid: int, txqid: int, workers: nat,
                               txPool: Option<string>, rxPool: Option<string>, ring: Option<string>)

  function Attempts(s: Settings, steps: seq<Step>): seq<Attempt>
    requires Possible(s, steps)
  {
    if steps == [] then []
    else
      var front := steps[..|steps| - 1];
      Attempts(s, front) + match steps[|steps| - 1]
                           case Deliver(m, g) =>
                             if Triggers(After(s, front).rows, m) then [Attempt(CallFor(m), g)] else []
                           case Work(_, _) => []
  }

  /** What a delivery launches: the handler's own fields when start() has launched workers. */
  function LaunchesOf(c: Controller, s: Settings, m: RingState, g: Grants): seq<Launched>
    requires WellFormed(c) && m.InRange()
  {
    if !Triggers(c.rows, m) then []
    else
      var (h, _, result) := StartFor(c, s, m, g);
      if result.Started? && result.workers > 0
      then [Launched(h.vid, h.rxqid, h.txqid, result.workers, h.txPool, h.rxPool, h.rxRing)]
      else []
  }

  function Launches(s: Settings, steps: seq<Step>): seq<Launched>
    requires Possible(s, steps)
  {
    if steps == [] then []
    else
      var front := steps[..|steps| - 1];
      Launches(s, front) + match steps[|steps| - 1]
                           case Deliver(m, g) => LaunchesOf(After(s, front), s, m, g)
                           case Work(_, _) => []
  }

  /** The calls attempted in a run are the ones its delivered records ask for. */
  lemma {:induction false} AttemptsAreStarts(s: Settings, steps: seq<Step>)
    requires Possible(s, steps)
    ensures AllInRange(Delivered(steps))
    ensures |Attempts(s, steps)| == |Starts(Delivered(steps))|
    ensures forall i | 0 <= i < |Attempts(s, steps)| :: Attempts(s, steps)[i].call == Starts(Delivered(steps))[i]
  {
    ControllerReplays(s, steps);
    if steps != [] {
      var front := steps[..|steps| - 1];
      AttemptsAreStarts(s, front);
      ControllerReplays(s, front);
      match steps[|steps| - 1] {
        case Deliver(m, _) => StartsStep(Delivered(front), m);
        case Work(_, _) => assert Delivered(steps) == Delivered(front);
      }
    }
  }

  /** A start() for device v and transmit queue q that was granted its transmit pool. */
  predicate TakesPool(a: Attempt, v: int, q: int) {
    a.call.vid == v && a.call.txqid == q && a.grants.txPool
  }

  /** An earlier start() for device v and transmit queue q was granted its transmit pool. */
  ghost predicate PoolTaken(attempts: seq<Attempt>, v: int, q: int) {
    exists a | a in attempts :: TakesPool(a, v, q)
  }

  /** The live names, in terms of the attempts: nothing is freed before the handlers die. */
  ghost predicate RegistryMatches(d: Dpdk, attempts: seq<Attempt>) {
    && (forall v, q :: TxPoolName(v, q) in d.pools <==> PoolTaken(attempts, v, q))
    && (forall v, q :: RxPoolName(v, q - 1) in d.pools ==> PoolTaken(attempts, v, q))
    && (forall v, q :: TxRingName(v, q) in d.rings ==> PoolTaken(attempts, v, q))
  }

  lemma {:induction false} PoolTakenGrows(attempts: seq<Attempt>, a: Attempt, v: int, q: int)
    ensures PoolTaken(attempts + [a], v, q) <==> PoolTaken(attempts, v, q) || TakesPool(a, v, q)
  {
    assert a in attempts + [a];
    forall b | b in attempts
      ensures b in attempts + [a]
    {
    }
  }

  lemma {:induction false} AttemptKeepsRegistry(h: Handler, d: Dpdk, s: Settings, call: StartCall, g: Grants,
                                                attempts: seq<Attempt>)
    requires RegistryMatches(d, attempts)
    requires h.vid == call.vid && h.txqid == call.txqid && h.rxqid == call.rxqid == call.txqid - 1
    ensures RegistryMatches(AfterStart(h, d, s, g).1, attempts + [Attempt(call, g)])
  {
    hide TxPoolName, RxPoolName, TxRingName;
    var d' := AfterStart(h, d, s, g).1;
    var attempts' := attempts + [Attempt(call, g)];
    forall v, q
      ensures TxPoolName(v, q) in d'.pools <==> PoolTaken(attempts', v, q)
      ensures RxPoolName(v, q - 1) in d'.pools ==> PoolTaken(attempts', v, q)
      ensures TxRingName(v, q) in d'.rings ==> PoolTaken(attempts', v, q)
    {
      NamesInjective(v, q, call.vid, call.txqid);
      NamesInjective(v, q, call.vid, call.rxqid);
      NamesInjective(v, q - 1, call.vid, call.rxqid);
      NamesInjective(call.vid, call.txqid, v, q - 1);
      PoolTakenGrows(attempts, Attempt(call, g), v, q);
    }
  }

  lemma {:induction false} RegistryFollowsAttempts(s: Settings, steps: seq<Step>)
    requires Possible(s, steps)
    ensures RegistryMatches(After(s, steps).dpdk, Attempts(s, steps))
  {
    if steps != [] {
      var front := steps[..|steps| - 1];
      var c := After(s, front);
      RegistryFollowsAttempts(s, front);
      match steps[|steps| - 1] {
        case Deliver(m, g) =>
          if Triggers(c.rows, m) {
            var h := Aimed(c.handlers[m.qid / 2], CallFor(m));
            AttemptKeepsRegistry(h, c.dpdk, s, CallFor(m), g, Attempts(s, front));
          } else {
            assert Attempts(s, steps) == Attempts(s, front);
          }
        case Work(_, _) => assert Attempts(s, steps) == Attempts(s, front);
      }
    }
  }

  /** One start() call, when a live transmit pool name is a witness for the other two names. */
  lemma {:induction false} StartLaunches(c: Controller, s: Settings, m: RingState, g: Grants)
    requires WellFormed(c) && m.InRange() && Triggers(c.rows, m)
    requires RxPoolName(m.deviceId, m.qid - 1) in c.dpdk.pools ==> TxPoolName(m.deviceId, m.qid) in c.dpdk.pools
    requires TxRingName(m.deviceId, m.qid) in c.dpdk.rings ==> TxPoolName(m.deviceId, m.qid) in c.dpdk.pools
    ensures LaunchesOf(c, s, m, g) ==
            if WorkersFor(s) > 0 && g == Grants(true, true, true) && TxPoolName(m.deviceId, m.qid) !in c.dpdk.pools
            then [Launched(m.deviceId, m.qid - 1, m.qid, WorkersFor(s),
                           Some(TxPoolName(m.deviceId, m.qid)),
                           Some(RxPoolName(m.deviceId, m.qid - 1)),
                           Some(TxRingName(m.deviceId, m.qid)))]
            else []
  {
    NamesInjective(m.deviceId, m.qid, m.deviceId, m.qid - 1);
    hide TxPoolName, RxPoolName, TxRingName, Apply, PairOn;
  }

  /** A delivery launches workers exactly when it is an odd enable that completes its pair,
      everything can be created, and no earlier start() for the same device and queue got its
      transmit pool. It then launches them with resources named after device and queues. In
      particular a start() that fails after its first creation is never made good later. */
  lemma {:induction false} ExactLaunch(s: Settings, steps: seq<Step>, m: RingState, g: Grants)
    requires Possible(s, steps) && m.InRange()
    ensures AllInRange(Delivered(steps))
    ensures Possible(s, steps + [Deliver(m, g)])
    ensures Launches(s, steps + [Deliver(m, g)]) ==
            if && WorkersFor(s) > 0
               && m.meta != 1 && m.qid % 2 == 1 && m.enable == 1 && LastOn(Delivered(steps), m.deviceId, m.qid - 1)
               && g == Grants(true, true, true)
               && !PoolTaken(Attempts(s, steps), m.deviceId, m.qid)
            then Launches(s, steps) + [Launched(m.deviceId, m.qid - 1, m.qid, WorkersFor(s),
                                                Some(TxPoolName(m.deviceId, m.qid)),
                                                Some(RxPoolName(m.deviceId, m.qid - 1)),
                                                Some(TxRingName(m.deviceId, m.qid)))]
            else Launches(s, steps)
  {
    hide TxPoolName, RxPoolName, TxRingName, StartFor, Process;
    AfterStep(s, steps, Deliver(m, g));
    assert (steps + [Deliver(m, g)])[..|steps|] == steps;
    ControllerReplays(s, steps);
    StartsStep(Delivered(steps), m);
    RegistryFollowsAttempts(s, steps);
    var c := After(s, steps);
    assert TxPoolName(m.deviceId, m.qid) in c.dpdk.pools <==> PoolTaken(Attempts(s, steps), m.deviceId, m.qid);
    assert RxPoolName(m.deviceId, m.qid - 1) in c.dpdk.pools ==> PoolTaken(Attempts(s, steps), m.deviceId, m.qid);
    assert TxRingName(m.deviceId, m.qid) in c.dpdk.rings ==> PoolTaken(Attempts(s, steps), m.deviceId, m.qid);
    if Triggers(c.rows, m) {
      StartLaunches(c, s, m, g);
    }
  }

  ghost predicate Apart(a: Launched, b: Launched) {
    && (a.vid != b.vid || a.txqid / 2 != b.txqid / 2)
    && {a.txPool, a.rxPool} !! {b.txPool, b.rxPool}
    && a.ring != b.ring
  }

  /** The launch serves an odd queue and its even partner, with resources named after them. */
  ghost predicate Named(l: Launched) {
    && l.txqid % 2 == 1 && l.rxqid == l.txqid - 1
    && l.txPool == Some(TxPoolName(l.vid, l.txqid))
    && l.rxPool == Some(RxPoolName(l.vid, l.rxqid))
    && l.ring == Some(TxRingName(l.vid, l.txqid))
  }

  lemma {:induction false} NamedApart(a: Launched, b: Launched)
    requires Named(a) && Named(b) && (a.vid != b.vid || a.txqid != b.txqid)
    ensures Apart(a, b)
  {
    NamesInjective(a.vid, a.txqid, b.vid, b.txqid);
    NamesInjective(a.vid, a.rxqid, b.vid, b.rxqid);
    NamesInjective(a.vid, a.txqid, b.vid, b.rxqid);
    NamesInjective(b.vid, b.txqid, a.vid, a.rxqid);
    hide TxPoolName, RxPoolName, TxRingName;
  }

  lemma {:induction false} AttemptsStep(s: Settings, steps: seq<Step>, m: RingState, g: Grants)
    requires Possible(s, steps) && m.InRange()
    ensures AllInRange(Delivered(steps)) && Possible(s, steps + [Deliver(m, g)])
    ensures Attempts(s, steps + [Deliver(m, g)]) == Attempts(s, steps) +
            if m.meta != 1 && m.qid % 2 == 1 && m.enable == 1 && LastOn(Delivered(steps), m.deviceId, m.qid - 1)
            then [Attempt(CallFor(m), g)] else []
  {
    AfterStep(s, steps, Deliver(m, g));
    assert (steps + [Deliver(m, g)])[..|steps|] == steps;
    ControllerReplays(s, steps);
    StartsStep(Delivered(steps), m);
  }

  lemma {:induction false} DeliveryTakesPools(s: Settings, steps: seq<Step>, m: RingState, g: Grants)
    requires Possible(s, steps) && m.InRange()
    requires forall l | l in Launches(s, steps) :: Named(l) && PoolTaken(Attempts(s, steps), l.vid, l.txqid)
    ensures Possible(s, steps + [Deliver(m, g)])
    ensures forall l | l in Launches(s, steps + [Deliver(m, g)]) ::
              Named(l) && PoolTaken(Attempts(s, steps + [Deliver(m, g)]), l.vid, l.txqid)
  {
    hide Launches, Attempts, After, Possible, LastOn, Delivered, PoolTaken, TxPoolName, RxPoolName, TxRingName;
    ExactLaunch(s, steps, m, g);
    AttemptsStep(s, steps, m, g);
    forall l | l in Launches(s, steps + [Deliver(m, g)])
      ensures PoolTaken(Attempts(s, steps + [Deliver(m, g)]), l.vid, l.txqid)
    {
      PoolTakenGrows(Attempts(s, steps), Attempt(CallFor(m), g), l.vid, l.txqid);
      assert Attempts(s, steps) + [] == Attempts(s, steps);
    }
  }

  lemma {:induction false} LaunchesTakePools(s: Settings, steps: seq<Step>)
    requires Possible(s, steps)
    ensures forall l | l in Launches(s, steps) :: Named(l) && PoolTaken(Attempts(s, steps), l.vid, l.txqid)
  {
    if steps != [] {
      var front := steps[..|steps| - 1];
      LaunchesTakePools(s, front);
      match steps[|steps| - 1] {
        case Deliver(m, g) =>
          assert steps == front + [Deliver(m, g)];
          DeliveryTakesPools(s, front, m, g);
        case Work(_, _) =>
      }
    }
  }

  /** Over any run, whatever is delivered and whatever fails, each device and queue pair has
      its workers launched at most once, and no two launches share a pool or a ring. */
  lemma {:induction false} AtMostOneLaunch(s: Settings, steps: seq<Step>)
    requires Possible(s, steps)
    ensures forall i, j | 0 <= i < j < |Launches(s, steps)| :: Apart(Launches(s, steps)[i], Launches(s, steps)[j])
  {
    hide Named, Apart, LastOn, LaunchesOf;
    if steps != [] {
      var front := steps[..|steps| - 1];
      AtMostOneLaunch(s, front);
      match steps[|steps| - 1] {
        case Deliver(m, g) =>
          assert steps == front + [Deliver(m, g)];
          ExactLaunch(s, front, m, g);
          LaunchesTakePools(s, front);
          LaunchesTakePools(s, steps);
          var old', new' := Launches(s, front), Launches(s, steps);
          forall i, j | 0 <= i < j < |new'|
            ensures Apart(new'[i], new'[j])
          {
            if j == |old'| {
              assert old'[i] in old' && new'[j] in new';
              NamedApart(old'[i], new'[j]);
            }
          }
        case Work(_, _) =>
      }
    }
  }

  function LaunchesFor(ls: seq<Launched>, v: int, q: int): seq<Launched> {
    if ls == [] then []
    else
      var l := ls[|ls| - 1];
      LaunchesFor(ls[..|ls| - 1], v, q) + if l.vid == v && l.txqid == q then [l] else []
  }

  lemma {:induction false} StepLaunchesNone(s: Settings, steps: seq<Step>, step: Step, v: int, q: int)
    requires Possible(s, steps + [step]) && Possible(s, steps) && PoolTaken(Attempts(s, steps), v, q)
    ensures PoolTaken(Attempts(s, steps + [step]), v, q)
    ensures LaunchesFor(Launches(s, steps + [step]), v, q) == LaunchesFor(Launches(s, steps), v, q)
  {
    assert (steps + [step])[..|steps|] == steps;
    match step {
      case Deliver(m, g) =>
        ExactLaunch(s, steps, m, g);
        if Triggers(After(s, steps).rows, m) {
          PoolTakenGrows(Attempts(s, steps), Attempt(CallFor(m), g), v, q);
        }
        hide LastOn, Launches, Triggers;
        var old', new' := Launches(s, steps), Launches(s, steps + [step]);
        if |new'| == |old'| + 1 {
          assert new'[..|old'|] == old';
        }
      case Work(_, _) =>
        assert Launches(s, steps + [step]) == Launches(s, steps);
        assert Attempts(s, steps + [step]) == Attempts(s, steps);
    }
  }

  /** Once a start() for device v and queue q has got its transmit pool, nothing that happens
      later launches workers for them: a start() that failed half way is never made good, and
      a device that was destroyed and comes back under its old id stays stopped. */
  lemma {:induction false} NoLaterLaunch(s: Settings, steps: seq<Step>, more: seq<Step>, v: int, q: int)
    requires Possible(s, steps + more) && Possible(s, steps) && PoolTaken(Attempts(s, steps), v, q)
    ensures PoolTaken(Attempts(s, steps + more), v, q)
    ensures LaunchesFor(Launches(s, steps + more), v, q) == LaunchesFor(Launches(s, steps), v, q)
  {
    hide Attempts, Launches, LaunchesFor, PoolTaken, After, Enabled;
    if more == [] {
      assert steps + more == steps;
    } else {
      var n := |more| - 1;
      var front := steps + more[..n];
      assert (steps + more)[..|steps + more| - 1] == front;
      assert Possible(s, front);
      NoLaterLaunch(s, steps, more[..n], v, q);
      assert steps + more == front + [more[n]];
      StepLaunchesNone(s, front, more[n], v, q);
    }
  }

  /** Attempt i is the first for device v and queue q that got its transmit pool. */
  ghost predicate FirstPool(attempts: seq<Attempt>, i: nat, v: int, q: int) {
    && i < |attempts| && TakesPool(attempts[i], v, q)
    && forall j | 0 <= j < i :: !TakesPool(attempts[j], v, q)
  }

  /** The first attempt for v and q that got its transmit pool was granted everything. */
  ghost predicate FirstPoolGranted(attempts: seq<Attempt>, v: int, q: int) {
    exists i: nat :: FirstPool(attempts, i, v, q) && attempts[i].grants == Grants(true, true, true)
  }

  ghost predicate HasLaunch(ls: seq<Launched>, v: int, q: int) {
    exists l | l in ls :: l.vid == v && l.txqid == q
  }

  lemma {:induction false} FirstPoolStep(attempts: seq<Attempt>, a: Attempt, v: int, q: int)
    ensures FirstPoolGranted(attempts + [a], v, q) <==>
            || FirstPoolGranted(attempts, v, q)
            || (TakesPool(a, v, q) && a.grants == Grants(true, true, true) && !PoolTaken(attempts, v, q))
  {
    var n := |attempts|;
    var attempts' := attempts + [a];
    assert attempts'[n] == a && forall i | 0 <= i < n :: attempts'[i] == attempts[i];
    if i: nat :| FirstPool(attempts, i, v, q) && attempts[i].grants == Grants(true, true, true) {
      assert FirstPool(attempts', i, v, q);
    }
    if TakesPool(a, v, q) && a.grants == Grants(true, true, true) && !PoolTaken(attempts, v, q) {
      assert FirstPool(attempts', n, v, q);
    }
    if i: nat :| FirstPool(attempts', i, v, q) && attempts'[i].grants == Grants(true, true, true) {
      if i < n {
        assert FirstPool(attempts, i, v, q);
      }
    }
  }

  lemma {:induction false} HasLaunchStep(ls: seq<Launched>, l: Launched, v: int, q: int)
    ensures HasLaunch(ls + [l], v, q) <==> HasLaunch(ls, v, q) || (l.vid == v && l.txqid == q)
  {
    assert l in ls + [l];
  }

  lemma {:induction false} DeliveryLaunchedIff(s: Settings, steps: seq<Step>, m: RingState, g: Grants, v: int, q: int)
    requires Possible(s, steps) && m.InRange()
    requires HasLaunch(Launches(s, steps), v, q) <==>
             WorkersFor(s) > 0 && FirstPoolGranted(Attempts(s, steps), v, q)
    ensures Possible(s, steps + [Deliver(m, g)])
    ensures HasLaunch(Launches(s, steps + [Deliver(m, g)]), v, q) <==>
            WorkersFor(s) > 0 && FirstPoolGranted(Attempts(s, steps + [Deliver(m, g)]), v, q)
  {
    hide Launches, Attempts, After, Possible, LastOn, Delivered, PoolTaken, TxPoolName, RxPoolName, TxRingName,
         HasLaunch, FirstPoolGranted, WorkersFor;
    ExactLaunch(s, steps, m, g);
    AttemptsStep(s, steps, m, g);
    assert Attempts(s, steps) + [] == Attempts(s, steps);
    FirstPoolStep(Attempts(s, steps), Attempt(CallFor(m), g), v, q);
    HasLaunchStep(Launches(s, steps),
                  Launched(m.deviceId, m.qid - 1, m.qid, WorkersFor(s), Some(TxPoolName(m.deviceId, m.qid)),
                           Some(RxPoolName(m.deviceId, m.qid - 1)), Some(TxRingName(m.deviceId, m.qid))), v, q);
  }

  /** Over any run, device v and queue q have a launch exactly when workers are configured and
      the first start() for them that got its transmit pool was granted everything else. */
  lemma {:induction false} LaunchedIff(s: Settings, steps: seq<Step>, v: int, q: int)
    requires Possible(s, steps)
    ensures HasLaunch(Launches(s, steps), v, q) <==>
            WorkersFor(s) > 0 && FirstPoolGranted(Attempts(s, steps), v, q)
  {
    if steps != [] {
      var front := steps[..|steps| - 1];
      LaunchedIff(s, front, v, q);
      match steps[|steps| - 1] {
        case Deliver(m, g) =>
          assert steps == front + [Deliver(m, g)];
          DeliveryLaunchedIff(s, front, m, g, v, q);
        case Work(_, _) =>
          assert Attempts(s, steps) == Attempts(s, front) && Launches(s, steps) == Launches(s, front);
      }
    }
  }

  ghost predicate AllGranted(steps: seq<Step>) {
    forall i | 0 <= i < |steps| && steps[i].Deliver? :: steps[i].grants == Grants(true, true, true)
  }

  /** When DPDK refuses nothing but duplicate names, every start() call finds its pair's
      workers launched, by itself or by an earlier call. */
  lemma {:induction false} GrantedAttemptsLaunch(s: Settings, steps: seq<Step>)
    requires Possible(s, steps) && AllGranted(steps) && WorkersFor(s) > 0
    ensures forall a | a in Attempts(s, steps) ::
              exists l | l in Launches(s, steps) :: l.vid == a.call.vid && l.txqid == a.call.txqid
  {
    if steps != [] {
      var front := steps[..|steps| - 1];
      GrantedAttemptsLaunch(s, front);
      match steps[|steps| - 1] {
        case Deliver(m, g) =>
          assert steps == front + [Deliver(m, g)];
          ExactLaunch(s, front, m, g);
          ControllerReplays(s, front);
          StartsStep(Delivered(front), m);
          var old', new' := Launches(s, front), Launches(s, steps);
          forall a | a in Attempts(s, steps)
            ensures exists l | l in new' :: l.vid == a.call.vid && l.txqid == a.call.txqid
          {
            hide Launches, AfterStart, LastOn;
            if PoolTaken(Attempts(s, front), a.call.vid, a.call.txqid) {
              var b :| b in Attempts(s, front) && b.call.vid == a.call.vid && b.call.txqid == a.call.txqid;
              var l :| l in old' && l.vid == b.call.vid && l.txqid == b.call.txqid;
              assert l in new';
            } else if a in Attempts(s, front) {
              var l :| l in old' && l.vid == a.call.vid && l.txqid == a.call.txqid;
              assert l in new';
            } else {
              assert a == Attempt(CallFor(m), g);
              assert new'[|old'|] in new';
            }
          }
        case Work(_, _) =>
      }
    }
  }

  lemma {:induction false} AttemptIsPair(s: Settings, steps: seq<Step>, a: Attempt)
    requires Possible(s, steps) && a in Attempts(s, steps)
    ensures a.call.txqid == 2 * a.call.handler + 1 && a.call.rxqid == 2 * a.call.handler
  {
    var front := steps[..|steps| - 1];
    if a in Attempts(s, front) {
      AttemptIsPair(s, front, a);
    }
  }

  /** Workers are launched only for calls that the delivered records ask for. */
  lemma {:induction false} LaunchWasCalled(s: Settings, steps: seq<Step>, v: int, k: int)
    requires Possible(s, steps)
    ensures AllInRange(Delivered(steps))
    ensures HasLaunch(Launches(s, steps), v, 2 * k + 1) ==>
            StartCall(k, v, 2 * k, 2 * k + 1) in Starts(Delivered(steps))
  {
    hide Starts, Possible, Delivered, Attempts, Launches, Named;
    AttemptsAreStarts(s, steps);
    LaunchesTakePools(s, steps);
    if HasLaunch(Launches(s, steps), v, 2 * k + 1) {
      assert PoolTaken(Attempts(s, steps), v, 2 * k + 1);
      var i :| 0 <= i < |Attempts(s, steps)| && TakesPool(Attempts(s, steps)[i], v, 2 * k + 1);
      AttemptIsPair(s, steps, Attempts(s, steps)[i]);
      assert Attempts(s, steps)[i].call == Starts(Delivered(steps))[i];
    }
  }

  /** Launch i is for the given pair of device vid, and no other launch is. */
  ghost predicate SoleLaunch(ls: seq<Launched>, i: nat, vid: int, pair: int) {
    && i < |ls| && ls[i].vid == vid && ls[i].txqid == 2 * pair + 1
    && forall j | 0 <= j < |ls| && j != i :: ls[j].vid != vid || ls[j].txqid / 2 != pair
  }

  lemma {:induction false} GrantedAttemptLaunchesOnce(s: Settings, steps: seq<Step>, a: Attempt)
    requires Possible(s, steps) && AllGranted(steps) && WorkersFor(s) > 0
    requires a in Attempts(s, steps)
    ensures exists i: nat :: SoleLaunch(Launches(s, steps), i, a.call.vid, a.call.handler)
  {
    hide Launches, Attempts, After, Possible;
    GrantedAttemptsLaunch(s, steps);
    AtMostOneLaunch(s, steps);
    AttemptIsPair(s, steps, a);
    var ls := Launches(s, steps);
    var i :| 0 <= i < |ls| && ls[i].vid == a.call.vid && ls[i].txqid == a.call.txqid;
    forall j | 0 <= j < |ls| && j != i
      ensures ls[j].vid != a.call.vid || ls[j].txqid / 2 != a.call.handler
    {
      assert Apart(ls[if i < j then i else j], ls[if i < j then j else i]);
    }
    assert SoleLaunch(ls, i, a.call.vid, a.call.handler);
  }

  // ----- Runs that go on with deliveries alone

  /** steps' is steps and then deliveries, all with the same grants. */
  ghost predicate GrownBy(steps: seq<Step>, steps': seq<Step>, g: Grants) {
    && steps <= steps'
    && forall i | |steps| <= i < |steps'| :: steps'[i].Deliver? && steps'[i].grants == g
  }

  lemma {:induction false} GrownTwice(a: seq<Step>, b: seq<Step>, c: seq<Step>, g: Grants)
    requires GrownBy(a, b, g) && GrownBy(b, c, g)
    ensures GrownBy(a, c, g)
  {
  }

  lemma {:induction false} GrownAttempts(s: Settings, steps: seq<Step>, steps': seq<Step>, g: Grants)
    requires Possible(s, steps') && GrownBy(steps, steps', g)
    ensures Possible(s, steps)
    ensures Attempts(s, steps) <= Attempts(s, steps')
    ensures forall i | |Attempts(s, steps)| <= i < |Attempts(s, steps')| :: Attempts(s, steps')[i].grants == g
  {
    if steps != steps' {
      var front := steps'[..|steps'| - 1];
      GrownAttempts(s, steps, front, g);
    }
  }

  lemma {:induction false} GrownCount(steps: seq<Step>, steps': seq<Step>, g: Grants)
    requires GrownBy(steps, steps', g)
    ensures |Delivered(steps')| == |Delivered(steps)| + |steps'| - |steps|
  {
    if steps != steps' {
      GrownCount(steps, steps'[..|steps'| - 1], g);
    }
  }

  lemma {:induction false} GrownByOne(steps: seq<Step>, steps': seq<Step>, g: Grants, m: RingState)
    requires GrownBy(steps, steps', g) && Delivered(steps') == Delivered(steps) + [m]
    ensures steps' == steps + [Deliver(m, g)]
  {
    GrownCount(steps, steps', g);
    assert steps' == steps + [steps'[|steps|]];
    DeliveredStep(steps, steps'[|steps|]);
    hide Delivered;
    assert (Delivered(steps) + [m])[|Delivered(steps)|] == m;
  }

  lemma {:induction false} NoneFor(ls: seq<Launched>, v: int, q: int)
    ensures HasLaunch(ls, v, q) <==> LaunchesFor(ls, v, q) != []
  {
    if ls != [] {
      NoneFor(ls[..|ls| - 1], v, q);
      assert ls == ls[..|ls| - 1] + [ls[|ls| - 1]];
      HasLaunchStep(ls[..|ls| - 1], ls[|ls| - 1], v, q);
    }
  }

  /** Before any worker is scheduled all launched workers still have their store ahead. */
  lemma {:induction false} UnscheduledEntered(s: Settings, steps: seq<Step>, k: nat)
    requires Possible(s, steps) && k < HANDLERS
    requires forall i | 0 <= i < |steps| :: steps[i].Deliver?
    ensures var workers := After(s, steps).handlers[k].life.workers;
            && (forall i | 0 <= i < |workers| :: workers[i].Entered?)
            && ((exists l | l in Launches(s, steps) :: l.txqid / 2 == k) ==> workers != [])
  {
    if steps != [] {
      var front, m, g := steps[..|steps| - 1], steps[|steps| - 1].record, steps[|steps| - 1].grants;
      UnscheduledEntered(s, front, k);
      ProcessedLife(After(s, front), s, m, g, k);
      LaunchedHere(After(s, front), s, m, g);
      hide Process, LaunchesOf;
    }
  }

  lemma {:induction false} LaunchedHere(c: Controller, s: Settings, m: RingState, g: Grants)
    requires WellFormed(c) && m.InRange()
    ensures forall l | l in LaunchesOf(c, s, m, g) :: !m.IsDestroy() && l.txqid == m.qid && WorkersFor(s) > 0
  {
    hide TxPoolName, RxPoolName, TxRingName, Apply, PairOn;
  }

  // ----- Worker exits, seen from the whole controller

  /** The run as handler k's workers see it, one life step per controller step; Launch(0)
      stands for a step that leaves handler k's flag and workers alone. */
  function View(s: Settings, steps: seq<Step>, k: nat): (view: seq<L.LifeStep>)
    requires Possible(s, steps) && k < HANDLERS
    ensures |view| == |steps|
    ensures forall j | 0 <= j < |steps| ::
              && (view[j] == L.Stop <==> steps[j].Deliver? && steps[j].record.IsDestroy())
              && (forall i: nat :: view[j] == L.Work(i) <==> steps[j] == Work(k, i))
  {
    if steps == [] then []
    else
      var front := steps[..|steps| - 1];
      View(s, front, k) + [match steps[|steps| - 1]
                           case Deliver(m, g) =>
                             if m.IsDestroy() then L.Stop
                             else if m.qid / 2 == k && LaunchesOf(After(s, front), s, m, g) != []
                             then L.Launch(WorkersFor(s))
                             else L.Launch(0)
                           case Work(k', i) => if k' == k then L.Work(i) else L.Launch(0)]
  }

  lemma {:induction false} ProcessedLife(c: Controller, s: Settings, m: RingState, g: Grants, k: nat)
    requires WellFormed(c) && m.InRange() && k < HANDLERS
    ensures Process(c, s, m, g).handlers[k].life ==
            if m.IsDestroy() then L.Next(c.handlers[k].life, L.Stop)
            else if m.qid / 2 == k && LaunchesOf(c, s, m, g) != []
            then L.Next(c.handlers[k].life, L.Launch(WorkersFor(s)))
            else c.handlers[k].life
  {
    hide TxPoolName, RxPoolName, TxRingName, Apply, PairOn;
  }

  lemma {:induction false} ViewStep(s: Settings, steps: seq<Step>, k: nat)
    requires Possible(s, steps) && k < HANDLERS && steps != []
    ensures var (front, view) := (steps[..|steps| - 1], View(s, steps, k));
            var life := After(s, front).handlers[k].life;
            && view[..|view| - 1] == View(s, front, k)
            && L.Enabled(life, view[|view| - 1])
            && After(s, steps).handlers[k].life == L.Next(life, view[|view| - 1])
  {
    hide Process, AfterStart, LaunchesOf;
    var front := steps[..|steps| - 1];
    var life := After(s, front).handlers[k].life;
    assert L.Next(life, L.Launch(0)) == life;
    match steps[|steps| - 1] {
      case Deliver(m, g) => ProcessedLife(After(s, front), s, m, g, k);
      case Work(_, _) =>
    }
  }

  lemma {:induction false} ViewIsLife(s: Settings, steps: seq<Step>, k: nat)
    requires Possible(s, steps) && k < HANDLERS
    ensures L.Possible(L.IDLE, View(s, steps, k))
    ensures L.After(L.IDLE, View(s, steps, k)) == After(s, steps).handlers[k].life
  {
    if steps != [] {
      ViewIsLife(s, steps[..|steps| - 1], k);
      ViewStep(s, steps, k);
      hide View, Next, L.Next;
    }
  }

  lemma {:induction false} ViewPrefix(s: Settings, steps: seq<Step>, k: nat, n: nat)
    requires Possible(s, steps) && k < HANDLERS && n <= |steps|
    ensures Possible(s, steps[..n])
    ensures View(s, steps[..n], k) == View(s, steps, k)[..n]
  {
    if n == |steps| {
      assert steps[..n] == steps;
    } else {
      ViewPrefix(s, steps[..|steps| - 1], k, n);
      assert steps[..|steps| - 1][..n] == steps[..n];
      assert View(s, steps, k)[..|steps| - 1] == View(s, steps[..|steps| - 1], k);
    }
  }

  /** Step a of the run is the store of true by worker i of handler k. */
  ghost predicate StoresAt(s: Settings, steps: seq<Step>, a: nat, k: nat, i: nat)
    requires Possible(s, steps) && k < HANDLERS
  {
    && a < |steps| && steps[a] == Work(k, i)
    && Possible(s, steps[..a])
    && var workers := After(s, steps[..a]).handlers[k].life.workers;
       i < |workers| && workers[i].Entered?
  }

  /** A destroy record was delivered after worker i of handler k stored true. */
  ghost predicate DestroyedAfterStore(s: Settings, steps: seq<Step>, k: nat, i: nat)
    requires Possible(s, steps) && k < HANDLERS
  {
    exists a: nat, b: nat :: && StoresAt(s, steps, a, k, i) && a < b < |steps|
                             && steps[b].Deliver? && steps[b].record.IsDestroy()
  }

  /** In the whole controller, a worker leaves its loop only if a destroy record, for whatever
      device, was delivered after that worker's own store of true. */
  lemma {:induction false} ExitFollowsDestroy(s: Settings, steps: seq<Step>, k: nat, i: nat)
    requires Possible(s, steps) && k < HANDLERS
    requires i < |After(s, steps).handlers[k].life.workers|
    requires After(s, steps).handlers[k].life.workers[i].Finished?
    ensures DestroyedAfterStore(s, steps, k, i)
  {
    ViewIsLife(s, steps, k);
    var view := View(s, steps, k);
    L.NoSpuriousExit(view, i);
    var a: nat, b: nat :| a < b < |view| && L.StoresAt(L.IDLE, view, a, i) && view[b] == L.Stop;
    ViewPrefix(s, steps, k, a);
    ViewIsLife(s, steps[..a], k);
    assert StoresAt(s, steps, a, k, i);
  }

  // ----- What a stopped handler does next

  /** In the part of the run that follows steps, start() launches nobody on handler k. All else
      may happen: any record, another stop, launches elsewhere, steps of any handler. */
  ghost predicate NobodyLaunchedOn(s: Settings, steps: seq<Step>, more: seq<Step>, k: nat)
    requires Possible(s, steps + more) && k < HANDLERS
  {
    L.NobodyLaunched(View(s, steps + more, k)[|steps|..])
  }

  function HandlerSteps(steps: seq<Step>, k: nat): nat {
    if steps == [] then 0
    else
      var step := steps[|steps| - 1];
      HandlerSteps(steps[..|steps| - 1], k) + if step.Work? && step.handler == k then 1 else 0
  }

  lemma {:induction false} HandlerStepsInView(steps: seq<Step>, view: seq<L.LifeStep>, k: nat)
    requires |view| == |steps|
    requires forall j | 0 <= j < |steps| :: view[j].Work? <==> steps[j].Work? && steps[j].handler == k
    ensures HandlerSteps(steps, k) == L.WorkerSteps(view)
  {
    if steps != [] {
      HandlerStepsInView(steps[..|steps| - 1], view[..|view| - 1], k);
    }
  }

  lemma {:induction false} StepsAfter(s: Settings, steps: seq<Step>, more: seq<Step>, k: nat)
    requires Possible(s, steps + more) && k < HANDLERS
    ensures HandlerSteps(more, k) == L.WorkerSteps(View(s, steps + more, k)[|steps|..])
  {
    hide After, Possible, HandlerSteps, L.WorkerSteps;
    var view := View(s, steps + more, k);
    var tail := view[|steps|..];
    forall j | 0 <= j < |more|
      ensures tail[j].Work? <==> more[j].Work? && more[j].handler == k
    {
      assert tail[j] == view[|steps| + j] && more[j] == (steps + more)[|steps| + j];
      assert tail[j].Work? ==> view[|steps| + j] == L.Work(tail[j].worker);
    }
    HandlerStepsInView(more, tail, k);
  }

  /** The view of a longer run: handler k's life goes on from where it stood. */
  lemma {:induction false} ViewGoesOn(s: Settings, steps: seq<Step>, more: seq<Step>, k: nat)
    requires Possible(s, steps + more) && k < HANDLERS
    ensures Possible(s, steps)
    ensures var life := After(s, steps).handlers[k].life;
            var tail := View(s, steps + more, k)[|steps|..];
            && L.Possible(life, tail)
            && After(s, steps + more).handlers[k].life == L.After(life, tail)
            && HandlerSteps(more, k) == L.WorkerSteps(tail)
  {
    hide After, Possible, View, L.After, L.Possible, HandlerSteps, L.WorkerSteps;
    var all := steps + more;
    var view := View(s, all, k);
    var tail := view[|steps|..];
    assert all[..|steps|] == steps;
    ViewPrefix(s, all, k, |steps|);
    ViewIsLife(s, all, k);
    ViewIsLife(s, steps, k);
    assert view == View(s, steps, k) + tail;
    L.AfterSplits(L.IDLE, View(s, steps, k), tail);
    StepsAfter(s, steps, more, k);
  }

  /** A handler whose flag is down and whose workers have all stored true stays so through
      whatever the controller does short of launching somebody on it, and every step of its
      workers is paid for by what they had left to do. */
  lemma {:induction false} StoppedHandlerSettles(s: Settings, steps: seq<Step>, more: seq<Step>, k: nat)
    requires Possible(s, steps + more) && Possible(s, steps) && k < HANDLERS
    requires var life := After(s, steps).handlers[k].life; !life.running && L.NoneEntered(life)
    requires NobodyLaunchedOn(s, steps, more, k)
    ensures var (before, after) := (After(s, steps).handlers[k].life, After(s, steps + more).handlers[k].life);
            && !after.running && L.NoneEntered(after)
            && HandlerSteps(more, k) + L.Remaining(after.workers) <= L.Remaining(before.workers)
  {
    ViewGoesOn(s, steps, more, k);
    L.StoppedRun(After(s, steps).handlers[k].life, View(s, steps + more, k)[|steps|..]);
    hide After, Possible, L.After, L.Possible, View, HandlerSteps, L.WorkerSteps, L.Remaining, L.NoneEntered;
  }

  /** No continuation without a launch on handler k gives its workers more steps than that. */
  ghost predicate BoundedOn(s: Settings, steps: seq<Step>, k: nat, bound: nat)
    requires k < HANDLERS
  {
    forall more | Possible(s, steps + more) && NobodyLaunchedOn(s, steps, more, k) :: HandlerSteps(more, k) <= bound
  }

  lemma {:induction false} WorkRepeats(s: Settings, steps: seq<Step>, k: nat, i: nat, n: nat)
    requires Possible(s, steps) && k < HANDLERS
    requires L.Possible(After(s, steps).handlers[k].life, seq(n, _ => L.Work(i)))
    ensures Possible(s, steps + seq(n, _ => Work(k, i)))
    ensures After(s, steps + seq(n, _ => Work(k, i))).handlers[k].life ==
            L.After(After(s, steps).handlers[k].life, seq(n, _ => L.Work(i)))
  {
    var more := seq(n, _ => Work(k, i));
    if n == 0 {
      assert steps + more == steps;
    } else {
      var front := seq(n - 1, _ => Work(k, i));
      assert more == front + [Work(k, i)];
      assert seq(n, _ => L.Work(i))[..n - 1] == seq(n - 1, _ => L.Work(i));
      WorkRepeats(s, steps, k, i, n - 1);
      AfterStep(s, steps + front, Work(k, i));
      assert steps + more == steps + front + [Work(k, i)];
    }
  }

  /** A worker that has yet to store true can be scheduled for as long as one likes. */
  lemma {:induction false} LateStoreUnbounded(s: Settings, steps: seq<Step>, k: nat, i: nat, bound: nat)
    requires Possible(s, steps) && k < HANDLERS && i < |After(s, steps).handlers[k].life.workers|
    requires After(s, steps).handlers[k].life.workers[i].Entered?
    ensures !BoundedOn(s, steps, k, bound)
  {
    hide After, Possible, L.After, L.Possible, HandlerSteps, L.WorkerSteps;
    var n := bound + 1;
    var more := seq(n, _ => Work(k, i));
    L.LateStoreRunsOn(After(s, steps).handlers[k].life, i, n);
    WorkRepeats(s, steps, k, i, n);
    var view := View(s, steps + more, k);
    forall j | |steps| <= j < |view|
      ensures view[j] == L.Work(i)
    {
      assert (steps + more)[j] == more[j - |steps|];
    }
    assert view[|steps|..] == seq(n, _ => L.Work(i));
    ViewGoesOn(s, steps, more, k);
  }

  /** A destroy record lowers every handler's flag. Handler k's workers are then sure to
      finish, as long as nobody new is launched on it, exactly when none of them had yet to
      store true. */
  lemma {:induction false} DestroyStopsIff(s: Settings, steps: seq<Step>, m: RingState, g: Grants, k: nat)
    requires Possible(s, steps) && m.IsDestroy() && k < HANDLERS
    ensures Possible(s, steps + [Deliver(m, g)])
    ensures var before := After(s, steps).handlers[k].life;
            var after := After(s, steps + [Deliver(m, g)]).handlers[k].life;
            && !after.running && after.workers == before.workers
            && (L.NoneEntered(before) <==> exists bound: nat :: BoundedOn(s, steps + [Deliver(m, g)], k, bound))
  {
    AfterStep(s, steps, Deliver(m, g));
    var steps' := steps + [Deliver(m, g)];
    var life := After(s, steps').handlers[k].life;
    hide After, Possible, HandlerSteps, L.Remaining, View;
    if L.NoneEntered(life) {
      forall more | Possible(s, steps' + more) && NobodyLaunchedOn(s, steps', more, k)
        ensures HandlerSteps(more, k) <= L.Remaining(life.workers)
      {
        StoppedHandlerSettles(s, steps', more, k);
      }
      assert BoundedOn(s, steps', k, L.Remaining(life.workers));
    } else {
      var i: nat :| i < |life.workers| && life.workers[i].Entered?;
      forall bound: nat
        ensures !BoundedOn(s, steps', k, bound)
      {
        LateStoreUnbounded(s, steps', k, i, bound);
      }
    }
  }

  lemma {:induction false} PairOnParity(rows: Rows, d: int, q: int)
    requires Full(rows) && 0 <= q < VRINGS && d in rows
    ensures q % 2 == 0 ==> (PairOn(rows, d, q) <==> rows[d][q] == 1 && rows[d][q + 1] == 1)
    ensures q % 2 == 1 ==> (PairOn(rows, d, q) <==> rows[d][q] == 1 && rows[d][q - 1] == 1)
  {
  }

  class PortControllerLoopback {
    var pmap: Rows
    var ready: bool
    const handlers: array<PortHandlerLoopback>
    const dpdk: DpdkRegistry
    const settings: Settings
    ghost var history: seq<Step>

    ghost predicate Wired()
      reads handlers
    {
      && handlers.Length == HANDLERS
      && forall i, j | 0 <= i < j < HANDLERS :: handlers[i] != handlers[j]
    }

    /** The whole state is the one the history of deliveries and worker steps leads to. */
    ghost predicate Valid()
      reads this, handlers, handlers[..], dpdk
    {
      && Wired()
      && Possible(settings, history)
      && var c := After(settings, history);
         && pmap == c.rows && ready == c.ready && dpdk.Abs() == c.dpdk
         && forall k | 0 <= k < HANDLERS :: handlers[k].Abs() == c.handlers[k]
    }

    constructor (settings: Settings)
      ensures Valid() && history == [] && this.settings == settings
      ensures fresh(handlers) && fresh(dpdk) && fresh(handlers[..])
    {
      this.settings := settings;
      pmap, ready, history := map[], false, [];
      dpdk := new DpdkRegistry();
      var first := new PortHandlerLoopback();
      var hs := new PortHandlerLoopback[HANDLERS](_ => first);
      handlers := hs;
      new;
      for i := 0 to HANDLERS
        modifies handlers
        invariant fresh(first) && fresh(handlers[..])
        invariant forall k | 0 <= k < i :: handlers[k].Abs() == NEW_HANDLER
        invariant forall k, l | 0 <= k < l < i :: handlers[k] != handlers[l]
        invariant pmap == map[] && !ready && history == [] && dpdk.Abs() == Dpdk({}, {})
      {
        handlers[i] := new PortHandlerLoopback();
      }
    }

    /** Sets the ids of the pair's handler and starts it; its exception is only logged. */
    method StartPair(d: int, q: int, grants: Grants)
      requires Wired() && 0 <= q < VRINGS
      modifies handlers[q / 2], dpdk
      ensures var (h, dpdk', _) := AfterStart(old(handlers[q / 2].Abs()).(vid := d, rxqid := q - 1, txqid := q),
                                              old(dpdk.Abs()), settings, grants);
              handlers[q / 2].Abs() == h && dpdk.Abs() == dpdk'
    {
      hide AfterStart;
      var h := handlers[q / 2];
      h.SetVid(d);
      h.SetRxqid(q - 1);
      h.SetTxqid(q);
      var _ := h.Start(settings, dpdk, grants);
    }

    method StopAll()
      requires Wired()
      modifies handlers[..]
      ensures forall k | 0 <= k < HANDLERS :: handlers[k].Abs() == Stopped(old(handlers[k].Abs()))
    {
      for id := 0 to HANDLERS
        invariant forall k | 0 <= k < id :: handlers[k].Abs() == Stopped(old(handlers[k].Abs()))
        invariant forall k | id <= k < HANDLERS :: handlers[k].Abs() == old(handlers[k].Abs())
      {
        handlers[id].Stop();
      }
    }

    method ProcessNotification(pdrs: RingState, grants: Grants)
      requires Valid() && pdrs.InRange()
      modifies this`pmap, this`ready, this`history, handlers[..], dpdk
      ensures Valid() && history == old(history) + [Deliver(pdrs, grants)]
      ensures pmap == Apply(old(pmap), pdrs)
    {
      hide After, Possible, AfterStart, PairOn;
      AfterStep(settings, history, Deliver(pdrs, grants));
      ghost var c := After(settings, history);
      ghost var c' := Process(c, settings, pdrs, grants);
      ghost var history' := history + [Deliver(pdrs, grants)];
      assert After(settings, history') == c';
      if pdrs.meta == 1 {
        StopAll();
        history := history';
        return;
      }
      var d, q := pdrs.deviceId, pdrs.qid;
      if d in pmap {
        pmap := pmap[d := pmap[d][q := pdrs.enable]];
        PairOnParity(pmap, d, q);
        if q % 2 == 0 {
          ready := pmap[d][q] == 1 && pmap[d][q + 1] == 1;
          history := history';
        } else {
          ready := pmap[d][q] == 1 && pmap[d][q - 1] == 1;
          history := history';
          if ready {
            StartPair(d, q, grants);
          }
        }
      } else {
        pmap := pmap[d := BlankRow()];
        pmap := pmap[d := pmap[d][q := pdrs.enable]];
        history := history';
      }
    }

    /** Worker i of handler k takes its next action. */
    method WorkerStep(k: nat, i: nat)
      requires Valid() && Enabled(After(settings, history), Work(k, i))
      modifies this`history, handlers[..]
      ensures Valid() && history == old(history) + [Work(k, i)]
    {
      hide After, Possible;
      AfterStep(settings, history, Work(k, i));
      history := history + [Work(k, i)];
      handlers[k].WorkerStep(i);
    }
  }
}
