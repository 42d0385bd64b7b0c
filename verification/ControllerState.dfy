/** What the handlers, the registry and the ready flag hold after any run of the controller,
    read off the start() calls and the records, whatever was granted and in whatever mode. */
module ControllerState {
  import opened Records
  import opened Replica
  import opened Names
  import opened PortHandler
  import opened PortController
  import L = Lifecycle

  /** The only settings under which start() has threads to run. */
  predicate Configured(s: Settings) {
    s.mode == "Loopback" && (s.threads == 1 || s.threads == 2)
  }

  /** After any run there are eight handlers, and every known device has a row of sixteen. */
  lemma {:induction false} Shape(s: Settings, steps: seq<Step>)
    requires Possible(s, steps)
    ensures |After(s, steps).handlers| == 8
    ensures forall d | d in After(s, steps).rows :: |After(s, steps).rows[d]| == 16
  {
  }

  // ----- One call of start()

  /** How start() ends and what it leaves live: it stops at the first thing it cannot create,
      and keeps what it has created before. */
  lemma {:induction false} StartOutcome(h: Handler, d: Dpdk, s: Settings, g: Grants)
    ensures var (tx, rx, ring) := (TxPoolName(h.vid, h.txqid), RxPoolName(h.vid, h.rxqid), TxRingName(h.vid, h.txqid));
            var (_, d', result) := AfterStart(h, d, s, g);
            var (a, b, c) := (g.txPool && tx !in d.pools, g.rxPool && rx !in d.pools, g.txRing && ring !in d.rings);
            && (result == NoTxPool <==> !a)
            && (result == NoRxPool <==> a && !b)
            && (result == NoTxRing <==> a && b && !c)
            && (result.Started? <==> a && b && c)
            && (result.Started? ==> result.workers == if Configured(s) then s.threads else 0)
            && (forall name :: name in d'.pools <==> name in d.pools || (name == tx && a) || (name == rx && a && b))
            && (forall name :: name in d'.rings <==> name in d.rings || (name == ring && a && b && c))
  {
    NamesInjective(h.vid, h.txqid, h.vid, h.rxqid);
    hide TxPoolName, RxPoolName, TxRingName;
  }

  // ----- How far an attempt came

  datatype Stage = Called | GotTxPool | GotRxPool | GotRing

  /** Attempt j was on handler k and came this far: the first attempt for its device and queue
      to be granted its transmit pool gets it, and then depends on its own other grants. */
  ghost predicate Reached(attempts: seq<Attempt>, j: nat, k: int, stage: Stage) {
    && j < |attempts| && attempts[j].call.handler == k
    && (stage.Called? || FirstPool(attempts, j, attempts[j].call.vid, attempts[j].call.txqid))
    && (stage.GotRxPool? || stage.GotRing? ==> attempts[j].grants.rxPool)
    && (stage.GotRing? ==> attempts[j].grants.txRing)
  }

  ghost predicate LatestReached(attempts: seq<Attempt>, j: nat, k: int, stage: Stage) {
    Reached(attempts, j, k, stage) && forall i: nat | j < i :: !Reached(attempts, i, k, stage)
  }

  ghost predicate NeverReached(attempts: seq<Attempt>, k: int, stage: Stage) {
    forall i: nat :: !Reached(attempts, i, k, stage)
  }

  lemma {:induction false} FirstPoolAppends(attempts: seq<Attempt>, a: Attempt, v: int, q: int)
    ensures forall i: nat | i < |attempts| :: FirstPool(attempts + [a], i, v, q) <==> FirstPool(attempts, i, v, q)
    ensures FirstPool(attempts + [a], |attempts|, v, q) <==> TakesPool(a, v, q) && !PoolTaken(attempts, v, q)
    ensures forall i: nat | i >= |attempts| :: !FirstPool(attempts, i, v, q)
    ensures forall i: nat | i > |attempts| :: !FirstPool(attempts + [a], i, v, q)
  {
    var attempts' := attempts + [a];
    assert attempts'[|attempts|] == a && forall i | 0 <= i < |attempts| :: attempts'[i] == attempts[i];
    if PoolTaken(attempts, v, q) {
      var b :| b in attempts && TakesPool(b, v, q);
      var i :| 0 <= i < |attempts| && attempts[i] == b;
      assert TakesPool(attempts'[i], v, q);
    } else {
      assert forall i | 0 <= i < |attempts| :: attempts[i] in attempts;
    }
  }

  lemma {:induction false} ReachedStep(attempts: seq<Attempt>, a: Attempt, k: int, stage: Stage)
    ensures forall j: nat | j < |attempts| ::
              Reached(attempts + [a], j, k, stage) <==> Reached(attempts, j, k, stage)
    ensures Reached(attempts + [a], |attempts|, k, stage) <==>
            && a.call.handler == k
            && (stage.Called? || (a.grants.txPool && !PoolTaken(attempts, a.call.vid, a.call.txqid)))
            && (stage.GotRxPool? || stage.GotRing? ==> a.grants.rxPool)
            && (stage.GotRing? ==> a.grants.txRing)
  {
    var attempts' := attempts + [a];
    assert attempts'[|attempts|] == a && forall i | 0 <= i < |attempts| :: attempts'[i] == attempts[i];
    hide FirstPool, PoolTaken;
    FirstPoolAppends(attempts, a, a.call.vid, a.call.txqid);
    forall j: nat | j < |attempts|
      ensures Reached(attempts', j, k, stage) <==> Reached(attempts, j, k, stage)
    {
      FirstPoolAppends(attempts, a, attempts[j].call.vid, attempts[j].call.txqid);
    }
  }

  lemma {:induction false} LatestStep(attempts: seq<Attempt>, a: Attempt, k: int, stage: Stage)
    ensures var attempts' := attempts + [a];
            if Reached(attempts', |attempts|, k, stage)
            then && (forall j: nat :: LatestReached(attempts', j, k, stage) <==> j == |attempts|)
                 && !NeverReached(attempts', k, stage)
            else && (forall j: nat :: LatestReached(attempts', j, k, stage) <==> LatestReached(attempts, j, k, stage))
                 && (NeverReached(attempts', k, stage) <==> NeverReached(attempts, k, stage))
    ensures forall j: nat :: LatestReached(attempts, j, k, stage) ==> j < |attempts|
  {
    ReachedStep(attempts, a, k, stage);
    hide FirstPool;
  }

  // ----- The registry

  /** The first attempt to get the transmit pool of (v, q) was also granted what is asked. */
  ghost predicate FirstGot(attempts: seq<Attempt>, v: int, q: int, rx: bool, ring: bool) {
    exists i: nat :: && FirstPool(attempts, i, v, q)
                     && (rx ==> attempts[i].grants.rxPool) && (ring ==> attempts[i].grants.txRing)
  }

  lemma {:induction false} FirstGotStep(attempts: seq<Attempt>, a: Attempt, v: int, q: int, rx: bool, ring: bool)
    ensures FirstGot(attempts + [a], v, q, rx, ring) <==>
            || FirstGot(attempts, v, q, rx, ring)
            || (TakesPool(a, v, q) && !PoolTaken(attempts, v, q)
                && (rx ==> a.grants.rxPool) && (ring ==> a.grants.txRing))
  {
    hide FirstPool, PoolTaken, TakesPool;
    var n := |attempts|;
    var attempts' := attempts + [a];
    FirstPoolAppends(attempts, a, v, q);
    assert attempts'[n] == a && forall i | 0 <= i < n :: attempts'[i] == attempts[i];
    if i: nat :| && FirstPool(attempts, i, v, q)
                 && (rx ==> attempts[i].grants.rxPool) && (ring ==> attempts[i].grants.txRing) {
      assert FirstPool(attempts', i, v, q);
    }
  }

  ghost predicate RegistryIs(d: Dpdk, attempts: seq<Attempt>) {
    && (forall v, q :: TxPoolName(v, q) in d.pools <==> FirstGot(attempts, v, q, false, false))
    && (forall v, q :: RxPoolName(v, q - 1) in d.pools <==> FirstGot(attempts, v, q, true, false))
    && (forall v, q :: TxRingName(v, q) in d.rings <==> FirstGot(attempts, v, q, true, true))
    && (forall name | name in d.pools :: exists v, q :: name == TxPoolName(v, q) || name == RxPoolName(v, q))
    && (forall name | name in d.rings :: exists v, q :: name == TxRingName(v, q))
  }

  lemma {:induction false} StartKeepsRegistry(h: Handler, d: Dpdk, s: Settings, call: StartCall, g: Grants,
                                              attempts: seq<Attempt>)
    requires RegistryIs(d, attempts) && RegistryMatches(d, attempts)
    requires h.vid == call.vid && h.txqid == call.txqid && h.rxqid == call.rxqid == call.txqid - 1
    ensures RegistryIs(AfterStart(h, d, s, g).1, attempts + [Attempt(call, g)])
  {
    hide TxPoolName, RxPoolName, TxRingName, PoolTaken, FirstGot, AfterStart;
    StartOutcome(h, d, s, g);
    var d' := AfterStart(h, d, s, g).1;
    var attempts' := attempts + [Attempt(call, g)];
    forall v, q
      ensures TxPoolName(v, q) in d'.pools <==> FirstGot(attempts', v, q, false, false)
      ensures RxPoolName(v, q - 1) in d'.pools <==> FirstGot(attempts', v, q, true, false)
      ensures TxRingName(v, q) in d'.rings <==> FirstGot(attempts', v, q, true, true)
    {
      NamesInjective(v, q, call.vid, call.txqid);
      NamesInjective(v, q, call.vid, call.rxqid);
      NamesInjective(v, q - 1, call.vid, call.rxqid);
      NamesInjective(call.vid, call.txqid, v, q - 1);
      FirstGotStep(attempts, Attempt(call, g), v, q, false, false);
      FirstGotStep(attempts, Attempt(call, g), v, q, true, false);
      FirstGotStep(attempts, Attempt(call, g), v, q, true, true);
      assert RxPoolName(call.vid, call.txqid - 1) in d.pools ==> PoolTaken(attempts, call.vid, call.txqid);
      assert TxRingName(call.vid, call.txqid) in d.rings ==> PoolTaken(attempts, call.vid, call.txqid);
      assert TxPoolName(call.vid, call.txqid) in d.pools <==> PoolTaken(attempts, call.vid, call.txqid);
    }
  }

  lemma {:induction false} NothingLive(s: Settings)
    ensures Possible(s, []) && Attempts(s, []) == [] && Launches(s, []) == [] && After(s, []) == NewController()
    ensures RegistryIs(NewController().dpdk, [])
  {
  }

  /** How one controller step acts on attempts, handlers and registry. */
  lemma {:induction false} StepParts(s: Settings, steps: seq<Step>)
    requires Possible(s, steps) && steps != []
    ensures var (front, step) := (steps[..|steps| - 1], steps[|steps| - 1]);
            var (c, c') := (After(s, front), After(s, steps));
            if step.Deliver? && Triggers(c.rows, step.record) then
              var call := CallFor(step.record);
              var (h, d, _) := AfterStart(Aimed(c.handlers[call.handler], call), c.dpdk, s, step.grants);
              && Attempts(s, steps) == Attempts(s, front) + [Attempt(call, step.grants)]
              && 0 <= call.handler < HANDLERS && call.rxqid == call.txqid - 1
              && c'.handlers == c.handlers[call.handler := h] && c'.dpdk == d
            else
              && Attempts(s, steps) == Attempts(s, front) && c'.dpdk == c.dpdk
              && forall k | 0 <= k < HANDLERS :: c'.handlers[k] == c.handlers[k].(life := c'.handlers[k].life)
  {
    hide AfterStart, PairOn, NextReady, Apply;
  }

  /** After any run, in any mode: a pair's transmit pool is live exactly when some start() for it
      was granted one, its receive pool when the first such start() was granted that too, its
      ring when that start() was granted all three; and nothing else is live. */
  lemma {:induction false} RegistryExact(s: Settings, steps: seq<Step>)
    requires Possible(s, steps)
    ensures RegistryIs(After(s, steps).dpdk, Attempts(s, steps))
  {
    hide RegistryIs, RegistryMatches, AfterStart, Triggers;
    if steps == [] {
      NothingLive(s);
    } else {
      var front := steps[..|steps| - 1];
      RegistryExact(s, front);
      RegistryFollowsAttempts(s, front);
      StepParts(s, steps);
      var c, step := After(s, front), steps[|steps| - 1];
      if step.Deliver? && Triggers(c.rows, step.record) {
        var call := CallFor(step.record);
        StartKeepsRegistry(Aimed(c.handlers[call.handler], call), c.dpdk, s, call, step.grants, Attempts(s, front));
      }
    }
  }

  // ----- The handlers' own fields

  /** Handler k's fields, in terms of the attempts: ids are those of the last call; a pool or
      ring is that of the last attempt that came as far as creating it, and null when that
      attempt could not; the receive ring is set only when threads are started. */
  ghost predicate FieldsAre(h: Handler, attempts: seq<Attempt>, s: Settings, k: int) {
    && (NeverReached(attempts, k, Called) ==>
          h.vid == -1 && h.rxqid == -1 && h.txqid == -1 && h.txPool == None)
    && (forall j: nat | LatestReached(attempts, j, k, Called) ::
          var call := attempts[j].call;
          && h.vid == call.vid && h.rxqid == call.rxqid && h.txqid == call.txqid
          && h.txPool == if Reached(attempts, j, k, GotTxPool) then Some(TxPoolName(call.vid, call.txqid)) else None)
    && (NeverReached(attempts, k, GotTxPool) ==> h.rxPool == None)
    && (forall j: nat | LatestReached(attempts, j, k, GotTxPool) ::
          var call := attempts[j].call;
          h.rxPool == if Reached(attempts, j, k, GotRxPool) then Some(RxPoolName(call.vid, call.rxqid)) else None)
    && (NeverReached(attempts, k, GotRxPool) ==> h.txRing == None)
    && (forall j: nat | LatestReached(attempts, j, k, GotRxPool) ::
          var call := attempts[j].call;
          h.txRing == if Reached(attempts, j, k, GotRing) then Some(TxRingName(call.vid, call.txqid)) else None)
    && (NeverReached(attempts, k, GotRing) || !Configured(s) ==> h.rxRing == None)
    && (forall j: nat | LatestReached(attempts, j, k, GotRing) && Configured(s) ::
          h.rxRing == Some(TxRingName(attempts[j].call.vid, attempts[j].call.txqid)))
  }

  /** What one start() makes of the fields. */
  lemma {:induction false} StartFields(h: Handler, d: Dpdk, s: Settings, g: Grants)
    ensures var (tx, rx, ring) := (TxPoolName(h.vid, h.txqid), RxPoolName(h.vid, h.rxqid), TxRingName(h.vid, h.txqid));
            var h' := AfterStart(h, d, s, g).0;
            var (a, b, c) := (g.txPool && tx !in d.pools, g.rxPool && rx !in d.pools, g.txRing && ring !in d.rings);
            && h'.vid == h.vid && h'.rxqid == h.rxqid && h'.txqid == h.txqid
            && h'.txPool == (if a then Some(tx) else None)
            && h'.rxPool == (if !a then h.rxPool else if b then Some(rx) else None)
            && h'.txRing == (if !(a && b) then h.txRing else if c then Some(ring) else None)
            && h'.rxRing == (if a && b && c && Configured(s) then Some(ring) else h.rxRing)
  {
    NamesInjective(h.vid, h.txqid, h.vid, h.rxqid);
    hide TxPoolName, RxPoolName, TxRingName;
  }

  lemma {:induction false} FieldsStep(h: Handler, d: Dpdk, s: Settings, a: Attempt, attempts: seq<Attempt>, k: int)
    requires FieldsAre(h, attempts, s, k) && RegistryMatches(d, attempts)
    requires a.call.handler == k && a.call.rxqid == a.call.txqid - 1
    ensures FieldsAre(AfterStart(Aimed(h, a.call), d, s, a.grants).0, attempts + [a], s, k)
  {
    hide AfterStart, TxPoolName, RxPoolName, TxRingName, Reached, PoolTaken;
    StartFields(Aimed(h, a.call), d, s, a.grants);
    ReachedStep(attempts, a, k, Called);
    ReachedStep(attempts, a, k, GotTxPool);
    ReachedStep(attempts, a, k, GotRxPool);
    ReachedStep(attempts, a, k, GotRing);
    LatestStep(attempts, a, k, Called);
    LatestStep(attempts, a, k, GotTxPool);
    LatestStep(attempts, a, k, GotRxPool);
    LatestStep(attempts, a, k, GotRing);
    assert RxPoolName(a.call.vid, a.call.txqid - 1) in d.pools ==> PoolTaken(attempts, a.call.vid, a.call.txqid);
    assert TxRingName(a.call.vid, a.call.txqid) in d.rings ==> PoolTaken(attempts, a.call.vid, a.call.txqid);
    assert TxPoolName(a.call.vid, a.call.txqid) in d.pools <==> PoolTaken(attempts, a.call.vid, a.call.txqid);
    hide LatestReached, NeverReached;
    var attempts' := attempts + [a];
    assert attempts'[|attempts|] == a && forall i | 0 <= i < |attempts| :: attempts'[i] == attempts[i];
  }

  lemma {:induction false} FieldsElsewhere(h: Handler, h': Handler, s: Settings, a: Attempt, attempts: seq<Attempt>,
                                           k: int)
    requires FieldsAre(h, attempts, s, k) && a.call.handler != k && h' == h.(life := h'.life)
    ensures FieldsAre(h', attempts + [a], s, k)
  {
    hide TxPoolName, RxPoolName, TxRingName, Reached, PoolTaken;
    ReachedStep(attempts, a, k, Called);
    ReachedStep(attempts, a, k, GotTxPool);
    ReachedStep(attempts, a, k, GotRxPool);
    ReachedStep(attempts, a, k, GotRing);
    LatestStep(attempts, a, k, Called);
    LatestStep(attempts, a, k, GotTxPool);
    LatestStep(attempts, a, k, GotRxPool);
    LatestStep(attempts, a, k, GotRing);
    hide LatestReached, NeverReached;
    assert forall i | 0 <= i < |attempts| :: (attempts + [a])[i] == attempts[i];
  }

  /** After any run, every handler's fields are those its own attempts leave. */
  lemma {:induction false} HandlerFields(s: Settings, steps: seq<Step>, k: nat)
    requires Possible(s, steps) && k < HANDLERS
    ensures FieldsAre(After(s, steps).handlers[k], Attempts(s, steps), s, k)
  {
    hide RegistryMatches, AfterStart, Triggers;
    if steps == [] {
      NothingLive(s);
    } else {
      var front := steps[..|steps| - 1];
      HandlerFields(s, front, k);
      RegistryFollowsAttempts(s, front);
      StepParts(s, steps);
      hide FieldsAre, Next, Enabled;
      var c, c', step := After(s, front), After(s, steps), steps[|steps| - 1];
      if step.Deliver? && Triggers(c.rows, step.record) {
        var a := Attempt(CallFor(step.record), step.grants);
        if a.call.handler == k {
          FieldsStep(c.handlers[k], c.dpdk, s, a, Attempts(s, front), k);
        } else {
          FieldsElsewhere(c.handlers[k], c'.handlers[k], s, a, Attempts(s, front), k);
        }
      } else {
        SameFields(c.handlers[k], c'.handlers[k], s, Attempts(s, front), k);
      }
    }
  }

  lemma {:induction false} SameFields(h: Handler, h': Handler, s: Settings, attempts: seq<Attempt>, k: int)
    requires FieldsAre(h, attempts, s, k) && h' == h.(life := h'.life)
    ensures FieldsAre(h', attempts, s, k)
  {
    hide TxPoolName, RxPoolName, TxRingName, Reached, LatestReached, NeverReached;
  }

  // ----- The workers

  /** The launches made on handler k. */
  function LaunchesOn(ls: seq<Launched>, k: int): nat {
    if ls == [] then 0 else LaunchesOn(ls[..|ls| - 1], k) + if ls[|ls| - 1].txqid / 2 == k then 1 else 0
  }

  lemma {:induction false} OneLaunch(c: Controller, s: Settings, m: RingState, g: Grants)
    requires WellFormed(c) && m.InRange()
    ensures var ls := LaunchesOf(c, s, m, g);
            || ls == []
            || (Configured(s) && |ls| == 1 && ls[0].workers == s.threads && ls[0].txqid == m.qid && !m.IsDestroy())
  {
    hide TxPoolName, RxPoolName, TxRingName, Apply, PairOn;
  }

  lemma {:induction false} LaunchesOnStep(ls: seq<Launched>, l: Launched, k: int)
    ensures LaunchesOn(ls + [l], k) == LaunchesOn(ls, k) + if l.txqid / 2 == k then 1 else 0
  {
    assert (ls + [l])[..|ls|] == ls;
  }

  lemma {:induction false} LaunchAdds(life: L.Life, n: nat)
    ensures |L.Next(life, L.Launch(n)).workers| == |life.workers| + n
  {
  }

  lemma {:induction false} WorkersStep(s: Settings, steps: seq<Step>, k: nat)
    requires Possible(s, steps) && steps != [] && k < HANDLERS
    ensures var (front, step) := (steps[..|steps| - 1], steps[|steps| - 1]);
            var (before, after) := (After(s, front).handlers[k].life, After(s, steps).handlers[k].life);
            var ls := if step.Deliver? then LaunchesOf(After(s, front), s, step.record, step.grants) else [];
            && Launches(s, steps) == Launches(s, front) + ls
            && |after.workers| == |before.workers| +
               if ls != [] && step.record.qid / 2 == k then WorkersFor(s) else 0
  {
    hide Process, LaunchesOf, AfterStart;
    var front := steps[..|steps| - 1];
    var c := After(s, front);
    match steps[|steps| - 1] {
      case Deliver(m, g) =>
        ProcessedLife(c, s, m, g, k);
        OneLaunch(c, s, m, g);
        LaunchAdds(c.handlers[k].life, WorkersFor(s));
        hide L.Next;
        assert L.Next(c.handlers[k].life, L.Stop).workers == c.handlers[k].life.workers by {
          StopKeepsWorkers(c.handlers[k].life);
        }
      case Work(_, _) =>
    }
  }

  lemma {:induction false} StopKeepsWorkers(life: L.Life)
    ensures L.Next(life, L.Stop).workers == life.workers
  {
  }

  /** After any run: in mode Loopback with one or two threads every launch starts that many
      workers and every handler has exactly those of its launches; with any other settings
      nothing is launched and no handler ever has a worker. */
  lemma {:induction false} WorkersExact(s: Settings, steps: seq<Step>, k: nat)
    requires Possible(s, steps) && k < HANDLERS
    ensures var (ls, workers) := (Launches(s, steps), After(s, steps).handlers[k].life.workers);
            if s.mode == "Loopback" && s.threads == 1 then
              |workers| == LaunchesOn(ls, k) && forall l | l in ls :: l.workers == 1
            else if s.mode == "Loopback" && s.threads == 2 then
              |workers| == 2 * LaunchesOn(ls, k) && forall l | l in ls :: l.workers == 2
            else
              workers == [] && ls == []
  {
    hide After, Possible, Launches, LaunchesOn, LaunchesOf;
    if steps == [] {
      NothingLive(s);
      assert LaunchesOn([], k) == 0 by {
        NoneOn(k);
      }
    } else {
      var front, step := steps[..|steps| - 1], steps[|steps| - 1];
      assert Possible(s, front) && Enabled(After(s, front), step) by {
        FrontPossible(s, steps);
      }
      WorkersExact(s, front, k);
      WorkersStep(s, steps, k);
      if step.Deliver? {
        OneLaunch(After(s, front), s, step.record, step.grants);
        var ls := LaunchesOf(After(s, front), s, step.record, step.grants);
        if ls != [] {
          assert ls == [ls[0]];
          LaunchesOnStep(Launches(s, front), ls[0], k);
        }
      }
      assert Launches(s, front) + [] == Launches(s, front);
    }
  }

  lemma {:induction false} NoneOn(k: int)
    ensures LaunchesOn([], k) == 0
  {
  }

  lemma {:induction false} FrontPossible(s: Settings, steps: seq<Step>)
    requires Possible(s, steps) && steps != []
    ensures Possible(s, steps[..|steps| - 1])
    ensures Enabled(After(s, steps[..|steps| - 1]), steps[|steps| - 1])
  {
  }

  /** In any mode, a fully granted start() for a pair that had no transmit pool takes both
      pools and the ring, whether or not it has threads to run. */
  lemma {:induction false} GrantedStartTakesAll(s: Settings, steps: seq<Step>, m: RingState)
    requires Possible(s, steps) && m.InRange() && Triggers(After(s, steps).rows, m)
    requires !PoolTaken(Attempts(s, steps), m.deviceId, m.qid)
    ensures var steps' := steps + [Deliver(m, Grants(true, true, true))];
            && Possible(s, steps')
            && var d := After(s, steps').dpdk;
               && TxPoolName(m.deviceId, m.qid) in d.pools && RxPoolName(m.deviceId, m.qid - 1) in d.pools
               && TxRingName(m.deviceId, m.qid) in d.rings
  {
    var g := Grants(true, true, true);
    var steps' := steps + [Deliver(m, g)];
    AfterStep(s, steps, Deliver(m, g));
    RegistryExact(s, steps');
    ControllerReplays(s, steps);
    StartsStep(Delivered(steps), m);
    AttemptsStep(s, steps, m, g);
    var a := Attempt(CallFor(m), g);
    FirstGotStep(Attempts(s, steps), a, m.deviceId, m.qid, false, false);
    FirstGotStep(Attempts(s, steps), a, m.deviceId, m.qid, true, false);
    FirstGotStep(Attempts(s, steps), a, m.deviceId, m.qid, true, true);
    hide TxPoolName, RxPoolName, TxRingName, FirstGot, PoolTaken, Attempts, After, Possible, Triggers, LastOn, Replay;
  }

  // ----- The ready flag

  /** Record i is for a device that an earlier record named: the kind that sets the flag. */
  ghost predicate Touches(ms: seq<RingState>, i: nat) {
    && i < |ms| && ms[i].meta != 1
    && exists j :: 0 <= j < i && ms[j].meta != 1 && ms[j].deviceId == ms[i].deviceId
  }

  ghost predicate LatestTouch(ms: seq<RingState>, i: nat) {
    Touches(ms, i) && forall j: nat | j > i :: !Touches(ms, j)
  }

  lemma {:induction false} TouchStep(ms: seq<RingState>, m: RingState)
    requires AllInRange(ms) && m.InRange()
    ensures forall i: nat | i < |ms| :: Touches(ms + [m], i) <==> Touches(ms, i)
    ensures Touches(ms + [m], |ms|) <==> m.meta != 1 && m.deviceId in Replay(ms)
  {
    ReplayMeaning(ms, m.deviceId);
    hide Replay;
    var ms' := ms + [m];
    assert ms'[|ms|] == m && forall i | 0 <= i < |ms| :: ms'[i] == ms[i];
  }

  ghost predicate FlagIs(ready: bool, ms: seq<RingState>) {
    && ((forall i: nat :: !Touches(ms, i)) ==> !ready)
    && forall i: nat | LatestTouch(ms, i) ::
         var (d, even) := (ms[i].deviceId, ms[i].qid / 2 * 2);
         ready <==> LastOn(ms[..i + 1], d, even) && LastOn(ms[..i + 1], d, even + 1)
  }

  lemma {:induction false} NextReadyMeaning(ready: bool, ms: seq<RingState>, m: RingState)
    requires AllInRange(ms) && m.InRange()
    ensures NextReady(ready, Replay(ms), m) <==>
            if m.meta == 1 || m.deviceId !in Replay(ms) then ready
            else LastOn(ms + [m], m.deviceId, m.qid / 2 * 2) && LastOn(ms + [m], m.deviceId, m.qid / 2 * 2 + 1)
  {
    StartsStep(ms, m);
    if m.meta != 1 {
      ReplayIsLastOn(ms + [m], m.deviceId, m.qid / 2 * 2);
      ReplayIsLastOn(ms + [m], m.deviceId, m.qid / 2 * 2 + 1);
    }
    hide Replay, LastOn, Triggers, Starts;
  }

  lemma {:induction false} FlagStep(ready: bool, ms: seq<RingState>, m: RingState)
    requires AllInRange(ms) && m.InRange() && FlagIs(ready, ms)
    ensures FlagIs(NextReady(ready, Replay(ms), m), ms + [m])
  {
    hide Touches, LastOn, Replay, NextReady;
    NextReadyMeaning(ready, ms, m);
    TouchStep(ms, m);
    NoTouchBeyond(ms);
    NoTouchBeyond(ms + [m]);
    var ms' := ms + [m];
    assert ms'[|ms|] == m && ms'[..|ms| + 1] == ms';
    assert forall i: nat | i < |ms| :: ms'[i] == ms[i] && ms'[..i + 1] == ms[..i + 1];
  }

  lemma {:induction false} NoTouchBeyond(ms: seq<RingState>)
    ensures forall i: nat | i >= |ms| :: !Touches(ms, i)
  {
  }

  /** After any run the ready flag says whether, when the last record of a device already known
      was processed, both queues of that record's pair were on; it starts out false, and first
      records, destroy records and workers leave it alone. */
  lemma {:induction false} ReadyFlag(s: Settings, steps: seq<Step>)
    requires Possible(s, steps)
    ensures AllInRange(Delivered(steps))
    ensures FlagIs(After(s, steps).ready, Delivered(steps))
  {
    hide FlagIs;
    ControllerReplays(s, steps);
    if steps == [] {
      assert FlagIs(false, []) by {
        NoFlag();
      }
    } else {
      var front, step := steps[..|steps| - 1], steps[|steps| - 1];
      ControllerReplays(s, front);
      ReadyFlag(s, front);
      hide NextReady, Triggers, AfterStart, Apply, Replay;
      if step.Deliver? {
        FlagStep(After(s, front).ready, Delivered(front), step.record);
      } else {
        assert Delivered(steps) == Delivered(front);
      }
    }
  }

  lemma {:induction false} NoFlag()
    ensures FlagIs(false, [])
  {
  }
}
