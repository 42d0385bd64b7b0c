/** Worker threads of one handler and the running flag they share. A worker stores true once
    when it is entered, and then loops: test the flag, sleep, test again. stop() stores false. */
module Lifecycle {

  /** Entered: about to store true. Testing: about to evaluate the loop guard.
      Sleeping: inside the loop body. Finished: left the loop. */
  datatype WorkerPc = Entered | Testing | Sleeping | Finished

  datatype Life = Life(running: bool, workers: seq<WorkerPc>)

  datatype LifeStep = Launch(count: nat) | Stop | Work(worker: nat)

  const IDLE: Life := Life(false, [])

  predicate Enabled(l: Life, step: LifeStep) {
    step.Work? ==> step.worker < |l.workers| && !l.workers[step.worker].Finished?
  }

  function WorkerNext(running: bool, pc: WorkerPc): (bool, WorkerPc) {
    match pc
    case Entered => (true, Testing)
    case Testing => (running, if running then Sleeping else Finished)
    case Sleeping => (running, Testing)
    case Finished => (running, Finished)
  }

  function Next(l: Life, step: LifeStep): Life
    requires Enabled(l, step)
  {
    match step
    case Launch(count) => l.(workers := l.workers + seq(count, _ => Entered))
    case Stop => l.(running := false)
    case Work(i) =>
      var (running, pc) := WorkerNext(l.running, l.workers[i]);
      Life(running, l.workers[i := pc])
  }

  /** Every step of the run is enabled when it is taken, starting from l. */
  predicate Possible(l: Life, steps: seq<LifeStep>)
    decreases |steps|, 0
  {
    steps != [] ==>
      && Possible(l, steps[..|steps| - 1])
      && Enabled(After(l, steps[..|steps| - 1]), steps[|steps| - 1])
  }

  function After(l: Life, steps: seq<LifeStep>): Life
    requires Possible(l, steps)
    decreases |steps|, 1
  {
    if steps == [] then l else Next(After(l, steps[..|steps| - 1]), steps[|steps| - 1])
  }

  lemma {:induction false} AfterSplits(l: Life, a: seq<LifeStep>, b: seq<LifeStep>)
    requires Possible(l, a + b)
    ensures Possible(l, a) && Possible(After(l, a), b)
    ensures After(l, a + b) == After(After(l, a), b)
  {
    if b == [] {
      assert a + b == a;
    } else {
      assert (a + b)[..|a + b| - 1] == a + b[..|b| - 1];
      AfterSplits(l, a, b[..|b| - 1]);
    }
  }

  // ----- No spurious exit

  /** Step a of the run is worker i's own store of true. */
  ghost predicate StoresAt(l: Life, steps: seq<LifeStep>, a: nat, i: nat)
    requires Possible(l, steps)
  {
    && a < |steps| && steps[a] == Work(i)
    && Possible(l, steps[..a])
    && var before := After(l, steps[..a]);
       i < |before.workers| && before.workers[i].Entered?
  }

  lemma {:induction false} StoresAtExtends(l: Life, steps: seq<LifeStep>, a: nat, i: nat)
    requires Possible(l, steps) && steps != []
    requires StoresAt(l, steps[..|steps| - 1], a, i)
    ensures StoresAt(l, steps, a, i)
  {
    assert steps[..|steps| - 1][..a] == steps[..a];
  }

  lemma {:induction false} StopAfterStore(steps: seq<LifeStep>, i: nat)
    requires Possible(IDLE, steps) && i < |After(IDLE, steps).workers|
    ensures var l := After(IDLE, steps);
            !l.workers[i].Entered? && (l.workers[i].Finished? || !l.running) ==>
            exists a: nat, b: nat :: a < b < |steps| && StoresAt(IDLE, steps, a, i) && steps[b] == Stop
    ensures !After(IDLE, steps).workers[i].Entered? ==> exists a: nat :: StoresAt(IDLE, steps, a, i)
  {
    if steps != [] {
      var n := |steps| - 1;
      var front := steps[..n];
      var l := After(IDLE, front);
      if i < |l.workers| {
        StopAfterStore(front, i);
        if a: nat, b: nat :| a < b < n && StoresAt(IDLE, front, a, i) && front[b] == Stop {
          StoresAtExtends(IDLE, steps, a, i);
          assert a < b < |steps| && steps[b] == Stop;
        }
        if a: nat :| StoresAt(IDLE, front, a, i) {
          StoresAtExtends(IDLE, steps, a, i);
          if steps[n] == Stop {
            assert a < n < |steps|;
          }
        }
        if l.workers[i].Entered? && steps[n] == Work(i) {
          assert StoresAt(IDLE, steps, n, i);
        }
      }
    }
  }

  /** However many workers share the flag and however they interleave, a worker that has left
      its loop was stopped: some stop() came after that worker's own store of true. */
  lemma {:induction false} NoSpuriousExit(steps: seq<LifeStep>, i: nat)
    requires Possible(IDLE, steps) && i < |After(IDLE, steps).workers|
    requires After(IDLE, steps).workers[i].Finished?
    ensures exists a: nat, b: nat :: a < b < |steps| && StoresAt(IDLE, steps, a, i) && steps[b] == Stop
  {
    StopAfterStore(steps, i);
  }

  // ----- Stop terminates

  ghost predicate NoneEntered(l: Life) {
    forall i | 0 <= i < |l.workers| :: !l.workers[i].Entered?
  }

  /** No worker is added. Stops may fall anywhere, as may a start() that launches nobody. */
  ghost predicate NobodyLaunched(steps: seq<LifeStep>) {
    forall i | 0 <= i < |steps| && steps[i].Launch? :: steps[i].count == 0
  }

  function WorkerSteps(steps: seq<LifeStep>): nat {
    if steps == [] then 0 else WorkerSteps(steps[..|steps| - 1]) + if steps[|steps| - 1].Work? then 1 else 0
  }

  function Remaining(ws: seq<WorkerPc>): nat {
    if ws == [] then 0
    else Remaining(ws[..|ws| - 1]) + match ws[|ws| - 1]
                                     case Entered => 3
                                     case Sleeping => 2
                                     case Testing => 1
                                     case Finished => 0
  }

  function Cost(pc: WorkerPc): nat {
    Remaining([pc])
  }

  lemma {:induction false} RemainingUpdate(ws: seq<WorkerPc>, i: nat, pc: WorkerPc)
    requires i < |ws|
    ensures Remaining(ws[i := pc]) == Remaining(ws) - Cost(ws[i]) + Cost(pc)
  {
    var n := |ws| - 1;
    if i < n {
      RemainingUpdate(ws[..n], i, pc);
      assert ws[i := pc][..n] == ws[..n][i := pc];
    } else {
      assert ws[i := pc][..n] == ws[..n];
      assert [pc][..0] == [] && [ws[i]][..0] == [];
    }
  }

  /** With the flag down and every worker past its store, a worker step keeps it so and makes
      the measure fall. */
  lemma {:induction false} StoppedStepFalls(l: Life, i: nat)
    requires !l.running && NoneEntered(l) && Enabled(l, Work(i))
    ensures var l' := Next(l, Work(i));
            !l'.running && NoneEntered(l') && Remaining(l'.workers) < Remaining(l.workers)
  {
    RemainingUpdate(l.workers, i, WorkerNext(false, l.workers[i]).1);
  }

  lemma {:induction false} StoppedRun(l: Life, steps: seq<LifeStep>)
    requires !l.running && NoneEntered(l) && NobodyLaunched(steps) && Possible(l, steps)
    ensures !After(l, steps).running && NoneEntered(After(l, steps))
    ensures WorkerSteps(steps) + Remaining(After(l, steps).workers) <= Remaining(l.workers)
  {
    if steps != [] {
      var front, step := steps[..|steps| - 1], steps[|steps| - 1];
      StoppedRun(l, front);
      if step.Work? {
        StoppedStepFalls(After(l, front), step.worker);
      } else if step.Launch? {
        assert After(l, front).workers + [] == After(l, front).workers;
      }
    }
  }

  /** Worker i, still before its store when stop() was called, raises the flag and then loops
      for as long as it is scheduled, a test and a sleep in turn. */
  lemma {:induction false} LateStoreRunsOn(l: Life, i: nat, n: nat)
    requires i < |l.workers| && l.workers[i].Entered?
    ensures var steps := seq(n, _ => Work(i));
            && Possible(l, steps)
            && |After(l, steps).workers| == |l.workers|
            && !After(l, steps).workers[i].Finished?
            && (n > 0 ==> After(l, steps).running)
            && After(l, steps).workers[i] == (if n == 0 then Entered else if n % 2 == 1 then Testing else Sleeping)
            && WorkerSteps(steps) == n
  {
    if n > 0 {
      LateStoreRunsOn(l, i, n - 1);
      assert seq(n, _ => Work(i))[..n - 1] == seq(n - 1, _ => Work(i));
    }
  }

  ghost predicate BoundedBy(l: Life, bound: nat) {
    forall steps | NobodyLaunched(steps) && Possible(l, steps) :: WorkerSteps(steps) <= bound
  }

  /** After stop(), as long as nobody new is launched, the workers are sure to finish exactly
      when none of them had yet to store true: a stop() that overtakes a store is lost. */
  lemma {:induction false} StopTerminatesIff(l: Life)
    requires !l.running
    ensures NoneEntered(l) <==> exists bound: nat :: BoundedBy(l, bound)
    ensures NoneEntered(l) ==> BoundedBy(l, Remaining(l.workers))
  {
    if NoneEntered(l) {
      forall steps | NobodyLaunched(steps) && Possible(l, steps)
        ensures WorkerSteps(steps) <= Remaining(l.workers)
      {
        StoppedRun(l, steps);
      }
      assert BoundedBy(l, Remaining(l.workers));
    } else {
      var i :| 0 <= i < |l.workers| && l.workers[i].Entered?;
      forall bound: nat
        ensures !BoundedBy(l, bound)
      {
        LateStoreRunsOn(l, i, bound + 1);
        var steps := seq(bound + 1, _ => Work(i));
        assert NobodyLaunched(steps) && WorkerSteps(steps) > bound;
      }
    }
  }

  /** A run of a stopped handler that cannot be extended has finished every worker. */
  lemma {:induction false} StuckIsFinished(l: Life, steps: seq<LifeStep>)
    requires !l.running && NoneEntered(l) && NobodyLaunched(steps) && Possible(l, steps)
    requires forall i: nat :: !Enabled(After(l, steps), Work(i))
    ensures !After(l, steps).running
    ensures forall i | 0 <= i < |After(l, steps).workers| :: After(l, steps).workers[i].Finished?
  {
    StoppedRun(l, steps);
    var l' := After(l, steps);
    forall i | 0 <= i < |l'.workers|
      ensures l'.workers[i].Finished?
    {
      assert !Enabled(l', Work(i));
    }
  }
}
