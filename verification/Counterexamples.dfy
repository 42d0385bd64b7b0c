/** Reachable states in which a natural expectation about the control plane fails. The exact
    conditions are in the modules this one imports; here are the runs. */
module Counterexamples {
  import opened Records
  import opened Replica
  import opened ConfigManager
  import opened VhostController
  import opened SenderHistory
  import opened Protocol
  import C = PortController
  import H = PortHandler
  import L = Lifecycle

  const ALL: H.Grants := H.Grants(true, true, true)

  /** The state is quiet at the end of a run of exactly these callbacks. */
  ghost predicate EndsQuiet(st: H.Settings, steps: seq<Step>, es: seq<Event>) {
    Possible(st, steps) && Quiet(After(st, steps)) && After(st, steps).events == es
  }

  lemma {:induction false} RunOf(st: H.Settings, es: seq<Event>) returns (steps: seq<Step>)
    requires AllLegal(es)
    ensures EndsQuiet(st, steps, es)
  {
    steps := PlayAll(st, [], es, ALL);
    assert [] + es == es;
  }

  /** What is ready and what was started at the end of such a run. */
  lemma {:induction false} QuietPair(st: H.Settings, steps: seq<Step>, es: seq<Event>, d: int, k: nat)
    requires AllLegal(es) && EndsQuiet(st, steps, es)
    ensures var s := After(st, steps);
            && (Ready(s.sender.config, d, k) <==>
                && Present(es, d) && k < es[Birth(es, d)].vringCount / 2
                && VringOn(es[Birth(es, d)..], d, 2 * k) && VringOn(es[Birth(es, d)..], d, 2 * k + 1))
            && AllInRange(C.Delivered(s.history))
            && (StartCall(k, d, 2 * k, 2 * k + 1) in Starts(C.Delivered(s.history)) <==> Asked(es, d, k))
  {
    ReadyNow(st, steps, d, k);
    StartSeenIff(st, steps, d, k);
    hide After, Possible, Present, VringOn, Birth, Starts, Asked, Ready, C.Delivered;
  }

  /** Where the maps stand at the end of such a run. */
  lemma {:induction false} QuietMaps(st: H.Settings, steps: seq<Step>, es: seq<Event>, p: int, q: int)
    requires AllLegal(es) && EndsQuiet(st, steps, es) && 0 <= q < VRINGS
    ensures var s := After(st, steps);
            && (On(s.controller.rows, p, q) <==> Announces(es, p, q))
            && (p in s.sender.config <==> Present(es, p))
            && (Present(es, p) ==>
                  && s.sender.config[p].vid == es[Birth(es, p)].vid
                  && (q in s.sender.config[p].enabled <==>
                      q < es[Birth(es, p)].vringCount / 2 * 2 && VringOn(es[Birth(es, p)..], p, q)))
  {
    QuietSettles(st, steps);
    SentIsAnnounced(es, p, q);
    ConfigMeaning(es, p);
    hide After, Possible, SenderOf, VringOn, Announces, Birth, On, Replay, C.Delivered;
  }

  lemma {:induction false} Split(es: seq<Event>, e: Event, p: int, q: int)
    ensures VringOn(es + [e], p, q) == if Sets(e, p, q) then TurnsOn(e) else VringOn(es, p, q)
    ensures Birth(es + [e], p) == if e.NewDevice? && Arrivals(es) == p then |es| else Birth(es, p)
    ensures Arrivals(es + [e]) == Arrivals(es) + if e.NewDevice? then 1 else 0
  {
    VringOnStep(es, e, p, q);
    BirthStep(es, e, p);
  }

  lemma {:induction false} NoCallbacks(p: int, q: int)
    ensures Arrivals([]) == 0 && Birth([], p) == -1 && !VringOn([], p, q)
  {
  }

  // ----- Agreement

  lemma {:induction false} EarlyEnableHistory(n: nat, q: int)
    requires q >= 2
    ensures var es := [VringState(0, q, 1), NewDevice(0, n)];
            && Fresh(es) && Present(es, 0) && Birth(es, 0) == 1
            && VringOn(es, 0, q) && !VringOn(es[1..], 0, q)
  {
    hide VringOn, Birth, Arrivals;
    var a, b := VringState(0, q, 1), NewDevice(0, n);
    NoCallbacks(0, q);
    assert [a, b] == [] + [a] + [b] && [a, b][1..] == [] + [b];
    Split([], a, 0, q);
    Split([] + [a], b, 0, q);
    Split([], b, 0, q);
    assert [a, b][..1] == [] + [a];
  }

  /** A queue enabled before its device arrives: the receiver keeps the enable, the
      configuration starts the entry afresh. */
  lemma {:induction false} EarlyEnableDiverges(st: H.Settings, n: nat, q: int)
    requires 2 <= q < n / 2 * 2 <= VRINGS
    ensures exists steps :: EndsQuiet(st, steps, [VringState(0, q, 1), NewDevice(0, n)]) &&
              var s := After(st, steps);
              && Fresh(s.events) && 0 in s.controller.rows && |s.controller.rows[0]| == VRINGS
              && s.controller.rows[0][q] == 1
              && 0 in s.sender.config && q !in s.sender.config[0].enabled
  {
    var es := [VringState(0, q, 1), NewDevice(0, n)];
    EarlyEnableHistory(n, q);
    var steps := RunOf(st, es);
    QuietMaps(st, steps, es, 0, q);
    hide After, Possible, VringOn, Birth;
  }

  lemma {:induction false} DisabledFirstHistory(n: nat, q: int)
    requires 0 <= q < 2
    ensures var es := [NewDevice(0, n), VringState(0, q, 0)];
            Fresh(es) && Present(es, 0) && Birth(es, 0) == 0 && Arrived(es, 0) && !VringOn(es[0..], 0, q)
  {
    hide VringOn, Birth, Arrivals;
    var a, b := NewDevice(0, n), VringState(0, q, 0);
    NoCallbacks(0, q);
    assert [a, b] == [] + [a] + [b] && [a, b][0..] == [a, b];
    Split([], a, 0, q);
    Split([] + [a], b, 0, q);
    assert [a, b][..0] == [] && [a, b][0] == a;
  }

  /** Disabling queue 0 or 1 is never told to the receiver. */
  lemma {:induction false} DisabledFirstDiverges(st: H.Settings, n: nat, q: int)
    requires 0 <= q < 2 <= n / 2 * 2 <= VRINGS
    ensures exists steps :: EndsQuiet(st, steps, [NewDevice(0, n), VringState(0, q, 0)]) &&
              var s := After(st, steps);
              && Fresh(s.events) && 0 in s.controller.rows && |s.controller.rows[0]| == VRINGS
              && s.controller.rows[0][q] == 1
              && 0 in s.sender.config && q !in s.sender.config[0].enabled
  {
    var es := [NewDevice(0, n), VringState(0, q, 0)];
    DisabledFirstHistory(n, q);
    var steps := RunOf(st, es);
    QuietMaps(st, steps, es, 0, q);
    hide After, Possible, VringOn, Birth;
  }

  // ----- Readiness

  lemma {:induction false} OddFirstHistory(n: nat, k: int)
    requires 1 <= k < n / 2
    ensures var es := [NewDevice(0, n), VringState(0, 2 * k + 1, 1), VringState(0, 2 * k, 1)];
            && Fresh(es) && Present(es, 0) && Birth(es, 0) == 0
            && VringOn(es[0..], 0, 2 * k) && VringOn(es[0..], 0, 2 * k + 1)
            && !VringOn(es[..1], 0, 2 * k)
  {
    var a, b, c := NewDevice(0, n), VringState(0, 2 * k + 1, 1), VringState(0, 2 * k, 1);
    var es := [a, b, c];
    assert es == [] + [a] + [b] + [c] && es[0..] == es && es[..1] == [] + [a] && es[..0] == [];
    Split([], a, 0, 2 * k);
    Split([] + [a], b, 0, 2 * k);
    Split([] + [a] + [b], c, 0, 2 * k);
    Split([] + [a], b, 0, 2 * k + 1);
    Split([] + [a] + [b], c, 0, 2 * k + 1);
    assert Arrivals([]) == 0;
    hide VringOn, Birth;
  }

  /** An odd queue enabled before its even partner leaves a pair that the configuration calls
      ready and that no start() was ever called for. */
  lemma {:induction false} OddFirstIsSilent(st: H.Settings, n: nat, k: int)
    requires 1 <= k < n / 2 <= MAX_QUEUE_PAIRS
    ensures exists steps ::
              && EndsQuiet(st, steps, [NewDevice(0, n), VringState(0, 2 * k + 1, 1), VringState(0, 2 * k, 1)])
              && Fresh(After(st, steps).events)
              && Ready(After(st, steps).sender.config, 0, k)
              && AllInRange(C.Delivered(After(st, steps).history))
              && StartCall(k, 0, 2 * k, 2 * k + 1) !in Starts(C.Delivered(After(st, steps).history))
  {
    var es := [NewDevice(0, n), VringState(0, 2 * k + 1, 1), VringState(0, 2 * k, 1)];
    OddFirstHistory(n, k);
    var steps := RunOf(st, es);
    hide SenderOf, After, Possible, Starts, VringOn, Birth, Fresh, Ready;
    QuietPair(st, steps, es, 0, k);
  }

  lemma {:induction false} UnfiledHistory(v: int, n: nat, k: int)
    requires v != 0 && k >= 1
    ensures var es := [NewDevice(v, n), VringState(v, 2 * k, 1), VringState(v, 2 * k + 1, 1)];
            !Present(es, v) && EvenFirst(es, v, k) && VringOn(es[..2], v, 2 * k)
  {
    var a, b, c := NewDevice(v, n), VringState(v, 2 * k, 1), VringState(v, 2 * k + 1, 1);
    var es := [a, b, c];
    assert es == [] + [a] + [b] + [c] && es[..2] == [] + [a] + [b];
    Split([], a, v, 2 * k);
    Split([] + [a], b, v, 2 * k);
    Split([] + [a] + [b], c, v, 2 * k);
  }

  /** A device whose id is no port number in use: its queue states are filed under a key that
      does not exist. Its pair is started, and does not read as ready. */
  lemma {:induction false} UnfiledIdIsNotReady(st: H.Settings, v: int, n: nat, k: int)
    requires 1 <= k < n / 2 <= MAX_QUEUE_PAIRS && v != 0
    ensures exists steps ::
              && EndsQuiet(st, steps, [NewDevice(v, n), VringState(v, 2 * k, 1), VringState(v, 2 * k + 1, 1)])
              && EvenFirst(After(st, steps).events, v, k)
              && !Ready(After(st, steps).sender.config, v, k)
              && AllInRange(C.Delivered(After(st, steps).history))
              && StartCall(k, v, 2 * k, 2 * k + 1) in Starts(C.Delivered(After(st, steps).history))
  {
    var es := [NewDevice(v, n), VringState(v, 2 * k, 1), VringState(v, 2 * k + 1, 1)];
    UnfiledHistory(v, n, k);
    var steps := RunOf(st, es);
    hide SenderOf, After, Possible, Starts, VringOn, Birth, EvenFirst, Present, Ready;
    QuietPair(st, steps, es, v, k);
    assert es[2] == VringState(v, 2 * k + 1, 1);
  }

  lemma {:induction false} CrossedQueue(n: nat, k: int, p: int, q: int)
    requires k >= 1 && q >= 2 && 0 <= p < 2
    ensures var es := [] + [NewDevice(1, n)] + [NewDevice(0, n)] + [VringState(1, 2 * k, 1)]
                      + [VringState(1, 2 * k + 1, 1)];
            && Birth(es, p) == p
            && (VringOn(es, p, q) <==> p == 1 && (q == 2 * k || q == 2 * k + 1))
    ensures var es := [] + [NewDevice(0, n)] + [VringState(1, 2 * k, 1)] + [VringState(1, 2 * k + 1, 1)];
            VringOn(es, p, q) <==> p == 1 && (q == 2 * k || q == 2 * k + 1)
  {
    hide VringOn, Birth, Arrivals;
    var a, b, c, d := NewDevice(1, n), NewDevice(0, n), VringState(1, 2 * k, 1), VringState(1, 2 * k + 1, 1);
    NoCallbacks(p, q);
    Split([], a, p, q);
    Split([] + [a], b, p, q);
    Split([] + [a] + [b], c, p, q);
    Split([] + [a] + [b] + [c], d, p, q);
    Split([], b, p, q);
    Split([] + [b], c, p, q);
    Split([] + [b] + [c], d, p, q);
  }

  lemma {:induction false} CrossedHistory(n: nat, k: int)
    requires k >= 1
    ensures var es := [NewDevice(1, n), NewDevice(0, n), VringState(1, 2 * k, 1), VringState(1, 2 * k + 1, 1)];
            && Present(es, 0) && Present(es, 1) && Birth(es, 0) == 0 && Birth(es, 1) == 1
            && VringOn(es[1..], 1, 2 * k) && VringOn(es[1..], 1, 2 * k + 1) && !VringOn(es[0..], 0, 2 * k)
  {
    var a, b, c, d := NewDevice(1, n), NewDevice(0, n), VringState(1, 2 * k, 1), VringState(1, 2 * k + 1, 1);
    var es := [a, b, c, d];
    assert es == [] + [a] + [b] + [c] + [d] && es[0..] == es && es[1..] == [] + [b] + [c] + [d];
    assert Arrivals([]) == 0;
    CrossedQueue(n, k, 0, 2 * k);
    CrossedQueue(n, k, 1, 2 * k);
    CrossedQueue(n, k, 1, 2 * k + 1);
    hide VringOn, Birth;
  }

  /** Two devices that arrive in the other order are filed under each other's id: device 1 is
      asked for, the entry of device 0 answers, and device 1's own entry is not ready. */
  lemma {:induction false} AnotherDeviceAnswers(st: H.Settings, n: nat, k: int)
    requires 1 <= k < n / 2 <= MAX_QUEUE_PAIRS
    ensures exists steps ::
              && EndsQuiet(st, steps, [NewDevice(1, n), NewDevice(0, n),
                                       VringState(1, 2 * k, 1), VringState(1, 2 * k + 1, 1)])
              && var c := After(st, steps).sender.config;
                 && Ready(c, 1, k) && c[1].vid == 0
                 && 0 in c && c[0].vid == 1 && !Ready(c, 0, k)
  {
    var es := [NewDevice(1, n), NewDevice(0, n), VringState(1, 2 * k, 1), VringState(1, 2 * k + 1, 1)];
    CrossedHistory(n, k);
    var steps := RunOf(st, es);
    QuietMaps(st, steps, es, 0, 0);
    QuietMaps(st, steps, es, 1, 0);
    hide SenderOf, After, Possible, VringOn, Birth, Present, On, Announces;
    QuietPair(st, steps, es, 0, k);
    QuietPair(st, steps, es, 1, k);
  }

  // ----- Handlers

  /** A device with n vrings arrives and enables its pair k, even queue first. */
  function Session(v: int, n: nat, k: nat): seq<Event> {
    if k == 0 then [NewDevice(v, n)]
    else [NewDevice(v, n), VringState(v, 2 * k, 1), VringState(v, 2 * k + 1, 1)]
  }

  function PairCall(v: int, k: nat): StartCall {
    StartCall(k, v, 2 * k, 2 * k + 1)
  }

  /** Whatever came before, a session ends by asking for the start of its pair. */
  lemma {:induction false} SessionStarts(es: seq<Event>, v: int, n: nat, k: nat)
    ensures var starts := StartsOf(es + Session(v, n, k));
            && |starts| > |StartsOf(es)|
            && starts[|starts| - 1] == PairCall(v, k)
    ensures Asked(es + Session(v, n, k), v, k)
  {
    hide StartsOf, VringOn;
    var a, b, c := NewDevice(v, n), VringState(v, 2 * k, 1), VringState(v, 2 * k + 1, 1);
    StartsOfStep(es, a);
    if k == 0 {
      assert es + Session(v, n, k) == es + [a];
    } else {
      assert es + Session(v, n, k) == es + [a] + [b] + [c];
      StartsOfStep(es + [a], b);
      StartsOfStep(es + [a] + [b], c);
      VringOnStep(es + [a], b, v, 2 * k);
    }
    hide Session, Asked;
    AskedIff(es + Session(v, n, k), v, k);
  }

  /** From a quiet state, a whole session, everything granted as g says: the last start() made
      is the session's, and it was granted g. */
  lemma {:induction false} PlaySession(st: H.Settings, steps: seq<Step>, v: int, n: nat, k: nat, g: H.Grants)
    returns (steps': seq<Step>)
    requires Possible(st, steps) && Quiet(After(st, steps)) && k < n / 2 <= MAX_QUEUE_PAIRS
    ensures EndsQuiet(st, steps', After(st, steps).events + Session(v, n, k))
    ensures C.GrownBy(After(st, steps).history, After(st, steps').history, g)
    ensures C.Possible(st, After(st, steps').history)
    ensures var attempts := C.Attempts(st, After(st, steps').history);
            attempts != [] && attempts[|attempts| - 1] == C.Attempt(PairCall(v, k), g)
  {
    hide After, Possible, Session, StartsOf, C.After, C.Possible, C.Attempts, C.GrownBy;
    SessionLegal(v, n, k);
    steps' := PlayAll(st, steps, Session(v, n, k), g);
    QuietAttempts(st, steps);
    QuietAttempts(st, steps');
    SessionStarts(After(st, steps).events, v, n, k);
    C.GrownAttempts(st, After(st, steps).history, After(st, steps').history, g);
  }

  lemma {:induction false} SessionLegal(v: int, n: nat, k: nat)
    requires k < n / 2 <= MAX_QUEUE_PAIRS
    ensures AllLegal(Session(v, n, k))
  {
  }

  /** In a quiet state the attempts are the starts the callbacks ask for. */
  lemma {:induction false} QuietAttempts(st: H.Settings, steps: seq<Step>)
    requires Possible(st, steps) && Quiet(After(st, steps))
    ensures var s := After(st, steps);
            && C.Possible(st, s.history)
            && |C.Attempts(st, s.history)| == |StartsOf(s.events)|
            && forall i | 0 <= i < |StartsOf(s.events)| :: C.Attempts(st, s.history)[i].call == StartsOf(s.events)[i]
  {
    hide After, Possible, Settled, Heard, StartsOf, Starts, C.After, C.Possible, C.Attempts, C.Delivered;
    RunSettles(st, steps);
    CurrentStarts(st, steps);
    QuietIsHeard(After(st, steps));
    C.AttemptsAreStarts(st, After(st, steps).history);
  }

  /** A first session, the removal of its device, and a second session under the same id. */
  lemma {:induction false} TwoSessions(st: H.Settings, v: int, n: nat, k: nat, g: H.Grants)
    returns (first: seq<Step>, second: seq<Step>)
    requires k < n / 2 <= MAX_QUEUE_PAIRS
    ensures EndsQuiet(st, first, Session(v, n, k))
    ensures EndsQuiet(st, second, Session(v, n, k) + [Destroy(v)] + Session(v, n, k))
    ensures LastAttempt(st, first, v, k, g) && LastAttempt(st, second, v, k, ALL)
    ensures C.GrownBy([], After(st, first).history, g)
    ensures C.GrownBy(After(st, first).history, After(st, second).history, ALL)
  {
    hide After, Possible, Session, C.Possible, C.Attempts;
    assert Possible(st, []) && After(st, []) == Initial() by {
      NoSteps(st);
    }
    first := PlaySession(st, [], v, n, k, g);
    assert [] + Session(v, n, k) == Session(v, n, k);
    var removed := PlayOne(st, first, Destroy(v), ALL);
    second := PlaySession(st, removed, v, n, k, ALL);
  }

  lemma {:induction false} NoSteps(st: H.Settings)
    ensures Possible(st, []) && After(st, []) == Initial()
  {
  }

  /** The last start() of the run was for pair k of v, with grants g. */
  ghost predicate LastAttempt(st: H.Settings, steps: seq<Step>, v: int, k: nat, g: H.Grants) {
    && Possible(st, steps) && C.Possible(st, After(st, steps).history)
    && var attempts := C.Attempts(st, After(st, steps).history);
       attempts != [] && attempts[|attempts| - 1] == C.Attempt(PairCall(v, k), g)
  }

  /** The launches a run has made for pair k of v. */
  ghost function PairLaunches(st: H.Settings, steps: seq<Step>, v: int, k: nat): seq<C.Launched>
    requires Possible(st, steps) && C.Possible(st, After(st, steps).history)
  {
    C.LaunchesFor(C.Launches(st, After(st, steps).history), v, 2 * k + 1)
  }

  /** Whatever a run goes on with after a start() that got its transmit pool, the launches for
      that pair stay as they are. */
  lemma {:induction false} LaunchesFrozen(st: H.Settings, first: seq<Step>, second: seq<Step>, v: int, k: nat,
                                          g: H.Grants, g': H.Grants)
    requires LastAttempt(st, first, v, k, g) && g.txPool
    requires LastAttempt(st, second, v, k, g')
    requires After(st, first).history <= After(st, second).history
    ensures PairLaunches(st, second, v, k) == PairLaunches(st, first, v, k)
  {
    hide After, Possible, C.After, C.Possible, C.Attempts, C.Launches, C.LaunchesFor;
    var h, h' := After(st, first).history, After(st, second).history;
    assert C.TakesPool(C.Attempt(PairCall(v, k), g), v, 2 * k + 1);
    assert C.PoolTaken(C.Attempts(st, h), v, 2 * k + 1);
    assert h + h'[|h|..] == h';
    C.NoLaterLaunch(st, h, h'[|h|..], v, 2 * k + 1);
  }

  /** A start() that gets its transmit pool and nothing more is never made good: the device is
      removed and comes back, its pair is started again with everything granted, and no worker
      is ever launched for it. */
  lemma {:induction false} HalfStartIsFinal(st: H.Settings, v: int, n: nat, k: nat)
    requires k < n / 2 <= MAX_QUEUE_PAIRS
    ensures exists first, second ::
              && EndsQuiet(st, first, Session(v, n, k))
              && EndsQuiet(st, second, Session(v, n, k) + [Destroy(v)] + Session(v, n, k))
              && LastAttempt(st, first, v, k, H.Grants(true, false, true)) && LastAttempt(st, second, v, k, ALL)
              && PairLaunches(st, second, v, k) == []
  {
    var half := H.Grants(true, false, true);
    var first, second := TwoSessions(st, v, n, k, half);
    LaunchesFrozen(st, first, second, v, k, half, ALL);
    HalfLaunchesNone(st, After(st, first).history, half, v, 2 * k + 1);
    hide After, Possible, Session, C.Possible, C.Attempts, C.Launches, C.LaunchesFor;
  }

  lemma {:induction false} HalfLaunchesNone(st: H.Settings, history: seq<C.Step>, g: H.Grants, v: int, q: int)
    requires C.Possible(st, history) && C.GrownBy([], history, g) && g != ALL
    ensures C.LaunchesFor(C.Launches(st, history), v, q) == []
  {
    C.GrownAttempts(st, [], history, g);
    hide C.After, C.Possible, C.Launches, C.LaunchesFor;
    C.LaunchedIff(st, history, v, q);
    C.NoneFor(C.Launches(st, history), v, q);
  }

  /** A pair that is enabled and launched, whose device is removed and comes back under the
      same id: start() is called again and launches nothing. */
  lemma {:induction false} ReturnStaysStopped(st: H.Settings, v: int, n: nat, k: nat)
    requires k < n / 2 <= MAX_QUEUE_PAIRS && H.WorkersFor(st) > 0
    ensures exists first, second ::
              && EndsQuiet(st, first, Session(v, n, k))
              && EndsQuiet(st, second, Session(v, n, k) + [Destroy(v)] + Session(v, n, k))
              && LastAttempt(st, first, v, k, ALL) && LastAttempt(st, second, v, k, ALL)
              && PairLaunches(st, second, v, k) == PairLaunches(st, first, v, k) != []
  {
    var first, second := TwoSessions(st, v, n, k, ALL);
    LaunchesFrozen(st, first, second, v, k, ALL, ALL);
    SessionLaunches(st, first, v, n, k);
    hide After, Possible, Session, C.Possible, C.Attempts, C.Launches, C.LaunchesFor;
  }

  /** A session with everything granted ends with its pair's workers launched. */
  lemma {:induction false} SessionLaunches(st: H.Settings, steps: seq<Step>, v: int, n: nat, k: nat)
    requires EndsQuiet(st, steps, Session(v, n, k)) && H.WorkersFor(st) > 0
    requires C.GrownBy([], After(st, steps).history, ALL)
    ensures C.Possible(st, After(st, steps).history)
    ensures C.HasLaunch(C.Launches(st, After(st, steps).history), v, 2 * k + 1)
    ensures PairLaunches(st, steps, v, k) != []
  {
    hide After, Possible, Session, Asked, Heard, Starts, C.Possible, C.Delivered, C.Launches, C.LaunchesFor,
         C.HasLaunch;
    SessionStarts([], v, n, k);
    assert [] + Session(v, n, k) == Session(v, n, k);
    QuietIsHeard(After(st, steps));
    LaunchSeenIff(st, steps, v, k);
    C.NoneFor(C.Launches(st, After(st, steps).history), v, 2 * k + 1);
  }

  lemma {:induction false} QuietIsHeard(s: System)
    requires Quiet(s)
    ensures Heard(s) == s.events
  {
  }

  /** From a quiet state, the removal of a device: one destroy record is delivered. */
  lemma {:induction false} PlayRemoval(st: H.Settings, steps: seq<Step>, v: int)
    returns (steps': seq<Step>, m: RingState)
    requires Possible(st, steps) && Quiet(After(st, steps))
    ensures EndsQuiet(st, steps', After(st, steps).events + [Destroy(v)])
    ensures m.IsDestroy() && After(st, steps').history == After(st, steps).history + [C.Deliver(m, ALL)]
  {
    hide After, Possible, SenderOf, SameSender, C.GrownBy, C.Delivered, Replay;
    steps' := PlayOne(st, steps, Destroy(v), ALL);
    var s, s' := After(st, steps), After(st, steps');
    QuietSettles(st, steps);
    QuietSettles(st, steps');
    SameSent(s.sender, SenderOf(s.events));
    SameSent(s'.sender, SenderOf(s'.events));
    SenderFacts(s.events);
    SentStep(s.events, Destroy(v));
    m := RingState(1, SenderOf(s.events).portCntr, v, 0, 0);
    C.GrownByOne(s.history, s'.history, ALL, m);
  }

  lemma {:induction false} SameSent(s: Sender, t: Sender)
    requires SameSender(s, t)
    ensures s.sent == t.sent
  {
  }

  /** A session with everything granted leaves the pair's handler with workers that have yet to
      run. */
  lemma {:induction false} SessionEnters(st: H.Settings, steps: seq<Step>, v: int, n: nat, k: nat)
    requires EndsQuiet(st, steps, Session(v, n, k)) && k < n / 2 <= MAX_QUEUE_PAIRS && H.WorkersFor(st) > 0
    requires C.GrownBy([], After(st, steps).history, ALL)
    ensures AllAt(After(st, steps), k, 0, L.Entered)
  {
    SessionLaunches(st, steps, v, n, k);
    HandlerEntered(st, steps, v, k);
  }

  lemma {:induction false} HandlerEntered(st: H.Settings, steps: seq<Step>, v: int, k: nat)
    requires Possible(st, steps) && k < MAX_QUEUE_PAIRS
    requires C.GrownBy([], After(st, steps).history, ALL) && C.Possible(st, After(st, steps).history)
    requires C.HasLaunch(C.Launches(st, After(st, steps).history), v, 2 * k + 1)
    ensures AllAt(After(st, steps), k, 0, L.Entered)
  {
    hide After, Possible, C.After, C.Possible, C.Launches;
    RunSettles(st, steps);
    C.UnscheduledEntered(st, After(st, steps).history, k);
  }

  /** Handler k has workers, and those from i on stand at pc. */
  ghost predicate AllAt(s: System, k: nat, i: nat, pc: L.WorkerPc) {
    && k < |s.controller.handlers|
    && var workers := s.controller.handlers[k].life.workers;
       workers != [] && forall j | i <= j < |workers| :: workers[j] == pc
  }

  /** A removal delivered right after a launch, before the worker has run: the flag is down,
      the worker still has its store of true ahead of it, and nothing bounds its run. */
  lemma {:induction false} OvertakingStopIsLost(st: H.Settings, v: int, n: nat, k: nat)
    requires k < n / 2 <= MAX_QUEUE_PAIRS && H.WorkersFor(st) > 0
    ensures exists steps ::
              && EndsQuiet(st, steps, Session(v, n, k) + [Destroy(v)])
              && var s := After(st, steps);
                 && AllAt(s, k, 0, L.Entered) && !s.controller.handlers[k].life.running
                 && !exists bound: nat :: C.BoundedOn(st, s.history, k, bound)
  {
    hide After, Possible, Session, AllAt, C.After, C.Possible, C.GrownBy, C.BoundedOn;
    NoSteps(st);
    var first := PlaySession(st, [], v, n, k, ALL);
    assert [] + Session(v, n, k) == Session(v, n, k);
    SessionEnters(st, first, v, n, k);
    var steps, m := PlayRemoval(st, first, v);
    RemovalAt(st, first, steps, m, k);
  }

  /** What a delivered destroy record does to handler k, whosever it was. */
  lemma {:induction false} RemovalAt(st: H.Settings, first: seq<Step>, steps: seq<Step>, m: RingState, k: nat)
    requires Possible(st, first) && Possible(st, steps) && k < C.HANDLERS && m.IsDestroy()
    requires After(st, steps).history == After(st, first).history + [C.Deliver(m, ALL)]
    ensures var (s, s') := (After(st, first), After(st, steps));
            && !s'.controller.handlers[k].life.running
            && s'.controller.handlers[k].life.workers == s.controller.handlers[k].life.workers
            && (AllAt(s, k, 0, L.Entered) ==>
                  AllAt(s', k, 0, L.Entered) && !exists bound: nat :: C.BoundedOn(st, s'.history, k, bound))
  {
    hide After, Possible, C.After, C.Possible, C.BoundedOn, C.Delivered;
    RunSettles(st, first);
    RunSettles(st, steps);
    C.DestroyStopsIff(st, After(st, first).history, m, ALL, k);
    var life := After(st, first).controller.handlers[k].life;
    assert AllAt(After(st, first), k, 0, L.Entered) ==> life.workers[0].Entered?;
  }

  // ----- One removal stops everybody

  /** Every worker of handler k from i on takes one step. */
  lemma {:induction false} Pass(st: H.Settings, steps: seq<Step>, k: nat, i: nat, pc: L.WorkerPc)
    returns (steps': seq<Step>)
    requires Possible(st, steps) && k < C.HANDLERS
    requires var s := After(st, steps);
             && AllAt(s, k, i, pc) && i <= |s.controller.handlers[k].life.workers|
             && (pc == L.Entered || (pc == L.Testing && !s.controller.handlers[k].life.running))
             && forall j | 0 <= j < i :: s.controller.handlers[k].life.workers[j] == Passed(pc)
    ensures Possible(st, steps')
    ensures var (s, s') := (After(st, steps), After(st, steps'));
            && s'.events == s.events && s'.pending == s.pending && s'.channel == s.channel
            && AllAt(s', k, 0, Passed(pc))
            && (C.AllGranted(s.history) ==> C.AllGranted(s'.history))
    decreases |After(st, steps).controller.handlers[k].life.workers| - i
  {
    var life := After(st, steps).controller.handlers[k].life;
    if i == |life.workers| {
      return steps;
    }
    Extend(st, steps, Work(k, i));
    hide After, Possible;
    steps' := Pass(st, steps + [Work(k, i)], k, i + 1, pc);
  }

  function Passed(pc: L.WorkerPc): L.WorkerPc {
    if pc == L.Entered then L.Testing else L.Finished
  }

  /** Two devices under their own ids; the second has its pair k enabled; the first goes. */
  function Neighbours(n: nat, k: nat): seq<Event> {
    [NewDevice(0, n)] + Session(1, n, k) + [Destroy(0)]
  }

  lemma {:induction false} SessionBirth(es: seq<Event>, v: int, n: nat, k: nat)
    requires v == Arrivals(es)
    ensures Birth(es + Session(v, n, k), v) == |es| && Arrivals(es + Session(v, n, k)) == Arrivals(es) + 1
  {
    var a, b, c := NewDevice(v, n), VringState(v, 2 * k, 1), VringState(v, 2 * k + 1, 1);
    hide Birth, Arrivals;
    BirthStep(es, a, v);
    BirthStep(es + [a], b, v);
    BirthStep(es + [a] + [b], c, v);
    assert es + [a] + [b] + [c] == es + [a, b, c];
  }

  lemma {:induction false} NeighboursHistory(n: nat, k: nat)
    ensures var es := Neighbours(n, k);
            && Fresh(es) && Present(es, 1) && Birth(es, 1) == 1 && es[1] == NewDevice(1, n)
            && VringOn(es[1..], 1, 2 * k) && VringOn(es[1..], 1, 2 * k + 1)
            && Asked(es, 1, k)
  {
    var z, es := NewDevice(0, n), Neighbours(n, k);
    assert Arrivals([z]) == 1 && Birth([z], 1) == -1 by {
      BirthStep([], z, 1);
      assert [] + [z] == [z];
    }
    SessionBirth([z], 1, n, k);
    BirthStep([z] + Session(1, n, k), Destroy(0), 1);
    SessionStarts([z], 1, n, k);
  }

  /** With everything granted, a quiet run whose callbacks asked for the pair has launched it. */
  lemma {:induction false} AskedLaunches(st: H.Settings, steps: seq<Step>, d: int, k: nat)
    requires Possible(st, steps) && Quiet(After(st, steps)) && Asked(After(st, steps).events, d, k)
    requires H.WorkersFor(st) > 0 && C.AllGranted(After(st, steps).history)
    ensures C.Possible(st, After(st, steps).history)
    ensures C.HasLaunch(C.Launches(st, After(st, steps).history), d, 2 * k + 1)
  {
    hide After, Possible, Asked, Heard, Starts, C.Possible, C.Delivered, C.Launches, C.HasLaunch;
    QuietIsHeard(After(st, steps));
    LaunchSeenIff(st, steps, d, k);
  }

  /** Both arrive, the second enables its pair, and the workers launched for it store true. */
  lemma {:induction false} PlayNeighbours(st: H.Settings, n: nat, k: nat) returns (steps: seq<Step>)
    requires k < n / 2 <= MAX_QUEUE_PAIRS && H.WorkersFor(st) > 0
    ensures EndsQuiet(st, steps, [NewDevice(0, n)] + Session(1, n, k))
    ensures AllAt(After(st, steps), k, 0, L.Testing) && C.AllGranted(After(st, steps).history)
  {
    hide After, Possible, Session, AllAt, Asked, C.Possible, C.Launches, C.HasLaunch;
    NoSteps(st);
    var first := PlayOne(st, [], NewDevice(0, n), ALL);
    assert [] + [NewDevice(0, n)] == [NewDevice(0, n)];
    SessionLegal(1, n, k);
    var second := PlayAll(st, first, Session(1, n, k), ALL);
    C.GrownTwice([], After(st, first).history, After(st, second).history, ALL);
    SessionStarts([NewDevice(0, n)], 1, n, k);
    AskedLaunches(st, second, 1, k);
    HandlerEntered(st, second, 1, k);
    steps := Pass(st, second, k, 0, L.Entered);
  }

  /** A removal stops the workers of every device, not of its own: device 1 is present, ready
      and launched, only device 0 was ever removed, and no worker of its pair is left. */
  lemma {:induction false} RemovalStopsOthers(st: H.Settings, n: nat, k: nat)
    requires k < n / 2 <= MAX_QUEUE_PAIRS && H.WorkersFor(st) > 0
    ensures exists steps ::
              && EndsQuiet(st, steps, Neighbours(n, k))
              && var s := After(st, steps);
                 && Ready(s.sender.config, 1, k) && s.sender.config[1].vid == 1
                 && C.Possible(st, s.history)
                 && C.HasLaunch(C.Launches(st, s.history), 1, 2 * k + 1)
                 && AllAt(s, k, 0, L.Finished)
  {
    hide After, Possible, Session, AllAt, Present, VringOn, Birth, Asked, Ready,
         C.After, C.Possible, C.Launches, C.HasLaunch;
    var stored := PlayNeighbours(st, n, k);
    var removed, m := PlayRemoval(st, stored, 0);
    RemovalAt(st, stored, removed, m, k);
    SameWorkersAt(After(st, stored), After(st, removed), k, L.Testing);
    var steps := Pass(st, removed, k, 0, L.Testing);
    NeighboursEnd(st, steps, n, k);
  }

  lemma {:induction false} SameWorkersAt(s: System, s': System, k: nat, pc: L.WorkerPc)
    requires AllAt(s, k, 0, pc) && k < |s'.controller.handlers|
    requires s'.controller.handlers[k].life.workers == s.controller.handlers[k].life.workers
    ensures AllAt(s', k, 0, pc)
  {
  }

  lemma {:induction false} NeighboursEnd(st: H.Settings, steps: seq<Step>, n: nat, k: nat)
    requires EndsQuiet(st, steps, Neighbours(n, k)) && C.AllGranted(After(st, steps).history)
    requires k < n / 2 <= MAX_QUEUE_PAIRS && H.WorkersFor(st) > 0
    ensures var s := After(st, steps);
            && Ready(s.sender.config, 1, k) && s.sender.config[1].vid == 1
            && C.Possible(st, s.history)
            && C.HasLaunch(C.Launches(st, s.history), 1, 2 * k + 1)
  {
    hide After, Possible, Session, Present, VringOn, Birth, Asked, On, Announces, Starts,
         C.Possible, C.Delivered, C.Launches, C.HasLaunch;
    var es := Neighbours(n, k);
    NeighboursHistory(n, k);
    SessionLegal(1, n, k);
    AskedLaunches(st, steps, 1, k);
    QuietPair(st, steps, es, 1, k);
    QuietMaps(st, steps, es, 1, 0);
  }
}
