/** The two copies while a callback is only part done: what its operations so far have made of
    the configuration and of the records. */
module Midway {
  import opened Records
  import opened Replica
  import opened ConfigManager
  import opened VhostController
  import opened SenderHistory

  /** Bit q of entry p after the operations, when it was 'was' before. */
  predicate BitAfter(ops: seq<Op>, p: int, q: int, was: bool) {
    if ops == [] then was
    else
      match ops[|ops| - 1]
      case SetOp(v, r, on) => if v == p && r == q then on else BitAfter(ops[..|ops| - 1], p, q, was)
      case _ => BitAfter(ops[..|ops| - 1], p, q, was)
  }

  /** What the last record says about queue q of p after the operations. */
  predicate RecordAfter(ops: seq<Op>, p: int, q: int, told: bool) {
    if ops == [] then told
    else
      match ops[|ops| - 1]
      case NotifyOp(meta, v, r, en) =>
        if meta != 1 && v == p && r == q then en == 1 else RecordAfter(ops[..|ops| - 1], p, q, told)
      case _ => RecordAfter(ops[..|ops| - 1], p, q, told)
  }

  /** Operations of a callback before its last one. */
  ghost predicate Inner(ops: seq<Op>) {
    forall i | 0 <= i < |ops| ::
      && !ops[i].CountOp? && !ops[i].ClearOp? && !SocketOp(ops[i])
      && (ops[i].InitOp? ==> i == 0)
  }

  predicate Bit(c: Config, p: int, q: int) {
    p in c && q in c[p].enabled
  }

  /** Entry p of c' is that of c, or the one just initialised under the counter. */
  ghost predicate EntryFrom(s: Sender, ops: seq<Op>, t: Sender, p: int) {
    && (p in s.config ==> p in t.config && t.config[p].pairs == s.config[p].pairs)
    && (p in t.config && p !in s.config ==>
          p == s.portCntr && ops != [] && ops[0].InitOp? && t.config[p].pairs == ops[0].pairs)
  }

  lemma {:induction false} BitStep(ops: seq<Op>, op: Op, p: int, q: int, was: bool)
    ensures BitAfter(ops + [op], p, q, was) ==
            if op.SetOp? && op.vid == p && op.qid == q then op.on else BitAfter(ops, p, q, was)
  {
    assert (ops + [op])[..|ops|] == ops;
  }

  lemma {:induction false} RecordStep(ops: seq<Op>, op: Op, p: int, q: int, told: bool)
    ensures RecordAfter(ops + [op], p, q, told) ==
            if op.NotifyOp? && op.meta != 1 && op.vid == p && op.qid == q then op.enable == 1
            else RecordAfter(ops, p, q, told)
  {
    assert (ops + [op])[..|ops|] == ops;
  }

  lemma {:induction false} OpEntry(s: Sender, ops: seq<Op>, t: Sender, op: Op, p: int)
    requires Inner(ops + [op]) && s.portCntr !in s.config && t.portCntr == s.portCntr
    requires EntryFrom(s, ops, t, p) && (ops == [] ==> t == s)
    ensures EntryFrom(s, ops + [op], Exec(t, op), p)
    ensures Exec(t, op).portCntr == s.portCntr
  {
    assert (ops + [op])[|ops|] == op;
  }

  /** What one operation makes of bit q of entry p. */
  lemma {:induction false} OpBit(s: Sender, ops: seq<Op>, t: Sender, op: Op, p: int, q: int)
    requires Inner(ops + [op]) && s.portCntr !in s.config && t.portCntr == s.portCntr
    requires ops == [] ==> t == s
    requires p in Exec(t, op).config && 0 <= q < 2 * Exec(t, op).config[p].pairs
    ensures op.InitOp? ==> ops == []
    ensures !op.InitOp? ==> p in t.config && t.config[p].pairs == Exec(t, op).config[p].pairs
    ensures q in Exec(t, op).config[p].enabled <==>
            if op.SetOp? && op.vid == p && op.qid == q then op.on else Bit(t.config, p, q)
  {
    assert (ops + [op])[|ops|] == op;
  }

  lemma {:induction false} OpRecord(t: Sender, op: Op, p: int, q: int)
    requires t.mode == "Loopback"
    ensures Exec(t, op).mode == "Loopback"
    ensures LastOn(Exec(t, op).sent, p, q) ==
            if op.NotifyOp? && op.meta != 1 && op.vid == p && op.qid == q then op.enable == 1
            else LastOn(t.sent, p, q)
  {
    if op.NotifyOp? {
      LastOnAppends(t.sent, RingState(op.meta, t.portCntr, op.vid, op.qid, op.enable), p, q);
    }
  }

  lemma {:induction false} OpsBits(s: Sender, ops: seq<Op>, p: int, q: int)
    requires Inner(ops) && s.portCntr !in s.config && s.mode == "Loopback"
    ensures var t := ExecAll(s, ops);
            && t.portCntr == s.portCntr && t.mode == "Loopback"
            && EntryFrom(s, ops, t, p) && (ops == [] ==> t == s)
            && (p in t.config && 0 <= q < 2 * t.config[p].pairs ==>
                  (q in t.config[p].enabled <==> BitAfter(ops, p, q, Bit(s.config, p, q))))
            && (LastOn(t.sent, p, q) <==> RecordAfter(ops, p, q, LastOn(s.sent, p, q)))
  {
    hide Inner, EntryFrom, BitAfter, RecordAfter, LastOn, Exec;
    if ops == [] {
      NoOps(s, p, q);
    } else {
      var front, op := ops[..|ops| - 1], ops[|ops| - 1];
      assert ops == front + [op];
      InnerFront(front, op);
      OpsBits(s, front, p, q);
      var t := ExecAll(s, front);
      BitStep(front, op, p, q, Bit(s.config, p, q));
      RecordStep(front, op, p, q, LastOn(s.sent, p, q));
      OpEntry(s, front, t, op, p);
      OpRecord(t, op, p, q);
      if p in Exec(t, op).config && 0 <= q < 2 * Exec(t, op).config[p].pairs {
        OpBit(s, front, t, op, p, q);
        if front == [] {
          NoOps(s, p, q);
        }
      }
    }
  }

  lemma {:induction false} InnerFront(ops: seq<Op>, op: Op)
    requires Inner(ops + [op])
    ensures Inner(ops)
  {
    assert forall i | 0 <= i < |ops| :: (ops + [op])[i] == ops[i];
  }

  lemma {:induction false} NoOps(s: Sender, p: int, q: int)
    ensures EntryFrom(s, [], s, p)
    ensures BitAfter([], p, q, Bit(s.config, p, q)) == Bit(s.config, p, q)
    ensures RecordAfter([], p, q, LastOn(s.sent, p, q)) == LastOn(s.sent, p, q)
  {
  }

  /** The record by which event e announces that it set queue q of p. */
  function NoteFor(e: Event, p: int, q: int): Op {
    NotifyOp(0, p, q, if TurnsOn(e) then 1 else 0)
  }

  lemma {:induction false} InnerProgram(e: Event, m: nat)
    requires m < |Program(e)|
    ensures Inner(Program(e)[..m])
  {
  }

  /** One operation moves from what is left to what is done. */
  lemma {:induction false} SplitStep(ops: seq<Op>, m: nat, op: Op)
    requires m < |ops|
    ensures ops[..m + 1] == ops[..m] + [ops[m]]
    ensures op in ops[m..] <==> op == ops[m] || op in ops[m + 1..]
  {
    assert ops[m..] == [ops[m]] + ops[m + 1..];
  }

  lemma {:induction false} NothingSet(p: int, q: int, was: bool)
    ensures BitAfter([], p, q, was) == was
  {
  }

  lemma {:induction false} SetInProgram(e: Event, p: int, q: int)
    ensures Sets(e, p, q) && Legal(e) ==> SetOp(p, q, TurnsOn(e)) in Program(e)
  {
    var ops := Program(e);
    assert forall i | 0 <= i < |ops| :: ops[i] in ops;
  }

  lemma {:induction false} SetOnlyOnce(e: Event, i: nat, p: int, q: int)
    requires i < |Program(e)| && Program(e)[i] == SetOp(p, q, TurnsOn(e))
    ensures SetOp(p, q, TurnsOn(e)) !in Program(e)[i + 1..]
  {
  }

  /** A callback's sets of (p, q) are the one that belongs to it. */
  lemma {:induction false} SetsOf(e: Event, i: nat, p: int, q: int)
    requires Legal(e) && i < |Program(e)|
    ensures var op := Program(e)[i];
            op.SetOp? && op.vid == p && op.qid == q ==> op == SetOp(p, q, TurnsOn(e)) && Sets(e, p, q)
  {
  }

  lemma {:induction false} SetDone(e: Event, m: nat, p: int, q: int, was: bool)
    requires Legal(e) && m <= |Program(e)|
    ensures BitAfter(Program(e)[..m], p, q, was) ==
            if Sets(e, p, q) && SetOp(p, q, TurnsOn(e)) !in Program(e)[m..] then TurnsOn(e) else was
  {
    hide BitAfter, Program, Sets, TurnsOn;
    if m == 0 {
      NothingSet(p, q, was);
      SetInProgram(e, p, q);
      assert Program(e)[..0] == [] && Program(e)[0..] == Program(e);
    } else {
      SetDone(e, m - 1, p, q, was);
      SplitStep(Program(e), m - 1, SetOp(p, q, TurnsOn(e)));
      BitStep(Program(e)[..m - 1], Program(e)[m - 1], p, q, was);
      SetsOf(e, m - 1, p, q);
      if Program(e)[m - 1] == SetOp(p, q, TurnsOn(e)) {
        SetOnlyOnce(e, m - 1, p, q);
      }
    }
  }

  lemma {:induction false} NothingRecorded(p: int, q: int, told: bool)
    ensures RecordAfter([], p, q, told) == told
  {
  }

  lemma {:induction false} NoteInProgram(e: Event, p: int, q: int)
    ensures Sets(e, p, q) && (q >= 2 || e.NewDevice?) && Legal(e) ==> NoteFor(e, p, q) in Program(e)
  {
    var ops := Program(e);
    assert forall i | 0 <= i < |ops| :: ops[i] in ops;
  }

  lemma {:induction false} NoteOnlyOnce(e: Event, i: nat, p: int, q: int)
    requires i < |Program(e)| && Program(e)[i] == NoteFor(e, p, q)
    ensures NoteFor(e, p, q) !in Program(e)[i + 1..]
  {
  }

  /** A callback's records that set (p, q) are the one that announces it. */
  lemma {:induction false} NotesOf(e: Event, i: nat, p: int, q: int)
    requires Legal(e) && i < |Program(e)|
    ensures var op := Program(e)[i];
            && (op == NoteFor(e, p, q) && Sets(e, p, q) ==> op.meta != 1 && (op.enable == 1 <==> TurnsOn(e)))
            && (op == NoteFor(e, p, q) ==> op.NotifyOp? && op.vid == p && op.qid == q)
            && (op.NotifyOp? && op.meta != 1 && op.vid == p && op.qid == q ==>
                  op == NoteFor(e, p, q) && Sets(e, p, q) && (q >= 2 || e.NewDevice?))
  {
  }

  lemma {:induction false} RecordDone(e: Event, m: nat, p: int, q: int, told: bool)
    requires Legal(e) && m <= |Program(e)|
    ensures RecordAfter(Program(e)[..m], p, q, told) ==
            if Sets(e, p, q) && (q >= 2 || e.NewDevice?) && NoteFor(e, p, q) !in Program(e)[m..]
            then TurnsOn(e) else told
  {
    hide RecordAfter, Program, Sets, TurnsOn, NoteFor;
    if m == 0 {
      NothingRecorded(p, q, told);
      NoteInProgram(e, p, q);
      assert Program(e)[..0] == [] && Program(e)[0..] == Program(e);
    } else {
      RecordDone(e, m - 1, p, q, told);
      SplitStep(Program(e), m - 1, NoteFor(e, p, q));
      RecordStep(Program(e)[..m - 1], Program(e)[m - 1], p, q, told);
      NotesOf(e, m - 1, p, q);
      if Program(e)[m - 1] == NoteFor(e, p, q) {
        NoteOnlyOnce(e, m - 1, p, q);
      }
    }
  }

  /** What the configuration held for (p, q) before the running callback. */
  ghost predicate Held(es: seq<Event>, p: int, q: int) {
    Present(es, p) && VringOn(es[Birth(es, p)..], p, q)
  }

  /** The copies agree on (p, q) while callback e, after the callbacks in front, still has to do
      what is left. Only the queues that e sets are in question: before their set they stand as
      before e, between set and record the receiver is behind, after both they agree. */
  ghost predicate AgreesMidway(front: seq<Event>, e: Event, left: seq<Op>, p: int, q: int) {
    if !Sets(e, p, q) then !Diverges(front + [e], p, q)
    else if SetOp(p, q, TurnsOn(e)) in left then Announces(front, p, q) <==> Held(front, p, q)
    else if NoteFor(e, p, q) in left then Announces(front, p, q) <==> TurnsOn(e)
    else true
  }

  /** A queue that e does not set is as in the history with e added. */
  lemma {:induction false} UnsetQueue(front: seq<Event>, e: Event, p: int, q: int)
    requires !Sets(e, p, q) && q >= 0
    requires Present(front, p) || (p == Arrivals(front) && e.NewDevice?)
    ensures (Announces(front, p, q) <==> Held(front, p, q)) <==> !Diverges(front + [e], p, q)
  {
    var es := front + [e];
    BirthStep(front, e, p);
    BirthRange(front, p);
    DivergesMeaning(es, p, q);
    AnnouncesStep(front, e, p, q);
    SuffixStep(front, e, Birth(es, p), p, q);
    hide Diverges, Announces;
    if Birth(es, p) == |front| {
      assert front[|front|..] == [];
    }
  }

  lemma {:induction false} MidwayEntry(front: seq<Event>, e: Event, m: nat, p: int)
    requires AllLegal(front) && Legal(e) && m < |Program(e)|
    ensures var s := SenderOf(front);
            var t := ExecAll(s, Program(e)[..m]);
            p in t.config ==> t.config[p].pairs <= MAX_QUEUE_PAIRS &&
                              (Present(front, p) || (p == Arrivals(front) && e.NewDevice?))
  {
    var s, ops := SenderOf(front), Program(e)[..m];
    SenderFacts(front);
    FreshKeys(front);
    ConfigMeaning(front, p);
    InnerProgram(e, m);
    OpsBits(s, ops, p, 0);
    if p in s.config {
      PairsBounded(front, p);
    }
    hide SenderOf, ExecAll, BitAfter, RecordAfter, Describes;
  }

  /** Callback e has done m of its operations, but not all. */
  lemma {:induction false} MidwayAgreeIff(front: seq<Event>, e: Event, m: nat, p: int, q: int)
    requires AllLegal(front) && Legal(e) && m < |Program(e)|
    requires var t := ExecAll(SenderOf(front), Program(e)[..m]);
             p in t.config && 0 <= q < 2 * t.config[p].pairs && AllInRange(t.sent)
    ensures var t := ExecAll(SenderOf(front), Program(e)[..m]);
            (On(Replay(t.sent), p, q) <==> q in t.config[p].enabled) <==>
            AgreesMidway(front, e, Program(e)[m..], p, q)
  {
    var s, ops, left := SenderOf(front), Program(e)[..m], Program(e)[m..];
    var t := ExecAll(s, ops);
    SenderFacts(front);
    FreshKeys(front);
    ConfigMeaning(front, p);
    SentOn(front, p, q);
    InnerProgram(e, m);
    OpsBits(s, ops, p, q);
    MidwayEntry(front, e, m, p);
    ReplayIsLastOn(t.sent, p, q);
    MidwayCases(front, e, m, p, q);
    hide SenderOf, ExecAll, BitAfter, RecordAfter, AgreesMidway, Program, Replay, LastOn, Announces, VringOn;
    assert Bit(s.config, p, q) <==> Held(front, p, q) by {
      if p in s.config {
        assert s.config[p].pairs == t.config[p].pairs;
      }
    }
  }

  lemma {:induction false} MidwayCases(front: seq<Event>, e: Event, m: nat, p: int, q: int)
    requires Legal(e) && m < |Program(e)| && q >= 0
    requires Present(front, p) || (p == Arrivals(front) && e.NewDevice?)
    ensures (RecordAfter(Program(e)[..m], p, q, Announces(front, p, q)) <==>
             BitAfter(Program(e)[..m], p, q, Held(front, p, q))) <==>
            AgreesMidway(front, e, Program(e)[m..], p, q)
  {
    SetDone(e, m, p, q, Held(front, p, q));
    RecordDone(e, m, p, q, Announces(front, p, q));
    if !Sets(e, p, q) {
      UnsetQueue(front, e, p, q);
    }
    hide BitAfter, RecordAfter, Held, Announces, Diverges, Present;
  }

  // ----- The starts asked for by then

  /** A record that may start a handler has yet to be written. */
  ghost predicate StartPending(left: seq<Op>) {
    exists op | op in left :: op.NotifyOp? && op.meta != 1 && op.qid % 2 == 1
  }

  /** The callbacks whose starts have been sent, with e under way. */
  ghost function HeardOf(front: seq<Event>, e: Event, left: seq<Op>): seq<Event> {
    if StartPending(left) then front else front + [e]
  }

  /** The records written by the first m operations of e. */
  function Written(e: Event, m: nat, port: int): seq<RingState> {
    match e
    case NewDevice(v, _) =>
      (if m >= 4 then [RingState(0, port, v, 0, 1)] else []) + if m >= 5 then [RingState(0, port, v, 1, 1)] else []
    case VringState(_, _, _) => []
    case Destroy(v) => if m >= 1 then [RingState(1, port, v, 0, 0)] else []
  }

  lemma {:induction false} WrittenStep(s: Sender, t: Sender, e: Event, m: nat)
    requires m + 1 < |Program(e)| && t.mode == "Loopback" && t.portCntr == s.portCntr
    requires t.sent == s.sent + Written(e, m, s.portCntr)
    ensures var t' := Exec(t, Program(e)[m]);
            && t'.mode == "Loopback" && t'.portCntr == s.portCntr
            && t'.sent == s.sent + Written(e, m + 1, s.portCntr)
  {
    hide WithDevice, WithQueueState;
  }

  lemma {:induction false} MidwaySent(s: Sender, e: Event, m: nat)
    requires m < |Program(e)| && s.mode == "Loopback"
    ensures var t := ExecAll(s, Program(e)[..m]);
            && t.mode == "Loopback" && t.portCntr == s.portCntr
            && t.sent == s.sent + Written(e, m, s.portCntr)
  {
    hide Program, Exec;
    if m == 0 {
      assert Written(e, 0, s.portCntr) == [] && Program(e)[..0] == [];
    } else {
      MidwaySent(s, e, m - 1);
      assert Program(e)[..m][..m - 1] == Program(e)[..m - 1];
      WrittenStep(s, ExecAll(s, Program(e)[..m - 1]), e, m - 1);
    }
  }

  lemma {:induction false} PendingStart(e: Event, m: nat)
    requires Legal(e) && m < |Program(e)|
    ensures StartPending(Program(e)[m..]) <==>
            match e
            case NewDevice(_, _) => m < 5
            case VringState(_, q, _) => q >= 2 && q % 2 == 1
            case Destroy(_) => false
    ensures StartPending(Program(e)[m..]) && e.NewDevice? ==> NotifyOp(0, e.vid, 1, 1) in Program(e)[m..]
    ensures StartPending(Program(e)[m..]) && e.VringState? ==> NotifyOp(0, e.vid, e.qid, e.enable) in Program(e)[m..]
  {
    var all := Program(e);
    var left := all[m..];
    assert forall i | m <= i < |all| :: all[i] == left[i - m];
    match e {
      case NewDevice(v, _) =>
        if m < 5 {
          assert left[4 - m] == NotifyOp(0, v, 1, 1);
        }
      case VringState(v, q, en) =>
        if q >= 2 {
          assert left[1 - m] == NotifyOp(0, v, q, en);
        }
      case Destroy(_) =>
    }
  }

  /** Exactly the callbacks up to the one whose starting record is out have had their starts
      sent: a callback under way counts from the moment that record is written. */
  lemma {:induction false} MidwayStarts(front: seq<Event>, e: Event, m: nat)
    requires AllLegal(front) && Legal(e) && m < |Program(e)|
    ensures var t := ExecAll(SenderOf(front), Program(e)[..m]);
            AllInRange(t.sent) && Starts(t.sent) == StartsOf(HeardOf(front, e, Program(e)[m..]))
  {
    hide SenderOf, Program, ExecAll, StartPending, Starts, StartsOf, Written;
    var s := SenderOf(front);
    SenderFacts(front);
    SentStarts(front);
    MidwaySent(s, e, m);
    PendingStart(e, m);
    StartsOfStep(front, e);
    WrittenStarts(s.sent, e, m, s.portCntr);
    assert StartsOf(front) + [] == StartsOf(front);
  }

  /** What the first m operations of a callback make of the starts: an arrival's is asked for
      with its fifth operation, a vring event's only with its last. */
  lemma {:induction false} WrittenStarts(ms: seq<RingState>, e: Event, m: nat, port: int)
    requires AllInRange(ms)
    ensures AllInRange(ms + Written(e, m, port))
    ensures Starts(ms + Written(e, m, port)) ==
            Starts(ms) + if e.NewDevice? && m >= 5 then [StartCall(0, e.vid, 0, 1)] else []
  {
    match e {
      case NewDevice(v, _) =>
        var m0, m1 := RingState(0, port, v, 0, 1), RingState(0, port, v, 1, 1);
        StartsStep(ms, m0);
        ArrivalStarts(ms, port, v);
        hide Starts, Replay, LastOn, Triggers;
        assert ms + ([m0] + [m1]) == ms + [m0] + [m1];
        assert ms + ([m0] + []) == ms + [m0] && ms + ([] + []) == ms;
      case VringState(_, _, _) =>
        assert ms + [] == ms;
      case Destroy(v) =>
        RemovalStarts(ms, port, v);
        assert ms + [] == ms;
    }
  }

  /** A later odd queue that is on while e is under way was turned on by a callback whose
      starts have been sent, unless its own record is the one still to be written. */
  lemma {:induction false} OddBitWasHeard(front: seq<Event>, e: Event, m: nat, d: int, q: int)
    requires AllLegal(front) && Legal(e) && m < |Program(e)| && q >= 2 && q % 2 == 1
    requires NotifyOp(0, d, q, 1) !in Program(e)[m..]
    requires var t := ExecAll(SenderOf(front), Program(e)[..m]);
             Bit(t.config, d, q)
    ensures var es := HeardOf(front, e, Program(e)[m..]);
            exists i :: 0 <= i < |es| && es[i] == VringState(d, q, 1)
  {
    var s, ops, left := SenderOf(front), Program(e)[..m], Program(e)[m..];
    SenderFacts(front);
    FreshKeys(front);
    InnerProgram(e, m);
    OpsBits(s, ops, d, q);
    MidwayInPairs(front, e, m, d, q);
    SetDone(e, m, d, q, Bit(s.config, d, q));
    PendingStart(e, m);
    var es := HeardOf(front, e, left);
    hide SenderOf, Program, ExecAll, StartPending, BitAfter, RecordAfter, Inner;
    HeldWasHeard(front, d, q);
    var i :| 0 <= i < |front| && front[i] == VringState(d, q, 1);
    assert es[i] == front[i];
  }

  /** A bit that is on belongs to a pair of its entry. */
  predicate InPairs(c: Config, p: int, q: int) {
    Bit(c, p, q) ==> 0 <= q < 2 * c[p].pairs
  }

  lemma {:induction false} InPairsStep(s: Sender, ops: seq<Op>, t: Sender, op: Op, p: int, q: int)
    requires Inner(ops + [op]) && s.portCntr !in s.config && t.portCntr == s.portCntr
    requires (ops == [] ==> t == s) && InPairs(t.config, p, q)
    ensures InPairs(Exec(t, op).config, p, q)
  {
    assert (ops + [op])[|ops|] == op;
  }

  lemma {:induction false} OpsInPairs(s: Sender, ops: seq<Op>, p: int, q: int)
    requires Inner(ops) && s.portCntr !in s.config && s.mode == "Loopback" && InPairs(s.config, p, q)
    ensures InPairs(ExecAll(s, ops).config, p, q)
  {
    hide Inner, InPairs, Exec, EntryFrom, BitAfter, RecordAfter, LastOn;
    if ops != [] {
      var front, op := ops[..|ops| - 1], ops[|ops| - 1];
      assert ops == front + [op];
      InnerFront(front, op);
      OpsInPairs(s, front, p, q);
      OpsBits(s, front, p, q);
      InPairsStep(s, front, ExecAll(s, front), op, p, q);
    }
  }

  lemma {:induction false} MidwayInPairs(front: seq<Event>, e: Event, m: nat, p: int, q: int)
    requires AllLegal(front) && m < |Program(e)|
    ensures InPairs(ExecAll(SenderOf(front), Program(e)[..m]).config, p, q)
  {
    SenderFacts(front);
    FreshKeys(front);
    ConfigMeaning(front, p);
    InnerProgram(e, m);
    OpsInPairs(SenderOf(front), Program(e)[..m], p, q);
    hide SenderOf, Program, ExecAll, VringOn;
  }

  lemma {:induction false} HeldWasHeard(front: seq<Event>, d: int, q: int)
    requires AllLegal(front) && q >= 2 && Bit(SenderOf(front).config, d, q)
    ensures exists i :: 0 <= i < |front| && front[i] == VringState(d, q, 1)
  {
    ConfigMeaning(front, d);
    VringOnMeaning(front, Birth(front, d), d, q);
    var i: nat :| LatestSet(front, i, d, q) && TurnsOn(front[i]);
    assert front[i] == VringState(d, q, 1);
  }
}
