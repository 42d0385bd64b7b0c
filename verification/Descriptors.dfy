/** The socket descriptors of the port map as the history of all operations: arrivals, removals
    and assignments, in any order and for any keys. */
module Descriptors {
  import opened Records
  import opened ConfigManager
  import opened VhostController

  /** The port counter after the operations. */
  function Counts(ops: seq<Op>): nat {
    if ops == [] then 0 else Counts(ops[..|ops| - 1]) + if ops[|ops| - 1].CountOp? then 1 else 0
  }

  /** Operation j initialises the entry under key p. */
  predicate Makes(ops: seq<Op>, j: nat, p: int) {
    j < |ops| && ops[j].InitOp? && Counts(ops[..j]) == p
  }

  /** Key p was initialised and not cleared since. */
  ghost predicate Live(ops: seq<Op>, p: int) {
    exists j: nat :: Makes(ops, j, p) && forall i | j < i < |ops| :: ops[i] != ClearOp(p)
  }

  /** Operation j gives slot i of key p a new pair of descriptors: an assignment while the key
      is live, or an initialisation with more than i pairs. */
  ghost predicate Writes(ops: seq<Op>, j: nat, p: int, i: nat) {
    j < |ops| &&
    if ops[j].InitOp? then Makes(ops, j, p) && i < ops[j].pairs
    else ops[j].DataSocketOp? && ops[j].port == p && ops[j].slot == i && Live(ops[..j], p)
  }

  ghost predicate LatestWrite(ops: seq<Op>, j: nat, p: int, i: nat) {
    && Writes(ops, j, p, i)
    && forall k: nat | j < k < |ops| :: !Writes(ops, k, p, i) && ops[k] != ClearOp(p)
  }

  /** Operation j assigns the control socket of key p while the key is live. */
  ghost predicate Controls(ops: seq<Op>, j: nat, p: int) {
    j < |ops| && ops[j].ControlSocketOp? && ops[j].port == p && Live(ops[..j], p)
  }

  ghost predicate LatestControl(ops: seq<Op>, j: nat, p: int) {
    && Controls(ops, j, p)
    && forall k: nat | j < k < |ops| :: !Controls(ops, k, p) && ops[k] != ClearOp(p)
  }

  // ----- One more operation

  lemma {:induction false} MakesStep(ops: seq<Op>, op: Op, p: int)
    ensures forall j: nat | j < |ops| :: Makes(ops + [op], j, p) <==> Makes(ops, j, p)
    ensures Makes(ops + [op], |ops|, p) <==> op.InitOp? && Counts(ops) == p
    ensures Counts(ops + [op]) == Counts(ops) + if op.CountOp? then 1 else 0
  {
    var ops' := ops + [op];
    assert ops'[..|ops|] == ops;
    forall j: nat | j < |ops|
      ensures ops'[..j] == ops[..j] && ops'[j] == ops[j]
    {
    }
  }

  lemma {:induction false} LiveStep(ops: seq<Op>, op: Op, p: int)
    ensures Live(ops + [op], p) <==> (op.InitOp? && Counts(ops) == p) || (Live(ops, p) && op != ClearOp(p))
  {
    MakesStep(ops, op, p);
    hide Makes;
    var ops' := ops + [op];
    assert ops'[|ops|] == op && forall i | 0 <= i < |ops| :: ops'[i] == ops[i];
    if Live(ops', p) {
      var j: nat :| Makes(ops', j, p) && forall i | j < i < |ops'| :: ops'[i] != ClearOp(p);
      MakesBelow(ops', j, p);
      assert j < |ops| ==> Makes(ops, j, p);
    }
    if Live(ops, p) && op != ClearOp(p) {
      var j: nat :| Makes(ops, j, p) && forall i | j < i < |ops| :: ops[i] != ClearOp(p);
      MakesBelow(ops, j, p);
      assert Makes(ops', j, p);
    }
  }

  lemma {:induction false} MakesBelow(ops: seq<Op>, j: nat, p: int)
    ensures Makes(ops, j, p) ==> j < |ops|
  {
  }

  lemma {:induction false} WritesStep(ops: seq<Op>, op: Op, p: int, i: nat)
    ensures forall j: nat | j < |ops| :: Writes(ops + [op], j, p, i) <==> Writes(ops, j, p, i)
    ensures Writes(ops + [op], |ops|, p, i) <==>
            || (op.InitOp? && Counts(ops) == p && i < op.pairs)
            || (op.DataSocketOp? && op.port == p && op.slot == i && Live(ops, p))
  {
    MakesStep(ops, op, p);
    hide Makes, Live, Counts;
    var ops' := ops + [op];
    assert ops'[..|ops|] == ops && ops'[|ops|] == op;
    forall j: nat | j < |ops|
      ensures ops'[..j] == ops[..j] && ops'[j] == ops[j]
    {
    }
  }

  lemma {:induction false} LatestWriteStep(ops: seq<Op>, op: Op, p: int, i: nat)
    ensures forall j: nat :: LatestWrite(ops + [op], j, p, i) <==>
              if Writes(ops + [op], |ops|, p, i) then j == |ops|
              else LatestWrite(ops, j, p, i) && op != ClearOp(p)
  {
    WritesStep(ops, op, p, i);
    WritesBelow(ops, p, i);
    WritesBelow(ops + [op], p, i);
    hide Writes;
    var ops' := ops + [op];
    assert ops'[|ops|] == op && forall k | 0 <= k < |ops| :: ops'[k] == ops[k];
  }

  lemma {:induction false} WritesBelow(ops: seq<Op>, p: int, i: nat)
    ensures forall j: nat | j >= |ops| :: !Writes(ops, j, p, i)
  {
  }

  lemma {:induction false} ControlStep(ops: seq<Op>, op: Op, p: int)
    ensures forall j: nat | j < |ops| :: Controls(ops + [op], j, p) <==> Controls(ops, j, p)
    ensures Controls(ops + [op], |ops|, p) <==> op.ControlSocketOp? && op.port == p && Live(ops, p)
    ensures forall j: nat :: LatestControl(ops + [op], j, p) <==>
              if Controls(ops + [op], |ops|, p) then j == |ops|
              else LatestControl(ops, j, p) && op != ClearOp(p)
  {
    hide Live;
    var ops' := ops + [op];
    assert ops'[..|ops|] == ops && ops'[|ops|] == op;
    forall j: nat | j < |ops|
      ensures ops'[..j] == ops[..j] && ops'[j] == ops[j]
    {
    }
  }

  /** What is written to a live key stays only while the key lives. */
  lemma {:induction false} WrittenIsLive(ops: seq<Op>, p: int, i: nat)
    ensures (exists j: nat :: LatestWrite(ops, j, p, i)) ==> Live(ops, p)
    ensures (exists j: nat :: LatestControl(ops, j, p)) ==> Live(ops, p)
  {
    if ops != [] {
      var front, op := ops[..|ops| - 1], ops[|ops| - 1];
      assert ops == front + [op];
      WrittenIsLive(front, p, i);
      WritesStep(front, op, p, i);
      LatestWriteStep(front, op, p, i);
      ControlStep(front, op, p);
      LiveStep(front, op, p);
      hide Live, Writes, Controls, LatestWrite, LatestControl;
    }
  }

  // ----- What the entries hold

  /** Slot i of entry dev, under key p, holds what the last write left. */
  ghost predicate SlotHolds(dev: Device, ops: seq<Op>, p: int, i: nat)
    requires i < MAX_QUEUE_PAIRS
  {
    && (forall j: nat | LatestWrite(ops, j, p, i) ::
          dev.sockets[i] == if ops[j].InitOp? then PortQueuePair(-1, -1) else PortQueuePair(ops[j].fd, ops[j].fd))
    && ((forall j: nat :: !LatestWrite(ops, j, p, i)) ==> dev.sockets[i] == PortQueuePair(0, 0))
  }

  ghost predicate ControlHolds(dev: Device, ops: seq<Op>, p: int) {
    && (forall j: nat | LatestControl(ops, j, p) :: dev.ctlSocket == ops[j].fd)
    && ((forall j: nat :: !LatestControl(ops, j, p)) ==> dev.ctlSocket == 0)
  }

  ghost predicate Holds(dev: Device, ops: seq<Op>, p: int) {
    (forall i: nat | i < MAX_QUEUE_PAIRS :: SlotHolds(dev, ops, p, i)) && ControlHolds(dev, ops, p)
  }

  /** What one operation does to the descriptors of entry p. */
  lemma {:induction false} EntryAfter(s: Sender, op: Op, p: int, i: nat)
    requires i < MAX_QUEUE_PAIRS
    ensures p in Exec(s, op).config <==> (op.InitOp? && s.portCntr == p) || (p in s.config && op != ClearOp(p))
    ensures p in Exec(s, op).config ==>
            var (d', made) := (Exec(s, op).config[p], op.InitOp? && s.portCntr == p);
            && d'.sockets[i] == (if made && i < op.pairs then PortQueuePair(-1, -1)
                                 else if p !in s.config then PortQueuePair(0, 0)
                                 else if op.DataSocketOp? && op.port == p && op.slot == i
                                 then PortQueuePair(op.fd, op.fd)
                                 else s.config[p].sockets[i])
            && d'.ctlSocket == (if p !in s.config then 0
                                else if op.ControlSocketOp? && op.port == p then op.fd
                                else s.config[p].ctlSocket)
            && d'.pairs == (if made then op.pairs else if p in s.config then s.config[p].pairs else 0)
    ensures Exec(s, op).portCntr == s.portCntr + if op.CountOp? then 1 else 0
  {
  }

  lemma {:induction false} SlotStep(s: Sender, ops: seq<Op>, op: Op, p: int, i: nat)
    requires s.portCntr == Counts(ops) && (p in s.config <==> Live(ops, p)) && i < MAX_QUEUE_PAIRS
    requires p in s.config ==> SlotHolds(s.config[p], ops, p, i)
    requires p in Exec(s, op).config
    ensures SlotHolds(Exec(s, op).config[p], ops + [op], p, i)
  {
    hide Live, Writes, LatestWrite, Exec, Counts;
    EntryAfter(s, op, p, i);
    WritesStep(ops, op, p, i);
    LatestWriteStep(ops, op, p, i);
    WrittenIsLive(ops, p, i);
    LatestBelow(ops, p);
    var ops' := ops + [op];
    assert ops'[|ops|] == op && forall k | 0 <= k < |ops| :: ops'[k] == ops[k];
    if j: nat :| LatestWrite(ops, j, p, i) {
      assert Writes(ops', |ops|, p, i) || LatestWrite(ops', j, p, i);
    }
    if Writes(ops', |ops|, p, i) {
      assert LatestWrite(ops', |ops|, p, i);
    }
  }

  lemma {:induction false} ControlSocketStep(s: Sender, ops: seq<Op>, op: Op, p: int)
    requires s.portCntr == Counts(ops) && (p in s.config <==> Live(ops, p))
    requires p in s.config ==> ControlHolds(s.config[p], ops, p)
    requires p in Exec(s, op).config
    ensures ControlHolds(Exec(s, op).config[p], ops + [op], p)
  {
    hide Live, Controls, LatestControl, Exec, Counts;
    EntryAfter(s, op, p, 0);
    ControlStep(ops, op, p);
    WrittenIsLive(ops, p, 0);
    LatestBelow(ops, p);
    var ops' := ops + [op];
    assert ops'[|ops|] == op && forall k | 0 <= k < |ops| :: ops'[k] == ops[k];
    if j: nat :| LatestControl(ops, j, p) {
      assert Controls(ops', |ops|, p) || LatestControl(ops', j, p);
    }
    if Controls(ops', |ops|, p) {
      assert LatestControl(ops', |ops|, p);
    }
  }

  lemma {:induction false} HoldsStep(s: Sender, ops: seq<Op>, op: Op, p: int)
    requires s.portCntr == Counts(ops) && (p in s.config <==> Live(ops, p))
    requires p in s.config ==> Holds(s.config[p], ops, p)
    requires p in Exec(s, op).config
    ensures Holds(Exec(s, op).config[p], ops + [op], p)
  {
    hide Live, SlotHolds, ControlHolds, Exec, Counts;
    forall i: nat | i < MAX_QUEUE_PAIRS
      ensures SlotHolds(Exec(s, op).config[p], ops + [op], p, i)
    {
      SlotStep(s, ops, op, p, i);
    }
    ControlSocketStep(s, ops, op, p);
  }

  lemma {:induction false} LatestBelow(ops: seq<Op>, p: int)
    ensures forall i: nat, j: nat | LatestWrite(ops, j, p, i) :: j < |ops|
    ensures forall j: nat | LatestControl(ops, j, p) :: j < |ops|
  {
    hide Live;
  }

  /** After any operations: a key exists exactly when it was initialised and not cleared since.
      Each of its slots holds what its last write left, the assigned descriptor twice or -1 from
      an initialisation, and 0 before any; its control socket the last one assigned, or 0. */
  lemma {:induction false} DescriptorHistory(mode: string, ops: seq<Op>, p: int)
    ensures var s := ExecAll(NewSender(mode), ops);
            && s.portCntr == Counts(ops)
            && (p in s.config <==> Live(ops, p))
            && (p in s.config ==> Holds(s.config[p], ops, p))
  {
    hide Exec, Live, Holds, Counts;
    if ops == [] {
      NoOperations(mode, p);
    } else {
      var front, op := ops[..|ops| - 1], ops[|ops| - 1];
      assert ops == front + [op];
      DescriptorHistory(mode, front, p);
      var s := ExecAll(NewSender(mode), front);
      EntryAfter(s, op, p, 0);
      MakesStep(front, op, p);
      LiveStep(front, op, p);
      if p in Exec(s, op).config {
        HoldsStep(s, front, op, p);
      }
    }
  }

  lemma {:induction false} NoOperations(mode: string, p: int)
    ensures ExecAll(NewSender(mode), []) == NewSender(mode) && Counts([]) == 0 && !Live([], p)
  {
  }

  // ----- The slots of a device's own pairs

  /** Operation m is the last to initialise key p. */
  ghost predicate LastMakes(ops: seq<Op>, m: nat, p: int) {
    Makes(ops, m, p) && forall j: nat | j > m :: !Makes(ops, j, p)
  }

  /** Operation j, after m, assigns slot i of key p, and no later one does. */
  ghost predicate LastAssigned(ops: seq<Op>, m: nat, j: nat, p: int, i: nat) {
    && m < j < |ops| && Assigns(ops[j], p, i)
    && forall k | j < k < |ops| :: !Assigns(ops[k], p, i)
  }

  predicate Assigns(op: Op, p: int, i: nat) {
    op.DataSocketOp? && op.port == p && op.slot == i
  }

  lemma {:induction false} PairsOfLast(mode: string, ops: seq<Op>, m: nat, p: int)
    requires p in ExecAll(NewSender(mode), ops).config && LastMakes(ops, m, p)
    ensures ExecAll(NewSender(mode), ops).config[p].pairs == ops[m].pairs
  {
    hide Exec, Counts;
    var front, op := ops[..|ops| - 1], ops[|ops| - 1];
    assert ops == front + [op];
    DescriptorHistory(mode, front, p);
    MakesStep(front, op, p);
    EntryAfter(ExecAll(NewSender(mode), front), op, p, 0);
    hide Live, Holds, Makes;
    MakesBelow(ops, m, p);
    if m < |front| {
      assert LastMakes(front, m, p) by {
        forall j: nat | j > m
          ensures !Makes(front, j, p)
        {
          MakesBelow(front, j, p);
        }
      }
      PairsOfLast(mode, front, m, p);
    }
  }

  lemma {:induction false} KeptSince(ops: seq<Op>, p: int, m: nat)
    requires Live(ops, p) && LastMakes(ops, m, p)
    ensures forall k | m < k < |ops| :: ops[k] != ClearOp(p)
    ensures forall k | m < k < |ops| :: Live(ops[..k], p)
  {
    var j: nat :| Makes(ops, j, p) && forall i | j < i < |ops| :: ops[i] != ClearOp(p);
    assert j <= m;
    forall k | m < k < |ops|
      ensures Live(ops[..k], p)
    {
      assert ops[..k][..m] == ops[..m] && Makes(ops[..k], m, p);
    }
  }

  /** Slot i of a device with more than i pairs: the descriptor last assigned since the device
      was initialised, for both directions, or -1 when none was. */
  lemma {:induction false} SlotSinceArrival(mode: string, ops: seq<Op>, p: int, m: nat, i: nat)
    requires p in ExecAll(NewSender(mode), ops).config && LastMakes(ops, m, p)
    requires i < ExecAll(NewSender(mode), ops).config[p].pairs && i < MAX_QUEUE_PAIRS
    ensures var slot := ExecAll(NewSender(mode), ops).config[p].sockets[i];
            && (forall j: nat | LastAssigned(ops, m, j, p, i) :: slot == PortQueuePair(ops[j].fd, ops[j].fd))
            && ((forall j: nat :: !LastAssigned(ops, m, j, p, i)) ==> slot == PortQueuePair(-1, -1))
  {
    DescriptorHistory(mode, ops, p);
    PairsOfLast(mode, ops, m, p);
    KeptSince(ops, p, m);
    assert SlotHolds(ExecAll(NewSender(mode), ops).config[p], ops, p, i);
    hide Live, Counts, Exec, ExecAll;
    forall j: nat | LastAssigned(ops, m, j, p, i)
      ensures LatestWrite(ops, j, p, i)
    {
    }
    if forall j: nat :: !LastAssigned(ops, m, j, p, i) {
      NoneAssigned(ops, m, |ops|, p, i);
      assert LatestWrite(ops, m, p, i);
    }
  }

  lemma {:induction false} NoneAssigned(ops: seq<Op>, m: nat, n: nat, p: int, i: nat)
    requires n <= |ops| && forall k | n <= k < |ops| :: !Assigns(ops[k], p, i)
    requires forall j: nat :: !LastAssigned(ops, m, j, p, i)
    ensures forall k | m < k < |ops| :: !Assigns(ops[k], p, i)
    decreases n
  {
    if n > m + 1 {
      assert !LastAssigned(ops, m, n - 1, p, i);
      NoneAssigned(ops, m, n - 1, p, i);
    }
  }
}
