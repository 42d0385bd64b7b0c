/** The vhost controller: DPDK callbacks that update the configuration manager and write
    records to the port controller. A callback is a program of small operations, so that
    deliveries can fall between them; run alone it is one atomic change. */
module VhostController {
  import opened Records
  import opened ConfigManager

  datatype Event =
    | NewDevice(vid: int, vringCount: nat)
    | VringState(vid: int, qid: int, enable: int)
    | Destroy(vid: int)

  /** The first five make up the callbacks; the socket assignments belong to none of them. */
  datatype Op =
    | InitOp(vid: int, pairs: nat)
    | SetOp(vid: int, qid: int, on: bool)
    | NotifyOp(meta: int, vid: int, qid: int, enable: int)
    | CountOp
    | ClearOp(vid: int)
    | DataSocketOp(port: int, slot: nat, fd: int)
    | ControlSocketOp(port: int, fd: int)

  /** config and portCntr, and every record written so far. */
  datatype Sender = Sender(mode: string, config: Config, portCntr: int, sent: seq<RingState>)

  /** What the vhost library is trusted for: at most eight pairs, queue ids below sixteen, and
      an enable argument that is 0 or 1. */
  predicate Legal(e: Event) {
    match e
    case NewDevice(_, n) => n / 2 <= MAX_QUEUE_PAIRS
    case VringState(_, q, en) => 0 <= q < VRINGS && (en == 0 || en == 1)
    case Destroy(_) => true
  }

  ghost predicate AllLegal(es: seq<Event>) {
    forall i | 0 <= i < |es| :: Legal(es[i])
  }

  predicate Forwards(mode: string) {
    mode == "Loopback" || mode == "Back2Back"
  }

  function NewSender(mode: string): Sender {
    Sender(mode, map[], 0, [])
  }

  function Program(e: Event): seq<Op> {
    match e
    case NewDevice(vid, n) =>
      [InitOp(vid, n / 2), SetOp(vid, 0, true), SetOp(vid, 1, true),
       NotifyOp(0, vid, 0, 1), NotifyOp(0, vid, 1, 1), CountOp]
    case VringState(vid, q, en) =>
      [SetOp(vid, q, en != 0)] + if q >= 2 then [NotifyOp(0, vid, q, en)] else []
    case Destroy(vid) => [NotifyOp(1, vid, 0, 0), ClearOp(vid)]
  }

  function Exec(s: Sender, op: Op): (s': Sender)
    ensures s.sent <= s'.sent
  {
    match op
    case InitOp(vid, n) => s.(config := WithDevice(s.config, s.portCntr, vid, n))
    case SetOp(vid, q, on) => s.(config := WithQueueState(s.config, vid, q, on))
    case NotifyOp(meta, vid, q, en) =>
      if Forwards(s.mode) then s.(sent := s.sent + [RingState(meta, s.portCntr, vid, q, en)]) else s
    case CountOp => s.(portCntr := s.portCntr + 1)
    case ClearOp(vid) => s.(config := s.config - {vid})
    case DataSocketOp(port, slot, fd) => s.(config := WithDataSocket(s.config, port, slot, fd))
    case ControlSocketOp(port, fd) => s.(config := WithControlSocket(s.config, port, fd))
  }

  function ExecAll(s: Sender, ops: seq<Op>): (s': Sender)
    ensures s.sent <= s'.sent
  {
    if ops == [] then s else Exec(ExecAll(s, ops[..|ops| - 1]), ops[|ops| - 1])
  }

  function AllOps(es: seq<Event>): seq<Op> {
    if es == [] then [] else AllOps(es[..|es| - 1]) + Program(es[|es| - 1])
  }

  function SenderAfter(mode: string, es: seq<Event>): Sender {
    ExecAll(NewSender(mode), AllOps(es))
  }

  lemma {:induction false} ExecAllAppends(s: Sender, a: seq<Op>, b: seq<Op>)
    ensures ExecAll(s, a + b) == ExecAll(ExecAll(s, a), b)
  {
    if b == [] {
      assert a + b == a;
    } else {
      ExecAllAppends(s, a, b[..|b| - 1]);
      assert (a + b)[..|a + b| - 1] == a + b[..|b| - 1];
    }
  }

  lemma {:induction false} ExecAllStep(s: Sender, ops: seq<Op>, op: Op)
    ensures ExecAll(s, ops + [op]) == Exec(ExecAll(s, ops), op)
  {
    assert (ops + [op])[..|ops|] == ops;
  }

  lemma {:induction false} ExecOne(s: Sender, op: Op)
    ensures ExecAll(s, [op]) == Exec(s, op)
  {
    assert [op][..0] == [];
  }

  /** The callback as one change. */
  function Callback(s: Sender, e: Event): Sender {
    match e
    case NewDevice(vid, n) =>
      var c := WithDevice(s.config, s.portCntr, vid, n / 2);
      Sender(s.mode, WithQueueState(WithQueueState(c, vid, 0, true), vid, 1, true), s.portCntr + 1,
             s.sent + if Forwards(s.mode)
                      then [RingState(0, s.portCntr, vid, 0, 1), RingState(0, s.portCntr, vid, 1, 1)]
                      else [])
    case VringState(vid, q, en) =>
      s.(config := WithQueueState(s.config, vid, q, en != 0),
         sent := s.sent + if q >= 2 && Forwards(s.mode) then [RingState(0, s.portCntr, vid, q, en)] else [])
    case Destroy(vid) =>
      s.(config := s.config - {vid},
         sent := s.sent + if Forwards(s.mode) then [RingState(1, s.portCntr, vid, 0, 0)] else [])
  }

  lemma {:induction false} ProgramIsCallback(s: Sender, e: Event)
    ensures ExecAll(s, Program(e)) == Callback(s, e)
  {
    hide WithDevice, WithQueueState;
    var p := Program(e);
    match e {
      case NewDevice(vid, n) =>
        assert p == [p[0]] + [p[1]] + [p[2]] + [p[3]] + [p[4]] + [p[5]];
        ExecAllAppends(s, [p[0]] + [p[1]] + [p[2]] + [p[3]] + [p[4]], [p[5]]);
        ExecAllAppends(s, [p[0]] + [p[1]] + [p[2]] + [p[3]], [p[4]]);
        ExecAllAppends(s, [p[0]] + [p[1]] + [p[2]], [p[3]]);
        ExecAllAppends(s, [p[0]] + [p[1]], [p[2]]);
        ExecAllAppends(s, [p[0]], [p[1]]);
        hide ExecAll;
        ExecOne(s, p[0]);
        var s1 := Exec(s, p[0]);
        ExecOne(s1, p[1]);
        var s2 := Exec(s1, p[1]);
        ExecOne(s2, p[2]);
        var s3 := Exec(s2, p[2]);
        ExecOne(s3, p[3]);
        var s4 := Exec(s3, p[3]);
        ExecOne(s4, p[4]);
        var s5 := Exec(s4, p[4]);
        ExecOne(s5, p[5]);
        assert s5.sent == s.sent + if Forwards(s.mode)
                      then [RingState(0, s.portCntr, vid, 0, 1), RingState(0, s.portCntr, vid, 1, 1)]
                      else [];
      case VringState(vid, q, en) =>
        if q >= 2 {
          assert p == [p[0]] + [p[1]];
          ExecAllAppends(s, [p[0]], [p[1]]);
          ExecOne(Exec(s, p[0]), p[1]);
        }
        ExecOne(s, p[0]);
      case Destroy(vid) =>
        assert p == [p[0]] + [p[1]];
        ExecAllAppends(s, [p[0]], [p[1]]);
        ExecOne(s, p[0]);
        ExecOne(Exec(s, p[0]), p[1]);
    }
  }

  lemma {:induction false} SenderStep(mode: string, es: seq<Event>, e: Event)
    ensures SenderAfter(mode, es + [e]) == Callback(SenderAfter(mode, es), e)
  {
    assert (es + [e])[..|es|] == es;
    ExecAllAppends(NewSender(mode), AllOps(es), Program(e));
    ProgramIsCallback(SenderAfter(mode, es), e);
  }

  // ----- The three kinds of mode

  /** In every mode the callbacks keep the same configuration and counter; Loopback and
      Back2Back send the same records, and any other mode sends none. */
  lemma {:induction false} ModesCompared(es: seq<Event>, mode: string)
    ensures var (s, loopback) := (SenderAfter(mode, es), SenderAfter("Loopback", es));
            && s.mode == mode && s.config == loopback.config && s.portCntr == loopback.portCntr
            && s.sent == if mode == "Loopback" || mode == "Back2Back" then loopback.sent else []
  {
    hide SenderAfter;
    if es == [] {
      NoCallbacksYet(mode);
      NoCallbacksYet("Loopback");
    } else {
      var front, e := es[..|es| - 1], es[|es| - 1];
      assert es == front + [e];
      ModesCompared(front, mode);
      ModesCompared(front, "Loopback");
      SenderStep(mode, front, e);
      SenderStep("Loopback", front, e);
      CallbackInModes(SenderAfter(mode, front), SenderAfter("Loopback", front), e);
    }
  }

  lemma {:induction false} NoCallbacksYet(mode: string)
    ensures SenderAfter(mode, []) == Sender(mode, map[], 0, [])
  {
  }

  lemma {:induction false} CallbackInModes(s: Sender, loopback: Sender, e: Event)
    requires loopback.mode == "Loopback" && s.config == loopback.config && s.portCntr == loopback.portCntr
    requires s.sent == if s.mode == "Loopback" || s.mode == "Back2Back" then loopback.sent else []
    ensures var (s', t') := (Callback(s, e), Callback(loopback, e));
            && s'.mode == s.mode && s'.config == t'.config && s'.portCntr == t'.portCntr
            && s'.sent == if s.mode == "Loopback" || s.mode == "Back2Back" then t'.sent else []
  {
    hide WithDevice, WithQueueState;
  }

  // ----- Socket assignments change nothing else

  predicate SocketOp(op: Op) {
    op.DataSocketOp? || op.ControlSocketOp?
  }

  /** The senders differ in the configuration's socket descriptors at most. */
  ghost predicate SameSender(s: Sender, t: Sender) {
    && s.mode == t.mode && s.portCntr == t.portCntr && s.sent == t.sent
    && SameQueues(s.config, t.config)
  }

  /** Operations do not look at sockets: equal but for sockets before, so after. */
  lemma {:induction false} ExecSame(s: Sender, t: Sender, op: Op)
    requires SameSender(s, t)
    ensures SameSender(Exec(s, op), Exec(t, op))
  {
  }

  lemma {:induction false} ExecAllSame(s: Sender, t: Sender, ops: seq<Op>)
    requires SameSender(s, t)
    ensures SameSender(ExecAll(s, ops), ExecAll(t, ops))
  {
    hide Exec, SameSender;
    if ops != [] {
      ExecAllSame(s, t, ops[..|ops| - 1]);
      ExecSame(ExecAll(s, ops[..|ops| - 1]), ExecAll(t, ops[..|ops| - 1]), ops[|ops| - 1]);
    }
  }

  /** Assigning a socket at any moment leaves all that the protocol reads as it was. */
  lemma {:induction false} SocketOpSame(s: Sender, t: Sender, op: Op)
    requires SocketOp(op) && SameSender(s, t)
    ensures SameSender(Exec(s, op), t)
  {
  }

  /** Every operation keeps the two data sockets of each slot equal. */
  lemma {:induction false} ExecKeepsPairing(s: Sender, op: Op)
    requires SocketsPaired(s.config)
    ensures SocketsPaired(Exec(s, op).config)
  {
  }

  class VhostController {
    const mode: string
    const config: ConfigManager
    var portCntr: int
    /** The records written to the abstract socket. */
    var sent: seq<RingState>
    ghost var events: seq<Event>

    ghost function Abs(): Sender
      requires config.Valid()
      reads this, config, config.repr
    {
      Sender(mode, config.Abs(), portCntr, sent)
    }

    /** Everything but the socket descriptors is determined by the callbacks that have run. */
    ghost predicate Valid()
      reads this, config, config.repr
    {
      && config.Valid() && this !in config.repr
      && SameSender(Abs(), SenderAfter(mode, events))
    }

    constructor (mode: string, config: ConfigManager)
      requires config.Valid() && config.Abs() == map[]
      ensures Valid() && events == [] && this.mode == mode && this.config == config
    {
      this.mode, this.config := mode, config;
      portCntr, sent, events := 0, [], [];
    }

    /** A socket assigned in the configuration between two callbacks. */
    twostate lemma SocketsKeepValid(op: Op)
      requires old(Valid()) && SocketOp(op) && unchanged(this)
      requires config.Valid() && this !in config.repr && Abs() == Exec(old(Abs()), op)
      ensures Valid()
    {
      SocketOpSame(old(Abs()), SenderAfter(mode, events), op);
    }

    /** The next callback from a state that may differ from the history's in sockets. */
    lemma {:induction false} CallbackFrom(s: Sender, es: seq<Event>, e: Event)
      requires SameSender(s, SenderAfter(mode, es))
      ensures SameSender(Callback(s, e), SenderAfter(mode, es + [e]))
    {
      hide *;
      ExecAllSame(s, SenderAfter(mode, es), Program(e));
      ProgramIsCallback(s, e);
      ProgramIsCallback(SenderAfter(mode, es), e);
      SenderStep(mode, es, e);
    }

    method NotifyPortController(meta: int, vid: int, queueId: int, enable: int)
      requires config.Valid() && this !in config.repr
      modifies this`sent
      ensures config.Valid() && Abs() == Exec(old(Abs()), NotifyOp(meta, vid, queueId, enable))
    {
      if mode == "Loopback" || mode == "Back2Back" {
        var pdrs := RingState(meta, portCntr, vid, queueId, enable);
        sent := sent + [pdrs];
      }
    }

    method OnNewDevice(vid: int, vringCount: nat)
      requires Valid() && Legal(NewDevice(vid, vringCount))
      modifies this, config`pmap, config`repr, config.repr
      ensures config.Valid() && Abs() == Callback(old(Abs()), NewDevice(vid, vringCount))
      ensures Valid() && fresh(config.repr - old(config.repr))
      ensures events == old(events) + [NewDevice(vid, vringCount)]
    {
      hide SenderAfter, SameSender, WithDevice, WithQueueState;
      hide ConfigManager.Valid, ConfigManager.Abs, PortMap.Valid, PortMap.Abs;
      CallbackFrom(Abs(), events, NewDevice(vid, vringCount));
      events := events + [NewDevice(vid, vringCount)];
      config.InitVhostDevice(portCntr, vid, vringCount / 2);
      config.SetQueueState(vid, 0, true);
      config.SetQueueState(vid, 1, true);
      NotifyPortController(0, vid, 0, 1);
      NotifyPortController(0, vid, 1, 1);
      portCntr := portCntr + 1;
    }

    method OnDestroyDevice(vid: int)
      requires Valid()
      modifies this, config`pmap
      ensures config.Valid() && Abs() == Callback(old(Abs()), Destroy(vid))
      ensures Valid() && events == old(events) + [Destroy(vid)]
    {
      hide SenderAfter, SameSender, ConfigManager.Valid, ConfigManager.Abs, PortMap.Valid, PortMap.Abs;
      CallbackFrom(Abs(), events, Destroy(vid));
      events := events + [Destroy(vid)];
      NotifyPortController(1, vid, 0, 0);
      config.ClearDevice(vid);
    }

    method OnVringStateChanged(vid: int, queueId: int, enable: int)
      requires Valid() && Legal(VringState(vid, queueId, enable))
      modifies this, config.repr
      ensures config.Valid() && Abs() == Callback(old(Abs()), VringState(vid, queueId, enable))
      ensures Valid() && events == old(events) + [VringState(vid, queueId, enable)]
    {
      hide SenderAfter, SameSender, WithQueueState;
      hide ConfigManager.Valid, ConfigManager.Abs, PortMap.Valid, PortMap.Abs;
      CallbackFrom(Abs(), events, VringState(vid, queueId, enable));
      events := events + [VringState(vid, queueId, enable)];
      config.SetQueueState(vid, queueId, enable != 0);
      if queueId >= 2 {
        NotifyPortController(0, vid, queueId, enable);
      }
    }
  }
}
