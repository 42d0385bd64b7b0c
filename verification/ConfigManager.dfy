/** The configuration manager: the command-line table it builds, and the port map, a mutable
    map of devices with arrays of eight queue pairs, as a refinement of a map from port to
    the set of enabled vrings. */
module ConfigManager {
  import opened Records
  import P = CmdlineParser

  // ----- The abstract port map

  datatype PortQueuePair = PortQueuePair(rxqId: int, txqId: int)

  /** What one port map entry means. 'enabled' holds the vrings 0..15 whose slot is enabled. */
  datatype Device = Device(vid: int, pairs: nat, ready: bool, ctlqId: int, enabled: set<int>,
                           sockets: Slots, ctlSocket: int)

  type Slots = s: seq<PortQueuePair> | |s| == MAX_QUEUE_PAIRS
    witness seq(MAX_QUEUE_PAIRS, _ => PortQueuePair(0, 0))

  type Config = map<int, Device>

  /** A value-initialised entry. */
  function BlankDevice(): Device {
    Device(0, 0, false, 0, {}, seq(MAX_QUEUE_PAIRS, _ => PortQueuePair(0, 0)), 0)
  }

  /** The first n slots lose their sockets. */
  function Unconnected(slots: Slots, n: nat): Slots {
    seq(MAX_QUEUE_PAIRS, i requires 0 <= i < MAX_QUEUE_PAIRS => if i < n then PortQueuePair(-1, -1) else slots[i])
  }

  /** Initialising an entry resets the first n pairs only: a stale entry keeps the others. */
  function Initialised(d: Device, vid: int, n: nat): Device {
    d.(vid := vid, pairs := n, ready := true,
       ctlqId := if n > 0 then 2 * n else d.ctlqId,
       enabled := (set v | v in d.enabled && v >= 2 * n),
       sockets := Unconnected(d.sockets, n))
  }

  /** Initialising an entry switches off the queues of its n pairs and disconnects their slots;
      what an earlier device left beyond them, and the control socket, stay. */
  lemma {:induction false} InitialisedEntry(d: Device, vid: int, n: nat)
    requires n <= MAX_QUEUE_PAIRS
    ensures var d' := Initialised(d, vid, n);
            && d'.vid == vid && d'.pairs == n && d'.ready && d'.ctlSocket == d.ctlSocket
            && d'.ctlqId == (if n == 0 then d.ctlqId else 2 * n)
            && (forall v | v < 2 * n :: v !in d'.enabled)
            && (forall v | v >= 2 * n :: v in d'.enabled <==> v in d.enabled)
            && (forall i | 0 <= i < n :: d'.sockets[i] == PortQueuePair(-1, -1))
            && (forall i | n <= i < MAX_QUEUE_PAIRS :: d'.sockets[i] == d.sockets[i])
  {
  }

  function WithDevice(c: Config, port: int, vid: int, n: nat): Config {
    c[port := Initialised(if port in c then c[port] else BlankDevice(), vid, n)]
  }

  function Switched(d: Device, vring: int, enable: bool): Device {
    if 0 <= vring < 2 * d.pairs
    then d.(enabled := if enable then d.enabled + {vring} else d.enabled - {vring})
    else d
  }

  function WithQueueState(c: Config, port: int, vring: int, enable: bool): Config {
    if port in c then c[port := Switched(c[port], vring, enable)] else c
  }

  /** Both data sockets of one slot of an existing entry become fd. */
  function WithDataSocket(c: Config, port: int, slot: nat, fd: int): Config {
    if port in c && slot < MAX_QUEUE_PAIRS
    then c[port := c[port].(sockets := c[port].sockets[slot := PortQueuePair(fd, fd)])]
    else c
  }

  function WithControlSocket(c: Config, port: int, fd: int): Config {
    if port in c then c[port := c[port].(ctlSocket := fd)] else c
  }

  /** The two data sockets of every slot are the same. */
  ghost predicate SocketsPaired(c: Config) {
    forall p, i | p in c && 0 <= i < MAX_QUEUE_PAIRS :: c[p].sockets[i].rxqId == c[p].sockets[i].txqId
  }

  /** The two configurations differ in socket descriptors at most. */
  ghost predicate SameQueues(c: Config, c': Config) {
    && c.Keys == c'.Keys
    && forall p | p in c :: c'[p] == c[p].(sockets := c'[p].sockets, ctlSocket := c'[p].ctlSocket)
  }

  /** is_queue_ready. */
  predicate Ready(c: Config, port: int, pair: int) {
    port in c && 2 * pair in c[port].enabled && 2 * pair + 1 in c[port].enabled
  }

  // ----- The mutable port map

  datatype VhostQueuePair = VhostQueuePair(rxqId: int, txqId: int, rxqEnabled: bool, txqEnabled: bool)

  class PortMap {
    var vid: int
    var nofQueuePairs: int
    const qpid: array<int>
    const qp: array<VhostQueuePair>
    var ready: bool
    var ctlqId: int
    const portQp: array<PortQueuePair>
    var portCtlqId: int

    ghost predicate Valid()
      reads this, qpid, qp
    {
      && qpid.Length == qp.Length == portQp.Length == MAX_QUEUE_PAIRS
      && 0 <= nofQueuePairs <= MAX_QUEUE_PAIRS
      && forall i | 0 <= i < nofQueuePairs ::
           qpid[i] == i && qp[i].rxqId == 2 * i && qp[i].txqId == 2 * i + 1
    }

    predicate Flag(v: int)
      requires qp.Length == MAX_QUEUE_PAIRS && 0 <= v < VRINGS
      reads qp
    {
      if v % 2 == 0 then qp[v / 2].rxqEnabled else qp[v / 2].txqEnabled
    }

    ghost function Abs(): Device
      requires Valid()
      reads this, qpid, qp, portQp
    {
      Device(vid, nofQueuePairs, ready, ctlqId, (set v | 0 <= v < VRINGS && Flag(v)), portQp[..], portCtlqId)
    }

    constructor ()
      ensures Valid() && Abs() == BlankDevice()
      ensures fresh(qpid) && fresh(qp) && fresh(portQp)
    {
      vid, nofQueuePairs, ready, ctlqId, portCtlqId := 0, 0, false, 0, 0;
      qpid := new int[MAX_QUEUE_PAIRS](_ => 0);
      qp := new VhostQueuePair[MAX_QUEUE_PAIRS](_ => VhostQueuePair(0, 0, false, false));
      portQp := new PortQueuePair[MAX_QUEUE_PAIRS](_ => PortQueuePair(0, 0));
    }

    method Init(vid: int, nofPairs: int)
      requires Valid() && 0 <= nofPairs <= MAX_QUEUE_PAIRS
      modifies this, qpid, qp, portQp
      ensures Valid() && Abs() == Initialised(old(Abs()), vid, nofPairs)
    {
      ghost var was := Abs();
      this.vid := vid;
      nofQueuePairs := nofPairs;
      ready := true;
      for i := 0 to nofPairs
        invariant this.vid == vid && nofQueuePairs == nofPairs && ready && portCtlqId == old(portCtlqId)
        invariant ctlqId == if i > 0 then nofPairs * 2 else old(ctlqId)
        invariant forall k | 0 <= k < i :: qp[k] == VhostQueuePair(2 * k, 2 * k + 1, false, false) && qpid[k] == k
        invariant forall k | i <= k < MAX_QUEUE_PAIRS :: qp[k] == old(qp[k])
        invariant forall k | 0 <= k < i :: portQp[k] == PortQueuePair(-1, -1)
        invariant forall k | i <= k < MAX_QUEUE_PAIRS :: portQp[k] == old(portQp[k])
      {
        qp[i] := VhostQueuePair(i * 2, i * 2 + 1, false, false);
        qpid[i] := i;
        portQp[i] := PortQueuePair(-1, -1);
        ready := true;
        ctlqId := nofPairs * 2;
      }
      assert Abs().enabled == Initialised(was, vid, nofPairs).enabled;
    }

    method SetVring(vring: int, enable: bool)
      requires Valid()
      modifies qp
      ensures Valid() && Abs() == Switched(old(Abs()), vring, enable)
    {
      ghost var was := Abs();
      for i := 0 to nofQueuePairs
        invariant !(0 <= vring < 2 * i)
        invariant qp[..] == old(qp[..])
      {
        if qp[i].rxqId == vring {
          qp[i] := qp[i].(rxqEnabled := enable);
          assert Abs().enabled == Switched(was, vring, enable).enabled;
          return;
        }
        if qp[i].txqId == vring {
          qp[i] := qp[i].(txqEnabled := enable);
          assert Abs().enabled == Switched(was, vring, enable).enabled;
          return;
        }
      }
    }

    method SetDataSocket(qpIdx: nat, socketFd: int)
      requires Valid() && qpIdx < MAX_QUEUE_PAIRS
      modifies portQp
      ensures Valid()
      ensures Abs() == old(Abs()).(sockets := old(Abs()).sockets[qpIdx := PortQueuePair(socketFd, socketFd)])
    {
      portQp[qpIdx] := portQp[qpIdx].(rxqId := socketFd);
      portQp[qpIdx] := portQp[qpIdx].(txqId := socketFd);
    }

    method SetControlSocket(ctlFd: int)
      requires Valid()
      modifies this`portCtlqId
      ensures Valid()
      ensures Abs() == old(Abs()).(ctlSocket := ctlFd)
    {
      portCtlqId := ctlFd;
    }
  }

  // ----- The command-line table

  function DefaultTable(): P.Table {
    [P.Argument("--help", "-h", "Show this help menu", false, false, "false"),
     P.Argument("--mode", "-m", "Loopback | Back2Back | Emulator", false, false, "Loopback"),
     P.Argument("--mode-threads", "-mth", "1 | 2", false, false, "1"),
     P.Argument("--abstract_sockname", "-absn", "Specify a random name. For internal use only", false, false,
                "cm_to_ph_sock"),
     P.Argument("--port_data_sockname", "-pdsn", "Unix socket path to connect to port data plane", false, false,
                "/tmp/port_data.sock"),
     P.Argument("--port_control_sockname", "-pcsn", "Unix socket path to connect to port control plane", false, false,
                "/tmp/port_ctrl.sock"),
     P.Argument("--vhost_sockname", "-vsn", "Unix socket path to connect to virtual machine", false, false,
                "/tmp/vhost.sock")]
  }

  class ConfigManager {
    const parser: P.CmdlineParser
    var pmap: map<int, PortMap>

    /** The objects the port map is made of. */
    ghost var repr: set<object>

    ghost predicate Valid()
      reads this, repr
    {
      && this !in repr
      && (forall k | k in pmap ::
            && pmap[k] in repr && pmap[k].qpid in repr && pmap[k].qp in repr && pmap[k].portQp in repr
            && pmap[k].Valid())
      && forall k, l | k in pmap && l in pmap && k != l ::
           && pmap[k] != pmap[l] && pmap[k].qpid != pmap[l].qpid
           && pmap[k].qp != pmap[l].qp && pmap[k].portQp != pmap[l].portQp
    }

    ghost function Abs(): Config
      requires Valid()
      reads this, repr
    {
      map k | k in pmap :: pmap[k].Abs()
    }

    constructor ()
      ensures Valid() && Abs() == map[] && repr == {}
      ensures fresh(parser) && parser.arguments == DefaultTable()
    {
      var p := new P.CmdlineParser();
      p.AddArgument("--help", "-h", "Show this help menu", false, "false");
      p.AddArgument("--mode", "-m", "Loopback | Back2Back | Emulator", false, "Loopback");
      p.AddArgument("--mode-threads", "-mth", "1 | 2", false, "1");
      p.AddArgument("--abstract_sockname", "-absn", "Specify a random name. For internal use only", false,
                    "cm_to_ph_sock");
      p.AddArgument("--port_data_sockname", "-pdsn", "Unix socket path to connect to port data plane", false,
                    "/tmp/port_data.sock");
      p.AddArgument("--port_control_sockname", "-pcsn", "Unix socket path to connect to port control plane", false,
                    "/tmp/port_ctrl.sock");
      p.AddArgument("--vhost_sockname", "-vsn", "Unix socket path to connect to virtual machine", false,
                    "/tmp/vhost.sock");
      parser := p;
      pmap, repr := map[], {};
    }

    /** Parses the command line; false when it is rejected or help was asked for. */
    method Init(argv: seq<string>) returns (proceed: bool)
      modifies parser
      ensures var (t, r) := P.Parsed(old(parser.arguments), argv);
              parser.arguments == t && (proceed <==> r.Accepted? && !P.Truth(P.Get(t, "--help")))
    {
      var r := parser.Parse(argv);
      if r.Rejected? {
        return false;
      }
      var help := parser.GetBool("--help");
      return !help;
    }

    method InitVhostDevice(portId: int, vid: int, nofPairs: int)
      requires Valid() && 0 <= nofPairs <= MAX_QUEUE_PAIRS
      modifies this`pmap, this`repr, repr
      ensures Valid() && fresh(repr - old(repr))
      ensures Abs() == WithDevice(old(Abs()), portId, vid, nofPairs)
    {
      hide BlankDevice, PortMap.Abs, PortMap.Valid, Valid, Initialised;
      var pm := FindOrCreate(portId);
      InitEntry(portId, vid, nofPairs);
    }

    /** The fields of an existing entry. */
    method InitEntry(portId: int, vid: int, nofPairs: int)
      requires Valid() && portId in pmap && 0 <= nofPairs <= MAX_QUEUE_PAIRS
      modifies repr
      ensures Valid() && repr == old(repr)
      ensures Abs() == old(Abs())[portId := Initialised(old(Abs())[portId], vid, nofPairs)]
    {
      hide BlankDevice, PortMap.Abs, Initialised;
      pmap[portId].Init(vid, nofPairs);
      OthersKept(portId);
    }

    /** pmap_[port]: the entry, value-initialised if there was none. */
    method FindOrCreate(portId: int) returns (pm: PortMap)
      requires Valid()
      modifies this`pmap, this`repr
      ensures Valid() && fresh(repr - old(repr))
      ensures portId in pmap && pmap[portId] == pm
      ensures Abs() == if portId in old(Abs()) then old(Abs()) else old(Abs())[portId := BlankDevice()]
    {
      if portId in pmap {
        pm := pmap[portId];
      } else {
        pm := Create(portId);
      }
    }

    method Create(portId: int) returns (pm: PortMap)
      requires Valid() && portId !in pmap
      modifies this`pmap, this`repr
      ensures Valid() && fresh(repr - old(repr))
      ensures portId in pmap && pmap[portId] == pm
      ensures Abs() == old(Abs())[portId := BlankDevice()]
    {
      hide BlankDevice, PortMap.Abs, PortMap.Valid;
      pm := new PortMap();
      label blank:
      pmap := pmap[portId := pm];
      repr := repr + {pm, pm.qpid, pm.qp, pm.portQp};
      assert forall k | k in old(pmap) :: pmap[k].Valid();
      EntryAdded(portId, pm);
    }

    twostate lemma EntryAdded(portId: int, new pm: PortMap)
      requires old(Valid()) && Valid() && portId !in old(pmap) && pmap == old(pmap)[portId := pm]
      requires pmap[portId].Valid()
      requires forall k | k in old(pmap) ::
                 unchanged(pmap[k]) && unchanged(pmap[k].qpid) && unchanged(pmap[k].qp) && unchanged(pmap[k].portQp)
      ensures Abs() == old(Abs())[portId := pmap[portId].Abs()]
    {
      forall k | k in old(pmap)
        ensures pmap[k].Abs() == old(pmap[k].Abs())
      {
        assert forall v | 0 <= v < VRINGS :: pmap[k].Flag(v) == old(pmap[k].Flag(v));
      }
    }

    /** Changing one entry's own objects changes that entry only. */
    twostate lemma OthersKept(portId: int)
      requires old(Valid()) && Valid() && portId in pmap && pmap == old(pmap)
      requires forall k | k in pmap && k != portId ::
                 unchanged(pmap[k]) && unchanged(pmap[k].qpid) && unchanged(pmap[k].qp) && unchanged(pmap[k].portQp)
      ensures Abs() == old(Abs())[portId := pmap[portId].Abs()]
    {
      forall k | k in pmap && k != portId
        ensures pmap[k].Abs() == old(pmap[k].Abs())
      {
        assert forall v | 0 <= v < VRINGS :: pmap[k].Flag(v) == old(pmap[k].Flag(v));
      }
    }

    method SetQueueState(portId: int, vringId: int, enable: bool)
      requires Valid()
      modifies repr
      ensures Valid() && repr == old(repr)
      ensures Abs() == WithQueueState(old(Abs()), portId, vringId, enable)
    {
      if portId !in pmap {
        return;
      }
      pmap[portId].SetVring(vringId, enable);
      OthersKept(portId);
    }

    method AssignPortDataSocket(portId: int, qpIdx: int, socketFd: int)
      requires Valid() && 0 <= qpIdx
      modifies repr
      ensures Valid() && repr == old(repr)
      ensures Abs() == WithDataSocket(old(Abs()), portId, qpIdx, socketFd)
    {
      if portId in pmap && qpIdx < MAX_QUEUE_PAIRS {
        pmap[portId].SetDataSocket(qpIdx, socketFd);
        OthersKept(portId);
      }
    }

    method AssignPortControlSocket(portId: int, ctlFd: int)
      requires Valid()
      modifies repr
      ensures Valid() && repr == old(repr)
      ensures Abs() == WithControlSocket(old(Abs()), portId, ctlFd)
    {
      if portId in pmap {
        pmap[portId].SetControlSocket(ctlFd);
        OthersKept(portId);
      }
    }

    method GetVhostQids(portId: int, qNum: int) returns (vid: int, rxq: int, txq: int)
      requires Valid()
      ensures (vid, rxq, txq) == if portId in Abs() && 0 <= qNum < Abs()[portId].pairs
                                 then (Abs()[portId].vid, 2 * qNum, 2 * qNum + 1) else (-1, 0, 0)
    {
      if portId !in pmap {
        return -1, 0, 0;
      }
      var pm := pmap[portId];
      if qNum < 0 || qNum >= pm.nofQueuePairs {
        return -1, 0, 0;
      }
      return pm.vid, pm.qp[qNum].rxqId, pm.qp[qNum].txqId;
    }

    method IsQueueReady(vid: int, qpid: int) returns (ready: bool)
      requires Valid() && 0 <= qpid < MAX_QUEUE_PAIRS
      ensures ready <==> Ready(Abs(), vid, qpid)
    {
      if vid !in pmap {
        return false;
      }
      var pm := pmap[vid];
      assert pm.Flag(2 * qpid) == pm.qp[qpid].rxqEnabled && pm.Flag(2 * qpid + 1) == pm.qp[qpid].txqEnabled;
      return pm.qp[qpid].rxqEnabled && pm.qp[qpid].txqEnabled;
    }

    method ClearDevice(vid: int)
      requires Valid()
      modifies this`pmap
      ensures Valid()
      ensures Abs() == old(Abs()) - {vid}
    {
      pmap := pmap - {vid};
    }
  }

  // ----- The command line of this program

  /** What tells the fourteen names of the table apart: length, second and third character. */
  function Mark(name: string): (int, char, char) {
    (|name|, if |name| > 1 then name[1] else ' ', if |name| > 2 then name[2] else ' ')
  }

  const LONG_MARKS := [(6, '-', 'h'), (6, '-', 'm'), (14, '-', 'm'), (19, '-', 'a'), (20, '-', 'p'), (23, '-', 'p'),
                       (16, '-', 'v')]
  const SHORT_MARKS := [(2, 'h', ' '), (2, 'm', ' '), (4, 'm', 't'), (5, 'a', 'b'), (5, 'p', 'd'), (5, 'p', 'c'),
                        (4, 'v', 's')]

  lemma {:induction false} DefaultMarks(j: nat)
    requires j < |DefaultTable()|
    ensures Mark(DefaultTable()[j].longName) == LONG_MARKS[j]
    ensures Mark(DefaultTable()[j].shortName) == SHORT_MARKS[j]
  {
  }

  lemma {:induction false} MarksDiffer(i: nat, j: nat)
    requires i < 7 && j < 7 && i != j
    ensures LONG_MARKS[i] != LONG_MARKS[j] && SHORT_MARKS[i] != SHORT_MARKS[j]
    ensures LONG_MARKS[i] != SHORT_MARKS[j] && SHORT_MARKS[i] != LONG_MARKS[j]
  {
  }

  lemma {:induction false} NamesDiffer(i: nat, j: nat)
    requires i < |DefaultTable()| && j < |DefaultTable()| && i != j
    ensures !DefaultTable()[i].Named(DefaultTable()[j].longName)
    ensures !DefaultTable()[i].Named(DefaultTable()[j].shortName)
  {
    hide DefaultTable, Mark, LONG_MARKS, SHORT_MARKS;
    TableSize();
    DefaultMarks(i);
    DefaultMarks(j);
    MarksDiffer(i, j);
  }

  lemma {:induction false} TableSize()
    ensures |DefaultTable()| == 7
  {
  }

  lemma {:induction false} DefaultsPlain()
    ensures P.Plain(DefaultTable())
    ensures forall j | 0 <= j < |DefaultTable()| :: !P.Dashed(DefaultTable()[j].value)
  {
  }

  /** Each argument of the table is found under its own long and short name. */
  lemma {:induction false} DefaultNames(j: nat)
    requires j < |DefaultTable()|
    ensures P.Find(DefaultTable(), DefaultTable()[j].longName) == j
    ensures P.Find(DefaultTable(), DefaultTable()[j].shortName) == j
  {
    hide P.Find, DefaultTable;
    var t := DefaultTable();
    forall i: nat | i < |t| && i != j
      ensures !t[i].Named(t[j].longName) && !t[i].Named(t[j].shortName)
    {
      NamesDiffer(i, j);
    }
    assert t[j].Named(t[j].longName) && t[j].Named(t[j].shortName);
  }

  /** Starting from this program's table, any EAL prefix and any rendered list of flags is
      accepted, and each argument reads, under both of its names, the last value given. */
  lemma {:induction false} ProgramRoundTrip(program: string, eal: seq<string>, items: seq<P.Item>, j: nat)
    requires P.Renderable(DefaultTable(), items) && "--" !in eal && j < |DefaultTable()|
    ensures var (t, r) := P.Parsed(DefaultTable(), [program] + eal + ["--"] + P.Render(items));
            && r == P.Accepted
            && P.Get(t, DefaultTable()[j].longName) == P.LastValue(DefaultTable(), items, j)
            && P.Get(t, DefaultTable()[j].shortName) == P.LastValue(DefaultTable(), items, j)
  {
    DefaultsPlain();
    DefaultNames(j);
    hide DefaultTable;
    P.RoundTrip(DefaultTable(), program, eal, items, DefaultTable()[j].longName);
    P.RoundTrip(DefaultTable(), program, eal, items, DefaultTable()[j].shortName);
  }

  /** However often and with whatever lines the program's table was parsed, a stored value is
      never a help flag, so get<bool> is true only through "true", "1" or "yes". */
  lemma {:induction false} HelpArmsAreDead(lines: seq<seq<string>>, name: string)
    ensures var value := P.Get(P.ParsedAll(DefaultTable(), lines), name);
            && value !in ["-h", "--help"]
            && (P.Truth(value) <==> value in ["true", "1", "yes"])
  {
    DefaultsPlain();
    P.StoredValues(DefaultTable(), lines);
    hide DefaultTable, P.ParsedAll;
    assert P.Dashed("-h") && P.Dashed("--help");
  }

  lemma {:induction false} BareKeepsValue(t: P.Table, items: seq<P.Item>, k: nat)
    requires k < |t|
    requires forall i | 0 <= i < |items| && P.Find(t, items[i].name) == k :: items[i].value.None?
    ensures P.LastValue(t, items, k) == t[k].value
  {
    if items != [] {
      BareKeepsValue(t, items[..|items| - 1], k);
    }
  }

  /** Help is shown exactly when the last value given to the help flag is a true one. A bare
      --help or -h, however often repeated, only leaves the default "false" in place. */
  lemma {:induction false} HelpShownIff(program: string, eal: seq<string>, items: seq<P.Item>)
    requires P.Renderable(DefaultTable(), items) && "--" !in eal
    ensures var (t, _) := P.Parsed(DefaultTable(), [program] + eal + ["--"] + P.Render(items));
            P.Truth(P.Get(t, "--help")) <==> P.LastValue(DefaultTable(), items, 0) in ["true", "1", "yes"]
    ensures (forall i | 0 <= i < |items| && items[i].name in ["--help", "-h"] :: items[i].value.None?) ==>
            var (t, r) := P.Parsed(DefaultTable(), [program] + eal + ["--"] + P.Render(items));
            r == P.Accepted && !P.Truth(P.Get(t, "--help"))
  {
    var argv := [program] + eal + ["--"] + P.Render(items);
    ProgramRoundTrip(program, eal, items, 0);
    HelpArmsAreDead([argv], "--help");
    assert [argv][..0] == [] && P.ParsedAll(DefaultTable(), []) == DefaultTable();
    assert DefaultTable()[0].longName == "--help" && DefaultTable()[0].shortName == "-h";
    assert DefaultTable()[0].value == "false";
    assert |DefaultTable()| == 7;
    hide DefaultTable, P.Parsed;
    assert P.ParsedAll(DefaultTable(), [argv]) == P.Parsed(DefaultTable(), argv).0;
    if forall i | 0 <= i < |items| && items[i].name in ["--help", "-h"] :: items[i].value.None? {
      forall i | 0 <= i < |items| && P.Find(DefaultTable(), items[i].name) == 0
        ensures items[i].value.None?
      {
        assert DefaultTable()[0].Named(items[i].name);
      }
      BareKeepsValue(DefaultTable(), items, 0);
    }
  }

  /** The program started with "-- -h": the line is accepted, and no help is shown. */
  lemma {:induction false} BareHelpIsIgnored(program: string)
    ensures P.Renderable(DefaultTable(), [P.Item("-h", None)])
    ensures var (t, r) := P.Parsed(DefaultTable(), [program, "--", "-h"]);
            r == P.Accepted && P.Get(t, "--help") == "false" && !P.Truth(P.Get(t, "--help"))
  {
    var item := P.Item("-h", None);
    DefaultNames(0);
    HelpRow();
    hide DefaultTable;
    assert P.Find(DefaultTable(), "-h") == 0;
    assert P.Renderable(DefaultTable(), [item]);
    assert [program] + [] + ["--"] + P.Render([item]) == [program, "--", "-h"] by {
      RenderedFlag(item);
    }
    ProgramRoundTrip(program, [], [item], 0);
    BareKeepsValue(DefaultTable(), [item], 0);
    HelpShownIff(program, [], [item]);
  }

  lemma {:induction false} HelpRow()
    ensures |DefaultTable()| == 7
    ensures var a := DefaultTable()[0]; a.longName == "--help" && a.shortName == "-h" && a.value == "false"
  {
  }

  lemma {:induction false} RenderedFlag(item: P.Item)
    requires item.value.None?
    ensures P.Render([item]) == [item.name]
  {
    assert [item][..0] == [];
  }
}
