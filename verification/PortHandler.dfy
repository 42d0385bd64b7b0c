/** The loopback handler: start() creates two pools and a ring under fixed names and launches
    workers; stop() lowers the flag the workers share. DPDK is a registry of live names in
    which creating a name that is live fails, and any other creation may fail too. */
module PortHandler {
  import opened Records
  import opened Names
  import opened Lifecycle

  /** The command-line settings start() reads. */
  datatype Settings = Settings(mode: string, threads: int)

  /** Which creations DPDK is able to carry out in one call of start(), names permitting. */
  datatype Grants = Grants(txPool: bool, rxPool: bool, txRing: bool)

  datatype Dpdk = Dpdk(pools: set<string>, rings: set<string>)

  /** How start() ended; the last three are its exceptions. */
  datatype StartResult = Started(workers: nat) | NoTxPool | NoRxPool | NoTxRing

  datatype Handler = Handler(vid: int, rxqid: int, txqid: int, life: Life,
                             txPool: Option<string>, rxPool: Option<string>,
                             txRing: Option<string>, rxRing: Option<string>)

  const NEW_HANDLER: Handler := Handler(-1, -1, -1, IDLE, None, None, None, None)

  function Created(live: set<string>, name: string, granted: bool): Option<string> {
    if granted && name !in live then Some(name) else None
  }

  function Adding(live: set<string>, made: Option<string>): set<string> {
    if made.Some? then live + {made.value} else live
  }

  function WorkersFor(s: Settings): nat {
    if s.mode == "Loopback" && (s.threads == 1 || s.threads == 2) then s.threads else 0
  }

  /** start() as a function of the handler and the registry. A failed creation leaves a null
      pool behind, and whatever was created before it stays live. */
  function AfterStart(h: Handler, d: Dpdk, s: Settings, g: Grants): (Handler, Dpdk, StartResult) {
    var txPool := Created(d.pools, TxPoolName(h.vid, h.txqid), g.txPool);
    var h1, d1 := h.(txPool := txPool), d.(pools := Adding(d.pools, txPool));
    if txPool.None? then (h1, d1, NoTxPool) else
    var rxPool := Created(d1.pools, RxPoolName(h.vid, h.rxqid), g.rxPool);
    var h2, d2 := h1.(rxPool := rxPool), d1.(pools := Adding(d1.pools, rxPool));
    if rxPool.None? then (h2, d2, NoRxPool) else
    var txRing := Created(d2.rings, TxRingName(h.vid, h.txqid), g.txRing);
    var h3, d3 := h2.(txRing := txRing), d2.(rings := Adding(d2.rings, txRing));
    if txRing.None? then (h3, d3, NoTxRing) else
    var n := WorkersFor(s);
    if n == 0 then (h3, d3, Started(0)) else
    (h3.(rxRing := txRing, life := Next(h.life, Launch(n))), d3, Started(n))
  }

  class DpdkRegistry {
    var pools: set<string>
    var rings: set<string>

    constructor ()
      ensures Abs() == Dpdk({}, {})
    {
      pools, rings := {}, {};
    }

    function Abs(): Dpdk
      reads this
    {
      Dpdk(pools, rings)
    }

    method CreatePool(name: string, granted: bool) returns (pool: Option<string>)
      modifies this`pools
      ensures pool == Created(old(pools), name, granted)
      ensures pools == Adding(old(pools), pool)
    {
      if granted && name !in pools {
        pools := pools + {name};
        return Some(name);
      }
      return None;
    }

    method CreateRing(name: string, granted: bool) returns (ring: Option<string>)
      modifies this`rings
      ensures ring == Created(old(rings), name, granted)
      ensures rings == Adding(old(rings), ring)
    {
      if granted && name !in rings {
        rings := rings + {name};
        return Some(name);
      }
      return None;
    }
  }

  class PortHandlerLoopback {
    var isRunning: bool
    var workers: seq<WorkerPc>
    var vid: int
    var rxqid: int
    var txqid: int
    var txMbufPool: Option<string>
    var rxMbufPool: Option<string>
    var txRing: Option<string>
    var rxRing: Option<string>

    constructor ()
      ensures Abs() == NEW_HANDLER
    {
      isRunning, workers := false, [];
      vid, rxqid, txqid := -1, -1, -1;
      txMbufPool, rxMbufPool, txRing, rxRing := None, None, None, None;
    }

    function Abs(): Handler
      reads this
    {
      Handler(vid, rxqid, txqid, Life(isRunning, workers), txMbufPool, rxMbufPool, txRing, rxRing)
    }

    method SetVid(v: int)
      modifies this`vid
      ensures vid == v
    {
      vid := v;
    }

    method SetRxqid(id: int)
      modifies this`rxqid
      ensures rxqid == id
    {
      rxqid := id;
    }

    method SetTxqid(id: int)
      modifies this`txqid
      ensures txqid == id
    {
      txqid := id;
    }

    method Start(s: Settings, dpdk: DpdkRegistry, g: Grants) returns (result: StartResult)
      modifies this, dpdk
      ensures (Abs(), dpdk.Abs(), result) == AfterStart(old(Abs()), old(dpdk.Abs()), s, g)
    {
      hide TxPoolName, RxPoolName, TxRingName;
      var txPoolName := TxPoolName(vid, txqid);
      var rxPoolName := RxPoolName(vid, rxqid);
      var txRingName := TxRingName(vid, txqid);
      txMbufPool := dpdk.CreatePool(txPoolName, g.txPool);
      if txMbufPool.None? {
        return NoTxPool;
      }
      rxMbufPool := dpdk.CreatePool(rxPoolName, g.rxPool);
      if rxMbufPool.None? {
        return NoRxPool;
      }
      txRing := dpdk.CreateRing(txRingName, g.txRing);
      if txRing.None? {
        return NoTxRing;
      }
      if s.mode == "Loopback" {
        if s.threads == 1 {
          rxRing := txRing;
          workers := workers + [Entered];
          assert [Entered] == seq(1, _ => Entered);
          return Started(1);
        } else if s.threads == 2 {
          rxRing := txRing;
          workers := workers + [Entered];
          workers := workers + [Entered];
          assert workers == old(workers) + seq(2, _ => Entered);
          return Started(2);
        }
      }
      return Started(0);
    }

    method Stop()
      modifies this`isRunning
      ensures Abs() == old(Abs()).(life := Next(old(Abs()).life, LifeStep.Stop))
    {
      isRunning := false;
    }

    /** The next atomic action of one worker: its store, a test of the guard, or the sleep. */
    method WorkerStep(i: nat)
      requires Enabled(Abs().life, Work(i))
      modifies this`isRunning, this`workers
      ensures Abs() == old(Abs()).(life := Next(old(Abs()).life, Work(i)))
    {
      match workers[i] {
        case Entered =>
          isRunning := true;
          workers := workers[i := Testing];
        case Testing =>
          if isRunning {
            workers := workers[i := Sleeping];
          } else {
            workers := workers[i := Finished];
          }
        case Sleeping =>
          workers := workers[i := Testing];
      }
    }
  }
}
