/** What the vhost controller has stored and sent, read off the list of callbacks alone: the
    configuration, the states the records carry, and the start() calls they will cause. */
module SenderHistory {
  import opened Records
  import opened Replica
  import opened ConfigManager
  import opened VhostController

  function SenderOf(es: seq<Event>): Sender {
    SenderAfter("Loopback", es)
  }

  function Arrivals(es: seq<Event>): nat {
    if es == [] then 0
    else Arrivals(es[..|es| - 1]) + if es[|es| - 1].NewDevice? then 1 else 0
  }

  /** The index of the arrival that got port number p, or -1. */
  function Birth(es: seq<Event>, p: int): (j: int)
    ensures -1 <= j < |es|
    ensures j >= 0 ==> es[j].NewDevice?
  {
    if es == [] then -1
    else if es[|es| - 1].NewDevice? && Arrivals(es[..|es| - 1]) == p then |es| - 1
    else Birth(es[..|es| - 1], p)
  }

  lemma {:induction false} BirthRange(es: seq<Event>, p: int)
    ensures Birth(es, p) >= 0 <==> 0 <= p < Arrivals(es)
  {
    if es != [] {
      BirthRange(es[..|es| - 1], p);
    }
  }

  lemma {:induction false} BirthStep(es: seq<Event>, e: Event, p: int)
    ensures Birth(es + [e], p) == if e.NewDevice? && Arrivals(es) == p then |es| else Birth(es, p)
    ensures Arrivals(es + [e]) == Arrivals(es) + if e.NewDevice? then 1 else 0
  {
    assert (es + [e])[..|es|] == es;
  }

  /** Arrival number p has happened, and no later removal named p. */
  ghost predicate Present(es: seq<Event>, p: int) {
    && Birth(es, p) >= 0
    && forall i | Birth(es, p) < i < |es| :: es[i] != Destroy(p)
  }

  lemma {:induction false} PresentStep(es: seq<Event>, e: Event, p: int)
    ensures Present(es + [e], p) <==>
            (e.NewDevice? && Arrivals(es) == p) || (e != Destroy(p) && Present(es, p))
  {
    BirthStep(es, e, p);
    BirthRange(es, p);
    assert forall i | 0 <= i < |es| :: (es + [e])[i] == es[i];
    assert (es + [e])[|es|] == e;
  }

  /** Some device with id d has arrived, under whatever port number. */
  ghost predicate Arrived(es: seq<Event>, d: int) {
    exists i :: 0 <= i < |es| && es[i].NewDevice? && es[i].vid == d
  }

  /** Every arriving device's id is the port number it is filed under. */
  ghost predicate Fresh(es: seq<Event>) {
    forall i | 0 <= i < |es| && es[i].NewDevice? :: es[i].vid == Arrivals(es[..i])
  }

  lemma {:induction false} FreshBirth(es: seq<Event>, d: int)
    requires Fresh(es)
    ensures forall i | 0 <= i < |es| && es[i].NewDevice? :: es[i].vid == d <==> i == Birth(es, d)
  {
    if es != [] {
      var n := |es| - 1;
      var front := es[..n];
      assert Fresh(front) by {
        forall i | 0 <= i < n && front[i].NewDevice?
          ensures front[i].vid == Arrivals(front[..i])
        {
          assert front[..i] == es[..i] && front[i] == es[i];
        }
      }
      FreshBirth(front, d);
      BirthRange(front, d);
      assert forall i | 0 <= i < n :: es[i] == front[i];
      assert es[n].NewDevice? ==> es[n].vid == Arrivals(front);
    }
  }

  // ----- The latest event that sets a queue

  /** The event sets bit q of the entry under key p: a vring event names any queue, an arrival
      the first two of the key that equals the device's id. */
  predicate Sets(e: Event, p: int, q: int) {
    match e
    case NewDevice(v, _) => v == p && (q == 0 || q == 1)
    case VringState(v, r, _) => v == p && r == q
    case Destroy(_) => false
  }

  /** What an event that sets a queue sets it to. */
  predicate TurnsOn(e: Event) {
    e.NewDevice? || (e.VringState? && e.enable == 1)
  }

  ghost predicate LatestSet(es: seq<Event>, i: nat, p: int, q: int) {
    && i < |es| && Sets(es[i], p, q)
    && forall j | i < j < |es| :: !Sets(es[j], p, q)
  }

  /** The latest event that sets (p, q) turned it on. */
  predicate VringOn(es: seq<Event>, p: int, q: int) {
    if es == [] then false
    else if Sets(es[|es| - 1], p, q) then TurnsOn(es[|es| - 1])
    else VringOn(es[..|es| - 1], p, q)
  }

  lemma {:induction false} VringOnStep(es: seq<Event>, e: Event, p: int, q: int)
    ensures VringOn(es + [e], p, q) == if Sets(e, p, q) then TurnsOn(e) else VringOn(es, p, q)
  {
    assert (es + [e])[..|es|] == es;
  }

  /** The same on what follows event j. */
  lemma {:induction false} VringOnMeaning(es: seq<Event>, j: nat, p: int, q: int)
    requires j <= |es|
    ensures VringOn(es[j..], p, q) <==> exists i: nat :: LatestSet(es, i, p, q) && j <= i && TurnsOn(es[i])
    decreases |es|
  {
    if j < |es| {
      var n := |es| - 1;
      var front := es[..n];
      VringOnMeaning(front, j, p, q);
      assert es[j..] == front[j..] + [es[n]];
      VringOnStep(front[j..], es[n], p, q);
      if Sets(es[n], p, q) {
        assert LatestSet(es, n, p, q);
      } else {
        if i: nat :| LatestSet(front, i, p, q) && j <= i && TurnsOn(front[i]) {
          assert LatestSet(es, i, p, q);
        }
        if i: nat :| LatestSet(es, i, p, q) && j <= i && TurnsOn(es[i]) {
          assert LatestSet(front, i, p, q);
        }
      }
    }
  }

  // ----- What the records say

  lemma {:induction false} LastOnAppends(ms: seq<RingState>, m: RingState, d: int, q: int)
    ensures LastOn(ms + [m], d, q) == if m.Addresses(d, q) then m.enable == 1 else LastOn(ms, d, q)
  {
    assert (ms + [m])[..|ms|] == ms;
  }

  /** One more callback, in terms of the records it sends. */
  lemma {:induction false} SentStep(es: seq<Event>, e: Event)
    requires AllLegal(es + [e]) && SenderOf(es).mode == "Loopback"
    ensures AllLegal(es) && SenderOf(es + [e]).mode == "Loopback"
    ensures var (s, s') := (SenderOf(es), SenderOf(es + [e]));
            match e
            case NewDevice(v, _) =>
              && s'.sent == s.sent + [RingState(0, s.portCntr, v, 0, 1)] + [RingState(0, s.portCntr, v, 1, 1)]
              && s'.portCntr == s.portCntr + 1
            case VringState(v, q, en) =>
              && s'.sent == (if q >= 2 then s.sent + [RingState(0, s.portCntr, v, q, en)] else s.sent)
              && s'.portCntr == s.portCntr
            case Destroy(v) =>
              && s'.sent == s.sent + [RingState(1, s.portCntr, v, 0, 0)]
              && s'.portCntr == s.portCntr
  {
    SenderStep("Loopback", es, e);
    forall i | 0 <= i < |es|
      ensures Legal(es[i])
    {
      assert (es + [e])[i] == es[i];
    }
  }

  lemma {:induction false} SenderFacts(es: seq<Event>)
    requires AllLegal(es)
    ensures SenderOf(es).mode == "Loopback"
    ensures AllInRange(SenderOf(es).sent)
    ensures SenderOf(es).portCntr == Arrivals(es)
  {
    if es != [] {
      var n := |es| - 1;
      SenderFacts(es[..n]);
      assert es == es[..n] + [es[n]];
      SentStep(es[..n], es[n]);
      assert Legal(es[n]);
    }
  }

  /** What the receiver has been told: for queues from 2 on the latest vring event, for the
      first two only ever that a device with this id has arrived. */
  ghost predicate Announces(es: seq<Event>, d: int, q: int) {
    if q >= 2 then VringOn(es, d, q) else Arrived(es, d)
  }

  lemma {:induction false} AnnouncesLater(es: seq<Event>, d: int, q: int)
    requires q >= 2
    ensures Announces(es, d, q) <==> VringOn(es, d, q)
  {
  }

  lemma {:induction false} AnnouncesStep(es: seq<Event>, e: Event, d: int, q: int)
    ensures Announces(es + [e], d, q) <==>
            if q >= 2 && Sets(e, d, q) then TurnsOn(e)
            else Announces(es, d, q) || (q < 2 && e.NewDevice? && e.vid == d)
  {
    VringOnStep(es, e, d, q);
    assert forall i | 0 <= i < |es| :: (es + [e])[i] == es[i];
    assert (es + [e])[|es|] == e;
  }

  /** The last record for any queue carries what the receiver has been told by then. */
  lemma {:induction false} SentOn(es: seq<Event>, d: int, q: int)
    requires AllLegal(es) && q >= 0
    ensures LastOn(SenderOf(es).sent, d, q) <==> Announces(es, d, q)
  {
    if es != [] {
      LegalSplit(es);
      var front, e := es[..|es| - 1], es[|es| - 1];
      SentOn(front, d, q);
      SenderFacts(front);
      SentStep(front, e);
      AnnouncesStep(front, e, d, q);
      var s := SenderOf(front);
      hide SenderOf, Announces, LastOn;
      match e {
        case NewDevice(v, _) =>
          LastOnAppends(s.sent, RingState(0, s.portCntr, v, 0, 1), d, q);
          LastOnAppends(s.sent + [RingState(0, s.portCntr, v, 0, 1)], RingState(0, s.portCntr, v, 1, 1), d, q);
        case VringState(v, r, en) =>
          LastOnAppends(s.sent, RingState(0, s.portCntr, v, r, en), d, q);
        case Destroy(v) =>
          LastOnAppends(s.sent, RingState(1, s.portCntr, v, 0, 0), d, q);
      }
    } else {
      assert SenderOf([]).sent == [];
    }
  }

  /** Every start() call the receiver will make, read off the callbacks. */
  function StartsOf(es: seq<Event>): seq<StartCall> {
    if es == [] then []
    else
      var front := es[..|es| - 1];
      StartsOf(front) + match es[|es| - 1]
                        case NewDevice(v, _) => [StartCall(0, v, 0, 1)]
                        case VringState(v, q, enable) =>
                          if q >= 2 && q % 2 == 1 && enable == 1 && VringOn(front, v, q - 1)
                          then [StartCall(q / 2, v, q - 1, q)] else []
                        case Destroy(_) => []
  }

  /** The two records of an arrival start handler 0, whatever was sent before. */
  lemma {:induction false} ArrivalStarts(ms: seq<RingState>, port: int, v: int)
    requires AllInRange(ms)
    ensures var ms' := ms + [RingState(0, port, v, 0, 1)] + [RingState(0, port, v, 1, 1)];
            AllInRange(ms') && Starts(ms') == Starts(ms) + [StartCall(0, v, 0, 1)]
  {
    var m0, m1 := RingState(0, port, v, 0, 1), RingState(0, port, v, 1, 1);
    StartsStep(ms, m0);
    StartsStep(ms + [m0], m1);
    LastOnAppends(ms, m0, v, 0);
    hide Triggers, Starts, Replay, LastOn;
  }

  lemma {:induction false} VringStarts(ms: seq<RingState>, port: int, v: int, q: int, enable: int)
    requires AllInRange(ms) && 2 <= q < VRINGS
    ensures var ms' := ms + [RingState(0, port, v, q, enable)];
            && AllInRange(ms')
            && Starts(ms') == Starts(ms) + if q % 2 == 1 && enable == 1 && LastOn(ms, v, q - 1)
                                           then [StartCall(q / 2, v, q - 1, q)] else []
  {
    StartsStep(ms, RingState(0, port, v, q, enable));
  }

  lemma {:induction false} RemovalStarts(ms: seq<RingState>, port: int, v: int)
    requires AllInRange(ms)
    ensures var ms' := ms + [RingState(1, port, v, 0, 0)];
            AllInRange(ms') && Starts(ms') == Starts(ms)
  {
    StartsStep(ms, RingState(1, port, v, 0, 0));
  }

  lemma {:induction false} StartsOfStep(es: seq<Event>, e: Event)
    ensures StartsOf(es + [e]) == StartsOf(es) +
            match e
            case NewDevice(v, _) => [StartCall(0, v, 0, 1)]
            case VringState(v, q, enable) =>
              if q >= 2 && q % 2 == 1 && enable == 1 && VringOn(es, v, q - 1)
              then [StartCall(q / 2, v, q - 1, q)] else []
            case Destroy(_) => []
  {
    assert (es + [e])[..|es|] == es;
  }

  lemma {:induction false} LegalSplit(es: seq<Event>)
    requires AllLegal(es) && es != []
    ensures AllLegal(es[..|es| - 1]) && Legal(es[|es| - 1])
    ensures es == es[..|es| - 1] + [es[|es| - 1]]
    ensures es[|es| - 1].VringState? ==> es[|es| - 1].qid < VRINGS
  {
  }

  lemma {:induction false} NothingStarts()
    ensures SenderOf([]).sent == [] && Starts([]) == [] && StartsOf([]) == []
  {
  }

  /** The receiver's starts, over all that was ever sent, are the ones the callbacks ask for. */
  lemma {:induction false} SentStarts(es: seq<Event>)
    requires AllLegal(es)
    ensures AllInRange(SenderOf(es).sent)
    ensures Starts(SenderOf(es).sent) == StartsOf(es)
  {
    hide *;
    SenderFacts(es);
    if es == [] {
      NothingStarts();
    } else {
      LegalSplit(es);
      var front, e := es[..|es| - 1], es[|es| - 1];
      SentStarts(front);
      SenderFacts(front);
      SentStep(front, e);
      StartsOfStep(front, e);
      var s := SenderOf(front);
      match e {
        case NewDevice(v, _) => ArrivalStarts(s.sent, s.portCntr, v);
        case VringState(v, q, en) =>
          if q >= 2 {
            VringStarts(s.sent, s.portCntr, v, q, en);
            if q % 2 == 1 {
              SentOn(front, v, q - 1);
              AnnouncesLater(front, v, q - 1);
            }
          }
        case Destroy(v) => RemovalStarts(s.sent, s.portCntr, v);
      }
    }
  }

  /** A start() for pair k >= 1 of device d is called exactly when some event enables vring
      2k+1 while the latest earlier event of vring 2k has enabled that one. */
  lemma {:induction false} StartCalledIff(es: seq<Event>, d: int, k: int)
    requires k >= 1
    ensures StartCall(k, d, 2 * k, 2 * k + 1) in StartsOf(es) <==>
            exists i :: 0 <= i < |es| && es[i] == VringState(d, 2 * k + 1, 1) && VringOn(es[..i], d, 2 * k)
  {
    hide VringOn, StartsOf;
    if es == [] {
      NothingStarts();
    } else {
      var front, e := es[..|es| - 1], es[|es| - 1];
      StartCalledIff(front, d, k);
      assert es == front + [e];
      StartsOfStep(front, e);
      assert forall i | 0 <= i < |front| :: front[i] == es[i] && front[..i] == es[..i];
      assert es[..|front|] == front;
    }
  }

  /** Pair 0 of device d is started exactly when a device with that id has arrived. */
  lemma {:induction false} PairZeroCalledIff(es: seq<Event>, d: int)
    ensures StartCall(0, d, 0, 1) in StartsOf(es) <==> Arrived(es, d)
  {
    if es != [] {
      var front, e := es[..|es| - 1], es[|es| - 1];
      PairZeroCalledIff(front, d);
      assert es == front + [e];
      AnnouncesStep(front, e, d, 0);
    }
  }

  /** The callbacks ask for a start of pair k of d: for pair 0 a device with id d has arrived,
      for a later pair some event enabled its odd queue while the even one was on. */
  ghost predicate Asked(es: seq<Event>, d: int, k: int) {
    if k == 0 then Arrived(es, d)
    else exists i :: 0 <= i < |es| && es[i] == VringState(d, 2 * k + 1, 1) && VringOn(es[..i], d, 2 * k)
  }

  lemma {:induction false} AskedIff(es: seq<Event>, d: int, k: nat)
    ensures StartCall(k, d, 2 * k, 2 * k + 1) in StartsOf(es) <==> Asked(es, d, k)
  {
    if k == 0 {
      PairZeroCalledIff(es, d);
    } else {
      StartCalledIff(es, d, k);
    }
  }

  // ----- What the configuration says

  /** Entry p is that of arrival number p and of nothing earlier: a queue is enabled exactly
      when the latest event since that arrival to set it under key p turned it on. */
  ghost predicate Describes(dev: Device, es: seq<Event>, p: int) {
    && Birth(es, p) >= 0
    && var j := Birth(es, p);
       && dev.vid == es[j].vid && dev.pairs == es[j].vringCount / 2
       && dev.ready && dev.ctlqId == 2 * dev.pairs
       && forall q :: q in dev.enabled <==> 0 <= q < 2 * dev.pairs && VringOn(es[j..], p, q)
  }

  lemma {:induction false} SuffixStep(es: seq<Event>, e: Event, j: int, p: int, q: int)
    requires 0 <= j <= |es|
    ensures VringOn((es + [e])[j..], p, q) == if Sets(e, p, q) then TurnsOn(e) else VringOn(es[j..], p, q)
  {
    assert (es + [e])[j..] == es[j..] + [e];
    VringOnStep(es[j..], e, p, q);
  }

  /** What a callback does to an entry it does not remove. */
  function Touched(dev: Device, e: Event, p: int): Device {
    match e
    case NewDevice(v, _) => if v == p then Switched(Switched(dev, 0, true), 1, true) else dev
    case VringState(v, q, en) => if v == p then Switched(dev, q, en != 0) else dev
    case Destroy(_) => dev
  }

  lemma {:induction false} TouchedBit(dev: Device, e: Event, p: int, q: int)
    requires Legal(e)
    ensures Touched(dev, e, p) == dev.(enabled := Touched(dev, e, p).enabled)
    ensures q in Touched(dev, e, p).enabled <==>
            if Sets(e, p, q) && 0 <= q < 2 * dev.pairs then TurnsOn(e) else q in dev.enabled
  {
  }

  lemma {:induction false} DescribesNext(dev: Device, es: seq<Event>, e: Event, p: int)
    requires Describes(dev, es, p) && Legal(e)
    ensures Describes(Touched(dev, e, p), es + [e], p)
  {
    var j := Birth(es, p);
    BirthStep(es, e, p);
    BirthRange(es, p);
    TouchedBit(dev, e, p, 0);
    hide Touched, VringOn, Sets, TurnsOn, Birth;
    forall q
      ensures q in Touched(dev, e, p).enabled <==> 0 <= q < 2 * dev.pairs && VringOn((es + [e])[j..], p, q)
    {
      TouchedBit(dev, e, p, q);
      SuffixStep(es, e, j, p, q);
    }
  }

  lemma {:induction false} DescribesFirst(es: seq<Event>, e: Event, p: int)
    requires e.NewDevice? && p == Arrivals(es) && Legal(e)
    ensures Describes(Touched(Initialised(BlankDevice(), e.vid, e.vringCount / 2), e, p), es + [e], p)
  {
    var blank := Initialised(BlankDevice(), e.vid, e.vringCount / 2);
    BirthStep(es, e, p);
    assert es[|es|..] == [];
    TouchedBit(blank, e, p, 0);
    hide Touched, Birth;
    forall q
      ensures q in Touched(blank, e, p).enabled <==> 0 <= q < 2 * blank.pairs && VringOn((es + [e])[|es|..], p, q)
    {
      TouchedBit(blank, e, p, q);
      SuffixStep(es, e, |es|, p, q);
    }
  }

  /** The entries after one more callback: the old ones that were not removed, and a new one
      under the counter. */
  lemma {:induction false} EntryStep(s: Sender, e: Event, p: int)
    requires s.portCntr !in s.config
    ensures p in Callback(s, e).config <==>
            (e.NewDevice? && p == s.portCntr) || (e != Destroy(p) && p in s.config)
    ensures p in Callback(s, e).config ==>
            Callback(s, e).config[p] ==
            Touched(if p in s.config then s.config[p] else Initialised(BlankDevice(), e.vid, e.vringCount / 2), e, p)
  {
    hide Switched, Initialised;
  }

  /** An entry exists exactly under the numbers of arrivals that no later removal named, and
      is what Describes says. */
  lemma {:induction false} ConfigMeaning(es: seq<Event>, p: int)
    requires AllLegal(es)
    ensures p in SenderOf(es).config <==> Present(es, p)
    ensures p in SenderOf(es).config ==> Describes(SenderOf(es).config[p], es, p)
  {
    if es == [] {
      assert SenderOf([]).config == map[];
    } else {
      LegalSplit(es);
      var front, e := es[..|es| - 1], es[|es| - 1];
      ConfigMeaning(front, p);
      ConfigMeaning(front, Arrivals(front));
      BirthRange(front, Arrivals(front));
      SenderFacts(front);
      SenderStep("Loopback", front, e);
      EntryStep(SenderOf(front), e, p);
      PresentStep(front, e, p);
      hide Describes, Touched, Callback, Initialised;
      if p in SenderOf(es).config {
        if p in SenderOf(front).config {
          DescribesNext(SenderOf(front).config[p], front, e, p);
        } else {
          DescribesFirst(front, e, p);
        }
      }
    }
  }

  /** Port numbers are not reused: a new device always gets an entry of its own. */
  lemma {:induction false} FreshKeys(es: seq<Event>)
    requires AllLegal(es)
    ensures forall p | p in SenderOf(es).config :: 0 <= p < SenderOf(es).portCntr
    ensures SenderOf(es).portCntr !in SenderOf(es).config
  {
    SenderFacts(es);
    hide SenderOf;
    forall p | p in SenderOf(es).config
      ensures 0 <= p < SenderOf(es).portCntr
    {
      ConfigMeaning(es, p);
      BirthRange(es, p);
    }
  }

  /** is_queue_ready(d, k) asks about the arrival number d, whichever device that was: it is
      true exactly when that entry is still there, has a pair k, and the latest events since
      to set queues 2k and 2k+1 under the name d turned them on. */
  lemma {:induction false} ReadyIff(es: seq<Event>, d: int, k: int)
    requires AllLegal(es)
    ensures Ready(SenderOf(es).config, d, k) <==>
            && Present(es, d) && 0 <= k < es[Birth(es, d)].vringCount / 2
            && VringOn(es[Birth(es, d)..], d, 2 * k)
            && VringOn(es[Birth(es, d)..], d, 2 * k + 1)
  {
    ConfigMeaning(es, d);
    hide SenderOf, VringOn;
  }

  // ----- Agreement between the two copies

  /** The receiver's map has the entry and it is 1. */
  ghost predicate On(rows: Rows, d: int, q: int)
    requires Full(rows)
  {
    d in rows && 0 <= q < VRINGS && rows[d][q] == 1
  }

  /** Where the copies part. For q >= 2: the latest event of the queue came before arrival
      number p and enabled it. For the first two queues: the receiver knows only whether a
      device with id p ever arrived, the configuration what was last set since arrival p. */
  ghost predicate Diverges(es: seq<Event>, p: int, q: int) {
    if q >= 2
    then exists i: nat :: LatestSet(es, i, p, q) && i < Birth(es, p) && TurnsOn(es[i])
    else Arrived(es, p) != exists i: nat :: LatestSet(es, i, p, q) && Birth(es, p) <= i && TurnsOn(es[i])
  }

  lemma {:induction false} DivergesMeaning(es: seq<Event>, p: int, q: int)
    requires Birth(es, p) >= 0
    ensures (Announces(es, p, q) <==> VringOn(es[Birth(es, p)..], p, q)) <==> !Diverges(es, p, q)
  {
    VringOnMeaning(es, Birth(es, p), p, q);
    VringOnMeaning(es, 0, p, q);
    assert es[0..] == es;
    forall i: nat, j: nat | LatestSet(es, i, p, q) && LatestSet(es, j, p, q)
      ensures i == j
    {
      assert !(i < j) && !(j < i);
    }
  }

  lemma {:induction false} SentIsAnnounced(es: seq<Event>, d: int, q: int)
    requires AllLegal(es) && 0 <= q < VRINGS
    ensures AllInRange(SenderOf(es).sent)
    ensures On(Replay(SenderOf(es).sent), d, q) <==> Announces(es, d, q)
  {
    SenderFacts(es);
    SentOn(es, d, q);
    ReplayIsLastOn(SenderOf(es).sent, d, q);
  }

  lemma {:induction false} PairsBounded(es: seq<Event>, p: int)
    requires AllLegal(es) && p in SenderOf(es).config
    ensures SenderOf(es).config[p].pairs <= MAX_QUEUE_PAIRS
  {
    ConfigMeaning(es, p);
    assert Legal(es[Birth(es, p)]);
  }

  /** With every record delivered, the receiver and the configuration agree on queue q of
      key p exactly when the history does not make them diverge there. */
  lemma {:induction false} CopiesAgreeIff(es: seq<Event>, p: int, q: int)
    requires AllLegal(es)
    requires p in SenderOf(es).config && 0 <= q < 2 * SenderOf(es).config[p].pairs
    ensures AllInRange(SenderOf(es).sent)
    ensures (On(Replay(SenderOf(es).sent), p, q) <==> q in SenderOf(es).config[p].enabled) <==> !Diverges(es, p, q)
  {
    ConfigMeaning(es, p);
    PairsBounded(es, p);
    SentIsAnnounced(es, p, q);
    DivergesMeaning(es, p, q);
    hide SenderOf, Diverges, On, Replay, VringOn;
  }

  lemma {:induction false} LatestExists(es: seq<Event>, j: nat, p: int, q: int)
    requires j < |es| && Sets(es[j], p, q)
    ensures exists i: nat :: LatestSet(es, i, p, q) && j <= i
  {
    var n := |es| - 1;
    if Sets(es[n], p, q) {
      assert LatestSet(es, n, p, q);
    } else {
      LatestExists(es[..n], j, p, q);
      var i: nat :| LatestSet(es[..n], i, p, q) && j <= i;
      assert LatestSet(es, i, p, q);
    }
  }

  /** When ids equal port numbers, an entry is its own device's, the receiver has a row for
      it, and the copies part exactly on a queue from 2 on that was last enabled before the
      arrival, and on one of the first two that was last disabled. */
  lemma {:induction false} FreshAgreeIff(es: seq<Event>, d: int, q: int)
    requires AllLegal(es) && Fresh(es)
    requires d in SenderOf(es).config && 0 <= q < 2 * SenderOf(es).config[d].pairs
    ensures AllInRange(SenderOf(es).sent) && d in Replay(SenderOf(es).sent)
    ensures Birth(es, d) >= 0 && es[Birth(es, d)].vid == d == SenderOf(es).config[d].vid
    ensures (On(Replay(SenderOf(es).sent), d, q) <==> q in SenderOf(es).config[d].enabled) <==>
            !exists i: nat :: LatestSet(es, i, d, q) &&
                              if q >= 2 then i < Birth(es, d) && TurnsOn(es[i]) else !TurnsOn(es[i])
  {
    CopiesAgreeIff(es, d, q);
    ConfigMeaning(es, d);
    FreshBirth(es, d);
    var j := Birth(es, d);
    assert Arrived(es, d);
    SentIsAnnounced(es, d, 0);
    hide SenderOf, Replay, Birth, VringOn, Fresh;
    if q < 2 {
      assert Sets(es[j], d, q);
      LatestExists(es, j, d, q);
      var i: nat :| LatestSet(es, i, d, q) && j <= i;
      forall k: nat | LatestSet(es, k, d, q)
        ensures i == k
      {
        assert !(i < k) && !(k < i);
      }
    }
  }
}
