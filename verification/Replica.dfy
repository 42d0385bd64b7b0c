/** What the port controller knows about queues: its map from device to 16 queue states, as
    a function of the records delivered so far, and the start() calls those records cause. */
module Replica {
  import opened Records

  type Rows = map<int, seq<int>>

  datatype StartCall = StartCall(handler: int, vid: int, rxqid: int, txqid: int)

  function BlankRow(): seq<int> {
    seq(VRINGS, _ => -1)
  }

  predicate Full(rows: Rows) {
    forall d | d in rows :: |rows[d]| == VRINGS
  }

  /** The map after one record. The first record of a device creates its row. */
  function Apply(rows: Rows, m: RingState): (rows': Rows)
    requires Full(rows) && m.InRange()
    ensures Full(rows')
  {
    if m.IsDestroy() then rows
    else if m.deviceId in rows then rows[m.deviceId := rows[m.deviceId][m.qid := m.enable]]
    else rows[m.deviceId := BlankRow()[m.qid := m.enable]]
  }

  /** Both vrings of the pair that holds q are enabled. */
  predicate PairOn(rows: Rows, d: int, q: int)
    requires Full(rows) && 0 <= q < VRINGS
  {
    d in rows && rows[d][q / 2 * 2] == 1 && rows[d][q / 2 * 2 + 1] == 1
  }

  /** The controller's ready flag after record m: only records of known devices touch it. */
  function NextReady(ready: bool, rows: Rows, m: RingState): bool
    requires Full(rows) && m.InRange()
  {
    if m.IsDestroy() || m.deviceId !in rows then ready else PairOn(Apply(rows, m), m.deviceId, m.qid)
  }

  /** Record m makes the controller call start(). */
  predicate Triggers(rows: Rows, m: RingState)
    requires Full(rows) && m.InRange()
  {
    !m.IsDestroy() && m.deviceId in rows && m.qid % 2 == 1 && PairOn(Apply(rows, m), m.deviceId, m.qid)
  }

  function CallFor(m: RingState): StartCall {
    StartCall(m.qid / 2, m.deviceId, m.qid - 1, m.qid)
  }

  function Replay(ms: seq<RingState>): (rows: Rows)
    requires AllInRange(ms)
    ensures Full(rows)
  {
    if ms == [] then map[] else Apply(Replay(ms[..|ms| - 1]), ms[|ms| - 1])
  }

  function Starts(ms: seq<RingState>): seq<StartCall>
    requires AllInRange(ms)
  {
    if ms == [] then []
    else
      var m := ms[|ms| - 1];
      Starts(ms[..|ms| - 1]) +
      if Triggers(Replay(ms[..|ms| - 1]), m) then [CallFor(m)] else []
  }

  // ----- Replay refinement: the map is a function of the delivered prefix alone

  /** Record i is the last one in ms that sets vring q of device d. */
  ghost predicate Latest(ms: seq<RingState>, i: nat, d: int, q: int) {
    && i < |ms| && ms[i].Addresses(d, q)
    && forall j | i < j < |ms| :: !ms[j].Addresses(d, q)
  }

  lemma {:induction false} ReplayMeaning(ms: seq<RingState>, d: int)
    requires AllInRange(ms)
    ensures d in Replay(ms) <==> exists i :: 0 <= i < |ms| && !ms[i].IsDestroy() && ms[i].deviceId == d
    ensures forall i: nat, q :: Latest(ms, i, d, q) ==> d in Replay(ms) && Replay(ms)[d][q] == ms[i].enable
    ensures forall q | 0 <= q < VRINGS && d in Replay(ms) ::
              (forall i | 0 <= i < |ms| :: !ms[i].Addresses(d, q)) ==> Replay(ms)[d][q] == -1
  {
    if ms != [] {
      var n := |ms| - 1;
      var front := ms[..n];
      ReplayMeaning(front, d);
      forall i: nat, q | Latest(ms, i, d, q)
        ensures d in Replay(ms) && Replay(ms)[d][q] == ms[i].enable
      {
        if i < n {
          assert Latest(front, i, d, q);
          assert !ms[n].Addresses(d, q);
        }
      }
      forall q | 0 <= q < VRINGS && d in Replay(ms) && forall i | 0 <= i < |ms| :: !ms[i].Addresses(d, q)
        ensures Replay(ms)[d][q] == -1
      {
        assert !ms[n].Addresses(d, q);
        assert forall i | 0 <= i < n :: front[i] == ms[i] && !ms[i].Addresses(d, q);
      }
    }
  }

  // ----- Exact start condition

  /** The last record for vring q of device d carried enable 1. */
  predicate LastOn(ms: seq<RingState>, d: int, q: int) {
    if ms == [] then false
    else if ms[|ms| - 1].Addresses(d, q) then ms[|ms| - 1].enable == 1
    else LastOn(ms[..|ms| - 1], d, q)
  }

  lemma {:induction false} LastOnMeaning(ms: seq<RingState>, d: int, q: int)
    ensures LastOn(ms, d, q) <==> exists i: nat :: Latest(ms, i, d, q) && ms[i].enable == 1
  {
    if ms != [] {
      var n := |ms| - 1;
      var front := ms[..n];
      LastOnMeaning(front, d, q);
      if ms[n].Addresses(d, q) {
        assert Latest(ms, n, d, q);
      } else {
        if LastOn(front, d, q) {
          var i: nat :| Latest(front, i, d, q) && front[i].enable == 1;
          assert Latest(ms, i, d, q);
        }
        if i: nat :| Latest(ms, i, d, q) && ms[i].enable == 1 {
          assert Latest(front, i, d, q);
        }
      }
    }
  }

  lemma {:induction false} ReplayIsLastOn(ms: seq<RingState>, d: int, q: int)
    requires AllInRange(ms) && 0 <= q < VRINGS
    ensures d in Replay(ms) && Replay(ms)[d][q] == 1 <==> LastOn(ms, d, q)
  {
    if ms != [] {
      ReplayIsLastOn(ms[..|ms| - 1], d, q);
    }
  }

  lemma {:induction false} StartsStep(ms: seq<RingState>, m: RingState)
    requires AllInRange(ms) && m.InRange()
    ensures AllInRange(ms + [m])
    ensures Replay(ms + [m]) == Apply(Replay(ms), m)
    ensures Starts(ms + [m]) == Starts(ms) + if Triggers(Replay(ms), m) then [CallFor(m)] else []
    ensures Triggers(Replay(ms), m) <==>
            !m.IsDestroy() && m.qid % 2 == 1 && m.enable == 1 && LastOn(ms, m.deviceId, m.qid - 1)
  {
    assert (ms + [m])[..|ms|] == ms;
    if !m.IsDestroy() && m.qid % 2 == 1 {
      ReplayIsLastOn(ms, m.deviceId, m.qid - 1);
    }
  }

  lemma {:induction false} StartsPrefix(ms: seq<RingState>, n: nat)
    requires AllInRange(ms) && n <= |ms|
    ensures Starts(ms[..n]) <= Starts(ms)
  {
    if n == |ms| {
      assert ms[..n] == ms;
    } else {
      StartsPrefix(ms[..|ms| - 1], n);
      assert ms[..|ms| - 1][..n] == ms[..n];
    }
  }

  /** Destroy records leave no trace in the map: dropping one changes nothing. */
  lemma {:induction false} DestroyLeavesReplica(before: seq<RingState>, m: RingState, after: seq<RingState>)
    requires AllInRange(before) && AllInRange(after) && m.IsDestroy()
    ensures AllInRange(before + [m] + after) && AllInRange(before + after)
    ensures Replay(before + [m] + after) == Replay(before + after)
    ensures Starts(before + [m] + after) == Starts(before + after)
  {
    if after == [] {
      StartsStep(before, m);
      assert before + [m] + after == before + [m];
      assert before + after == before;
    } else {
      var front, last := after[..|after| - 1], after[|after| - 1];
      DestroyLeavesReplica(before, m, front);
      StartsStep(before + [m] + front, last);
      StartsStep(before + front, last);
      hide Replay, Starts, Triggers, LastOn;
      assert before + [m] + after == before + [m] + front + [last];
      assert before + after == before + front + [last];
    }
  }

  /** start() is called exactly when an odd vring is enabled while the last earlier record
      for its even partner enabled that one; the first record of a device, which skips the
      readiness test, never loses a start. */
  lemma {:induction false} ExactStart(ms: seq<RingState>, m: RingState)
    requires AllInRange(ms) && m.InRange()
    ensures AllInRange(ms + [m])
    ensures Starts(ms + [m]) ==
            if m.meta != 1 && m.qid % 2 == 1 && m.enable == 1 &&
               exists i: nat :: Latest(ms, i, m.deviceId, m.qid - 1) && ms[i].enable == 1
            then Starts(ms) + [StartCall(m.qid / 2, m.deviceId, m.qid - 1, m.qid)]
            else Starts(ms)
  {
    StartsStep(ms, m);
    LastOnMeaning(ms, m.deviceId, m.qid - 1);
  }
}
