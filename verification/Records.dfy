/** The record that travels from the vhost controller to the port controller, and the
    limits both sides share. */
module Records {

  datatype Option<+T> = None | Some(value: T)

  const MAX_QUEUE_PAIRS: nat := 8

  /** Entries in one row of the receiver's map: two vrings for every queue pair. */
  const VRINGS: nat := 16

  datatype RingState = RingState(meta: int, portId: int, deviceId: int, qid: int, enable: int)
  {
    predicate IsDestroy() {
      meta == 1
    }

    /** The record sets vring q of device d. */
    predicate Addresses(d: int, q: int) {
      meta != 1 && deviceId == d && qid == q
    }

    /** The receiver indexes a 16-entry row with qid, unless the record is a destroy. */
    predicate InRange() {
      meta != 1 ==> 0 <= qid < VRINGS
    }
  }

  ghost predicate AllInRange(ms: seq<RingState>) {
    forall i | 0 <= i < |ms| :: ms[i].InRange()
  }
}
