/** The names under which a handler creates its DPDK pools and ring: a prefix, the device id
    and the queue id in decimal, joined by underscores. */
module Names {

  function DigitChar(d: nat): char
    requires d < 10
  {
    '0' + d as char
  }

  function Digits(n: nat): (s: string)
    ensures s != [] && forall c | c in s :: '0' <= c <= '9'
  {
    (if n < 10 then [] else Digits(n / 10)) + [DigitChar(n % 10)]
  }

  /** std::to_string on an int. */
  function Decimal(n: int): (s: string)
    ensures '_' !in s
  {
    if n < 0 then ['-'] + Digits(-n) else Digits(n)
  }

  function TxPoolName(vid: int, txqid: int): string {
    "TX_MBUF_POOL_" + Decimal(vid) + "_" + Decimal(txqid)
  }

  function RxPoolName(vid: int, rxqid: int): string {
    "RX_MBUF_POOL_" + Decimal(vid) + "_" + Decimal(rxqid)
  }

  function TxRingName(vid: int, txqid: int): string {
    "TX_RING_" + Decimal(vid) + "_" + Decimal(txqid)
  }

  lemma {:induction false} DecimalSign(n: int)
    ensures Decimal(n)[0] == '-' <==> n < 0
  {
    assert Digits(if n < 0 then -n else n)[0] in Digits(if n < 0 then -n else n);
  }

  /** The number a string of digits stands for, most significant digit first. */
  function ValueOf(s: string): int {
    if s == [] then 0 else 10 * ValueOf(s[..|s| - 1]) + (s[|s| - 1] as int - '0' as int)
  }

  /** The text reads back as the number, in digits without a leading zero. */
  lemma {:induction false} DigitsReadBack(n: nat)
    ensures ValueOf(Digits(n)) == n
    ensures Digits(n)[0] == '0' ==> n == 0 && |Digits(n)| == 1
  {
    var s := Digits(n);
    assert s[|s| - 1] == DigitChar(n % 10);
    if n >= 10 {
      DigitsReadBack(n / 10);
      assert s[..|s| - 1] == Digits(n / 10);
      assert s[0] == Digits(n / 10)[0];
    } else {
      assert s[..|s| - 1] == [];
    }
  }

  /** A number is spelled as its digits, with a minus sign in front if it is negative. */
  lemma {:induction false} DecimalReadsBack(n: int)
    ensures n >= 0 ==> ValueOf(Decimal(n)) == n
    ensures n < 0 ==> Decimal(n)[0] == '-' && ValueOf(Decimal(n)[1..]) == -n
  {
    if n < 0 {
      DigitsReadBack(-n);
      assert Decimal(n)[1..] == Digits(-n);
    } else {
      DigitsReadBack(n);
    }
  }

  lemma {:induction false} DecimalInjective(m: int, n: int)
    requires Decimal(m) == Decimal(n)
    ensures m == n
  {
    hide Decimal, ValueOf;
    DecimalSign(m);
    DecimalSign(n);
    DecimalReadsBack(m);
    DecimalReadsBack(n);
  }

  lemma {:induction false} OneDigit(n: nat)
    requires n < 10
    ensures Digits(n) == ['0' + n as char]
  {
  }

  /** The three names of device 7's queues 12 and 13, and those of a handler never started. */
  lemma {:induction false} NamesSpelled()
    ensures TxPoolName(7, 13) == "TX_MBUF_POOL_7_13"
    ensures RxPoolName(7, 12) == "RX_MBUF_POOL_7_12"
    ensures TxRingName(7, 13) == "TX_RING_7_13"
    ensures TxPoolName(-1, -1) == "TX_MBUF_POOL_-1_-1"
  {
    OneDigit(7);
    OneDigit(1);
    assert Digits(13) == Digits(1) + ['3'] && Digits(12) == Digits(1) + ['2'];
    assert Decimal(7) == "7" && Decimal(13) == "13" && Decimal(12) == "12" && Decimal(-1) == "-1";
  }

  /** What stands before the first underscore. */
  function Head(s: string): string {
    if s == [] || s[0] == '_' then [] else [s[0]] + Head(s[1..])
  }

  lemma {:induction false} HeadOfJoin(a: string, b: string)
    requires '_' !in a
    ensures Head(a + "_" + b) == a
  {
    if a != [] {
      HeadOfJoin(a[1..], b);
      assert (a + "_" + b)[1..] == a[1..] + "_" + b;
    }
  }

  lemma {:induction false} SplitAtUnderscore(a: string, b: string, c: string, d: string)
    requires '_' !in a && '_' !in c
    requires a + "_" + b == c + "_" + d
    ensures a == c && b == d
  {
    HeadOfJoin(a, b);
    HeadOfJoin(c, d);
    assert b == (a + "_" + b)[|a| + 1..] == (c + "_" + d)[|c| + 1..] == d;
  }

  lemma {:induction false} SuffixInjective(prefix: string, v1: int, q1: int, v2: int, q2: int)
    requires prefix + Decimal(v1) + "_" + Decimal(q1) == prefix + Decimal(v2) + "_" + Decimal(q2)
    ensures v1 == v2 && q1 == q2
  {
    hide Decimal, Head;
    var s1, s2 := prefix + Decimal(v1) + "_" + Decimal(q1), prefix + Decimal(v2) + "_" + Decimal(q2);
    assert s1[|prefix|..] == Decimal(v1) + "_" + Decimal(q1);
    assert s2[|prefix|..] == Decimal(v2) + "_" + Decimal(q2);
    SplitAtUnderscore(Decimal(v1), Decimal(q1), Decimal(v2), Decimal(q2));
    DecimalInjective(v1, v2);
    DecimalInjective(q1, q2);
  }

  /** Names of the same kind collide only for the same device and queue; a transmit pool and
      a receive pool never share a name. */
  lemma {:induction false} NamesInjective(v1: int, q1: int, v2: int, q2: int)
    ensures TxPoolName(v1, q1) == TxPoolName(v2, q2) <==> v1 == v2 && q1 == q2
    ensures RxPoolName(v1, q1) == RxPoolName(v2, q2) <==> v1 == v2 && q1 == q2
    ensures TxRingName(v1, q1) == TxRingName(v2, q2) <==> v1 == v2 && q1 == q2
    ensures TxPoolName(v1, q1) != RxPoolName(v2, q2)
  {
    if TxPoolName(v1, q1) == TxPoolName(v2, q2) {
      SuffixInjective("TX_MBUF_POOL_", v1, q1, v2, q2);
    }
    if RxPoolName(v1, q1) == RxPoolName(v2, q2) {
      SuffixInjective("RX_MBUF_POOL_", v1, q1, v2, q2);
    }
    if TxRingName(v1, q1) == TxRingName(v2, q2) {
      SuffixInjective("TX_RING_", v1, q1, v2, q2);
    }
    assert TxPoolName(v1, q1)[0] == 'T' && RxPoolName(v2, q2)[0] == 'R';
  }
}
