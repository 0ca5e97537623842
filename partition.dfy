/** How one chunk's EACH_NUM units are split among RUNNING_THREAD_NUM
    encryption workers: every worker but the last takes EACH_NUM / N units,
    and the last one takes everything from its start to EACH_NUM. */
module Partition {
  import opened Domain

  /** Units per worker, EACH_NUM / RUNNING_THREAD_NUM. */
  function Quota(c: Config): nat
    requires c.Valid()
  {
    c.eachNum / c.threadNum
  }

  /** The first unit of worker `t` (the `offset` the dispatch loop computes). */
  function RangeStart(c: Config, t: nat): nat
    requires c.Valid()
  {
    Quota(c) * t
  }

  /** The end bound `encryptSecrets` computes from its thread id and offset. */
  function CurrentNum(c: Config, tid: nat, offset: nat): nat
    requires c.Valid()
  {
    if tid != c.threadNum - 1 then offset + Quota(c) else c.eachNum
  }

  lemma MulMono(q: nat, a: nat, b: nat)
    requires a <= b
    ensures q * a <= q * b
  {
    assert q * b == q * a + q * (b - a);
  }

  lemma RangeBounds(c: Config, t: nat)
    requires c.Valid() && t < c.threadNum
    ensures RangeStart(c, t) <= CurrentNum(c, t, RangeStart(c, t)) <= c.eachNum
    ensures t + 1 < c.threadNum ==> CurrentNum(c, t, RangeStart(c, t)) == RangeStart(c, t + 1)
  {
    var q := Quota(c);
    assert q * (t + 1) == q * t + q;
    MulMono(q, t + 1, c.threadNum);
    assert q * c.threadNum <= c.eachNum;
  }

  /** The end of worker `t`'s range: the ranges run back to back from 0 to
      EACH_NUM, whatever EACH_NUM % RUNNING_THREAD_NUM is. */
  function ThreadEnd(c: Config, t: nat): (r: nat)
    requires c.Valid() && t < c.threadNum
    ensures RangeStart(c, t) <= r <= c.eachNum
    ensures t + 1 < c.threadNum ==> r == RangeStart(c, t + 1)
    ensures t + 1 == c.threadNum ==> r == c.eachNum
  {
    RangeBounds(c, t);
    CurrentNum(c, t, RangeStart(c, t))
  }

  /** The worker that encrypts unit `u`. */
  function Owner(c: Config, u: nat): nat
    requires c.Valid()
  {
    var q := Quota(c);
    if q == 0 || u / q >= c.threadNum - 1 then c.threadNum - 1 else u / q
  }

  /** For q > 0: q * t <= u exactly when t <= u / q. */
  lemma {:induction false} MulLeIffLeDiv(q: nat, t: nat, u: nat)
    requires q > 0
    ensures q * t <= u <==> t <= u / q
  {
    var d := u / q;
    assert u == q * d + u % q;
    if t <= d {
      MulMono(q, t, d);
    } else {
      MulMono(q, d + 1, t);
      assert q * (d + 1) == q * d + q;
    }
  }

  /** Every unit of a chunk lies in the range of exactly one worker: its
      `Owner`, and no other. */
  lemma {:induction false} RangesPartition(c: Config, u: nat, t: nat)
    requires c.Valid() && u < c.eachNum && t < c.threadNum
    ensures Owner(c, u) < c.threadNum
    ensures RangeStart(c, t) <= u < ThreadEnd(c, t) <==> t == Owner(c, u)
  {
    var q := Quota(c);
    var n := c.threadNum;
    if q == 0 {
      assert RangeStart(c, t) == 0;
      if t + 1 < n {
        assert RangeStart(c, t + 1) == 0;
      }
    } else {
      MulLeIffLeDiv(q, t, u);
      if t + 1 < n {
        MulLeIffLeDiv(q, t + 1, u);
        assert q * (t + 1) == q * t + q;
      }
    }
  }
}
