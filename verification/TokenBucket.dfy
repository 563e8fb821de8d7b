/** The integer token bucket of src/admission.rs. Levels are in micro-credits, time in nanoseconds. */
module TokenBuckets {
  import opened Common

  const U64: nat := 0x1_0000_0000_0000_0000
  const U32: nat := 0x1_0000_0000
  const MICRO: nat := 1_000_000

  /** A reading of the monotonic clock. Its microseconds fit 64 bits, as the source's cast needs. */
  type Instant = n: nat | n < 1000 * U64

  type u32 = n: nat | n < U32

  datatype Bucket = Bucket(rate: nat, burst: nat, level: nat, last: Instant)

  predicate WellFormed(b: Bucket) {
    b.rate < U32 && b.level <= b.burst < U32 * MICRO
  }

  function Fresh(rate: u32, burst: u32, now: Instant): Bucket {
    Bucket(rate, burst * MICRO, burst * MICRO, now)
  }

  function SaturatingAdd(a: nat, b: nat): nat { Min(a + b, U64 - 1) }
  function SaturatingMul(a: nat, b: nat): nat { Min(a * b, U64 - 1) }

  /** Whole microseconds since the last refill; none when the clock reading is older. */
  function Elapsed(b: Bucket, now: Instant): nat {
    if now <= b.last then 0 else (now - b.last) / 1000
  }

  function Refilled(b: Bucket, now: Instant): Bucket {
    var us := Elapsed(b, now);
    if us == 0 then b
    else b.(level := Min(SaturatingAdd(b.level, SaturatingMul(us, b.rate)), b.burst),
            last := b.last + us * 1000)
  }

  function Taken(b: Bucket, cost: u32, now: Instant): (bool, Bucket) {
    var r := Refilled(b, now);
    if r.level >= cost * MICRO then (true, r.(level := r.level - cost * MICRO)) else (false, r)
  }

  function Refunded(b: Bucket, cost: u32): Bucket {
    b.(level := Min(SaturatingAdd(b.level, cost * MICRO), b.burst))
  }

  predicate FullAt(b: Bucket, now: Instant) { Refilled(b, now).level >= b.burst }

  /** The bucket object, updated in place. */
  class TokenBucket {
    const ratePerS: u32
    const burstMicro: nat
    var levelMicro: nat
    var last: Instant

    function State(): Bucket reads this { Bucket(ratePerS, burstMicro, levelMicro, last) }

    constructor (rate: u32, burst: u32, now: Instant)
      ensures State() == Fresh(rate, burst, now)
    {
      ratePerS, burstMicro := rate, burst * MICRO;
      levelMicro, last := burst * MICRO, now;
    }

    constructor Clone(b: TokenBucket)
      ensures State() == b.State()
    {
      ratePerS, burstMicro, levelMicro, last := b.ratePerS, b.burstMicro, b.levelMicro, b.last;
    }

    method Refill(now: Instant)
      modifies this
      ensures State() == Refilled(old(State()), now)
    {
      var us := if now <= last then 0 else (now - last) / 1000;
      if us > 0 {
        levelMicro := Min(SaturatingAdd(levelMicro, SaturatingMul(us, ratePerS)), burstMicro);
        last := last + us * 1000;
      }
    }

    method Take(cost: u32, now: Instant) returns (ok: bool)
      modifies this
      ensures (ok, State()) == Taken(old(State()), cost, now)
    {
      Refill(now);
      var need := cost * MICRO;
      ok := levelMicro >= need;
      if ok {
        levelMicro := levelMicro - need;
      }
    }

    method Refund(cost: u32)
      modifies this
      ensures State() == Refunded(old(State()), cost)
    {
      levelMicro := Min(SaturatingAdd(levelMicro, cost * MICRO), burstMicro);
    }

    method IsFullAt(now: Instant) returns (full: bool)
      ensures full <==> FullAt(State(), now)
    {
      var b := new TokenBucket.Clone(this);
      b.Refill(now);
      full := b.levelMicro >= b.burstMicro;
    }
  }

  /** The 64-bit saturations never show: a refill credits rate x elapsed exactly, up to the burst,
      and moves the clock by exactly the microseconds credited. */
  lemma RefillIsExact(b: Bucket, now: Instant)
    requires WellFormed(b)
    ensures var r := Refilled(b, now);
      && WellFormed(r) && r.rate == b.rate && r.burst == b.burst
      && r.level == Min(b.level + Elapsed(b, now) * b.rate, b.burst)
      && r.last == b.last + Elapsed(b, now) * 1000
      && (b.last <= now ==> r.last <= now < r.last + 1000)
      && (now < b.last ==> r == b)
  {
    var us := Elapsed(b, now);
    assert us * b.rate >= 0;
  }

  lemma Shares(u1: nat, u2: nat, rate: nat)
    ensures (u1 + u2) * rate == u1 * rate + u2 * rate
    ensures u1 * rate >= 0 && u2 * rate >= 0
  {
  }

  /** Splitting an interval changes nothing, not even the sub-microsecond remainder. */
  lemma RefillIsPathIndependent(b: Bucket, t1: Instant, t2: Instant)
    requires WellFormed(b) && t1 <= t2
    ensures Refilled(Refilled(b, t1), t2) == Refilled(b, t2)
  {
    hide Refilled;
    var m := Refilled(b, t1);
    RefillIsExact(b, t1);
    RefillIsExact(b, t2);
    RefillIsExact(m, t2);
    var u1, u2, u := Elapsed(b, t1), Elapsed(m, t2), Elapsed(b, t2);
    assert u == u1 + u2;
    Shares(u1, u2, b.rate);
  }

  /** A refund straight after a take leaves the bucket as the refill alone would. */
  lemma RefundUndoesTake(b: Bucket, cost: u32, now: Instant)
    requires WellFormed(b) && Taken(b, cost, now).0
    ensures Refunded(Taken(b, cost, now).1, cost) == Refilled(b, now)
  {
    RefillIsExact(b, now);
  }

  /** A take of nothing the bucket lacks: it succeeds exactly when the exact level covers the cost. */
  lemma TakeIsExact(b: Bucket, cost: u32, now: Instant)
    requires WellFormed(b)
    ensures var (ok, b') := Taken(b, cost, now);
      && WellFormed(b') && b'.rate == b.rate && b'.burst == b.burst
      && (ok <==> cost * MICRO <= Min(b.level + Elapsed(b, now) * b.rate, b.burst))
      && b'.level + (if ok then cost * MICRO else 0) == Min(b.level + Elapsed(b, now) * b.rate, b.burst)
      && b'.last == b.last + Elapsed(b, now) * 1000
  {
    RefillIsExact(b, now);
  }

  /** A rate is in credits a second and a burst in credits: a second after an empty bucket's clock it
      covers a cost exactly when the rate and the burst do. */
  lemma SecondRefills(rate: u32, burst: u32, last: Instant, cost: u32)
    requires last + 1_000_000_000 < 1000 * U64
    ensures Taken(Bucket(rate, burst * MICRO, 0, last), cost, last + 1_000_000_000).0 <==> cost <= rate && cost <= burst
    ensures Taken(Fresh(rate, burst, last), cost, last).0 <==> cost <= burst
  {
    TakeIsExact(Bucket(rate, burst * MICRO, 0, last), cost, last + 1_000_000_000);
    TakeIsExact(Fresh(rate, burst, last), cost, last);
    hide Taken;
  }

  lemma RefundIsBounded(b: Bucket, cost: u32)
    requires WellFormed(b)
    ensures var r := Refunded(b, cost);
      && WellFormed(r) && r == b.(level := r.level)
      && r.level == Min(b.level + cost * MICRO, b.burst)
  {
  }

  /** A bucket counts as full exactly when its refill reaches the burst. */
  lemma FullIsExact(b: Bucket, now: Instant)
    requires WellFormed(b)
    ensures FullAt(b, now) <==> b.level + Elapsed(b, now) * b.rate >= b.burst
  {
    RefillIsExact(b, now);
    hide Refilled;
  }

  /** An idle full bucket stays full. */
  lemma FullStaysFull(b: Bucket, t1: Instant, t2: Instant)
    requires WellFormed(b) && t1 <= t2 && FullAt(b, t1)
    ensures FullAt(b, t2)
  {
    RefillIsExact(b, t1);
    RefillIsPathIndependent(b, t1, t2);
    RefillIsExact(Refilled(b, t1), t2);
  }
}
