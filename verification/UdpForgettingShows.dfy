/** Forgetting is exactly as harmless as UdpForgetting says: what is seen when a forgotten source comes
    back at a time at which its old bucket is not renewed (src/admission.rs, UdpBudget). */
module UdpForgettingShows {
  import opened Common
  import opened TokenBuckets
  import opened Sources
  import opened UdpProtocol
  import opened UdpBudgets
  import opened UdpForgetting

  // ---- The condition is exact ----

  /** The verdicts of a bucket on packets of given costs and readings. */
  function Answers(b: Bucket, ops: seq<(u32, Instant)>): seq<bool>
    decreases |ops|
  {
    if ops == [] then []
    else var (ok, b') := Taken(b, ops[0].0, ops[0].1); [ok] + Answers(b', ops[1..])
  }

  const SECOND: nat := 1_000_000_000

  /** Of two drained buckets, the one whose clock is behind affords a credit first. */
  lemma EarlierClockPaysFirst(early: Bucket, late: Bucket) returns (t: Instant)
    requires WellFormed(early) && WellFormed(late) && early.rate == late.rate > 0 && early.burst == late.burst >= MICRO
    requires early.level == late.level == 0 && early.last < late.last && early.last + SECOND < 1000 * U64
    ensures early.last + 1000 <= t && Taken(early, 1, t).0 && !Taken(late, 1, t).0
  {
    var n: nat := (MICRO + early.rate - 1) / early.rate;
    CeilingBounds(early.rate, n);
    t := early.last + n * 1000;
    TakeIsExact(early, 1, t);
    TakeIsExact(late, 1, t);
    assert Elapsed(early, t) == n;
    assert Elapsed(late, t) <= n - 1;
    LessTime(Elapsed(late, t), n - 1, early.rate);
  }

  lemma CeilingBounds(rate: nat, n: nat)
    requires rate > 0 && n == (MICRO + rate - 1) / rate
    ensures 1 <= n <= MICRO && (n - 1) * rate < MICRO <= n * rate
  {
    assert n * rate + (MICRO + rate - 1) % rate == MICRO + rate - 1;
    Shares(n - 1, 1, rate);
    if n > MICRO { LessTime(MICRO, n - 1, rate); }
  }

  /** A bucket that is not renewed is told from a new one by two packets at most. */
  lemma NotRenewedShows(b: Bucket, lim: Limits, now: Instant) returns (cost: u32, ops: seq<(u32, Instant)>)
    requires WellFormed(b) && b.rate == lim.srcRate > 0 && b.burst == lim.srcBurst * MICRO && lim.srcBurst > 0
    requires b.last + SECOND < 1000 * U64 && now + SECOND < 1000 * U64
    requires !Renewed(b, lim, now)
    ensures Answers(b, [(cost, now)] + ops) != Answers(New(lim, now), [(cost, now)] + ops)
    ensures cost == lim.srcBurst && |ops| <= 1 && forall op | op in ops :: now <= op.1 && op.0 == 1
    ensures ops == [] <==> !Taken(b, cost, now).0
    ensures Taken(New(lim, now), cost, now).0
  {
    hide Answers;
    cost := lim.srcBurst;
    RefillIsExact(b, now);
    var x, y := Taken(b, cost, now), Taken(New(lim, now), cost, now);
    assert y == (true, New(lim, now).(level := 0));
    if !x.0 {
      ops := [];
      AnswersCons(b, cost, now, ops);
      AnswersCons(New(lim, now), cost, now, ops);
    } else {
      assert x.1.level == 0 && x.1.last == Refilled(b, now).last;
      var t: Instant;
      if x.1.last < y.1.last {
        t := EarlierClockPaysFirst(x.1, y.1);
      } else {
        t := EarlierClockPaysFirst(y.1, x.1);
      }
      ops := [(1, t)];
      TwoAnswers(b, cost, now, t);
      TwoAnswers(New(lim, now), cost, now, t);
    }
  }

  lemma TwoAnswers(b: Bucket, cost: u32, now: Instant, t: Instant)
    ensures |Answers(b, [(cost, now)] + [(1, t)])| == 2
    ensures Answers(b, [(cost, now)] + [(1, t)])[1] == Taken(Taken(b, cost, now).1, 1, t).0
  {
    hide Taken;
    AnswersCons(b, cost, now, [(1, t)]);
    AnswersCons(Taken(b, cost, now).1, 1, t, []);
    var last: seq<(u32, Instant)> := [(1, t)];
    assert last + [] == last;
  }

  lemma AnswersCons(b: Bucket, cost: u32, now: Instant, ops: seq<(u32, Instant)>)
    ensures var (ok, b') := Taken(b, cost, now);
      Answers(b, [(cost, now)] + ops) == [ok] + Answers(b', ops)
    ensures Answers(b, [(cost, now)] + ops)[0] == Taken(b, cost, now).0
  {
    assert ([(cost, now)] + ops)[1..] == ops;
  }

  /** Exactly the renewed buckets may be forgotten: from this packet on, whatever the costs and times
      of it and of those that follow, the kept bucket and a new one give the same verdicts if and
      only if the kept one is renewed. */
  lemma ForgettableIffRenewed(b: Bucket, lim: Limits, now: Instant)
    requires WellFormed(b) && b.rate == lim.srcRate > 0 && b.burst == lim.srcBurst * MICRO && lim.srcBurst > 0
    requires b.last + SECOND < 1000 * U64 && now + SECOND < 1000 * U64
    ensures (forall cost: u32, ops :: Answers(b, [(cost, now)] + ops) == Answers(New(lim, now), [(cost, now)] + ops)) <==>
      Renewed(b, lim, now)
  {
    hide Answers, Renewed;
    if Renewed(b, lim, now) {
      forall cost: u32, ops ensures Answers(b, [(cost, now)] + ops) == Answers(New(lim, now), [(cost, now)] + ops) {
        RenewedTakes(b, lim, cost, now);
        AnswersCons(b, cost, now, ops);
        AnswersCons(New(lim, now), cost, now, ops);
      }
    } else {
      var cost, ops := NotRenewedShows(b, lim, now);
    }
  }

  datatype Packet = Packet(key: SourceKey, cost: u32, now: Instant)

  /** The verdicts on packets that come one after another, with no sweep. */
  function Verdicts(s: State, ops: seq<Packet>): seq<Verdict>
    decreases |ops|
  {
    if ops == [] then []
    else var (r, s') := Checked(s, ops[0].key, ops[0].cost, ops[0].now); [r] + Verdicts(s', ops[1..])
  }

  /** And the table shows it: if a forgotten source is met, with nobody else about and the server-wide
      budget not short, at a time when its old bucket is not renewed, then two packets of that source
      at most are decided differently by a table that never forgets. */
  lemma UntimelyReturnShows(s: State, gone: Table, cap: nat, key: SourceKey, now: Instant) returns (ops: seq<Packet>)
    requires s.tasks == map[] && key in gone && key !in s.sources && s.entries < s.lim.cap
    requires s.lim.srcRate > 0 && s.lim.srcBurst > 0
    requires WellFormed(gone[key]) && gone[key].rate == s.lim.srcRate && gone[key].burst == s.lim.srcBurst * MICRO
    requires gone[key].last + SECOND < 1000 * U64 && now + SECOND < 1000 * U64
    requires WellFormed(s.global) && s.global.level >= (s.lim.srcBurst + 1) * MICRO
    requires !Renewed(gone[key], s.lim, now)
    ensures Verdicts(s, ops) != Verdicts(Calm(s, All(gone, s.sources), cap), ops)
    ensures 1 <= |ops| <= 2 && forall op | op in ops :: op.key == key && op.now >= now
  {
    var b, u := gone[key], Calm(s, All(gone, s.sources), cap);
    var cost, more := NotRenewedShows(b, s.lim, now);
    AllAt(gone, s.sources, key);
    assert u.global == s.global && key in u.sources && u.sources[key] == b;
    assert Found(s, key, now) == New(s.lim, now) && Found(u, key, now) == b;
    Affords(s.global, cost, now);
    hide All, Renewed, Taken, Answers, Calm, Verdicts, Fresh, Found, WellFormed;
    if more == [] {
      ops := [Packet(key, cost, now)];
      OneVerdict(s, key, cost, now, []);
      OneVerdict(u, key, cost, now, []);
      assert ops + [] == ops;
      assert Verdicts(s, ops)[0] == Ok(()) && Verdicts(u, ops)[0] == Err(Source);
    } else {
      var t := more[0].1;
      ops := [Packet(key, cost, now)] + [Packet(key, 1, t)];
      TwoVerdicts(s, key, cost, now, t);
      TwoVerdicts(u, key, cost, now, t);
      assert more == [(1, t)];
      DifferAtSecond(b, New(s.lim, now), cost, now, t);
      assert Verdicts(s, ops)[1] != Verdicts(u, ops)[1];
    }
  }

  /** The bucket a packet of this key is decided against. */
  function Found(s: State, key: SourceKey, now: Instant): Bucket {
    if key in s.sources then s.sources[key] else New(s.lim, now)
  }

  lemma OneVerdict(s: State, key: SourceKey, cost: u32, now: Instant, ops: seq<Packet>)
    requires Taken(s.global, cost, now).0 && (key in s.sources || s.entries < s.lim.cap)
    ensures var (ok, b) := Taken(Found(s, key, now), cost, now);
      var s' := Checked(s, key, cost, now).1;
      Verdicts(s, [Packet(key, cost, now)] + ops) == [Answer(ok)] + Verdicts(s', ops) &&
      key in s'.sources && s'.sources[key] == b && (ok ==> s'.global == Taken(s.global, cost, now).1)
  {
    hide Taken, Fresh, Refunded;
    VerdictsCons(s, Packet(key, cost, now), ops);
  }

  lemma TwoVerdicts(s: State, key: SourceKey, cost: u32, now: Instant, t: Instant)
    requires WellFormed(s.global) && s.global.level >= (cost + 1) * MICRO && (key in s.sources || s.entries < s.lim.cap)
    requires Taken(Found(s, key, now), cost, now).0
    ensures Verdicts(s, [Packet(key, cost, now)] + [Packet(key, 1, t)]) ==
      [Ok(()), Answer(Taken(Taken(Found(s, key, now), cost, now).1, 1, t).0)]
  {
    hide Taken, Fresh, Checked, Verdicts, WellFormed, Found;
    Affords(s.global, cost, now);
    OneVerdict(s, key, cost, now, [Packet(key, 1, t)]);
    var s' := Checked(s, key, cost, now).1;
    Affords(s'.global, 1, t);
    FoundStored(s', key, t);
    OneVerdict(s', key, 1, t, []);
    assert [Packet(key, 1, t)] + [] == [Packet(key, 1, t)];
    NoVerdicts(Checked(s', key, 1, t).1);
  }

  lemma FoundStored(s: State, key: SourceKey, now: Instant)
    requires key in s.sources
    ensures Found(s, key, now) == s.sources[key]
  {
  }

  lemma NoVerdicts(s: State)
    ensures Verdicts(s, []) == []
  {
  }

  lemma DifferAtSecond(b: Bucket, n: Bucket, cost: u32, now: Instant, t: Instant)
    requires Taken(b, cost, now).0 && Taken(n, cost, now).0
    requires Answers(b, [(cost, now)] + [(1, t)]) != Answers(n, [(cost, now)] + [(1, t)])
    ensures Taken(Taken(b, cost, now).1, 1, t).0 != Taken(Taken(n, cost, now).1, 1, t).0
  {
    hide Taken, Answers;
    TwoAnswers(b, cost, now, t);
    TwoAnswers(n, cost, now, t);
    AnswersCons(b, cost, now, [(1, t)]);
    AnswersCons(n, cost, now, [(1, t)]);
    var x, y := Answers(b, [(cost, now)] + [(1, t)]), Answers(n, [(cost, now)] + [(1, t)]);
    assert x == [x[0], x[1]] && y == [y[0], y[1]];
  }

  lemma Affords(b: Bucket, cost: u32, now: Instant)
    requires WellFormed(b) && b.level >= cost * MICRO
    ensures Taken(b, cost, now).0 && Taken(b, cost, now).1.level >= b.level - cost * MICRO && WellFormed(Taken(b, cost, now).1)
  {
    TakeIsExact(b, cost, now);
    assert Elapsed(b, now) * b.rate >= 0;
  }

  lemma VerdictsCons(s: State, op: Packet, ops: seq<Packet>)
    ensures Verdicts(s, [op] + ops) ==
      [Checked(s, op.key, op.cost, op.now).0] + Verdicts(Checked(s, op.key, op.cost, op.now).1, ops)
  {
    hide Checked;
    assert ([op] + ops)[1..] == ops;
  }

  // ---- A sweep that overtakes a packet ----

  const WITNESS: Limits := Limits(10, 1000, 1)

  function Entering(t: Task): seq<Action> { [Lock(t), Load(t), CasOk(t), Insert(t)] }

  function Idle(): State { State(WITNESS, Bucket(1000, 10 * MICRO, 10 * MICRO, 0), 0, map[], 0, map[], 0) }

  /** The source has spent its one credit at time 0. */
  function Spent(key: SourceKey): State {
    State(WITNESS, Bucket(1000, 10 * MICRO, 9 * MICRO, 0), 0, map[key := Bucket(1000, MICRO, 0, 0)], 1, map[], 1)
  }

  /** Its next packet, of 999 microseconds, has paid the server-wide budget. */
  function Underway(key: SourceKey): State {
    State(WITNESS, Bucket(1000, 10 * MICRO, 8_999_000, 999_000), 0, map[key := Bucket(1000, MICRO, 0, 0)], 1,
          map[0 := Charged(key, 1, 999_000)], 1)
  }

  function FirstPacket(key: SourceKey): seq<Action> { [Arrive(0, key, 1, 0)] + Entering(0) }

  function Sweeping(key: SourceKey): seq<Action> { [SweepDrop(1, key, 1_000_000)] + [SweepErase(1)] }

  function Overtaken(key: SourceKey): seq<Action> {
    FirstPacket(key) + [Arrive(0, key, 1, 999_000)] + (Sweeping(key) + Entering(0))
  }

  function Unswept(key: SourceKey): seq<Action> { FirstPacket(key) + [Arrive(0, key, 1, 999_000)] + [Hit(0)] }

  lemma FirstServed(key: SourceKey)
    ensures Possible(Idle(), FirstPacket(key)) && After(Idle(), FirstPacket(key)) == Spent(key)
    ensures Outcomes(Idle(), FirstPacket(key)) == [(0, Ok(()))]
  {
    hide Possible, After, Outcomes, Free;
    var a := Arrive(0, key, 1, 0);
    OneStep(Idle(), a);
    var u := Apply(Idle(), a);
    NobodyInside(u, key);
    var u4 := Admission(u, 0);
    assert u4.tasks == map[];
    Chained(Idle(), [a], Entering(0));
  }

  lemma NobodyInside(u: State, key: SourceKey)
    requires forall t | t in u.tasks :: u.tasks[t].Charged?
    ensures Free(u, key)
  {
  }

  lemma SecondUnderway(key: SourceKey)
    ensures Possible(Spent(key), [Arrive(0, key, 1, 999_000)])
    ensures After(Spent(key), [Arrive(0, key, 1, 999_000)]) == Underway(key)
    ensures Outcomes(Spent(key), [Arrive(0, key, 1, 999_000)]) == []
  {
    hide Possible, After, Outcomes;
    OneStep(Spent(key), Arrive(0, key, 1, 999_000));
  }

  lemma RefusedUnswept(key: SourceKey)
    ensures Possible(Underway(key), [Hit(0)]) && Outcomes(Underway(key), [Hit(0)]) == [(0, Err(Source))]
  {
    hide Possible, After, Outcomes, Free;
    NobodyInside(Underway(key), key);
    OneStep(Underway(key), Hit(0));
  }

  lemma SweptAway(key: SourceKey) returns (u: State)
    ensures Possible(Underway(key), Sweeping(key)) && After(Underway(key), Sweeping(key)) == u
    ensures Outcomes(Underway(key), Sweeping(key)) == []
    ensures u.lim == WITNESS && u.entries == 0 && u.sources == map[] && u.tasks == map[0 := Charged(key, 1, 999_000)]
  {
    hide Possible, After, Outcomes, Free;
    var drop, erase := SweepDrop(1, key, 1_000_000), SweepErase(1);
    NobodyInside(Underway(key), key);
    OneStep(Underway(key), drop);
    var u1 := Apply(Underway(key), drop);
    OneStep(u1, erase);
    u := Apply(u1, erase);
    assert u.sources == map[] && u.tasks == map[0 := Charged(key, 1, 999_000)];
    Chained(Underway(key), [drop], [erase]);
  }

  lemma ServedAnew(key: SourceKey)
    ensures Possible(Underway(key), Sweeping(key) + Entering(0))
    ensures Outcomes(Underway(key), Sweeping(key) + Entering(0)) == [(0, Ok(()))]
  {
    hide Possible, After, Outcomes, Free, Underway, Sweeping;
    var u := SweptAway(key);
    NobodyInside(u, key);
    var u4 := Admission(u, 0);
    Chained(Underway(key), Sweeping(key), Entering(0));
  }

  lemma SamePackets(key: SourceKey)
    ensures Packets(Overtaken(key)) == Packets(Unswept(key))
  {
    hide Packets, FirstPacket;
    NoPackets(0);
    var drop, erase := SweepDrop(1, key, 1_000_000), SweepErase(1);
    OnlyArrivals(drop); OnlyArrivals(erase); OnlyArrivals(Hit(0));
    PacketsChained([drop], [erase]);
    PacketsChained(Sweeping(key), Entering(0));
    PacketsChained(FirstPacket(key) + [Arrive(0, key, 1, 999_000)], Sweeping(key) + Entering(0));
    PacketsChained(FirstPacket(key) + [Arrive(0, key, 1, 999_000)], [Hit(0)]);
  }

  /** One source with one credit a millisecond, spent at time 0. A packet reads the clock at 999
      microseconds; a sweep that reads it at 1000 forgets the source before the packet gets to the
      table; the packet is served. Without the sweep the same packets end in a refusal. */
  lemma OvertakenPacketIsServed(key: SourceKey)
    ensures var s := Idle();
      Init(s) && Possible(s, Overtaken(key)) && Possible(s, Unswept(key)) &&
      Packets(Overtaken(key)) == Packets(Unswept(key)) &&
      Outcomes(s, Overtaken(key)) == [(0, Ok(())), (0, Ok(()))] &&
      Outcomes(s, Unswept(key)) == [(0, Ok(())), (0, Err(Source))]
  {
    hide Possible, After, Outcomes, Packets, Spent, Underway, FirstPacket, Sweeping, Entering;
    FirstServed(key);
    SecondUnderway(key);
    RefusedUnswept(key);
    ServedAnew(key);
    SamePackets(key);
    var two := [Arrive(0, key, 1, 999_000)];
    Chained(Idle(), FirstPacket(key), two);
    Chained(Idle(), FirstPacket(key) + two, [Hit(0)]);
    Chained(Idle(), FirstPacket(key) + two, Sweeping(key) + Entering(0));
  }
}
