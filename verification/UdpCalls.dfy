/** The UDP budget object's verdicts in terms of levels and counts, and whole series of its calls
    (src/admission.rs, UdpBudget::check, admit and sweep). */
module UdpCalls {
  import opened Common
  import opened TokenBuckets
  import opened Sources
  import opened UdpProtocol
  import opened UdpBudgets

  /** The level of a bucket after its refill. */
  function Level(b: Bucket, now: Instant): nat
    requires WellFormed(b)
  {
    Min(b.level + Elapsed(b, now) * b.rate, b.burst)
  }

  /** The level a source's own bucket has for a packet; an unknown source starts full. */
  function SourceLevel(s: State, key: SourceKey, now: Instant): nat
    requires Buckets(s)
  {
    if key in s.sources then Level(s.sources[key], now) else s.lim.srcBurst * MICRO
  }

  /** The verdict on a packet: refused server-wide exactly when the server-wide bucket does not cover its
      cost, for lack of room exactly when that does but the source is new and the table at its cap, and
      admitted exactly when, further, the source's own bucket covers it. */
  lemma CheckedIsExact(s: State, key: SourceKey, cost: u32, now: Instant)
    requires WellFormed(s.global) && Buckets(s)
    ensures var r, have, need := Checked(s, key, cost, now).0, Level(s.global, now), cost * MICRO;
      var room, own := key in s.sources || s.entries < s.lim.cap, SourceLevel(s, key, now);
      && (r == Err(Global) <==> need > have)
      && (r == Err(TableFull) <==> need <= have && !room)
      && (r == Err(Source) <==> need <= have && room && need > own)
      && (r == Ok(()) <==> need <= have && room && need <= own)
  {
    TakeIsExact(s.global, cost, now);
    if key in s.sources {
      TakeIsExact(s.sources[key], cost, now);
    } else {
      TakeIsExact(Fresh(s.lim.srcRate, s.lim.srcBurst, now), cost, now);
    }
    hide Taken, Refunded;
  }

  /** What a packet leaves: the server-wide bucket pays for admitted packets alone; a packet refused
      server-wide or for lack of room leaves the table as it was; any other enters its source, which pays
      for admitted packets alone; nothing else changes. */
  lemma CheckedLeaves(s: State, key: SourceKey, cost: u32, now: Instant)
    requires WellFormed(s.global) && Buckets(s)
    ensures var (r, s') := Checked(s, key, cost, now);
      var paid := if r.Ok? then cost * MICRO else 0;
      && s'.global.level + paid == Level(s.global, now)
      && s'.global.last == s.global.last + Elapsed(s.global, now) * 1000
      && s' == s.(global := s'.global, sources := s'.sources, entries := s'.entries,
                  admitted := s.admitted + if r.Ok? then cost else 0)
      && (r == Err(Global) || r == Err(TableFull) ==> s'.sources == s.sources && s'.entries == s.entries)
      && (r == Ok(()) || r == Err(Source) ==>
            && s'.entries == s.entries + (if key in s.sources then 0 else 1)
            && key in s'.sources && s'.sources == s.sources[key := s'.sources[key]]
            && s'.sources[key].level + paid == SourceLevel(s, key, now))
  {
    TakeIsExact(s.global, cost, now);
    var g := Taken(s.global, cost, now).1;
    RefundIsBounded(g, cost);
    if key in s.sources {
      TakeIsExact(s.sources[key], cost, now);
    } else {
      TakeIsExact(Fresh(s.lim.srcRate, s.lim.srcBurst, now), cost, now);
    }
    hide Taken, Refunded;
  }

  // ---- A sweep is a run of the protocol ----

  function FullKeys(s: State, now: Instant): set<SourceKey> { set k | k in s.sources && FullAt(s.sources[k], now) }

  ghost function Pick(keys: set<SourceKey>): (k: SourceKey)
    requires keys != {}
    ensures k in keys
  {
    var k :| k in keys; k
  }

  /** A sweeper dropping the given keys one by one, nobody moving in between. */
  ghost function Dropping(t: Task, keys: set<SourceKey>, now: Instant): seq<Action> {
    if keys == {} then [] else var k := Pick(keys); [SweepDrop(t, k, now), SweepErase(t)] + Dropping(t, keys - {k}, now)
  }

  ghost predicate Reaches(s: State, run: seq<Action>, s': State, outs: seq<(Task, Verdict)>) {
    Possible(s, run) && After(s, run) == s' && Outcomes(s, run) == outs
  }

  lemma DropOne(s: State, t: Task, k: SourceKey, now: Instant)
    requires t !in s.tasks && k in s.sources && Free(s, k) && FullAt(s.sources[k], now) && s.entries > 0
    ensures Reaches(s, [SweepDrop(t, k, now), SweepErase(t)],
                    s.(sources := s.sources - {k}, entries := s.entries - 1), [])
  {
    hide Possible, After, Outcomes, Free, FullAt;
    NoSteps(s);
    OneMore(s, [], SweepDrop(t, k, now));
    var s1 := Apply(s, SweepDrop(t, k, now));
    assert [] + [SweepDrop(t, k, now)] == [SweepDrop(t, k, now)];
    OneMore(s, [SweepDrop(t, k, now)], SweepErase(t));
    assert [SweepDrop(t, k, now)] + [SweepErase(t)] == [SweepDrop(t, k, now), SweepErase(t)];
    assert s1.tasks - {t} == s.tasks;
  }

  lemma ReachesOn(s: State, run: seq<Action>, s1: State, more: seq<Action>, s2: State)
    requires Reaches(s, run, s1, []) && Reaches(s1, more, s2, [])
    ensures Reaches(s, run + more, s2, [])
  {
    hide Possible, After, Outcomes;
    Chained(s, run, more);
  }

  lemma {:induction false} DropAll(s: State, t: Task, keys: set<SourceKey>, now: Instant)
    requires t !in s.tasks && keys <= s.sources.Keys && s.entries >= |keys|
    requires forall k | k in keys :: Free(s, k) && FullAt(s.sources[k], now)
    ensures Reaches(s, Dropping(t, keys, now), s.(sources := s.sources - keys, entries := s.entries - |keys|), [])
    decreases |keys|
  {
    if keys == {} {
      NoSteps(s);
      assert s.sources - keys == s.sources;
    } else {
      hide FullAt, Reaches, Free;
      var k := Pick(keys);
      var rest := keys - {k};
      DropOne(s, t, k, now);
      var s1 := s.(sources := s.sources - {k}, entries := s.entries - 1);
      forall x | x in rest ensures Free(s1, x) { StillFree(s, s1, x); }
      DropAll(s1, t, rest, now);
      assert s.sources - {k} - rest == s.sources - keys;
      ReachesOn(s, [SweepDrop(t, k, now), SweepErase(t)], s1, Dropping(t, rest, now),
                s.(sources := s.sources - keys, entries := s.entries - |keys|));
    }
  }

  lemma StillFree(s: State, s': State, key: SourceKey)
    requires Free(s, key) && s'.tasks == s.tasks
    ensures Free(s', key)
  {
  }

  /** A sweep by one task among others standing still is a run of the protocol: it drops the full buckets
      one by one, decides no packet, and leaves exactly the buckets that are not full. */
  lemma SweptIsARun(s: State, t: Task, now: Instant)
    requires t !in s.tasks && s.entries == |s.sources| && forall k | k in s.sources :: Free(s, k)
    ensures Reaches(s, Dropping(t, FullKeys(s, now), now), Swept(s, now), [])
    ensures forall k :: k in Swept(s, now).sources <==> k in s.sources && !FullAt(s.sources[k], now)
    ensures Swept(s, now).entries == |Swept(s, now).sources|
  {
    hide FullAt, Free, Reaches;
    var keys := FullKeys(s, now);
    KeysSize(s.sources, keys);
    assert s.sources - keys == Kept(s.sources, now);
    DropAll(s, t, keys, now);
  }

  lemma KeysSize(m: map<SourceKey, Bucket>, keys: set<SourceKey>)
    requires keys <= m.Keys
    ensures |keys| <= |m| && |m - keys| == |m| - |keys|
  {
    assert (m - keys).Keys == m.Keys - keys;
    assert |m.Keys - keys| == |m.Keys| - |keys|;
    assert |(m - keys).Keys| == |m - keys| && |m.Keys| == |m|;
  }

  // ---- Any series of calls ----

  datatype Call =
    | AdmitCall(key: SourceKey, cost: u32, now: Instant)
    | SweepCall(now: Instant)

  function Called(s: State, c: Call): State {
    match c
    case AdmitCall(key, cost, now) => Checked(s, key, cost, now).1
    case SweepCall(now) => Swept(s, now)
  }

  function Series(s: State, calls: seq<Call>): State
    decreases |calls|
  {
    if calls == [] then s else Series(Called(s, calls[0]), calls[1..])
  }

  /** The cost of the packets the calls admit. */
  function Served(s: State, calls: seq<Call>): nat
    decreases |calls|
  {
    if calls == [] then 0
    else
      var c := calls[0];
      (if c.AdmitCall? && Checked(s, c.key, c.cost, c.now).0.Ok? then c.cost else 0) + Served(Called(s, c), calls[1..])
  }

  predicate Until(calls: seq<Call>, end: Instant) { forall i | 0 <= i < |calls| :: calls[i].now <= end }

  ghost function Steps(s: State, c: Call): seq<Action> {
    match c
    case AdmitCall(key, cost, now) => Solo(s, 0, key, cost, now)
    case SweepCall(now) => Dropping(0, FullKeys(s, now), now)
  }

  ghost function SeriesRun(s: State, calls: seq<Call>): seq<Action>
    decreases |calls|
  {
    if calls == [] then [] else Steps(s, calls[0]) + SeriesRun(Called(s, calls[0]), calls[1..])
  }

  lemma {:induction false} DroppingWithin(t: Task, keys: set<SourceKey>, now: Instant, end: Instant)
    ensures Within(Dropping(t, keys, now), 0, end)
  {
    if keys != {} {
      DroppingWithin(t, keys - {Pick(keys)}, now, end);
    }
  }

  lemma CallIsARun(s: State, c: Call, end: Instant)
    requires Inv(s) && s.tasks == map[] && c.now <= end
    ensures Possible(s, Steps(s, c)) && After(s, Steps(s, c)) == Called(s, c)
    ensures Within(Steps(s, c), 0, end)
    ensures Called(s, c).tasks == map[]
  {
    hide Inv, Possible, After, Outcomes, Within, FullAt, Dropping, Taken, Refunded;
    match c
    case AdmitCall(key, cost, now) =>
      SoloIsARun(s, 0, key, cost, now);
      SoloWithin(s, key, cost, now, end);
    case SweepCall(now) =>
      AtRest(s);
      SweptIsARun(s, 0, now);
      DroppingWithin(0, FullKeys(s, now), now, end);
  }

  lemma SoloWithin(s: State, key: SourceKey, cost: u32, now: Instant, end: Instant)
    requires now <= end
    ensures Within(Solo(s, 0, key, cost, now), 0, end)
  {
    hide Taken;
  }

  lemma AtRest(s: State)
    requires Inv(s) && s.tasks == map[]
    ensures s.entries == |s.sources|
  {
    assert Promised(s) == s.sources.Keys;
  }

  /** Every series of packets and sweeps is a run of the protocol, and admits what the run admits. */
  lemma {:induction false} SeriesIsARun(s: State, calls: seq<Call>, end: Instant)
    requires Inv(s) && s.tasks == map[] && Until(calls, end)
    ensures Possible(s, SeriesRun(s, calls)) && After(s, SeriesRun(s, calls)) == Series(s, calls)
    ensures Within(SeriesRun(s, calls), 0, end)
    ensures Series(s, calls).admitted == s.admitted + Served(s, calls)
    decreases |calls|
  {
    hide Inv, Possible, After, Outcomes, Within, Steps, Checked, Swept;
    if calls == [] {
      NoSteps(s);
      NothingWithin(end);
    } else {
      var c, rest := calls[0], calls[1..];
      CallIsARun(s, c, end);
      RunInv(s, Steps(s, c));
      SeriesIsARun(Called(s, c), rest, end);
      RunsChained(s, Steps(s, c), SeriesRun(Called(s, c), rest), end);
      CallAdmits(s, c);
    }
  }

  lemma NothingWithin(end: Instant)
    ensures Within([], 0, end)
  {
  }

  lemma CallAdmits(s: State, c: Call)
    ensures Called(s, c).admitted == s.admitted +
      if c.AdmitCall? && Checked(s, c.key, c.cost, c.now).0.Ok? then c.cost else 0
  {
    hide Taken, Refunded, FullAt;
  }

  lemma RunsChained(s: State, run: seq<Action>, more: seq<Action>, end: Instant)
    requires Possible(s, run) && Possible(After(s, run), more) && Within(run, 0, end) && Within(more, 0, end)
    ensures Possible(s, run + more) && After(s, run + more) == After(After(s, run), more) && Within(run + more, 0, end)
  {
    Chained(s, run, more);
  }

  /** Whatever the packets and sweeps, the credits of the packets that got the verdict `Ok` stay within the
      server-wide burst and the rate times the time, in whole microseconds, since the start. Under
      `enforce` these are the packets that are served. */
  lemma ServedWithinBudget(s: State, calls: seq<Call>, end: Instant)
    requires Init(s) && Until(calls, end) && s.start <= end
    ensures Served(s, calls) * MICRO <= s.global.burst + (end - s.start) / 1000 * s.global.rate
  {
    hide Possible, After, Within, Series, Served, SeriesRun, Until, Total;
    InitInv(s);
    SeriesIsARun(s, calls, end);
    GlobalBudget(s, SeriesRun(s, calls), end);
  }
}
