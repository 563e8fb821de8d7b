/** What one source is admitted (src/admission.rs, UdpBudget), over every interleaving with sweeps and at
    any grain of the clock, and how far forgotten sources' budgets can drift from those they would have
    kept. */
module UdpSourceBudget {
  import opened Common
  import opened TokenBuckets
  import opened Sources
  import opened UdpProtocol
  import opened UdpBudgets
  import opened UdpForgetting
  import opened UdpForgettingShows

  // ---- A source's share over a whole run ----

  /** The credits a step admits for a key. */
  ghost function Credit(s: State, a: Action, key: SourceKey): nat
    requires Enabled(s, a)
  {
    match a
    case Hit(t) =>
      var pc := s.tasks[t];
      if pc.key == key && Taken(s.sources[key], pc.cost, pc.now).0 then pc.cost else 0
    case Insert(t) =>
      var pc := s.tasks[t];
      if pc.key == key && Taken(New(s.lim, pc.now), pc.cost, pc.now).0 then pc.cost else 0
    case _ => 0
  }

  ghost function AdmittedTo(s: State, run: seq<Action>, key: SourceKey): nat
    requires Possible(s, run)
    decreases |run|
  {
    if run == [] then 0 else Credit(s, run[0], key) + AdmittedTo(Apply(s, run[0]), run[1..], key)
  }

  /** What the credits admitted and the level left are paid by: one burst and the refill since `from`,
      in thousandths of a micro-credit. */
  ghost predicate PaidFor(lim: Limits, b: Bucket, admitted: nat, from: Instant, to: Instant) {
    WellFormed(b) && b.rate == lim.srcRate && b.burst == lim.srcBurst * MICRO && from <= b.last <= to &&
    1000 * (admitted * MICRO + b.level) <= 1000 * b.burst + (b.last - from) * b.rate
  }

  /** The source's bucket is paid for, stored or forgotten; without one nothing was admitted. */
  ghost predicate KeyPaid(s: State, gone: Table, key: SourceKey, admitted: nat, from: Instant, to: Instant) {
    var all := All(gone, s.sources);
    if key in all then PaidFor(s.lim, all[key], admitted, from, to) else admitted == 0
  }

  ghost predicate ReadingsWithin(s: State, from: Instant, to: Instant) {
    forall t | t in s.tasks && !s.tasks[t].Owing? && !s.tasks[t].Erasing? :: from <= s.tasks[t].now <= to
  }

  /** One take, whether it succeeds or not, is paid by what the refill before it credits. */
  lemma TakePaid(lim: Limits, b: Bucket, admitted: nat, cost: u32, now: Instant, from: Instant, to: Instant)
    requires PaidFor(lim, b, admitted, from, to) && now <= to
    ensures var (ok, b') := Taken(b, cost, now);
      PaidFor(lim, b', admitted + if ok then cost else 0, from, to)
  {
    TakeIsExact(b, cost, now);
    RefillIsExact(b, now);
    var us := Elapsed(b, now);
    Shares(b.last - from, us * 1000, b.rate);
    Thousand(us, b.rate);
  }

  lemma Thousand(u: nat, rate: nat)
    ensures (u * 1000) * rate == 1000 * (u * rate)
  {
  }

  lemma NewPaid(lim: Limits, now: Instant, from: Instant, to: Instant)
    requires from <= now <= to
    ensures PaidFor(lim, New(lim, now), 0, from, to)
  {
    Shares(now - from, 0, lim.srcRate);
  }

  /** What paid for a bucket that has recovered pays for a new one: its last refill is no later. */
  lemma RecoveredPaid(lim: Limits, b: Bucket, admitted: nat, now: Instant, from: Instant, to: Instant)
    requires PaidFor(lim, b, admitted, from, to) && now <= to && Recovered(b, now)
    ensures PaidFor(lim, New(lim, now), admitted, from, to)
  {
    TakePaid(lim, b, admitted, 0, now, from, to);
    RefillIsExact(b, now);
    var r := Refilled(b, now);
    LessTime(r.last - from, now - from, b.rate);
  }

  lemma KeyPaidKept(s: State, gone: Table, a: Action, key: SourceKey, admitted: nat, from: Instant, to: Instant)
    requires EntryLocks(s) && Enabled(s, a) && RecoveredAt(s, gone, a) && ReadingsWithin(s, from, to)
    requires KeyPaid(s, gone, key, admitted, from, to)
    ensures KeyPaid(Apply(s, a), GoneAfter(s, gone, a), key, admitted + Credit(s, a, key), from, to)
  {
    hide All, Taken, FullAt, Refunded, Free, PaidFor, Recovered, Fresh;
    AllAt(gone, s.sources, key);
    match a
    case Hit(t) =>
      var pc := s.tasks[t];
      AllAt(gone, s.sources, pc.key);
      var (ok, b) := Taken(s.sources[pc.key], pc.cost, pc.now);
      PutStored(gone, s.sources, pc.key, b);
      if pc.key == key { TakePaid(s.lim, s.sources[key], admitted, pc.cost, pc.now, from, to); }
    case Insert(t) =>
      var pc := s.tasks[t];
      AllAt(gone, s.sources, pc.key);
      var (ok, b) := Taken(New(s.lim, pc.now), pc.cost, pc.now);
      PutReturned(gone, s.sources, pc.key, b);
      if pc.key == key {
        if key in gone {
          RecoveredPaid(s.lim, gone[key], admitted, pc.now, from, to);
        } else {
          NewPaid(s.lim, pc.now, from, to);
        }
        TakePaid(s.lim, New(s.lim, pc.now), admitted, pc.cost, pc.now, from, to);
      }
    case SweepErase(t) => EraseStored(gone, s.sources, s.tasks[t].key);
    case _ =>
  }

  lemma ReadingsKept(s: State, a: Action, from: Instant, to: Instant)
    requires Enabled(s, a) && ReadingsWithin(s, from, to) && (a.Arrive? ==> from <= a.now <= to)
    ensures ReadingsWithin(Apply(s, a), from, to)
  {
    hide Taken, FullAt, Refunded, Free, Fresh;
  }

  lemma {:induction false} KeyPaidRun(s: State, gone: Table, run: seq<Action>, key: SourceKey, admitted: nat, from: Instant, to: Instant)
    requires EntryLocks(s) && Possible(s, run) && Recovering(s, gone, run) && Within(run, from, to) && from <= to
    requires ReadingsWithin(s, from, to) && KeyPaid(s, gone, key, admitted, from, to)
    ensures 1000 * (admitted + AdmittedTo(s, run, key)) * MICRO <= 1000 * s.lim.srcBurst * MICRO + (to - from) * s.lim.srcRate
    decreases |run|
  {
    if run == [] {
      hide PaidFor;
      PaidBound(s, gone, key, admitted, from, to);
    } else {
      var a := run[0];
      hide KeyPaid, Apply, Enabled, EntryLocks, ReadingsWithin, RecoveredAt, GoneAfter, Credit;
      LocksKept(s, a);
      ReadingsKept(s, a, from, to);
      KeyPaidKept(s, gone, a, key, admitted, from, to);
      SameLimits(s, a);
      WithinRest(run, from, to);
      KeyPaidRun(Apply(s, a), GoneAfter(s, gone, a), run[1..], key, admitted + Credit(s, a, key), from, to);
    }
  }

  lemma SameLimits(s: State, a: Action)
    requires Enabled(s, a)
    ensures Apply(s, a).lim == s.lim
  {
    EntriesMoves(s, a);
  }

  lemma WithinRest(run: seq<Action>, from: Instant, to: Instant)
    requires run != [] && Within(run, from, to)
    ensures Within(run[1..], from, to)
  {
    forall i | 0 <= i < |run[1..]| && run[1..][i].Arrive? ensures from <= run[1..][i].now <= to {
      assert run[1..][i] == run[i + 1];
    }
  }

  lemma PaidBound(s: State, gone: Table, key: SourceKey, admitted: nat, from: Instant, to: Instant)
    requires KeyPaid(s, gone, key, admitted, from, to) && from <= to
    ensures 1000 * admitted * MICRO <= 1000 * s.lim.srcBurst * MICRO + (to - from) * s.lim.srcRate
  {
    hide All;
    var all := All(gone, s.sources);
    LessTime(0, to - from, s.lim.srcRate);
    if key in all { LessTime(all[key].last - from, to - from, s.lim.srcRate); }
  }

  /** Over every run, with sweeps and all and at any grain of the clock, in which a forgotten source is met
      again only once its old bucket has recovered, the credits admitted for a source are at most its
      burst and its rate times the time. */
  lemma SourceBudget(s: State, run: seq<Action>, key: SourceKey, from: Instant, to: Instant)
    requires Init(s) && Possible(s, run) && Recovering(s, map[], run) && Within(run, from, to) && from <= to
    ensures 1000 * AdmittedTo(s, run, key) * MICRO <= 1000 * s.lim.srcBurst * MICRO + (to - from) * s.lim.srcRate
  {
    hide Possible, Recovering, Within;
    InitInv(s);
    AllAt(map[], s.sources, key);
    KeyPaidRun(s, map[], run, key, 0, from, to);
  }

  /** Readings used in order are enough: then the bound holds of every source, whatever the clock's grain. */
  lemma SourceBudgetInOrder(s: State, run: seq<Action>, key: SourceKey, from: Instant, to: Instant)
    requires Init(s) && Possible(s, run) && InOrder(s, 0, run) && Within(run, from, to) && from <= to
    ensures 1000 * AdmittedTo(s, run, key) * MICRO <= 1000 * s.lim.srcBurst * MICRO + (to - from) * s.lim.srcRate
  {
    hide Possible, Recovering, Within, InOrder, OrderTrue;
    NothingRead(s);
    OrderIsRecovering(s, map[], run, 0);
    SourceBudget(s, run, key, from, to);
  }

  // ---- A sweep that overtakes a packet breaks the bound ----

  lemma AdmittedOnce(u: State, a: Action, key: SourceKey)
    requires Enabled(u, a)
    ensures Possible(u, [a]) && AdmittedTo(u, [a], key) == Credit(u, a, key)
  {
    hide Credit;
    assert [a][1..] == [];
  }

  lemma {:induction false} AdmittedChained(u: State, run: seq<Action>, more: seq<Action>, key: SourceKey)
    requires Possible(u, run) && Possible(After(u, run), more)
    ensures Possible(u, run + more)
    ensures AdmittedTo(u, run + more, key) == AdmittedTo(u, run, key) + AdmittedTo(After(u, run), more, key)
    decreases |run|
  {
    hide Apply, Enabled, Credit;
    Chained(u, run, more);
    if run == [] {
      assert run + more == more;
    } else {
      assert (run + more)[0] == run[0] && (run + more)[1..] == run[1..] + more;
      AdmittedChained(Apply(u, run[0]), run[1..], more, key);
    }
  }

  /** A first packet of the source on its way in is admitted for it. */
  lemma EnteringAdmits(u: State, t: Task, key: SourceKey)
    requires t in u.tasks && u.tasks[t].Charged? && u.tasks[t].key == key && key !in u.sources && Free(u, key)
    requires u.entries < u.lim.cap && Taken(New(u.lim, u.tasks[t].now), u.tasks[t].cost, u.tasks[t].now).0
    ensures Possible(u, Entering(t)) && AdmittedTo(u, Entering(t), key) == u.tasks[t].cost
  {
    hide Taken, Fresh, Possible, After, Outcomes, Free, AdmittedTo;
    OneStep(u, Lock(t));
    AdmittedOnce(u, Lock(t), key);
    var u1 := Apply(u, Lock(t));
    OneStep(u1, Load(t));
    AdmittedOnce(u1, Load(t), key);
    var u2 := Apply(u1, Load(t));
    OneStep(u2, CasOk(t));
    AdmittedOnce(u2, CasOk(t), key);
    var u3 := Apply(u2, CasOk(t));
    AdmittedOnce(u3, Insert(t), key);
    assert Credit(u3, Insert(t), key) == u.tasks[t].cost;
    hide Apply, Enabled, Credit;
    AdmittedChained(u2, [CasOk(t)], [Insert(t)], key);
    AdmittedChained(u1, [Load(t)], [CasOk(t)] + [Insert(t)], key);
    AdmittedChained(u, [Lock(t)], [Load(t)] + ([CasOk(t)] + [Insert(t)]), key);
    assert [Lock(t)] + ([Load(t)] + ([CasOk(t)] + [Insert(t)])) == Entering(t);
  }

  lemma FirstAdmitted(key: SourceKey)
    ensures Possible(Idle(), FirstPacket(key)) && AdmittedTo(Idle(), FirstPacket(key), key) == 1
  {
    hide Possible, After, Outcomes, Free, AdmittedTo;
    var a := Arrive(0, key, 1, 0);
    OneStep(Idle(), a);
    AdmittedOnce(Idle(), a, key);
    NobodyInside(Apply(Idle(), a), key);
    EnteringAdmits(Apply(Idle(), a), 0, key);
    AdmittedChained(Idle(), [a], Entering(0), key);
  }

  lemma SecondAdmitted(key: SourceKey)
    ensures Possible(Underway(key), Sweeping(key) + Entering(0))
    ensures AdmittedTo(Underway(key), Sweeping(key) + Entering(0), key) == 1
  {
    hide Possible, After, Outcomes, Free, AdmittedTo;
    var u := SweptAway(key);
    var drop, erase := SweepDrop(1, key, 1_000_000), SweepErase(1);
    NobodyInside(Underway(key), key);
    OneStep(Underway(key), drop);
    AdmittedOnce(Underway(key), drop, key);
    AdmittedOnce(Apply(Underway(key), drop), erase, key);
    AdmittedChained(Underway(key), [drop], [erase], key);
    NobodyInside(u, key);
    EnteringAdmits(u, 0, key);
    AdmittedChained(Underway(key), Sweeping(key), Entering(0), key);
  }

  /** The run in which a sweep overtakes a packet admits two credits of a source within 999 microseconds,
      at one credit a millisecond and a burst of one: more than burst and rate allow. */
  lemma OvertakingBreaksTheBudget(key: SourceKey)
    ensures var s, run := Idle(), Overtaken(key);
      Init(s) && Possible(s, run) && Within(run, 0, 999_000) && AdmittedTo(s, run, key) == 2 &&
      1000 * 2 * MICRO > 1000 * s.lim.srcBurst * MICRO + (999_000 - 0) * s.lim.srcRate
  {
    OvertakenPacketIsServed(key);
    FirstServed(key);
    SecondUnderway(key);
    FirstAdmitted(key);
    SecondAdmitted(key);
    var two := [Arrive(0, key, 1, 999_000)];
    hide Possible, After, Spent, FirstPacket, Sweeping, Entering, Underway;
    ArrivalAdmitsNothing(key);
    Chained(Idle(), FirstPacket(key), two);
    AdmittedChained(Idle(), FirstPacket(key), two, key);
    AdmittedChained(Idle(), FirstPacket(key) + two, Sweeping(key) + Entering(0), key);
    OvertakenReadings(key);
  }

  lemma ArrivalAdmitsNothing(key: SourceKey)
    ensures Possible(Spent(key), [Arrive(0, key, 1, 999_000)]) && AdmittedTo(Spent(key), [Arrive(0, key, 1, 999_000)], key) == 0
  {
    AdmittedOnce(Spent(key), Arrive(0, key, 1, 999_000), key);
  }

  lemma OvertakenReadings(key: SourceKey)
    ensures Within(Overtaken(key), 0, 999_000)
  {
  }

  // ---- Drift of a forgotten source's budget when time is finer than a microsecond ----

  /** Two buckets of one source read at nearly the same time: the one whose clock is behind has at
      most one microsecond's refill less, and never more. */
  predicate Near(x: Bucket, y: Bucket) {
    WellFormed(x) && WellFormed(y) && x.rate == y.rate && x.burst == y.burst &&
    -1000 < x.last - y.last < 1000 &&
    (x.last < y.last ==> y.level - x.rate <= x.level <= y.level) &&
    (y.last < x.last ==> x.level - x.rate <= y.level <= x.level) &&
    (x.last == y.last ==> x.level == y.level)
  }

  lemma NearLater(x: Bucket, y: Bucket, now: Instant)
    requires Near(x, y) && x.last <= now && y.last <= now
    ensures Near(Refilled(x, now), Refilled(y, now)) && Refilled(x, now).last <= now && Refilled(y, now).last <= now
  {
    if y.last < x.last {
      NearLaterOrdered(y, x, now);
    } else {
      NearLaterOrdered(x, y, now);
    }
  }

  lemma NearLaterOrdered(x: Bucket, y: Bucket, now: Instant)
    requires Near(x, y) && x.last <= y.last <= now
    ensures Near(Refilled(x, now), Refilled(y, now)) && Near(Refilled(y, now), Refilled(x, now))
    ensures Refilled(x, now).last <= now && Refilled(y, now).last <= now
  {
    RefillIsExact(x, now);
    RefillIsExact(y, now);
    hide Refilled;
    var ux, uy := Elapsed(x, now), Elapsed(y, now);
    assert uy <= ux <= uy + 1;
    if ux == uy + 1 { Shares(uy, 1, x.rate); }
  }

  lemma NearTaken(x: Bucket, y: Bucket, cost: u32, now: Instant)
    requires Near(x, y) && x.last <= now && y.last <= now && Taken(x, cost, now).0 == Taken(y, cost, now).0
    ensures Near(Taken(x, cost, now).1, Taken(y, cost, now).1)
  {
    hide Refilled;
    NearLater(x, y, now);
  }

  /** A bucket forgotten when full is near the kept one; so is the new bucket that replaces it. */
  lemma NearAnew(x: Bucket, y: Bucket, lim: Limits, now: Instant)
    requires Near(x, y) && FullAt(x, now) && x.last <= now && y.last <= now
    requires x.rate == lim.srcRate && x.burst == lim.srcBurst * MICRO
    ensures Near(New(lim, now), Refilled(y, now))
  {
    NearLater(x, y, now);
    RefillIsExact(x, now);
    RefillIsExact(y, now);
    hide Refilled;
  }

  /** Reading a bucket beforehand changes nothing of a take at the same time. */
  lemma ReadThenTaken(b: Bucket, cost: u32, now: Instant)
    requires WellFormed(b)
    ensures Taken(Refilled(b, now), cost, now) == Taken(b, cost, now)
  {
    RefillIsPathIndependent(b, now, now);
    hide Refilled;
  }

  lemma NearItself(b: Bucket)
    requires WellFormed(b)
    ensures Near(b, b)
  {
  }

  /** Every bucket, stored or forgotten, is near the one that a table without sweeps has kept. */
  ghost predicate Shadowed(lim: Limits, sources: Table, gone: Table, kept: Table, clock: Instant) {
    gone.Keys !! sources.Keys && kept.Keys == gone.Keys + sources.Keys &&
    (forall k | k in kept :: ReadBy(lim, kept[k], clock)) &&
    (forall k | k in sources :: Near(sources[k], kept[k])) &&
    (forall k | k in gone :: Near(gone[k], kept[k]))
  }

  lemma ShadowedPut(lim: Limits, sources: Table, gone: Table, kept: Table, key: SourceKey, x: Bucket, y: Bucket, clock: Instant)
    requires Shadowed(lim, sources, gone, kept, clock) && Near(x, y) && ReadBy(lim, y, clock)
    ensures Shadowed(lim, sources[key := x], gone - {key}, kept[key := y], clock)
  {
    hide Near, ReadBy;
  }

  lemma ShadowedErased(lim: Limits, sources: Table, gone: Table, kept: Table, key: SourceKey, clock: Instant)
    requires Shadowed(lim, sources, gone, kept, clock) && key in sources
    ensures Shadowed(lim, sources - {key}, gone[key := sources[key]], kept, clock)
  {
    hide Near, ReadBy;
  }

  ghost predicate DriftTrue(s: State, gone: Table, kept: Table, clock: Instant) {
    OrderTrue(s, gone, clock) && Shadowed(s.lim, s.sources, gone, kept, clock)
  }

  lemma DriftLater(s: State, gone: Table, kept: Table, clock: Instant, later: Instant)
    requires DriftTrue(s, gone, kept, clock) && clock <= later
    ensures DriftTrue(s, gone, kept, later)
  {
    hide ReadBy, Near, FullAt;
    OrderLater(s, gone, clock, later);
    forall k | k in kept ensures ReadBy(s.lim, kept[k], later) { ReadByLater(s.lim, kept[k], clock, later); }
  }

  /** The packet of a returning source, decided against a new bucket and against the kept one. */
  lemma ReturnStaysNear(lim: Limits, x: Bucket, y: Bucket, cost: u32, now: Instant)
    requires Near(x, y) && FullAt(x, now) && ReadBy(lim, x, now) && ReadBy(lim, y, now)
    requires Taken(New(lim, now), cost, now).0 == Taken(y, cost, now).0
    ensures Near(Taken(New(lim, now), cost, now).1, Taken(y, cost, now).1)
  {
    NearAnew(x, y, lim, now);
    ReadThenTaken(y, cost, now);
    RefillIsExact(y, now);
    NearTaken(New(lim, now), Refilled(y, now), cost, now);
  }

  lemma NearKept(s: State, gone: Table, kept: Table, a: Action, now: Instant)
    requires DriftTrue(s, gone, kept, now) && Enabled(s, a) && ReadsNow(s, a, now) && AlikeAt(s, kept, a)
    requires a.Hit? || a.Insert?
    ensures var key := s.tasks[a.t].key;
      key in KeptAfter(s, kept, a) && Near(Apply(s, a).sources[key], KeptAfter(s, kept, a)[key]) &&
      ReadBy(s.lim, KeptAfter(s, kept, a)[key], now)
  {
    hide Near, FullAt, Taken, Fresh, Refunded, Free;
    var pc := s.tasks[a.t];
    if a.Hit? {
      assert ReadBy(s.lim, s.sources[pc.key], now) && ReadBy(s.lim, kept[pc.key], now);
      NearTaken(s.sources[pc.key], kept[pc.key], pc.cost, now);
      ReadByTaken(s.lim, kept[pc.key], pc.cost, now);
    } else if pc.key in gone {
      ReturnStaysNear(s.lim, gone[pc.key], kept[pc.key], pc.cost, now);
      ReadByTaken(s.lim, kept[pc.key], pc.cost, now);
    } else {
      assert pc.key !in kept;
      NewIsRead(s.lim, now);
      ReadByTaken(s.lim, New(s.lim, now), pc.cost, now);
      NearItself(Taken(New(s.lim, now), pc.cost, now).1);
    }
  }

  lemma NewIsRead(lim: Limits, now: Instant)
    ensures ReadBy(lim, New(lim, now), now)
  {
  }

  lemma StoredWhenUsed(s: State, gone: Table, kept: Table, a: Action, now: Instant)
    requires DriftTrue(s, gone, kept, now) && Enabled(s, a)
    ensures a.SweepErase? ==> s.tasks[a.t].key in s.sources
    ensures a.Hit? ==> s.tasks[a.t].key !in gone
  {
    hide Near, ReadBy, FullAt, Free;
  }

  lemma DriftKept(s: State, gone: Table, kept: Table, a: Action, now: Instant)
    requires DriftTrue(s, gone, kept, now) && Enabled(s, a) && ReadsNow(s, a, now) && AlikeAt(s, kept, a)
    ensures DriftTrue(Apply(s, a), GoneAfter(s, gone, a), KeptAfter(s, kept, a), now)
  {
    OrderKept(s, gone, a, now);
    StoredWhenUsed(s, gone, kept, a, now);
    if a.Hit? || a.Insert? { NearKept(s, gone, kept, a, now); }
    hide Shadowed, OrderTrue, Near, FullAt, Taken, Fresh, Refunded, Free, ReadBy, AlikeAt, ReadsNow;
    match a
    case Hit(t) =>
      var key := s.tasks[t].key;
      ShadowedPut(s.lim, s.sources, gone, kept, key, Apply(s, a).sources[key], KeptAfter(s, kept, a)[key], now);
      assert gone - {key} == gone;
    case Insert(t) =>
      var key := s.tasks[t].key;
      ShadowedPut(s.lim, s.sources, gone, kept, key, Apply(s, a).sources[key], KeptAfter(s, kept, a)[key], now);
    case SweepErase(t) => ShadowedErased(s.lim, s.sources, gone, kept, s.tasks[t].key, now);
    case _ =>
  }

  lemma {:induction false} DriftThrough(s: State, gone: Table, kept: Table, run: seq<Action>, clock: Instant)
    returns (gone': Table, end: Instant)
    requires DriftTrue(s, gone, kept, clock) && Possible(s, run) && InOrder(s, clock, run) && Alike(s, kept, run)
    ensures DriftTrue(After(s, run), gone', KeptThrough(s, kept, run), end)
    decreases |run|
  {
    if run == [] {
      gone', end := gone, clock;
    } else {
      var a := run[0];
      hide DriftTrue, Apply, Enabled, AlikeAt, GoneAfter, KeptAfter;
      var now := if Reading(s, a).Some? then Reading(s, a).value else clock;
      DriftLater(s, gone, kept, clock, now);
      DriftKept(s, gone, kept, a, now);
      gone', end := DriftThrough(Apply(s, a), GoneAfter(s, gone, a), KeptAfter(s, kept, a), run[1..], now);
    }
  }

  lemma SameLimitsAfter(s: State, run: seq<Action>)
    requires Possible(s, run)
    ensures After(s, run).lim == s.lim
    decreases |run|
  {
    if run != [] {
      SameLimits(s, run[0]);
      SameLimitsAfter(Apply(s, run[0]), run[1..]);
    }
  }

  predicate WithinOneMicrosecond(x: Bucket, y: Bucket, rate: nat) {
    y.level - rate <= x.level <= y.level + rate
  }

  lemma NearIsWithin(x: Bucket, y: Bucket)
    requires Near(x, y)
    ensures WithinOneMicrosecond(x, y, x.rate)
  {
  }

  /** Over every run of packets and sweeps in any interleaving, with readings used in order at any grain of
      the clock, however often sources are forgotten: for as long as the kept buckets would decide every
      decided packet alike, each stored bucket stays within one microsecond's refill of the kept one. */
  lemma DriftStaysBelowOneMicrosecond(s: State, run: seq<Action>)
    requires Init(s) && Possible(s, run) && InOrder(s, 0, run) && Alike(s, map[], run)
    ensures var stored, kept := After(s, run).sources, KeptThrough(s, map[], run);
      forall k | k in stored :: k in kept && WithinOneMicrosecond(stored[k], kept[k], s.lim.srcRate)
  {
    hide Possible, After, InOrder, Alike, KeptThrough, OrderTrue, Near, WithinOneMicrosecond;
    NothingRead(s);
    assert s.sources == map[];
    var gone, end := DriftThrough(s, map[], map[], run, 0);
    var stored, kept := After(s, run).sources, KeptThrough(s, map[], run);
    SameLimitsAfter(s, run);
    forall k | k in stored ensures k in kept && WithinOneMicrosecond(stored[k], kept[k], s.lim.srcRate) {
      NearIsWithin(stored[k], kept[k]);
      StoredRate(After(s, run), gone, end, k);
    }
  }

  /** When no packet finds the table full either, the kept buckets are those of a run: the same packets on
      a table that never forgets, to the same verdicts. */
  lemma DriftFromUndisturbed(s: State, run: seq<Action>) returns (calm: seq<Action>)
    requires Init(s) && Possible(s, run) && Roomy(run) && InOrder(s, 0, run) && Alike(s, map[], run)
    ensures Undisturbed(s, run, |run|, calm)
    ensures var forgetful, table := After(s, run).sources, After(s.(lim := s.lim.(cap := |run|)), calm).sources;
      forall k | k in forgetful :: k in table && WithinOneMicrosecond(forgetful[k], table[k], s.lim.srcRate)
  {
    hide Possible, After, Undisturbed, InOrder, Alike, KeptThrough, WithinOneMicrosecond;
    DriftStaysBelowOneMicrosecond(s, run);
    calm := AlikeIsUndisturbed(s, run);
  }

  lemma StoredRate(s: State, gone: Table, clock: Instant, k: SourceKey)
    requires OrderTrue(s, gone, clock) && k in s.sources
    ensures s.sources[k].rate == s.lim.srcRate
  {
  }
}
