/** What the sweeper's forgetting changes when it runs among admissions (src/admission.rs, UdpBudget):
    every interleaving is set against a table that never forgets. */
module UdpForgetting {
  import opened Common
  import opened TokenBuckets
  import opened Sources
  import opened UdpProtocol
  import opened UdpBudgets

  // ---- The packets of a run ----

  /** The arrivals of a run, in order. */
  function Packets(run: seq<Action>): seq<Action> {
    if run == [] then [] else (if run[0].Arrive? then [run[0]] else []) + Packets(run[1..])
  }

  predicate SweepFree(run: seq<Action>) { forall a | a in run :: !a.SweepDrop? && !a.SweepErase? }

  /** No packet is refused for lack of room. */
  predicate Roomy(run: seq<Action>) { forall a | a in run :: !a.GiveUp? }

  // ---- The table that never forgets, carried along ----

  type Table = map<SourceKey, Bucket>

  /** The bucket a packet of this key is decided against. */
  function Known(lim: Limits, kept: Table, key: SourceKey, now: Instant): Bucket {
    if key in kept then kept[key] else New(lim, now)
  }

  /** A step that decides a packet takes from the kept bucket of its key, too. */
  ghost function KeptAfter(s: State, kept: Table, a: Action): Table
    requires Enabled(s, a)
  {
    match a
    case Hit(t) =>
      var pc := s.tasks[t]; kept[pc.key := Taken(Known(s.lim, kept, pc.key, pc.now), pc.cost, pc.now).1]
    case Insert(t) =>
      var pc := s.tasks[t]; kept[pc.key := Taken(Known(s.lim, kept, pc.key, pc.now), pc.cost, pc.now).1]
    case _ => kept
  }

  /** The kept bucket gives the verdict that the step gives. */
  ghost predicate AlikeAt(s: State, kept: Table, a: Action)
    requires Enabled(s, a)
  {
    match a
    case Hit(t) =>
      var pc := s.tasks[t];
      Taken(s.sources[pc.key], pc.cost, pc.now).0 == Taken(Known(s.lim, kept, pc.key, pc.now), pc.cost, pc.now).0
    case Insert(t) =>
      var pc := s.tasks[t];
      Taken(New(s.lim, pc.now), pc.cost, pc.now).0 == Taken(Known(s.lim, kept, pc.key, pc.now), pc.cost, pc.now).0
    case _ => true
  }

  ghost predicate Alike(s: State, kept: Table, run: seq<Action>)
    requires Possible(s, run)
    decreases |run|
  {
    run == [] || (AlikeAt(s, kept, run[0]) && Alike(Apply(s, run[0]), KeptAfter(s, kept, run[0]), run[1..]))
  }

  ghost function KeptThrough(s: State, kept: Table, run: seq<Action>): Table
    requires Possible(s, run)
    decreases |run|
  {
    if run == [] then kept else KeptThrough(Apply(s, run[0]), KeptAfter(s, kept, run[0]), run[1..])
  }

  // ---- The same moment without sweeps ----

  /** A packet on its way to a new entry has, without sweeps, only paid so far. */
  function CalmPc(pc: Pc): Pc {
    if pc.Owing? || pc.Erasing? then pc else Charged(pc.key, pc.cost, pc.now)
  }

  function CalmTasks(tasks: map<Task, Pc>): map<Task, Pc> {
    map t | t in tasks && !tasks[t].Erasing? :: CalmPc(tasks[t])
  }

  function Calm(s: State, kept: Table, cap: nat): State {
    State(s.lim.(cap := cap), s.global, s.start, kept, |kept|, CalmTasks(s.tasks), s.admitted)
  }

  lemma NobodyHolds(s: State, kept: Table, cap: nat, key: SourceKey)
    ensures Free(Calm(s, kept, cap), key)
  {
  }

  lemma {:induction false} PacketsChained(run: seq<Action>, more: seq<Action>)
    ensures Packets(run + more) == Packets(run) + Packets(more)
  {
    if run == [] {
      assert run + more == more;
    } else {
      PacketsChained(run[1..], more);
      PacketsConsed(run[0], run[1..] + more);
      PacketsConsed(run[0], run[1..]);
      assert [run[0]] + run[1..] == run && [run[0]] + (run[1..] + more) == run + more;
      hide Packets;
    }
  }

  lemma PacketsConsed(a: Action, rest: seq<Action>)
    ensures Packets([a] + rest) == (if a.Arrive? then [a] else []) + Packets(rest)
  {
    assert ([a] + rest)[1..] == rest;
  }

  /** What a step becomes without sweeps. */
  ghost predicate Mirrors(s: State, kept: Table, a: Action, cap: nat, calm: seq<Action>)
    requires Enabled(s, a)
  {
    var u := Calm(s, kept, cap);
    Possible(u, calm) && After(u, calm) == Calm(Apply(s, a), KeptAfter(s, kept, a), cap) &&
    Outcomes(u, calm) == Outcome(s, a) && Packets(calm) == Packets([a]) && SweepFree(calm)
  }

  lemma CalmPut(tasks: map<Task, Pc>, t: Task, pc: Pc)
    ensures CalmTasks(tasks[t := pc]) == if pc.Erasing? then CalmTasks(tasks) - {t} else CalmTasks(tasks)[t := CalmPc(pc)]
  {
  }

  lemma CalmDrop(tasks: map<Task, Pc>, t: Task)
    ensures CalmTasks(tasks - {t}) == CalmTasks(tasks) - {t}
  {
  }

  lemma CalmAt(tasks: map<Task, Pc>, t: Task)
    ensures t in CalmTasks(tasks) <==> t in tasks && !tasks[t].Erasing?
    ensures t in CalmTasks(tasks) ==> CalmTasks(tasks)[t] == CalmPc(tasks[t])
    ensures t in CalmTasks(tasks) ==> CalmTasks(tasks)[t := CalmPc(tasks[t])] == CalmTasks(tasks)
    ensures t !in CalmTasks(tasks) ==> CalmTasks(tasks) - {t} == CalmTasks(tasks)
  {
  }

  lemma PutSize(m: Table, key: SourceKey, b: Bucket)
    ensures |m[key := b]| == |m| + if key in m then 0 else 1
  {
    if key in m { assert m.Keys + {key} == m.Keys; }
    assert m[key := b].Keys == m.Keys + {key};
    assert |m[key := b].Keys| == |m[key := b]| && |m.Keys| == |m|;
  }

  lemma MirrorArrive(s: State, kept: Table, a: Action, cap: nat)
    requires Enabled(s, a) && a.Arrive?
    ensures Mirrors(s, kept, a, cap, [a])
  {
    hide Taken, CalmTasks, Possible, After, Outcomes;
    CalmAt(s.tasks, a.t);
    CalmPut(s.tasks, a.t, Charged(a.key, a.cost, a.now));
    OneStep(Calm(s, kept, cap), a);
  }

  lemma MirrorRefund(s: State, kept: Table, t: Task, cap: nat)
    requires Enabled(s, Refund(t))
    ensures Mirrors(s, kept, Refund(t), cap, [Refund(t)])
  {
    hide Refunded, CalmTasks, Possible, After, Outcomes;
    CalmAt(s.tasks, t);
    CalmDrop(s.tasks, t);
    OneStep(Calm(s, kept, cap), Refund(t));
  }

  /** Settling a packet is settling it without sweeps. */
  lemma SettledCalm(s: State, kept: Table, stored: Table, b: Bucket, t: Task, ok: bool, cap: nat)
    requires t in s.tasks && !s.tasks[t].Erasing? && !s.tasks[t].Owing?
    ensures t in Calm(s, kept, cap).tasks
    ensures Calm(s, kept, cap).tasks[t] == Charged(s.tasks[t].key, s.tasks[t].cost, s.tasks[t].now)
    ensures var all := kept[s.tasks[t].key := b];
      Calm(Settled(s.(sources := stored), t, ok), all, cap) ==
      Settled(Calm(s, kept, cap).(sources := all, entries := |all|), t, ok)
  {
    hide CalmTasks;
    CalmAt(s.tasks, t);
    CalmDrop(s.tasks, t);
    CalmPut(s.tasks, t, Owing(s.tasks[t].cost));
  }

  lemma InsertIs(s: State, t: Task)
    requires Enabled(s, Insert(t))
    ensures var pc := s.tasks[t];
      var (ok, b) := Taken(New(s.lim, pc.now), pc.cost, pc.now);
      Apply(s, Insert(t)) == Settled(s.(sources := s.sources[pc.key := b]), t, ok) && Outcome(s, Insert(t)) == [(t, Answer(ok))]
  {
  }

  /** A packet of a stored source. */
  lemma MirrorHit(s: State, kept: Table, t: Task, cap: nat)
    requires Enabled(s, Hit(t)) && s.tasks[t].key in kept && AlikeAt(s, kept, Hit(t))
    ensures Mirrors(s, kept, Hit(t), cap, [Hit(t)])
  {
    hide Taken, CalmTasks, Possible, After, Outcomes, Free, Settled;
    var u, pc := Calm(s, kept, cap), s.tasks[t];
    var (ok, b) := Taken(kept[pc.key], pc.cost, pc.now);
    PutSize(kept, pc.key, b);
    SettledCalm(s, kept, s.sources[pc.key := Taken(s.sources[pc.key], pc.cost, pc.now).1], b, t, ok, cap);
    NobodyHolds(s, kept, cap, pc.key);
    OneStep(u, Hit(t));
  }

  lemma Quiet(s: State, kept: Table, a: Action, cap: nat)
    requires Enabled(s, a) && Outcome(s, a) == [] && !a.Arrive?
    requires Calm(Apply(s, a), KeptAfter(s, kept, a), cap) == Calm(s, kept, cap)
    ensures Mirrors(s, kept, a, cap, [])
  {
    hide Calm, Apply, Enabled, Outcome, KeptAfter;
    OnlyArrivals(a);
  }

  /** Preparing an entry, and sweeping, leave the table without sweeps as it is. */
  lemma MirrorNothing(s: State, kept: Table, a: Action, cap: nat)
    requires Enabled(s, a)
    requires a.Lock? || a.Load? || a.CasOk? || a.CasFail? || a.SweepDrop? || a.SweepErase?
    ensures Mirrors(s, kept, a, cap, [])
  {
    hide FullAt, CalmTasks, Free, Possible, After, Outcomes;
    var s' := Apply(s, a);
    CalmAt(s.tasks, a.t);
    if a.SweepErase? {
      CalmDrop(s.tasks, a.t);
    } else {
      CalmPut(s.tasks, a.t, s'.tasks[a.t]);
    }
    assert CalmTasks(s'.tasks) == CalmTasks(s.tasks);
    Quiet(s, kept, a, cap);
    hide Mirrors;
  }

  lemma OnlyArrivals(a: Action)
    ensures Packets([a]) == if a.Arrive? then [a] else []
  {
    assert [a][1..] == [];
  }

  /** A source forgotten and met again is, without sweeps, a stored one. */
  lemma MirrorReturn(s: State, kept: Table, t: Task, cap: nat)
    requires Enabled(s, Insert(t)) && s.tasks[t].key in kept && AlikeAt(s, kept, Insert(t))
    ensures Mirrors(s, kept, Insert(t), cap, [Hit(t)])
  {
    hide Taken, Fresh, CalmTasks, Possible, After, Outcomes, Free, Settled;
    var u, pc := Calm(s, kept, cap), s.tasks[t];
    var (ok, b) := Taken(kept[pc.key], pc.cost, pc.now);
    InsertIs(s, t);
    PutSize(kept, pc.key, b);
    SettledCalm(s, kept, s.sources[pc.key := Taken(New(s.lim, pc.now), pc.cost, pc.now).1], b, t, ok, cap);
    NobodyHolds(s, kept, cap, pc.key);
    OneStep(u, Hit(t));
    OnlyArrivals(Insert(t));
    OnlyArrivals(Hit(t));
  }

  /** A charged packet of a key not stored, taken to its new entry with nobody in between. */
  lemma Admission(u: State, t: Task) returns (u4: State)
    requires t in u.tasks && u.tasks[t].Charged? && u.tasks[t].key !in u.sources && Free(u, u.tasks[t].key)
    requires u.entries < u.lim.cap
    ensures var run, pc := [Lock(t), Load(t), CasOk(t), Insert(t)], u.tasks[t];
      var (ok, b) := Taken(New(u.lim, pc.now), pc.cost, pc.now);
      Possible(u, run) && After(u, run) == u4 && Outcomes(u, run) == [(t, Answer(ok))] &&
      u4 == Settled(u.(sources := u.sources[pc.key := b], entries := u.entries + 1), t, ok)
  {
    hide Taken, Fresh, Possible, After, Outcomes, Free;
    OneStep(u, Lock(t));
    var u1 := Apply(u, Lock(t));
    OneStep(u1, Load(t));
    var u2 := Apply(u1, Load(t));
    OneStep(u2, CasOk(t));
    var u3 := Apply(u2, CasOk(t));
    OneStep(u3, Insert(t));
    u4 := Apply(u3, Insert(t));
    assert u3.tasks == u.tasks[t := u3.tasks[t]];
    assert u4.tasks == Settled(u, t, Outcome(u3, Insert(t))[0].1.Ok?).tasks;
    hide Apply, Enabled, Outcome;
    Chained(u2, [CasOk(t)], [Insert(t)]);
    Chained(u1, [Load(t)], [CasOk(t)] + [Insert(t)]);
    Chained(u, [Lock(t)], [Load(t)] + ([CasOk(t)] + [Insert(t)]));
    assert [Lock(t)] + ([Load(t)] + ([CasOk(t)] + [Insert(t)])) == [Lock(t), Load(t), CasOk(t), Insert(t)];
  }

  /** A source never met before enters both tables. */
  lemma MirrorNew(s: State, kept: Table, t: Task, cap: nat)
    requires Enabled(s, Insert(t)) && s.tasks[t].key !in kept && |kept| < cap
    ensures Mirrors(s, kept, Insert(t), cap, [Lock(t), Load(t), CasOk(t), Insert(t)])
  {
    hide Taken, Fresh, Possible, After, Outcomes, CalmTasks, Free, Settled;
    var u, pc := Calm(s, kept, cap), s.tasks[t];
    var (ok, b) := Taken(New(s.lim, pc.now), pc.cost, pc.now);
    InsertIs(s, t);
    PutSize(kept, pc.key, b);
    SettledCalm(s, kept, s.sources[pc.key := b], b, t, ok, cap);
    NobodyHolds(s, kept, cap, pc.key);
    var u4 := Admission(u, t);
    NoPackets(t);
    hide Apply;
  }

  lemma NoPackets(t: Task)
    ensures Packets([Lock(t), Load(t), CasOk(t), Insert(t)]) == [] == Packets([Insert(t)])
  {
    OnlyArrivals(Lock(t));
    OnlyArrivals(Load(t));
    OnlyArrivals(CasOk(t));
    OnlyArrivals(Insert(t));
    PacketsChained([CasOk(t)], [Insert(t)]);
    PacketsChained([Load(t)], [CasOk(t)] + [Insert(t)]);
    PacketsChained([Lock(t)], [Load(t)] + ([CasOk(t)] + [Insert(t)]));
    assert [Lock(t)] + ([Load(t)] + ([CasOk(t)] + [Insert(t)])) == [Lock(t), Load(t), CasOk(t), Insert(t)];
  }

  /** Every stored source is one the table that never forgets has. */
  ghost predicate Covers(s: State, kept: Table) { EntryLocks(s) && s.sources.Keys <= kept.Keys }

  lemma CoversKept(s: State, kept: Table, a: Action)
    requires Covers(s, kept) && Enabled(s, a)
    ensures Covers(Apply(s, a), KeptAfter(s, kept, a)) && |KeptAfter(s, kept, a)| <= |kept| + 1
  {
    LocksKept(s, a);
    hide Taken, FullAt, Refunded, EntryLocks, Free, Fresh;
    if a.Insert? || a.Hit? {
      PutSize(kept, s.tasks[a.t].key, KeptAfter(s, kept, a)[s.tasks[a.t].key]);
    }
  }

  lemma MirrorStep(s: State, kept: Table, a: Action, cap: nat) returns (calm: seq<Action>)
    requires Covers(s, kept) && Enabled(s, a) && !a.GiveUp? && AlikeAt(s, kept, a) && |kept| < cap
    ensures Mirrors(s, kept, a, cap, calm)
  {
    hide Mirrors, FullAt, Free, AlikeAt;
    match a {
      case Arrive(_, _, _, _) => calm := [a]; MirrorArrive(s, kept, a, cap);
      case Hit(t) => calm := [a]; MirrorHit(s, kept, t, cap);
      case Refund(t) => calm := [a]; MirrorRefund(s, kept, t, cap);
      case Insert(t) =>
        if s.tasks[t].key in kept {
          calm := [Hit(t)];
          MirrorReturn(s, kept, t, cap);
        } else {
          calm := [Lock(t), Load(t), CasOk(t), Insert(t)];
          MirrorNew(s, kept, t, cap);
        }
      case _ => calm := []; MirrorNothing(s, kept, a, cap);
    }
  }

  lemma {:induction false} MirrorRun(s: State, kept: Table, run: seq<Action>, cap: nat) returns (calm: seq<Action>)
    requires Covers(s, kept) && Possible(s, run) && Roomy(run) && Alike(s, kept, run) && |kept| + |run| <= cap
    ensures var u := Calm(s, kept, cap);
      Possible(u, calm) && After(u, calm) == Calm(After(s, run), KeptThrough(s, kept, run), cap) &&
      Outcomes(u, calm) == Outcomes(s, run) && Packets(calm) == Packets(run) && SweepFree(calm)
    decreases |run|
  {
    if run == [] {
      calm := [];
    } else {
      var a, s', kept' := run[0], Apply(s, run[0]), KeptAfter(s, kept, run[0]);
      assert a in run;
      CoversKept(s, kept, a);
      assert Roomy(run[1..]) by { forall b | b in run[1..] ensures !b.GiveUp? { assert b in run; } }
      hide Covers, KeptAfter, AlikeAt, Apply, Enabled, Calm;
      var first := MirrorStep(s, kept, a, cap);
      var rest := MirrorRun(s', kept', run[1..], cap);
      calm := first + rest;
      assert run == [a] + run[1..];
      PacketsChained([a], run[1..]);
      PacketsChained(first, rest);
      Chained(Calm(s, kept, cap), first, rest);
    }
  }

  /** A run of the same packets on a table that never forgets and is never full, with every packet decided
      alike, the same credits admitted and the same server-wide bucket. */
  ghost predicate Undisturbed(s: State, run: seq<Action>, cap: nat, calm: seq<Action>)
    requires Possible(s, run)
  {
    var u := s.(lim := s.lim.(cap := cap));
    Possible(u, calm) && SweepFree(calm) && Packets(calm) == Packets(run) && Outcomes(u, calm) == Outcomes(s, run) &&
    After(u, calm).admitted == After(s, run).admitted && After(u, calm).global == After(s, run).global
  }

  /** Any interleaving of packets and sweeps, at any readings of the clock, in which no packet finds the
      table full and each is decided as the bucket kept for its source would decide it, is mirrored by a
      run of the same packets on a table that never forgets; that table ends as the kept one. */
  lemma AlikeIsUndisturbed(s: State, run: seq<Action>) returns (calm: seq<Action>)
    requires Init(s) && Possible(s, run) && Roomy(run) && Alike(s, map[], run)
    ensures Undisturbed(s, run, |run|, calm)
    ensures After(s.(lim := s.lim.(cap := |run|)), calm).sources == KeptThrough(s, map[], run)
  {
    hide Possible, After, Outcomes, Alike, KeptThrough;
    InitInv(s);
    assert CalmTasks(s.tasks) == map[];
    assert Calm(s, map[], |run|) == s.(lim := s.lim.(cap := |run|));
    calm := MirrorRun(s, map[], run, |run|);
  }

  // ---- The buckets forgotten ----

  ghost function GoneAfter(s: State, gone: Table, a: Action): Table
    requires Enabled(s, a)
  {
    match a
    case SweepErase(t) =>
      var key := s.tasks[t].key;
      if key in s.sources then gone[key := s.sources[key]] else gone
    case Insert(t) => gone - {s.tasks[t].key}
    case _ => gone
  }

  /** Read at this time, the bucket is the one a new source starts with. */
  predicate Renewed(b: Bucket, lim: Limits, now: Instant) { Refilled(b, now) == New(lim, now) }

  /** A source met again after being forgotten reads a time at which its old bucket is renewed. */
  ghost predicate InTime(s: State, gone: Table, a: Action)
    requires Enabled(s, a)
  {
    a.Insert? && s.tasks[a.t].key in gone ==> Renewed(gone[s.tasks[a.t].key], s.lim, s.tasks[a.t].now)
  }

  ghost predicate Timely(s: State, gone: Table, run: seq<Action>)
    requires Possible(s, run)
    decreases |run|
  {
    run == [] ||
    (InTime(s, gone, run[0]) && Timely(Apply(s, run[0]), GoneAfter(s, gone, run[0]), run[1..]))
  }

  /** The stored buckets, and behind them the forgotten ones. */
  function All(gone: Table, sources: Table): Table {
    map key | key in gone.Keys + sources.Keys :: if key in sources then sources[key] else gone[key]
  }

  lemma PutStored(gone: Table, sources: Table, key: SourceKey, b: Bucket)
    ensures All(gone, sources[key := b]) == All(gone, sources)[key := b]
  {
    var x, y := All(gone, sources[key := b]), All(gone, sources)[key := b];
    assert x.Keys == y.Keys;
    forall k | k in x ensures x[k] == y[k] {}
  }

  lemma PutReturned(gone: Table, sources: Table, key: SourceKey, b: Bucket)
    ensures All(gone - {key}, sources[key := b]) == All(gone, sources)[key := b]
  {
    var x, y := All(gone - {key}, sources[key := b]), All(gone, sources)[key := b];
    assert x.Keys == y.Keys;
    forall k | k in x ensures x[k] == y[k] {}
  }

  lemma AllAt(gone: Table, sources: Table, key: SourceKey)
    ensures key in All(gone, sources) <==> key in gone || key in sources
    ensures key in sources ==> All(gone, sources)[key] == sources[key]
    ensures key !in sources && key in gone ==> All(gone, sources)[key] == gone[key]
  {
  }

  lemma EraseStored(gone: Table, sources: Table, key: SourceKey)
    requires key in sources
    ensures All(gone[key := sources[key]], sources - {key}) == All(gone, sources)
  {
  }

  lemma RenewedTakes(b: Bucket, lim: Limits, cost: u32, now: Instant)
    requires Renewed(b, lim, now)
    ensures Taken(b, cost, now) == Taken(New(lim, now), cost, now)
  {
    assert Refilled(New(lim, now), now) == New(lim, now);
  }

  /** While returns are in time the kept table is just the stored and the forgotten buckets. */
  lemma TimelyStep(s: State, gone: Table, a: Action)
    requires EntryLocks(s) && Enabled(s, a) && InTime(s, gone, a)
    ensures AlikeAt(s, All(gone, s.sources), a)
    ensures KeptAfter(s, All(gone, s.sources), a) == All(GoneAfter(s, gone, a), Apply(s, a).sources)
  {
    hide All, Taken, FullAt, Refunded, Free, Renewed, Fresh;
    match a
    case Hit(t) =>
      var pc := s.tasks[t];
      AllAt(gone, s.sources, pc.key);
      PutStored(gone, s.sources, pc.key, Taken(s.sources[pc.key], pc.cost, pc.now).1);
    case Insert(t) =>
      var pc := s.tasks[t];
      AllAt(gone, s.sources, pc.key);
      if pc.key in gone { RenewedTakes(gone[pc.key], s.lim, pc.cost, pc.now); }
      PutReturned(gone, s.sources, pc.key, Taken(New(s.lim, pc.now), pc.cost, pc.now).1);
    case SweepErase(t) => EraseStored(gone, s.sources, s.tasks[t].key);
    case _ =>
  }

  lemma {:induction false} TimelyIsAlike(s: State, gone: Table, run: seq<Action>)
    requires EntryLocks(s) && Possible(s, run) && Timely(s, gone, run)
    ensures Alike(s, All(gone, s.sources), run)
    decreases |run|
  {
    if run != [] {
      hide EntryLocks, All, Apply, Enabled, InTime, AlikeAt, GoneAfter, KeptAfter;
      LocksKept(s, run[0]);
      TimelyStep(s, gone, run[0]);
      TimelyIsAlike(Apply(s, run[0]), GoneAfter(s, gone, run[0]), run[1..]);
    }
  }

  /** Any interleaving of packets and sweeps, in which every source met again after being forgotten
      reads a time at which its old bucket is renewed and no packet finds the table full, decides
      every packet as a run of the same packets on a table that never forgets. */
  lemma ForgettingLosesNothing(s: State, run: seq<Action>) returns (calm: seq<Action>)
    requires Init(s) && Possible(s, run) && Roomy(run) && Timely(s, map[], run)
    ensures Undisturbed(s, run, |run|, calm)
  {
    hide Possible, Undisturbed, Timely, Alike;
    InitInv(s);
    assert All(map[], s.sources) == map[];
    TimelyIsAlike(s, map[], run);
    calm := AlikeIsUndisturbed(s, run);
  }

  // ---- When readings are used in order ----

  /** The reading of the clock that a step uses on a bucket. */
  ghost function Reading(s: State, a: Action): Option<Instant>
    requires Enabled(s, a)
  {
    match a
    case Hit(t) => Some(s.tasks[t].now)
    case Insert(t) => Some(s.tasks[t].now)
    case SweepDrop(_, _, now) => Some(now)
    case _ => None
  }

  /** Buckets are read at times that never go back. */
  ghost predicate InOrder(s: State, clock: Instant, run: seq<Action>)
    requires Possible(s, run)
    decreases |run|
  {
    run == [] ||
    match Reading(s, run[0])
    case None => InOrder(Apply(s, run[0]), clock, run[1..])
    case Some(now) => clock <= now && InOrder(Apply(s, run[0]), now, run[1..])
  }

  /** Buckets are read at whole microseconds. */
  ghost predicate WholeMicros(s: State, run: seq<Action>)
    requires Possible(s, run)
    decreases |run|
  {
    run == [] ||
    ((Reading(s, run[0]).Some? ==> Reading(s, run[0]).value % 1000 == 0) && WholeMicros(Apply(s, run[0]), run[1..]))
  }

  /** Full at this time, and last read no later. */
  predicate Recovered(b: Bucket, now: Instant) { FullAt(b, now) && b.last <= now }

  /** A source met again after being forgotten reads a time at which its old bucket has recovered. */
  ghost predicate RecoveredAt(s: State, gone: Table, a: Action)
    requires Enabled(s, a)
  {
    a.Insert? && s.tasks[a.t].key in gone ==> Recovered(gone[s.tasks[a.t].key], s.tasks[a.t].now)
  }

  ghost predicate Recovering(s: State, gone: Table, run: seq<Action>)
    requires Possible(s, run)
    decreases |run|
  {
    run == [] ||
    (RecoveredAt(s, gone, run[0]) && Recovering(Apply(s, run[0]), GoneAfter(s, gone, run[0]), run[1..]))
  }

  ghost predicate ReadBy(lim: Limits, b: Bucket, clock: Instant) {
    WellFormed(b) && b.last <= clock && b.rate == lim.srcRate && b.burst == lim.srcBurst * MICRO
  }

  /** Buckets were last read by now, and those forgotten or being erased are full by now. */
  ghost predicate OrderTrue(s: State, gone: Table, clock: Instant) {
    EntryLocks(s) &&
    (forall k | k in s.sources :: ReadBy(s.lim, s.sources[k], clock)) &&
    (forall k | k in gone :: ReadBy(s.lim, gone[k], clock) && FullAt(gone[k], clock)) &&
    (forall t | t in s.tasks && s.tasks[t].Erasing? :: FullAt(s.sources[s.tasks[t].key], clock))
  }

  lemma ReadByLater(lim: Limits, b: Bucket, clock: Instant, later: Instant)
    requires ReadBy(lim, b, clock) && clock <= later
    ensures ReadBy(lim, b, later) && (FullAt(b, clock) ==> FullAt(b, later))
  {
    hide FullAt;
    if FullAt(b, clock) { FullStaysFull(b, clock, later); }
  }

  lemma ReadByTaken(lim: Limits, b: Bucket, cost: u32, clock: Instant)
    requires ReadBy(lim, b, clock)
    ensures ReadBy(lim, Taken(b, cost, clock).1, clock)
  {
    TakeIsExact(b, cost, clock);
    RefillIsExact(b, clock);
  }

  lemma OrderLater(s: State, gone: Table, clock: Instant, later: Instant)
    requires OrderTrue(s, gone, clock) && clock <= later
    ensures OrderTrue(s, gone, later)
  {
    hide ReadBy, FullAt;
    forall k | k in s.sources ensures ReadBy(s.lim, s.sources[k], later) { ReadByLater(s.lim, s.sources[k], clock, later); }
    forall k | k in gone ensures ReadBy(s.lim, gone[k], later) && FullAt(gone[k], later) {
      ReadByLater(s.lim, gone[k], clock, later);
    }
    forall t | t in s.tasks && s.tasks[t].Erasing? ensures FullAt(s.sources[s.tasks[t].key], later) {
      ReadByLater(s.lim, s.sources[s.tasks[t].key], clock, later);
    }
  }

  /** The step's own reading, if it has one, is now. */
  ghost predicate ReadsNow(s: State, a: Action, now: Instant)
    requires Enabled(s, a)
  {
    Reading(s, a).Some? ==> Reading(s, a).value == now
  }

  lemma OrderKept(s: State, gone: Table, a: Action, now: Instant)
    requires OrderTrue(s, gone, now) && Enabled(s, a) && ReadsNow(s, a, now)
    ensures OrderTrue(Apply(s, a), GoneAfter(s, gone, a), now)
  {
    LocksKept(s, a);
    if a.Hit? {
      ReadByTaken(s.lim, s.sources[s.tasks[a.t].key], s.tasks[a.t].cost, now);
    } else if a.Insert? {
      assert ReadBy(s.lim, New(s.lim, now), now);
      ReadByTaken(s.lim, New(s.lim, now), s.tasks[a.t].cost, now);
    }
    hide ReadBy, FullAt, Taken, Fresh, Refunded;
  }

  lemma OrderRecovers(s: State, gone: Table, a: Action, now: Instant)
    requires OrderTrue(s, gone, now) && Enabled(s, a) && ReadsNow(s, a, now)
    ensures RecoveredAt(s, gone, a)
  {
    hide FullAt;
  }

  /** With readings used in order, at any grain of the clock, every forgotten source has recovered when it
      is met again, whatever the interleaving. */
  lemma {:induction false} OrderIsRecovering(s: State, gone: Table, run: seq<Action>, clock: Instant)
    requires OrderTrue(s, gone, clock) && Possible(s, run) && InOrder(s, clock, run)
    ensures Recovering(s, gone, run)
    decreases |run|
  {
    if run != [] {
      var a := run[0];
      hide OrderTrue, Apply, Enabled, RecoveredAt, GoneAfter;
      var now := if Reading(s, a).Some? then Reading(s, a).value else clock;
      OrderLater(s, gone, clock, now);
      OrderKept(s, gone, a, now);
      OrderRecovers(s, gone, a, now);
      OrderIsRecovering(Apply(s, a), GoneAfter(s, gone, a), run[1..], now);
    }
  }

  lemma NothingRead(s: State)
    requires Init(s)
    ensures OrderTrue(s, map[], 0)
  {
    InitInv(s);
  }

  // ---- Whole microseconds: recovered is renewed ----

  ghost predicate Grained(table: Table) {
    forall k | k in table :: WellFormed(table[k]) && table[k].last % 1000 == 0
  }

  ghost predicate OfLimits(lim: Limits, table: Table) {
    forall k | k in table :: table[k].rate == lim.srcRate && table[k].burst == lim.srcBurst * MICRO
  }

  lemma TakenGrained(b: Bucket, cost: u32, now: Instant)
    requires WellFormed(b) && b.last % 1000 == 0
    ensures var b' := Taken(b, cost, now).1;
      WellFormed(b') && b'.last % 1000 == 0 && b'.rate == b.rate && b'.burst == b.burst
  {
    TakeIsExact(b, cost, now);
    hide Taken;
  }

  /** In whole microseconds a bucket is renewed exactly when it has recovered. */
  lemma RenewedIsRecovered(b: Bucket, lim: Limits, now: Instant)
    requires WellFormed(b) && b.rate == lim.srcRate && b.burst == lim.srcBurst * MICRO
    requires b.last % 1000 == 0 && now % 1000 == 0
    ensures Renewed(b, lim, now) <==> Recovered(b, now)
  {
    RefillIsExact(b, now);
  }

  lemma GrainedKept(s: State, gone: Table, a: Action)
    requires Enabled(s, a) && Grained(s.sources) && Grained(gone) && OfLimits(s.lim, s.sources) && OfLimits(s.lim, gone)
    requires Reading(s, a).Some? ==> Reading(s, a).value % 1000 == 0
    ensures var s', gone' := Apply(s, a), GoneAfter(s, gone, a);
      Grained(s'.sources) && Grained(gone') && OfLimits(s'.lim, s'.sources) && OfLimits(s'.lim, gone')
  {
    if a.Hit? {
      TakenGrained(s.sources[s.tasks[a.t].key], s.tasks[a.t].cost, s.tasks[a.t].now);
    } else if a.Insert? {
      TakenGrained(New(s.lim, s.tasks[a.t].now), s.tasks[a.t].cost, s.tasks[a.t].now);
    }
    hide Taken, WellFormed, FullAt, Refunded, Free;
  }

  lemma {:induction false} RecoveringIsTimely(s: State, gone: Table, run: seq<Action>)
    requires Possible(s, run) && Recovering(s, gone, run) && WholeMicros(s, run)
    requires Grained(s.sources) && Grained(gone) && OfLimits(s.lim, s.sources) && OfLimits(s.lim, gone)
    ensures Timely(s, gone, run)
    decreases |run|
  {
    if run != [] {
      var a := run[0];
      GrainedKept(s, gone, a);
      if a.Insert? && s.tasks[a.t].key in gone {
        RenewedIsRecovered(gone[s.tasks[a.t].key], s.lim, s.tasks[a.t].now);
      }
      hide Grained, OfLimits, Apply, Enabled, GoneAfter, Renewed, Recovered;
      RecoveringIsTimely(Apply(s, a), GoneAfter(s, gone, a), run[1..]);
    }
  }

  /** Packets and sweeps in any interleaving that uses its readings, in whole microseconds, in order:
      sweeping changes no packet's fate, nor the credits admitted, nor the server-wide bucket. */
  lemma SweepingIsInvisible(s: State, run: seq<Action>) returns (calm: seq<Action>)
    requires Init(s) && Possible(s, run) && Roomy(run) && InOrder(s, 0, run) && WholeMicros(s, run)
    ensures Undisturbed(s, run, |run|, calm)
  {
    hide Possible, Undisturbed, Timely, InOrder, WholeMicros, Recovering, OrderTrue;
    NothingRead(s);
    OrderIsRecovering(s, map[], run, 0);
    RecoveringIsTimely(s, map[], run);
    calm := ForgettingLosesNothing(s, run);
  }
}
