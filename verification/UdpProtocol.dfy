/** Server-wide and per-source UDP budgets (src/admission.rs, UdpBudget) as atomic steps of any
    number of receiving tasks and sweepers. A step is what the code does under one lock or in one
    atomic operation; between two steps of a task any other task may run. */
module UdpProtocol {
  import opened Common
  import opened TokenBuckets
  import opened Sources

  type Task = nat

  /** The source's cap is 32 bits wide; tables without a cap are those with a large enough one. */
  datatype Limits = Limits(cap: nat, srcRate: u32, srcBurst: u32)

  /** Where a task stands inside `check`, or a sweeper inside `retain`. A task that holds the table
      entry of its key excludes every other access to that key. */
  datatype Pc =
    | Charged(key: SourceKey, cost: u32, now: Instant)             // global credits taken
    | Locked(key: SourceKey, cost: u32, now: Instant)              // vacant entry held
    | Probing(key: SourceKey, cost: u32, now: Instant, seen: nat)  // `entries` loaded
    | Reserved(key: SourceKey, cost: u32, now: Instant)            // slot counted, not yet inserted
    | Owing(cost: u32)                                             // refused, refund outstanding
    | Erasing(key: SourceKey)                                      // slot uncounted, not yet erased

  predicate HoldsEntry(pc: Pc) { !pc.Charged? && !pc.Owing? }

  function Unsettled(pc: Pc): nat { if pc.Erasing? then 0 else pc.cost }

  datatype State = State(
    lim: Limits,
    global: Bucket,
    start: Instant,
    sources: map<SourceKey, Bucket>,
    entries: nat,
    tasks: map<Task, Pc>,
    admitted: nat)

  predicate Free(s: State, key: SourceKey) {
    forall t | t in s.tasks && HoldsEntry(s.tasks[t]) :: s.tasks[t].key != key
  }

  datatype Action =
    | Arrive(t: Task, key: SourceKey, cost: u32, now: Instant)
    | Hit(t: Task)
    | Lock(t: Task)
    | Load(t: Task)
    | GiveUp(t: Task)
    | CasOk(t: Task)
    | CasFail(t: Task)
    | Insert(t: Task)
    | Refund(t: Task)
    | SweepDrop(t: Task, key: SourceKey, now: Instant)
    | SweepErase(t: Task)

  ghost predicate Enabled(s: State, a: Action) {
    match a
    case Arrive(t, _, _, _) => t !in s.tasks
    case Hit(t) => t in s.tasks && s.tasks[t].Charged? && s.tasks[t].key in s.sources && Free(s, s.tasks[t].key)
    case Lock(t) => t in s.tasks && s.tasks[t].Charged? && s.tasks[t].key !in s.sources && Free(s, s.tasks[t].key)
    case Load(t) => t in s.tasks && s.tasks[t].Locked?
    case GiveUp(t) => t in s.tasks && s.tasks[t].Probing? && s.tasks[t].seen >= s.lim.cap
    case CasOk(t) => t in s.tasks && s.tasks[t].Probing? && s.tasks[t].seen < s.lim.cap && s.entries == s.tasks[t].seen
    case CasFail(t) => t in s.tasks && s.tasks[t].Probing? && s.tasks[t].seen < s.lim.cap
    case Insert(t) => t in s.tasks && s.tasks[t].Reserved?
    case Refund(t) => t in s.tasks && s.tasks[t].Owing?
    case SweepDrop(t, k, now) => t !in s.tasks && k in s.sources && Free(s, k) && FullAt(s.sources[k], now)
    case SweepErase(t) => t in s.tasks && s.tasks[t].Erasing?
  }

  /** The task's packet is admitted, or its refund becomes due. */
  function Settled(s: State, t: Task, ok: bool): State
    requires t in s.tasks && !s.tasks[t].Erasing?
  {
    var cost := s.tasks[t].cost;
    if ok then s.(tasks := s.tasks - {t}, admitted := s.admitted + cost)
    else s.(tasks := s.tasks[t := Owing(cost)])
  }

  ghost function Apply(s: State, a: Action): State
    requires Enabled(s, a)
  {
    match a
    case Arrive(t, key, cost, now) =>
      var (ok, g) := Taken(s.global, cost, now);
      if ok then s.(global := g, tasks := s.tasks[t := Charged(key, cost, now)]) else s.(global := g)
    case Hit(t) =>
      var pc := s.tasks[t];
      var (ok, b) := Taken(s.sources[pc.key], pc.cost, pc.now);
      Settled(s.(sources := s.sources[pc.key := b]), t, ok)
    case Lock(t) =>
      var pc := s.tasks[t];
      s.(tasks := s.tasks[t := Locked(pc.key, pc.cost, pc.now)])
    case Load(t) =>
      var pc := s.tasks[t];
      s.(tasks := s.tasks[t := Probing(pc.key, pc.cost, pc.now, s.entries)])
    case GiveUp(t) => s.(tasks := s.tasks[t := Owing(s.tasks[t].cost)])
    case CasOk(t) =>
      var pc := s.tasks[t];
      s.(entries := s.entries + 1, tasks := s.tasks[t := Reserved(pc.key, pc.cost, pc.now)])
    case CasFail(t) => s.(tasks := s.tasks[t := s.tasks[t].(seen := s.entries)])
    case Insert(t) =>
      var pc := s.tasks[t];
      var (ok, b) := Taken(Fresh(s.lim.srcRate, s.lim.srcBurst, pc.now), pc.cost, pc.now);
      Settled(s.(sources := s.sources[pc.key := b]), t, ok)
    case Refund(t) => s.(global := Refunded(s.global, s.tasks[t].cost), tasks := s.tasks - {t})
    case SweepDrop(t, k, _) =>
      s.(entries := if s.entries == 0 then U32 - 1 else s.entries - 1, tasks := s.tasks[t := Erasing(k)])
    case SweepErase(t) => s.(sources := s.sources - {s.tasks[t].key}, tasks := s.tasks - {t})
  }

  ghost predicate Init(s: State) {
    && WellFormed(s.global) && s.global.level == s.global.burst && s.global.last == s.start
    && s.sources == map[] && s.entries == 0 && s.tasks == map[] && s.admitted == 0
  }

  // ---- What every step keeps ----

  function ReservedKeys(tasks: map<Task, Pc>): set<SourceKey> {
    set t | t in tasks && tasks[t].Reserved? :: tasks[t].key
  }

  function ErasingKeys(tasks: map<Task, Pc>): set<SourceKey> {
    set t | t in tasks && tasks[t].Erasing? :: tasks[t].key
  }

  /** The table as it will be once every reservation is inserted and every release erased. */
  function Promised(s: State): set<SourceKey> {
    s.sources.Keys + ReservedKeys(s.tasks) - ErasingKeys(s.tasks)
  }

  ghost predicate EntryLocks(s: State) {
    && (forall t, u | t in s.tasks && u in s.tasks && t != u && HoldsEntry(s.tasks[t]) && HoldsEntry(s.tasks[u]) ::
          s.tasks[t].key != s.tasks[u].key)
    && (forall t | t in s.tasks && HoldsEntry(s.tasks[t]) :: s.tasks[t].key in s.sources <==> s.tasks[t].Erasing?)
  }

  ghost predicate Buckets(s: State) {
    forall k | k in s.sources ::
      && WellFormed(s.sources[k])
      && s.sources[k].rate == s.lim.srcRate && s.sources[k].burst == s.lim.srcBurst * MICRO
  }

  ghost predicate Accounted(s: State) {
    s.entries == |Promised(s)| <= s.lim.cap
  }

  /** Credits admitted for good, or taken and still to be admitted or refunded. */
  ghost function Work(s: State): nat { s.admitted + Total(s.tasks, Unsettled) }

  ghost function Committed(s: State): nat { Work(s) * MICRO + s.global.level }

  ghost predicate Conserved(s: State) {
    && WellFormed(s.global)
    && s.start <= s.global.last && (s.global.last - s.start) % 1000 == 0
    && Committed(s) <= s.global.burst + (s.global.last - s.start) / 1000 * s.global.rate
  }

  ghost predicate Inv(s: State) { EntryLocks(s) && Buckets(s) && Accounted(s) && Conserved(s) }

  lemma InitInv(s: State)
    requires Init(s)
    ensures Inv(s)
  {
    NothingPromised(s);
    TotalZero(s.tasks, Unsettled);
    hide Promised, Total;
  }

  lemma NothingPromised(s: State)
    requires s.sources == map[] && s.tasks == map[]
    ensures Promised(s) == {} && EntryLocks(s) && Buckets(s)
  {
  }

  lemma LocksKept(s: State, a: Action)
    requires EntryLocks(s) && Enabled(s, a)
    ensures EntryLocks(Apply(s, a))
  {
  }

  lemma BucketsKept(s: State, a: Action)
    requires Buckets(s) && Enabled(s, a)
    ensures Buckets(Apply(s, a))
  {
    if a.Hit? {
      var pc := s.tasks[a.t];
      TakeIsExact(s.sources[pc.key], pc.cost, pc.now);
    } else if a.Insert? {
      var pc := s.tasks[a.t];
      TakeIsExact(Fresh(s.lim.srcRate, s.lim.srcBurst, pc.now), pc.cost, pc.now);
    }
  }

  function ReservedBy(pc: Pc): set<SourceKey> { if pc.Reserved? then {pc.key} else {} }
  function ErasingBy(pc: Pc): set<SourceKey> { if pc.Erasing? then {pc.key} else {} }

  /** One task's part in the promised table, separated from everyone else's. */
  lemma OthersAnd(tasks: map<Task, Pc>, t: Task)
    requires t in tasks
    ensures ReservedKeys(tasks) == ReservedKeys(tasks - {t}) + ReservedBy(tasks[t])
    ensures ErasingKeys(tasks) == ErasingKeys(tasks - {t}) + ErasingBy(tasks[t])
  {
    var rest := tasks - {t};
    forall u | u in tasks && u != t ensures u in rest && rest[u] == tasks[u] {}
    assert ReservedKeys(tasks) <= ReservedKeys(rest) + ReservedBy(tasks[t]);
    assert ErasingKeys(tasks) <= ErasingKeys(rest) + ErasingBy(tasks[t]);
  }

  lemma MovePromised(s: State, s': State, t: Task, pc: Pc)
    requires t in s.tasks && s'.tasks == s.tasks[t := pc]
    ensures var r, e := ReservedKeys(s.tasks - {t}), ErasingKeys(s.tasks - {t});
      && Promised(s) == s.sources.Keys + (r + ReservedBy(s.tasks[t])) - (e + ErasingBy(s.tasks[t]))
      && Promised(s') == s'.sources.Keys + (r + ReservedBy(pc)) - (e + ErasingBy(pc))
  {
    OthersAnd(s.tasks, t);
    OthersAnd(s'.tasks, t);
    assert s'.tasks - {t} == s.tasks - {t};
  }

  lemma StartPromised(s: State, s': State, t: Task, pc: Pc)
    requires t !in s.tasks && s'.tasks == s.tasks[t := pc]
    ensures Promised(s') == s'.sources.Keys + (ReservedKeys(s.tasks) + ReservedBy(pc)) - (ErasingKeys(s.tasks) + ErasingBy(pc))
  {
    OthersAnd(s'.tasks, t);
    assert s'.tasks - {t} == s.tasks;
  }

  lemma EndPromised(s: State, s': State, t: Task)
    requires t in s.tasks && s'.tasks == s.tasks - {t}
    ensures var r, e := ReservedKeys(s'.tasks), ErasingKeys(s'.tasks);
      && Promised(s) == s.sources.Keys + (r + ReservedBy(s.tasks[t])) - (e + ErasingBy(s.tasks[t]))
      && Promised(s') == s'.sources.Keys + r - e
  {
    OthersAnd(s.tasks, t);
  }

  /** No other task reserves or erases a key whose entry one task holds. */
  lemma SoleHolder(s: State, t: Task)
    requires EntryLocks(s) && t in s.tasks && HoldsEntry(s.tasks[t])
    ensures s.tasks[t].key !in ReservedKeys(s.tasks - {t}) && s.tasks[t].key !in ErasingKeys(s.tasks - {t})
  {
  }

  lemma SettlePromised(s: State, key: SourceKey, b: Bucket, t: Task, ok: bool)
    requires EntryLocks(s) && t in s.tasks
    requires s.tasks[t].Reserved? || (s.tasks[t].Charged? && key in s.sources && Free(s, key))
    requires s.tasks[t].key == key
    ensures Promised(Settled(s.(sources := s.sources[key := b]), t, ok)) == Promised(s)
  {
    var s' := Settled(s.(sources := s.sources[key := b]), t, ok);
    if ok {
      EndPromised(s, s', t);
    } else {
      MovePromised(s, s', t, Owing(s.tasks[t].cost));
    }
    if s.tasks[t].Reserved? {
      SoleHolder(s, t);
    }
  }

  /** Only a won compare-and-swap enlarges the promised table, and only a sweeper shrinks it. */
  lemma PromisedKept(s: State, a: Action)
    requires EntryLocks(s) && Enabled(s, a)
    ensures var s' := Apply(s, a);
      match a
      case CasOk(t) => s.tasks[t].key !in Promised(s) && Promised(s') == Promised(s) + {s.tasks[t].key}
      case SweepDrop(_, k, _) => k in Promised(s) && Promised(s') == Promised(s) - {k}
      case _ => Promised(s') == Promised(s)
  {
    var s' := Apply(s, a);
    match a
    case Arrive(t, key, cost, now) =>
      if t in s'.tasks {
        StartPromised(s, s', t, s'.tasks[t]);
      }
    case Hit(t) =>
      var pc := s.tasks[t];
      var (ok, b) := Taken(s.sources[pc.key], pc.cost, pc.now);
      SettlePromised(s, pc.key, b, t, ok);
    case Insert(t) =>
      var pc := s.tasks[t];
      var (ok, b) := Taken(Fresh(s.lim.srcRate, s.lim.srcBurst, pc.now), pc.cost, pc.now);
      SettlePromised(s, pc.key, b, t, ok);
    case CasOk(t) =>
      SoleHolder(s, t);
      MovePromised(s, s', t, s'.tasks[t]);
    case SweepDrop(t, k, _) =>
      StartPromised(s, s', t, s'.tasks[t]);
      assert k !in ReservedKeys(s.tasks) && k !in ErasingKeys(s.tasks);
    case SweepErase(t) =>
      SoleHolder(s, t);
      EndPromised(s, s', t);
    case Refund(t) => EndPromised(s, s', t);
    case _ => MovePromised(s, s', a.t, s'.tasks[a.t]);
  }

  lemma EntriesMoves(s: State, a: Action)
    requires Enabled(s, a)
    ensures var s' := Apply(s, a);
      && s'.lim == s.lim
      && match a
         case CasOk(_) => s'.entries == s.entries + 1 <= s.lim.cap
         case SweepDrop(_, _, _) => s.entries > 0 ==> s'.entries == s.entries - 1
         case _ => s'.entries == s.entries
  {
  }

  lemma AccountKept(s: State, a: Action)
    requires EntryLocks(s) && Accounted(s) && Enabled(s, a)
    ensures Accounted(Apply(s, a))
  {
    hide Promised, EntryLocks, Apply;
    PromisedKept(s, a);
    EntriesMoves(s, a);
    match a
    case CasOk(t) => Grow(Promised(s), s.tasks[t].key);
    case SweepDrop(_, k, _) => Shrink(Promised(s), k);
    case _ =>
  }

  lemma Grow<T>(x: set<T>, k: T)
    requires k !in x
    ensures |x + {k}| == |x| + 1
  {
  }

  lemma Shrink<T>(x: set<T>, k: T)
    requires k in x
    ensures |x - {k}| == |x| - 1
  {
  }

  /** What a step does to the work and to the server-wide bucket: only an arrival refills, a refund
      gives back at most what it owed, and settling moves credits without making any. */
  lemma WorkMoves(s: State, a: Action)
    requires WellFormed(s.global) && Enabled(s, a)
    ensures var s', g := Apply(s, a), s.global;
      && WellFormed(s'.global) && s'.start == s.start
      && s'.global.rate == g.rate && s'.global.burst == g.burst
      && if a.Arrive? then
           && s'.global.last == g.last + Elapsed(g, a.now) * 1000
           && Committed(s') == Work(s) * MICRO + Min(g.level + Elapsed(g, a.now) * g.rate, g.burst)
         else
           && s'.global.last == g.last
           && Work(s') <= Work(s) && Committed(s') <= Committed(s)
  {
    var s' := Apply(s, a);
    match a
    case Arrive(t, key, cost, now) =>
      TakeIsExact(s.global, cost, now);
      TotalPut(s.tasks, Unsettled, t, Charged(key, cost, now));
    case Hit(t) => SettleMoves(s, s', t);
    case Insert(t) => SettleMoves(s, s', t);
    case Refund(t) =>
      RefundIsBounded(s.global, s.tasks[t].cost);
      TotalSplit(s.tasks, Unsettled, t);
    case SweepErase(t) => TotalSplit(s.tasks, Unsettled, t);
    case _ => TotalPut(s.tasks, Unsettled, a.t, s'.tasks[a.t]);
  }

  lemma SettleMoves(s: State, s': State, t: Task)
    requires t in s.tasks && !s.tasks[t].Erasing?
    requires exists src, ok :: s' == Settled(s.(sources := src), t, ok)
    ensures Work(s') == Work(s)
  {
    TotalSplit(s.tasks, Unsettled, t);
    TotalPut(s.tasks, Unsettled, t, Owing(s.tasks[t].cost));
  }

  lemma ConservedKept(s: State, a: Action)
    requires Conserved(s) && Enabled(s, a)
    ensures Conserved(Apply(s, a))
  {
    WorkMoves(s, a);
    hide Apply, Enabled, Work, Total;
    var s', g := Apply(s, a), s.global;
    if a.Arrive? {
      var us, before := Elapsed(g, a.now), (g.last - s.start) / 1000;
      assert (s'.global.last - s.start) / 1000 == before + us;
      Shares(before, us, g.rate);
    }
  }

  lemma StepInv(s: State, a: Action)
    requires Inv(s) && Enabled(s, a)
    ensures Inv(Apply(s, a))
  {
    LocksKept(s, a);
    BucketsKept(s, a);
    AccountKept(s, a);
    ConservedKept(s, a);
  }

  // ---- Whole runs ----

  ghost predicate Possible(s: State, run: seq<Action>)
    decreases |run|
  {
    run == [] || (Enabled(s, run[0]) && Possible(Apply(s, run[0]), run[1..]))
  }

  ghost function After(s: State, run: seq<Action>): State
    requires Possible(s, run)
    decreases |run|
  {
    if run == [] then s else After(Apply(s, run[0]), run[1..])
  }

  // ---- What a run decides ----

  datatype Refusal = Global | Source | TableFull

  type Verdict = Result<(), Refusal>

  function Answer(ok: bool): Verdict { if ok then Ok(()) else Err(Source) }

  /** The packet a step decides, if any, and how. */
  ghost function Outcome(s: State, a: Action): seq<(Task, Verdict)>
    requires Enabled(s, a)
  {
    match a
    case Arrive(t, _, cost, now) => if Taken(s.global, cost, now).0 then [] else [(t, Err(Global))]
    case Hit(t) => [(t, Answer(Taken(s.sources[s.tasks[t].key], s.tasks[t].cost, s.tasks[t].now).0))]
    case Insert(t) => [(t, Answer(Taken(New(s.lim, s.tasks[t].now), s.tasks[t].cost, s.tasks[t].now).0))]
    case GiveUp(t) => [(t, Err(TableFull))]
    case _ => []
  }

  function New(lim: Limits, now: Instant): Bucket { Fresh(lim.srcRate, lim.srcBurst, now) }

  ghost function Outcomes(s: State, run: seq<Action>): seq<(Task, Verdict)>
    requires Possible(s, run)
    decreases |run|
  {
    if run == [] then [] else Outcome(s, run[0]) + Outcomes(Apply(s, run[0]), run[1..])
  }

  lemma NoSteps(s: State)
    ensures Possible(s, []) && After(s, []) == s && Outcomes(s, []) == []
  {
  }

  lemma OneStep(u: State, a: Action)
    requires Enabled(u, a)
    ensures Possible(u, [a]) && After(u, [a]) == Apply(u, a) && Outcomes(u, [a]) == Outcome(u, a)
  {
    assert [a][1..] == [];
  }

  lemma {:induction false} Chained(u: State, run: seq<Action>, more: seq<Action>)
    requires Possible(u, run) && Possible(After(u, run), more)
    ensures Possible(u, run + more) && After(u, run + more) == After(After(u, run), more)
    ensures Outcomes(u, run + more) == Outcomes(u, run) + Outcomes(After(u, run), more)
    decreases |run|
  {
    hide Apply, Enabled, Outcome, Possible, After, Outcomes;
    NoSteps(u);
    if run == [] {
      assert run + more == more;
    } else {
      var a, rest := run[0], run[1..];
      FirstStep(u, run);
      Chained(Apply(u, a), rest, more);
      Consed(u, a, rest + more);
      assert run + more == [a] + (rest + more);
    }
  }

  lemma FirstStep(u: State, run: seq<Action>)
    requires Possible(u, run) && run != []
    ensures Enabled(u, run[0]) && Possible(Apply(u, run[0]), run[1..])
    ensures After(u, run) == After(Apply(u, run[0]), run[1..])
    ensures Outcomes(u, run) == Outcome(u, run[0]) + Outcomes(Apply(u, run[0]), run[1..])
  {
    hide Apply, Enabled, Outcome;
  }

  lemma Consed(u: State, a: Action, rest: seq<Action>)
    requires Enabled(u, a) && Possible(Apply(u, a), rest)
    ensures Possible(u, [a] + rest) && After(u, [a] + rest) == After(Apply(u, a), rest)
    ensures Outcomes(u, [a] + rest) == Outcome(u, a) + Outcomes(Apply(u, a), rest)
  {
    hide Apply, Enabled, Outcome;
    assert ([a] + rest)[1..] == rest;
  }

  lemma {:induction false} RunInv(s: State, run: seq<Action>)
    requires Inv(s) && Possible(s, run)
    ensures Inv(After(s, run))
    decreases |run|
  {
    if run != [] {
      StepInv(s, run[0]);
      RunInv(Apply(s, run[0]), run[1..]);
    }
  }

  /** Every arrival of the run reads the clock between `from` and `to`. */
  predicate Within(run: seq<Action>, from: Instant, to: Instant) {
    forall i | 0 <= i < |run| && run[i].Arrive? :: from <= run[i].now <= to
  }

  lemma {:induction false} ClockBound(s: State, run: seq<Action>, from: Instant, to: Instant)
    requires Inv(s) && Possible(s, run) && Within(run, from, to) && s.global.last <= to
    ensures s.global.last <= After(s, run).global.last <= to
    ensures After(s, run).global.rate == s.global.rate && After(s, run).global.burst == s.global.burst
    ensures After(s, run).start == s.start && After(s, run).lim == s.lim
    decreases |run|
  {
    if run != [] {
      WorkMoves(s, run[0]);
      EntriesMoves(s, run[0]);
      StepInv(s, run[0]);
      if run[0].Arrive? {
        RefillIsExact(s.global, run[0].now);
      }
      ClockBound(Apply(s, run[0]), run[1..], from, to);
    }
  }

  /** Whole-run bound: whatever the interleaving, and though refusals hand credits back later, the
      credits admitted, still unsettled and left in the bucket never exceed burst + rate x time. */
  lemma GlobalBudget(s: State, run: seq<Action>, end: Instant)
    requires Init(s) && Possible(s, run) && Within(run, 0, end) && s.start <= end
    ensures var s' := After(s, run);
      Committed(s') <= s.global.burst + (end - s.start) / 1000 * s.global.rate
  {
    hide Possible, After, Within, Committed, EntryLocks, Buckets, Accounted, WellFormed;
    InitInv(s);
    RunInv(s, run);
    ClockBound(s, run, 0, end);
    var s' := After(s, run);
    LessTime((s'.global.last - s.start) / 1000, (end - s.start) / 1000, s.global.rate);
  }

  lemma LessTime(u: nat, v: nat, rate: nat)
    requires u <= v
    ensures u * rate <= v * rate
  {
  }

  // ---- Any window of a run ----

  /** Microseconds from just before `from` to the bucket's clock, once the clock has got there. */
  function Ahead(last: Instant, from: Instant): nat
    requires last + 1000 > from
  {
    (last + 1000 - from) / 1000
  }

  /** Until the first arrival of the window no work is added; from then on the window's work is paid
      by one full bucket and by what the window's own time refills. */
  ghost predicate WindowHolds(s: State, work0: nat, from: Instant) {
    && WellFormed(s.global)
    && if s.global.last + 1000 <= from then Work(s) <= work0
       else Committed(s) <= work0 * MICRO + s.global.burst + Ahead(s.global.last, from) * s.global.rate
  }

  lemma WindowKept(s: State, a: Action, work0: nat, from: Instant)
    requires Enabled(s, a) && WindowHolds(s, work0, from)
    requires a.Arrive? ==> from <= a.now
    ensures WindowHolds(Apply(s, a), work0, from)
  {
    WorkMoves(s, a);
    hide Apply, Enabled, Work, Total, Elapsed, Ahead, Refilled;
    var s', g := Apply(s, a), s.global;
    if a.Arrive? {
      RefillIsExact(g, a.now);
      var us := Elapsed(g, a.now);
      if g.last + 1000 <= from {
        assert s'.global.last + 1000 > from;
        LessTime(0, Ahead(s'.global.last, from), g.rate);
      } else {
        AheadAdds(g.last, us, from);
        Shares(Ahead(g.last, from), us, g.rate);
      }
    }
  }

  lemma AheadAdds(last: Instant, us: nat, from: Instant)
    requires last + 1000 > from && last + us * 1000 < 1000 * U64
    ensures Ahead(last + us * 1000, from) == Ahead(last, from) + us
  {
  }

  lemma {:induction false} WindowRun(s: State, run: seq<Action>, work0: nat, from: Instant, to: Instant)
    requires Possible(s, run) && Within(run, from, to) && WindowHolds(s, work0, from)
    ensures WindowHolds(After(s, run), work0, from)
    decreases |run|
  {
    if run != [] {
      WindowKept(s, run[0], work0, from);
      WindowRun(Apply(s, run[0]), run[1..], work0, from, to);
    }
  }

  /** Per-window bound: from any reachable state on, the credits admitted while the clock reads
      `from` to `to` stay within those already taken but unsettled, one burst, and the rate times
      the window (rounded up to a whole microsecond). */
  lemma WindowBudget(s: State, run: seq<Action>, from: Instant, to: Instant)
    requires Inv(s) && Possible(s, run) && Within(run, from, to) && from <= to && s.global.last <= to
    ensures (After(s, run).admitted - s.admitted) * MICRO
      <= Total(s.tasks, Unsettled) * MICRO + s.global.burst + ((to - from) / 1000 + 1) * s.global.rate
  {
    hide Possible, After, Within, EntryLocks, Buckets, Accounted, Total;
    var work0 := Work(s);
    if s.global.last + 1000 > from {
      assert Ahead(s.global.last, from) * s.global.rate >= 0;
    }
    WindowRun(s, run, work0, from, to);
    ClockBound(s, run, from, to);
    var s' := After(s, run);
    if s'.global.last + 1000 > from {
      LessTime(Ahead(s'.global.last, from), (to - from) / 1000 + 1, s.global.rate);
    } else {
      assert ((to - from) / 1000 + 1) * s.global.rate >= 0;
    }
  }

  // ---- The source table ----

  /** The counter is exact at every moment: stored buckets, plus slots counted but not inserted,
      minus slots uncounted but not erased. It never passes the cap. */
  lemma TableAccount(s: State)
    requires Inv(s)
    ensures s.entries == |s.sources| + |ReservedKeys(s.tasks)| - |ErasingKeys(s.tasks)|
    ensures s.entries <= s.lim.cap
    ensures |s.sources| <= s.lim.cap + |ErasingKeys(s.tasks)|
  {
    var r, e := ReservedKeys(s.tasks), ErasingKeys(s.tasks);
    assert s.sources.Keys !! r && e <= s.sources.Keys by { Disjoint(s); }
    hide Conserved, Buckets, EntryLocks, ReservedKeys, ErasingKeys;
    Sizes(s.sources.Keys, r, e);
  }

  lemma Disjoint(s: State)
    requires EntryLocks(s)
    ensures s.sources.Keys !! ReservedKeys(s.tasks) && ErasingKeys(s.tasks) <= s.sources.Keys
  {
  }

  lemma Sizes<T>(x: set<T>, r: set<T>, e: set<T>)
    requires x !! r && e <= x
    ensures |x + r - e| == |x| + |r| - |e|
  {
    assert |x + r| == |x| + |r|;
    assert (x + r - e) + e == x + r;
  }

  /** At rest the counter is the table's size, within the cap; while one sweeper is between its
      decrement and the erasure the table may hold one entry more. */
  lemma TableBound(s: State)
    requires Inv(s)
    ensures (forall t | t in s.tasks :: !HoldsEntry(s.tasks[t])) ==> |s.sources| == s.entries <= s.lim.cap
    ensures (forall t, u | t in s.tasks && u in s.tasks && s.tasks[t].Erasing? && s.tasks[u].Erasing? :: t == u)
      ==> |s.sources| <= s.lim.cap + 1
  {
    TableAccount(s);
    var r, e := ReservedKeys(s.tasks), ErasingKeys(s.tasks);
    if forall t | t in s.tasks :: !HoldsEntry(s.tasks[t]) {
      assert r == {} && e == {};
    }
    if forall t, u | t in s.tasks && u in s.tasks && s.tasks[t].Erasing? && s.tasks[u].Erasing? :: t == u {
      AtMostOne(e);
    }
  }

  lemma AtMostOne(e: set<SourceKey>)
    requires forall x, y | x in e && y in e :: x == y
    ensures |e| <= 1
  {
    if x :| x in e {
      assert e == {x};
    }
  }

  /** A sweeper's release never wraps the counter below zero. */
  lemma ReleaseNeverWraps(s: State, a: Action)
    requires Inv(s) && Enabled(s, a) && a.SweepDrop?
    ensures s.entries > 0 && Apply(s, a).entries == s.entries - 1
  {
    hide Conserved, Buckets, FullAt;
    PromisedKept(s, a);
    assert Promised(s) != {};
  }

  /** The keys of the packets whose credits the server-wide budget took. */
  ghost function PaidKeys(s: State, run: seq<Action>): set<SourceKey>
    requires Possible(s, run)
    decreases |run|
  {
    if run == [] then {}
    else
      var a := run[0];
      PaidKeys(Apply(s, a), run[1..]) + if a.Arrive? && Taken(s.global, a.cost, a.now).0 then {a.key} else {}
  }

  ghost predicate KeysAmong(s: State, paid: set<SourceKey>) {
    s.sources.Keys <= paid && forall t | t in s.tasks && !s.tasks[t].Owing? :: s.tasks[t].key in paid
  }

  lemma KeysAmongKept(s: State, a: Action, paid: set<SourceKey>)
    requires Enabled(s, a) && KeysAmong(s, paid)
    ensures KeysAmong(Apply(s, a), paid + if a.Arrive? && Taken(s.global, a.cost, a.now).0 then {a.key} else {})
  {
    hide Taken, Free, FullAt, Refunded;
  }

  lemma {:induction false} KeysAmongRun(s: State, run: seq<Action>, paid: set<SourceKey>)
    requires Possible(s, run) && KeysAmong(s, paid)
    ensures After(s, run).sources.Keys <= paid + PaidKeys(s, run)
    decreases |run|
  {
    if run != [] {
      hide Apply, Enabled, KeysAmong, Taken;
      var a := run[0];
      var more := paid + if a.Arrive? && Taken(s.global, a.cost, a.now).0 then {a.key} else {};
      KeysAmongKept(s, a, paid);
      KeysAmongRun(Apply(s, a), run[1..], more);
    } else {
      assert s.sources.Keys <= paid;
    }
  }

  /** Over every run a source has an entry only if some packet of it was paid for out of the server-wide
      budget: a globally refused packet never creates one. */
  lemma EntriesArePaidFor(s: State, run: seq<Action>)
    requires Init(s) && Possible(s, run)
    ensures After(s, run).sources.Keys <= PaidKeys(s, run)
  {
    hide Possible, After, PaidKeys;
    KeysAmongRun(s, run, {});
  }
}
