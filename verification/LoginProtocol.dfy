/** Concurrent logins (src/admin_auth.rs, Auth::login) as atomic steps: the first lock check, the
    queue counter, the one-at-a-time mutex, the second lock check, the verdict, and the guards'
    drops. A login dropped while it waits gives its guards back without a verdict. */
module LoginProtocol {
  import opened AdminAuth
  import opened Common
  import opened Sources

  type Task = nat

  datatype Pc =
    | Admitted(ip: IpAddr)   // passed the first lock check
    | Waiting(ip: IpAddr)    // queued, the mutex not yet held
    | Holding(ip: IpAddr)    // mutex held, second lock check next
    | Verifying(ip: IpAddr)  // mutex held, hash being checked
    | Leaving(ip: IpAddr)    // mutex given up or never held, queue counter still to be lowered

  /** What an observer of failures sees. */
  datatype Event = Wrong(ip: IpAddr, at: Instant) | Forgotten(key: IpAddr)

  datatype State = State(
    clock: Instant,
    queued: nat,
    failures: Failures,
    tasks: map<Task, Pc>,
    history: seq<Event>)

  datatype Action =
    | Pass(t: Task, ip: IpAddr)
    | Refuse(t: Task, ip: IpAddr)
    | Queue(t: Task)
    | Acquire(t: Task)
    | Recheck(t: Task)
    | Right(t: Task)
    | Mistake(t: Task, victim: Option<IpAddr>)
    | Abandon(t: Task)
    | Leave(t: Task)
    | Tick(t: Task, now: Instant)

  predicate HasMutex(pc: Pc) { pc.Holding? || pc.Verifying? }

  function Mutex(pc: Pc): nat { if HasMutex(pc) then 1 else 0 }

  function Queued(pc: Pc): nat { if pc.Admitted? then 0 else 1 }

  /** Remote logins that wait for the hash or have it. */
  function RemoteCheck(pc: Pc): nat { if !pc.Admitted? && !pc.Leaving? && !pc.ip.IsLoopback() then 1 else 0 }

  ghost predicate Enabled(s: State, a: Action) {
    match a
    case Pass(t, ip) => t !in s.tasks && !Locked(s.failures, ip, s.clock)
    case Refuse(t, ip) => t !in s.tasks && Locked(s.failures, ip, s.clock)
    case Queue(t) => t in s.tasks && s.tasks[t].Admitted?
    case Acquire(t) => t in s.tasks && s.tasks[t].Waiting? && forall u | u in s.tasks :: !HasMutex(s.tasks[u])
    case Recheck(t) => t in s.tasks && s.tasks[t].Holding?
    case Right(t) => t in s.tasks && s.tasks[t].Verifying?
    case Mistake(t, victim) =>
      t in s.tasks && s.tasks[t].Verifying? && Evicts(Kept(s.failures, s.clock), FailureKey(s.tasks[t].ip), victim)
    case Abandon(t) => t in s.tasks && (s.tasks[t].Waiting? || s.tasks[t].Verifying?)
    case Leave(t) => t in s.tasks && s.tasks[t].Leaving?
    case Tick(_, now) => s.clock <= now
  }

  ghost function Apply(s: State, a: Action): State
    requires Enabled(s, a)
  {
    match a
    case Pass(t, ip) => s.(tasks := s.tasks[t := Admitted(ip)])
    case Refuse(_, _) => s
    case Queue(t) =>
      var ip := s.tasks[t].ip;
      var next := if s.queued >= MAX_QUEUED_CHECKS && !ip.IsLoopback() then Leaving(ip) else Waiting(ip);
      s.(queued := s.queued + 1, tasks := s.tasks[t := next])
    case Acquire(t) => s.(tasks := s.tasks[t := Holding(s.tasks[t].ip)])
    case Recheck(t) =>
      var ip := s.tasks[t].ip;
      s.(tasks := s.tasks[t := if Locked(s.failures, ip, s.clock) then Leaving(ip) else Verifying(ip)])
    case Right(t) =>
      var ip := s.tasks[t].ip;
      s.(failures := Cleared(s.failures, ip),
         tasks := s.tasks[t := Leaving(ip)],
         history := s.history + [Forgotten(FailureKey(ip))])
    case Mistake(t, victim) =>
      var ip := s.tasks[t].ip;
      s.(failures := Noted(s.failures, ip, s.clock, victim),
         tasks := s.tasks[t := Leaving(ip)],
         history := (if victim.Some? then s.history + [Forgotten(victim.value)] else s.history) + [Wrong(ip, s.clock)])
    case Abandon(t) => s.(tasks := s.tasks[t := Leaving(s.tasks[t].ip)])
    case Leave(t) => s.(queued := if s.queued == 0 then 0 else s.queued - 1, tasks := s.tasks - {t})
    case Tick(_, now) => s.(clock := now)
  }

  ghost predicate Init(s: State) {
    s.queued == 0 && s.failures == Failures(map[], None) && s.tasks == map[] && s.history == []
  }

  // ---- What the history says ----

  /** The times of wrong passwords from remote addresses. */
  function GlobalLog(history: seq<Event>): seq<Instant> {
    if history == [] then []
    else
      var log := GlobalLog(history[..|history| - 1]);
      match history[|history| - 1]
      case Wrong(ip, at) => if ip.IsLoopback() then log else log + [at]
      case Forgotten(_) => log
  }

  /** The times of wrong passwords under a key since its record was last evicted or cleared. */
  function KeyLog(history: seq<Event>, key: IpAddr): seq<Instant> {
    if history == [] then []
    else
      var log := KeyLog(history[..|history| - 1], key);
      match history[|history| - 1]
      case Wrong(ip, at) => if FailureKey(ip) == key then log + [at] else log
      case Forgotten(k) => if k == key then [] else log
  }

  // ---- Invariants ----

  ghost predicate CountsTrue(s: State) {
    s.queued == Total(s.tasks, Queued) && Total(s.tasks, Mutex) <= 1 && Total(s.tasks, RemoteCheck) <= MAX_QUEUED_CHECKS
  }

  /** Whoever is being verified is not locked out, now or later. */
  ghost predicate VerifiedUnlocked(s: State) {
    forall t | t in s.tasks && s.tasks[t].Verifying? :: !Locked(s.failures, s.tasks[t].ip, s.clock)
  }

  predicate LogFits(log: seq<Instant>, max: nat, clock: Instant) {
    Allowed(log, max) && (log != [] ==> log[|log| - 1] <= clock)
  }

  ghost predicate GlobalTrue(failures: Failures, history: seq<Event>, clock: Instant) {
    LogFits(GlobalLog(history), MAX_GLOBAL_FAILURES, clock) && failures.global == Folded(GlobalLog(history))
  }

  /** A record says what its log folds to; without a record the log's window has ended. */
  ghost predicate KeyTrue(failures: Failures, history: seq<Event>, clock: Instant, key: IpAddr) {
    var log := KeyLog(history, key);
    LogFits(log, MAX_FAILURES, clock) &&
    if key in failures.perKey then Folded(log) == Some(failures.perKey[key])
    else Folded(log).Some? ==> !Open(Folded(log).value, clock)
  }

  ghost predicate RecordsTrue(s: State) {
    GlobalTrue(s.failures, s.history, s.clock) && forall key :: KeyTrue(s.failures, s.history, s.clock, key)
  }

  ghost predicate Inv(s: State) {
    CountsTrue(s) && VerifiedUnlocked(s) && RecordsTrue(s) && |s.failures.perKey| <= MAX_TRACKED_ADDRESSES
  }

  lemma InitInv(s: State)
    requires Init(s)
    ensures Inv(s)
  {
    TotalZero(s.tasks, Queued);
    TotalZero(s.tasks, Mutex);
    TotalZero(s.tasks, RemoteCheck);
  }

  /** Both lock checks ask the same: has the address's key five failures in a window of ten minutes that is
      still open, or, unless it is loopback, the server fifty? */
  predicate MustWait(f: Failures, ip: IpAddr, now: Instant) {
    var key := FailureKey(ip);
    || (key in f.perKey && f.perKey[key].count >= 5 && now < f.perKey[key].start + 600_000_000_000)
    || (!ip.IsLoopback() && f.global.Some? && f.global.value.count >= 50 && now < f.global.value.start + 600_000_000_000)
  }

  /** A login enters or is refused at its first check, and is verified or sent away at its second. */
  lemma ChecksAreExact(s: State, t: Task, ip: IpAddr)
    ensures t !in s.tasks ==> (Enabled(s, Refuse(t, ip)) <==> MustWait(s.failures, ip, s.clock))
    ensures t !in s.tasks ==> (Enabled(s, Pass(t, ip)) <==> !MustWait(s.failures, ip, s.clock))
    ensures t in s.tasks && s.tasks[t] == Holding(ip) ==>
      Apply(s, Recheck(t)).tasks[t] == if MustWait(s.failures, ip, s.clock) then Leaving(ip) else Verifying(ip)
  {
    hide FailureKey;
  }

  lemma OnlyActorMoves(s: State, a: Action)
    requires Enabled(s, a)
    ensures Apply(s, a).tasks - {a.t} == s.tasks - {a.t} || (a.Tick? && Apply(s, a).tasks == s.tasks)
  {
    hide Locked, Noted, Evicts;
  }

  /** Remote logins in the check are among those queued, so one let in when fewer than the limit were
      queued is at most the last the limit allows. */
  lemma CountsKept(s: State, a: Action)
    requires CountsTrue(s) && Enabled(s, a)
    ensures CountsTrue(Apply(s, a))
  {
    hide Locked, Noted, Evicts, Kept;
    if a.Tick? || a.Refuse? {
      return;
    }
    var s' := Apply(s, a);
    OnlyActorMoves(s, a);
    TotalMoved(s.tasks, s'.tasks, a.t, Queued);
    TotalMoved(s.tasks, s'.tasks, a.t, Mutex);
    TotalMoved(s.tasks, s'.tasks, a.t, RemoteCheck);
    TotalMonotone(s.tasks, RemoteCheck, Queued);
    if a.Acquire? { TotalZero(s.tasks, Mutex); }
  }

  /** The mutex holder is alone. */
  lemma OneHolder(s: State, t: Task, u: Task)
    requires CountsTrue(s) && t in s.tasks && u in s.tasks && HasMutex(s.tasks[t]) && HasMutex(s.tasks[u])
    ensures t == u
  {
    if t != u {
      TotalSplit(s.tasks, Mutex, t);
      TotalSplit(s.tasks - {t}, Mutex, u);
    }
  }

  lemma StaysUnlocked(f: Failures, ip: IpAddr, now: Instant, later: Instant)
    requires !Locked(f, ip, now) && now <= later
    ensures !Locked(f, ip, later)
  {
  }

  lemma VerifiedKept(s: State, a: Action)
    requires CountsTrue(s) && VerifiedUnlocked(s) && Enabled(s, a)
    ensures VerifiedUnlocked(Apply(s, a))
  {
    hide Locked, Noted, Evicts, Kept, CountsTrue;
    var s' := Apply(s, a);
    forall u | u in s'.tasks && s'.tasks[u].Verifying? ensures !Locked(s'.failures, s'.tasks[u].ip, s'.clock) {
      if a.Tick? {
        StaysUnlocked(s.failures, s.tasks[u].ip, s.clock, s'.clock);
      } else if a.Right? || a.Mistake? {
        OneHolder(s, a.t, u);
      }
    }
  }

  // ---- The records stay true ----

  lemma LogNext(log: seq<Instant>, at: Instant, max: nat)
    requires LogFits(log, max, at) && !Full(Folded(log), max, at)
    ensures LogFits(log + [at], max, at) && Folded(log + [at]) == Some(Bump(Folded(log), at))
  {
    assert (log + [at])[..|log|] == log;
  }

  lemma HistoryNext(history: seq<Event>, e: Event, key: IpAddr)
    ensures GlobalLog(history + [e]) ==
      if e.Wrong? && !e.ip.IsLoopback() then GlobalLog(history) + [e.at] else GlobalLog(history)
    ensures KeyLog(history + [e], key) ==
      if e.Forgotten? then (if e.key == key then [] else KeyLog(history, key))
      else if FailureKey(e.ip) == key then KeyLog(history, key) + [e.at] else KeyLog(history, key)
  {
    hide FailureKey;
    assert (history + [e])[..|history|] == history;
  }

  lemma TickKeepsRecords(s: State, now: Instant)
    requires RecordsTrue(s) && s.clock <= now
    ensures RecordsTrue(s.(clock := now))
  {
    hide Folded, GlobalLog, KeyLog, Allowed;
    forall key ensures KeyTrue(s.failures, s.history, now, key) {
      assert KeyTrue(s.failures, s.history, s.clock, key);
    }
  }

  lemma ForgottenKeepsRecords(f: Failures, history: seq<Event>, clock: Instant, gone: IpAddr, key: IpAddr)
    requires GlobalTrue(f, history, clock) && KeyTrue(f, history, clock, key)
    ensures var g := f.(perKey := f.perKey - {gone});
      GlobalTrue(g, history + [Forgotten(gone)], clock) && KeyTrue(g, history + [Forgotten(gone)], clock, key)
  {
    hide Folded, GlobalLog, KeyLog, Allowed;
    HistoryNext(history, Forgotten(gone), key);
    NothingLogged(clock);
  }

  lemma NothingLogged(clock: Instant)
    ensures Folded([]) == None && LogFits([], MAX_FAILURES, clock)
  {
  }

  /** Dropping ended records loses nothing. */
  lemma KeptKeepsRecords(f: Failures, history: seq<Event>, clock: Instant, key: IpAddr)
    requires KeyTrue(f, history, clock, key)
    ensures KeyTrue(f.(perKey := Kept(f, clock)), history, clock, key)
  {
    hide Folded, GlobalLog, KeyLog, Allowed;
  }

  lemma WrongKeepsKey(f: Failures, room: map<IpAddr, Window>, history: seq<Event>, clock: Instant, ip: IpAddr, key: IpAddr)
    requires KeyTrue(f.(perKey := room), history, clock, key)
    requires !Locked(f, ip, clock)
    requires FailureKey(ip) in room ==> Record(f, ip) == Some(room[FailureKey(ip)])
    requires FailureKey(ip) !in room ==> Record(f, ip).Some? ==> !Open(Record(f, ip).value, clock)
    ensures var g := f.(perKey := room[FailureKey(ip) := Bump(Record(f, ip), clock)]);
      KeyTrue(g, history + [Wrong(ip, clock)], clock, key)
  {
    hide Folded, GlobalLog, KeyLog, Allowed, FailureKey;
    HistoryNext(history, Wrong(ip, clock), key);
    if FailureKey(ip) == key {
      LogNext(KeyLog(history, key), clock, MAX_FAILURES);
    }
  }

  lemma WrongKeepsGlobal(f: Failures, history: seq<Event>, clock: Instant, ip: IpAddr, perKey: map<IpAddr, Window>)
    requires GlobalTrue(f, history, clock) && !Locked(f, ip, clock)
    ensures GlobalTrue(Failures(perKey, if ip.IsLoopback() then f.global else Some(Bump(f.global, clock))),
                       history + [Wrong(ip, clock)], clock)
  {
    hide Folded, GlobalLog, KeyLog, Allowed, FailureKey;
    HistoryNext(history, Wrong(ip, clock), ip);
    if !ip.IsLoopback() {
      LogNext(GlobalLog(history), clock, MAX_GLOBAL_FAILURES);
    }
  }

  lemma MistakeKeepsKey(s: State, a: Action, key: IpAddr)
    requires a.Mistake? && RecordsTrue(s) && VerifiedUnlocked(s) && Enabled(s, a)
    ensures var s' := Apply(s, a); KeyTrue(s'.failures, s'.history, s'.clock, key)
  {
    var f, ip, clock := s.failures, s.tasks[a.t].ip, s.clock;
    var kept := Kept(f, clock);
    assert KeyTrue(f, s.history, clock, key);
    KeptKeepsRecords(f, s.history, clock, key);
    RecordKept(f, ip, clock);
    var room := if a.victim.Some? then kept - {a.victim.value} else kept;
    var history := if a.victim.Some? then s.history + [Forgotten(a.victim.value)] else s.history;
    hide Folded, GlobalLog, KeyLog, Allowed, FailureKey, Kept, Locked, Record;
    if a.victim.Some? {
      VictimIsOther(kept, FailureKey(ip), a.victim);
      ForgottenKeepsRecords(Failures(kept, f.global), s.history, clock, a.victim.value, key);
    }
    hide KeyTrue, Bump;
    WrongKeepsKey(f, room, history, clock, ip, key);
    KeyIgnoresGlobal(Noted(f, ip, clock, a.victim), f.global, history + [Wrong(ip, clock)], clock, key);
  }

  lemma VictimIsOther(kept: map<IpAddr, Window>, key: IpAddr, victim: Option<IpAddr>)
    requires Evicts(kept, key, victim) && victim.Some?
    ensures key !in kept && victim.value != key
  {
  }

  lemma RecordKept(f: Failures, ip: IpAddr, now: Instant)
    ensures FailureKey(ip) in Kept(f, now) ==> Record(f, ip) == Some(Kept(f, now)[FailureKey(ip)])
    ensures FailureKey(ip) !in Kept(f, now) && Record(f, ip).Some? ==> !Open(Record(f, ip).value, now)
  {
    hide FailureKey;
  }

  lemma KeyIgnoresGlobal(f: Failures, global: Option<Window>, history: seq<Event>, clock: Instant, key: IpAddr)
    ensures KeyTrue(f, history, clock, key) <==> KeyTrue(f.(global := global), history, clock, key)
  {
    hide Folded, KeyLog, Allowed;
  }

  lemma MistakeKeepsGlobal(s: State, a: Action)
    requires a.Mistake? && RecordsTrue(s) && VerifiedUnlocked(s) && Enabled(s, a)
    ensures var s' := Apply(s, a); GlobalTrue(s'.failures, s'.history, s'.clock)
  {
    hide Folded, GlobalLog, KeyLog, Allowed, FailureKey, Kept, Locked, Evicts, KeyTrue;
    var f, ip := s.failures, s.tasks[a.t].ip;
    var history := if a.victim.Some? then s.history + [Forgotten(a.victim.value)] else s.history;
    if a.victim.Some? { HistoryNext(s.history, Forgotten(a.victim.value), ip); }
    assert GlobalTrue(f, history, s.clock);
    WrongKeepsGlobal(f, history, s.clock, ip, Noted(f, ip, s.clock, a.victim).perKey);
  }

  lemma RecordsKept(s: State, a: Action)
    requires RecordsTrue(s) && VerifiedUnlocked(s) && Enabled(s, a)
    ensures RecordsTrue(Apply(s, a))
  {
    hide GlobalTrue, KeyTrue, Locked, Noted, Evicts, Kept;
    var s' := Apply(s, a);
    if a.Tick? {
      TickKeepsRecords(s, a.now);
    } else if a.Right? {
      forall key ensures KeyTrue(s'.failures, s'.history, s'.clock, key) {
        ForgottenKeepsRecords(s.failures, s.history, s.clock, FailureKey(s.tasks[a.t].ip), key);
      }
      ForgottenKeepsRecords(s.failures, s.history, s.clock, FailureKey(s.tasks[a.t].ip), V4(0));
    } else if a.Mistake? {
      MistakeKeepsGlobal(s, a);
      forall key ensures KeyTrue(s'.failures, s'.history, s'.clock, key) { MistakeKeepsKey(s, a, key); }
    }
  }

  lemma TrackedKept(s: State, a: Action)
    requires |s.failures.perKey| <= MAX_TRACKED_ADDRESSES && Enabled(s, a)
    ensures |Apply(s, a).failures.perKey| <= MAX_TRACKED_ADDRESSES
  {
    hide Locked;
    if a.Mistake? {
      NotedSize(s.failures, s.tasks[a.t].ip, s.clock, a.victim);
    } else if a.Right? {
      ClearedSmaller(s.failures, s.tasks[a.t].ip);
    }
  }

  lemma StepInv(s: State, a: Action)
    requires Inv(s) && Enabled(s, a)
    ensures Inv(Apply(s, a))
  {
    hide Enabled, Apply, CountsTrue, VerifiedUnlocked, RecordsTrue;
    CountsKept(s, a);
    VerifiedKept(s, a);
    RecordsKept(s, a);
    TrackedKept(s, a);
  }

  // ---- Whole runs ----

  ghost predicate Possible(s: State, run: seq<Action>)
    decreases |run|
  {
    run == [] || (Enabled(s, run[0]) && Possible(Apply(s, run[0]), run[1..]))
  }

  ghost function After(s: State, run: seq<Action>): State
    requires Possible(s, run)
    decreases |run|
  {
    if run == [] then s else After(Apply(s, run[0]), run[1..])
  }

  lemma {:induction false} RunInv(s: State, run: seq<Action>)
    requires Inv(s) && Possible(s, run)
    ensures Inv(After(s, run))
    decreases |run|
  {
    hide Enabled, Apply, Inv;
    if run != [] {
      StepInv(s, run[0]);
      RunInv(Apply(s, run[0]), run[1..]);
    }
  }

  /** Over every run: the global record never counts more than its limit, and no half-open interval of
      the window's length holds more than twice the limit less one of wrong remote passwords. */
  lemma GlobalBound(s: State, run: seq<Action>, x: int)
    requires Init(s) && Possible(s, run)
    ensures var s' := After(s, run);
      (s'.failures.global.Some? ==> s'.failures.global.value.count <= MAX_GLOBAL_FAILURES) &&
      Between(GlobalLog(s'.history), x, x + FAILURE_WINDOW) <= 2 * MAX_GLOBAL_FAILURES - 1
  {
    hide Enabled, Apply, Possible, After, CountsTrue, VerifiedUnlocked, GlobalLog, KeyTrue, Allowed, Folded;
    InitInv(s);
    RunInv(s, run);
    var log := GlobalLog(After(s, run).history);
    NothingFolded();
    if log != [] { RecordCounts(log, MAX_GLOBAL_FAILURES); }
    SlidingBound(log, MAX_GLOBAL_FAILURES, x);
  }

  lemma NothingFolded()
    ensures Folded([]) == None
  {
  }

  /** The same per key, as long as its record is neither evicted nor cleared. */
  lemma KeyBound(s: State, run: seq<Action>, key: IpAddr, x: int)
    requires Init(s) && Possible(s, run)
    ensures var s' := After(s, run);
      (key in s'.failures.perKey ==> s'.failures.perKey[key].count <= MAX_FAILURES) &&
      Between(KeyLog(s'.history, key), x, x + FAILURE_WINDOW) <= 2 * MAX_FAILURES - 1 &&
      |s'.failures.perKey| <= MAX_TRACKED_ADDRESSES
  {
    hide Enabled, Apply, Possible, After, CountsTrue, VerifiedUnlocked, KeyLog, GlobalTrue, Allowed, Folded;
    InitInv(s);
    RunInv(s, run);
    var s' := After(s, run);
    assert KeyTrue(s'.failures, s'.history, s'.clock, key);
    var log := KeyLog(s'.history, key);
    NothingFolded();
    if log != [] { RecordCounts(log, MAX_FAILURES); }
    SlidingBound(log, MAX_FAILURES, x);
  }

  function InQueue(tasks: map<Task, Pc>): set<Task> { set t | t in tasks && !tasks[t].Admitted? }

  function WithMutex(tasks: map<Task, Pc>): set<Task> { set t | t in tasks && (tasks[t].Holding? || tasks[t].Verifying?) }

  function RemoteChecks(tasks: map<Task, Pc>): set<Task> {
    set t | t in tasks && (tasks[t].Waiting? || tasks[t].Holding? || tasks[t].Verifying?) && !tasks[t].ip.IsLoopback()
  }

  /** Over every run: the queue counter is the number of logins between their queueing and their
      leaving, at most one login holds the hash, and at most four remote ones wait for it or hold it. */
  lemma QueueBound(s: State, run: seq<Action>)
    requires Init(s) && Possible(s, run)
    ensures var s' := After(s, run);
      s'.queued == |InQueue(s'.tasks)| && |WithMutex(s'.tasks)| <= 1 && |RemoteChecks(s'.tasks)| <= 4
  {
    hide Enabled, Apply, Possible, After, VerifiedUnlocked, RecordsTrue;
    InitInv(s);
    RunInv(s, run);
    var tasks := After(s, run).tasks;
    TotalCounts(tasks, Queued, InQueue(tasks));
    TotalCounts(tasks, Mutex, WithMutex(tasks));
    TotalCounts(tasks, RemoteCheck, RemoteChecks(tasks));
  }

  /** At every moment of every run a login that queues is sent away at once exactly when it is remote and at
      least four logins are queued already; otherwise it waits for the hash. */
  lemma SentAwayExactly(s: State, run: seq<Action>, t: Task)
    requires Init(s) && Possible(s, run) && t in After(s, run).tasks && After(s, run).tasks[t].Admitted?
    ensures var s', ip := After(s, run), After(s, run).tasks[t].ip;
      Apply(s', Queue(t)).tasks[t] ==
        if !ip.IsLoopback() && |InQueue(s'.tasks)| >= 4 then Leaving(ip) else Waiting(ip)
  {
    hide Possible, After, InQueue;
    QueueBound(s, run);
  }

  /** Over every run an address is held only for cause: within the last window-length of time its own key
      had at least five wrong passwords, or, unless it is loopback, remote addresses had fifty. */
  lemma LockedForCause(s: State, run: seq<Action>, ip: IpAddr)
    requires Init(s) && Possible(s, run)
    ensures var s' := After(s, run);
      var since := s'.clock - FAILURE_WINDOW + 1;
      Locked(s'.failures, ip, s'.clock) ==>
        Since(KeyLog(s'.history, FailureKey(ip)), since) >= MAX_FAILURES ||
        (!ip.IsLoopback() && Since(GlobalLog(s'.history), since) >= MAX_GLOBAL_FAILURES)
  {
    hide Enabled, Apply, Possible, After, CountsTrue, VerifiedUnlocked, KeyLog, GlobalLog, Allowed, Folded, FailureKey;
    InitInv(s);
    RunInv(s, run);
    var s' := After(s, run);
    var key := FailureKey(ip);
    assert KeyTrue(s'.failures, s'.history, s'.clock, key);
    NothingFolded();
    if key in s'.failures.perKey && Full(Some(s'.failures.perKey[key]), MAX_FAILURES, s'.clock) {
      FullForCause(KeyLog(s'.history, key), MAX_FAILURES, s'.clock);
    }
    if !ip.IsLoopback() && Full(s'.failures.global, MAX_GLOBAL_FAILURES, s'.clock) {
      FullForCause(GlobalLog(s'.history), MAX_GLOBAL_FAILURES, s'.clock);
    }
  }

  lemma FullForCause(log: seq<Instant>, max: nat, now: Instant)
    requires max >= 1 && Allowed(log, max) && Full(Folded(log), max, now)
    ensures Since(log, now - FAILURE_WINDOW + 1) >= max
  {
    NothingFolded();
    RecordCounts(log, max);
    SinceShrinks(log, now - FAILURE_WINDOW + 1, Folded(log).value.start);
  }

  /** The steps of a login with no other under way, its clock standing still. */
  function LoneLogin(t: Task, ip: IpAddr, right: bool, victim: Option<IpAddr>): seq<Action> {
    [Pass(t, ip)] + [Queue(t)] + [Acquire(t)] + [Recheck(t)] + [if right then Right(t) else Mistake(t, victim)] + [Leave(t)]
  }

  lemma OneMore(s: State, run: seq<Action>, a: Action)
    requires Possible(s, run) && Enabled(After(s, run), a)
    ensures Possible(s, run + [a]) && After(s, run + [a]) == Apply(After(s, run), a)
    decreases |run|
  {
    hide Apply, Enabled;
    if run == [] {
      assert run + [a] == [a] && [a][1..] == [];
    } else {
      OneMore(Apply(s, run[0]), run[1..], a);
      assert (run + [a])[1..] == run[1..] + [a];
    }
  }

  /** A login with no other under way is a run of the protocol, and leaves what the login object leaves. */
  lemma LoneLoginIsARun(s: State, t: Task, ip: IpAddr, right: bool, victim: Option<IpAddr>)
    requires s.tasks == map[] && s.queued == 0 && !Locked(s.failures, ip, s.clock)
    requires !right ==> Evicts(Kept(s.failures, s.clock), FailureKey(ip), victim)
    ensures var run := LoneLogin(t, ip, right, victim);
      Possible(s, run) && After(s, run).tasks == map[] && After(s, run).queued == 0 &&
      After(s, run).clock == s.clock &&
      After(s, run).failures == (if right then Cleared(s.failures, ip) else Noted(s.failures, ip, s.clock, victim)) &&
      (!right && victim.None? ==> After(s, run).history == s.history + [Wrong(ip, s.clock)])
  {
    hide Possible, After, Locked, Evicts, Kept, Noted, Cleared;
    assert Possible(s, []) && After(s, []) == s by { NoStep(s); }
    var r0: seq<Action> := [];
    OneMore(s, r0, Pass(t, ip));
    var s1, r1 := Apply(s, Pass(t, ip)), [Pass(t, ip)];
    assert r0 + [Pass(t, ip)] == r1;
    OneMore(s, r1, Queue(t));
    var s2, r2 := Apply(s1, Queue(t)), r1 + [Queue(t)];
    OneMore(s, r2, Acquire(t));
    var s3, r3 := Apply(s2, Acquire(t)), r2 + [Acquire(t)];
    OneMore(s, r3, Recheck(t));
    var s4, r4 := Apply(s3, Recheck(t)), r3 + [Recheck(t)];
    var verdict := if right then Right(t) else Mistake(t, victim);
    OneMore(s, r4, verdict);
    var s5, r5 := Apply(s4, verdict), r4 + [verdict];
    OneMore(s, r5, Leave(t));
    assert Apply(s5, Leave(t)).tasks == map[];
  }

  lemma NoStep(s: State)
    ensures Possible(s, []) && After(s, []) == s
  {
  }

  // ---- Every allowed series of failures can happen ----

  const LOOPBACK: IpAddr := V4(0x7f00_0001)

  function Fresh(): State { State(0, 0, Failures(map[], None), map[], []) }

  /** A run from the start that leaves a key's log as given. */
  ghost predicate Leaves(run: seq<Action>, key: IpAddr, log: seq<Instant>) {
    Possible(Fresh(), run) && KeyLog(After(Fresh(), run).history, key) == log
  }

  /** Nobody is logging in, and only loopback ever failed. */
  ghost predicate Quiet(s: State, log: seq<Instant>) {
    s.tasks == map[] && s.queued == 0 && s.failures.perKey.Keys <= {LOOPBACK} && KeyLog(s.history, LOOPBACK) == log &&
    s.clock == if log == [] then 0 else log[|log| - 1]
  }

  lemma {:induction false} RunsChained(s: State, run: seq<Action>, more: seq<Action>)
    requires Possible(s, run) && Possible(After(s, run), more)
    ensures Possible(s, run + more) && After(s, run + more) == After(After(s, run), more)
    decreases |run|
  {
    hide Apply, Enabled;
    if run == [] {
      assert run + more == more;
    } else {
      assert (run + more)[0] == run[0] && (run + more)[1..] == run[1..] + more;
      RunsChained(Apply(s, run[0]), run[1..], more);
    }
  }

  /** With the record not full at that time, a wrong password from loopback can come. */
  lemma OneFailure(s: State, log: seq<Instant>, at: Instant) returns (run: seq<Action>)
    requires Inv(s) && Quiet(s, log) && s.clock <= at && !Full(Folded(log), MAX_FAILURES, at)
    ensures Possible(s, run) && Inv(After(s, run)) && Quiet(After(s, run), log + [at])
  {
    hide Possible, After, CountsTrue, Allowed, Folded, KeyLog, GlobalLog, VerifiedUnlocked;
    assert KeyTrue(s.failures, s.history, s.clock, LOOPBACK);
    var tick := Tick(0, at);
    assert [] + [tick] == [tick];
    NoStep(s);
    OneMore(s, [], tick);
    var s1 := Apply(s, tick);
    LoopbackOpen(s1.failures, log, at);
    RoomForLoopback(s1.failures, at);
    LoneLoginIsARun(s1, 0, LOOPBACK, false, None);
    var login := LoneLogin(0, LOOPBACK, false, None);
    RunsChained(s, [tick], login);
    run := [tick] + login;
    HistoryNext(s.history, Wrong(LOOPBACK, at), LOOPBACK);
    hide Inv, Locked;
    RunInv(s, run);
  }

  lemma LoopbackOpen(f: Failures, log: seq<Instant>, at: Instant)
    requires !Full(Folded(log), MAX_FAILURES, at)
    requires LOOPBACK in f.perKey ==> Folded(log) == Some(f.perKey[LOOPBACK])
    ensures FailureKey(LOOPBACK) == LOOPBACK && LOOPBACK.IsLoopback() && !Locked(f, LOOPBACK, at)
  {
    hide Folded;
  }

  lemma RoomForLoopback(f: Failures, at: Instant)
    requires f.perKey.Keys <= {LOOPBACK}
    ensures Evicts(Kept(f, at), FailureKey(LOOPBACK), None)
    ensures Noted(f, LOOPBACK, at, None).perKey.Keys <= {LOOPBACK}
  {
    Fewer(Kept(f, at).Keys, {LOOPBACK});
    Keys(Kept(f, at));
  }

  lemma {:induction false} AllowedHappens(log: seq<Instant>) returns (run: seq<Action>)
    requires Allowed(log, MAX_FAILURES)
    ensures Possible(Fresh(), run) && Inv(After(Fresh(), run)) && Quiet(After(Fresh(), run), log)
  {
    if log == [] {
      run := [];
      InitInv(Fresh());
    } else {
      hide Possible, After, Inv, Quiet, Folded;
      var k := |log| - 1;
      run := AllowedHappens(log[..k]);
      ClockOf(After(Fresh(), run), log[..k]);
      assert log[..k] + [log[k]] == log;
      var more := OneFailure(After(Fresh(), run), log[..k], log[k]);
      RunsChained(Fresh(), run, more);
      run := run + more;
    }
  }

  lemma ClockOf(s: State, log: seq<Instant>)
    requires Quiet(s, log)
    ensures s.clock == if log == [] then 0 else log[|log| - 1]
  {
  }

  /** The logs that runs of logins leave under a loopback key are exactly the allowed ones. */
  lemma AllowedIsExact(log: seq<Instant>)
    ensures Allowed(log, MAX_FAILURES) <==> exists run :: Leaves(run, LOOPBACK, log)
  {
    if Allowed(log, MAX_FAILURES) {
      hide Possible, After, Inv, Allowed;
      var run := AllowedHappens(log);
      assert Leaves(run, LOOPBACK, log);
    }
    if run :| Leaves(run, LOOPBACK, log) {
      hide Possible, After, CountsTrue, VerifiedUnlocked, GlobalTrue, Allowed, KeyLog;
      InitInv(Fresh());
      RunInv(Fresh(), run);
      assert KeyTrue(After(Fresh(), run).failures, After(Fresh(), run).history, After(Fresh(), run).clock, LOOPBACK);
    }
  }

  /** Nine wrong passwords of one address within one window-length of time, in a run of logins. */
  lemma NineWrongPasswords() returns (run: seq<Action>)
    ensures var end := FAILURE_WINDOW;
      Possible(Fresh(), run) &&
      Between(KeyLog(After(Fresh(), run).history, LOOPBACK), end - 1, end - 1 + FAILURE_WINDOW) == 2 * MAX_FAILURES - 1
  {
    hide Possible, After, Inv, Allowed, KeyLog, Between;
    var end := FAILURE_WINDOW;
    NinePass();
    run := AllowedHappens([0, end - 1, end - 1, end - 1, end - 1, end, end, end, end, end]);
  }
}
