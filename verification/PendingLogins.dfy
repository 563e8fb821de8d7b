/** Pending-login shares (src/admission.rs, Admission::try_pending and the drop of SourceShare) as
    atomic steps. A source's share is taken under its map entry, a pool permit in one operation;
    giving a share back takes two steps, the decrement and the removal of a zero entry. */
module PendingLogins {
  import opened Common
  import opened Sources

  type Task = nat

  datatype Pc =
    | Over(key: IpAddr)          // refused per source; a zero entry may remain to be removed
    | Shared(key: IpAddr)        // share taken, permit not yet asked for
    | Live(key: IpAddr)          // PendingLogin with a share and a permit
    | LiveLoopback               // PendingLogin of a loopback address: a permit only
    | Returning(key: IpAddr)     // share held, permit gone or never had: decrement next
    | Cleaning(key: IpAddr)      // decremented: removal of a zero entry next

  datatype State = State(
    limit: nat,
    cap: nat,
    permits: nat,
    perSource: map<IpAddr, nat>,
    tasks: map<Task, Pc>)

  datatype Action =
    | Share(t: Task, key: IpAddr)
    | Refuse(t: Task, key: IpAddr)
    | Permit(t: Task)
    | NoPermit(t: Task)
    | PermitLoopback(t: Task)
    | Drop(t: Task)
    | Decrement(t: Task)
    | Clean(t: Task)

  ghost predicate Enabled(s: State, a: Action) {
    match a
    case Share(t, key) => t !in s.tasks && CountAt(s.perSource, key) < s.limit
    case Refuse(t, key) => t !in s.tasks && CountAt(s.perSource, key) >= s.limit
    case Permit(t) => t in s.tasks && s.tasks[t].Shared? && s.permits > 0
    case NoPermit(t) => t in s.tasks && s.tasks[t].Shared? && s.permits == 0
    case PermitLoopback(t) => t !in s.tasks && s.permits > 0
    case Drop(t) => t in s.tasks && (s.tasks[t].Live? || s.tasks[t].LiveLoopback?)
    case Decrement(t) => t in s.tasks && s.tasks[t].Returning?
    case Clean(t) => t in s.tasks && (s.tasks[t].Over? || s.tasks[t].Cleaning?)
  }

  /** `entry(key).or_insert(0)` materialises the counter even when the source is then refused. */
  ghost function Apply(s: State, a: Action): State
    requires Enabled(s, a)
  {
    match a
    case Share(t, key) =>
      s.(perSource := s.perSource[key := CountAt(s.perSource, key) + 1], tasks := s.tasks[t := Shared(key)])
    case Refuse(t, key) =>
      s.(perSource := s.perSource[key := CountAt(s.perSource, key)], tasks := s.tasks[t := Over(key)])
    case Permit(t) => s.(permits := s.permits - 1, tasks := s.tasks[t := Live(s.tasks[t].key)])
    case NoPermit(t) => s.(tasks := s.tasks[t := Returning(s.tasks[t].key)])
    case PermitLoopback(t) => s.(permits := s.permits - 1, tasks := s.tasks[t := LiveLoopback])
    case Drop(t) =>
      var s' := s.(permits := s.permits + 1);
      if s.tasks[t].Live? then s'.(tasks := s.tasks[t := Returning(s.tasks[t].key)])
      else s'.(tasks := s.tasks - {t})
    case Decrement(t) =>
      var key := s.tasks[t].key;
      var s' := s.(tasks := s.tasks[t := Cleaning(key)]);
      if key in s.perSource
      then s'.(perSource := s.perSource[key := if s.perSource[key] == 0 then 0 else s.perSource[key] - 1])
      else s'
    case Clean(t) =>
      var key := s.tasks[t].key;
      var s' := s.(tasks := s.tasks - {t});
      if CountAt(s.perSource, key) == 0 then s'.(perSource := s.perSource - {key}) else s'
  }

  ghost predicate Init(s: State) { s.permits == s.cap && s.perSource == map[] && s.tasks == map[] }

  // Weights: does a task hold a share of a source, or a pool permit?

  function HoldsShare(key: IpAddr): Pc -> nat {
    (pc: Pc) => if (pc.Shared? || pc.Live? || pc.Returning?) && pc.key == key then 1 else 0
  }

  function HoldsPermit(pc: Pc): nat { if pc.Live? || pc.LiveLoopback? then 1 else 0 }

  ghost predicate SharesTrue(s: State) {
    forall key :: CountAt(s.perSource, key) == Total(s.tasks, HoldsShare(key)) <= s.limit
  }

  ghost predicate PermitsTrue(s: State) { s.permits + Total(s.tasks, HoldsPermit) == s.cap }

  /** A zero entry is there only while some task is about to remove it. */
  ghost predicate ZerosPassing(s: State) {
    forall key | key in s.perSource && s.perSource[key] == 0 ::
      exists t :: t in s.tasks && (s.tasks[t] == Over(key) || s.tasks[t] == Cleaning(key))
  }

  ghost predicate Inv(s: State) { SharesTrue(s) && PermitsTrue(s) && ZerosPassing(s) }

  lemma InitInv(s: State)
    requires Init(s)
    ensures Inv(s)
  {
    forall key ensures Total(s.tasks, HoldsShare(key)) == 0 { TotalZero(s.tasks, HoldsShare(key)); }
    TotalZero(s.tasks, HoldsPermit);
  }

  lemma OnlyActorMoves(s: State, a: Action)
    requires Enabled(s, a)
    ensures Apply(s, a).tasks - {a.t} == s.tasks - {a.t}
  {
  }

  /** A returning task's own share is among those counted, so the decrement never saturates. */
  lemma DecrementHasOne(s: State, t: Task)
    requires SharesTrue(s) && t in s.tasks && s.tasks[t].Returning?
    ensures s.tasks[t].key in s.perSource && s.perSource[s.tasks[t].key] > 0
  {
    TotalSplit(s.tasks, HoldsShare(s.tasks[t].key), t);
    assert CountAt(s.perSource, s.tasks[t].key) == Total(s.tasks, HoldsShare(s.tasks[t].key));
  }

  lemma SharesKept(s: State, a: Action, key: IpAddr)
    requires SharesTrue(s) && Enabled(s, a)
    ensures CountAt(Apply(s, a).perSource, key) == Total(Apply(s, a).tasks, HoldsShare(key)) <= s.limit
  {
    OnlyActorMoves(s, a);
    if a.Decrement? {
      DecrementHasOne(s, a.t);
    }
    TotalMoved(s.tasks, Apply(s, a).tasks, a.t, HoldsShare(key));
    assert CountAt(s.perSource, key) == Total(s.tasks, HoldsShare(key)) <= s.limit;
    hide SharesTrue;
  }

  lemma PermitsKept(s: State, a: Action)
    requires PermitsTrue(s) && Enabled(s, a)
    ensures PermitsTrue(Apply(s, a)) && Apply(s, a).limit == s.limit
  {
    OnlyActorMoves(s, a);
    TotalMoved(s.tasks, Apply(s, a).tasks, a.t, HoldsPermit);
  }

  lemma StepInv(s: State, a: Action)
    requires Inv(s) && Enabled(s, a)
    ensures Inv(Apply(s, a))
  {
    PermitsKept(s, a);
    ZerosKept(s, a);
    forall key ensures CountAt(Apply(s, a).perSource, key) == Total(Apply(s, a).tasks, HoldsShare(key)) <= s.limit {
      SharesKept(s, a, key);
    }
    hide Apply, Enabled, ZerosPassing, PermitsTrue;
  }

  lemma ZerosKept(s: State, a: Action)
    requires SharesTrue(s) && ZerosPassing(s) && Enabled(s, a)
    ensures ZerosPassing(Apply(s, a))
  {
    var s' := Apply(s, a);
    forall key | key in s'.perSource && s'.perSource[key] == 0
      ensures exists t :: t in s'.tasks && (s'.tasks[t] == Over(key) || s'.tasks[t] == Cleaning(key))
    {
      if a.Decrement? && key == s.tasks[a.t].key {
        assert s'.tasks[a.t] == Cleaning(key);
      } else if a.Refuse? && key == a.key {
        assert s'.tasks[a.t] == Over(key);
      } else {
        var t :| t in s.tasks && (s.tasks[t] == Over(key) || s.tasks[t] == Cleaning(key));
        assert t in s'.tasks && s'.tasks[t] == s.tasks[t];
      }
    }
  }

  ghost predicate Possible(s: State, run: seq<Action>)
    decreases |run|
  {
    run == [] || (Enabled(s, run[0]) && Possible(Apply(s, run[0]), run[1..]))
  }

  ghost function After(s: State, run: seq<Action>): State
    requires Possible(s, run)
    decreases |run|
  {
    if run == [] then s else After(Apply(s, run[0]), run[1..])
  }

  lemma {:induction false} RunInv(s: State, run: seq<Action>)
    requires Inv(s) && Possible(s, run)
    ensures Inv(After(s, run)) && After(s, run).limit == s.limit && After(s, run).cap == s.cap
    decreases |run|
  {
    if run != [] {
      StepInv(s, run[0]);
      RunInv(Apply(s, run[0]), run[1..]);
    }
  }

  function LiveShare(pc: Pc): nat { if pc.Live? then 1 else 0 }
  function LiveLoop(pc: Pc): nat { if pc.LiveLoopback? then 1 else 0 }
  function Identity(n: nat): nat { n }

  ghost predicate AtRest(s: State) {
    forall t | t in s.tasks :: s.tasks[t].Live? || s.tasks[t].LiveLoopback?
  }

  /** Whatever the interleaving: no source passes its limit and the pool is never overdrawn; once no
      task is inside `try_pending` or a drop, every entry is a positive count of live logins, and
      the permits in use are the live shares of all sources plus the loopback logins. */
  lemma PendingAccount(s: State, run: seq<Action>)
    requires Init(s) && Possible(s, run)
    ensures var s' := After(s, run);
      && (forall key :: CountAt(s'.perSource, key) <= s.limit)
      && Total(s'.tasks, HoldsPermit) <= s.cap
      && (AtRest(s') ==>
            && (forall key | key in s'.perSource :: s'.perSource[key] > 0)
            && s.cap - s'.permits == Total(s'.perSource, Identity) + Total(s'.tasks, LiveLoop))
  {
    InitInv(s);
    RunInv(s, run);
    var s' := After(s, run);
    if AtRest(s') {
      PermitsSplit(s'.tasks);
      SumOfShares(s'.perSource, s'.tasks);
    }
  }

  lemma {:induction false} PermitsSplit(tasks: map<Task, Pc>)
    ensures Total(tasks, HoldsPermit) == Total(tasks, LiveShare) + Total(tasks, LiveLoop)
    decreases |tasks|
  {
    if tasks != map[] {
      var t := AnyKey(tasks);
      PermitsSplit(tasks - {t});
    }
  }

  /** Counting shares source by source or login by login gives the same number. */
  lemma {:induction false} SumOfShares(counts: map<IpAddr, nat>, tasks: map<Task, Pc>)
    requires forall t | t in tasks :: tasks[t].Live? || tasks[t].LiveLoopback?
    requires forall key :: CountAt(counts, key) == Total(tasks, HoldsShare(key))
    ensures Total(counts, Identity) == Total(tasks, LiveShare)
    decreases |tasks|
  {
    if tasks == map[] {
      forall key | key in counts ensures counts[key] == 0 {
        TotalZero(tasks, HoldsShare(key));
        assert CountAt(counts, key) == Total(tasks, HoldsShare(key));
      }
      TotalZero(counts, Identity);
    } else {
      var t := AnyKey(tasks);
      var rest := tasks - {t};
      if tasks[t].Live? {
        var k := tasks[t].key;
        assert CountAt(counts, k) == 1 + Total(rest, HoldsShare(k));
        var counts' := counts[k := counts[k] - 1];
        forall key ensures CountAt(counts', key) == Total(rest, HoldsShare(key)) {
          assert CountAt(counts, key) == Total(tasks, HoldsShare(key));
        }
        SumOfShares(counts', rest);
        TotalPut(counts, Identity, k, counts[k] - 1);
      } else {
        forall key ensures CountAt(counts, key) == Total(rest, HoldsShare(key)) {
          assert CountAt(counts, key) == Total(tasks, HoldsShare(key));
        }
        SumOfShares(counts, rest);
      }
    }
  }

  /** The logins that hold a share of a source. */
  function SharesOf(tasks: map<Task, Pc>, key: IpAddr): set<Task> {
    set t | t in tasks && tasks[t] in {Shared(key), Live(key), Returning(key)}
  }

  /** The pending logins of the whole server. */
  function Pending(tasks: map<Task, Pc>): set<Task> { set t | t in tasks && (tasks[t].Live? || tasks[t].LiveLoopback?) }

  /** At every moment of every run a new login of a source is refused exactly when as many logins hold a share
      of that source as the limit allows, and one that has a share is refused a permit exactly when as many
      logins are pending as the pool has permits. */
  lemma RefusedExactlyWhenFull(s: State, run: seq<Action>, t: Task, key: IpAddr)
    requires Init(s) && Possible(s, run)
    ensures var s' := After(s, run);
      && (t !in s'.tasks ==> (Enabled(s', Refuse(t, key)) <==> |SharesOf(s'.tasks, key)| >= s.limit))
      && (t !in s'.tasks ==> (Enabled(s', Share(t, key)) <==> |SharesOf(s'.tasks, key)| < s.limit))
      && (t in s'.tasks && s'.tasks[t].Shared? ==> (Enabled(s', NoPermit(t)) <==> |Pending(s'.tasks)| == s.cap))
      && (t in s'.tasks && s'.tasks[t].Shared? ==> (Enabled(s', Permit(t)) <==> |Pending(s'.tasks)| < s.cap))
  {
    hide Possible, After;
    InitInv(s);
    RunInv(s, run);
    var s' := After(s, run);
    TotalCounts(s'.tasks, HoldsShare(key), SharesOf(s'.tasks, key));
    TotalCounts(s'.tasks, HoldsPermit, Pending(s'.tasks));
  }
}
