/** Hole-punch retry admission (src/admission.rs, Admission::try_retry and the drop of RetryKey) as
    atomic steps: claim the pair, take a pool permit, and give both back in either order. */
module Retries {
  import opened Common

  type Task = nat
  type Pair = (nat, nat)

  datatype Pc =
    | Claimed(pair: Pair)      // guard held, permit not yet asked for
    | Running(pair: Pair)      // guard and permit held by the retry task
    | GuardOnly(pair: Pair)    // permit gone (or refused), guard still to be dropped
    | PermitOnly               // guard dropped, permit still to be returned

  datatype State = State(cap: nat, permits: nat, pairs: set<Pair>, tasks: map<Task, Pc>)

  datatype Action =
    | Claim(t: Task, pair: Pair)
    | Coalesce(t: Task, pair: Pair)
    | Permit(t: Task)
    | Busy(t: Task)
    | DropGuard(t: Task)
    | DropPermit(t: Task)

  predicate Guards(pc: Pc) { !pc.PermitOnly? }

  function HasPermit(pc: Pc): nat { if pc.Running? || pc.PermitOnly? then 1 else 0 }

  function IsRunning(pc: Pc): nat { if pc.Running? then 1 else 0 }

  ghost predicate Enabled(s: State, a: Action) {
    match a
    case Claim(t, pair) => t !in s.tasks && pair !in s.pairs
    case Coalesce(t, pair) => t !in s.tasks && pair in s.pairs
    case Permit(t) => t in s.tasks && s.tasks[t].Claimed? && s.permits > 0
    case Busy(t) => t in s.tasks && s.tasks[t].Claimed? && s.permits == 0
    case DropGuard(t) => t in s.tasks && (s.tasks[t].Running? || s.tasks[t].GuardOnly?)
    case DropPermit(t) => t in s.tasks && HasPermit(s.tasks[t]) == 1
  }

  /** A duplicate's insert overwrites the pair with itself and hands out no guard. */
  ghost function Apply(s: State, a: Action): State
    requires Enabled(s, a)
  {
    match a
    case Claim(t, pair) => s.(pairs := s.pairs + {pair}, tasks := s.tasks[t := Claimed(pair)])
    case Coalesce(t, pair) => s.(pairs := s.pairs + {pair})
    case Permit(t) => s.(permits := s.permits - 1, tasks := s.tasks[t := Running(s.tasks[t].pair)])
    case Busy(t) => s.(tasks := s.tasks[t := GuardOnly(s.tasks[t].pair)])
    case DropGuard(t) =>
      var s' := s.(pairs := s.pairs - {s.tasks[t].pair});
      if s.tasks[t].Running? then s'.(tasks := s.tasks[t := PermitOnly]) else s'.(tasks := s.tasks - {t})
    case DropPermit(t) =>
      var s' := s.(permits := s.permits + 1);
      if s.tasks[t].Running? then s'.(tasks := s.tasks[t := GuardOnly(s.tasks[t].pair)])
      else s'.(tasks := s.tasks - {t})
  }

  ghost predicate Init(s: State) { s.permits == s.cap && s.pairs == {} && s.tasks == map[] }

  function GuardedPairs(tasks: map<Task, Pc>): set<Pair> {
    set t | t in tasks && Guards(tasks[t]) :: tasks[t].pair
  }

  ghost predicate Inv(s: State) {
    && s.pairs == GuardedPairs(s.tasks)
    && (forall t, u | t in s.tasks && u in s.tasks && t != u && Guards(s.tasks[t]) && Guards(s.tasks[u]) ::
          s.tasks[t].pair != s.tasks[u].pair)
    && s.permits + Total(s.tasks, HasPermit) == s.cap
  }

  lemma PairsKept(s: State, a: Action)
    requires Inv(s) && Enabled(s, a)
    ensures Apply(s, a).pairs == GuardedPairs(Apply(s, a).tasks)
  {
    var s' := Apply(s, a);
    forall u | u in s.tasks && u != a.t ensures u in s'.tasks && s'.tasks[u] == s.tasks[u] {}
    assert forall u | u in s'.tasks && u != a.t :: u in s.tasks;
    if a.t in s'.tasks && Guards(s'.tasks[a.t]) {
      assert s'.tasks[a.t].pair in GuardedPairs(s'.tasks);
    }
    forall p ensures p in s'.pairs <==> p in GuardedPairs(s'.tasks) {
      if p in s.pairs {
        var u :| u in s.tasks && Guards(s.tasks[u]) && s.tasks[u].pair == p;
        assert u != a.t ==> p in GuardedPairs(s'.tasks);
      }
    }
  }

  lemma StepInv(s: State, a: Action)
    requires Inv(s) && Enabled(s, a)
    ensures Inv(Apply(s, a))
  {
    PairsKept(s, a);
    if a.t in s.tasks {
      TotalSplit(s.tasks, HasPermit, a.t);
    }
    if a.t in Apply(s, a).tasks {
      TotalPut(s.tasks, HasPermit, a.t, Apply(s, a).tasks[a.t]);
    }
  }

  ghost predicate Possible(s: State, run: seq<Action>)
    decreases |run|
  {
    run == [] || (Enabled(s, run[0]) && Possible(Apply(s, run[0]), run[1..]))
  }

  ghost function After(s: State, run: seq<Action>): State
    requires Possible(s, run)
    decreases |run|
  {
    if run == [] then s else After(Apply(s, run[0]), run[1..])
  }

  lemma {:induction false} RunInv(s: State, run: seq<Action>)
    requires Inv(s) && Possible(s, run)
    ensures Inv(After(s, run)) && After(s, run).cap == s.cap
    decreases |run|
  {
    if run != [] {
      StepInv(s, run[0]);
      RunInv(Apply(s, run[0]), run[1..]);
    }
  }

  /** Under any interleaving the claimed pairs are exactly those of live guards, no pair has two,
      and the running retries never exceed the pool. */
  lemma RetryAccount(s: State, run: seq<Action>)
    requires Init(s) && Possible(s, run)
    ensures var s' := After(s, run);
      && (forall p :: p in s'.pairs <==> exists t :: t in s'.tasks && Guards(s'.tasks[t]) && s'.tasks[t].pair == p)
      && (forall t, u | t in s'.tasks && u in s'.tasks && Guards(s'.tasks[t]) && Guards(s'.tasks[u])
            && s'.tasks[t].pair == s'.tasks[u].pair :: t == u)
      && Total(s'.tasks, IsRunning) <= Total(s'.tasks, HasPermit) <= s.cap
  {
    TotalZero(s.tasks, HasPermit);
    RunInv(s, run);
    TotalMonotone(After(s, run).tasks, IsRunning, HasPermit);
  }

  /** A coalesced refusal changes nothing, and a busy one, once its guard is dropped, leaves exactly
      the pairs and permits of before the claim: other tasks' pairs stay theirs. */
  lemma RefusalsLeaveNoClaim(s: State, t: Task, pair: Pair)
    requires Inv(s) && t !in s.tasks
    ensures pair in s.pairs ==> Apply(s, Coalesce(t, pair)) == s
    ensures pair !in s.pairs && s.permits == 0 ==>
      Possible(s, [Claim(t, pair), Busy(t), DropGuard(t)]) && After(s, [Claim(t, pair), Busy(t), DropGuard(t)]) == s
  {
    if pair in s.pairs {
      assert s.pairs + {pair} == s.pairs;
    } else if s.permits == 0 {
      var s1 := Apply(s, Claim(t, pair));
      var s2 := Apply(s1, Busy(t));
      var s3 := Apply(s2, DropGuard(t));
      assert s3.tasks == s.tasks && s3.pairs == s.pairs;
      var run := [Claim(t, pair), Busy(t), DropGuard(t)];
      assert run[1..][1..] == [DropGuard(t)] && run[1..][1..][1..] == [];
      assert Possible(s3, []) && After(s3, []) == s3;
      assert Possible(s2, [DropGuard(t)]) && After(s2, [DropGuard(t)]) == s3;
      assert Possible(s1, run[1..]) && After(s1, run[1..]) == s3;
    }
  }

  /** The retries that have a permit. */
  function Permitted(tasks: map<Task, Pc>): set<Task> {
    set t | t in tasks && (tasks[t].Running? || tasks[t].PermitOnly?)
  }

  /** At every moment of every run a retry is a duplicate exactly when the guard of its pair is held, and one
      that has its pair is turned away exactly when every permit of the pool is out. */
  lemma RefusedExactlyWhenTaken(s: State, run: seq<Action>, t: Task, pair: Pair)
    requires Init(s) && Possible(s, run)
    ensures var s' := After(s, run);
      && (t !in s'.tasks ==> (Enabled(s', Coalesce(t, pair)) <==>
            exists u :: u in s'.tasks && Guards(s'.tasks[u]) && s'.tasks[u].pair == pair))
      && (t in s'.tasks && s'.tasks[t].Claimed? ==> (Enabled(s', Busy(t)) <==> |Permitted(s'.tasks)| == s.cap))
      && (t in s'.tasks && s'.tasks[t].Claimed? ==> (Enabled(s', Permit(t)) <==> |Permitted(s'.tasks)| < s.cap))
  {
    hide Possible, After;
    RetryAccount(s, run);
    TotalZero(s.tasks, HasPermit);
    RunInv(s, run);
    var s' := After(s, run);
    TotalCounts(s'.tasks, HasPermit, Permitted(s'.tasks));
  }
}
