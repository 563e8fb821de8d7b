/** The UDP budget object (src/admission.rs, UdpBudget::check, admit and sweep), as one task uses it, and
    its place among the runs of the protocol. */
module UdpBudgets {
  import opened Common
  import opened TokenBuckets
  import opened Sources
  import opened UdpProtocol

  /** One uninterrupted `check`, as a function of the shared state. */
  function Checked(s: State, key: SourceKey, cost: u32, now: Instant): (Verdict, State) {
    var (paid, g) := Taken(s.global, cost, now);
    if !paid then (Err(Global), s.(global := g))
    else if key in s.sources then
      var (ok, b) := Taken(s.sources[key], cost, now);
      Closed(s.(global := g, sources := s.sources[key := b]), cost, ok)
    else if s.entries >= s.lim.cap then (Err(TableFull), s.(global := Refunded(g, cost)))
    else
      var (ok, b) := Taken(Fresh(s.lim.srcRate, s.lim.srcBurst, now), cost, now);
      Closed(s.(global := g, sources := s.sources[key := b], entries := s.entries + 1), cost, ok)
  }

  function Closed(s: State, cost: u32, ok: bool): (Verdict, State) {
    if ok then (Ok(()), s.(admitted := s.admitted + cost))
    else (Err(Source), s.(global := Refunded(s.global, cost)))
  }

  function Kept(sources: map<SourceKey, Bucket>, now: Instant): map<SourceKey, Bucket> {
    map k | k in sources && !FullAt(sources[k], now) :: sources[k]
  }

  function Swept(s: State, now: Instant): State {
    var kept := Kept(s.sources, now);
    s.(sources := kept, entries := if s.entries + |kept| >= |s.sources| then s.entries + |kept| - |s.sources| else 0)
  }

  /** The budget object, as one task uses it with no other in between. */
  class UdpBudget {
    const lim: Limits
    const enforce: bool
    const v6Bits: nat
    const global: TokenBucket
    var sources: map<SourceKey, Bucket>
    var entries: nat
    var admitted: nat
    var refusedGlobal: nat
    var refusedSource: nat
    var refusedTableFull: nat
    ghost const start: Instant
    ghost var credits: nat

    /** The protocol state of a moment when nobody is inside `check`. */
    ghost function View(): State reads this, global {
      State(lim, global.State(), start, sources, entries, map[], credits)
    }

    function Refused(): nat reads this { refusedGlobal + refusedSource + refusedTableFull }

    constructor (lim: Limits, rate: u32, burst: u32, v6Bits: nat, enforce: bool, now: Instant)
      ensures Init(View()) && View().global == Fresh(rate, burst, now)
      ensures this.lim == lim && this.enforce == enforce && this.v6Bits == v6Bits
      ensures admitted == Refused() == 0 && fresh(global)
    {
      this.lim, this.enforce, this.v6Bits := lim, enforce, v6Bits;
      global := new TokenBucket(rate, burst, now);
      sources, entries := map[], 0;
      admitted, refusedGlobal, refusedSource, refusedTableFull := 0, 0, 0, 0;
      start, credits := now, 0;
    }

    method Check(key: SourceKey, cost: u32, now: Instant) returns (r: Verdict)
      modifies this`sources, this`entries, this`credits, global
      ensures (r, View()) == Checked(old(View()), key, cost, now)
    {
      var paid := global.Take(cost, now);
      if !paid {
        return Err(Global);
      }
      var ok: bool;
      if key in sources {
        var t := Taken(sources[key], cost, now);
        ok := t.0;
        sources := sources[key := t.1];
      } else {
        if entries >= lim.cap {
          global.Refund(cost);
          return Err(TableFull);
        }
        entries := entries + 1;
        var t := Taken(Fresh(lim.srcRate, lim.srcBurst, now), cost, now);
        ok := t.0;
        sources := sources[key := t.1];
      }
      if ok {
        credits := credits + cost;
        return Ok(());
      }
      global.Refund(cost);
      return Err(Source);
    }

    /** Serve the packet? In observe mode always; every refusal is counted under its reason. */
    method Admit(ip: IpAddr, cost: u32, now: Instant) returns (serve: bool)
      modifies this, global
      ensures var (r, s) := Checked(old(View()), Of(ip, v6Bits), cost, now);
        && View() == s
        && serve == (r.Ok? || !enforce)
        && admitted == old(admitted) + (if r.Ok? then 1 else 0)
        && refusedGlobal == old(refusedGlobal) + (if r == Err(Global) then 1 else 0)
        && refusedSource == old(refusedSource) + (if r == Err(Source) then 1 else 0)
        && refusedTableFull == old(refusedTableFull) + (if r == Err(TableFull) then 1 else 0)
    {
      var r := Check(Of(ip, v6Bits), cost, now);
      match r {
        case Ok(_) => admitted := admitted + 1;
        case Err(Global) => refusedGlobal := refusedGlobal + 1;
        case Err(Source) => refusedSource := refusedSource + 1;
        case Err(TableFull) => refusedTableFull := refusedTableFull + 1;
      }
      serve := r.Ok? || !enforce;
    }

    /** Drop the buckets that are full again, freeing their slots. */
    method Sweep(now: Instant) returns (dropped: nat)
      requires entries == |sources|
      modifies this`sources, this`entries
      ensures View() == Swept(old(View()), now)
      ensures entries == |sources| && dropped == |old(sources)| - |sources|
      ensures forall k :: k in sources <==> k in old(sources) && !FullAt(old(sources[k]), now)
      ensures forall k | k in sources :: k in old(sources) && sources[k] == old(sources)[k]
    {
      var before := |sources|;
      ghost var all := sources;
      var todo := sources.Keys;
      while todo != {}
        invariant todo <= sources.Keys <= all.Keys
        invariant forall k | k in sources :: sources[k] == all[k]
        invariant sources.Keys == todo + Kept(all, now).Keys
        invariant entries == |sources|
        decreases |todo|
      {
        var k :| k in todo;
        todo := todo - {k};
        if FullAt(sources[k], now) {
          entries := entries - 1;
          sources := sources - {k};
        }
      }
      assert sources == Kept(all, now);
      assert |all.Keys - sources.Keys| == |all.Keys| - |sources.Keys|;
      dropped := Max(before - |sources|, 0);
    }
  }

  /** The steps one task takes through `check` when nobody moves in between. */
  ghost function Solo(s: State, t: Task, key: SourceKey, cost: u32, now: Instant): seq<Action> {
    if !Taken(s.global, cost, now).0 then [Arrive(t, key, cost, now)]
    else if key in s.sources then
      [Arrive(t, key, cost, now)] + [Hit(t)] + (if Taken(s.sources[key], cost, now).0 then [] else [Refund(t)])
    else
      var ok := Taken(Fresh(s.lim.srcRate, s.lim.srcBurst, now), cost, now).0;
      [Arrive(t, key, cost, now)] + [Lock(t), Load(t)] +
      (if s.entries >= s.lim.cap then [GiveUp(t), Refund(t)]
       else [CasOk(t), Insert(t)] + if ok then [] else [Refund(t)])
  }

  lemma OneMore(s: State, run: seq<Action>, a: Action)
    requires Possible(s, run) && Enabled(After(s, run), a)
    ensures Possible(s, run + [a]) && After(s, run + [a]) == Apply(After(s, run), a)
    ensures Outcomes(s, run + [a]) == Outcomes(s, run) + Outcome(After(s, run), a)
  {
    OneStep(After(s, run), a);
    Chained(s, run, [a]);
  }

  /** `check` run by one task among others standing still is a run of the protocol, so everything
      proved of all its interleavings holds of the object. */
  lemma SoloIsARun(s: State, t: Task, key: SourceKey, cost: u32, now: Instant)
    requires t !in s.tasks && Free(s, key)
    ensures Possible(s, Solo(s, t, key, cost, now))
    ensures After(s, Solo(s, t, key, cost, now)) == Checked(s, key, cost, now).1
    ensures Outcomes(s, Solo(s, t, key, cost, now)) == [(t, Checked(s, key, cost, now).0)]
  {
    hide Taken, Refunded, Possible, After, Free, Outcomes;
    assert Possible(s, []) && After(s, []) == s && Outcomes(s, []) == [] by { NoSteps(s); }
    var arrive := Arrive(t, key, cost, now);
    OneMore(s, [], arrive);
    var s1 := Apply(s, arrive);
    assert [] + [arrive] == [arrive];
    if Taken(s.global, cost, now).0 {
      assert s1.tasks - {t} == s.tasks;
      FreeStill(s, t, key, Charged(key, cost, now));
      if key in s.sources {
        SoloHit(s, s1, t, [arrive]);
      } else {
        SoloMiss(s, s1, t, [arrive]);
      }
    }
  }

  lemma FreeStill(s: State, t: Task, key: SourceKey, pc: Pc)
    requires t !in s.tasks && Free(s, key) && pc.Charged?
    ensures forall s': State :: s'.tasks == s.tasks[t := pc] ==> Free(s', key)
  {
  }

  lemma SoloHit(s: State, s1: State, t: Task, run: seq<Action>)
    requires Possible(s, run) && After(s, run) == s1 && Outcomes(s, run) == []
    requires t in s1.tasks && s1.tasks[t].Charged? && s1.tasks[t].key in s1.sources && Free(s1, s1.tasks[t].key)
    ensures var pc := s1.tasks[t];
      var (ok, b) := Taken(s1.sources[pc.key], pc.cost, pc.now);
      var run' := run + [Hit(t)] + (if ok then [] else [Refund(t)]);
      && Possible(s, run')
      && After(s, run') == Closed(s1.(sources := s1.sources[pc.key := b], tasks := s1.tasks - {t}), pc.cost, ok).1
      && Outcomes(s, run') == [(t, Answer(ok))]
  {
    hide Taken, Refunded, Possible, After, Free, Outcomes;
    OneMore(s, run, Hit(t));
    var s2 := Apply(s1, Hit(t));
    if t in s2.tasks {
      OneMore(s, run + [Hit(t)], Refund(t));
      assert s2.tasks - {t} == s1.tasks - {t};
    } else {
      assert run + [Hit(t)] + [] == run + [Hit(t)];
    }
  }

  lemma SoloMiss(s: State, s1: State, t: Task, run: seq<Action>)
    requires Possible(s, run) && After(s, run) == s1 && Outcomes(s, run) == []
    requires t in s1.tasks && s1.tasks[t].Charged? && s1.tasks[t].key !in s1.sources && Free(s1, s1.tasks[t].key)
    ensures var pc := s1.tasks[t];
      var left := s1.tasks - {t};
      var (ok, b) := Taken(Fresh(s1.lim.srcRate, s1.lim.srcBurst, pc.now), pc.cost, pc.now);
      var run' := run + [Lock(t), Load(t)] +
        (if s1.entries >= s1.lim.cap then [GiveUp(t), Refund(t)]
         else [CasOk(t), Insert(t)] + if ok then [] else [Refund(t)]);
      && Possible(s, run')
      && After(s, run') ==
         (if s1.entries >= s1.lim.cap then s1.(global := Refunded(s1.global, pc.cost), tasks := left)
          else Closed(s1.(sources := s1.sources[pc.key := b], entries := s1.entries + 1, tasks := left), pc.cost, ok).1)
      && Outcomes(s, run') == [(t, if s1.entries >= s1.lim.cap then Err(TableFull) else Answer(ok))]
  {
    hide Taken, Refunded, Possible, After, Free, Outcomes;
    var pc, left := s1.tasks[t], s1.tasks - {t};
    OneMore(s, run, Lock(t));
    var s2 := Apply(s1, Lock(t));
    OneMore(s, run + [Lock(t)], Load(t));
    var s3 := Apply(s2, Load(t));
    var r3 := run + [Lock(t), Load(t)];
    assert run + [Lock(t)] + [Load(t)] == r3;
    if s1.entries >= s1.lim.cap {
      OneMore(s, r3, GiveUp(t));
      var s4 := Apply(s3, GiveUp(t));
      OneMore(s, r3 + [GiveUp(t)], Refund(t));
      assert r3 + [GiveUp(t)] + [Refund(t)] == r3 + [GiveUp(t), Refund(t)];
      assert s4.tasks - {t} == left;
    } else {
      OneMore(s, r3, CasOk(t));
      var s4 := Apply(s3, CasOk(t));
      OneMore(s, r3 + [CasOk(t)], Insert(t));
      var s5 := Apply(s4, Insert(t));
      var r5 := r3 + [CasOk(t), Insert(t)];
      assert r3 + [CasOk(t)] + [Insert(t)] == r5;
      assert s4.tasks - {t} == left;
      if t in s5.tasks {
        OneMore(s, r5, Refund(t));
        assert r5 + [Refund(t)] == r3 + ([CasOk(t), Insert(t)] + [Refund(t)]);
        assert s5.tasks - {t} == left;
      } else {
        assert r5 == r3 + ([CasOk(t), Insert(t)] + []);
      }
    }
  }
}
