/** The supervisor of the gossip seed loops (src/main.rs): one reconciliation a minute of the running
    loops with the configured list, with a set of seeds given up on. */
module Seeds {
  import opened Common

  type Addr = nat

  datatype Status = Live | Finished | Aborted

  /** A spawned task; a join handle is its index among all tasks ever spawned. */
  datatype Loop = Loop(addr: Addr, status: Status)

  datatype State = State(
    running: map<Addr, nat>,
    givenUp: set<Addr>,
    prevDesired: set<Addr>,
    loops: seq<Loop>)

  /** Aborting a task that has ended changes nothing. */
  function Abort(l: Loop): Loop { if l.status == Live then l.(status := Aborted) else l }

  // ---- One tick, as it must come out ----

  ghost predicate HandlesTrue(running: map<Addr, nat>, loops: seq<Loop>) {
    forall a | a in running :: running[a] < |loops| && loops[running[a]].addr == a
  }

  /** The seeds whose loop ended on its own. */
  function Ended(running: map<Addr, nat>, loops: seq<Loop>, desired: set<Addr>): set<Addr>
    requires HandlesTrue(running, loops)
  {
    set a | a in running && a in desired && loops[running[a]].status == Finished
  }

  function GivenUpAfter(s: State, desired: set<Addr>): set<Addr>
    requires HandlesTrue(s.running, s.loops)
  {
    (if desired != s.prevDesired then {} else s.givenUp) + Ended(s.running, s.loops, desired)
  }

  /** The old tasks once those of some seeds have been aborted. */
  function Stopped(running: map<Addr, nat>, loops: seq<Loop>, gone: set<Addr>): (after: seq<Loop>)
    ensures |after| == |loops|
  {
    seq(|loops|, id requires 0 <= id < |loops| =>
      var l := loops[id];
      if l.addr in gone && l.addr in running && running[l.addr] == id then Abort(l) else l)
  }

  /** Exactly the new handles are new tasks, each live. */
  ghost predicate StartedFrom(first: nat, kept: map<Addr, nat>, running: map<Addr, nat>, loops: seq<Loop>) {
    first <= |loops| &&
    (forall a | a in kept :: a in running && running[a] == kept[a]) &&
    (forall a | a in running && a !in kept :: first <= running[a] < |loops| && loops[running[a]] == Loop(a, Live)) &&
    forall id | first <= id < |loops| :: loops[id].addr in running && loops[id].addr !in kept && running[loops[id].addr] == id
  }

  function StillRunning(running: map<Addr, nat>, loops: seq<Loop>, desired: set<Addr>): map<Addr, nat>
    requires HandlesTrue(running, loops)
  {
    map a | a in running && a in desired && loops[running[a]].status != Finished :: running[a]
  }

  ghost predicate Ticked(s: State, s': State, desired: set<Addr>)
    requires HandlesTrue(s.running, s.loops)
  {
    s'.prevDesired == desired &&
    s'.givenUp == GivenUpAfter(s, desired) &&
    s'.running.Keys == StillRunning(s.running, s.loops, desired).Keys + (desired - s'.givenUp) &&
    |s.loops| <= |s'.loops| &&
    s'.loops[..|s.loops|] == Stopped(s.running, s.loops, s.running.Keys - desired) &&
    StartedFrom(|s.loops|, StillRunning(s.running, s.loops, desired), s'.running, s'.loops)
  }

  class Supervisor {
    var running: map<Addr, nat>
    var givenUp: set<Addr>
    var prevDesired: set<Addr>
    var loops: seq<Loop>

    function Current(): State
      reads this
    {
      State(running, givenUp, prevDesired, loops)
    }

    constructor ()
      ensures Current() == State(map[], {}, {}, [])
    {
      running := map[];
      givenUp := {};
      prevDesired := {};
      loops := [];
    }

    method Tick(desired: set<Addr>)
      requires HandlesTrue(running, loops)
      modifies this
      ensures Ticked(old(Current()), Current(), desired)
    {
      hide Stopped, StillRunning, Ended, HandlesTrue, StartedFrom;
      ghost var before := Current();
      if desired != prevDesired {
        givenUp := {};
        prevDesired := desired;
      }
      Retain(desired);
      ghost var kept, stopped := running, loops;
      NoneStarted(running, loops);
      var rest := desired;
      while rest != {}
        invariant rest <= desired
        invariant givenUp == GivenUpAfter(before, desired) && prevDesired == desired
        invariant running.Keys == kept.Keys + ((desired - rest) - givenUp)
        invariant |stopped| <= |loops| && loops[..|stopped|] == stopped
        invariant StartedFrom(|stopped|, kept, running, loops)
        decreases |rest|
      {
        var addr :| addr in rest;
        rest := rest - {addr};
        if addr !in givenUp {
          if addr !in running {
            OneStarted(|stopped|, kept, running, loops, addr);
            running := running[addr := |loops|];
            loops := loops + [Loop(addr, Live)];
          }
        }
      }
    }

    /** Keep the loops that are wanted and have not ended; abort the unwanted. */
    method Retain(desired: set<Addr>)
      requires HandlesTrue(running, loops)
      modifies `running, `givenUp, `loops
      ensures running == StillRunning(old(running), old(loops), desired)
      ensures givenUp == old(givenUp) + Ended(old(running), old(loops), desired)
      ensures loops == Stopped(old(running), old(loops), old(running).Keys - desired)
    {
      hide Abort, Stopped, HalfRetained, Ended, EndedSofar, StillRunning, HandlesTrue, Current;
      ghost var s := State(running, givenUp, prevDesired, loops);
      var rest := running.Keys;
      NothingDone(s, desired);
      while rest != {}
        invariant rest <= s.running.Keys
        invariant running == HalfRetained(s, desired, rest)
        invariant givenUp == s.givenUp + EndedSofar(s, desired, rest)
        invariant loops == Stopped(s.running, s.loops, s.running.Keys - rest - desired)
        decreases |rest|
      {
        var addr :| addr in rest;
        Untouched(s, desired, rest, addr);
        RetainOne(s, desired, rest, addr);
        EndedOne(s, desired, rest, addr);
        StopOne(s, desired, rest, addr);
        rest := rest - {addr};
        if addr !in desired {
          loops := loops[running[addr] := Abort(loops[running[addr]])];
          running := running - {addr};
        } else if loops[running[addr]].status == Finished {
          givenUp := givenUp + {addr};
          running := running - {addr};
        }
      }
      AllDone(s, desired);
    }
  }

  // ---- Starting loops ----

  lemma NoneStarted(running: map<Addr, nat>, loops: seq<Loop>)
    ensures StartedFrom(|loops|, running, running, loops)
  {
  }

  lemma OneStarted(first: nat, kept: map<Addr, nat>, running: map<Addr, nat>, loops: seq<Loop>, addr: Addr)
    requires StartedFrom(first, kept, running, loops) && addr !in running
    ensures StartedFrom(first, kept, running[addr := |loops|], loops + [Loop(addr, Live)])
  {
  }

  // ---- The retaining loop, one seed at a time ----

  ghost function HalfRetained(s: State, desired: set<Addr>, rest: set<Addr>): map<Addr, nat>
    requires HandlesTrue(s.running, s.loops)
  {
    map a | a in s.running && (a in rest || a in StillRunning(s.running, s.loops, desired)) :: s.running[a]
  }

  ghost function EndedSofar(s: State, desired: set<Addr>, rest: set<Addr>): set<Addr>
    requires HandlesTrue(s.running, s.loops)
  {
    Ended(s.running, s.loops, desired) - rest
  }

  lemma NothingDone(s: State, desired: set<Addr>)
    requires HandlesTrue(s.running, s.loops)
    ensures HalfRetained(s, desired, s.running.Keys) == s.running
    ensures EndedSofar(s, desired, s.running.Keys) == {}
    ensures Stopped(s.running, s.loops, s.running.Keys - s.running.Keys - desired) == s.loops
  {
  }

  lemma AllDone(s: State, desired: set<Addr>)
    requires HandlesTrue(s.running, s.loops)
    ensures HalfRetained(s, desired, {}) == StillRunning(s.running, s.loops, desired)
    ensures EndedSofar(s, desired, {}) == Ended(s.running, s.loops, desired)
    ensures s.running.Keys - {} - desired == s.running.Keys - desired
  {
  }

  lemma Untouched(s: State, desired: set<Addr>, rest: set<Addr>, addr: Addr)
    requires HandlesTrue(s.running, s.loops) && addr in rest && rest <= s.running.Keys
    ensures addr in HalfRetained(s, desired, rest) && HalfRetained(s, desired, rest)[addr] == s.running[addr] < |s.loops|
    ensures Stopped(s.running, s.loops, s.running.Keys - rest - desired)[s.running[addr]] == s.loops[s.running[addr]]
  {
  }

  lemma RetainOne(s: State, desired: set<Addr>, rest: set<Addr>, addr: Addr)
    requires HandlesTrue(s.running, s.loops) && addr in rest && rest <= s.running.Keys
    ensures HalfRetained(s, desired, rest - {addr}) ==
      if addr in desired && s.loops[s.running[addr]].status != Finished then HalfRetained(s, desired, rest)
      else HalfRetained(s, desired, rest) - {addr}
  {
  }

  lemma EndedOne(s: State, desired: set<Addr>, rest: set<Addr>, addr: Addr)
    requires HandlesTrue(s.running, s.loops) && addr in rest && rest <= s.running.Keys
    ensures EndedSofar(s, desired, rest - {addr}) == EndedSofar(s, desired, rest) +
      if addr in desired && s.loops[s.running[addr]].status == Finished then {addr} else {}
  {
  }

  lemma StopOne(s: State, desired: set<Addr>, rest: set<Addr>, addr: Addr)
    requires HandlesTrue(s.running, s.loops) && addr in rest && rest <= s.running.Keys
    ensures s.running[addr] < |s.loops|
    ensures var before := Stopped(s.running, s.loops, s.running.Keys - rest - desired);
      Stopped(s.running, s.loops, s.running.Keys - (rest - {addr}) - desired) ==
        if addr in desired then before else before[s.running[addr] := Abort(before[s.running[addr]])]
  {
    var before := Stopped(s.running, s.loops, s.running.Keys - rest - desired);
    var after := Stopped(s.running, s.loops, s.running.Keys - (rest - {addr}) - desired);
    forall id | 0 <= id < |s.loops| ensures after[id] ==
      if addr !in desired && id == s.running[addr] then Abort(before[id]) else before[id]
    {
    }
  }

  // ---- Every run ----

  /** Between ticks a live loop may end on its own. */
  ghost predicate Ends(s: State, s': State, id: nat) {
    id < |s.loops| && s.loops[id].status == Live &&
    s' == s.(loops := s.loops[id := s.loops[id].(status := Finished)])
  }

  ghost predicate Inv(s: State) {
    HandlesTrue(s.running, s.loops) &&
    s.running.Keys !! s.givenUp && s.running.Keys + s.givenUp == s.prevDesired &&
    forall id | 0 <= id < |s.loops| && s.loops[id].status == Live ::
      s.loops[id].addr in s.running && s.running[s.loops[id].addr] == id
  }

  lemma TickInv(s: State, s': State, desired: set<Addr>)
    requires Inv(s) && Ticked(s, s', desired)
    ensures Inv(s') && s'.prevDesired == desired
  {
    TickHandles(s, s', desired);
    assert s'.running.Keys !! s'.givenUp && s'.running.Keys + s'.givenUp == s'.prevDesired;
    forall id | 0 <= id < |s'.loops| && s'.loops[id].status == Live
      ensures s'.loops[id].addr in s'.running && s'.running[s'.loops[id].addr] == id
    {
      TickLive(s, s', desired, id);
    }
  }

  lemma TickHandles(s: State, s': State, desired: set<Addr>)
    requires Inv(s) && Ticked(s, s', desired)
    ensures HandlesTrue(s'.running, s'.loops)
  {
    forall a | a in s'.running ensures s'.running[a] < |s'.loops| && s'.loops[s'.running[a]].addr == a {
      if a in StillRunning(s.running, s.loops, desired) {
        assert s'.loops[..|s.loops|][s.running[a]] == s'.loops[s.running[a]];
      }
    }
  }

  lemma TickLive(s: State, s': State, desired: set<Addr>, id: nat)
    requires Inv(s) && Ticked(s, s', desired) && id < |s'.loops| && s'.loops[id].status == Live
    ensures s'.loops[id].addr in s'.running && s'.running[s'.loops[id].addr] == id
  {
    if id < |s.loops| {
      assert s'.loops[..|s.loops|][id] == s'.loops[id];
      assert s.loops[id].addr in StillRunning(s.running, s.loops, desired);
    }
  }

  lemma EndsInv(s: State, s': State, id: nat)
    requires Inv(s) && Ends(s, s', id)
    ensures Inv(s')
  {
  }

  ghost predicate Step(s: State, s': State) {
    HandlesTrue(s.running, s.loops) &&
    ((exists desired :: Ticked(s, s', desired)) || exists id :: Ends(s, s', id))
  }

  ghost predicate Run(states: seq<State>) {
    states != [] && Inv(states[0]) && forall i | 0 < i < |states| :: Step(states[i - 1], states[i])
  }

  lemma InitInv()
    ensures Inv(State(map[], {}, {}, []))
  {
  }

  lemma StepInv(s: State, s': State)
    requires Inv(s) && Step(s, s')
    ensures Inv(s')
  {
    hide Ticked, Ends, Inv;
    assert Inv(s);
    if desired :| Ticked(s, s', desired) {
      TickInv(s, s', desired);
    } else {
      var id :| Ends(s, s', id);
      EndsInv(s, s', id);
    }
  }

  lemma {:induction false} RunInv(states: seq<State>, i: nat)
    requires Run(states) && i < |states|
    ensures Inv(states[i])
  {
    hide Inv, Step;
    if i > 0 {
      RunInv(states, i - 1);
      StepInv(states[i - 1], states[i]);
    }
  }

  /** At every moment of every run: the running seeds are the wanted ones less those given up on,
      each with the handle of a loop of its own, and no seed has two loops that have not ended. */
  lemma RunningIsDesiredLessGivenUp(states: seq<State>, i: nat)
    requires Run(states) && i < |states|
    ensures var s := states[i];
      s.running.Keys == s.prevDesired - s.givenUp && s.givenUp <= s.prevDesired &&
      (forall id, other | 0 <= id < other < |s.loops| && s.loops[id].status == Live && s.loops[other].status == Live ::
        s.loops[id].addr != s.loops[other].addr)
  {
    RunInv(states, i);
  }

  /** A tick leaves a wanted loop that has not ended as it is, and starts one for every wanted seed
      that is neither running nor given up on. */
  lemma UntouchedLoops(s: State, s': State, desired: set<Addr>, a: Addr)
    requires Inv(s) && Ticked(s, s', desired) && a in desired
    ensures a in s.running && s.loops[s.running[a]].status != Finished ==>
      a in s'.running && s'.running[a] == s.running[a] && s'.loops[s.running[a]] == s.loops[s.running[a]]
    ensures a !in s.running && (a !in s.givenUp || desired != s.prevDesired) ==>
      a in s'.running && |s.loops| <= s'.running[a] < |s'.loops| && s'.loops[s'.running[a]] == Loop(a, Live)
  {
    if a in s.running && s.loops[s.running[a]].status != Finished {
      var id := s.running[a];
      assert s'.loops[..|s.loops|][id] == s'.loops[id];
    }
  }

  /** The loops ever started for a seed. */
  function Started(loops: seq<Loop>, a: Addr): set<nat> { set id | 0 <= id < |loops| && loops[id].addr == a }

  lemma StepKeepsGivenUp(s: State, s': State, a: Addr)
    requires Inv(s) && Step(s, s') && a in s.givenUp && s'.prevDesired == s.prevDesired
    ensures a in s'.givenUp && Started(s'.loops, a) == Started(s.loops, a)
  {
    if desired :| Ticked(s, s', desired) {
      forall id ensures id in Started(s'.loops, a) <==> id in Started(s.loops, a) {
        if 0 <= id < |s.loops| { assert s'.loops[..|s.loops|][id] == s'.loops[id]; }
      }
    }
  }

  /** While the configured list stays the same, a seed given up on stays given up on, and no loop is
      started for it. */
  lemma {:induction false} GivenUpStays(states: seq<State>, i: nat, j: nat, a: Addr)
    requires Run(states) && i <= j < |states| && a in states[i].givenUp
    requires forall k | i <= k <= j :: states[k].prevDesired == states[i].prevDesired
    ensures a in states[j].givenUp && Started(states[j].loops, a) == Started(states[i].loops, a)
  {
    hide Inv, Step, Started;
    if i < j {
      GivenUpStays(states, i, j - 1, a);
      RunInv(states, j - 1);
      StepKeepsGivenUp(states[j - 1], states[j], a);
    }
  }

  /** The seed's loop has come to its end on its own. */
  predicate LoopEnded(s: State, a: Addr) {
    a in s.running && s.running[a] < |s.loops| && s.loops[s.running[a]].status == Finished
  }

  /** Given up on after a tick are, with an unchanged list, the seeds that were, and with any list the wanted
      ones whose loop has ended. Such a seed is not running, and no loop is started for it. */
  lemma EndedIsGivenUp(s: State, s': State, desired: set<Addr>, a: Addr)
    requires Inv(s) && Ticked(s, s', desired)
    ensures a in s'.givenUp <==> (desired == s.prevDesired && a in s.givenUp) || (a in desired && LoopEnded(s, a))
    ensures a in desired && LoopEnded(s, a) ==> a !in s'.running && Started(s'.loops, a) == Started(s.loops, a)
  {
    hide Stopped;
    if a in desired && LoopEnded(s, a) {
      assert a in Ended(s.running, s.loops, desired);
      SameStarted(s, s', desired, a);
    }
  }

  lemma SameStarted(s: State, s': State, desired: set<Addr>, a: Addr)
    requires HandlesTrue(s.running, s.loops) && Ticked(s, s', desired) && a in s'.givenUp && a in desired
    ensures Started(s'.loops, a) == Started(s.loops, a)
  {
    forall id ensures id in Started(s'.loops, a) <==> id in Started(s.loops, a) {
      if 0 <= id < |s.loops| { assert s'.loops[..|s.loops|][id] == s'.loops[id]; }
    }
  }

  lemma StepAfterEnd(s: State, s': State, a: Addr)
    requires Inv(s) && Step(s, s') && s'.prevDesired == s.prevDesired && a in s.prevDesired
    requires a in s.givenUp || LoopEnded(s, a)
    ensures a in s'.givenUp || LoopEnded(s', a)
    ensures Started(s'.loops, a) == Started(s.loops, a)
  {
    hide Ticked, Inv;
    if a in s.givenUp {
      StepKeepsGivenUp(s, s', a);
    } else if desired :| Ticked(s, s', desired) {
      TickInv(s, s', desired);
      EndedIsGivenUp(s, s', desired, a);
    }
  }

  /** From the moment the loop of a wanted seed has ended, no further loop is started for it while the
      configured list stays the same. */
  lemma {:induction false} NoLoopAfterEnd(states: seq<State>, i: nat, j: nat, a: Addr)
    requires Run(states) && i <= j < |states| && a in states[i].prevDesired && LoopEnded(states[i], a)
    requires forall k | i <= k <= j :: states[k].prevDesired == states[i].prevDesired
    ensures a in states[j].givenUp || LoopEnded(states[j], a)
    ensures Started(states[j].loops, a) == Started(states[i].loops, a)
  {
    hide Inv, Step, Started, LoopEnded;
    if i < j {
      NoLoopAfterEnd(states, i, j - 1, a);
      RunInv(states, j - 1);
      StepAfterEnd(states[j - 1], states[j], a);
    }
  }

  /** A changed list gives every seed another try, but for one: a loop that ended since the last tick
      is given up on at once, although its seed is listed anew. */
  lemma ChangedListRetries(s: State, s': State, desired: set<Addr>)
    requires Inv(s) && Ticked(s, s', desired) && desired != s.prevDesired
    ensures s'.givenUp == Ended(s.running, s.loops, desired)
    ensures s'.running.Keys == desired <==> Ended(s.running, s.loops, desired) == {}
  {
  }

  /** Seed 1's loop ends, and in the same minute seed 2 is added to the list: seed 1, listed anew, is
      given up on and not started again. */
  lemma EndedLoopGetsNoRetry(s': State)
    ensures var s0, s1, s2 := State(map[], {}, {}, []), State(map[1 := 0], {}, {1}, [Loop(1, Live)]),
                              State(map[1 := 0], {}, {1}, [Loop(1, Finished)]);
      Run([s0, s1, s2]) && s2.prevDesired != {1, 2} &&
      (Ticked(s2, s', {1, 2}) ==> 1 in s'.givenUp && 1 !in s'.running && 2 in s'.running)
  {
    var s0, s1, s2 := State(map[], {}, {}, []), State(map[1 := 0], {}, {1}, [Loop(1, Live)]),
                      State(map[1 := 0], {}, {1}, [Loop(1, Finished)]);
    assert StillRunning(s0.running, s0.loops, {1}) == map[];
    assert Stopped(s0.running, s0.loops, s0.running.Keys - {1}) == [];
    assert Ticked(s0, s1, {1});
    assert Ends(s1, s2, 0);
    assert Step(s0, s1) && Step(s1, s2);
    assert 1 in Ended(s2.running, s2.loops, {1, 2});
  }
}
