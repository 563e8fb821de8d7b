/** Logged-in client reservations (src/admission.rs, ClientSlots and SharedSlot) as the loads,
    compare-and-swaps and drops of any number of tasks. */
module ClientSlots {
  import opened Common

  type Task = nat
  type Slot = nat
  type Session = nat

  /** A slot is in some task's hands, in a session's shared cell, or taken out of it to be dropped. */
  datatype Place = Hand | Cell(session: Session) | Leaving

  datatype Held = Held(place: Place, forced: bool)

  datatype Attempt = Attempt(max: nat, seen: nat)

  datatype State = State(held: nat, slots: map<Slot, Held>, tries: map<Task, Attempt>, nextSlot: Slot)

  datatype Action =
    | Load(t: Task, max: nat)
    | Refuse(t: Task)
    | CasOk(t: Task)
    | CasFail(t: Task)
    | Force
    | Store(slot: Slot, session: Session)
    | Release(session: Session)
    | Drop(slot: Slot)

  predicate Full(a: Attempt) { a.max != 0 && a.seen >= a.max }

  ghost predicate InCell(s: State, slot: Slot, session: Session) {
    slot in s.slots && s.slots[slot].place == Cell(session)
  }

  ghost predicate Enabled(s: State, a: Action) {
    match a
    case Load(t, _) => t !in s.tries
    case Refuse(t) => t in s.tries && Full(s.tries[t])
    case CasOk(t) => t in s.tries && !Full(s.tries[t]) && s.held == s.tries[t].seen
    case CasFail(t) => t in s.tries && !Full(s.tries[t])
    case Force => true
    case Store(slot, session) =>
      slot in s.slots && s.slots[slot].place.Hand? && forall other :: !InCell(s, other, session)
    case Release(_) => true
    case Drop(slot) => slot in s.slots && !s.slots[slot].place.Cell?
  }

  function Granted(s: State, forced: bool): State {
    s.(held := s.held + 1, slots := s.slots[s.nextSlot := Held(Hand, forced)], nextSlot := s.nextSlot + 1)
  }

  ghost function Apply(s: State, a: Action): State
    requires Enabled(s, a)
  {
    match a
    case Load(t, max) => s.(tries := s.tries[t := Attempt(max, s.held)])
    case Refuse(t) => s.(tries := s.tries - {t})
    case CasOk(t) => Granted(s.(tries := s.tries - {t}), false)
    case CasFail(t) => s.(tries := s.tries[t := s.tries[t].(seen := s.held)])
    case Force => Granted(s, true)
    case Store(slot, session) => s.(slots := s.slots[slot := s.slots[slot].(place := Cell(session))])
    case Release(session) =>
      if slot :| InCell(s, slot, session)
      then s.(slots := s.slots[slot := s.slots[slot].(place := Leaving)])
      else s
    case Drop(slot) => s.(held := if s.held == 0 then 0xffff_ffff else s.held - 1, slots := s.slots - {slot})
  }

  ghost predicate Init(s: State) { s.held == 0 && s.slots == map[] && s.tries == map[] }

  function IsForced(h: Held): nat { if h.forced then 1 else 0 }
  function IsReserved(h: Held): nat { if h.forced then 0 else 1 }

  ghost predicate Inv(s: State) {
    && s.held == |s.slots|
    && (forall slot | slot in s.slots :: slot < s.nextSlot)
    && (forall x, y, session | InCell(s, x, session) && InCell(s, y, session) :: x == y)
  }

  lemma InitInv(s: State)
    requires Init(s)
    ensures Inv(s)
  {
  }

  lemma CellsKept(s: State, a: Action)
    requires Inv(s) && Enabled(s, a)
    ensures forall x, y, session | InCell(Apply(s, a), x, session) && InCell(Apply(s, a), y, session) :: x == y
  {
    var s' := Apply(s, a);
    assert forall x, session | InCell(s', x, session) ::
      InCell(s, x, session) || (a.Store? && x == a.slot && session == a.session);
  }

  /** The gauge counts the slots not yet dropped at every moment, a drop never wraps it, and a
      session's cell holds at most one slot. */
  lemma StepInv(s: State, a: Action)
    requires Inv(s) && Enabled(s, a)
    ensures Inv(Apply(s, a))
    ensures a.Drop? ==> s.held > 0
  {
    CellsKept(s, a);
    match a
    case Drop(slot) =>
      assert |s.slots - {slot}| == |s.slots| - 1 by { MapShrinks(s.slots, slot); }
    case Release(session) => ReleaseKeeps(s, session);
    case Store(slot, session) =>
      MapKeeps(s.slots, slot, s.slots[slot].(place := Cell(session)));
    case CasOk(t) => assert s.nextSlot !in s.slots;
    case Force => assert s.nextSlot !in s.slots;
    case _ =>
  }

  lemma ReleaseKeeps(s: State, session: Session)
    ensures var s' := Apply(s, Release(session));
      s'.held == s.held && s'.nextSlot == s.nextSlot && s'.slots.Keys == s.slots.Keys && |s'.slots| == |s.slots|
  {
    if exists slot :: InCell(s, slot, session) {
      var slot :| InCell(s, slot, session)
        && Apply(s, Release(session)).slots == s.slots[slot := s.slots[slot].(place := Leaving)];
      MapKeeps(s.slots, slot, s.slots[slot].(place := Leaving));
    }
  }

  lemma MapShrinks<K, V>(m: map<K, V>, k: K)
    requires k in m
    ensures |m - {k}| == |m| - 1
  {
    assert (m - {k}).Keys == m.Keys - {k};
  }

  lemma MapKeeps<K, V>(m: map<K, V>, k: K, v: V)
    requires k in m
    ensures |m[k := v]| == |m|
  {
    assert m[k := v].Keys == m.Keys;
  }

  /** Reserved slots split from forced ones. */
  lemma {:induction false} KindsAddUp(slots: map<Slot, Held>)
    ensures Total(slots, IsForced) + Total(slots, IsReserved) == |slots|
    decreases |slots|
  {
    if slots != map[] {
      var k := AnyKey(slots);
      MapShrinks(slots, k);
      KindsAddUp(slots - {k});
    }
  }

  /** Every reservation of the run asks for the same ceiling. */
  ghost predicate FixedMax(s: State, max: nat) { forall t | t in s.tries :: s.tries[t].max == max }

  predicate Asks(a: Action, max: nat) { a.Load? ==> a.max == max }

  lemma CeilingKept(s: State, a: Action, max: nat)
    requires Inv(s) && Enabled(s, a) && max != 0 && FixedMax(s, max) && Asks(a, max)
    requires Total(s.slots, IsReserved) <= max
    ensures FixedMax(Apply(s, a), max) && Total(Apply(s, a).slots, IsReserved) <= max
  {
    var s' := Apply(s, a);
    KindsAddUp(s.slots);
    match a
    case CasOk(t) => TotalPut(s.slots, IsReserved, s.nextSlot, Held(Hand, false));
    case Force => TotalPut(s.slots, IsReserved, s.nextSlot, Held(Hand, true));
    case Store(slot, session) => TotalPut(s.slots, IsReserved, slot, s.slots[slot].(place := Cell(session)));
    case Release(session) =>
      if exists slot :: InCell(s, slot, session) {
        var slot :| InCell(s, slot, session) && s'.slots == s.slots[slot := s.slots[slot].(place := Leaving)];
        TotalPut(s.slots, IsReserved, slot, s.slots[slot].(place := Leaving));
      }
    case Drop(slot) => TotalSplit(s.slots, IsReserved, slot);
    case _ =>
  }

  ghost predicate Possible(s: State, run: seq<Action>)
    decreases |run|
  {
    run == [] || (Enabled(s, run[0]) && Possible(Apply(s, run[0]), run[1..]))
  }

  ghost function After(s: State, run: seq<Action>): State
    requires Possible(s, run)
    decreases |run|
  {
    if run == [] then s else After(Apply(s, run[0]), run[1..])
  }

  lemma {:induction false} RunCeiling(s: State, run: seq<Action>, max: nat)
    requires Inv(s) && Possible(s, run) && max != 0 && FixedMax(s, max)
    requires forall i | 0 <= i < |run| :: Asks(run[i], max)
    requires Total(s.slots, IsReserved) <= max
    ensures Inv(After(s, run)) && Total(After(s, run).slots, IsReserved) <= max
    decreases |run|
  {
    if run != [] {
      StepInv(s, run[0]);
      CeilingKept(s, run[0], max);
      RunCeiling(Apply(s, run[0]), run[1..], max);
    }
  }

  /** Concurrent logins cannot overshoot: under any interleaving with one fixed ceiling the gauge is
      the number of undropped slots and passes the ceiling only by the live forced ones. */
  lemma HeldWithinCeiling(s: State, run: seq<Action>, max: nat)
    requires Init(s) && Possible(s, run) && max != 0
    requires forall i | 0 <= i < |run| :: Asks(run[i], max)
    ensures var s' := After(s, run);
      s'.held == |s'.slots| <= max + Total(s'.slots, IsForced)
  {
    InitInv(s);
    TotalZero(s.slots, IsReserved);
    RunCeiling(s, run, max);
    KindsAddUp(After(s, run).slots);
  }

  /** Releasing a session takes its slot out once: whoever comes second finds nothing, so each slot
      is returned exactly once, whether the replacing login or the old task is first. */
  lemma ReleaseOnce(s: State, session: Session)
    requires Inv(s)
    ensures var s1 := Apply(s, Release(session));
      && (forall slot :: !InCell(s1, slot, session))
      && Apply(s1, Release(session)) == s1
      && s1.held == s.held
      && (forall slot | slot in s.slots ::
            slot in s1.slots && s1.slots[slot].place == if InCell(s, slot, session) then Leaving else s.slots[slot].place)
  {
    if exists slot :: InCell(s, slot, session) {
      var slot :| InCell(s, slot, session)
        && Apply(s, Release(session)).slots == s.slots[slot := s.slots[slot].(place := Leaving)];
      assert forall x | InCell(Apply(s, Release(session)), x, session) :: InCell(s, x, session);
    }
  }

  /** A slot once dropped never comes back. */
  lemma {:induction false} DroppedForGood(s: State, run: seq<Action>, slot: Slot)
    requires Inv(s) && Possible(s, run) && slot < s.nextSlot && slot !in s.slots
    ensures slot !in After(s, run).slots
    decreases |run|
  {
    if run != [] {
      StepInv(s, run[0]);
      DroppedForGood(Apply(s, run[0]), run[1..], slot);
    }
  }

  /** The count a reservation reads decides it: it may be refused exactly when there is a ceiling and as many
      slots are held, and granted otherwise; a ceiling of zero is none. */
  lemma LoadDecides(s: State, t: Task, max: nat)
    requires Inv(s) && t !in s.tries
    ensures var s' := Apply(s, Load(t, max));
      && (Enabled(s', Refuse(t)) <==> max > 0 && |s.slots| >= max)
      && (Enabled(s', CasOk(t)) <==> max == 0 || |s.slots| < max)
  {
  }
}
