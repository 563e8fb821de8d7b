/** The admin panel's login state (src/admin_auth.rs): sessions, failure records, and what fixed
    windows of failures guarantee about sliding ones. */
module AdminAuth {
  import opened Common
  import opened Sources

  type Instant = nat // nanoseconds

  const FAILURE_WINDOW: nat := 600_000_000_000
  const SESSION_TTL: nat := 43_200_000_000_000
  const MAX_SESSIONS: nat := 64
  const MAX_FAILURES: nat := 5
  const MAX_TRACKED_ADDRESSES: nat := 4096
  const MAX_GLOBAL_FAILURES: nat := 50
  const MAX_QUEUED_CHECKS: nat := 4

  // ---- Comparing secrets ----

  lemma NoDifference(x: bv8, y: bv8, acc: bv8)
    ensures acc | (x ^ y) == 0 <==> acc == 0 && x == y
  {
  }

  method ConstantTimeEq(a: seq<bv8>, b: seq<bv8>) returns (same: bool)
    ensures same <==> a == b
  {
    if |a| != |b| {
      return false;
    }
    var acc: bv8 := 0;
    for i := 0 to |a|
      invariant acc == 0 <==> a[..i] == b[..i]
    {
      NoDifference(a[i], b[i], acc);
      assert a[..i + 1] == a[..i] + [a[i]] && b[..i + 1] == b[..i] + [b[i]];
      acc := acc | (a[i] ^ b[i]);
    }
    assert a[..|a|] == a && b[..|b|] == b;
    return acc == 0;
  }

  // ---- Failure records ----

  const V6_HOST: nat := 0x1_0000_0000_0000_0000

  /** Failures are counted per IPv4 address, mapped or not, and per /64 of IPv6. */
  function FailureKey(ip: IpAddr): IpAddr {
    match ip
    case V4(a) => V4(a)
    case V6(a) => if IsMapped(a) then V4(a % V4_END) else V6(a / V6_HOST * V6_HOST)
  }

  /** Two addresses share a record exactly when they carry the same IPv4 address, or carry none and lie in
      the same /64. */
  lemma SharedRecord(x: IpAddr, y: IpAddr)
    ensures (exists a :: Carries(x, a)) || (exists a :: Carries(y, a)) ==>
      (FailureKey(x) == FailureKey(y) <==> exists a :: Carries(x, a) && Carries(y, a))
    ensures !(exists a :: Carries(x, a)) && !(exists a :: Carries(y, a)) ==>
      x.V6? && y.V6? && (FailureKey(x) == FailureKey(y) <==> x.v6 / Pow2(64) == y.v6 / Pow2(64))
  {
    HalfAddress();
    CarriesOne(x, 64);
    CarriesOne(y, 64);
    if x.V6? && y.V6? { Multiples(x.v6 / V6_HOST, y.v6 / V6_HOST, V6_HOST); }
  }

  datatype Window = Window(count: nat, start: Instant)

  datatype Failures = Failures(perKey: map<IpAddr, Window>, global: Option<Window>)

  predicate Open(w: Window, now: Instant) { w.start + FAILURE_WINDOW > now }

  /** The window holds as many failures as allowed and has not ended. */
  predicate Full(w: Option<Window>, max: nat, now: Instant) { w.Some? && w.value.count >= max && Open(w.value, now) }

  /** One more failure: in the window that is open, or as the first of a new one. */
  function Bump(w: Option<Window>, now: Instant): Window {
    if w.Some? && Open(w.value, now) then Window(w.value.count + 1, w.value.start) else Window(1, now)
  }

  function Record(f: Failures, ip: IpAddr): Option<Window> {
    if FailureKey(ip) in f.perKey then Some(f.perKey[FailureKey(ip)]) else None
  }

  /** An address must wait while its own record is full, or, unless it is loopback, while the global
      one is. */
  predicate Locked(f: Failures, ip: IpAddr, now: Instant) {
    Full(Record(f, ip), MAX_FAILURES, now) || (!ip.IsLoopback() && Full(f.global, MAX_GLOBAL_FAILURES, now))
  }

  function Kept(f: Failures, now: Instant): map<IpAddr, Window> {
    map k | k in f.perKey && Open(f.perKey[k], now) :: f.perKey[k]
  }

  /** The record that makes room when the table is full: one with the earliest start. */
  predicate Evicts(kept: map<IpAddr, Window>, key: IpAddr, victim: Option<IpAddr>) {
    if |kept| >= MAX_TRACKED_ADDRESSES && key !in kept
    then victim.Some? && victim.value in kept && forall k | k in kept :: kept[victim.value].start <= kept[k].start
    else victim.None?
  }

  function Noted(f: Failures, ip: IpAddr, now: Instant, victim: Option<IpAddr>): Failures {
    var kept := Kept(f, now);
    var room := if victim.Some? then kept - {victim.value} else kept;
    Failures(room[FailureKey(ip) := Bump(Record(f, ip), now)],
             if ip.IsLoopback() then f.global else Some(Bump(f.global, now)))
  }

  /** A failure noted: ended records go, and the one evicted; the others stay; the address's own counts
      one more, from one when it had none that was open; the global one counts all but loopback's. */
  lemma NotedIsExact(f: Failures, ip: IpAddr, now: Instant, victim: Option<IpAddr>)
    requires Evicts(Kept(f, now), FailureKey(ip), victim)
    ensures var was, f', key := f.perKey, Noted(f, ip, now, victim), FailureKey(ip);
      && (forall k | k != key :: k in f'.perKey <==> k in was && now < was[k].start + 600_000_000_000 && victim != Some(k))
      && (forall k | k in f'.perKey && k != key :: f'.perKey[k] == was[k])
      && key in f'.perKey
      && f'.perKey[key] ==
           (if key in was && now < was[key].start + 600_000_000_000 then Window(was[key].count + 1, was[key].start)
            else Window(1, now))
      && f'.global ==
           (if ip.IsLoopback() then f.global
            else if f.global.Some? && now < f.global.value.start + 600_000_000_000
            then Some(Window(f.global.value.count + 1, f.global.value.start))
            else Some(Window(1, now)))
  {
  }

  method OldestRecord(m: map<IpAddr, Window>) returns (oldest: Option<IpAddr>)
    ensures m == map[] ==> oldest.None?
    ensures m != map[] ==> oldest.Some? && oldest.value in m && forall k | k in m :: m[oldest.value].start <= m[k].start
  {
    oldest := None;
    var rest := m.Keys;
    while rest != {}
      invariant rest <= m.Keys
      invariant oldest.None? <==> rest == m.Keys
      invariant oldest.Some? ==> oldest.value in m && forall k | k in m && k !in rest :: m[oldest.value].start <= m[k].start
      decreases |rest|
    {
      var k :| k in rest;
      if oldest.None? || m[k].start < m[oldest.value].start {
        oldest := Some(k);
      }
      rest := rest - {k};
    }
    assert m == map[] ==> m.Keys == {};
  }

  function Cleared(f: Failures, ip: IpAddr): Failures { f.(perKey := f.perKey - {FailureKey(ip)}) }

  lemma ClearedSmaller(f: Failures, ip: IpAddr)
    ensures |Cleared(f, ip).perKey| <= |f.perKey|
  {
    Fewer(Cleared(f, ip).perKey.Keys, f.perKey.Keys);
    Keys(f.perKey);
    Keys(Cleared(f, ip).perKey);
  }

  datatype LoginResult = Entered | WrongPassword | LockedOut(wait: nat)

  type Token = seq<bv8>

  class Auth {
    var sessions: map<Token, Instant>
    var failures: Failures

    constructor ()
      ensures sessions == map[] && failures == Failures(map[], None)
    {
      sessions := map[];
      failures := Failures(map[], None);
    }

    /** How long the address must still wait, if at all: until every full window that holds it ends. */
    method LockedFor(ip: IpAddr, now: Instant) returns (wait: Option<nat>)
      ensures wait.Some? <==> Locked(failures, ip, now)
      ensures wait.Some? <==>
        || (FailureKey(ip) in failures.perKey && failures.perKey[FailureKey(ip)].count >= 5 &&
            now < failures.perKey[FailureKey(ip)].start + 600_000_000_000)
        || (!ip.IsLoopback() && failures.global.Some? && failures.global.value.count >= 50 &&
            now < failures.global.value.start + 600_000_000_000)
      ensures wait.Some? ==> wait.value > 0 && !Locked(failures, ip, now + wait.value)
      ensures wait.Some? ==> forall later: nat | now <= later < now + wait.value :: Locked(failures, ip, later)
    {
      wait := None;
      var key := FailureKey(ip);
      if key in failures.perKey {
        var w := failures.perKey[key];
        var end := w.start + FAILURE_WINDOW;
        if w.count >= MAX_FAILURES && end > now {
          wait := Some(end - now);
        }
      }
      if !ip.IsLoopback() {
        if failures.global.Some? {
          var end := failures.global.value.start + FAILURE_WINDOW;
          if failures.global.value.count >= MAX_GLOBAL_FAILURES && end > now {
            wait := Some(if wait.Some? && wait.value > end - now then wait.value else end - now);
          }
        }
      }
    }

    method NoteFailure(ip: IpAddr, now: Instant) returns (victim: Option<IpAddr>)
      requires |failures.perKey| <= MAX_TRACKED_ADDRESSES
      modifies this`failures
      ensures Evicts(Kept(old(failures), now), FailureKey(ip), victim)
      ensures failures == Noted(old(failures), ip, now, victim)
      ensures |failures.perKey| <= MAX_TRACKED_ADDRESSES
    {
      ghost var before := failures;
      var perKey := Kept(failures, now);
      KeptSmaller(failures, now);
      var key := FailureKey(ip);
      victim := None;
      if |perKey| >= MAX_TRACKED_ADDRESSES && key !in perKey {
        victim := OldestRecord(perKey);
        if victim.Some? {
          perKey := perKey - {victim.value};
        }
      }
      NotedSize(before, ip, now, victim);
      if key !in perKey {
        perKey := perKey[key := Window(0, now)];
      }
      perKey := perKey[key := Window(perKey[key].count + 1, perKey[key].start)];
      var global := failures.global;
      if !ip.IsLoopback() {
        if global.Some? && global.value.start + FAILURE_WINDOW > now {
          global := Some(Window(global.value.count + 1, global.value.start));
        } else {
          global := Some(Window(1, now));
        }
      }
      failures := Failures(perKey, global);
    }

    /** Forget the failures of the address a right password came from. */
    method ClearFailures(ip: IpAddr)
      modifies this`failures
      ensures failures == Cleared(old(failures), ip) && |failures.perKey| <= |old(failures).perKey|
    {
      ClearedSmaller(failures, ip);
      failures := failures.(perKey := failures.perKey - {FailureKey(ip)});
    }

    /** A new session: expired ones go, then, while there are too many, one that expires first. The
        token comes from the system's random source. */
    method NewSession(token: Token, now: Instant)
      requires |sessions| <= MAX_SESSIONS
      modifies this`sessions
      ensures |sessions| <= MAX_SESSIONS == 64
      ensures token in sessions && sessions[token] == now + 43_200_000_000_000
      ensures forall t | t in sessions && t != token :: t in old(sessions) && sessions[t] == old(sessions)[t] > now
      ensures forall t, u | t in old(sessions) && old(sessions)[t] > now && t !in sessions && u in sessions && u != token ::
        old(sessions)[t] <= sessions[u]
      ensures |Unexpired(old(sessions), now)| < MAX_SESSIONS ==>
        sessions == Unexpired(old(sessions), now)[token := now + SESSION_TTL]
    {
      var live := Unexpired(sessions, now);
      UnexpiredSmaller(sessions, now);
      var s := MakeRoom(live);
      sessions := s[token := now + SESSION_TTL];
    }

    /** Decides whether a token names a session that has not expired; every live token is compared. */
    method SessionValid(token: Token, now: Instant) returns (ok: bool)
      modifies this`sessions
      ensures sessions == Unexpired(old(sessions), now)
      ensures ok <==> token in old(sessions) && old(sessions)[token] > now
    {
      sessions := Unexpired(sessions, now);
      ok := false;
      ghost var live := sessions;
      var rest := sessions.Keys;
      while rest != {}
        invariant sessions == live
        invariant rest <= live.Keys
        invariant ok <==> token in live && token !in rest
        decreases |rest|
      {
        var t :| t in rest;
        var same := ConstantTimeEq(t, token);
        ok := ok || same;
        rest := rest - {t};
      }
    }

    /** A login with no other under way; `right` is the verdict of the hash check, and the three readings
        of the clock are those of the two lock checks and of the verdict. */
    method Login(ip: IpAddr, right: bool, token: Token, first: Instant, second: Instant, now: Instant)
      returns (r: LoginResult, victim: Option<IpAddr>)
      requires |failures.perKey| <= MAX_TRACKED_ADDRESSES && |sessions| <= MAX_SESSIONS
      modifies this
      ensures |failures.perKey| <= MAX_TRACKED_ADDRESSES && |sessions| <= MAX_SESSIONS
      ensures r.LockedOut? <==> Locked(old(failures), ip, first) || Locked(old(failures), ip, second)
      ensures r.LockedOut? ==> failures == old(failures) && sessions == old(sessions)
      ensures !r.LockedOut? ==> (r.Entered? <==> right)
      ensures r.Entered? ==> failures == Cleared(old(failures), ip) && token in sessions && sessions[token] == now + SESSION_TTL
      ensures r.WrongPassword? ==>
        failures == Noted(old(failures), ip, now, victim) && Evicts(Kept(old(failures), now), FailureKey(ip), victim) &&
        sessions == old(sessions)
    {
      victim := None;
      var wait := LockedFor(ip, first);
      if wait.Some? {
        return LockedOut(wait.value), victim;
      }
      wait := LockedFor(ip, second);
      if wait.Some? {
        return LockedOut(wait.value), victim;
      }
      if right {
        ClearFailures(ip);
        NewSession(token, now);
        return Entered, victim;
      }
      victim := NoteFailure(ip, now);
      return WrongPassword, victim;
    }

    method Logout(token: Token)
      modifies this`sessions
      ensures sessions == old(sessions) - {token}
    {
      sessions := sessions - {token};
    }
  }

  function Unexpired(sessions: map<Token, Instant>, now: Instant): map<Token, Instant> {
    map t | t in sessions && sessions[t] > now :: sessions[t]
  }

  lemma UnexpiredSmaller(sessions: map<Token, Instant>, now: Instant)
    ensures |Unexpired(sessions, now)| <= |sessions|
  {
    assert Unexpired(sessions, now).Keys <= sessions.Keys;
    Fewer(Unexpired(sessions, now).Keys, sessions.Keys);
    Keys(sessions);
    Keys(Unexpired(sessions, now));
  }

  lemma Keys<K, V>(m: map<K, V>)
    ensures |m.Keys| == |m|
  {
  }

  lemma {:induction false} Fewer<T>(a: set<T>, b: set<T>)
    requires a <= b
    ensures |a| <= |b|
  {
    if a != {} {
      var x :| x in a;
      Fewer(a - {x}, b - {x});
    }
  }

  lemma KeptSmaller(f: Failures, now: Instant)
    ensures |Kept(f, now)| <= |f.perKey|
  {
    Fewer(Kept(f, now).Keys, f.perKey.Keys);
    Keys(f.perKey);
    Keys(Kept(f, now));
  }

  lemma NotedSize(f: Failures, ip: IpAddr, now: Instant, victim: Option<IpAddr>)
    requires |f.perKey| <= MAX_TRACKED_ADDRESSES && Evicts(Kept(f, now), FailureKey(ip), victim)
    ensures |Noted(f, ip, now, victim).perKey| <= MAX_TRACKED_ADDRESSES
  {
    KeptSmaller(f, now);
  }

  method OldestSession(s: map<Token, Instant>) returns (oldest: Token)
    requires s != map[]
    ensures oldest in s && forall t | t in s :: s[oldest] <= s[t]
  {
    assert s.Keys == {} <==> s == map[];
    oldest :| oldest in s;
    var rest := s.Keys;
    while rest != {}
      invariant oldest in s && rest <= s.Keys
      invariant forall t | t in s && t !in rest :: s[oldest] <= s[t]
      decreases |rest|
    {
      var t :| t in rest;
      if s[t] < s[oldest] {
        oldest := t;
      }
      rest := rest - {t};
    }
  }

  method MakeRoom(live: map<Token, Instant>) returns (s: map<Token, Instant>)
    ensures |s| < MAX_SESSIONS
    ensures forall t | t in s :: t in live && s[t] == live[t]
    ensures forall t, u | t in live && t !in s && u in s :: live[t] <= s[u]
    ensures |live| < MAX_SESSIONS ==> s == live
  {
    s := live;
    while |s| >= MAX_SESSIONS
      invariant forall t | t in s :: t in live && s[t] == live[t]
      invariant forall t, u | t in live && t !in s && u in s :: live[t] <= s[u]
      invariant |live| < MAX_SESSIONS ==> s == live
    {
      var oldest := OldestSession(s);
      s := s - {oldest};
    }
  }

  // ---- Fixed windows and sliding ones ----

  /** The record that a series of failures leaves. */
  function Folded(log: seq<Instant>): Option<Window> {
    if log == [] then None else Some(Bump(Folded(log[..|log| - 1]), log[|log| - 1]))
  }

  /** In order of time, each failure came when the record was not full. */
  predicate Allowed(log: seq<Instant>, max: nat) {
    log == [] ||
    var init, last := log[..|log| - 1], log[|log| - 1];
    Allowed(init, max) && !Full(Folded(init), max, last) && (init != [] ==> init[|init| - 1] <= last)
  }

  /** Failures at times lo <= t < hi. */
  function Between(log: seq<Instant>, lo: int, hi: int): nat {
    if log == [] then 0
    else Between(log[..|log| - 1], lo, hi) + if lo <= log[|log| - 1] < hi then 1 else 0
  }

  /** Failures at time lo or later. */
  function Since(log: seq<Instant>, lo: int): nat {
    if log == [] then 0 else Since(log[..|log| - 1], lo) + if lo <= log[|log| - 1] then 1 else 0
  }

  lemma {:induction false} SinceShrinks(log: seq<Instant>, lo: int, later: int)
    requires lo <= later
    ensures Since(log, later) <= Since(log, lo)
  {
    if log != [] { SinceShrinks(log[..|log| - 1], lo, later); }
  }

  lemma {:induction false} BetweenInSince(log: seq<Instant>, lo: int, hi: int)
    ensures Between(log, lo, hi) <= Since(log, lo)
  {
    if log != [] { BetweenInSince(log[..|log| - 1], lo, hi); }
  }

  lemma {:induction false} NoneSince(log: seq<Instant>, max: nat, lo: int)
    requires Allowed(log, max) && (log != [] ==> log[|log| - 1] < lo)
    ensures Since(log, lo) == 0
  {
    if log != [] { NoneSince(log[..|log| - 1], max, lo); }
  }

  /** What a record knows: it counts exactly the failures since its start, the first of them at the
      start; and the window-length before it held fewer than the most a window may. */
  lemma {:induction false} RecordCounts(log: seq<Instant>, max: nat)
    requires max >= 1 && Allowed(log, max) && log != []
    ensures var w := Folded(log).value;
      1 <= w.count <= max && w.start <= log[|log| - 1] < w.start + FAILURE_WINDOW &&
      Since(log, w.start) == w.count && Since(log, w.start + 1) < w.count &&
      Since(log, w.start - FAILURE_WINDOW + 1) < max + w.count
  {
    var init, t := log[..|log| - 1], log[|log| - 1];
    if init == [] {
      assert Since(init, t) == Since(init, t + 1) == Since(init, t - FAILURE_WINDOW + 1) == 0;
    } else {
      RecordCounts(init, max);
      var w := Folded(init).value;
      if !Open(w, t) {
        NoneSince(init, max, t);
        NoneSince(init, max, t + 1);
        SinceShrinks(init, w.start + 1, t - FAILURE_WINDOW + 1);
      }
    }
  }

  /** Fixed windows of max failures bound every half-open sliding window by 2 * max - 1. */
  lemma {:induction false} SlidingBound(log: seq<Instant>, max: nat, x: int)
    requires max >= 1 && Allowed(log, max)
    ensures Between(log, x, x + FAILURE_WINDOW) <= 2 * max - 1
  {
    if log != [] {
      var t := log[|log| - 1];
      SlidingBound(log[..|log| - 1], max, x);
      if x <= t < x + FAILURE_WINDOW {
        RecordCounts(log, max);
        var w := Folded(log).value;
        BetweenInSince(log, x, x + FAILURE_WINDOW);
        SinceShrinks(log, w.start - FAILURE_WINDOW + 1, x);
      }
    }
  }

  /** The bound is met: nine wrong passwords within one window-length of time pass a limit of five. */
  lemma NinePass()
    ensures var end := FAILURE_WINDOW;
      var log := [0, end - 1, end - 1, end - 1, end - 1, end, end, end, end, end];
      Allowed(log, MAX_FAILURES) && Between(log, end - 1, end - 1 + FAILURE_WINDOW) == 2 * MAX_FAILURES - 1
  {
    var a: seq<Instant> := [];
    var end := FAILURE_WINDOW;
    a := PassOne(a, 0, end - 1);
    a := PassOne(a, end - 1, end - 1);
    a := PassOne(a, end - 1, end - 1);
    a := PassOne(a, end - 1, end - 1);
    a := PassOne(a, end - 1, end - 1);
    a := PassOne(a, end, end - 1);
    a := PassOne(a, end, end - 1);
    a := PassOne(a, end, end - 1);
    a := PassOne(a, end, end - 1);
    a := PassOne(a, end, end - 1);
    assert a == [0, end - 1, end - 1, end - 1, end - 1, end, end, end, end, end];
  }

  lemma PassOne(log: seq<Instant>, t: Instant, x: int) returns (longer: seq<Instant>)
    requires Allowed(log, MAX_FAILURES) && !Full(Folded(log), MAX_FAILURES, t) && (log != [] ==> log[|log| - 1] <= t)
    ensures longer == log + [t] && Allowed(longer, MAX_FAILURES)
    ensures Folded(longer) == Some(Bump(Folded(log), t))
    ensures Between(longer, x, x + FAILURE_WINDOW) ==
      Between(log, x, x + FAILURE_WINDOW) + if x <= t < x + FAILURE_WINDOW then 1 else 0
  {
    longer := log + [t];
    assert longer[..|log|] == log;
  }
}
