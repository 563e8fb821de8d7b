/** The meaning of the name history's write-behind cache (src/name_db.rs, Writer): changes pending over
    a stored table, and the write-through table they must add up to. Rows are seen here without
    their ids and with their publishers decoded. */
module NameCache {
  import opened Bytes
  import opened Common

  type Hash = n: nat | n < 0x1_0000_0000_0000_0000_0000_0000_0000_0000
  type NKey = n: int | -0x8000_0000_0000_0000 <= n < 0x8000_0000_0000_0000
  type Key = (Hash, NKey)

  /** (publisher, network) as salted digests. */
  type Publisher = (u32, u32)

  datatype Settings = Settings(maxPending: nat, namesPerHash: nat, publishersPerName: nat)

  datatype Verdict = Verdict(layer: nat, rule: Option<string>, whitelisted: bool)

  datatype Row = Row(
    name: seq<nat>,
    size: int,
    verdict: Verdict,
    firstSeen: int,
    pubs: seq<Publisher>)

  /** One offered record, its key and publisher already digested. */
  datatype Offer = Offer(key: Key, name: seq<nat>, size: int, verdict: Verdict, publisher: Publisher, at: int)

  datatype Change =
    | New(row: Row)
    | Update(pubs: seq<Publisher>, added: nat, verdict: Option<Verdict>)

  type Table = map<Key, Row>

  datatype Cache = Cache(stored: Table, pending: map<Key, Change>)

  predicate Knows(pubs: seq<Publisher>, user: u32) { exists i | 0 <= i < |pubs| :: pubs[i].0 == user }

  predicate Joins(s: Settings, pubs: seq<Publisher>, p: Publisher) {
    |pubs| < s.publishersPerName && !Knows(pubs, p.0)
  }

  function Joined(s: Settings, pubs: seq<Publisher>, p: Publisher): seq<Publisher> {
    if Joins(s, pubs, p) then pubs + [p] else pubs
  }

  function NamesOf<T>(m: map<Key, T>, hash: Hash): set<Key> { set k | k in m && k.0 == hash }

  function NewKeys(pending: map<Key, Change>, hash: Hash): set<Key> {
    set k | k in pending && k.0 == hash && pending[k].New?
  }

  // ---- The simple meaning: every offer goes straight to the table ----

  /** A stored row after one more offer of its name. */
  function Offered(s: Settings, r: Row, o: Offer): Row {
    r.(pubs := Joined(s, r.pubs, o.publisher),
       verdict := if r.verdict.layer == 0 && o.verdict.layer != 0 then o.verdict else r.verdict)
  }

  function WriteThrough(s: Settings, t: Table, o: Offer): Table {
    if o.key in t then t[o.key := Offered(s, t[o.key], o)]
    else if |NamesOf(t, o.key.0)| >= s.namesPerHash then t
    else t[o.key := Row(o.name, o.size, o.verdict, o.at, [o.publisher])]
  }

  // ---- The cache ----

  /** A change folded into one already waiting for the same name. */
  function Folded(s: Settings, ch: Change, o: Offer): Change {
    match ch
    case New(r) =>
      var v := if r.verdict.layer == 0 && o.verdict.layer != 0
               then r.verdict.(layer := o.verdict.layer, rule := o.verdict.rule) else r.verdict;
      New(r.(verdict := v.(whitelisted := v.whitelisted || o.verdict.whitelisted),
             pubs := Joined(s, r.pubs, o.publisher)))
    case Update(pubs, added, verdict) =>
      Update(Joined(s, pubs, o.publisher),
             if Joins(s, pubs, o.publisher) then added + 1 else added,
             if o.verdict.layer != 0 && verdict.None? then Some(o.verdict) else verdict)
  }

  function Noted(s: Settings, c: Cache, o: Offer): Cache {
    if o.key in c.pending then c.(pending := c.pending[o.key := Folded(s, c.pending[o.key], o)])
    else if o.key in c.stored then
      var r := c.stored[o.key];
      var added := if Joins(s, r.pubs, o.publisher) then 1 else 0;
      var verdict := if r.verdict.layer == 0 && o.verdict.layer != 0 then Some(o.verdict) else None;
      if added == 0 && verdict.None? then c
      else c.(pending := c.pending[o.key := Update(Joined(s, r.pubs, o.publisher), added, verdict)])
    else if Capped(s, c, o.key.0) then c
    else c.(pending := c.pending[o.key := New(Row(o.name, o.size, o.verdict, o.at, [o.publisher]))])
  }

  predicate Capped(s: Settings, c: Cache, hash: Hash) {
    |NamesOf(c.stored, hash)| + |NewKeys(c.pending, hash)| >= s.namesPerHash
  }

  /** What writing one change does to its row. */
  function Effect(t: Table, k: Key, ch: Change): Row
    requires ch.Update? ==> k in t
  {
    match ch
    case New(r) => if k in t then t[k] else r
    case Update(pubs, added, verdict) =>
      var r := t[k];
      r.(pubs := if added > 0 then pubs else r.pubs,
         verdict := if verdict.Some? && r.verdict.layer == 0 then verdict.value else r.verdict)
  }

  /** The pending changes belong to the stored table: a new name is not stored yet, an update extends
      what its row holds. */
  ghost predicate Coherent(c: Cache) {
    forall k | k in c.pending ::
      match c.pending[k]
      case New(_) => k !in c.stored
      case Update(pubs, added, verdict) =>
        && k in c.stored
        && c.stored[k].pubs <= pubs && |pubs| == |c.stored[k].pubs| + added
        && (verdict.Some? ==> verdict.value.layer != 0)
  }

  /** The table a flush leaves. */
  ghost function Written(c: Cache): Table
    requires Coherent(c)
  {
    map k | k in c.stored.Keys + c.pending.Keys ::
      if k in c.pending then Effect(c.stored, k, c.pending[k]) else c.stored[k]
  }

  ghost function Flushed(c: Cache): Cache
    requires Coherent(c)
  {
    Cache(Written(c), map[])
  }

  // ---- Flush timing cannot be observed ----

  function PlainRow(r: Row): Row { r.(verdict := r.verdict.(whitelisted := false)) }

  /** A table with the whitelisted column blanked. */
  function Plain(t: Table): Table { map k | k in t :: PlainRow(t[k]) }

  lemma NotedCoherent(s: Settings, c: Cache, o: Offer)
    requires Coherent(c)
    ensures Coherent(Noted(s, c, o))
  {
  }

  /** Names of a hash: those stored and those waiting to be. */
  lemma NamesAddUp(c: Cache, hash: Hash)
    requires Coherent(c)
    ensures |NamesOf(Written(c), hash)| == |NamesOf(c.stored, hash)| + |NewKeys(c.pending, hash)|
  {
    assert NamesOf(Written(c), hash) == NamesOf(c.stored, hash) + NewKeys(c.pending, hash);
    assert NamesOf(c.stored, hash) !! NewKeys(c.pending, hash);
  }

  /** The whitelisted flag comes out as write-through would set it. */
  predicate FlagAgrees(v: Verdict, o: Offer) {
    if v.layer == 0 && o.verdict.layer != 0 then v.whitelisted ==> o.verdict.whitelisted
    else o.verdict.whitelisted ==> v.whitelisted
  }

  ghost predicate WaitingNew(c: Cache, o: Offer) { o.key in c.pending && c.pending[o.key].New? }

  /** One offer noted in the cache adds up to that offer written through; only the whitelisted flag
      of a name still waiting to be inserted can differ, and exactly when it does not agree. */
  lemma NotedIsWriteThrough(s: Settings, c: Cache, o: Offer)
    requires Coherent(c)
    ensures Coherent(Noted(s, c, o))
    ensures Plain(Written(Noted(s, c, o))) == Plain(WriteThrough(s, Written(c), o))
    ensures Written(Noted(s, c, o)) == WriteThrough(s, Written(c), o)
      <==> (WaitingNew(c, o) ==> FlagAgrees(c.pending[o.key].row.verdict, o))
  {
    NotedCoherent(s, c, o);
    NotedElsewhere(s, c, o);
    NotedHere(s, c, o);
    hide Noted, WriteThrough, Coherent, Written, FlagAgrees;
    var a, b := Written(Noted(s, c, o)), WriteThrough(s, Written(c), o);
    assert a.Keys == b.Keys;
    assert a == b <==> (o.key in a ==> a[o.key] == b[o.key]);
    assert Plain(a) == Plain(b);
  }

  lemma NotedElsewhere(s: Settings, c: Cache, o: Offer)
    requires Coherent(c) && Coherent(Noted(s, c, o))
    ensures var a, b := Written(Noted(s, c, o)), WriteThrough(s, Written(c), o);
      forall k | k != o.key :: (k in a <==> k in b) && (k in a ==> a[k] == b[k])
  {
    hide Folded, Offered, Effect, Joined, Joins, Capped, NamesOf;
  }

  lemma NotedHere(s: Settings, c: Cache, o: Offer)
    requires Coherent(c) && Coherent(Noted(s, c, o))
    ensures var a, b := Written(Noted(s, c, o)), WriteThrough(s, Written(c), o);
      && (o.key in a <==> o.key in b)
      && (o.key in a ==>
            && PlainRow(a[o.key]) == PlainRow(b[o.key])
            && (a[o.key] == b[o.key] <==> (WaitingNew(c, o) ==> FlagAgrees(c.pending[o.key].row.verdict, o))))
      && (o.key !in a ==> !WaitingNew(c, o))
  {
    if o.key in c.pending {
      FoldedHere(s, c, o);
    } else if o.key in c.stored {
      LookedUpIsOffered(s, c, o);
    } else {
      NamesAddUp(c, o.key.0);
      InsertedAsIs(c.stored, o.key, Row(o.name, o.size, o.verdict, o.at, [o.publisher]));
    }
  }

  lemma FoldedHere(s: Settings, c: Cache, o: Offer)
    requires Coherent(c) && Coherent(Noted(s, c, o)) && o.key in c.pending
    ensures var a, b := Written(Noted(s, c, o)), WriteThrough(s, Written(c), o);
      && o.key in a && o.key in b
      && PlainRow(a[o.key]) == PlainRow(b[o.key])
      && (a[o.key] == b[o.key] <==> (WaitingNew(c, o) ==> FlagAgrees(c.pending[o.key].row.verdict, o)))
  {
    hide Folded, Offered, Effect, FlagAgrees;
    FoldedIsOffered(s, c.stored, o.key, c.pending[o.key], o);
  }

  lemma InsertedAsIs(t: Table, k: Key, r: Row)
    requires k !in t
    ensures Effect(t, k, New(r)) == r
  {
  }

  lemma FoldedIsOffered(s: Settings, t: Table, k: Key, ch: Change, o: Offer)
    requires Coherent(Cache(t, map[k := ch]))
    ensures Coherent(Cache(t, map[k := Folded(s, ch, o)]))
    ensures var a, b := Effect(t, k, Folded(s, ch, o)), Offered(s, Effect(t, k, ch), o);
      && PlainRow(a) == PlainRow(b)
      && (a == b <==> (ch.New? ==> FlagAgrees(ch.row.verdict, o)))
  {
    var c := Cache(t, map[k := ch]);
    assert k in c.pending;
    if ch.Update? && ch.added == 0 {
      assert ch.pubs == t[k].pubs;
    }
  }

  lemma LookedUpIsOffered(s: Settings, c: Cache, o: Offer)
    requires Coherent(c) && o.key !in c.pending && o.key in c.stored
    ensures var c' := Noted(s, c, o);
      (if o.key in c'.pending then Effect(c'.stored, o.key, c'.pending[o.key]) else c'.stored[o.key])
      == Offered(s, c.stored[o.key], o)
  {
  }

  // ---- Whole schedules ----

  datatype Op = Note(o: Offer) | Flush

  ghost function Perform(s: Settings, c: Cache, ops: seq<Op>): (r: Cache)
    requires Coherent(c)
    ensures Coherent(r)
    decreases |ops|
  {
    if ops == [] then c
    else match ops[0]
      case Note(o) => NotedCoherent(s, c, o); Perform(s, Noted(s, c, o), ops[1..])
      case Flush => Perform(s, Flushed(c), ops[1..])
  }

  function Replay(s: Settings, t: Table, offers: seq<Offer>): Table
    decreases |offers|
  {
    if offers == [] then t else Replay(s, WriteThrough(s, t, offers[0]), offers[1..])
  }

  function Offers(ops: seq<Op>): seq<Offer> {
    if ops == [] then [] else (if ops[0].Note? then [ops[0].o] else []) + Offers(ops[1..])
  }

  lemma PlainWriteThrough(s: Settings, t: Table, u: Table, o: Offer)
    requires Plain(t) == Plain(u)
    ensures Plain(WriteThrough(s, t, o)) == Plain(WriteThrough(s, u, o))
  {
    assert t.Keys == Plain(t).Keys == Plain(u).Keys == u.Keys;
    assert NamesOf(t, o.key.0) == NamesOf(u, o.key.0);
    forall k | k in t ensures PlainRow(t[k]) == PlainRow(u[k]) {
      assert Plain(t)[k] == Plain(u)[k];
    }
    var a, b := WriteThrough(s, t, o), WriteThrough(s, u, o);
    assert a.Keys == b.Keys;
    forall k | k in a ensures PlainRow(a[k]) == PlainRow(b[k]) {}
  }

  lemma {:induction false} PlainReplay(s: Settings, t: Table, u: Table, offers: seq<Offer>)
    requires Plain(t) == Plain(u)
    ensures Plain(Replay(s, t, offers)) == Plain(Replay(s, u, offers))
    decreases |offers|
  {
    if offers != [] {
      PlainWriteThrough(s, t, u, offers[0]);
      PlainReplay(s, WriteThrough(s, t, offers[0]), WriteThrough(s, u, offers[0]), offers[1..]);
    }
  }

  lemma FlushKeepsMeaning(c: Cache)
    requires Coherent(c)
    ensures Coherent(Flushed(c)) && Written(Flushed(c)) == Written(c)
  {
  }

  /** Wherever the flushes fall, the table after a last one holds what writing every offer straight
      through would: names, sizes, first-seen times, verdicts and publishers in order. */
  lemma {:induction false} FlushScheduleInvisible(s: Settings, c: Cache, ops: seq<Op>)
    requires Coherent(c)
    ensures Plain(Written(Perform(s, c, ops))) == Plain(Replay(s, Written(c), Offers(ops)))
    decreases |ops|
  {
    hide Noted, WriteThrough, Written, Plain, Coherent;
    if ops != [] {
      match ops[0]
      case Note(o) =>
        NotedIsWriteThrough(s, c, o);
        FlushScheduleInvisible(s, Noted(s, c, o), ops[1..]);
        assert Offers(ops) == [o] + Offers(ops[1..]);
        assert Offers(ops)[1..] == Offers(ops[1..]);
        PlainReplay(s, Written(Noted(s, c, o)), WriteThrough(s, Written(c), o), Offers(ops[1..]));
      case Flush =>
        FlushKeepsMeaning(c);
        FlushScheduleInvisible(s, Flushed(c), ops[1..]);
        assert Offers(ops) == Offers(ops[1..]);
    }
  }

  /** Every offer of a name already in the table carries a whitelisted flag that agrees with it. */
  ghost predicate FlagsAgree(s: Settings, t: Table, offers: seq<Offer>)
    decreases |offers|
  {
    offers == [] ||
    (&& (offers[0].key in t ==> FlagAgrees(t[offers[0].key].verdict, offers[0]))
     && FlagsAgree(s, WriteThrough(s, t, offers[0]), offers[1..]))
  }

  /** With agreeing flags the whitelisted column is as write-through leaves it, too. */
  lemma {:induction false} FlushScheduleInvisibleToFlags(s: Settings, c: Cache, ops: seq<Op>)
    requires Coherent(c) && FlagsAgree(s, Written(c), Offers(ops))
    ensures Written(Perform(s, c, ops)) == Replay(s, Written(c), Offers(ops))
    decreases |ops|
  {
    if ops != [] {
      match ops[0]
      case Note(o) =>
        assert Offers(ops) == [o] + Offers(ops[1..]);
        assert Offers(ops)[1..] == Offers(ops[1..]);
        NotedIsWriteThrough(s, c, o);
        assert WaitingNew(c, o) ==> Written(c)[o.key] == c.pending[o.key].row;
        hide Noted, WriteThrough, Written, Coherent;
        FlushScheduleInvisibleToFlags(s, Noted(s, c, o), ops[1..]);
      case Flush =>
        FlushKeepsMeaning(c);
        assert Offers(ops) == Offers(ops[1..]);
        hide Noted, WriteThrough, Written, Coherent;
        FlushScheduleInvisibleToFlags(s, Flushed(c), ops[1..]);
    }
  }

  /** Without them it is not: for a new name offered twice, a flush between the two offers makes no
      difference exactly when the second offer's flag agrees with the first's. */
  lemma WhitelistedShowsFlushTiming(s: Settings, t: Table, o1: Offer, o2: Offer)
    requires o1.key == o2.key && o1.key !in t && |NamesOf(t, o1.key.0)| < s.namesPerHash
    ensures Coherent(Cache(t, map[]))
    ensures Written(Perform(s, Cache(t, map[]), [Note(o1), Note(o2)]))
         == Written(Perform(s, Cache(t, map[]), [Note(o1), Flush, Note(o2)]))
      <==> FlagAgrees(o1.verdict, o2)
  {
    var c0 := Cache(t, map[]);
    FirstNoted(s, t, o1);
    hide Noted, WriteThrough, Written, Folded, FlagAgrees;
    var c1 := Noted(s, c0, o1);
    NotedIsWriteThrough(s, c1, o2);
    NotedIsWriteThrough(s, Flushed(c1), o2);
    FlushKeepsMeaning(c1);
    TwoOps(s, c0, Note(o1), Note(o2));
    ThreeOps(s, c0, Note(o1), Flush, Note(o2));
    hide Coherent;
  }

  lemma FirstNoted(s: Settings, t: Table, o: Offer)
    requires o.key !in t && |NamesOf(t, o.key.0)| < s.namesPerHash
    ensures Coherent(Cache(t, map[])) && Coherent(Noted(s, Cache(t, map[]), o))
    ensures Noted(s, Cache(t, map[]), o).pending == map[o.key := New(Row(o.name, o.size, o.verdict, o.at, [o.publisher]))]
  {
    var c := Cache(t, map[]);
    assert NewKeys(c.pending, o.key.0) == {};
    NotedCoherent(s, c, o);
  }

  lemma TwoOps(s: Settings, c: Cache, a: Op, b: Op)
    requires Coherent(c)
    ensures Perform(s, c, [a, b]) == Perform(s, Perform(s, c, [a]), [b])
  {
    assert [a, b][1..] == [b] && [a][1..] == [] && [b][1..] == [];
  }

  lemma ThreeOps(s: Settings, c: Cache, a: Op, b: Op, d: Op)
    requires Coherent(c)
    ensures Perform(s, c, [a, b, d]) == Perform(s, Perform(s, Perform(s, c, [a]), [b]), [d])
  {
    assert [a, b, d][1..] == [b, d] && [a][1..] == [];
    TwoOps(s, Perform(s, c, [a]), b, d);
  }

  // ---- The caps ----

  predicate DistinctUsers(pubs: seq<Publisher>) {
    forall i, j | 0 <= i < j < |pubs| :: pubs[i].0 != pubs[j].0
  }

  ghost predicate WithinCaps(s: Settings, t: Table) {
    && (forall k | k in t :: |t[k].pubs| <= Max(1, s.publishersPerName) && DistinctUsers(t[k].pubs))
    && (forall hash :: |NamesOf(t, hash)| <= s.namesPerHash)
  }

  lemma JoinedWithinCap(s: Settings, pubs: seq<Publisher>, p: Publisher)
    requires |pubs| <= Max(1, s.publishersPerName) && DistinctUsers(pubs)
    ensures |Joined(s, pubs, p)| <= Max(1, s.publishersPerName) && DistinctUsers(Joined(s, pubs, p))
  {
  }

  lemma NamesWithinCap(s: Settings, t: Table, o: Offer, hash: Hash)
    requires |NamesOf(t, hash)| <= s.namesPerHash
    ensures |NamesOf(WriteThrough(s, t, o), hash)| <= s.namesPerHash
  {
    hide Offered;
    var t' := WriteThrough(s, t, o);
    if hash == o.key.0 && o.key !in t && o.key in t' {
      assert NamesOf(t', hash) == NamesOf(t, hash) + {o.key};
    } else {
      assert NamesOf(t', hash) == NamesOf(t, hash);
    }
  }

  lemma WriteThroughWithinCaps(s: Settings, t: Table, o: Offer)
    requires WithinCaps(s, t)
    ensures WithinCaps(s, WriteThrough(s, t, o))
  {
    hide NamesOf, Joined, DistinctUsers;
    var t' := WriteThrough(s, t, o);
    forall hash ensures |NamesOf(t', hash)| <= s.namesPerHash {
      NamesWithinCap(s, t, o, hash);
    }
    if o.key in t {
      JoinedWithinCap(s, t[o.key].pubs, o.publisher);
    } else {
      assert DistinctUsers([o.publisher]) by { OneUser(o.publisher); }
    }
  }

  lemma OneUser(p: Publisher)
    ensures DistinctUsers([p])
  {
  }

  lemma {:induction false} ReplayWithinCaps(s: Settings, t: Table, offers: seq<Offer>)
    requires WithinCaps(s, t)
    ensures WithinCaps(s, Replay(s, t, offers))
    decreases |offers|
  {
    if offers != [] {
      WriteThroughWithinCaps(s, t, offers[0]);
      ReplayWithinCaps(s, WriteThrough(s, t, offers[0]), offers[1..]);
    }
  }

  /** The caps hold in the table whatever the schedule: publishers per name, each counted once, and
      names per hash, counting those stored and those still pending. */
  lemma CapsHold(s: Settings, t: Table, ops: seq<Op>)
    requires WithinCaps(s, t)
    ensures Coherent(Cache(t, map[]))
    ensures WithinCaps(s, Written(Perform(s, Cache(t, map[]), ops)))
  {
    var c := Cache(t, map[]);
    assert Written(c) == t;
    FlushScheduleInvisible(s, c, ops);
    ReplayWithinCaps(s, t, Offers(ops));
    PlainCaps(s, Written(Perform(s, c, ops)), Replay(s, t, Offers(ops)));
  }

  lemma PlainCaps(s: Settings, t: Table, u: Table)
    requires Plain(t) == Plain(u) && WithinCaps(s, u)
    ensures WithinCaps(s, t)
  {
    assert t.Keys == Plain(t).Keys == Plain(u).Keys == u.Keys;
    forall hash ensures NamesOf(t, hash) == NamesOf(u, hash) {}
    forall k | k in t ensures t[k].pubs == u[k].pubs {
      assert Plain(t)[k] == Plain(u)[k];
    }
  }
}
