/** The name-history writer (src/name_db.rs): the SQLite table as a map with unique row ids, and the
    writer thread that folds offers into pending changes and flushes them in batches. */
module NameDb {
  import opened Bytes
  import opened Common
  import opened NameCache
  import opened Sorting

  type u64 = n: nat | n < 0x1_0000_0000_0000_0000

  // ---- The publishers blob ----

  function PubsEncode(p: seq<Publisher>): seq<byte> {
    if p == [] then [] else PubsEncode(p[..|p| - 1]) + Le32(p[|p| - 1].0) + Le32(p[|p| - 1].1)
  }

  /** Whole eight-byte pairs; a shorter tail is ignored. */
  function PubsDecode(b: seq<byte>): seq<Publisher> {
    if |b| < 8 then [] else [(FromLe32(b[..4]), FromLe32(b[4..8]))] + PubsDecode(b[8..])
  }

  method EncodePubs(p: seq<Publisher>) returns (b: seq<byte>)
    ensures b == PubsEncode(p)
    ensures |b| == 8 * |p| && PubsDecode(b) == p
  {
    b := [];
    for i := 0 to |p|
      invariant b == PubsEncode(p[..i])
    {
      assert p[..i + 1][..i] == p[..i];
      b := b + Le32(p[i].0);
      b := b + Le32(p[i].1);
    }
    assert p[..|p|] == p;
    PubsRoundTrip(p);
  }

  lemma {:induction false} DecodeOneMore(b: seq<byte>, p: Publisher)
    requires |b| % 8 == 0
    ensures PubsDecode(b + Le32(p.0) + Le32(p.1)) == PubsDecode(b) + [p]
    decreases |b|
  {
    var x := b + Le32(p.0) + Le32(p.1);
    if b == [] {
      assert x[..4] == Le32(p.0) && x[4..8] == Le32(p.1) && x[8..] == [];
      LeRoundTrip(p.0);
      LeRoundTrip(p.1);
    } else {
      assert x[..4] == b[..4] && x[4..8] == b[4..8] && x[8..] == b[8..] + Le32(p.0) + Le32(p.1);
      DecodeOneMore(b[8..], p);
    }
  }

  /** What a row's blob holds reads back as the publishers written. */
  lemma {:induction false} PubsRoundTrip(p: seq<Publisher>)
    ensures |PubsEncode(p)| == 8 * |p| && PubsDecode(PubsEncode(p)) == p
  {
    if p != [] {
      var init, last := p[..|p| - 1], p[|p| - 1];
      PubsRoundTrip(init);
      EncodedLast(p);
      hide PubsEncode, PubsDecode, Le32;
      WholePairs(|init|);
      DecodeOneMore(PubsEncode(init), last);
      assert init + [last] == p;
    }
  }

  lemma EncodedLast(p: seq<Publisher>)
    requires p != []
    ensures PubsEncode(p) == PubsEncode(p[..|p| - 1]) + Le32(p[|p| - 1].0) + Le32(p[|p| - 1].1)
  {
    hide Le32;
  }

  lemma WholePairs(n: nat)
    ensures 8 * n % 8 == 0
  {
  }

  /** Pair i of a blob: the user's four bytes and then the network's, lowest byte first. */
  lemma {:induction false} DecodedAt(b: seq<byte>, i: nat)
    requires 8 * i + 8 <= |b|
    ensures |PubsDecode(b)| > i
    ensures PubsDecode(b)[i] == (FromLe32(b[8 * i..8 * i + 4]), FromLe32(b[8 * i + 4..8 * i + 8]))
  {
    hide FromLe32, PubsDecode;
    DecodedFirst(b);
    if i == 0 {
      assert b[0..4] == b[..4];
    } else {
      var j := 8 * i - 8;
      DecodedAt(b[8..], i - 1);
      SliceOfSlice(b, j, j + 4);
      SliceOfSlice(b, j + 4, j + 8);
    }
  }

  lemma DecodedFirst(b: seq<byte>)
    requires |b| >= 8
    ensures PubsDecode(b) == [(FromLe32(b[..4]), FromLe32(b[4..8]))] + PubsDecode(b[8..])
  {
    hide FromLe32;
  }

  lemma SliceOfSlice(b: seq<byte>, j: nat, k: nat)
    requires 8 <= |b| && j <= k <= |b| - 8
    ensures b[8..][j..k] == b[8 + j..8 + k]
  {
  }

  lemma {:induction false} DecodeLength(b: seq<byte>)
    ensures |PubsDecode(b)| == |b| / 8
  {
    if |b| >= 8 {
      DecodeLength(b[8..]);
    }
  }

  function NetsOf(p: seq<Publisher>): set<u32> { set i | 0 <= i < |p| :: p[i].1 }

  function Elements<T>(s: seq<T>): set<T> { set x | x in s }

  predicate Increasing(s: seq<u32>) { forall i, j | 0 <= i < j < |s| :: s[i] < s[j] }

  lemma {:induction false} IncreasingSize(s: seq<u32>)
    requires Increasing(s)
    ensures |Elements(s)| == |s|
  {
    if s != [] {
      var init, last := s[..|s| - 1], s[|s| - 1];
      IncreasingSize(init);
      assert s == init + [last];
      assert Elements(s) == Elements(init) + {last};
    }
  }

  /** Drop equal neighbours: of a sorted sequence, what is left has each element once. */
  method Dedup(n: seq<u32>) returns (kept: seq<u32>)
    requires forall i, j | 0 <= i < j < |n| :: n[i] <= n[j]
    ensures Increasing(kept)
    ensures forall x :: x in kept <==> x in n
  {
    kept := [];
    for i := 0 to |n|
      invariant Increasing(kept)
      invariant forall x :: x in kept <==> x in n[..i]
      invariant if i == 0 then kept == [] else kept != [] && kept[|kept| - 1] == n[i - 1]
    {
      assert n[..i + 1] == n[..i] + [n[i]];
      if kept == [] || kept[|kept| - 1] != n[i] {
        kept := kept + [n[i]];
      }
    }
    assert n[..|n|] == n;
  }

  /** Distinct networks: sort the network column, drop equal neighbours, count. */
  method DistinctNets(p: seq<Publisher>) returns (count: nat)
    ensures count == |NetsOf(p)| == |set i | 0 <= i < |p| :: p[i].1|
  {
    var n := seq(|p|, i requires 0 <= i < |p| => p[i].1);
    var id := (x: u32) => x;
    SortSorts(n, id);
    SameMembers(Sort(n, id), n);
    ghost var sorted := Sort(n, id);
    assert forall i, j | 0 <= i < j < |sorted| :: id(sorted[i]) <= id(sorted[j]);
    var kept := Dedup(Sort(n, id));
    count := |kept|;
    IncreasingSize(kept);
    forall x ensures x in kept <==> x in NetsOf(p) {
      if x in n {
        var i :| 0 <= i < |n| && n[i] == x;
        assert p[i].1 == x;
      }
      if i :| 0 <= i < |p| && p[i].1 == x {
        assert n[i] == x;
      }
    }
    assert Elements(kept) == NetsOf(p);
  }

  // ---- The table and the statements the writer runs on it ----

  datatype DbRow = DbRow(
    id: nat,
    name: seq<byte>,
    size: int,
    layer: nat,
    rule: Option<string>,
    whitelisted: bool,
    firstSeen: int,
    npubs: nat,
    nnets: nat,
    pubs: seq<byte>)

  type Rows = map<Key, DbRow>

  /** Rows by their unique key, the next row id, and the counts kept in the meta table. */
  datatype Db = Db(rows: Rows, nextId: nat, files: nat, names: nat, publishers: nat)

  function Decoded(r: DbRow): Row {
    Row(r.name, r.size, Verdict(r.layer, r.rule, r.whitelisted), r.firstSeen, PubsDecode(r.pubs))
  }

  function Stored(rows: Rows): Table { map k | k in rows :: Decoded(rows[k]) }

  function HashesOf(rows: Rows): set<Hash> { set k | k in rows :: k.0 }

  function PubCount(r: DbRow): nat { |PubsDecode(r.pubs)| }

  /** INSERT OR IGNORE: the number of rows inserted. */
  function InsertOrIgnore(db: Db, k: Key, r: DbRow): (Db, nat) {
    if k in db.rows then (db, 0)
    else (db.(rows := db.rows[k := r.(id := db.nextId)], nextId := db.nextId + 1), 1)
  }

  function UpdatePubs(db: Db, id: nat, npubs: nat, nnets: nat, pubs: seq<byte>): Db {
    db.(rows := map k | k in db.rows ::
          if db.rows[k].id == id then db.rows[k].(npubs := npubs, nnets := nnets, pubs := pubs) else db.rows[k])
  }

  function UpdateVerdict(db: Db, id: nat, v: Verdict): Db {
    db.(rows := map k | k in db.rows ::
          if db.rows[k].id == id && db.rows[k].layer == 0
          then db.rows[k].(layer := v.layer, rule := v.rule, whitelisted := v.whitelisted) else db.rows[k])
  }

  // ---- The writer ----

  /** One offered record. */
  datatype NameEvent = NameEvent(
    hash: Hash,
    size: u64,
    name: seq<byte>,
    layer: nat,
    rule: Option<string>,
    whitelisted: bool,
    userHash: nat,
    net: u64)

  /** The MD5 digests, left uninterpreted: the key of a name, and the salted digests of a user hash
      and of a network. */
  datatype Digests = Digests(nameKey: seq<byte> -> NKey, user: nat -> u32, net: u64 -> u32)

  datatype Pend =
    | PendNew(size: u64, layer: nat, rule: Option<string>, whitelisted: bool, pubs: seq<Publisher>, at: int)
    | PendUpdate(id: nat, pubs: seq<Publisher>, addedPubs: nat, verdict: Option<Verdict>)

  type Batch = seq<(Key, (seq<byte>, Pend))>

  const MAX_NAME: nat := 1024

  /** `size as i64`. */
  function AsI64(u: u64): (n: int)
    ensures -0x8000_0000_0000_0000 <= n < 0x8000_0000_0000_0000 && (n == u || n == u - 0x1_0000_0000_0000_0000)
  {
    if u < 0x8000_0000_0000_0000 then u else u - 0x1_0000_0000_0000_0000
  }

  function Meaning(p: (seq<byte>, Pend)): Change {
    match p.1
    case PendNew(size, layer, rule, whitelisted, pubs, at) =>
      New(Row(p.0, AsI64(size), Verdict(layer, rule, whitelisted), at, pubs))
    case PendUpdate(_, pubs, added, verdict) => Update(pubs, added, verdict)
  }

  function Meanings(pending: map<Key, (seq<byte>, Pend)>): map<Key, Change> {
    map k | k in pending :: Meaning(pending[k])
  }

  /** A byte position where UTF-8 text may be cut. */
  predicate CharBoundary(name: seq<byte>, i: nat)
    requires i <= |name|
  {
    i == 0 || i == |name| || !(0x80 <= name[i] < 0xc0)
  }

  function ClippedAt(name: seq<byte>, end: nat): seq<byte>
    requires end <= |name|
  {
    if CharBoundary(name, end) then name[..end] else ClippedAt(name, end - 1)
  }

  function Clipped(name: seq<byte>): seq<byte> {
    if |name| > MAX_NAME then ClippedAt(name, MAX_NAME) else name
  }

  /** The longest prefix of at most `end` bytes that cuts no character. */
  lemma ClippedAtIsLongest(name: seq<byte>, end: nat)
    requires end <= |name|
    ensures var c := ClippedAt(name, end);
      && c <= name && |c| <= end && CharBoundary(name, |c|)
      && forall i | |c| < i <= end :: !CharBoundary(name, i)
  {
  }

  function Digested(dg: Digests, e: NameEvent, at: int): Offer {
    var name := Clipped(e.name);
    Offer((e.hash, dg.nameKey(name)), name, AsI64(e.size), Verdict(e.layer, e.rule, e.whitelisted),
          (dg.user(e.userHash), dg.net(e.net)), at)
  }

  ghost predicate IdsDistinct(rows: Rows) {
    forall j, k | j in rows && k in rows && rows[j].id == rows[k].id :: j == k
  }

  ghost predicate RowsTrue(rows: Rows, nextId: nat) {
    && (forall k | k in rows :: rows[k].id < nextId)
    && IdsDistinct(rows)
    && (forall k | k in rows ::
          && rows[k].npubs == |PubsDecode(rows[k].pubs)|
          && rows[k].nnets == |NetsOf(PubsDecode(rows[k].pubs))|)
  }

  /** The stored counts are true: distinct hashes, rows, and publisher pairs over all rows. */
  ghost predicate DbTrue(db: Db) {
    && RowsTrue(db.rows, db.nextId)
    && db.files == |HashesOf(db.rows)| && db.names == |db.rows| && db.publishers == Total(db.rows, PubCount)
  }

  lemma UpdateOne(db: Db, k: Key, npubs: nat, nnets: nat, pubs: seq<byte>, v: Verdict)
    requires IdsDistinct(db.rows) && k in db.rows
    ensures UpdatePubs(db, db.rows[k].id, npubs, nnets, pubs)
      == db.(rows := db.rows[k := db.rows[k].(npubs := npubs, nnets := nnets, pubs := pubs)])
    ensures UpdateVerdict(db, db.rows[k].id, v)
      == if db.rows[k].layer == 0
         then db.(rows := db.rows[k := db.rows[k].(layer := v.layer, rule := v.rule, whitelisted := v.whitelisted)])
         else db
  {
    var a := UpdatePubs(db, db.rows[k].id, npubs, nnets, pubs);
    assert a.rows == db.rows[k := db.rows[k].(npubs := npubs, nnets := nnets, pubs := pubs)];
    var b := UpdateVerdict(db, db.rows[k].id, v);
    if db.rows[k].layer == 0 {
      assert b.rows == db.rows[k := db.rows[k].(layer := v.layer, rule := v.rule, whitelisted := v.whitelisted)];
    } else {
      assert b.rows == db.rows;
    }
  }

  // ---- A transaction, one change at a time ----

  /** The rows whose keys are in `done` hold their change's effect, all others what they held. */
  ghost predicate Effects(rows: Rows, now: Rows, c: Cache, done: set<Key>) {
    && done <= c.pending.Keys
    && now.Keys == rows.Keys + done
    && (forall k | k in done ::
          (c.pending[k].Update? ==> k in c.stored) && Decoded(now[k]) == Effect(c.stored, k, c.pending[k]))
    && (forall k | k in rows :: now[k].id == rows[k].id && (k !in done ==> now[k] == rows[k]))
  }

  ghost predicate Counted(rows: Rows, now: Rows, nf: nat, nn: nat, np: nat) {
    && |HashesOf(now)| == |HashesOf(rows)| + nf
    && |now| == |rows| + nn
    && Total(now, PubCount) == Total(rows, PubCount) + np
  }

  /** The table inside the transaction when the changes of the keys in `done` have been written. */
  ghost predicate Midway(db: Db, tx: Db, c: Cache, done: set<Key>, nf: nat, nn: nat, np: nat) {
    && Coherent(c) && c.stored == Stored(db.rows)
    && RowsTrue(tx.rows, tx.nextId)
    && tx.files == db.files && tx.names == db.names && tx.publishers == db.publishers
    && Effects(db.rows, tx.rows, c, done)
    && Counted(db.rows, tx.rows, nf, nn, np)
  }

  lemma HashesPut(rows: Rows, k: Key, r: DbRow)
    ensures HashesOf(rows[k := r]) == HashesOf(rows) + {k.0}
    ensures |HashesOf(rows[k := r])| == |HashesOf(rows)| + (if k.0 in HashesOf(rows) then 0 else 1)
    ensures k in rows ==> k.0 in HashesOf(rows)
  {
    assert HashesOf(rows[k := r]) == HashesOf(rows) + {k.0};
  }

  lemma SizePut(rows: Rows, k: Key, r: DbRow)
    ensures |rows[k := r]| == |rows| + (if k in rows then 0 else 1)
  {
    assert rows[k := r].Keys == rows.Keys + {k};
  }

  lemma CountInsert(rows: Rows, now: Rows, k: Key, r: DbRow, nf: nat, nn: nat, np: nat)
    requires Counted(rows, now, nf, nn, np) && k !in now
    ensures Counted(rows, now[k := r], nf + (if k.0 in HashesOf(now) then 0 else 1), nn + 1, np + PubCount(r))
  {
    hide PubCount, HashesOf;
    HashesPut(now, k, r);
    SizePut(now, k, r);
    TotalPut(now, PubCount, k, r);
  }

  lemma CountUpdate(rows: Rows, now: Rows, k: Key, r: DbRow, nf: nat, nn: nat, np: nat, added: nat)
    requires Counted(rows, now, nf, nn, np) && k in now && PubCount(r) == PubCount(now[k]) + added
    ensures Counted(rows, now[k := r], nf, nn, np + added)
  {
    hide PubCount, HashesOf;
    HashesPut(now, k, r);
    SizePut(now, k, r);
    TotalPut(now, PubCount, k, r);
  }

  predicate RowTrue(r: DbRow) {
    r.npubs == |PubsDecode(r.pubs)| && r.nnets == |NetsOf(PubsDecode(r.pubs))|
  }

  lemma EffectsPut(rows: Rows, now: Rows, c: Cache, done: set<Key>, k: Key, r: DbRow)
    requires Effects(rows, now, c, done) && k in c.pending && k !in done
    requires c.pending[k].Update? ==> k in c.stored
    requires Decoded(r) == Effect(c.stored, k, c.pending[k]) && (k in rows ==> r.id == rows[k].id)
    ensures Effects(rows, now[k := r], c, done + {k})
  {
    hide Effect, Decoded;
  }

  lemma RowsPut(now: Rows, nextId: nat, k: Key, r: DbRow)
    requires RowsTrue(now, nextId) && RowTrue(r)
    requires k in now ==> r.id == now[k].id
    ensures k in now ==> RowsTrue(now[k := r], nextId)
    ensures k !in now && r.id == nextId ==> RowsTrue(now[k := r], nextId + 1)
  {
    hide PubsDecode, NetsOf;
  }

  lemma InsertMidway(db: Db, tx: Db, c: Cache, done: set<Key>, nf: nat, nn: nat, np: nat, k: Key, r: DbRow)
    requires Midway(db, tx, c, done, nf, nn, np)
    requires k in c.pending && k !in done && c.pending[k] == New(Decoded(r)) && RowTrue(r)
    ensures var (tx', inserted) := InsertOrIgnore(tx, k, r);
      && inserted == 1
      && Midway(db, tx', c, done + {k}, nf + (if k.0 in HashesOf(tx.rows) then 0 else 1), nn + 1, np + PubCount(r))
  {
    hide PubsDecode, NetsOf, HashesOf, Counted, PubCount, RowsTrue, Effects, Decoded, Effect, Coherent;
    var r' := r.(id := tx.nextId);
    NewIsAbsent(db.rows, tx.rows, c, done, k);
    SameContents(c.stored, k, r, tx.nextId);
    CountInsert(db.rows, tx.rows, k, r', nf, nn, np);
    EffectsPut(db.rows, tx.rows, c, done, k, r');
    RowsPut(tx.rows, tx.nextId, k, r');
  }

  lemma StartMidway(db: Db, c: Cache)
    requires DbTrue(db) && Coherent(c) && c.stored == Stored(db.rows)
    ensures Midway(db, db, c, {}, 0, 0, 0)
  {
  }

  /** The two statements an update runs, each only when it has something to set. */
  function Updated(tx: Db, id: nat, pubs: seq<Publisher>, added: nat, v: Option<Verdict>): Db {
    var tx1 := if added > 0 then UpdatePubs(tx, id, |pubs|, |NetsOf(pubs)|, PubsEncode(pubs)) else tx;
    if v.Some? then UpdateVerdict(tx1, id, v.value) else tx1
  }

  function UpdatedRow(r: DbRow, pubs: seq<Publisher>, added: nat, v: Option<Verdict>): DbRow {
    var r1 := if added > 0 then r.(npubs := |pubs|, nnets := |NetsOf(pubs)|, pubs := PubsEncode(pubs)) else r;
    if v.Some? && r.layer == 0 then r1.(layer := v.value.layer, rule := v.value.rule, whitelisted := v.value.whitelisted)
    else r1
  }

  lemma UpdatedIsOneRow(tx: Db, k: Key, pubs: seq<Publisher>, added: nat, v: Option<Verdict>)
    requires IdsDistinct(tx.rows) && k in tx.rows
    ensures Updated(tx, tx.rows[k].id, pubs, added, v) == tx.(rows := tx.rows[k := UpdatedRow(tx.rows[k], pubs, added, v)])
  {
    hide PubsEncode, NetsOf, UpdatePubs, UpdateVerdict;
    UpdateOne(tx, k, |pubs|, |NetsOf(pubs)|, PubsEncode(pubs), Verdict(0, None, false));
    var r1 := if added > 0 then tx.rows[k].(npubs := |pubs|, nnets := |NetsOf(pubs)|, pubs := PubsEncode(pubs)) else tx.rows[k];
    var tx1 := tx.(rows := tx.rows[k := r1]);
    assert tx.rows[k := tx.rows[k]] == tx.rows;
    if v.Some? {
      UpdateOne(tx1, k, 0, 0, [], v.value);
    }
  }

  /** An update's two statements leave its row as the change means it. */
  lemma UpdateStatements(db: Db, tx: Db, c: Cache, done: set<Key>, nf: nat, nn: nat, np: nat, k: Key,
                         pubs: seq<Publisher>, added: nat, v: Option<Verdict>)
    requires Midway(db, tx, c, done, nf, nn, np)
    requires k in c.pending && k !in done && c.pending[k] == Update(pubs, added, v) && k in db.rows
    ensures Midway(db, Updated(tx, db.rows[k].id, pubs, added, v), c, done + {k}, nf, nn, np + added)
  {
    assert k in tx.rows && tx.rows[k] == db.rows[k] && k in c.stored && c.stored[k] == Decoded(db.rows[k]);
    assert RowTrue(tx.rows[k]);
    var r := UpdatedRow(db.rows[k], pubs, added, v);
    UpdatedRowMeans(c.stored, k, db.rows[k], pubs, added, v);
    UpdatedIsOneRow(tx, k, pubs, added, v);
    hide Midway, UpdatedRow, Updated, Decoded, Effect;
    UpdateMidway(db, tx, c, done, nf, nn, np, k, r);
  }

  lemma UpdatedRowMeans(t: Table, k: Key, r: DbRow, pubs: seq<Publisher>, added: nat, v: Option<Verdict>)
    requires k in t && t[k] == Decoded(r) && RowTrue(r)
    ensures var r' := UpdatedRow(r, pubs, added, v);
      RowTrue(r') && r'.id == r.id && Decoded(r') == Effect(t, k, Update(pubs, added, v))
  {
    PubsRoundTrip(pubs);
  }

  lemma NewIsAbsent(rows: Rows, now: Rows, c: Cache, done: set<Key>, k: Key)
    requires Coherent(c) && c.stored == Stored(rows) && Effects(rows, now, c, done)
    requires k in c.pending && k !in done && c.pending[k].New?
    ensures k !in rows && k !in c.stored && k !in now
  {
  }

  lemma SameContents(t: Table, k: Key, r: DbRow, id: nat)
    requires k !in t
    ensures var r' := r.(id := id);
      RowTrue(r') == RowTrue(r) && PubCount(r') == PubCount(r) && Decoded(r') == Effect(t, k, New(Decoded(r)))
  {
  }

  lemma UpdateMidway(db: Db, tx: Db, c: Cache, done: set<Key>, nf: nat, nn: nat, np: nat, k: Key, r: DbRow)
    requires Midway(db, tx, c, done, nf, nn, np)
    requires k in c.pending && k !in done && c.pending[k].Update? && k in db.rows && k in c.stored
    requires r.id == db.rows[k].id && Decoded(r) == Effect(c.stored, k, c.pending[k]) && RowTrue(r)
    ensures Midway(db, tx.(rows := tx.rows[k := r]), c, done + {k}, nf, nn, np + c.pending[k].added)
  {
    UpdateCount(db.rows, c, k, r);
    assert k in tx.rows && tx.rows[k] == db.rows[k];
    hide PubsDecode, NetsOf, HashesOf, Counted, PubCount, RowsTrue, Effects, Decoded, Effect, Coherent;
    CountUpdate(db.rows, tx.rows, k, r, nf, nn, np, c.pending[k].added);
    EffectsPut(db.rows, tx.rows, c, done, k, r);
    RowsPut(tx.rows, tx.nextId, k, r);
  }

  lemma UpdateCount(rows: Rows, c: Cache, k: Key, r: DbRow)
    requires Coherent(c) && c.stored == Stored(rows) && k in c.pending && c.pending[k].Update? && k in c.stored
    requires Decoded(r) == Effect(c.stored, k, c.pending[k])
    ensures k in rows && PubCount(r) == PubCount(rows[k]) + c.pending[k].added
  {
    assert c.stored[k] == Decoded(rows[k]);
  }

  /** When every pending change has been written, the table is what the cache meant, and adding the
      transaction's counts to the stored ones keeps those true. */
  lemma WholeBatch(db: Db, tx: Db, c: Cache, nf: nat, nn: nat, np: nat)
    requires DbTrue(db) && Midway(db, tx, c, c.pending.Keys, nf, nn, np)
    ensures Stored(tx.rows) == Written(c)
    ensures DbTrue(tx.(files := db.files + nf, names := db.names + nn, publishers := db.publishers + np))
  {
    EffectsAreWritten(db.rows, tx.rows, c);
    hide RowsTrue, HashesOf, PubCount, Effects, Coherent, Stored, Written;
  }

  lemma EffectsAreWritten(rows: Rows, now: Rows, c: Cache)
    requires Coherent(c) && c.stored == Stored(rows) && Effects(rows, now, c, c.pending.Keys)
    ensures Stored(now) == Written(c)
  {
    hide Decoded, Effect;
    assert Stored(now).Keys == Written(c).Keys;
    forall k | k in now ensures Decoded(now[k]) == Written(c)[k] {
      if k !in c.pending {
        assert c.stored[k] == Decoded(rows[k]);
      }
    }
  }

  // ---- The batch ----

  function KeyRank(k: Key): int { k.0 * 0x1_0000_0000_0000_0000 + (k.1 + 0x8000_0000_0000_0000) }

  /** Ranking keys by one number orders them by hash, then by name key. */
  lemma KeyRankIsLexicographic(a: Key, b: Key)
    ensures KeyRank(a) <= KeyRank(b) <==> a.0 < b.0 || (a.0 == b.0 && a.1 <= b.1)
  {
  }

  function BatchRank(x: (Key, (seq<byte>, Pend))): int { KeyRank(x.0) }

  /** The batch lists every pending change once. */
  ghost predicate Lists(batch: Batch, pending: map<Key, (seq<byte>, Pend)>) {
    && (forall i | 0 <= i < |batch| :: batch[i].0 in pending && pending[batch[i].0] == batch[i].1)
    && (forall i, j | 0 <= i < j < |batch| :: batch[i].0 != batch[j].0)
    && (forall k | k in pending :: (k, pending[k]) in batch)
  }

  lemma SortLists(batch: Batch, pending: map<Key, (seq<byte>, Pend)>)
    requires Lists(batch, pending)
    ensures Lists(Sort(batch, BatchRank), pending)
  {
    var t := Sort(batch, BatchRank);
    SortSorts(batch, BatchRank);
    forall i | 0 <= i < |t| ensures t[i].0 in pending && pending[t[i].0] == t[i].1 {
      SameMember(t, batch, t[i]);
      var j :| 0 <= j < |batch| && batch[j] == t[i];
    }
    forall k | k in pending ensures (k, pending[k]) in t {
      SameMember(t, batch, (k, pending[k]));
    }
    forall i, j | 0 <= i < j < |t| ensures t[i].0 != t[j].0 {
      if t[i].0 == t[j].0 {
        assert t[i] == t[j];
        OnceEach(batch, t[i]);
        TwiceIn(t, i, j);
      }
    }
  }

  lemma {:induction false} OnceEach(batch: Batch, x: (Key, (seq<byte>, Pend)))
    requires forall i, j | 0 <= i < j < |batch| :: batch[i].0 != batch[j].0
    ensures multiset(batch)[x] <= 1
  {
    if batch != [] {
      var init, last := batch[..|batch| - 1], batch[|batch| - 1];
      assert batch == init + [last];
      OnceEach(init, x);
      if x == last {
        assert x !in init;
      }
    }
  }

  lemma TwiceIn<T>(t: seq<T>, i: nat, j: nat)
    requires i < j < |t| && t[i] == t[j]
    ensures multiset(t)[t[i]] >= 2
  {
    assert t == t[..i] + [t[i]] + t[i + 1..j] + [t[j]] + t[j + 1..];
  }

  /** `drain().collect()` in any order, then sorted by key. */
  method SortedBatch(pending: map<Key, (seq<byte>, Pend)>) returns (batch: Batch)
    ensures Lists(batch, pending) && SortedBy(batch, BatchRank)
  {
    batch := [];
    var rest := pending;
    while rest != map[]
      invariant rest.Keys <= pending.Keys && forall k | k in rest :: rest[k] == pending[k]
      invariant forall i | 0 <= i < |batch| ::
        batch[i].0 in pending && batch[i].0 !in rest && pending[batch[i].0] == batch[i].1
      invariant forall i, j | 0 <= i < j < |batch| :: batch[i].0 != batch[j].0
      invariant forall k | k in pending && k !in rest :: (k, pending[k]) in batch
      decreases |rest|
    {
      var k :| k in rest;
      batch := batch + [(k, rest[k])];
      assert (k, pending[k]) == batch[|batch| - 1];
      Smaller(rest, k);
      rest := rest - {k};
    }
    SortLists(batch, pending);
    SortSorts(batch, BatchRank);
    batch := Sort(batch, BatchRank);
  }

  lemma Smaller<K, V>(m: map<K, V>, k: K)
    requires k in m
    ensures |m - {k}| < |m|
  {
    assert (m - {k}).Keys == m.Keys - {k};
  }

  function KeysTo(batch: Batch, i: nat): set<Key>
    requires i <= |batch|
  {
    set j | 0 <= j < i :: batch[j].0
  }

  lemma BatchStep(batch: Batch, all: map<Key, (seq<byte>, Pend)>, i: nat)
    requires Lists(batch, all) && i < |batch|
    ensures batch[i].0 !in KeysTo(batch, i) && KeysTo(batch, i + 1) == KeysTo(batch, i) + {batch[i].0}
    ensures batch[i].0 in all && all[batch[i].0] == batch[i].1
    ensures batch[i].0 in Meanings(all) && Meanings(all)[batch[i].0] == Meaning(batch[i].1)
  {
  }

  lemma NoKeys(batch: Batch)
    ensures KeysTo(batch, 0) == {}
  {
  }

  lemma BatchDone(batch: Batch, all: map<Key, (seq<byte>, Pend)>)
    requires Lists(batch, all)
    ensures KeysTo(batch, |batch|) == Meanings(all).Keys
  {
    forall k | k in all ensures k in KeysTo(batch, |batch|) {
      var i :| 0 <= i < |batch| && batch[i] == (k, all[k]);
    }
  }

  lemma NewRowMeans(r: DbRow, pubs: seq<Publisher>)
    requires r.npubs == |pubs| && r.nnets == |NetsOf(pubs)| && r.pubs == PubsEncode(pubs)
    ensures RowTrue(r) && PubCount(r) == |pubs|
    ensures Decoded(r) == Row(r.name, r.size, Verdict(r.layer, r.rule, r.whitelisted), r.firstSeen, pubs)
  {
    PubsRoundTrip(pubs);
  }

  // ---- The per-hash counts of waiting names ----

  ghost predicate WaitingTrue(newPerHash: map<Hash, nat>, pending: map<Key, Change>) {
    forall h :: CountAt(newPerHash, h) == |NewKeys(pending, h)|
  }

  lemma WaitingSame(w: map<Hash, nat>, pending: map<Key, Change>, k: Key, ch: Change)
    requires WaitingTrue(w, pending)
    requires if k in pending then ch.New? == pending[k].New? else !ch.New?
    ensures WaitingTrue(w, pending[k := ch])
  {
    forall h ensures NewKeys(pending[k := ch], h) == NewKeys(pending, h) {}
  }

  lemma WaitingAt(w: map<Hash, nat>, pending: map<Key, Change>, h: Hash)
    requires WaitingTrue(w, pending)
    ensures CountAt(w, h) == |NewKeys(pending, h)|
  {
  }

  lemma WaitingMore(w: map<Hash, nat>, pending: map<Key, Change>, k: Key, ch: Change)
    requires WaitingTrue(w, pending) && k !in pending && ch.New?
    ensures WaitingTrue(w[k.0 := CountAt(w, k.0) + 1], pending[k := ch])
  {
    hide NewKeys;
    var w', pending' := w[k.0 := CountAt(w, k.0) + 1], pending[k := ch];
    forall h ensures CountAt(w', h) == |NewKeys(pending', h)| {
      WaitingAt(w, pending, h);
      NewKeysPut(pending, k, ch, h);
    }
  }

  lemma NewKeysPut(pending: map<Key, Change>, k: Key, ch: Change, h: Hash)
    requires k !in pending && ch.New?
    ensures |NewKeys(pending[k := ch], h)| == |NewKeys(pending, h)| + if h == k.0 then 1 else 0
  {
    if h == k.0 {
      assert NewKeys(pending[k := ch], h) == NewKeys(pending, h) + {k};
      assert k !in NewKeys(pending, h);
    } else {
      assert NewKeys(pending[k := ch], h) == NewKeys(pending, h);
    }
  }

  lemma MeaningsPut(pending: map<Key, (seq<byte>, Pend)>, k: Key, p: (seq<byte>, Pend))
    ensures Meanings(pending[k := p]) == Meanings(pending)[k := Meaning(p)]
  {
  }

  lemma StoredAt(rows: Rows, k: Key)
    ensures k in Stored(rows) <==> k in rows
  {
  }

  lemma MeaningAt(pending: map<Key, (seq<byte>, Pend)>, k: Key)
    ensures k in Meanings(pending) <==> k in pending
    ensures k in pending ==> ChangePubs(Meanings(pending)[k]) == pending[k].1.pubs
  {
  }

  lemma {:induction false} ReplayMore(s: Settings, t: Table, offers: seq<Offer>, o: Offer)
    ensures Replay(s, t, offers + [o]) == WriteThrough(s, Replay(s, t, offers), o)
    decreases |offers|
  {
    if offers == [] {
      assert [] + [o] == [o] && [o][1..] == [];
    } else {
      assert (offers + [o])[1..] == offers[1..] + [o];
      ReplayMore(s, WriteThrough(s, t, offers[0]), offers[1..], o);
    }
  }

  lemma NoMeanings()
    ensures Meanings(map[]) == map[]
  {
  }

  lemma NothingWaiting()
    ensures WaitingTrue(map[], map[])
  {
  }

  lemma NoIds(rows: Rows)
    ensures IdsMatch(rows, map[])
  {
  }

  lemma WrittenNothing(c: Cache)
    requires Coherent(c) && c.pending == map[]
    ensures Written(c) == c.stored
  {
  }

  /** A name not yet known whose hash has its full number of names. */
  predicate Refuses(s: Settings, c: Cache, k: Key) {
    k !in c.pending && k !in c.stored && Capped(s, c, k.0)
  }

  /** A pending update names the row its key is stored under. */
  ghost predicate IdsMatch(rows: Rows, pending: map<Key, (seq<byte>, Pend)>) {
    forall k | k in pending && pending[k].1.PendUpdate? :: k in rows && rows[k].id == pending[k].1.id
  }

  ghost predicate HistoryTrue(s: Settings, c: Cache, origin: Table, durable: seq<Offer>, recent: seq<Offer>) {
    && Coherent(c)
    && Plain(c.stored) == Plain(Replay(s, origin, durable))
    && Plain(Written(c)) == Plain(Replay(s, origin, durable + recent))
  }

  lemma StartHistory(s: Settings, t: Table)
    ensures HistoryTrue(s, Cache(t, map[]), t, [], [])
  {
    assert Written(Cache(t, map[])) == t;
  }

  lemma HistoryNoted(s: Settings, c: Cache, origin: Table, durable: seq<Offer>, recent: seq<Offer>, o: Offer)
    requires HistoryTrue(s, c, origin, durable, recent)
    ensures HistoryTrue(s, Noted(s, c, o), origin, durable, recent + [o])
  {
    NotedStores(s, c, o);
    hide Noted, WriteThrough, Written, Plain, Coherent, Replay, Folded, Capped;
    NotedIsWriteThrough(s, c, o);
    ReplayMore(s, origin, durable + recent, o);
    PlainWriteThrough(s, Written(c), Replay(s, origin, durable + recent), o);
    assert durable + recent + [o] == durable + (recent + [o]);
  }

  lemma NotedStores(s: Settings, c: Cache, o: Offer)
    ensures Noted(s, c, o).stored == c.stored
  {
    hide Folded, Joined, Joins, Capped;
  }

  lemma HistoryCoherent(s: Settings, c: Cache, origin: Table, durable: seq<Offer>, recent: seq<Offer>)
    requires HistoryTrue(s, c, origin, durable, recent)
    ensures Coherent(c)
  {
  }

  lemma HistoryFlushed(s: Settings, c: Cache, origin: Table, durable: seq<Offer>, recent: seq<Offer>, t: Table, ok: bool)
    requires HistoryTrue(s, c, origin, durable, recent) && t == if ok then Written(c) else c.stored
    ensures HistoryTrue(s, Cache(t, map[]), origin, if ok then durable + recent else durable, [])
  {
    assert Written(Cache(t, map[])) == t;
    assert durable + [] == durable && durable + recent + [] == durable + recent;
  }

  /** What reaches the writer's loop. `readable` says whether the look-ups of an event succeed, and
      `failAt` at which change of its batch, if any, a write fails. */
  datatype Msg =
    | EventMsg(e: NameEvent, at: int, readable: bool, failAt: Option<nat>)
    | FlushMsg(failAt: Option<nat>)
    | Timeout(failAt: Option<nat>)

  predicate AllWell(msgs: seq<Msg>) {
    forall m | m in msgs :: m.failAt.None? && (m.EventMsg? ==> m.readable)
  }

  function OffersOf(dg: Digests, msgs: seq<Msg>): seq<Offer> {
    if msgs == [] then []
    else
      OffersOf(dg, msgs[..|msgs| - 1]) +
      (match msgs[|msgs| - 1]
       case EventMsg(e, at, _, _) => [Digested(dg, e, at)]
       case _ => [])
  }

  /** The offers of a batch in their order, and whether it was written or lost. */
  type Batches = seq<(seq<Offer>, bool)>

  function AllOf(batches: Batches): seq<Offer> {
    if batches == [] then [] else AllOf(batches[..|batches| - 1]) + batches[|batches| - 1].0
  }

  function WrittenOf(batches: Batches): seq<Offer> {
    if batches == [] then []
    else
      var (offers, written) := batches[|batches| - 1];
      WrittenOf(batches[..|batches| - 1]) + if written then offers else []
  }

  lemma BatchesNext(batches: Batches, offers: seq<Offer>, written: bool)
    ensures AllOf(batches + [(offers, written)]) == AllOf(batches) + offers
    ensures WrittenOf(batches + [(offers, written)]) == WrittenOf(batches) + if written then offers else []
  {
    assert (batches + [(offers, written)])[..|batches|] == batches;
  }

  lemma NoBatches()
    ensures AllOf([]) == [] && WrittenOf([]) == []
  {
  }

  /** The offers of the events that were taken. */
  function TakenOf(dg: Digests, msgs: seq<Msg>, taken: seq<bool>): seq<Offer>
    requires |taken| == |msgs|
  {
    if msgs == [] then []
    else
      var k := |msgs| - 1;
      TakenOf(dg, msgs[..k], taken[..k]) + OneTaken(dg, msgs[k], taken[k])
  }

  function OneTaken(dg: Digests, msg: Msg, taken: bool): seq<Offer> {
    if taken && msg.EventMsg? then [Digested(dg, msg.e, msg.at)] else []
  }

  lemma TakenNext(dg: Digests, msgs: seq<Msg>, taken: seq<bool>, msg: Msg, one: bool)
    requires |taken| == |msgs|
    ensures TakenOf(dg, msgs + [msg], taken + [one]) == TakenOf(dg, msgs, taken) + OneTaken(dg, msg, one)
  {
    assert (msgs + [msg])[..|msgs|] == msgs && (taken + [one])[..|msgs|] == taken;
  }

  /** The user is among the publishers, or there is no room for one more. */
  predicate Includes(pubs: seq<Publisher>, user: u32, cap: nat) {
    |pubs| >= cap || exists i | 0 <= i < |pubs| :: pubs[i].0 == user
  }

  lemma NotedIncludes(s: Settings, c: Cache, o: Offer)
    ensures var after := Noted(s, c, o).pending;
      o.key in after ==> Includes(ChangePubs(after[o.key]), o.publisher.0, s.publishersPerName)
    ensures Refuses(s, c, o.key) <==> o.key !in c.stored && o.key !in Noted(s, c, o).pending
  {
    var after := Noted(s, c, o).pending;
    if o.key in after {
      var pubs := ChangePubs(after[o.key]);
      assert (pubs != [] && pubs[|pubs| - 1].0 == o.publisher.0) || |pubs| >= s.publishersPerName || Knows(pubs, o.publisher.0);
    }
  }

  function ChangePubs(ch: Change): seq<Publisher> { if ch.New? then ch.row.pubs else ch.pubs }

  class Writer {
    const s: Settings
    const dg: Digests
    var db: Db
    var pending: map<Key, (seq<byte>, Pend)>
    var newPerHash: map<Hash, nat>
    var seen: nat
    var capped: nat
    var errors: nat
    var flushes: nat
    var files: nat
    var names: nat
    var publishers: nat

    /** The table when the writer started, the offers that reached it, and those still pending. */
    ghost const origin: Table
    ghost var durable: seq<Offer>
    ghost var recent: seq<Offer>
    ghost var batches: Batches

    ghost function View(): Cache reads this { Cache(Stored(db.rows), Meanings(pending)) }

    ghost predicate CountersTrue() reads this {
      DbTrue(db) && files == db.files && names == db.names && publishers == db.publishers
    }

    ghost predicate Valid() reads this {
      && durable == WrittenOf(batches)
      && CountersTrue() && IdsMatch(db.rows, pending) && WaitingTrue(newPerHash, Meanings(pending))
      && HistoryTrue(s, View(), origin, durable, recent)
    }

    constructor (s: Settings, dg: Digests, db: Db)
      requires DbTrue(db)
      ensures Valid() && this.s == s && this.dg == dg && this.db == db && pending == map[]
      ensures origin == Stored(db.rows) && durable == recent == [] && batches == []
    {
      hide DbTrue, Stored, WaitingTrue, IdsMatch, HistoryTrue, Written, Plain, Coherent;
      this.s, this.dg, this.db := s, dg, db;
      pending, newPerHash := map[], map[];
      seen, capped, errors, flushes := 0, 0, 0, 0;
      files, names, publishers := db.files, db.names, db.publishers;
      origin, durable, recent, batches := Stored(db.rows), [], [], [];
      new;
      NoBatches();
      NothingWaiting();
      NoIds(db.rows);
      assert Meanings(pending) == map[];
      StartHistory(s, origin);
    }

    /** The caps the table started within hold in it, stored or with the pending changes written. */
    lemma StoredWithinCaps()
      requires Valid() && WithinCaps(s, origin)
      ensures WithinCaps(s, Stored(db.rows)) && WithinCaps(s, Written(View()))
      ensures forall k | k in db.rows :: db.rows[k].npubs <= Max(1, s.publishersPerName)
    {
      hide Plain, Replay;
      ReplayWithinCaps(s, origin, durable);
      ReplayWithinCaps(s, origin, durable + recent);
      PlainCaps(s, Stored(db.rows), Replay(s, origin, durable));
      PlainCaps(s, Written(View()), Replay(s, origin, durable + recent));
      forall k | k in db.rows ensures db.rows[k].npubs <= Max(1, s.publishersPerName) {
        assert Stored(db.rows)[k] == Decoded(db.rows[k]);
      }
    }

    static method Truncate(name: seq<byte>) returns (t: seq<byte>)
      ensures t == Clipped(name)
      ensures t <= name && (|name| <= 1024 ==> t == name)
      ensures |name| > 1024 ==> |t| <= 1024 && (t == [] || !(0x80 <= name[|t|] < 0xc0))
      ensures |name| > 1024 ==> forall i | |t| < i <= 1024 :: 0x80 <= name[i] < 0xc0
    {
      t := name;
      if |name| > MAX_NAME {
        var end: nat := MAX_NAME;
        while !CharBoundary(name, end)
          invariant end <= MAX_NAME && ClippedAt(name, end) == ClippedAt(name, MAX_NAME)
          invariant forall i | end < i <= MAX_NAME :: 0x80 <= name[i] < 0xc0
          decreases end
        {
          end := end - 1;
        }
        t := name[..end];
      }
    }

    /** Fold an offer into a change already waiting for its name. */
    method Fold(text: seq<byte>, ch: Pend, e: NameEvent, publisher: Publisher, ghost o: Offer) returns (r: Pend)
      requires o.verdict == Verdict(e.layer, e.rule, e.whitelisted) && o.publisher == publisher
      ensures Meaning((text, r)) == Folded(s, Meaning((text, ch)), o)
      ensures r.PendUpdate? == ch.PendUpdate? && (r.PendUpdate? ==> r.id == ch.id)
      ensures r.pubs == ch.pubs +
        if |ch.pubs| < s.publishersPerName && forall i | 0 <= i < |ch.pubs| :: ch.pubs[i].0 != publisher.0
        then [publisher] else []
    {
      var cap := s.publishersPerName;
      match ch {
        case PendNew(size, layer, rule, whitelisted, pubs, first) =>
          if layer == 0 && e.layer != 0 {
            layer := e.layer;
            rule := e.rule;
          }
          whitelisted := whitelisted || e.whitelisted;
          if |pubs| < cap && !Knows(pubs, publisher.0) {
            pubs := pubs + [publisher];
          }
          r := PendNew(size, layer, rule, whitelisted, pubs, first);
        case PendUpdate(id, pubs, addedPubs, verdict) =>
          if |pubs| < cap && !Knows(pubs, publisher.0) {
            pubs := pubs + [publisher];
            addedPubs := addedPubs + 1;
          }
          if e.layer != 0 && verdict.None? {
            verdict := Some(Verdict(e.layer, e.rule, e.whitelisted));
          }
          r := PendUpdate(id, pubs, addedPubs, verdict);
      }
    }

    /** Fold one offer into the pending changes. A failed look-up loses the offer and nothing else. */
    method Add(e: NameEvent, at: int, readable: bool) returns (ok: bool)
      requires Valid()
      modifies `seen, `capped, `pending, `newPerHash, `recent
      ensures Valid()
      ensures View() == if ok then Noted(s, old(View()), Digested(dg, e, at)) else old(View())
      ensures ok <==> readable || Digested(dg, e, at).key in old(pending)
      ensures |pending| <= |old(pending)| + 1
      ensures seen == old(seen) + 1
      ensures capped == old(capped) + if ok && Refuses(s, old(View()), Digested(dg, e, at).key) then 1 else 0
      ensures var k := (e.hash, dg.nameKey(Clipped(e.name)));
        capped == old(capped) + if ok && k !in db.rows && k !in pending then 1 else 0
      ensures recent == old(recent) + if ok then [Digested(dg, e, at)] else []
      ensures var k := (e.hash, dg.nameKey(Clipped(e.name)));
        ok && k in pending ==> Includes(pending[k].1.pubs, dg.user(e.userHash), s.publishersPerName)
    {
      hide HistoryTrue, DbTrue, WaitingTrue, Noted, Clipped, Stored, Meanings, Coherent, IdsMatch;
      seen := seen + 1;
      var name := Truncate(e.name);
      var publisher := (dg.user(e.userHash), dg.net(e.net));
      var key := (e.hash, dg.nameKey(name));
      ghost var o := Digested(dg, e, at);
      assert o.key == key && o.name == name && o.publisher == publisher;
      if key !in pending && !readable {
        return false;
      }
      HistoryNoted(s, View(), origin, durable, recent, o);
      NotedIncludes(s, View(), o);
      AddDigested(e, name, key, publisher, at, o);
      MeaningAt(pending, key);
      StoredAt(db.rows, key);
      recent := recent + [o];
      ok := true;
    }

    method AddDigested(e: NameEvent, name: seq<byte>, key: Key, publisher: Publisher, at: int, ghost o: Offer)
      requires Valid() && o == Offer(key, name, AsI64(e.size), Verdict(e.layer, e.rule, e.whitelisted), publisher, at)
      modifies `capped, `pending, `newPerHash
      ensures View() == Noted(s, old(View()), o) && IdsMatch(db.rows, pending) && WaitingTrue(newPerHash, View().pending)
      ensures |pending| <= |old(pending)| + 1
      ensures capped == old(capped) + if Refuses(s, old(View()), key) then 1 else 0
    {
      hide HistoryTrue, DbTrue, Folded, WaitingTrue, Coherent, NewKeys;
      // A change for this name is pending.
      if key in pending {
        hide Joined, Joins, Capped;
        var ch := Fold(pending[key].0, pending[key].1, e, publisher, o);
        MeaningsPut(pending, key, (pending[key].0, ch));
        WaitingSame(newPerHash, Meanings(pending), key, Folded(s, Meaning(pending[key]), o));
        pending := pending[key := (pending[key].0, ch)];
        return;
      }
      // The name has a row.
      if key in db.rows {
        hide Capped;
        var row := db.rows[key];
        var pubs := PubsDecode(row.pubs);
        var added := 0;
        if |pubs| < s.publishersPerName && !Knows(pubs, publisher.0) {
          pubs := pubs + [publisher];
          added := 1;
        }
        var verdict := if row.layer == 0 && e.layer != 0 then Some(Verdict(e.layer, e.rule, e.whitelisted)) else None;
        if added == 0 && verdict.None? {
          return;
        }
        var p: (seq<byte>, Pend) := ([], PendUpdate(row.id, pubs, added, verdict));
        MeaningsPut(pending, key, p);
        WaitingSame(newPerHash, Meanings(pending), key, Meaning(p));
        pending := pending[key := p];
        return;
      }
      AddNew(e, name, key, publisher, at, o);
    }

    /** A name neither pending nor stored enters, unless its hash has its full number of names. */
    method AddNew(e: NameEvent, name: seq<byte>, key: Key, publisher: Publisher, at: int, ghost o: Offer)
      requires Valid() && o == Offer(key, name, AsI64(e.size), Verdict(e.layer, e.rule, e.whitelisted), publisher, at)
      requires key !in pending && key !in db.rows
      modifies `capped, `pending, `newPerHash
      ensures View() == Noted(s, old(View()), o) && IdsMatch(db.rows, pending) && WaitingTrue(newPerHash, View().pending)
      ensures |pending| <= |old(pending)| + 1
      ensures capped == old(capped) + if Refuses(s, old(View()), key) then 1 else 0
    {
      hide HistoryTrue, DbTrue, Folded, WaitingTrue, Coherent, NewKeys, Joined, Joins;
      var waiting := CountAt(newPerHash, key.0);
      var stored := |NamesOf(db.rows, key.0)|;
      assert NamesOf(db.rows, key.0) == NamesOf(Stored(db.rows), key.0);
      WaitingAt(newPerHash, Meanings(pending), key.0);
      if stored + waiting >= s.namesPerHash {
        capped := capped + 1;
        return;
      }
      var p := (name, PendNew(e.size, e.layer, e.rule, e.whitelisted, [publisher], at));
      MeaningsPut(pending, key, p);
      WaitingMore(newPerHash, Meanings(pending), key, Meaning(p));
      newPerHash := newPerHash[key.0 := waiting + 1];
      pending := pending[key := p];
    }

    /** One transaction over the batch; a failure at any change, or at the commit, undoes it all. */
    method Write(batch: Batch, failAt: Option<nat>, ghost all: map<Key, (seq<byte>, Pend)>)
      returns (r: Result<(nat, nat, nat), ()>)
      requires CountersTrue() && Lists(batch, all) && SortedBy(batch, BatchRank)
      requires Coherent(Cache(Stored(db.rows), Meanings(all))) && IdsMatch(db.rows, all)
      modifies `db
      ensures r.Ok? <==> failAt.None?
      ensures r.Err? ==> db == old(db)
      ensures r.Ok? ==>
        && Stored(db.rows) == Written(Cache(Stored(old(db.rows)), Meanings(all)))
        && DbTrue(db)
        && db.files == files + r.value.0 && db.names == names + r.value.1 && db.publishers == publishers + r.value.2
    {
      hide HistoryTrue, Midway, Coherent, DbTrue, Lists, SortedBy, Meanings, Stored, KeysTo, NetsOf, PubsEncode, PubsDecode,
        Decoded, RowTrue, PubCount, HashesOf, UpdatePubs, UpdateVerdict;
      ghost var c := Cache(Stored(db.rows), Meanings(all));
      var tx := db;
      var nf: nat, nn: nat, np: nat := 0, 0, 0;
      StartMidway(db, c);
      assert KeysTo(batch, 0) == {} by { NoKeys(batch); }
      for i := 0 to |batch|
        invariant db == old(db) && Midway(db, tx, c, KeysTo(batch, i), nf, nn, np)
      {
        if failAt == Some(i) {
          return Err(());
        }
        var ((hash, nkey), (name, ch)) := batch[i];
        var k := (hash, nkey);
        BatchStep(batch, all, i);
        match ch {
          case PendNew(size, layer, rule, whitelisted, pubs, at) =>
            var known := hash in HashesOf(tx.rows);
            var nets := DistinctNets(pubs);
            var blob := EncodePubs(pubs);
            var row := DbRow(0, name, AsI64(size), layer, rule, whitelisted, at, |pubs|, nets, blob);
            NewRowMeans(row, pubs);
            InsertMidway(db, tx, c, KeysTo(batch, i), nf, nn, np, k, row);
            var (tx', inserted) := InsertOrIgnore(tx, k, row);
            tx := tx';
            if inserted == 1 {
              nn := nn + 1;
              np := np + |pubs|;
              if !known {
                nf := nf + 1;
              }
            }
          case PendUpdate(id, pubs, addedPubs, verdict) =>
            UpdateStatements(db, tx, c, KeysTo(batch, i), nf, nn, np, k, pubs, addedPubs, verdict);
            if addedPubs > 0 {
              var nets := DistinctNets(pubs);
              var blob := EncodePubs(pubs);
              tx := UpdatePubs(tx, id, |pubs|, nets, blob);
              np := np + addedPubs;
            }
            if verdict.Some? {
              tx := UpdateVerdict(tx, id, verdict.value);
            }
        }
      }
      BatchDone(batch, all);
      WholeBatch(db, tx, c, nf, nn, np);
      if failAt.Some? {
        return Err(());
      }
      tx := tx.(files := files + nf, names := names + nn, publishers := publishers + np);
      db := tx;
      return Ok((nf, nn, np));
    }

    method WritePending(failAt: Option<nat>) returns (ok: bool)
      requires CountersTrue() && Coherent(View()) && IdsMatch(db.rows, pending)
      modifies `db, `pending, `files, `names, `publishers, `errors, `flushes
      ensures CountersTrue() && pending == map[]
      ensures ok == failAt.None?
      ensures Stored(db.rows) == if ok then Written(old(View())) else Stored(old(db.rows))
      ensures !ok ==> db == old(db)
      ensures errors == old(errors) + (if ok then 0 else 1) && flushes == old(flushes) + 1
    {
      hide DbTrue, Coherent, Stored, IdsMatch, Written, Lists, SortedBy, Meanings;
      ghost var all := pending;
      var batch := SortedBatch(pending);
      pending := map[];
      var r := Write(batch, failAt, all);
      match r {
        case Ok((nf, nn, np)) =>
          files := files + nf;
          names := names + nn;
          publishers := publishers + np;
          ok := true;
        case Err(_) =>
          errors := errors + 1;
          ok := false;
      }
      flushes := flushes + 1;
    }

    /** Write everything pending. After a success the table is what the cache meant; after a failure
        it is as it was, and the pending changes are lost. */
    method Flush(failAt: Option<nat>)
      requires Valid()
      modifies this
      ensures Valid() && pending == map[]
      ensures Stored(db.rows) == if failAt.None? || old(pending) == map[] then Written(old(View())) else Stored(old(db.rows))
      ensures failAt.Some? ==> db == old(db)
      ensures errors == old(errors) + if failAt.Some? && old(pending) != map[] then 1 else 0
      ensures flushes == old(flushes) + if old(pending) != map[] then 1 else 0
      ensures durable == if failAt.None? || old(pending) == map[] then old(durable) + old(recent) else old(durable)
      ensures batches == old(batches) + [(old(recent), failAt.None? || old(pending) == map[])]
      ensures AllOf(batches) == AllOf(old(batches)) + old(recent)
      ensures recent == [] && capped == old(capped) && seen == 0
    {
      hide AllOf, WrittenOf, Meanings, NewKeys, Plain, Replay;
      hide DbTrue, Coherent, Stored, IdsMatch, WaitingTrue, HistoryTrue, Written, Lists, SortedBy;
      NoMeanings();
      ghost var c, ok := View(), failAt.None? || pending == map[];
      HistoryCoherent(s, c, origin, durable, recent);
      newPerHash := map[];
      NothingWaiting();
      if pending == map[] {
        WrittenNothing(c);
      } else {
        var _ := WritePending(failAt);
      }
      HistoryFlushed(s, c, origin, durable, recent, Stored(db.rows), ok);
      BatchesNext(batches, recent, ok);
      batches := batches + [(recent, ok)];
      if ok {
        durable := durable + recent;
      }
      recent := [];
      seen := 0;
      assert IdsMatch(db.rows, pending) by { NoIds(db.rows); }
    }

    /** One turn of the writer's loop: note an event and flush when enough has gathered, or flush
        because told to or because time is up. */
    method Handle(msg: Msg) returns (ghost taken: bool)
      requires Valid() && |pending| < Max(1, s.maxPending)
      modifies this
      ensures Valid() && |pending| < Max(1, s.maxPending)
      ensures taken <==> msg.EventMsg? && (msg.readable || Digested(dg, msg.e, msg.at).key in old(pending))
      ensures AllOf(batches) + recent == AllOf(old(batches)) + old(recent) + OneTaken(dg, msg, taken)
      ensures old(batches) <= batches
      ensures msg.failAt.None? ==> forall k | |old(batches)| <= k < |batches| :: batches[k].1
      ensures AllWell([msg]) ==> durable + recent == old(durable) + old(recent) + OffersOf(dg, [msg])
      ensures !msg.EventMsg? ==> pending == map[] && recent == []
      ensures msg.EventMsg? && |old(pending)| + 1 < s.maxPending ==> batches == old(batches)
    {
      hide DbTrue, Coherent, Stored, IdsMatch, WaitingTrue, HistoryTrue, Written, Noted, Capped, Digested, Meanings;
      hide AllOf, WrittenOf;
      assert msg in [msg];
      assert [msg][..0] == [];
      taken := false;
      match msg {
        case EventMsg(e, at, readable, failAt) =>
          var ok := Add(e, at, readable);
          taken := ok;
          if !ok {
            errors := errors + 1;
          }
          if |pending| >= s.maxPending {
            Flush(failAt);
          }
        case FlushMsg(failAt) => Flush(failAt);
        case Timeout(failAt) => Flush(failAt);
      }
    }

    /** The writer's whole life, ending with the flush of a disconnected queue. The events taken, which
        are all but those whose look-up failed, fall into batches in their order, and the table ends as
        the offers of the batches that were written, written straight through one by one. A batch is
        lost only to a failed write; with none, and no failed look-up, every offer is there, wherever
        the flushes fell. */
    method Run(msgs: seq<Msg>, lastFail: Option<nat>) returns (ghost taken: seq<bool>)
      requires Valid() && |pending| < Max(1, s.maxPending)
      modifies this
      ensures Valid() && pending == map[] && recent == []
      ensures |taken| == |msgs|
      ensures forall i | 0 <= i < |msgs| && msgs[i].EventMsg? && msgs[i].readable :: taken[i]
      ensures old(batches) <= batches && AllOf(batches) == AllOf(old(batches)) + old(recent) + TakenOf(dg, msgs, taken)
      ensures durable == WrittenOf(batches)
      ensures Plain(Stored(db.rows)) == Plain(Replay(s, origin, durable))
      ensures lastFail.None? && (forall m | m in msgs :: m.failAt.None?) ==>
        forall k | |old(batches)| <= k < |batches| :: batches[k].1
      ensures AllWell(msgs) && lastFail.None? ==> durable == old(durable) + old(recent) + OffersOf(dg, msgs)
    {
      hide DbTrue, Coherent, Stored, IdsMatch, WaitingTrue, Written, Plain, Digested, Meanings;
      hide HistoryTrue, AllWell, OffersOf, Replay, AllOf, WrittenOf, TakenOf, OneTaken;
      NoOffers(dg);
      assert msgs[..0] == [];
      taken := [];
      for i := 0 to |msgs|
        invariant Valid() && |pending| < Max(1, s.maxPending)
        invariant AllWell(msgs) ==> durable + recent == old(durable) + old(recent) + OffersOf(dg, msgs[..i])
        invariant |taken| == i && forall j | 0 <= j < i && msgs[j].EventMsg? && msgs[j].readable :: taken[j]
        invariant AllOf(batches) + recent == AllOf(old(batches)) + old(recent) + TakenOf(dg, msgs[..i], taken)
        invariant old(batches) <= batches
        invariant (forall m | m in msgs :: m.failAt.None?) ==> forall k | |old(batches)| <= k < |batches| :: batches[k].1
      {
        assert msgs[..i + 1][..i] == msgs[..i];
        OffersOfLast(dg, msgs[..i], msgs[i]);
        OneWell(msgs, i);
        assert msgs[..i] + [msgs[i]] == msgs[..i + 1];
        ghost var one := Handle(msgs[i]);
        TakenNext(dg, msgs[..i], taken, msgs[i], one);
        taken := taken + [one];
      }
      assert msgs[..|msgs|] == msgs;
      Flush(lastFail);
      StoredIsDurable();
    }

    lemma StoredIsDurable()
      requires Valid()
      ensures Plain(Stored(db.rows)) == Plain(Replay(s, origin, durable))
    {
    }
  }

  lemma OneWell(msgs: seq<Msg>, i: nat)
    requires i < |msgs|
    ensures AllWell(msgs) ==> AllWell([msgs[i]])
  {
  }

  lemma NoOffers(dg: Digests)
    ensures OffersOf(dg, []) == [] && TakenOf(dg, [], []) == []
  {
  }

  lemma OffersOfLast(dg: Digests, msgs: seq<Msg>, msg: Msg)
    ensures OffersOf(dg, msgs + [msg]) == OffersOf(dg, msgs) + OffersOf(dg, [msg])
  {
    assert (msgs + [msg])[..|msgs|] == msgs && [msg][..0] == [];
  }
}
