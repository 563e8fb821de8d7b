/** What writing offers through leaves in the table (src/name_db.rs), said without the steps that do it:
    which names, which publishers of each, and which verdict. */
module NameMeaning {
  import opened Bytes
  import opened Common
  import opened NameCache
  import opened NameDb

  /** The offers of one name, in their order. */
  function For(offers: seq<Offer>, k: Key): seq<Offer> {
    if offers == [] then [] else (if offers[0].key == k then [offers[0]] else []) + For(offers[1..], k)
  }

  function PublishersOf(offers: seq<Offer>): (p: seq<Publisher>)
    ensures |p| == |offers|
  {
    if offers == [] then [] else [offers[0].publisher] + PublishersOf(offers[1..])
  }

  /** The given publishers followed by those offered, each user once, in the order of their first offers. */
  function FirstOfEach(pubs: seq<Publisher>, offered: seq<Publisher>): (all: seq<Publisher>)
    ensures pubs <= all
    decreases |offered|
  {
    if offered == [] then pubs
    else
      FirstOfEach(if exists i | 0 <= i < |pubs| :: pubs[i].0 == offered[0].0 then pubs else pubs + [offered[0]],
                  offered[1..])
  }

  /** At most so many of the first. */
  function Cut(pubs: seq<Publisher>, n: nat): seq<Publisher> { if |pubs| <= n then pubs else pubs[..n] }

  /** A row after further offers of its name. */
  function OfferedAll(s: Settings, r: Row, offers: seq<Offer>): Row
    decreases |offers|
  {
    if offers == [] then r else OfferedAll(s, Offered(s, r, offers[0]), offers[1..])
  }

  function RowOf(o: Offer): Row { Row(o.name, o.size, o.verdict, o.at, [o.publisher]) }

  lemma ForFirst(offers: seq<Offer>, k: Key)
    requires offers != []
    ensures offers[0].key != k ==> For(offers, k) == For(offers[1..], k)
    ensures offers[0].key == k ==>
      For(offers, k) != [] && For(offers, k)[0] == offers[0] && For(offers, k)[1..] == For(offers[1..], k)
  {
    assert [] + For(offers[1..], k) == For(offers[1..], k);
  }

  lemma {:induction false} ReplayStored(s: Settings, t: Table, offers: seq<Offer>, k: Key)
    requires k in t
    ensures k in Replay(s, t, offers) && Replay(s, t, offers)[k] == OfferedAll(s, t[k], For(offers, k))
    decreases |offers|
  {
    if offers != [] {
      hide Offered, NamesOf;
      ForFirst(offers, k);
      ReplayStored(s, WriteThrough(s, t, offers[0]), offers[1..], k);
    }
  }

  /** A name refused for lack of room is refused for good: names are never removed. */
  lemma {:induction false} RefusedForGood(s: Settings, t: Table, offers: seq<Offer>, k: Key)
    requires k !in t && |NamesOf(t, k.0)| >= s.namesPerHash
    ensures k !in Replay(s, t, offers)
    decreases |offers|
  {
    if offers != [] {
      var t' := WriteThrough(s, t, offers[0]);
      NamesGrow(s, t, offers[0], k.0);
      RefusedForGood(s, t', offers[1..], k);
    }
  }

  /** A new name of the hash for which there is room. */
  predicate Enters(s: Settings, t: Table, o: Offer, hash: Hash) {
    o.key.0 == hash && o.key !in t && |NamesOf(t, hash)| < s.namesPerHash
  }

  lemma NamesGrow(s: Settings, t: Table, o: Offer, hash: Hash)
    ensures NamesOf(WriteThrough(s, t, o), hash) == NamesOf(t, hash) + if Enters(s, t, o, hash) then {o.key} else {}
    ensures |NamesOf(t, hash)| <= |NamesOf(WriteThrough(s, t, o), hash)|
  {
    hide NamesOf, Offered;
    var t' := WriteThrough(s, t, o);
    if o.key !in t && |NamesOf(t, o.key.0)| < s.namesPerHash {
      NameAdded(t, t', o.key, hash);
    } else {
      assert t'.Keys == t.Keys;
      SameNames(t, t', hash);
    }
  }

  lemma NameAdded(t: Table, t': Table, k: Key, hash: Hash)
    requires k !in t && t'.Keys == t.Keys + {k}
    ensures k.0 == hash ==> NamesOf(t', hash) == NamesOf(t, hash) + {k}
    ensures k.0 != hash ==> NamesOf(t', hash) == NamesOf(t, hash)
    ensures |NamesOf(t, hash)| <= |NamesOf(t', hash)|
  {
    forall x: Key ensures x in t' <==> x in t || x == k {
      assert x in t' <==> x in t'.Keys;
    }
  }

  lemma SameNames(t: Table, t': Table, hash: Hash)
    requires t'.Keys == t.Keys
    ensures NamesOf(t', hash) == NamesOf(t, hash)
  {
    forall x: Key ensures x in t' <==> x in t {
      assert x in t' <==> x in t'.Keys;
    }
  }

  lemma {:induction false} ReplayNew(s: Settings, t: Table, offers: seq<Offer>, k: Key)
    requires k !in t && k in Replay(s, t, offers)
    ensures For(offers, k) != []
    ensures Replay(s, t, offers)[k] == OfferedAll(s, RowOf(For(offers, k)[0]), For(offers, k)[1..])
    decreases |offers|
  {
    var o, t', rest := offers[0], WriteThrough(s, t, offers[0]), offers[1..];
    ForFirst(offers, k);
    if o.key == k {
      if |NamesOf(t, k.0)| >= s.namesPerHash {
        RefusedForGood(s, t, offers, k);
      } else {
        ReplayStored(s, t', rest, k);
      }
    } else {
      hide Offered, NamesOf;
      ReplayNew(s, t', rest, k);
    }
  }

  lemma {:induction false} OfferedPublishers(s: Settings, r: Row, offers: seq<Offer>)
    ensures OfferedAll(s, r, offers).pubs ==
      Cut(FirstOfEach(r.pubs, PublishersOf(offers)), Max(|r.pubs|, s.publishersPerName))
    decreases |offers|
  {
    if offers != [] {
      OfferedPublishers(s, Offered(s, r, offers[0]), offers[1..]);
      assert PublishersOf(offers)[1..] == PublishersOf(offers[1..]);
    }
  }

  lemma {:induction false} OfferedRest(s: Settings, r: Row, offers: seq<Offer>)
    ensures var last := OfferedAll(s, r, offers);
      last.name == r.name && last.size == r.size && last.firstSeen == r.firstSeen &&
      (r.verdict.layer != 0 ==> last.verdict == r.verdict) &&
      ((forall i | 0 <= i < |offers| :: offers[i].verdict.layer == 0) ==> last.verdict == r.verdict) &&
      (r.verdict.layer == 0 ==>
        forall i | 0 <= i < |offers| && FirstFlagged(offers, i) :: last.verdict == offers[i].verdict)
    decreases |offers|
  {
    if offers != [] {
      hide Joined;
      var rest := offers[1..];
      OfferedRest(s, Offered(s, r, offers[0]), rest);
      forall i | 0 <= i < |rest| ensures rest[i] == offers[i + 1] {}
      if r.verdict.layer == 0 {
        forall i | 0 <= i < |offers| && FirstFlagged(offers, i)
          ensures OfferedAll(s, r, offers).verdict == offers[i].verdict
        {
          if i > 0 {
            assert offers[0].verdict.layer == 0;
            assert FirstFlagged(rest, i - 1);
          }
        }
      }
    }
  }

  /** Offer i is the first that comes with a layer. */
  predicate FirstFlagged(offers: seq<Offer>, i: nat)
    requires i < |offers|
  {
    offers[i].verdict.layer != 0 && forall j | 0 <= j < i :: offers[j].verdict.layer == 0
  }

  /** The row a name starts from, and the offers that may still change it. */
  function Base(t: Table, offers: seq<Offer>, k: Key): (Row, seq<Offer>)
    requires k in t || For(offers, k) != []
  {
    var own := For(offers, k);
    if k in t then (t[k], own)
    else (Row(own[0].name, own[0].size, own[0].verdict, own[0].at, [own[0].publisher]), own[1..])
  }

  /** What a row holds after any offers: name, size and time of its start; its first publishers, each user
      once, up to the cap; and the verdict it started with, or, when that had no layer, the first that
      came with one. */
  lemma RowsSayWhatWasOffered(s: Settings, t: Table, offers: seq<Offer>, k: Key)
    requires k in Replay(s, t, offers)
    ensures k in t || For(offers, k) != []
    ensures var row, (base, more) := Replay(s, t, offers)[k], Base(t, offers, k);
      row.name == base.name && row.size == base.size && row.firstSeen == base.firstSeen &&
      row.pubs == Cut(FirstOfEach(base.pubs, PublishersOf(more)), Max(|base.pubs|, s.publishersPerName)) &&
      (base.verdict.layer != 0 || (forall i | 0 <= i < |more| :: more[i].verdict.layer == 0) ==>
        row.verdict == base.verdict) &&
      (base.verdict.layer == 0 ==>
        forall i | 0 <= i < |more| && FirstFlagged(more, i) :: row.verdict == more[i].verdict)
  {
    if k in t { ReplayStored(s, t, offers, k); } else { ReplayNew(s, t, offers, k); }
    var (base, more) := Base(t, offers, k);
    OfferedPublishers(s, base, more);
    OfferedRest(s, base, more);
  }

  // ---- Which names are recorded ----

  /** The names of a hash that were there or have been offered. */
  function NamesSeen(t: Table, offers: seq<Offer>, hash: Hash): set<Key> {
    (set k | k in t && k.0 == hash) + set i | 0 <= i < |offers| && offers[i].key.0 == hash :: offers[i].key
  }

  /** Position i holds the first offer of its name. */
  predicate FirstOffer(offers: seq<Offer>, i: nat, k: Key) {
    i < |offers| && offers[i].key == k && forall j | 0 <= j < i :: offers[j].key != k
  }

  lemma {:induction false} ReplayInTwo(s: Settings, t: Table, offers: seq<Offer>, more: seq<Offer>)
    ensures Replay(s, t, offers + more) == Replay(s, Replay(s, t, offers), more)
    decreases |offers|
  {
    if offers == [] {
      assert offers + more == more;
    } else {
      hide WriteThrough;
      assert (offers + more)[0] == offers[0] && (offers + more)[1..] == offers[1..] + more;
      ReplayInTwo(s, WriteThrough(s, t, offers[0]), offers[1..], more);
    }
  }

  /** Until the cap is reached every name seen is recorded. */
  lemma {:induction false} SeenOrFull(s: Settings, t: Table, offers: seq<Offer>, hash: Hash)
    ensures NamesOf(Replay(s, t, offers), hash) <= NamesSeen(t, offers, hash)
    ensures NamesOf(Replay(s, t, offers), hash) == NamesSeen(t, offers, hash) ||
      |NamesOf(Replay(s, t, offers), hash)| >= s.namesPerHash
    decreases |offers|
  {
    if offers == [] {
      assert NamesSeen(t, offers, hash) == NamesOf(t, hash);
    } else {
      hide Replay, WriteThrough, NamesOf, NamesSeen, Enters;
      var k := |offers| - 1;
      var init, o := offers[..k], offers[k];
      assert offers == init + [o];
      SeenOrFull(s, t, init, hash);
      ReplayInTwo(s, t, init, [o]);
      var r := Replay(s, t, init);
      OneReplayed(s, r, o);
      NamesGrow(s, r, o, hash);
      SeenNext(t, init, o, hash);
      SeenStep(s, r, o, hash, NamesSeen(t, init, hash), NamesOf(WriteThrough(s, r, o), hash));
    }
  }

  lemma SeenStep(s: Settings, r: Table, o: Offer, hash: Hash, seen: set<Key>, names: set<Key>)
    requires NamesOf(r, hash) <= seen
    requires NamesOf(r, hash) == seen || |NamesOf(r, hash)| >= s.namesPerHash
    requires names == NamesOf(r, hash) + if Enters(s, r, o, hash) then {o.key} else {}
    requires |NamesOf(r, hash)| <= |names|
    ensures var seen' := seen + if o.key.0 == hash then {o.key} else {};
      names <= seen' && (names == seen' || |names| >= s.namesPerHash)
  {
    assert o.key.0 == hash && o.key in r ==> o.key in NamesOf(r, hash);
  }

  lemma OneReplayed(s: Settings, t: Table, o: Offer)
    ensures Replay(s, t, [o]) == WriteThrough(s, t, o)
  {
    assert [o][1..] == [];
  }

  lemma SeenNext(t: Table, offers: seq<Offer>, o: Offer, hash: Hash)
    ensures NamesSeen(t, offers + [o], hash) == NamesSeen(t, offers, hash) + if o.key.0 == hash then {o.key} else {}
  {
    var all := offers + [o];
    assert all[|offers|] == o;
    forall i | 0 <= i < |offers| ensures all[i] == offers[i] {}
  }

  /** A name is in the table in the end if and only if it was there, or, when it was first offered, fewer
      names of its hash than the cap had been seen. */
  lemma NamesRecorded(s: Settings, t: Table, offers: seq<Offer>, k: Key)
    ensures k in Replay(s, t, offers) <==>
      k in t ||
      exists i | 0 <= i < |offers| :: FirstOffer(offers, i, k) && |NamesSeen(t, offers[..i], k.0)| < s.namesPerHash
  {
    if k in t {
      ReplayStored(s, t, offers, k);
    } else if exists i | 0 <= i < |offers| :: FirstOffer(offers, i, k) {
      var i :| 0 <= i < |offers| && FirstOffer(offers, i, k);
      FirstDecides(s, t, offers, k, i);
      forall j | 0 <= j < |offers| && FirstOffer(offers, j, k) ensures j == i {}
    } else {
      forall i | 0 <= i < |offers| ensures offers[i].key != k {
        if offers[i].key == k { var j := Earliest(offers, i, k); }
      }
      NeverOffered(s, t, offers, k);
    }
  }

  lemma NeverOffered(s: Settings, t: Table, offers: seq<Offer>, k: Key)
    requires k !in t && forall i | 0 <= i < |offers| :: offers[i].key != k
    ensures k !in Replay(s, t, offers)
  {
    SeenOrFull(s, t, offers, k.0);
    assert k !in NamesSeen(t, offers, k.0);
    assert k in Replay(s, t, offers) ==> k in NamesOf(Replay(s, t, offers), k.0);
  }

  lemma Earliest(offers: seq<Offer>, i: nat, k: Key) returns (j: nat)
    requires i < |offers| && offers[i].key == k
    ensures j <= i && FirstOffer(offers, j, k)
  {
    j := 0;
    while offers[j].key != k
      invariant j <= i && forall l | 0 <= l < j :: offers[l].key != k
      decreases i - j
    {
      j := j + 1;
    }
  }

  lemma FirstDecides(s: Settings, t: Table, offers: seq<Offer>, k: Key, i: nat)
    requires k !in t && FirstOffer(offers, i, k)
    ensures k in Replay(s, t, offers) <==> |NamesSeen(t, offers[..i], k.0)| < s.namesPerHash
  {
    var before, o, rest := offers[..i], offers[i], offers[i + 1..];
    assert offers == before + ([o] + rest);
    ReplayInTwo(s, t, before, [o] + rest);
    SeenOrFull(s, t, before, k.0);
    NeverOffered(s, t, before, k);
    var r := Replay(s, t, before);
    FewerNames(NamesOf(r, k.0), NamesSeen(t, before, k.0));
    if |NamesOf(r, k.0)| >= s.namesPerHash {
      RefusedForGood(s, r, [o] + rest, k);
    } else {
      assert ([o] + rest)[1..] == rest;
      ReplayStored(s, WriteThrough(s, r, o), rest, k);
    }
  }

  lemma {:induction false} FewerNames(a: set<Key>, b: set<Key>)
    requires a <= b
    ensures |a| <= |b|
  {
    if a != {} {
      var k :| k in a;
      FewerNames(a - {k}, b - {k});
    }
  }

  // ---- The same, said of the rows a writer leaves and the events it was given ----

  type Told = (NameEvent, int)

  predicate Names(dg: Digests, e: NameEvent, k: Key) { e.hash == k.0 && dg.nameKey(Clipped(e.name)) == k.1 }

  /** The events of one name, each with its time, in their order. */
  function EventsOf(dg: Digests, msgs: seq<Msg>, k: Key): seq<Told> {
    if msgs == [] then []
    else
      var msg := msgs[|msgs| - 1];
      EventsOf(dg, msgs[..|msgs| - 1], k) + if msg.EventMsg? && Names(dg, msg.e, k) then [(msg.e, msg.at)] else []
  }

  /** Who offered: the digests of the user and of the network of each event. */
  function Offerers(dg: Digests, events: seq<Told>): seq<Publisher> {
    seq(|events|, i requires 0 <= i < |events| => (dg.user(events[i].0.userHash), dg.net(events[i].0.net)))
  }

  lemma {:induction false} ForLast(offers: seq<Offer>, o: Offer, k: Key)
    ensures For(offers + [o], k) == For(offers, k) + if o.key == k then [o] else []
    decreases |offers|
  {
    if offers == [] {
      assert [] + [o] == [o] && [o][1..] == [];
    } else {
      assert (offers + [o])[1..] == offers[1..] + [o];
      ForLast(offers[1..], o, k);
    }
  }

  lemma {:induction false} ForIsEvents(dg: Digests, msgs: seq<Msg>, k: Key)
    ensures var own, events := For(OffersOf(dg, msgs), k), EventsOf(dg, msgs, k);
      |own| == |events| && forall i | 0 <= i < |own| :: own[i] == Digested(dg, events[i].0, events[i].1)
    decreases |msgs|
  {
    if msgs != [] {
      var init, msg := msgs[..|msgs| - 1], msgs[|msgs| - 1];
      ForIsEvents(dg, init, k);
      if msg.EventMsg? {
        var o := Digested(dg, msg.e, msg.at);
        ForLast(OffersOf(dg, init), o, k);
        assert OffersOf(dg, msgs) == OffersOf(dg, init) + [o];
        assert o.key == k <==> Names(dg, msg.e, k);
      } else {
        assert OffersOf(dg, init) + [] == OffersOf(dg, init);
      }
    }
  }

  lemma {:induction false} PublishersAt(offers: seq<Offer>)
    ensures forall i | 0 <= i < |offers| :: PublishersOf(offers)[i] == offers[i].publisher
    decreases |offers|
  {
    if offers != [] {
      PublishersAt(offers[1..]);
      forall i | 0 < i < |offers| ensures PublishersOf(offers)[i] == PublishersOf(offers[1..])[i - 1] {}
    }
  }

  lemma OfferersArePublishers(dg: Digests, msgs: seq<Msg>, k: Key)
    ensures PublishersOf(For(OffersOf(dg, msgs), k)) == Offerers(dg, EventsOf(dg, msgs, k))
  {
    ForIsEvents(dg, msgs, k);
    PublishersAt(For(OffersOf(dg, msgs), k));
  }

  /** The publishers of a row after any events, from its old ones and the events of its name. */
  lemma ReplayedPublishers(s: Settings, dg: Digests, t: Table, msgs: seq<Msg>, k: Key)
    requires k in Replay(s, t, OffersOf(dg, msgs))
    ensures Replay(s, t, OffersOf(dg, msgs))[k].pubs ==
      Cut(FirstOfEach(if k in t then t[k].pubs else [], Offerers(dg, EventsOf(dg, msgs, k))),
          Max(if k in t then |t[k].pubs| else 1, s.publishersPerName))
  {
    var offers := OffersOf(dg, msgs);
    RowsSayWhatWasOffered(s, t, offers, k);
    OfferersArePublishers(dg, msgs, k);
    var own := PublishersOf(For(offers, k));
    if k !in t {
      assert own[1..] == PublishersOf(For(offers, k)[1..]);
      assert [] + [own[0]] == [own[0]];
      assert FirstOfEach([], own) == FirstOfEach([own[0]], own[1..]);
    }
  }

  /** The first event that comes with a layer, or the very first when none does. */
  predicate Decides(events: seq<Told>, i: nat) {
    && i < |events|
    && if events[i].0.layer != 0 then forall j | 0 <= j < i :: events[j].0.layer == 0
       else i == 0 && forall j | 0 <= j < |events| :: events[j].0.layer == 0
  }

  /** A name not in the table before: its row is the first event's, with the verdict of the one that decides. */
  lemma ReplayedFirst(s: Settings, dg: Digests, t: Table, msgs: seq<Msg>, k: Key)
    requires k !in t && k in Replay(s, t, OffersOf(dg, msgs))
    ensures EventsOf(dg, msgs, k) != []
    ensures var row, (e, at) := Replay(s, t, OffersOf(dg, msgs))[k], EventsOf(dg, msgs, k)[0];
      row.name == Clipped(e.name) && row.size == AsI64(e.size) && row.firstSeen == at
    ensures var v, events := Replay(s, t, OffersOf(dg, msgs))[k].verdict, EventsOf(dg, msgs, k);
      forall i | 0 <= i < |events| && Decides(events, i) :: v == VerdictOf(events[i].0)
  {
    hide Replay, FirstOfEach, Clipped, Cut;
    var offers, events := OffersOf(dg, msgs), EventsOf(dg, msgs, k);
    RowsSayWhatWasOffered(s, t, offers, k);
    ForIsEvents(dg, msgs, k);
    var own := For(offers, k);
    forall i | 0 <= i < |events| && Decides(events, i)
      ensures Replay(s, t, offers)[k].verdict == VerdictOf(events[i].0)
    {
      if i > 0 {
        assert own[1..][i - 1] == own[i];
        assert FirstFlagged(own[1..], i - 1);
      }
    }
  }

  function VerdictOf(e: NameEvent): Verdict { Verdict(e.layer, e.rule, e.whitelisted) }

  /** The rows a writer leaves when every read and write succeeds, which are those of the write-through
      table (`Writer.Run`): a row's publishers are its old ones and then each new user of the name's events
      in the order of their first, up to the cap; a new row has the name, size and time of the first event,
      and the layer and rule of the one that decides. */
  lemma RowsOfRun(s: Settings, dg: Digests, origin: Table, rows: Rows, msgs: seq<Msg>, k: Key)
    requires Plain(Stored(rows)) == Plain(Replay(s, origin, OffersOf(dg, msgs))) && k in rows
    ensures var r, events := rows[k], EventsOf(dg, msgs, k);
      && (k in origin || events != [])
      && PubsDecode(r.pubs) ==
           Cut(FirstOfEach(if k in origin then origin[k].pubs else [], Offerers(dg, events)),
               Max(if k in origin then |origin[k].pubs| else 1, s.publishersPerName))
      && (k !in origin ==>
            && r.name == Clipped(events[0].0.name) && r.size == AsI64(events[0].0.size) && r.firstSeen == events[0].1
            && forall i | 0 <= i < |events| && Decides(events, i) ::
                 r.layer == events[i].0.layer && r.rule == events[i].0.rule)
  {
    hide Offerers, FirstOfEach, Cut, Replay, EventsOf, OffersOf, Decides, Clipped;
    var t := Replay(s, origin, OffersOf(dg, msgs));
    assert k in Plain(Stored(rows)) && k in Plain(t) && Plain(t)[k] == Plain(Stored(rows))[k];
    ReplayedPublishers(s, dg, origin, msgs, k);
    if k !in origin {
      ReplayedFirst(s, dg, origin, msgs, k);
    }
  }
}
