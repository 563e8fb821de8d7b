/** What the lines of a hash list are, character by character, and what a merge does to each of them
    (src/updates.rs, hash_of_line, line_has_comment and merge_hash_lists). */
module HashListMeaning {
  import opened Common
  import opened Decimals
  import opened Texts
  import opened HashLists

  // ---- One line ----

  predicate HexLetter(c: char) { 'a' <= c <= 'f' || 'A' <= c <= 'F' || '0' <= c <= '9' }

  /** The same digit, a letter's case aside. */
  predicate SameLetter(x: char, y: char) {
    x == y || ('a' <= x <= 'f' && y as int == x as int - 32) || ('A' <= x <= 'F' && y as int == x as int + 32)
  }

  /** Exactly 32 hex digits stand at the start. */
  predicate StartsWithHash(s: string) {
    |s| >= 32 && (forall i | 0 <= i < 32 :: HexLetter(s[i])) && (|s| > 32 ==> !HexLetter(s[32]))
  }

  predicate IsEntry(line: string) { StartsWithHash(TrimStart(line)) }

  /** An entry with solid text after its hash. */
  predicate SaysWhy(line: string) { IsEntry(line) && !Blank(TrimStart(line)[32..]) }

  predicate SameEntry(x: string, y: string) {
    IsEntry(x) && IsEntry(y) && forall i | 0 <= i < 32 :: SameLetter(TrimStart(x)[i], TrimStart(y)[i])
  }

  lemma HexLetters(c: char)
    ensures IsHex(c) <==> HexLetter(c)
    ensures IsHex(c) ==> !IsWhite(c)
  {
  }

  lemma DigitsAgree(x: char, y: char)
    requires IsHex(x) && IsHex(y)
    ensures HexDigit(x) == HexDigit(y) <==> SameLetter(x, y)
  {
  }

  lemma {:induction false} HexRunStops(s: string, n: nat)
    requires n <= |s| && (forall i | 0 <= i < n :: IsHex(s[i])) && (n < |s| ==> !IsHex(s[n]))
    ensures |HexRun(s)| == n
  {
    var run := HexRun(s);
    assert forall i | 0 <= i < |run| :: s[i] == run[i] && IsHex(run[i]);
  }

  /** Trimming keeps what stands at the start of solid text. */
  lemma StartsAlike(s: string)
    requires s != [] && !IsWhite(s[0])
    ensures TrimEnd(s) != [] && TrimEnd(s)[0] == s[0]
    ensures "//" <= TrimEnd(s) <==> "//" <= s
    ensures |HexRun(TrimEnd(s))| == 32 <==> StartsWithHash(s)
    ensures StartsWithHash(s) ==> |TrimEnd(s)| >= 32 && TrimEnd(s)[..32] == s[..32]
  {
    var t := TrimEnd(s);
    TrimEndDrops(s);
    TrimKeepsSolid(s, 0);
    forall c: char ensures (IsHex(c) <==> HexLetter(c)) && (IsHex(c) ==> !IsWhite(c)) { HexLetters(c); }
    if "//" <= s { TrimKeepsSolid(s, 1); }
    if StartsWithHash(s) {
      TrimKeepsSolid(s, 31);
      HexRunStops(t, 32);
    }
    if |s| > 32 && !IsWhite(s[32]) { TrimKeepsSolid(s, 32); }
    if |HexRun(t)| == 32 {
      assert forall i | 0 <= i < 32 :: s[i] == HexRun(t)[i];
    }
  }

  /** A line is a comment when it is blank or starts with `#`, `;` or `//`; an entry when exactly 32 hex
      digits start it; and junk when neither. */
  lemma LineKinds(raw: string)
    ensures var s := TrimStart(raw);
      && (HashOfLine(raw) == Comment <==> s == [] || s[0] in "#;" || "//" <= s)
      && (HashOfLine(raw).Hash? <==> IsEntry(raw))
  {
    var s := TrimStart(raw);
    TrimStartSolid(raw);
    if s != [] {
      StartsAlike(s);
      hide HexRun, TrimEnd;
      HexLetters(s[0]);
      assert s[0] in "#;" <==> s[0] == '#' || s[0] == ';';
    }
  }

  /** An entry is annotated exactly when solid text follows its 32 digits. */
  lemma AnnotatedIs(raw: string)
    requires IsEntry(raw)
    ensures Annotated(raw) <==> SaysWhy(raw)
  {
    var s := TrimStart(raw);
    TrimStartSolid(raw);
    StartsAlike(s);
    var t := TrimEnd(s);
    TrimEndDrops(s);
    TrimIsBlank(t[32..]);
    assert forall i | 0 <= i < |t[32..]| :: t[32..][i] == s[32..][i];
    if !Blank(s[32..]) {
      var i :| 0 <= i < |s[32..]| && !IsWhite(s[32..][i]);
      TrimKeepsSolid(s, 32 + i);
      assert t[32..][i] == s[32 + i];
    }
  }

  lemma TrimIsBlank(s: string)
    ensures Trim(s) == [] <==> Blank(s)
  {
    TrimStartSolid(s);
    if TrimStart(s) != [] { TrimKeepsSolid(TrimStart(s), 0); }
  }

  /** Entries carry the same hash exactly when their digits are the same, the case of letters aside. */
  lemma SameHashIs(x: string, y: string)
    requires IsEntry(x) && IsEntry(y)
    ensures HashOfLine(x) == HashOfLine(y) <==> SameEntry(x, y)
  {
    LineKinds(x);
    LineKinds(y);
    SameHash(x, y);
    TrimStartSolid(x);
    TrimStartSolid(y);
    StartsAlike(TrimStart(x));
    StartsAlike(TrimStart(y));
    hide HashOfLine, TrimStart, TrimEnd, HexDigit;
    var s, t := TrimStart(x), TrimStart(y);
    forall i | 0 <= i < 32 ensures HexDigit(Trim(x)[i]) == HexDigit(Trim(y)[i]) <==> SameLetter(s[i], t[i]) {
      assert Trim(x)[i] == s[..32][i] && Trim(y)[i] == t[..32][i];
      HexLetters(s[i]);
      HexLetters(t[i]);
      DigitsAgree(s[i], t[i]);
    }
  }

  /** A hash written out is an entry unless a hex digit follows, and says why exactly when the rest is
      not blank. */
  lemma WrittenEntry(h: string, rest: string)
    requires |h| == 32 && forall i | 0 <= i < 32 :: HexLetter(h[i])
    ensures HashOfLine(h + rest).Hash? <==> rest == [] || !HexLetter(rest[0])
    ensures rest == [] || !HexLetter(rest[0]) ==> (Annotated(h + rest) <==> !Blank(rest))
  {
    HexLetters(h[0]);
    assert TrimStart(h + rest) == h + rest && (h + rest)[32..] == rest;
    LineKinds(h + rest);
    if IsEntry(h + rest) { AnnotatedIs(h + rest); }
  }

  // ---- What a merge does to each line ----

  /** New line k says why for the entry of the old line. */
  predicate Reason(news: seq<string>, k: nat, line: string) {
    k < |news| && SaysWhy(news[k]) && SameEntry(line, news[k])
  }

  predicate FirstReason(news: seq<string>, j: nat, line: string) {
    Reason(news, j, line) && forall k | 0 <= k < j :: !Reason(news, k, line)
  }

  /** Line i is a bare entry and the first with its hash. */
  predicate FirstAndBare(base: seq<string>, i: nat) {
    i < |base| && IsEntry(base[i]) && !SaysWhy(base[i]) && forall k | 0 <= k < i :: !SameEntry(base[k], base[i])
  }

  lemma Translated(lines: seq<string>, i: nat, line: string)
    requires i < |lines| && IsEntry(line)
    ensures HashOfLine(line).Hash?
    ensures HashOfLine(lines[i]) == HashOfLine(line) <==> SameEntry(line, lines[i])
    ensures SameEntry(line, lines[i]) <==> SameEntry(lines[i], line)
    ensures NoteAt(lines, i, HashOfLine(line).hash) <==> SaysWhy(lines[i]) && SameEntry(line, lines[i])
  {
    LineKinds(line);
    LineKinds(lines[i]);
    hide HashOfLine, Annotated, SaysWhy, IsEntry;
    if HashOfLine(lines[i]).Hash? {
      SameHashIs(line, lines[i]);
      AnnotatedIs(lines[i]);
    }
    SameEitherWay(line, lines[i]);
  }

  lemma SameEitherWay(x: string, y: string)
    ensures SameEntry(x, y) <==> SameEntry(y, x)
  {
    hide TrimStart, StartsWithHash;
  }

  lemma {:induction false} NoteIsFirst(news: seq<string>, line: string)
    requires IsEntry(line) && HashOfLine(line).Hash?
    ensures Note(news, HashOfLine(line).hash).None? <==> forall k: nat :: !Reason(news, k, line)
    ensures forall j: nat | j < |news| && FirstReason(news, j, line) ::
      Note(news, HashOfLine(line).hash) == Some(news[j])
  {
    hide HashOfLine, SaysWhy, SameEntry, IsEntry, NoteAt, Note, Reason, FirstReason;
    if news == [] {
      NothingNoted(line);
    } else {
      var k := |news| - 1;
      NoteIsFirst(news[..k], line);
      NoteTakes(news, HashOfLine(line).hash);
      Translated(news, k, line);
      ReasonIs(news, k, line);
      forall j: nat ensures Reason(news, j, line) <==> Reason(news[..k], j, line) || (j == k && Reason(news, k, line)) {
        ReasonBefore(news, k, j, line);
      }
      forall j: nat | j < |news| && FirstReason(news, j, line)
        ensures Note(news, HashOfLine(line).hash) == Some(news[j])
      {
        FirstBefore(news, k, j, line);
      }
    }
  }

  lemma NothingNoted(line: string)
    requires HashOfLine(line).Hash?
    ensures Note([], HashOfLine(line).hash).None? && forall k: nat :: !Reason([], k, line) && !FirstReason([], k, line)
  {
  }

  lemma NoteTakes(news: seq<string>, h: nat)
    requires news != []
    ensures var k := |news| - 1;
      Note(news, h) ==
        if Note(news[..k], h).Some? then Note(news[..k], h) else if NoteAt(news, k, h) then Some(news[k]) else None
  {
  }

  lemma ReasonIs(news: seq<string>, k: nat, line: string)
    requires k < |news|
    ensures Reason(news, k, line) <==> SaysWhy(news[k]) && SameEntry(line, news[k])
  {
  }

  lemma ReasonBefore(news: seq<string>, k: nat, j: nat, line: string)
    requires k == |news| - 1
    ensures Reason(news, j, line) <==> Reason(news[..k], j, line) || (j == k && Reason(news, k, line))
  {
    hide SaysWhy, SameEntry;
  }

  /** The first reason of all is the first before the last line, or the last line when there is none before. */
  lemma FirstBefore(news: seq<string>, k: nat, j: nat, line: string)
    requires k == |news| - 1 && FirstReason(news, j, line)
    ensures j < |news|
    ensures if j < k then FirstReason(news[..k], j, line) && news[j] == news[..k][j] && Reason(news[..k], j, line)
            else j == k && Reason(news, k, line) && forall i: nat :: !Reason(news[..k], i, line)
  {
    hide SaysWhy, SameEntry;
    forall i: nat | i < k ensures Reason(news[..k], i, line) <==> Reason(news, i, line) {}
  }

  lemma UpgradeIs(base: seq<string>, news: seq<string>, i: nat)
    requires i < |base|
    ensures !FirstAndBare(base, i) ==> Upgrade(base, news, i) == base[i]
    ensures FirstAndBare(base, i) ==> forall j | 0 <= j < |news| && FirstReason(news, j, base[i]) ::
      Upgrade(base, news, i) == TrimEnd(news[j])
    ensures (forall k: nat :: !Reason(news, k, base[i])) ==> Upgrade(base, news, i) == base[i]
  {
    LineKinds(base[i]);
    hide HashOfLine, Annotated, SaysWhy, SameEntry, IsEntry, TrimEnd, Reason, FirstReason;
    if IsEntry(base[i]) {
      NoteIsFirst(news, base[i]);
      AnnotatedIs(base[i]);
      forall k | 0 <= k < |base|
        ensures HashOfLine(base[k]) == HashOfLine(base[i]) <==> SameEntry(base[k], base[i])
      {
        Translated(base, k, base[i]);
      }
    }
  }

  /** What becomes of old line i: only a bare entry, the first of its hash, is replaced, and exactly when a
      new line says why for that hash, by the first that does, up to its last solid character. Every other
      line stays, less a carriage return at its end; only a last line that is empty can be lost. */
  lemma OldLinesStay(oldText: string, newText: string, stamp: string, i: nat)
    requires OneLine(stamp) && i < |Lines(oldText)|
    ensures var base, news, merged := Lines(oldText), Lines(newText), Lines(MergedText(oldText, newText, stamp));
      && (i >= |merged| ==> i == |base| - 1 && base[i] == "")
      && (i < |merged| && !FirstAndBare(base, i) ==> merged[i] == StripCr(base[i]))
      && (FirstAndBare(base, i) ==>
            && i < |merged|
            && forall j | 0 <= j < |news| && FirstReason(news, j, base[i]) :: merged[i] == TrimEnd(news[j]))
      && (i < |merged| && (forall k: nat :: !Reason(news, k, base[i])) ==> merged[i] == StripCr(base[i]))
  {
    hide Lines, MergedText, HashOfLine, Upgrade, SaysWhy, SameEntry, IsEntry, Reason, FirstReason;
    hide TrimEnd, StripCr, Fresh, Marker;
    var base, news := Lines(oldText), Lines(newText);
    MergedTextLines(oldText, newText, stamp);
    MergeKeepsLines(oldText, newText, stamp, i);
    UpgradeIs(base, news, i);
    assert MergedLines(base, news, stamp)[i] == Upgrade(base, news, i);
    if FirstAndBare(base, i) {
      EntryNotEmpty(base[i]);
      forall j: nat | j < |news| && FirstReason(news, j, base[i])
        ensures StripCr(TrimEnd(news[j])) == TrimEnd(news[j])
      {
        TrimEndKeeps(news[j]);
      }
    }
  }

  lemma EntryNotEmpty(line: string)
    requires IsEntry(line)
    ensures line != ""
  {
    TrimStartSolid(line);
  }

  // ---- What a merge appends ----

  /** A new line whose hash no old line has. */
  predicate IsNew(base: seq<string>, line: string) {
    IsEntry(line) && forall i | 0 <= i < |base| :: !SameEntry(line, base[i])
  }

  lemma LacksIs(base: seq<string>, line: string)
    ensures HashOfLine(line).Hash? && !Has(base, HashOfLine(line).hash) <==> IsNew(base, line)
  {
    LineKinds(line);
    hide HashOfLine, SameEntry, IsEntry;
    if IsEntry(line) {
      forall i | 0 <= i < |base| ensures HashOfLine(base[i]) == HashOfLine(line) <==> SameEntry(line, base[i]) {
        Translated(base, i, line);
      }
    }
  }

  /** The positions of the new lines whose hash no old line has, from the first to the last. */
  predicate Picks(p: seq<nat>, base: seq<string>, news: seq<string>) {
    && (forall i | 0 <= i < |p| :: p[i] < |news|)
    && (forall i, j | 0 <= i < j < |p| :: p[i] < p[j])
    && (forall j: nat | j < |news| :: j in p <==> IsNew(base, news[j]))
  }

  function Entries(news: seq<string>, p: seq<nat>): seq<string>
    requires forall i | 0 <= i < |p| :: p[i] < |news|
  {
    seq(|p|, k requires 0 <= k < |p| => TrimEnd(news[p[k]]))
  }

  lemma PicksNext(p: seq<nat>, base: seq<string>, news: seq<string>, line: string)
    requires Picks(p, base, news)
    ensures var all := news + [line];
      if IsNew(base, line)
      then Picks(p + [|news|], base, all) && Entries(all, p + [|news|]) == Entries(news, p) + [TrimEnd(line)]
      else Picks(p, base, all) && Entries(all, p) == Entries(news, p)
  {
    hide IsNew, TrimEnd;
    var all := news + [line];
    assert all[|news|] == line;
    forall j: nat | j < |news| ensures all[j] == news[j] {}
    forall i | 0 <= i < |p| ensures p[i] in p && p[i] < |news| {}
  }

  lemma {:induction false} FreshAre(base: seq<string>, news: seq<string>) returns (p: seq<nat>)
    ensures Picks(p, base, news) && Fresh(base, news) == Entries(news, p)
  {
    hide Picks, HashOfLine, IsNew, TrimEnd, Has, Entries, Fresh;
    if news == [] {
      p := [];
      NothingPicked(base);
    } else {
      var init, line := news[..|news| - 1], news[|news| - 1];
      assert news == init + [line];
      var q := FreshAre(base, init);
      LacksIs(base, line);
      PicksBound(q, base, init);
      PicksNext(q, base, init, line);
      FreshNext(base, init, line);
      p := if IsNew(base, line) then q + [|init|] else q;
    }
  }

  lemma NothingPicked(base: seq<string>)
    ensures Picks([], base, []) && Fresh(base, []) == Entries([], [])
  {
  }

  lemma PicksBound(p: seq<nat>, base: seq<string>, news: seq<string>)
    requires Picks(p, base, news)
    ensures forall i | 0 <= i < |p| :: p[i] < |news|
  {
    hide IsNew;
  }

  lemma BlankUpgrade(base: seq<string>, news: seq<string>, i: nat)
    requires i < |base|
    ensures Trim(Upgrade(base, news, i)) == [] <==> Blank(base[i])
  {
    hide Trim, HashOfLine, TrimEnd, Upgrade;
    TrimIsBlank(base[i]);
    if Upgrade(base, news, i) != base[i] {
      UpgradeSays(base, news, i);
      var h := HashOfLine(base[i]);
      HashIsSolid(base[i]);
      HashIsSolid(Upgrade(base, news, i));
    }
  }

  lemma HashIsSolid(line: string)
    requires HashOfLine(line).Hash?
    ensures Trim(line) != []
  {
  }

  /** A merge that brings new hashes writes, after the old lines, an empty line unless the last of them is
      blank, a line that counts the new entries, and those entries in the order of the new file, each once. */
  lemma NewLinesFollow(oldText: string, newText: string, stamp: string) returns (p: seq<nat>)
    requires OneLine(stamp)
    ensures var base, news, merged := Lines(oldText), Lines(newText), Lines(MergedText(oldText, newText, stamp));
      && Picks(p, base, news)
      && (p == [] ==> |merged| <= Max(1, |base|))
      && (p != [] ==>
            && |base| <= |merged|
            && merged[|base|..] ==
               (if base != [] && !Blank(base[|base| - 1]) then [""] else []) +
               ["# \U{2500}\U{2500} merged " + Decimal(|p|) + " entries on " + stamp + " \U{2500}\U{2500}"] +
               Entries(news, p))
  {
    hide Lines, MergedText, IsNew, TrimEnd, Fresh, Blank, Decimal, Picks, Entries, Settle, MergedLines;
    var base, news := Lines(oldText), Lines(newText);
    p := FreshAre(base, news);
    PicksBound(p, base, news);
    MergedTextLines(oldText, newText, stamp);
    EntriesSize(news, p);
    if p == [] {
      NothingFollows(base, news, stamp);
    } else {
      BlockFollows(base, news, stamp);
    }
  }

  lemma EntriesSize(news: seq<string>, p: seq<nat>)
    requires forall i | 0 <= i < |p| :: p[i] < |news|
    ensures |Entries(news, p)| == |p|
  {
  }

  lemma NothingFollows(base: seq<string>, news: seq<string>, stamp: string)
    requires Fresh(base, news) == []
    ensures |Settle(MergedLines(base, news, stamp))| <= Max(1, |base|)
  {
    hide Upgraded, StripCr, Fresh;
  }

  lemma BlockFollows(base: seq<string>, news: seq<string>, stamp: string)
    requires Fresh(base, news) != []
    ensures var merged, added := Settle(MergedLines(base, news, stamp)), Fresh(base, news);
      && |base| <= |merged|
      && merged[|base|..] ==
         (if base != [] && !Blank(base[|base| - 1]) then [""] else []) +
         ["# \U{2500}\U{2500} merged " + Decimal(|added|) + " entries on " + stamp + " \U{2500}\U{2500}"] + added
  {
    hide Fresh, Marker, Trim, Blank, Decimal, Upgrade, StripCr, Settle, Upgraded;
    var added, out := Fresh(base, news), Upgraded(base, news);
    if base != [] { BlankUpgrade(base, news, |base| - 1); }
    var lines := MergedLines(base, news, stamp);
    forall k | |base| <= k < |lines| ensures StripCr(lines[k]) == lines[k] && (k == |lines| - 1 ==> lines[k] != "") {
      BlockLineClean(base, news, out, stamp, k - |base|);
    }
    BlockSettles(lines, |base|);
    MarkerIs(|added|, stamp);
  }

  lemma BlockSettles(lines: seq<string>, n: nat)
    requires n < |lines|
    requires forall k | n <= k < |lines| :: StripCr(lines[k]) == lines[k] && (k == |lines| - 1 ==> lines[k] != "")
    ensures |Settle(lines)| == |lines| && Settle(lines)[n..] == lines[n..]
  {
    hide StripCr;
  }

  lemma MarkerIs(n: nat, stamp: string)
    ensures Marker(n, stamp) == "# \U{2500}\U{2500} merged " + Decimal(n) + " entries on " + stamp + " \U{2500}\U{2500}"
    ensures StripCr(Marker(n, stamp)) == Marker(n, stamp) && Marker(n, stamp) != ""
  {
    hide Decimal;
  }

  lemma BlockLineClean(base: seq<string>, news: seq<string>, out: seq<string>, stamp: string, k: nat)
    requires k < |Block(out, Fresh(base, news), stamp)|
    ensures var block := Block(out, Fresh(base, news), stamp);
      StripCr(block[k]) == block[k] && (k == |block| - 1 ==> block[k] != "")
  {
    hide HashOfLine, Fresh, Marker, Trim, TrimEnd, Has;
    var added := Fresh(base, news);
    var block := Block(out, added, stamp);
    MarkerIs(|added|, stamp);
    var before := |block| - |added|;
    if k >= before {
      var j := FreshFrom(base, news, k - before);
      TrimEndKeeps(news[j]);
      HashLineNotBlank(news[j]);
      assert block[k] == added[k - before];
    }
  }
}
