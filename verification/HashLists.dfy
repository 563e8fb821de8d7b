/** Hash lists: the line format, the structure-preserving union of two lists, and the validation of
    the result (src/updates.rs). */
module HashLists {
  import opened Common
  import opened Decimals
  import opened Texts

  // ---- Lines ----

  datatype LineKind = Hash(hash: nat) | Comment | Junk

  predicate IsHex(c: char) { '0' <= c <= '9' || 'a' <= c <= 'f' || 'A' <= c <= 'F' }

  function HexDigit(c: char): (d: nat)
    requires IsHex(c)
    ensures d < 16
  {
    if c <= '9' then (c - '0') as nat else if c <= 'F' then (c - 'A') as nat + 10 else (c - 'a') as nat + 10
  }

  predicate AllHex(s: string) { forall i | 0 <= i < |s| :: IsHex(s[i]) }

  function HexValue(s: string): nat
    requires AllHex(s)
  {
    if s == [] then 0 else 16 * HexValue(s[..|s| - 1]) + HexDigit(s[|s| - 1])
  }

  /** The leading hex digits. */
  function HexRun(s: string): (run: string)
    ensures run <= s && AllHex(run)
    ensures |run| < |s| ==> !IsHex(s[|run|])
  {
    if s != [] && IsHex(s[0]) then
      var rest := HexRun(s[1..]);
      assert s == [s[0]] + s[1..];
      [s[0]] + rest
    else []
  }

  function HashOfLine(raw: string): LineKind {
    var line := Trim(raw);
    if line == [] || line[0] == '#' || line[0] == ';' || "//" <= line then Comment
    else if |HexRun(line)| != 32 then Junk
    else Hash(HexValue(HexRun(line)))
  }

  /** Something follows the hash. */
  predicate Annotated(raw: string) {
    var line := Trim(raw);
    |line| >= 32 && Trim(line[32..]) != []
  }

  lemma {:induction false} SameHexValue(s: string, t: string)
    requires AllHex(s) && AllHex(t) && |s| == |t|
    ensures HexValue(s) == HexValue(t) <==> forall i | 0 <= i < |s| :: HexDigit(s[i]) == HexDigit(t[i])
  {
    if s != [] {
      var k := |s| - 1;
      SameHexValue(s[..k], t[..k]);
      if HexValue(s) == HexValue(t) {
        forall i | 0 <= i < |s| ensures HexDigit(s[i]) == HexDigit(t[i]) {
          if i < k { assert HexDigit(s[..k][i]) == HexDigit(t[..k][i]); }
        }
      }
    }
  }

  /** Two lines carry the same hash exactly when they start with the same 32 hex digits, letter case
      aside; a longer run of digits is no hash. */
  lemma SameHash(x: string, y: string)
    requires HashOfLine(x).Hash? && HashOfLine(y).Hash?
    ensures var s, t := Trim(x), Trim(y);
      |s| >= 32 && |t| >= 32 && AllHex(s[..32]) && AllHex(t[..32]) &&
      (HashOfLine(x) == HashOfLine(y) <==> forall i | 0 <= i < 32 :: HexDigit(s[i]) == HexDigit(t[i]))
  {
    hide Trim;
    SameHexValue(HexRun(Trim(x)), HexRun(Trim(y)));
  }

  lemma {:induction false} TrimTrimEnd(s: string)
    ensures Trim(TrimEnd(s)) == Trim(s)
  {
    if s != [] && IsWhite(s[|s| - 1]) {
      TrimTrimEnd(s[..|s| - 1]);
      TrimEndWhite(s[..|s| - 1], s[|s| - 1]);
      assert s == s[..|s| - 1] + [s[|s| - 1]];
    }
  }

  /** White space at the end of a line, a carriage return included, changes nothing it says. */
  lemma SameSaying(line: string)
    ensures HashOfLine(TrimEnd(line)) == HashOfLine(StripCr(line)) == HashOfLine(line)
    ensures Annotated(TrimEnd(line)) == Annotated(StripCr(line)) == Annotated(line)
  {
    TrimTrimEnd(line);
    TrimStripsCr(line);
  }

  lemma {:induction false} TrimEndKeeps(s: string)
    ensures TrimEnd(s) <= s
    ensures StripCr(TrimEnd(s)) == TrimEnd(s)
    ensures s != [] && !IsWhite(s[0]) ==> TrimEnd(s) != []
  {
    if s != [] && IsWhite(s[|s| - 1]) {
      TrimEndKeeps(s[..|s| - 1]);
    }
  }

  lemma CommentLine(s: string)
    requires s == [] || s[0] == '#'
    ensures HashOfLine(s) == Comment
  {
    if s != [] { TrimEndKeeps(s); }
  }

  // ---- What a list says ----

  predicate Has(lines: seq<string>, h: nat) { exists i | 0 <= i < |lines| :: HashOfLine(lines[i]) == Hash(h) }

  /** Line i is the first that carries the hash. */
  predicate FirstAt(lines: seq<string>, i: nat, h: nat) {
    i < |lines| && HashOfLine(lines[i]) == Hash(h) && forall j | 0 <= j < i :: HashOfLine(lines[j]) != Hash(h)
  }

  predicate NoteAt(lines: seq<string>, i: nat, h: nat) {
    i < |lines| && HashOfLine(lines[i]) == Hash(h) && Annotated(lines[i])
  }

  predicate AnnotatedIn(lines: seq<string>, h: nat) { exists i | 0 <= i < |lines| :: NoteAt(lines, i, h) }

  /** The set of hashes a list carries. */
  function Hashes(lines: seq<string>): set<nat> {
    set i | 0 <= i < |lines| && HashOfLine(lines[i]).Hash? :: HashOfLine(lines[i]).hash
  }

  predicate IsHash(line: string) { HashOfLine(line).Hash? }
  predicate IsJunk(line: string) { HashOfLine(line) == Junk }

  function Count(lines: seq<string>, p: string -> bool): nat {
    if lines == [] then 0 else Count(lines[..|lines| - 1], p) + if p(lines[|lines| - 1]) then 1 else 0
  }

  lemma {:induction false} CountAppend(a: seq<string>, b: seq<string>, p: string -> bool)
    ensures Count(a + b, p) == Count(a, p) + Count(b, p)
  {
    if b == [] {
      assert a + b == a;
    } else {
      CountAppend(a, b[..|b| - 1], p);
      assert (a + b)[..|a + b| - 1] == a + b[..|b| - 1];
    }
  }

  lemma {:induction false} CountSame(a: seq<string>, b: seq<string>, p: string -> bool)
    requires |a| == |b| && forall i | 0 <= i < |a| :: p(a[i]) == p(b[i])
    ensures Count(a, p) == Count(b, p)
  {
    if a != [] {
      var k := |a| - 1;
      CountSame(a[..k], b[..k], p);
    }
  }

  lemma HasAppend(a: seq<string>, b: seq<string>, h: nat)
    ensures Has(a + b, h) <==> Has(a, h) || Has(b, h)
    ensures AnnotatedIn(a + b, h) <==> AnnotatedIn(a, h) || AnnotatedIn(b, h)
  {
    hide HashOfLine, Annotated;
    forall i | 0 <= i < |a| ensures (a + b)[i] == a[i] {}
    forall i | 0 <= i < |b| ensures (a + b)[|a| + i] == b[i] {}
    if Has(b, h) {
      var i :| 0 <= i < |b| && HashOfLine(b[i]) == Hash(h);
      assert HashOfLine((a + b)[|a| + i]) == Hash(h);
    }
    if AnnotatedIn(b, h) {
      var i :| 0 <= i < |b| && NoteAt(b, i, h);
      assert NoteAt(a + b, |a| + i, h);
    }
    if AnnotatedIn(a, h) {
      var i :| 0 <= i < |a| && NoteAt(a, i, h);
      assert NoteAt(a + b, i, h);
    }
    if AnnotatedIn(a + b, h) {
      var i :| 0 <= i < |a + b| && NoteAt(a + b, i, h);
      assert if i < |a| then NoteAt(a, i, h) else NoteAt(b, i - |a|, h);
    }
  }

  // ---- The union, line by line ----

  /** The first new line that carries the hash with an annotation. */
  function Note(news: seq<string>, h: nat): Option<string> {
    if news == [] then None
    else
      var k := |news| - 1;
      if Note(news[..k], h).Some? then Note(news[..k], h)
      else if NoteAt(news, k, h) then Some(news[k])
      else None
  }

  /** An old line stays as it is, unless it is the first line of its hash, bare, and the new list
      annotates that hash. */
  function Upgrade(base: seq<string>, news: seq<string>, i: nat): string
    requires i < |base|
  {
    match HashOfLine(base[i])
    case Hash(h) =>
      if FirstAt(base, i, h) && !Annotated(base[i]) && Note(news, h).Some? then TrimEnd(Note(news, h).value) else base[i]
    case _ => base[i]
  }

  function Upgraded(base: seq<string>, news: seq<string>): (out: seq<string>)
    ensures |out| == |base| && forall i | 0 <= i < |base| :: out[i] == Upgrade(base, news, i)
  {
    seq(|base|, i requires 0 <= i < |base| => Upgrade(base, news, i))
  }

  /** The new lines whose hash the old list does not have. */
  function Fresh(base: seq<string>, news: seq<string>): seq<string> {
    if news == [] then []
    else
      var before, line := Fresh(base, news[..|news| - 1]), news[|news| - 1];
      if HashOfLine(line).Hash? && !Has(base, HashOfLine(line).hash) then before + [TrimEnd(line)] else before
  }

  /** The new list repeats a hash that the old one does not have. */
  predicate Clash(base: seq<string>, news: seq<string>) {
    exists i, j | 0 <= i < j < |news| :: ClashAt(base, news, i, j)
  }

  predicate ClashAt(base: seq<string>, news: seq<string>, i: nat, j: nat)
    requires i < |news| && j < |news|
  {
    HashOfLine(news[i]).Hash? && HashOfLine(news[j]) == HashOfLine(news[i]) && !Has(base, HashOfLine(news[i]).hash)
  }

  function Marker(n: nat, stamp: string): string {
    "# \U{2500}\U{2500} merged " + Decimal(n) + " entries on " + stamp + " \U{2500}\U{2500}"
  }

  function Block(out: seq<string>, appended: seq<string>, stamp: string): seq<string> {
    if appended == [] then []
    else (if out != [] && Trim(out[|out| - 1]) != [] then [""] else []) + [Marker(|appended|, stamp)] + appended
  }

  function MergedLines(base: seq<string>, news: seq<string>, stamp: string): seq<string> {
    var out := Upgraded(base, news);
    out + Block(out, Fresh(base, news), stamp)
  }

  function Join(lines: seq<string>): string {
    if lines == [] then "" else if |lines| == 1 then lines[0] else lines[0] + "\n" + Join(lines[1..])
  }

  function TextOf(lines: seq<string>): string {
    var s := Join(lines);
    if s != [] && s[|s| - 1] == '\n' then s else s + "\n"
  }

  function MergedText(oldText: string, newText: string, stamp: string): string {
    TextOf(MergedLines(Lines(oldText), Lines(newText), stamp))
  }

  // ---- One step of the merging loop ----

  lemma {:induction false} NoteIs(news: seq<string>, h: nat)
    ensures Note(news, h).Some? <==> AnnotatedIn(news, h)
    ensures Note(news, h).Some? ==> HashOfLine(Note(news, h).value) == Hash(h) && Annotated(Note(news, h).value)
    ensures Note(news, h).Some? ==> exists i | 0 <= i < |news| :: news[i] == Note(news, h).value && NoteAt(news, i, h)
  {
    hide HashOfLine, Annotated;
    if news != [] {
      var k := |news| - 1;
      NoteIs(news[..k], h);
      forall i | 0 <= i < k ensures NoteAt(news, i, h) == NoteAt(news[..k], i, h) {}
    }
  }

  /** Line i was the first of its hash and bare; what replaces it is an annotated new line of that hash. */
  ghost predicate Improved(base: seq<string>, news: seq<string>, i: nat, line: string)
    requires i < |base|
  {
    HashOfLine(base[i]).Hash? && FirstAt(base, i, HashOfLine(base[i]).hash) && !Annotated(base[i]) &&
    exists j | 0 <= j < |news| :: NoteAt(news, j, HashOfLine(base[i]).hash) && line == TrimEnd(news[j])
  }

  /** Upgrading keeps the hash of every line, and annotates exactly the first bare line of a hash. */
  lemma UpgradeSays(base: seq<string>, news: seq<string>, i: nat)
    requires i < |base|
    ensures HashOfLine(Upgrade(base, news, i)) == HashOfLine(base[i])
    ensures Annotated(base[i]) ==> Upgrade(base, news, i) == base[i]
    ensures HashOfLine(base[i]).Hash? ==>
      var h := HashOfLine(base[i]).hash;
      Annotated(Upgrade(base, news, i)) <==> Annotated(base[i]) || (FirstAt(base, i, h) && AnnotatedIn(news, h))
    ensures Upgrade(base, news, i) != base[i] ==> Improved(base, news, i, Upgrade(base, news, i))
  {
    hide HashOfLine, Annotated, AnnotatedIn, TrimEnd;
    if HashOfLine(base[i]).Hash? {
      var h := HashOfLine(base[i]).hash;
      NoteIs(news, h);
      if Note(news, h).Some? { SameSaying(Note(news, h).value); }
    }
  }

  lemma NoteNext(news: seq<string>, line: string, h: nat)
    ensures Note(news + [line], h) ==
      if Note(news, h).Some? then Note(news, h)
      else if HashOfLine(line) == Hash(h) && Annotated(line) then Some(line)
      else None
  {
    hide HashOfLine, Annotated;
    assert (news + [line])[..|news|] == news;
  }

  lemma FreshNext(base: seq<string>, news: seq<string>, line: string)
    ensures Fresh(base, news + [line]) == Fresh(base, news) +
      if HashOfLine(line).Hash? && !Has(base, HashOfLine(line).hash) then [TrimEnd(line)] else []
  {
    hide HashOfLine, Has, TrimEnd;
    assert (news + [line])[..|news|] == news;
  }

  /** A line whose hash the old list lacks, or no hash line at all, upgrades nothing. */
  lemma UpgradedSkips(base: seq<string>, news: seq<string>, line: string)
    requires HashOfLine(line).Hash? ==> !Has(base, HashOfLine(line).hash)
    ensures Upgraded(base, news + [line]) == Upgraded(base, news)
  {
    hide HashOfLine, Annotated, TrimEnd, Note;
    forall i | 0 <= i < |base| ensures Upgrade(base, news + [line], i) == Upgrade(base, news, i) {
      if HashOfLine(base[i]).Hash? { NoteNext(news, line, HashOfLine(base[i]).hash); }
    }
  }

  /** A line whose hash the old list has upgrades at most the first line of that hash. */
  lemma UpgradedNext(base: seq<string>, news: seq<string>, line: string, i: nat)
    requires HashOfLine(line).Hash? && FirstAt(base, i, HashOfLine(line).hash)
    ensures Upgraded(base, news + [line]) ==
      if !Annotated(Upgrade(base, news, i)) && Annotated(line) then Upgraded(base, news)[i := TrimEnd(line)]
      else Upgraded(base, news)
  {
    hide HashOfLine, Annotated, TrimEnd, Note;
    var h := HashOfLine(line).hash;
    UpgradeSays(base, news, i);
    NoteIs(news, h);
    forall j | 0 <= j < |base| ensures Upgrade(base, news + [line], j) ==
      if j == i && !Annotated(Upgrade(base, news, i)) && Annotated(line) then TrimEnd(line) else Upgrade(base, news, j)
    {
      if HashOfLine(base[j]).Hash? {
        NoteNext(news, line, HashOfLine(base[j]).hash);
        if j != i { assert HashOfLine(base[j]) == Hash(h) ==> !FirstAt(base, j, h); }
      }
    }
  }

  lemma HasNext(lines: seq<string>, line: string, h: nat)
    ensures Has(lines + [line], h) <==> Has(lines, h) || HashOfLine(line) == Hash(h)
  {
    hide HashOfLine;
    var all := lines + [line];
    assert all[|lines|] == line;
    forall i | 0 <= i < |lines| ensures all[i] == lines[i] {}
  }

  lemma ClashNext(base: seq<string>, news: seq<string>, line: string)
    ensures Clash(base, news + [line]) <==>
      Clash(base, news) || (HashOfLine(line).Hash? && !Has(base, HashOfLine(line).hash) && Has(news, HashOfLine(line).hash))
  {
    hide HashOfLine;
    var all, k := news + [line], |news|;
    forall i, j | 0 <= i < j < k ensures ClashAt(base, all, i, j) == ClashAt(base, news, i, j) {}
    if HashOfLine(line).Hash? && !Has(base, HashOfLine(line).hash) && Has(news, HashOfLine(line).hash) {
      var i :| 0 <= i < k && HashOfLine(news[i]) == HashOfLine(line);
      assert ClashAt(base, all, i, k);
    }
    if Clash(base, news) {
      var i, j :| 0 <= i < j < k && ClashAt(base, news, i, j);
      assert ClashAt(base, all, i, j);
    }
    if Clash(base, all) {
      var i, j :| 0 <= i < j < |all| && ClashAt(base, all, i, j);
      if j < k { assert ClashAt(base, news, i, j); } else { assert HashOfLine(news[i]) == HashOfLine(line); }
    }
  }

  lemma NothingMerged(base: seq<string>)
    ensures Upgraded(base, []) == base && Fresh(base, []) == [] && !Clash(base, [])
  {
    hide HashOfLine;
  }

  const USIZE_MAX: nat := 0xffff_ffff_ffff_ffff

  lemma NothingHad()
    ensures forall h :: !Has([], h)
  {
  }

  /** One more line read. */
  lemma Step(base: seq<string>, news: seq<string>, k: nat)
    requires k < |news|
    ensures news[..k] + [news[k]] == news[..k + 1]
    ensures forall h :: Has(news[..k + 1], h) <==> Has(news[..k], h) || HashOfLine(news[k]) == Hash(h)
    ensures Clash(base, news[..k + 1]) ==
      (Clash(base, news[..k]) ||
       (HashOfLine(news[k]).Hash? && !Has(base, HashOfLine(news[k]).hash) && Has(news[..k], HashOfLine(news[k]).hash)))
    ensures Fresh(base, news[..k + 1]) == Fresh(base, news[..k]) +
      if HashOfLine(news[k]).Hash? && !Has(base, HashOfLine(news[k]).hash) then [TrimEnd(news[k])] else []
  {
    hide HashOfLine, Has, Clash, Fresh, TrimEnd;
    assert news[..k] + [news[k]] == news[..k + 1];
    forall h ensures Has(news[..k + 1], h) <==> Has(news[..k], h) || HashOfLine(news[k]) == Hash(h) {
      HasNext(news[..k], news[k], h);
    }
    ClashNext(base, news[..k], news[k]);
    FreshNext(base, news[..k], news[k]);
  }

  lemma ClashGrows(base: seq<string>, news: seq<string>, k: nat)
    requires k <= |news| && Clash(base, news[..k])
    ensures Clash(base, news)
  {
    hide HashOfLine, Has;
    var i, j :| 0 <= i < j < k && ClashAt(base, news[..k], i, j);
    assert ClashAt(base, news, i, j);
  }

  /** Where each hash of the old list stands first. */
  method IndexLines(out: seq<string>) returns (index: map<nat, nat>)
    ensures forall h :: h in index <==> Has(out, h)
    ensures forall h | h in index :: FirstAt(out, index[h], h)
  {
    hide HashOfLine;
    index := map[];
    for i := 0 to |out|
      invariant forall h :: h in index <==> Has(out[..i], h)
      invariant forall h | h in index :: index[h] < i && FirstAt(out, index[h], h)
    {
      forall h ensures Has(out[..i + 1], h) <==> Has(out[..i], h) || HashOfLine(out[i]) == Hash(h) {
        HasNext(out[..i], out[i], h);
        assert out[..i] + [out[i]] == out[..i + 1];
      }
      var kind := HashOfLine(out[i]);
      if kind.Hash? {
        if kind.hash !in index {
          assert FirstAt(out, i, kind.hash) by {
            forall j | 0 <= j < i ensures HashOfLine(out[j]) != kind { assert out[j] == out[..i][j]; }
          }
          index := index[kind.hash := i];
        }
      }
    }
    assert out[..|out|] == out;
  }

  /** None is the panic of an index out of range: a second new line of a hash the old list lacks
      meets the marker left by the first. No vector is longer than USIZE_MAX. */
  method MergeHashLists(oldText: string, newText: string, stamp: string) returns (merged: Option<string>)
    requires |Lines(oldText)| <= USIZE_MAX
    ensures merged.None? <==> Clash(Lines(oldText), Lines(newText))
    ensures merged.Some? ==> merged.value == MergedText(oldText, newText, stamp)
  {
    hide HashOfLine, Annotated, TrimEnd, Upgrade, Upgraded, Fresh, Clash, Lines, Trim, Marker, Join, Has;
    ghost var lines := Lines(oldText);
    var out := Lines(oldText);
    var index: map<nat, nat> := IndexLines(out);
    var appended: seq<string> := [];
    var news := Lines(newText);
    NothingMerged(lines);
    NothingHad();
    for k := 0 to |news|
      invariant out == Upgraded(lines, news[..k])
      invariant appended == Fresh(lines, news[..k])
      invariant !Clash(lines, news[..k])
      invariant forall h: nat :: h in index <==> Has(lines, h) || Has(news[..k], h)
      invariant forall h: nat | h in index && Has(lines, h) :: FirstAt(lines, index[h], h)
      invariant forall h: nat | h in index && !Has(lines, h) :: index[h] == USIZE_MAX
    {
      var line := news[k];
      Step(lines, news, k);
      var kind := HashOfLine(line);
      if kind.Hash? {
        var h := kind.hash;
        if h in index {
          var i := index[h];
          if i >= |out| {
            ClashGrows(lines, news, k + 1);
            return None;
          }
          UpgradedNext(lines, news[..k], line, i);
          if !Annotated(out[i]) && Annotated(line) {
            out := out[i := TrimEnd(line)];
          }
        } else {
          UpgradedSkips(lines, news[..k], line);
          index := index[h := USIZE_MAX];
          appended := appended + [TrimEnd(line)];
        }
      } else {
        UpgradedSkips(lines, news[..k], line);
      }
    }
    assert news[..|news|] == news;
    if appended != [] {
      if out != [] && Trim(out[|out| - 1]) != [] {
        out := out + [""];
      }
      out := out + [Marker(|appended|, stamp)];
      out := out + appended;
    }
    assert out == MergedLines(lines, news, stamp);
    var s := Join(out);
    if !(s != [] && s[|s| - 1] == '\n') {
      s := s + "\n";
    }
    return Some(s);
  }

  // ---- Writing lines and reading them back ----

  predicate AllOneLine(lines: seq<string>) { forall i | 0 <= i < |lines| :: OneLine(lines[i]) }

  /** What a list of lines reads back as once written: each line loses a carriage return at its end,
      and a blank last line after others is lost. */
  function Settle(lines: seq<string>): seq<string> {
    if lines == [] then [""]
    else
      var kept := Kept(lines);
      seq(|kept|, i requires 0 <= i < |kept| => StripCr(kept[i]))
  }

  function Kept(lines: seq<string>): seq<string> {
    if |lines| >= 2 && lines[|lines| - 1] == "" then lines[..|lines| - 1] else lines
  }

  lemma JoinEmpty(lines: seq<string>)
    ensures Join(lines) == [] <==> lines == [] || lines == [""]
  {
  }

  lemma {:induction false} TextReadsBack(lines: seq<string>)
    requires AllOneLine(lines)
    ensures Lines(TextOf(lines)) == Settle(lines)
  {
    hide Lines, StripCr, Settle, TextOf;
    if |lines| <= 1 {
      OneReadsBack(lines);
    } else {
      var rest := lines[1..];
      TextOfMore(lines);
      SettleMore(lines);
      NoLines();
      LinesCons(lines[0], if rest == [""] then [] else TextOf(rest));
      if rest != [""] {
        TextReadsBack(rest);
      } else {
        assert lines[0] + "\n" + [] == lines[0] + "\n";
      }
    }
  }

  lemma OneReadsBack(lines: seq<string>)
    requires AllOneLine(lines) && |lines| <= 1
    ensures Lines(TextOf(lines)) == Settle(lines)
  {
    hide Lines;
    var s := Join(lines);
    assert TextOf(lines) == s + "\n" + [];
    LinesCons(s, []);
    NoLines();
    assert StripCr([]) == [];
  }

  lemma TextOfMore(lines: seq<string>)
    requires |lines| >= 2
    ensures TextOf(lines) == if lines[1..] == [""] then lines[0] + "\n" else lines[0] + "\n" + TextOf(lines[1..])
  {
    var rest := lines[1..];
    JoinEmpty(rest);
    var s, t := Join(lines), Join(rest);
    assert s == lines[0] + "\n" + t;
    hide Join;
    if t == [] {
      assert s == lines[0] + "\n";
    } else {
      assert s[|s| - 1] == t[|t| - 1];
      assert lines[0] + "\n" + t + "\n" == lines[0] + "\n" + (t + "\n");
    }
  }

  lemma SettleMore(lines: seq<string>)
    requires |lines| >= 2
    ensures Settle(lines) == [StripCr(lines[0])] + if lines[1..] == [""] then [] else Settle(lines[1..])
  {
    hide StripCr;
  }

  lemma NoLines()
    ensures Lines([]) == []
  {
  }

  lemma {:induction false} LinesAreLines(s: string)
    ensures AllOneLine(Lines(s))
    decreases |s|
  {
    if s != [] {
      NoNewline(s);
      if !OneLine(s) {
        hide Lines, Find;
        var a, b := FirstLine(s);
        LinesAreLines(b);
        LinesCons(a, b);
      }
    }
  }

  lemma MergedOneLine(base: seq<string>, news: seq<string>, stamp: string)
    requires AllOneLine(base) && AllOneLine(news) && OneLine(stamp)
    ensures AllOneLine(MergedLines(base, news, stamp))
  {
    hide HashOfLine, Annotated, Note, TrimEnd, Fresh, Upgraded, Marker, FirstAt;
    forall i | 0 <= i < |base| ensures OneLine(Upgrade(base, news, i)) {
      UpgradeSays(base, news, i);
      if Upgrade(base, news, i) != base[i] {
        var j :| 0 <= j < |news| && Upgrade(base, news, i) == TrimEnd(news[j]);
        TrimEndKeeps(news[j]);
      }
    }
    var appended := Fresh(base, news);
    forall k | 0 <= k < |appended| ensures OneLine(appended[k]) {
      var j := FreshFrom(base, news, k);
      TrimEndKeeps(news[j]);
    }
    MarkerOneLine(|appended|, stamp);
  }

  lemma MarkerOneLine(n: nat, stamp: string)
    requires OneLine(stamp)
    ensures OneLine(Marker(n, stamp)) && HashOfLine(Marker(n, stamp)) == Comment
  {
    hide HashOfLine, Decimal;
    DecimalReadsBack(n);
    CommentLine(Marker(n, stamp));
  }

  /** Every appended line is a new line of a hash that the old list lacks. */
  lemma {:induction false} FreshFrom(base: seq<string>, news: seq<string>, k: nat) returns (j: nat)
    requires k < |Fresh(base, news)|
    ensures j < |news| && Fresh(base, news)[k] == TrimEnd(news[j])
    ensures HashOfLine(news[j]).Hash? && !Has(base, HashOfLine(news[j]).hash)
  {
    hide HashOfLine, Has, TrimEnd;
    var last := |news| - 1;
    if k < |Fresh(base, news[..last])| {
      j := FreshFrom(base, news[..last], k);
    } else {
      j := last;
    }
  }

  // ---- The union theorem ----

  lemma SettleSays(lines: seq<string>, h: nat)
    ensures Has(Settle(lines), h) <==> Has(lines, h)
    ensures AnnotatedIn(Settle(lines), h) <==> AnnotatedIn(lines, h)
    ensures Count(Settle(lines), IsHash) == Count(lines, IsHash)
    ensures Count(Settle(lines), IsJunk) == Count(lines, IsJunk)
  {
    hide HashOfLine, Annotated, Has, AnnotatedIn, Count, StripCr;
    BlankSays(h);
    var kept := Kept(lines);
    KeptSays(lines, h);
    if lines != [] {
      forall i | 0 <= i < |kept|
        ensures HashOfLine(Settle(lines)[i]) == HashOfLine(kept[i]) && Annotated(Settle(lines)[i]) == Annotated(kept[i])
      {
        SameSaying(kept[i]);
      }
      SayTheSame(Settle(lines), kept, h);
      CountSame(Settle(lines), kept, IsHash);
      CountSame(Settle(lines), kept, IsJunk);
    }
  }

  lemma SayTheSame(a: seq<string>, b: seq<string>, h: nat)
    requires |a| == |b|
    requires forall i | 0 <= i < |a| :: HashOfLine(a[i]) == HashOfLine(b[i]) && Annotated(a[i]) == Annotated(b[i])
    ensures Has(a, h) <==> Has(b, h)
    ensures AnnotatedIn(a, h) <==> AnnotatedIn(b, h)
  {
    hide HashOfLine, Annotated;
    forall i | 0 <= i < |a| ensures NoteAt(a, i, h) == NoteAt(b, i, h) {}
  }

  lemma BlankSays(h: nat)
    ensures !Has([], h) && !AnnotatedIn([], h) && !Has([""], h) && !AnnotatedIn([""], h)
    ensures Count([], IsHash) == Count([""], IsHash) == Count([], IsJunk) == Count([""], IsJunk) == 0
  {
    hide HashOfLine;
    CommentLine("");
    assert [""][..0] == [];
  }

  lemma KeptSays(lines: seq<string>, h: nat)
    ensures Has(Kept(lines), h) <==> Has(lines, h)
    ensures AnnotatedIn(Kept(lines), h) <==> AnnotatedIn(lines, h)
    ensures Count(Kept(lines), IsHash) == Count(lines, IsHash)
    ensures Count(Kept(lines), IsJunk) == Count(lines, IsJunk)
  {
    hide HashOfLine, Annotated, Has, AnnotatedIn, Count;
    var kept := Kept(lines);
    if |kept| < |lines| {
      assert lines == kept + [""];
      BlankSays(h);
      HasAppend(kept, [""], h);
      CountAppend(kept, [""], IsHash);
      CountAppend(kept, [""], IsJunk);
    }
  }

  lemma UpgradedSays(base: seq<string>, news: seq<string>, h: nat)
    ensures Has(Upgraded(base, news), h) <==> Has(base, h)
    ensures AnnotatedIn(Upgraded(base, news), h) <==> AnnotatedIn(base, h) || (Has(base, h) && AnnotatedIn(news, h))
    ensures Count(Upgraded(base, news), IsHash) == Count(base, IsHash)
    ensures Count(Upgraded(base, news), IsJunk) == Count(base, IsJunk)
  {
    hide HashOfLine, Annotated, Upgrade, Count;
    var out := Upgraded(base, news);
    forall i | 0 <= i < |base|
      ensures HashOfLine(out[i]) == HashOfLine(base[i])
      ensures HashOfLine(base[i]) == Hash(h) ==>
        (Annotated(out[i]) <==> Annotated(base[i]) || (FirstAt(base, i, h) && AnnotatedIn(news, h)))
    {
      UpgradeSays(base, news, i);
    }
    CountSame(out, base, IsHash);
    CountSame(out, base, IsJunk);
    if Has(base, h) && AnnotatedIn(news, h) {
      var i := FirstOf(base, h);
      assert NoteAt(out, i, h);
    }
    if AnnotatedIn(base, h) {
      var i :| 0 <= i < |base| && NoteAt(base, i, h);
      assert NoteAt(out, i, h);
    }
    if AnnotatedIn(out, h) {
      var i :| 0 <= i < |out| && NoteAt(out, i, h);
      assert NoteAt(base, i, h) || AnnotatedIn(news, h);
    }
  }

  lemma {:induction false} FirstOf(lines: seq<string>, h: nat) returns (i: nat)
    requires Has(lines, h)
    ensures FirstAt(lines, i, h)
  {
    hide HashOfLine;
    i := 0;
    while HashOfLine(lines[i]) != Hash(h)
      invariant i < |lines| && forall j | 0 <= j < i :: HashOfLine(lines[j]) != Hash(h)
      decreases |lines| - i
    {
      assert exists j | i < j < |lines| :: HashOfLine(lines[j]) == Hash(h);
      i := i + 1;
    }
  }

  lemma {:induction false} FreshSays(base: seq<string>, news: seq<string>, h: nat)
    ensures Has(Fresh(base, news), h) <==> Has(news, h) && !Has(base, h)
    ensures AnnotatedIn(Fresh(base, news), h) <==> AnnotatedIn(news, h) && !Has(base, h)
    ensures Count(Fresh(base, news), IsHash) == |Fresh(base, news)|
    ensures Count(Fresh(base, news), IsJunk) == 0
  {
    BlankSays(h);
    if news != [] {
      hide HashOfLine, Annotated, Has, AnnotatedIn, Count, TrimEnd, Fresh;
      var init, line := news[..|news| - 1], news[|news| - 1];
      FreshSays(base, init, h);
      assert news == init + [line];
      FreshNext(base, init, line);
      HasAppend(init, [line], h);
      OneSays(line, h);
      OneSays(TrimEnd(line), h);
      SameSaying(line);
      HasAppend(Fresh(base, init), [TrimEnd(line)], h);
      CountAppend(Fresh(base, init), [TrimEnd(line)], IsHash);
      CountAppend(Fresh(base, init), [TrimEnd(line)], IsJunk);
    }
  }

  lemma OneSays(line: string, h: nat)
    ensures Has([line], h) <==> HashOfLine(line) == Hash(h)
    ensures AnnotatedIn([line], h) <==> HashOfLine(line) == Hash(h) && Annotated(line)
    ensures Count([line], IsHash) == if IsHash(line) then 1 else 0
    ensures Count([line], IsJunk) == if IsJunk(line) then 1 else 0
  {
    hide HashOfLine, Annotated;
    assert [line][0] == line && [line][..0] == [];
    assert NoteAt([line], 0, h) <==> HashOfLine(line) == Hash(h) && Annotated(line);
  }

  lemma BlockSays(out: seq<string>, appended: seq<string>, stamp: string, h: nat)
    requires OneLine(stamp)
    ensures Has(Block(out, appended, stamp), h) <==> Has(appended, h)
    ensures AnnotatedIn(Block(out, appended, stamp), h) <==> AnnotatedIn(appended, h)
    ensures Count(Block(out, appended, stamp), IsHash) == Count(appended, IsHash)
    ensures Count(Block(out, appended, stamp), IsJunk) == Count(appended, IsJunk)
  {
    hide HashOfLine, Annotated, Has, AnnotatedIn, Count, Marker, Trim;
    if appended != [] {
      var marker := Marker(|appended|, stamp);
      BlankSays(h);
      MarkerOneLine(|appended|, stamp);
      OneSays(marker, h);
      HasAppend([marker], appended, h);
      CountAppend([marker], appended, IsHash);
      CountAppend([marker], appended, IsJunk);
      if out != [] && Trim(out[|out| - 1]) != [] {
        HasAppend([""], [marker] + appended, h);
        CountAppend([""], [marker] + appended, IsHash);
        CountAppend([""], [marker] + appended, IsJunk);
        assert Block(out, appended, stamp) == [""] + ([marker] + appended);
      } else {
        assert Block(out, appended, stamp) == [marker] + appended;
      }
    }
  }

  lemma MergedSays(base: seq<string>, news: seq<string>, stamp: string, h: nat)
    requires OneLine(stamp)
    ensures var lines := MergedLines(base, news, stamp);
      (Has(lines, h) <==> Has(base, h) || Has(news, h)) &&
      (AnnotatedIn(lines, h) <==> AnnotatedIn(base, h) || AnnotatedIn(news, h)) &&
      Count(lines, IsHash) == Count(base, IsHash) + |Fresh(base, news)| &&
      Count(lines, IsJunk) == Count(base, IsJunk)
  {
    hide HashOfLine, Annotated, Has, AnnotatedIn, Count, Fresh, Upgraded, Block;
    var out, appended := Upgraded(base, news), Fresh(base, news);
    UpgradedSays(base, news, h);
    FreshSays(base, news, h);
    BlockSays(out, appended, stamp, h);
    HasAppend(out, Block(out, appended, stamp), h);
    CountAppend(out, Block(out, appended, stamp), IsHash);
    CountAppend(out, Block(out, appended, stamp), IsJunk);
    NotesAreHashes(news, h);
  }

  lemma NotesAreHashes(lines: seq<string>, h: nat)
    ensures AnnotatedIn(lines, h) ==> Has(lines, h)
  {
    hide HashOfLine, Annotated;
  }

  lemma {:induction false} FreshCount(base: seq<string>, news: seq<string>)
    requires !Clash(base, news)
    ensures |Fresh(base, news)| == |Hashes(news) - Hashes(base)|
  {
    if news == [] {
      assert Hashes([]) == {};
    } else {
      hide HashOfLine, Has, Clash, Fresh, TrimEnd, Hashes;
      var init, line := news[..|news| - 1], news[|news| - 1];
      assert news == init + [line];
      ClashNext(base, init, line);
      FreshCount(base, init);
      FreshNext(base, init, line);
      HashesNext(init, line);
      HashesAre(base);
      HashesAre(init);
      if HashOfLine(line).Hash? {
        OneMore(Hashes(init), Hashes(base), HashOfLine(line).hash);
      } else {
        assert Hashes(news) == Hashes(init);
      }
    }
  }

  lemma OneMore(a: set<nat>, b: set<nat>, h: nat)
    requires h !in b ==> h !in a
    ensures |a + {h} - b| == |a - b| + if h in b then 0 else 1
  {
    if h in b {
      assert a + {h} - b == a - b;
    } else {
      assert a + {h} - b == (a - b) + {h};
    }
  }

  lemma HashesAre(lines: seq<string>)
    ensures forall h: nat :: h in Hashes(lines) <==> Has(lines, h)
  {
    hide HashOfLine;
  }

  lemma HashesNext(lines: seq<string>, line: string)
    ensures Hashes(lines + [line]) == Hashes(lines) + if HashOfLine(line).Hash? then {HashOfLine(line).hash} else {}
  {
    hide HashOfLine;
    var all := lines + [line];
    assert all[|lines|] == line;
    forall i | 0 <= i < |lines| ensures all[i] == lines[i] {}
  }

  lemma MergedTextLines(oldText: string, newText: string, stamp: string)
    requires OneLine(stamp)
    ensures Lines(MergedText(oldText, newText, stamp)) == Settle(MergedLines(Lines(oldText), Lines(newText), stamp))
  {
    hide Lines, MergedLines, TextOf, Settle;
    LinesAreLines(oldText);
    LinesAreLines(newText);
    MergedOneLine(Lines(oldText), Lines(newText), stamp);
    TextReadsBack(MergedLines(Lines(oldText), Lines(newText), stamp));
  }

  /** The merged file carries the hashes of both files and no other, and an annotation for a hash
      exactly when one of the files has one. */
  lemma MergeIsUnion(oldText: string, newText: string, stamp: string, h: nat)
    requires OneLine(stamp)
    ensures var merged := Lines(MergedText(oldText, newText, stamp));
      (Has(merged, h) <==> Has(Lines(oldText), h) || Has(Lines(newText), h)) &&
      (AnnotatedIn(merged, h) <==> AnnotatedIn(Lines(oldText), h) || AnnotatedIn(Lines(newText), h))
  {
    hide Lines, Has, AnnotatedIn, MergedLines, Settle, MergedText;
    MergedTextLines(oldText, newText, stamp);
    MergedSays(Lines(oldText), Lines(newText), stamp, h);
    SettleSays(MergedLines(Lines(oldText), Lines(newText), stamp), h);
  }

  /** The number of entries grows by exactly the hashes that the old file lacked: a merge can never
      shrink a list. Nothing unreadable is added. */
  lemma MergeCounts(oldText: string, newText: string, stamp: string)
    requires OneLine(stamp) && !Clash(Lines(oldText), Lines(newText))
    ensures var merged := Lines(MergedText(oldText, newText, stamp));
      Count(merged, IsHash) == Count(Lines(oldText), IsHash) + |Hashes(Lines(newText)) - Hashes(Lines(oldText))| &&
      Count(merged, IsJunk) == Count(Lines(oldText), IsJunk)
  {
    hide Lines, Clash, Count, MergedLines, Settle, MergedText, Hashes, IsHash, IsJunk;
    MergedTextLines(oldText, newText, stamp);
    MergedSays(Lines(oldText), Lines(newText), stamp, 0);
    SettleSays(MergedLines(Lines(oldText), Lines(newText), stamp), 0);
    FreshCount(Lines(oldText), Lines(newText));
  }

  /** Old lines keep their places. One changes only from bare to annotated, for the same hash, or by
      losing a carriage return; and only a blank last line can be lost, when nothing is appended. */
  lemma MergeKeepsLines(oldText: string, newText: string, stamp: string, i: nat)
    requires OneLine(stamp) && i < |Lines(oldText)|
    ensures var base, news, merged := Lines(oldText), Lines(newText), Lines(MergedText(oldText, newText, stamp));
      (i < |merged| ==> merged[i] == StripCr(base[i]) || Improved(base, news, i, merged[i])) &&
      (i >= |merged| <==> i == |base| - 1 && i > 0 && base[i] == "" && Fresh(base, news) == [])
  {
    hide Lines, HashOfLine, Annotated, Upgrade, Fresh, Marker, Improved, MergedText, StripCr;
    var base, news := Lines(oldText), Lines(newText);
    MergedTextLines(oldText, newText, stamp);
    var lines := MergedLines(base, news, stamp);
    UpgradeSays(base, news, i);
    assert lines[i] == Upgrade(base, news, i);
    if lines[i] != base[i] { ImprovedIsClean(base, news, i, lines[i]); }
    if Fresh(base, news) == [] {
      UpgradeSays(base, news, |base| - 1);
      if lines[|base| - 1] != base[|base| - 1] { ImprovedIsClean(base, news, |base| - 1, lines[|base| - 1]); }
    } else {
      assert lines[|lines| - 1] == Fresh(base, news)[|Fresh(base, news)| - 1];
      var j := FreshFrom(base, news, |Fresh(base, news)| - 1);
      HashLineNotBlank(news[j]);
    }
  }

  lemma HashLineNotBlank(line: string)
    requires HashOfLine(line).Hash?
    ensures TrimEnd(line) != "" && line != ""
  {
    SameSaying(line);
    CommentLine("");
  }

  lemma ImprovedIsClean(base: seq<string>, news: seq<string>, i: nat, line: string)
    requires i < |base| && Improved(base, news, i, line)
    ensures StripCr(line) == line && line != "" && base[i] != ""
  {
    hide HashOfLine, Annotated, TrimEnd, StripCr, FirstAt;
    var j :| 0 <= j < |news| && NoteAt(news, j, HashOfLine(base[i]).hash) && line == TrimEnd(news[j]);
    TrimEndKeeps(news[j]);
    HashLineNotBlank(news[j]);
    HashLineNotBlank(base[i]);
  }

  // ---- Merging the same list again ----

  /** Every hash that the new list annotates is annotated where it first stands. */
  ghost predicate Refined(lines: seq<string>, news: seq<string>) {
    forall i: nat, h: nat | FirstAt(lines, i, h) && AnnotatedIn(news, h) :: Annotated(lines[i])
  }

  lemma BlockLine(out: seq<string>, appended: seq<string>, stamp: string, k: nat)
    requires OneLine(stamp) && k < |Block(out, appended, stamp)|
    ensures HashOfLine(Block(out, appended, stamp)[k]) == Comment || Block(out, appended, stamp)[k] in appended
  {
    hide HashOfLine, Marker, Trim;
    CommentLine("");
    MarkerOneLine(|appended|, stamp);
  }

  lemma RefinedMerged(base: seq<string>, news: seq<string>, stamp: string)
    requires OneLine(stamp) && !Clash(base, news)
    ensures Refined(MergedLines(base, news, stamp), news)
  {
    hide HashOfLine, Annotated, AnnotatedIn, Fresh, Block, Upgrade;
    var lines, out, appended := MergedLines(base, news, stamp), Upgraded(base, news), Fresh(base, news);
    forall i: nat, h: nat | FirstAt(lines, i, h) && AnnotatedIn(news, h) ensures Annotated(lines[i]) {
      if i < |base| {
        UpgradeSays(base, news, i);
        forall j | 0 <= j < i ensures HashOfLine(base[j]) != Hash(h) {
          UpgradeSays(base, news, j);
          assert lines[j] == out[j];
        }
      } else {
        assert !Has(base, h) by {
          forall j | 0 <= j < |base| ensures HashOfLine(base[j]) != Hash(h) {
            UpgradeSays(base, news, j);
            assert lines[j] == out[j];
          }
        }
        BlockLine(out, appended, stamp, i - |base|);
        FreshRefined(base, news, lines[i], h);
      }
    }
  }

  lemma FreshRefined(base: seq<string>, news: seq<string>, line: string, h: nat)
    requires !Clash(base, news) && line in Fresh(base, news)
    requires HashOfLine(line) == Hash(h) && AnnotatedIn(news, h)
    ensures Annotated(line)
  {
    hide HashOfLine, Annotated, Fresh, Has, TrimEnd;
    var k :| 0 <= k < |Fresh(base, news)| && Fresh(base, news)[k] == line;
    var j := FreshFrom(base, news, k);
    SameSaying(news[j]);
    var i :| 0 <= i < |news| && NoteAt(news, i, h);
    assert !(i < j && ClashAt(base, news, i, j)) && !(j < i && ClashAt(base, news, j, i));
  }

  lemma RefinedSettles(lines: seq<string>, news: seq<string>)
    requires Refined(lines, news)
    ensures Refined(Settle(lines), news)
  {
    hide HashOfLine, Annotated, AnnotatedIn, StripCr;
    var read := Settle(lines);
    if lines == [] {
      CommentLine("");
    } else {
      forall i | 0 <= i < |read|
        ensures HashOfLine(read[i]) == HashOfLine(lines[i]) && Annotated(read[i]) == Annotated(lines[i])
      {
        SameSaying(lines[i]);
      }
      forall i: nat, h: nat | FirstAt(read, i, h) && AnnotatedIn(news, h) ensures Annotated(read[i]) {
        assert FirstAt(lines, i, h);
      }
    }
  }

  lemma RefinedIsFinal(lines: seq<string>, news: seq<string>, stamp: string)
    requires Refined(lines, news) && forall h: nat | Has(news, h) :: Has(lines, h)
    ensures MergedLines(lines, news, stamp) == lines && !Clash(lines, news)
  {
    hide HashOfLine, Annotated, AnnotatedIn, Upgrade;
    forall i | 0 <= i < |lines| ensures Upgrade(lines, news, i) == lines[i] {
      UpgradeSays(lines, news, i);
      if Upgrade(lines, news, i) != lines[i] {
        NoteSomewhere(news, HashOfLine(lines[i]).hash);
      }
    }
    if Fresh(lines, news) != [] { SomethingFresh(lines, news); }
  }

  lemma SomethingFresh(base: seq<string>, news: seq<string>)
    requires Fresh(base, news) != []
    ensures exists h: nat :: Has(news, h) && !Has(base, h)
  {
    hide HashOfLine;
    var j := FreshFrom(base, news, 0);
    assert Has(news, HashOfLine(news[j]).hash);
  }

  lemma NoteSomewhere(news: seq<string>, h: nat)
    ensures AnnotatedIn(news, h) <==> exists j | 0 <= j < |news| :: NoteAt(news, j, h)
  {
  }

  /** The lines that come back from a file as they went into it. */
  predicate Steady(lines: seq<string>) {
    (forall i | 0 <= i < |lines| :: StripCr(lines[i]) == lines[i]) && !(|lines| >= 2 && lines[|lines| - 1] == "")
  }

  lemma SteadySettles(lines: seq<string>)
    requires lines != []
    ensures Settle(lines) == lines <==> Steady(lines)
  {
    hide StripCr;
    if Settle(lines) == lines {
      assert |Kept(lines)| == |lines|;
      forall i | 0 <= i < |lines| ensures StripCr(lines[i]) == lines[i] { assert Settle(lines)[i] == StripCr(lines[i]); }
    }
  }

  /** Merging the same list again adds and changes nothing, so the lines stay exactly as they are if
      and only if no line of the merged file still ends in a carriage return and its last line is not
      a blank one after others: writing the file again would drop those. */
  lemma MergeAgain(oldText: string, newText: string, stamp: string, later: string)
    requires OneLine(stamp) && OneLine(later) && !Clash(Lines(oldText), Lines(newText))
    ensures var merged := MergedText(oldText, newText, stamp);
      !Clash(Lines(merged), Lines(newText)) &&
      MergedLines(Lines(merged), Lines(newText), later) == Lines(merged) &&
      (Lines(MergedText(merged, newText, later)) == Lines(merged) <==> Steady(Lines(merged)))
  {
    hide Lines, HashOfLine, Annotated, Has, AnnotatedIn, Clash, MergedLines, MergedText, Settle, Steady, Refined;
    var base, news := Lines(oldText), Lines(newText);
    var merged := MergedText(oldText, newText, stamp);
    MergedTextLines(oldText, newText, stamp);
    RefinedMerged(base, news, stamp);
    RefinedSettles(MergedLines(base, news, stamp), news);
    forall h: nat | Has(news, h) ensures Has(Lines(merged), h) { MergeIsUnion(oldText, newText, stamp, h); }
    RefinedIsFinal(Lines(merged), news, later);
    MergedTextLines(merged, newText, later);
    SettleSome(MergedLines(base, news, stamp));
    SteadySettles(Lines(merged));
  }

  lemma SettleSome(lines: seq<string>)
    ensures Settle(lines) != []
  {
  }

  /** A file of blank lines shrinks by one with every merge. */
  lemma BlankLinesShrink(stamp: string)
    requires OneLine(stamp)
    ensures Lines("\n\n\n") == ["", "", ""]
    ensures Lines(MergedText("\n\n\n", "", stamp)) == ["", ""]
    ensures Lines(MergedText(MergedText("\n\n\n", "", stamp), "", stamp)) == [""]
  {
    hide Lines, HashOfLine, Settle, MergedText;
    ThreeBlankLines();
    CommentLine("");
    NoLines();
    assert Lines("") == [];
    NothingMerged(["", "", ""]);
    NothingMerged(["", ""]);
    assert MergedLines(["", "", ""], [], stamp) == ["", "", ""];
    assert MergedLines(["", ""], [], stamp) == ["", ""];
    MergedTextLines("\n\n\n", "", stamp);
    MergedTextLines(MergedText("\n\n\n", "", stamp), "", stamp);
    BlankSettles();
  }

  lemma ThreeBlankLines()
    ensures Lines("\n\n\n") == ["", "", ""]
  {
    NoLines();
    hide Find, Lines;
    LinesCons("", "");
    LinesCons("", "\n");
    LinesCons("", "\n\n");
    assert "" + "\n" + "" == "\n";
    assert "" + "\n" + "\n" == "\n\n";
    assert "" + "\n" + "\n\n" == "\n\n\n";
  }

  lemma BlankSettles()
    ensures Settle(["", "", ""]) == ["", ""] && Settle(["", ""]) == [""]
  {
  }

  /** One hash written twice in a new list, merged into an empty file, makes the merge panic. */
  lemma RepeatedNewHashPanics(hash: string)
    requires |hash| == 32 && AllHex(hash)
    ensures Clash(Lines(""), Lines(hash + "\n" + hash + "\n"))
  {
    TrimOfSolid(hash);
    assert HexRun(hash) == hash;
    assert HashOfLine(hash).Hash?;
    assert ClashAt([], [hash, hash], 0, 1);
    hide Clash, HashOfLine, HexRun;
    assert hash[31] != '\r' && StripCr(hash) == hash;
    assert OneLine(hash);
    TwoLinesOf(hash);
  }

  lemma TwoLinesOf(line: string)
    requires OneLine(line) && StripCr(line) == line
    ensures Lines("") == [] && Lines(line + "\n" + line + "\n") == [line, line]
  {
    NoLines();
    assert Lines("") == [];
    hide Lines, StripCr;
    LinesCons(line, "");
    LinesCons(line, line + "\n" + "");
    assert line + "\n" + (line + "\n" + "") == line + "\n" + line + "\n";
  }

  // ---- Validation ----

  datatype ListError = MostlyJunk | EmptyList

  function Verdict(lines: seq<string>, whitelist: bool): Result<nat, ListError> {
    var n, bad := Count(lines, IsHash), Count(lines, IsJunk);
    if bad > 0 && bad * 4 > n then Err(MostlyJunk)
    else if n == 0 && !whitelist then Err(EmptyList)
    else Ok(n)
  }

  method Validate(text: string, whitelist: bool) returns (r: Result<nat, ListError>)
    ensures r == Verdict(Lines(text), whitelist)
    ensures var n, bad := Count(Lines(text), IsHash), Count(Lines(text), IsJunk);
      && (r == Err(MostlyJunk) <==> 4 * bad > n)
      && (r == Err(EmptyList) <==> n == 0 && bad == 0 && !whitelist)
      && (r.Ok? ==> r.value == n)
  {
    hide HashOfLine;
    var lines := Lines(text);
    var n: nat, bad: nat := 0, 0;
    for i := 0 to |lines|
      invariant n == Count(lines[..i], IsHash) && bad == Count(lines[..i], IsJunk)
    {
      assert lines[..i + 1][..i] == lines[..i];
      match HashOfLine(lines[i])
      case Hash(_) => n := n + 1;
      case Comment =>
      case Junk => bad := bad + 1;
    }
    assert lines[..|lines|] == lines;
    if bad > 0 && bad * 4 > n {
      return Err(MostlyJunk);
    }
    if n == 0 && !whitelist {
      return Err(EmptyList);
    }
    return Ok(n);
  }

  /** Merging into a list that passes gives a list that passes, with the entries counted exactly. */
  lemma MergeStaysValid(oldText: string, newText: string, stamp: string, whitelist: bool)
    requires OneLine(stamp) && !Clash(Lines(oldText), Lines(newText))
    requires Verdict(Lines(oldText), whitelist).Ok?
    ensures Verdict(Lines(MergedText(oldText, newText, stamp)), whitelist) ==
      Ok(Verdict(Lines(oldText), whitelist).value + |Hashes(Lines(newText)) - Hashes(Lines(oldText))|)
  {
    hide Lines, Count, Clash, MergedText, Hashes;
    MergeCounts(oldText, newText, stamp);
  }
}
