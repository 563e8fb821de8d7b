/** The IP block list (src/filter/ipfilter.rs): both line formats, the merged index, and the proof
    that a binary search of the index answers exactly as a scan of the file would. */
module IpFilters {
  import opened Common
  import opened Decimals
  import opened Sorting
  import opened Sources
  import opened Texts

  datatype Range = Range(start: ipv4, end: ipv4) {
    predicate Contains(ip: ipv4) { start <= ip <= end }
  }

  // ---- Addresses ----

  /** Rust's u8 parser: an optional plus sign, then digits with any number of leading zeros. */
  function ParseU8(s: string): (octet: Option<nat>)
    ensures octet.Some? ==> octet.value <= 255
  {
    var digits := if s != [] && s[0] == '+' then s[1..] else s;
    if digits != [] && AllDigits(digits) && Value(digits) <= 255 then Some(Value(digits)) else None
  }

  /** Any number of leading zeros, and one plus sign in front, leave an octet what it is. */
  lemma OctetSpellings(s: string)
    requires s != [] && AllDigits(s)
    ensures ParseU8("0" + s) == ParseU8(s) == ParseU8("+" + s)
  {
    ValueOfCons('0', s);
    assert ['0'] + s == "0" + s;
    assert DigitValue('0') * Pow10(|s|) == 0;
    assert ("+" + s)[1..] == s;
    hide Value;
  }

  /** The address a.b.c.d. */
  function Dotted(a: nat, b: nat, c: nat, d: nat): ipv4
    requires a <= 255 && b <= 255 && c <= 255 && d <= 255
  {
    a * 0x100_0000 + b * 0x1_0000 + c * 0x100 + d
  }

  function Ip(s: string): Option<ipv4> {
    var parts := Split(s, '.');
    if |parts| == 4 && (forall i | 0 <= i < 4 :: ParseU8(parts[i]).Some?)
    then Some(Dotted(ParseU8(parts[0]).value, ParseU8(parts[1]).value, ParseU8(parts[2]).value, ParseU8(parts[3]).value))
    else None
  }

  /** The dotted value so far: the first k octets, high byte first. */
  ghost function Prefix(parts: seq<string>, k: nat): nat
    requires k <= |parts| && forall i | 0 <= i < k :: ParseU8(parts[i]).Some?
  {
    if k == 0 then 0 else Prefix(parts, k - 1) * 256 + ParseU8(parts[k - 1]).value
  }

  /** Shifting a 32-bit word left by eight drops its top byte; the octet fills the cleared low byte. */
  function PushOctet(n: ipv4, octet: nat): ipv4
    requires octet <= 255
  {
    n % 0x100_0000 * 256 + octet
  }

  lemma PrefixOfFour(parts: seq<string>)
    requires |parts| == 4 && forall i | 0 <= i < 4 :: ParseU8(parts[i]).Some?
    ensures Prefix(parts, 4) == Dotted(ParseU8(parts[0]).value, ParseU8(parts[1]).value,
                                       ParseU8(parts[2]).value, ParseU8(parts[3]).value)
  {
    hide ParseU8;
    assert Prefix(parts, 1) == ParseU8(parts[0]).value;
    assert Prefix(parts, 2) == Prefix(parts, 1) * 256 + ParseU8(parts[1]).value;
    assert Prefix(parts, 3) == Prefix(parts, 2) * 256 + ParseU8(parts[2]).value;
  }

  method IpToU32(s: string) returns (r: Option<ipv4>)
    ensures r == Ip(s)
  {
    hide ParseU8, Split;
    var parts := Split(s, '.');
    if |parts| != 4 {
      return None;
    }
    var n: ipv4 := 0;
    for k := 0 to |parts|
      invariant forall i | 0 <= i < k :: ParseU8(parts[i]).Some?
      invariant n == Prefix(parts, k)
      invariant n < if k == 0 then 1 else if k == 1 then 0x100 else if k == 2 then 0x1_0000
                    else if k == 3 then 0x100_0000 else V4_END
    {
      var octet := ParseU8(parts[k]);
      if octet.None? {
        return None;
      }
      n := PushOctet(n, octet.value);
    }
    PrefixOfFour(parts);
    return Some(n);
  }

  // ---- Lines ----

  function Pair(a: Option<ipv4>, b: Option<ipv4>): Option<Range> {
    if a.Some? && b.Some? then Some(Range(a.value, b.value)) else None
  }

  /** "start - end , priority , description" */
  function Dat(line: string): Option<Range> {
    match Find(line, " - ")
    case None => None
    case Some(dash) =>
      FindBounds(line, " - ");
      var rest := line[dash + 3..];
      FindBounds(rest, " , ");
      var endRaw := match Find(rest, " , ") case None => rest case Some(c) => rest[..c];
      Pair(Ip(Trim(line[..dash])), Ip(Trim(endRaw)))
  }

  /** "description:start-end" */
  function P2p(line: string): Option<Range> {
    RFindBounds(line, ':');
    var range := Trim(match RFind(line, ':') case None => line case Some(c) => line[c + 1..]);
    RFindBounds(range, '-');
    match RFind(range, '-')
    case None => None
    case Some(dash) => Pair(Ip(Trim(range[..dash])), Ip(Trim(range[dash + 1..])))
  }

  function ParseLine(line: string): Option<Range> {
    if Dat(line).Some? then Dat(line) else P2p(line)
  }

  /** What a line of the file blocks: nothing for blank lines and comments. */
  function Entry(raw: string): Option<Range> {
    var line := Trim(raw);
    if line == [] || line[0] == '#' then None else ParseLine(line)
  }

  /** The reference meaning of a file: some line's range holds the address. */
  predicate Covers(lines: seq<string>, ip: ipv4) {
    exists i | 0 <= i < |lines| :: Blocks(lines[i], ip)
  }

  predicate Blocks(line: string, ip: ipv4) { Entry(line).Some? && Entry(line).value.Contains(ip) }

  predicate Covered(text: string, ip: ipv4) { Covers(Lines(text), ip) }

  // ---- What an address looks like ----

  predicate AddressChar(c: char) { IsDigit(c) || c == '.' || c == '+' }

  predicate AddressText(s: string) { s != [] && forall i | 0 <= i < |s| :: AddressChar(s[i]) }

  lemma {:induction false} SplitHolds(s: string, c: char, i: nat)
    requires i < |s| && s[i] != c
    ensures exists k | 0 <= k < |Split(s, c)| :: s[i] in Split(s, c)[k]
  {
    var rest := Split(s[1..], c);
    if s[0] == c {
      SplitHolds(s[1..], c, i - 1);
      var k :| 0 <= k < |rest| && s[1..][i - 1] in rest[k];
      assert Split(s, c)[k + 1] == rest[k];
    } else if i == 0 {
      assert s[0] in Split(s, c)[0];
    } else {
      SplitHolds(s[1..], c, i - 1);
      var k :| 0 <= k < |rest| && s[1..][i - 1] in rest[k];
      assert s[i] in Split(s, c)[k];
    }
  }

  lemma OctetChars(s: string, c: char)
    requires ParseU8(s).Some? && c in s
    ensures AddressChar(c) && c != '.'
  {
    var i :| 0 <= i < |s| && s[i] == c;
    if s[0] == '+' {
      assert i > 0 ==> s[1..][i - 1] == c;
    }
  }

  lemma AddressChars(s: string)
    requires Ip(s).Some?
    ensures AddressText(s)
  {
    var parts := Split(s, '.');
    forall i | 0 <= i < |s| ensures AddressChar(s[i]) {
      if s[i] != '.' {
        SplitHolds(s, '.', i);
        var k :| 0 <= k < |parts| && s[i] in parts[k];
        OctetChars(parts[k], s[i]);
      }
    }
  }

  /** A four-octet line of text is read back octet by octet. */
  lemma IpOfOctets(a: string, b: string, c: string, d: string)
    requires ParseU8(a).Some? && ParseU8(b).Some? && ParseU8(c).Some? && ParseU8(d).Some?
    ensures Ip(a + "." + b + "." + c + "." + d) ==
      Some(Dotted(ParseU8(a).value, ParseU8(b).value, ParseU8(c).value, ParseU8(d).value))
  {
    hide ParseU8, Split;
    NoDot(a); NoDot(b); NoDot(c); NoDot(d);
    SplitNone(d, '.');
    SplitAt(c, '.', d);
    SplitAt(b, '.', c + "." + d);
    SplitAt(a, '.', b + "." + c + "." + d);
    assert b + "." + (c + "." + d) == b + "." + c + "." + d;
    assert a + "." + (b + "." + c + "." + d) == a + "." + b + "." + c + "." + d;
    assert Split(a + "." + b + "." + c + "." + d, '.') == [a, b, c, d];
  }

  lemma NoDot(s: string)
    requires ParseU8(s).Some?
    ensures '.' !in s
  {
    if '.' in s { OctetChars(s, '.'); }
  }

  // ---- Both formats are read ----

  lemma TrimAddress(s: string)
    requires AddressText(s)
    ensures Trim(s) == s && Trim(" " + s) == s && Trim(s + " ") == s
  {
    TrimOfSolid(s);
    TrimEndWhite(s, ' ');
    assert (" " + s)[1..] == s;
  }

  lemma AtStarts(s: string, pat: string, i: nat)
    requires At(s, pat, i) && pat != []
    ensures s[i] == pat[0]
  {
    assert s[i + 0] == pat[0];
  }

  /** An address followed by a pattern that starts with a space: the pattern is first met there. */
  lemma FindAfterAddress(a: string, pat: string, tail: string)
    requires AddressText(a) && pat != [] && pat[0] == ' '
    ensures Find(a + pat + tail, pat) == Some(|a|)
  {
    var s := a + pat + tail;
    forall j | 0 <= j < |a| ensures !At(s, pat, j) {
      assert s[j] == a[j] && AddressChar(a[j]);
      if At(s, pat, j) { AtStarts(s, pat, j); }
    }
    FindIs(s, pat, |a|);
  }

  /** "start - end , anything" is the range from start to end. */
  lemma DatLineParses(a: string, b: string, tail: string)
    requires Ip(a).Some? && Ip(b).Some?
    ensures ParseLine(a + " - " + b + " , " + tail) == Some(Range(Ip(a).value, Ip(b).value))
  {
    hide Find, Trim, Ip;
    var line := a + " - " + b + " , " + tail;
    AddressChars(a);
    AddressChars(b);
    assert line == a + " - " + (b + " , " + tail);
    FindAfterAddress(a, " - ", b + " , " + tail);
    FindAfterAddress(b, " , ", tail);
    assert line[..|a|] == a;
    assert line[|a| + 3..] == b + " , " + tail;
    assert (b + " , " + tail)[..|b|] == b;
    TrimAddress(a);
    TrimAddress(b);
  }

  /** "description:start-end" is the range from start to end, whatever colons and dashes the
      description holds, unless the line already reads as the other format. */
  lemma P2pLineParses(desc: string, a: string, b: string)
    requires Ip(a).Some? && Ip(b).Some?
    ensures var line := desc + ":" + a + "-" + b;
      ParseLine(line) == if Dat(line).Some? then Dat(line) else Some(Range(Ip(a).value, Ip(b).value))
    ensures (forall j: nat :: !At(desc, " - ", j)) ==> Dat(desc + ":" + a + "-" + b) == None
  {
    hide Dat, P2p, Ip, Find;
    var line := desc + ":" + a + "-" + b;
    var range := a + "-" + b;
    assert line == desc + ":" + range;
    AddressChars(a);
    AddressChars(b);
    P2pTail(desc, a, b);
    assert ParseLine(line) == if Dat(line).Some? then Dat(line) else P2p(line);
    if forall j: nat :: !At(desc, " - ", j) {
      NoDat(desc, range);
    }
  }

  lemma P2pTail(desc: string, a: string, b: string)
    requires Ip(a).Some? && Ip(b).Some? && AddressText(a) && AddressText(b)
    ensures P2p(desc + ":" + (a + "-" + b)) == Some(Range(Ip(a).value, Ip(b).value))
  {
    hide Ip, Trim, RFind;
    var range := a + "-" + b;
    var line := desc + ":" + range;
    assert line[|desc| + 1..] == range;
    RFindIs(line, ':', |desc|);
    TrimOfSolid(range);
    assert range[|a| + 1..] == b && range[..|a|] == a;
    RFindIs(range, '-', |a|);
    TrimAddress(a);
    TrimAddress(b);
  }

  lemma NoDat(desc: string, range: string)
    requires ' ' !in range && forall j: nat :: !At(desc, " - ", j)
    ensures Dat(desc + ":" + range) == None
  {
    hide Ip, At, Find;
    var line := desc + ":" + range;
    FindBounds(line, " - ");
    if Find(line, " - ").Some? {
      DashInDescription(desc, range, Find(line, " - ").value);
    }
  }

  /** A spaced dash cannot reach into text without spaces. */
  lemma DashInDescription(desc: string, range: string, i: nat)
    requires ' ' !in range && At(desc + ":" + range, " - ", i)
    ensures At(desc, " - ", i)
  {
    var s, pat := desc + ":" + range, " - ";
    SpaceInDescription(desc, range, i + 2);
    assert s[i + 2] == pat[2];
    forall k | 0 <= k < |pat| ensures desc[i + k] == pat[k] { assert s[i + k] == pat[k]; }
  }

  lemma SpaceInDescription(desc: string, range: string, i: nat)
    requires ' ' !in range && i < |desc + ":" + range|
    ensures (desc + ":" + range)[i] == ' ' ==> i < |desc|
  {
    if i > |desc| { assert (desc + ":" + range)[i] == range[i - 1 - |desc|]; }
  }

  // ---- Merging ----

  predicate Sorted(ranges: seq<Range>) {
    forall i, j | 0 <= i < j < |ranges| :: ranges[i].start <= ranges[j].start
  }

  /** A gap of at least one address between any two ranges. */
  predicate Separated(ranges: seq<Range>) {
    forall i, j | 0 <= i < j < |ranges| :: ranges[i].end + 1 < ranges[j].start
  }

  predicate Holds(ranges: seq<Range>, ip: ipv4) { exists i | 0 <= i < |ranges| :: ranges[i].Contains(ip) }

  function SaturatingSucc(n: ipv4): ipv4 { if n == V4_END - 1 then n else n + 1 }

  function Absorb(merged: seq<Range>, r: Range): (m: seq<Range>)
    ensures m != []
  {
    if merged == [] then [r]
    else
      var k := |merged| - 1;
      if r.start <= SaturatingSucc(merged[k].end)
      then merged[k := merged[k].(end := Max(merged[k].end, r.end))]
      else merged + [r]
  }

  function Merged(ranges: seq<Range>): seq<Range> {
    if ranges == [] then [] else Absorb(Merged(ranges[..|ranges| - 1]), ranges[|ranges| - 1])
  }

  method MergeRanges(ranges: seq<Range>) returns (merged: seq<Range>)
    ensures merged == Merged(ranges)
  {
    if ranges == [] {
      return ranges;
    }
    merged := [ranges[0]];
    assert ranges[..1][..0] == [];
    for i := 1 to |ranges|
      invariant merged == Merged(ranges[..i]) && merged != []
    {
      var s, e := ranges[i].start, ranges[i].end;
      var k := |merged| - 1;
      assert ranges[..i + 1][..i] == ranges[..i];
      if s <= SaturatingSucc(merged[k].end) {
        merged := merged[k := Range(merged[k].start, Max(merged[k].end, e))];
      } else {
        merged := merged + [Range(s, e)];
      }
    }
    assert ranges[..|ranges|] == ranges;
  }

  /** Reading left to right, the last merged range starts no later than the last input did. */
  lemma {:induction false} MergedSeparated(ranges: seq<Range>)
    requires Sorted(ranges)
    ensures Separated(Merged(ranges)) && Sorted(Merged(ranges))
    ensures ranges != [] ==> Merged(ranges) != [] && Merged(ranges)[|Merged(ranges)| - 1].start <= ranges[|ranges| - 1].start
  {
    if ranges != [] {
      hide Absorb, Separated;
      var init := ranges[..|ranges| - 1];
      MergedSeparated(init);
      if init != [] { assert init[|init| - 1] == ranges[|ranges| - 2]; }
      AbsorbSeparated(Merged(init), ranges[|ranges| - 1]);
    }
  }

  lemma AbsorbSeparated(merged: seq<Range>, r: Range)
    requires Separated(merged) && Sorted(merged)
    requires merged != [] ==> merged[|merged| - 1].start <= r.start
    ensures Separated(Absorb(merged, r)) && Sorted(Absorb(merged, r))
    ensures Absorb(merged, r)[|Absorb(merged, r)| - 1].start <= r.start
  {
    var m := Absorb(merged, r);
    if |merged| > 0 {
      var k := |merged| - 1;
      if |m| > |merged| {
        forall i | 0 <= i < |merged| ensures m[i].end + 1 < r.start {
          if i < k { assert merged[i].end + 1 < merged[k].start; }
        }
      }
    }
  }

  /** Merging neither adds nor loses an address, inverted ranges and the last address included. */
  lemma {:induction false} MergedHolds(ranges: seq<Range>, ip: ipv4)
    requires Sorted(ranges)
    ensures Holds(Merged(ranges), ip) <==> Holds(ranges, ip)
  {
    if ranges != [] {
      var init, r := ranges[..|ranges| - 1], ranges[|ranges| - 1];
      MergedHolds(init, ip);
      MergedSeparated(init);
      if init != [] { assert init[|init| - 1] == ranges[|ranges| - 2]; }
      hide Absorb, Holds;
      AbsorbHolds(Merged(init), r, ip);
      assert ranges == init + [r];
      HoldsSnoc(init, r, ip);
    }
  }

  lemma HoldsSnoc(ranges: seq<Range>, r: Range, ip: ipv4)
    ensures Holds(ranges + [r], ip) <==> Holds(ranges, ip) || r.Contains(ip)
  {
    var all := ranges + [r];
    assert all[|ranges|] == r;
    assert forall i | 0 <= i < |ranges| :: all[i] == ranges[i];
  }

  lemma AbsorbHolds(merged: seq<Range>, r: Range, ip: ipv4)
    requires merged != [] ==> merged[|merged| - 1].start <= r.start
    ensures Holds(Absorb(merged, r), ip) <==> Holds(merged, ip) || r.Contains(ip)
  {
    if merged == [] {
      assert [r][0] == r;
    } else {
      var k := |merged| - 1;
      HoldsSnoc(merged[..k], merged[k], ip);
      assert merged == merged[..k] + [merged[k]];
      HoldsSnoc(merged, r, ip);
      var wide := merged[k].(end := Max(merged[k].end, r.end));
      HoldsSnoc(merged[..k], wide, ip);
      assert merged[k := wide] == merged[..k] + [wide];
    }
  }

  /** Merging a merged list changes nothing. */
  lemma {:induction false} MergedAgain(ranges: seq<Range>)
    requires Separated(ranges)
    ensures Merged(ranges) == ranges
  {
    if ranges != [] {
      var init := ranges[..|ranges| - 1];
      MergedAgain(init);
      assert ranges == init + [ranges[|ranges| - 1]];
    }
  }

  /** A merge that shortens nothing changes nothing: it keeps one range for each given one exactly when
      those already keep apart. */
  lemma {:induction false} MergedLength(ranges: seq<Range>)
    ensures |Merged(ranges)| <= |ranges|
    ensures |Merged(ranges)| == |ranges| ==> Merged(ranges) == ranges
  {
    if ranges != [] {
      var init, r := ranges[..|ranges| - 1], ranges[|ranges| - 1];
      MergedLength(init);
      assert ranges == init + [r];
    }
  }

  // ---- The filter ----

  function Entries(lines: seq<string>): seq<Range> {
    if lines == [] then []
    else
      var before := Entries(lines[..|lines| - 1]);
      match Entry(lines[|lines| - 1])
      case None => before
      case Some(r) => before + [r]
  }

  function Rank(r: Range): int { r.start * V4_END + r.end }

  /** Sorting pairs by rank is the lexicographic order of the pairs. */
  lemma RankIsLexicographic(x: Range, y: Range)
    ensures Rank(x) <= Rank(y) <==> x.start < y.start || (x.start == y.start && x.end <= y.end)
  {
  }

  function Index(text: string): seq<Range> { Merged(Sort(Entries(Lines(text)), Rank)) }

  lemma {:induction false} EntriesHold(lines: seq<string>, ip: ipv4)
    ensures Holds(Entries(lines), ip) <==> Covers(lines, ip)
  {
    hide Entry, Holds, Covers;
    NothingHolds(ip);
    if lines != [] {
      var init, last := lines[..|lines| - 1], lines[|lines| - 1];
      EntriesHold(init, ip);
      CoversSnoc(init, last, ip);
      assert lines == init + [last];
      if Entry(last).Some? {
        HoldsSnoc(Entries(init), Entry(last).value, ip);
      }
    }
  }

  lemma NothingHolds(ip: ipv4)
    ensures !Holds([], ip) && !Covers([], ip)
  {
  }

  lemma CoversSnoc(lines: seq<string>, line: string, ip: ipv4)
    ensures Covers(lines + [line], ip) <==> Covers(lines, ip) || Blocks(line, ip)
  {
    var all := lines + [line];
    assert all[|lines|] == line;
    assert forall i | 0 <= i < |lines| :: all[i] == lines[i];
  }

  lemma SortedIsSorted(entries: seq<Range>)
    ensures Sorted(Sort(entries, Rank))
  {
    SortSorts(entries, Rank);
    var s := Sort(entries, Rank);
    forall i, j | 0 <= i < j < |s| ensures s[i].start <= s[j].start {
      RankIsLexicographic(s[i], s[j]);
    }
  }

  /** The index of a file blocks exactly what a scan of its lines blocks, and its ranges keep apart. */
  lemma IndexIsFaithful(text: string, ip: ipv4)
    ensures Holds(Index(text), ip) <==> Covered(text, ip)
    ensures Separated(Index(text)) && Sorted(Index(text))
    ensures Merged(Index(text)) == Index(text)
  {
    hide Entries, Entry, Lines, Merged, Sort;
    var entries := Entries(Lines(text));
    var s := Sort(entries, Rank);
    SortedIsSorted(entries);
    MergedHolds(s, ip);
    MergedSeparated(s);
    MergedAgain(Merged(s));
    EntriesHold(Lines(text), ip);
    SortSorts(entries, Rank);
    SameHolds(s, entries, ip);
  }

  /** The index has one range for each line that gives one exactly when those ranges, sorted, keep a gap
      between any two; then it is the sorted list itself, and otherwise it is shorter. */
  lemma OneRangePerLine(text: string)
    ensures var entries := Entries(Lines(text));
      var s := Sort(entries, Rank);
      (|Index(text)| == |entries| <==> Separated(s)) && (Separated(s) <==> Index(text) == s) && |Index(text)| <= |entries|
  {
    hide Entries, Lines, Merged, Sort, Separated;
    var entries := Entries(Lines(text));
    var s := Sort(entries, Rank);
    SortSorts(entries, Rank);
    SameMembers(s, entries);
    SortedIsSorted(entries);
    MergedSeparated(s);
    MergedLength(s);
    if Separated(s) { MergedAgain(s); }
  }

  function LineFor(d: string): string { "1.0.0." + d + " - " + ("1.0.0." + d) + " , " + "000 , x" }

  /** Two lines, for the neighbouring addresses 1.0.0.0 and 1.0.0.1, leave one range. */
  lemma NeighboursShareARange()
    ensures var text := LineFor("0") + "\n" + (LineFor("1") + "\n" + "");
      |Entries(Lines(text))| == 2 && Index(text) == [Range(0x100_0000, 0x100_0001)]
  {
    hide Entry, Lines, LineFor, Entries, Merged, Sort, StripCr;
    NeighbourEntries();
    TwoLines(LineFor("0"), LineFor("1"));
    TwoEntries(LineFor("0"), LineFor("1"));
    TwoNeighbours();
  }

  lemma NeighbourEntries()
    ensures Entry(LineFor("0")) == Some(Range(0x100_0000, 0x100_0000))
    ensures Entry(LineFor("1")) == Some(Range(0x100_0001, 0x100_0001))
    ensures OneLine(LineFor("0")) && OneLine(LineFor("1"))
    ensures StripCr(LineFor("0")) == LineFor("0") && StripCr(LineFor("1")) == LineFor("1")
  {
    hide Entry, LineFor, StripCr;
    LineForOne("0");
    LineForOne("1");
  }

  lemma TwoEntries(a: string, b: string)
    requires Entry(a).Some? && Entry(b).Some?
    ensures Entries([a, b]) == [Entry(a).value, Entry(b).value]
  {
    hide Entry;
    assert [a, b][..1] == [a] && [a][..0] == [];
    assert Entries([a]) == [Entry(a).value];
  }

  lemma TwoNeighbours()
    ensures var x, y := Range(0x100_0000, 0x100_0000), Range(0x100_0001, 0x100_0001);
      Merged(Sort([x, y], Rank)) == [Range(0x100_0000, 0x100_0001)]
  {
    var x, y := Range(0x100_0000, 0x100_0000), Range(0x100_0001, 0x100_0001);
    assert [x, y][1..] == [y] && [y][1..] == [];
    assert Sort([y], Rank) == [y];
    assert Sort([x, y], Rank) == [x, y];
    assert [x, y][..1] == [x] && [x][..0] == [];
    assert Merged([x]) == [x];
  }

  lemma TwoLines(a: string, b: string)
    requires OneLine(a) && OneLine(b) && StripCr(a) == a && StripCr(b) == b
    ensures Lines(a + "\n" + (b + "\n" + "")) == [a, b]
  {
    LinesCons(b, "");
    LinesCons(a, b + "\n" + "");
  }

  lemma LineForOne(d: string)
    requires |d| == 1 && IsDigit(d[0])
    ensures var ip := 0x100_0000 + DigitValue(d[0]); Entry(LineFor(d)) == Some(Range(ip, ip))
    ensures OneLine(LineFor(d)) && StripCr(LineFor(d)) == LineFor(d)
  {
    hide Ip, ParseLine, Trim, LineFor;
    var address, tail, line := "1.0.0." + d, "000 , x", LineFor(d);
    LastOctet(d);
    LineForEnds(d);
    TrimOfSolid(line);
    DatLineParses(address, address, tail);
    assert line == address + " - " + address + " , " + tail by { LineForIs(d); }
  }

  lemma LineForIs(d: string)
    ensures LineFor(d) == ("1.0.0." + d) + " - " + ("1.0.0." + d) + " , " + "000 , x"
  {
  }

  lemma LineForEnds(d: string)
    requires |d| == 1 && IsDigit(d[0])
    ensures var line := LineFor(d); line != [] && line[0] == '1' && line[|line| - 1] == 'x' && OneLine(line)
  {
    var address, tail, line := "1.0.0." + d, "000 , x", LineFor(d);
    assert line[|line| - 1] == tail[6];
    forall i | 0 <= i < |line| ensures line[i] != '\n' {
      assert line[i] in address || line[i] in " - " || line[i] in " , " || line[i] in tail;
    }
  }

  lemma LastOctet(d: string)
    requires |d| == 1 && IsDigit(d[0])
    ensures Ip("1.0.0." + d) == Some(0x100_0000 + DigitValue(d[0]))
  {
    hide ParseU8, Ip, DigitValue;
    ZeroAndOne();
    OneDigit(d);
    IpOfOctets("1", "0", "0", d);
    assert "1" + "." + "0" + "." + "0" + "." + d == "1.0.0." + d;
  }

  lemma ZeroAndOne()
    ensures ParseU8("0") == Some(0) && ParseU8("1") == Some(1)
  {
    hide ParseU8;
    OneDigit("0");
    OneDigit("1");
  }

  lemma OneDigit(d: string)
    requires |d| == 1 && IsDigit(d[0])
    ensures ParseU8(d) == Some(DigitValue(d[0]))
  {
    assert d[..0] == [];
    assert Value(d) == DigitValue(d[0]);
  }

  lemma SameHolds(s: seq<Range>, t: seq<Range>, ip: ipv4)
    requires multiset(s) == multiset(t)
    ensures Holds(s, ip) <==> Holds(t, ip)
  {
    if Holds(s, ip) {
      var i :| 0 <= i < |s| && s[i].Contains(ip);
      SameMember(s, t, s[i]);
      var j :| 0 <= j < |t| && t[j] == s[i];
    }
    if Holds(t, ip) {
      var i :| 0 <= i < |t| && t[i].Contains(ip);
      SameMember(s, t, t[i]);
      var j :| 0 <= j < |s| && s[j] == t[i];
    }
  }

  /** Only the last range that starts at or before an address can hold it. */
  lemma LastStartDecides(ranges: seq<Range>, idx: nat, ip: ipv4)
    requires Separated(ranges) && idx <= |ranges|
    requires forall i | 0 <= i < idx :: ranges[i].start <= ip
    requires forall i | idx <= i < |ranges| :: ranges[i].start > ip
    ensures Holds(ranges, ip) <==> idx > 0 && ip <= ranges[idx - 1].end
  {
    assert idx > 0 && ip <= ranges[idx - 1].end ==> ranges[idx - 1].Contains(ip);
    if Holds(ranges, ip) {
      var i :| 0 <= i < |ranges| && ranges[i].Contains(ip);
      assert i < idx;
      assert i < idx - 1 ==> ranges[i].end + 1 < ranges[idx - 1].start;
    }
  }

  method PartitionPoint(ranges: seq<Range>, n: ipv4) returns (idx: nat)
    requires Sorted(ranges)
    ensures idx <= |ranges|
    ensures forall i | 0 <= i < idx :: ranges[i].start <= n
    ensures forall i | idx <= i < |ranges| :: ranges[i].start > n
  {
    idx := 0;
    var hi := |ranges|;
    while idx < hi
      invariant idx <= hi <= |ranges|
      invariant forall i | 0 <= i < idx :: ranges[i].start <= n
      invariant forall i | hi <= i < |ranges| :: ranges[i].start > n
    {
      var mid := (idx + hi) / 2;
      if ranges[mid].start <= n {
        idx := mid + 1;
      } else {
        hi := mid;
      }
    }
  }

  /** A 32-bit atomic counter wraps round. */
  function WrappingSucc(n: ipv4): (m: ipv4)
    ensures m == if n == 0xffff_ffff then 0 else n + 1
  {
    (n + 1) % V4_END
  }

  class IpFilter {
    var ranges: seq<Range>
    var hits: seq<ipv4> // 32-bit counters, one per range
    ghost var text: string // the file the filter was loaded from

    ghost predicate Valid()
      reads this
    {
      ranges == Index(text) && |hits| == |ranges|
    }

    /** A missing or unreadable file is an empty one: nothing is blocked. */
    constructor Load(file: Option<string>)
      ensures Valid()
      ensures text == if file.Some? then file.value else ""
      ensures forall i | 0 <= i < |hits| :: hits[i] == 0
    {
      hide Lines, Trim, ParseLine, Sort, Merged;
      var content := if file.Some? then file.value else "";
      var lines := Lines(content);
      var parsed: seq<Range> := [];
      for i := 0 to |lines|
        invariant parsed == Entries(lines[..i])
      {
        assert lines[..i + 1][..i] == lines[..i];
        var line := Trim(lines[i]);
        if line != [] && line[0] != '#' {
          var pair := ParseLine(line);
          if pair.Some? {
            parsed := parsed + [pair.value];
          }
        }
      }
      assert lines[..|lines|] == lines;
      var sorted := Sort(parsed, Rank);
      var merged := MergeRanges(sorted);
      text := content;
      ranges := merged;
      hits := seq(|merged|, _ => 0);
    }

    /** True exactly when a line of the file covers the address; then one hit counter moves, that of
        a range holding the address. */
    method IsBlocked(ip: ipv4) returns (blocked: bool)
      requires Valid()
      modifies this`hits
      ensures Valid()
      ensures blocked <==> Covered(text, ip)
      ensures !blocked ==> hits == old(hits)
      ensures blocked ==> exists k | 0 <= k < |ranges| ::
        ranges[k].Contains(ip) && hits == old(hits)[k := WrappingSucc(old(hits)[k])]
    {
      hide Index, Covered, Sorted, Separated, Holds, WrappingSucc;
      IndexIsFaithful(text, ip);
      if ranges == [] {
        NothingHolds(ip);
        return false;
      }
      var idx := PartitionPoint(ranges, ip);
      LastStartDecides(ranges, idx, ip);
      if idx == 0 {
        return false;
      }
      if ip <= ranges[idx - 1].end {
        hits := hits[idx - 1 := WrappingSucc(hits[idx - 1])];
        assert ranges[idx - 1].Contains(ip);
        return true;
      } else {
        return false;
      }
    }
  }
}
