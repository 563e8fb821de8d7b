/** What the lines of a block list can and cannot block (src/filter/ipfilter.rs): comments block nothing,
    wherever they stand, and a range is blocked only by a line that writes out both its ends. */
module IpFilterMeaning {
  import opened Common
  import opened IpFilters
  import opened Sources
  import opened Texts

  // ---- Comments ----

  /** The first solid character of the line is a '#', or it has none. */
  predicate Ignored(line: string) { TrimStart(line) == [] || TrimStart(line)[0] == '#' }

  lemma IgnoredBlocksNothing(line: string, ip: ipv4)
    requires Ignored(line)
    ensures !Blocks(line, ip)
  {
    TrimStartSolid(line);
    if TrimStart(line) != [] { TrimKeepsSolid(TrimStart(line), 0); }
    hide ParseLine;
  }

  /** Terminated text is read line by line before what follows it. */
  lemma {:induction false} LinesInTwo(a: string, b: string)
    requires Terminated(a)
    ensures Lines(a + b) == Lines(a) + Lines(b)
    decreases |a|
  {
    hide Find, StripCr;
    if a == [] {
      assert a + b == b;
    } else {
      assert a[|a| - 1] in a;
      var first, rest := FirstLine(a);
      assert Terminated(rest) by { if rest != [] { assert rest[|rest| - 1] == a[|a| - 1]; } }
      LinesInTwo(rest, b);
      LinesCons(first, rest);
      assert a + b == first + "\n" + (rest + b);
      LinesCons(first, rest + b);
    }
  }

  lemma CoversInTwo(a: seq<string>, b: seq<string>, ip: ipv4)
    ensures Covers(a + b, ip) <==> Covers(a, ip) || Covers(b, ip)
  {
    hide Blocks;
    forall i | 0 <= i < |b| ensures (a + b)[|a| + i] == b[i] {}
    if Covers(b, ip) {
      var i :| 0 <= i < |b| && Blocks(b[i], ip);
      assert Blocks((a + b)[|a| + i], ip);
    }
    if Covers(a, ip) {
      var i :| 0 <= i < |a| && Blocks(a[i], ip);
      assert Blocks((a + b)[i], ip);
    }
  }

  /** Wherever a comment line is put into a file or taken out of it, the same addresses are blocked, by
      the scan and by the index; so too when it is a last line without an end. */
  lemma CommentsBlockNothing(before: string, line: string, after: string, ip: ipv4)
    requires Terminated(before) && OneLine(line) && Ignored(line)
    ensures Covered(before + line + "\n" + after, ip) <==> Covered(before + after, ip)
    ensures Holds(Index(before + line + "\n" + after), ip) <==> Holds(Index(before + after), ip)
    ensures Covered(before + line, ip) <==> Covered(before, ip)
  {
    hide Lines, StripCr, Blocks, Index, Ignored, Holds;
    LinesInTwo(before, after);
    LinesInTwo(before, line + "\n" + after);
    LinesInTwo(before, line);
    assert before + line + "\n" + after == before + (line + "\n" + after);
    LinesCons(line, after);
    CoversInTwo(Lines(before), Lines(after), ip);
    CoversInTwo(Lines(before), [StripCr(line)] + Lines(after), ip);
    CoversInTwo([StripCr(line)], Lines(after), ip);
    CoversInTwo(Lines(before), Lines(line), ip);
    IgnoredBlocksNothing(line, ip);
    StripCrIgnored(line, ip);
    LastLine(line);
    IndexIsFaithful(before + line + "\n" + after, ip);
    IndexIsFaithful(before + after, ip);
  }

  lemma StripCrIgnored(line: string, ip: ipv4)
    ensures Blocks(StripCr(line), ip) <==> Blocks(line, ip)
  {
    TrimStripsCr(line);
  }

  lemma LastLine(line: string)
    requires OneLine(line)
    ensures Lines(line) == if line == [] then [] else [line]
  {
    NoNewline(line);
  }

  // ---- Only what is written out is blocked ----

  lemma {:induction false} TrimParts(s: string) returns (lead: string, trail: string)
    ensures s == lead + Trim(s) + trail && Blank(lead) && Blank(trail)
  {
    TrimStartSolid(s);
    var t := TrimStart(s);
    lead := s[..|s| - |t|];
    trail := EndParts(t);
    StartParts(s);
  }

  lemma {:induction false} EndParts(s: string) returns (trail: string)
    ensures s == TrimEnd(s) + trail && Blank(trail)
  {
    if s != [] && IsWhite(s[|s| - 1]) {
      var rest := EndParts(s[..|s| - 1]);
      trail := rest + [s[|s| - 1]];
    } else {
      trail := [];
    }
  }

  lemma {:induction false} StartParts(s: string)
    ensures |TrimStart(s)| <= |s| && Blank(s[..|s| - |TrimStart(s)|])
  {
    if s != [] && IsWhite(s[0]) {
      StartParts(s[1..]);
      var k := |s| - |TrimStart(s)|;
      assert s[..k] == [s[0]] + s[1..][..k - 1];
    }
  }

  /** The line holds, one after the other: some text, an address, a dash with nothing but white space
      around it, an address, and more text. */
  ghost predicate WritesOut(line: string, pre: string, a: string, x: string, y: string, b: string, post: string) {
    line == pre + (a + x + "-" + y + b) + post && Blank(x) && Blank(y)
  }

  lemma Around(left: string, s: string, right: string) returns (pre: string, x: string, y: string, post: string)
    requires Blank(s)
    ensures WritesOut(left + s + "-" + s + right, pre, Trim(left), x + s, s + y, Trim(right), post)
    ensures Blank(pre) && Blank(post)
  {
    hide Trim;
    pre, x := TrimParts(left);
    y, post := TrimParts(right);
    Nested(pre, Trim(left), x, s, y, Trim(right), post);
  }

  lemma Nested(pre: string, a: string, x: string, s: string, y: string, b: string, post: string)
    ensures (pre + a + x) + s + "-" + s + (y + b + post) == pre + (a + (x + s) + "-" + (s + y) + b) + post
  {
    var m, n := a + (x + s), (s + y) + b;
    assert pre + a + x + s == pre + m;
    assert s + (y + b + post) == n + post;
    assert a + (x + s) + "-" + (s + y) + b == m + "-" + n;
    assert pre + m + "-" + (n + post) == pre + (m + "-" + n) + post;
    assert (pre + a + x) + s + "-" + s + (y + b + post) == pre + m + "-" + (s + (y + b + post));
  }

  lemma Within(lead: string, line: string, tail: string,
               pre: string, a: string, x: string, y: string, b: string, post: string)
    requires WritesOut(line, pre, a, x, y, b, post)
    ensures WritesOut(lead + line + tail, lead + pre, a, x, y, b, post + tail)
  {
    var m := a + x + "-" + y + b;
    assert lead + (pre + m + post) + tail == (lead + pre) + m + (post + tail);
  }

  /** One layout: nothing before the first address, spaces beside the dash, and after the second address
      nothing or a comma with spaces beside it. */
  ghost predicate DatLayout(pre: string, x: string, y: string, post: string) {
    && Blank(pre) && x != [] && x[|x| - 1] == ' ' && y != [] && y[0] == ' '
    && (Blank(post) || exists w, tail :: Blank(w) && post == w + " , " + tail)
  }

  /** The other: nothing before the first address or text that ends in a colon, and nothing behind the second. */
  ghost predicate P2pLayout(pre: string, post: string) {
    Blank(post) && (Blank(pre) || exists desc, w :: Blank(w) && pre == desc + ":" + w)
  }

  lemma DatWritesOut(line: string) returns (pre: string, a: string, x: string, y: string, b: string, post: string)
    requires Dat(line).Some?
    ensures Ip(a) == Some(Dat(line).value.start) && Ip(b) == Some(Dat(line).value.end)
    ensures WritesOut(line, pre, a, x, y, b, post) && DatLayout(pre, x, y, post)
  {
    hide Ip, Trim, Find, At, WritesOut;
    FindBounds(line, " - ");
    var dash := Find(line, " - ").value;
    AtIs(line, " - ", dash);
    var rest := line[dash + 3..];
    FindBounds(rest, " , ");
    var comma := Find(rest, " , ");
    if comma.Some? { AtIs(rest, " , ", comma.value); }
    var left, endRaw := line[..dash], if comma.None? then rest else rest[..comma.value];
    var tail := if comma.None? then "" else " , " + rest[comma.value + 3..];
    a, b := Trim(left), Trim(endRaw);
    pre, x, y, post := Around(left, " ", endRaw);
    x, y := x + " ", " " + y;
    Within("", left + " " + "-" + " " + endRaw, tail, pre, a, x, y, b, post);
    LineIs(left, rest, endRaw, tail);
    assert "" + pre == pre;
    if comma.None? {
      assert post + tail == post;
    } else {
      assert post + tail == post + " , " + rest[comma.value + 3..];
    }
    post := post + tail;
  }

  lemma LineIs(left: string, rest: string, endRaw: string, tail: string)
    requires rest == endRaw + tail
    ensures left + " - " + rest == "" + (left + " " + "-" + " " + endRaw) + tail
  {
    assert left + " " + "-" + " " == left + " - ";
  }

  lemma AtIs(s: string, pat: string, i: nat)
    requires At(s, pat, i)
    ensures s == s[..i] + pat + s[i + |pat|..]
    ensures s[i..] == pat + s[i + |pat|..]
  {
  }

  /** The part of a line behind its last colon. */
  function Behind(line: string): string {
    RFindBounds(line, ':');
    match RFind(line, ':') case None => line case Some(c) => line[c + 1..]
  }

  lemma RangeWritesOut(tail: string, dash: nat) returns (pre: string, x: string, y: string, post: string)
    requires dash < |Trim(tail)| && Trim(tail)[dash] == '-'
    ensures var range := Trim(tail);
      WritesOut(tail, pre, Trim(range[..dash]), x, y, Trim(range[dash + 1..]), post) && Blank(pre) && Blank(post)
  {
    hide Trim, WritesOut;
    var range := Trim(tail);
    var left, right := range[..dash], range[dash + 1..];
    var lead, trail := TrimParts(tail);
    pre, x, y, post := Around(left, "", right);
    Plain(x, y);
    assert left + "" + "-" + "" + right == range;
    Within(lead, range, trail, pre, Trim(left), x, y, Trim(right), post);
    pre, post := lead + pre, post + trail;
  }

  lemma P2pWritesOut(line: string) returns (pre: string, a: string, x: string, y: string, b: string, post: string)
    requires P2p(line).Some?
    ensures Ip(a) == Some(P2p(line).value.start) && Ip(b) == Some(P2p(line).value.end)
    ensures WritesOut(line, pre, a, x, y, b, post) && P2pLayout(pre, post)
  {
    hide Ip, Trim, RFind, WritesOut, P2pLayout;
    var tail := Behind(line);
    var range := Trim(tail);
    RFindBounds(range, '-');
    var dash := RFind(range, '-').value;
    a, b := Trim(range[..dash]), Trim(range[dash + 1..]);
    pre, x, y, post := RangeWritesOut(tail, dash);
    var desc := Ahead(line);
    Within(desc, tail, "", pre, a, x, y, b, post);
    Plain(desc + tail, post);
    assert post + "" == post;
    LaidOut(desc, pre, post);
    pre := desc + pre;
  }

  lemma Ahead(line: string) returns (desc: string)
    ensures line == desc + Behind(line) && (desc == "" || exists d: string :: desc == d + ":")
  {
    hide RFind;
    RFindBounds(line, ':');
    var colon := RFind(line, ':');
    if colon.None? {
      desc := "";
    } else {
      desc := line[..colon.value] + ":";
    }
  }

  lemma LaidOut(desc: string, pre: string, post: string)
    requires Blank(pre) && Blank(post) && (desc == "" || exists d: string :: desc == d + ":")
    ensures P2pLayout(desc + pre, post)
  {
    if desc == "" {
      assert desc + pre == pre;
    } else {
      var d: string :| desc == d + ":";
      assert Blank(pre) && desc + pre == d + ":" + pre;
    }
  }

  lemma Plain(x: string, y: string)
    ensures x + "" == x && "" + y == y
  {
  }

  /** A line that blocks an address writes out, in one of the two layouts, a range that holds it. */
  lemma BlockedIsWritten(line: string, ip: ipv4)
      returns (pre: string, a: string, x: string, y: string, b: string, post: string)
    requires Blocks(line, ip)
    ensures Ip(a).Some? && Ip(b).Some? && Ip(a).value <= ip <= Ip(b).value
    ensures WritesOut(Trim(line), pre, a, x, y, b, post) && (DatLayout(pre, x, y, post) || P2pLayout(pre, post))
  {
    hide Dat, P2p, Ip, Trim, WritesOut, DatLayout, P2pLayout;
    if Dat(Trim(line)).Some? {
      pre, a, x, y, b, post := DatWritesOut(Trim(line));
    } else {
      pre, a, x, y, b, post := P2pWritesOut(Trim(line));
    }
  }
}
