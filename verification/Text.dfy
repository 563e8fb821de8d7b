/** Text operations of the Rust standard library the list formats rely on. */
module Texts {
  import opened Common

  /** White space in the sense of Unicode, as `trim` and `split_whitespace` use it. */
  predicate IsWhite(c: char) {
    '\t' <= c <= '\r' || c == ' ' || c == '\U{85}' || c == '\U{a0}' || c == '\U{1680}' ||
    '\U{2000}' <= c <= '\U{200a}' || c == '\U{2028}' || c == '\U{2029}' || c == '\U{202f}' ||
    c == '\U{205f}' || c == '\U{3000}'
  }

  /** Of the ASCII characters these are the space, the tab, and the line, vertical and form feeds and carriage return. */
  lemma WhiteAscii(c: char)
    requires c as int < 128
    ensures IsWhite(c) <==> c as int in {9, 10, 11, 12, 13, 32}
  {
  }

  function TrimStart(s: string): string {
    if s != [] && IsWhite(s[0]) then TrimStart(s[1..]) else s
  }

  function TrimEnd(s: string): string {
    if s != [] && IsWhite(s[|s| - 1]) then TrimEnd(s[..|s| - 1]) else s
  }

  function Trim(s: string): string { TrimEnd(TrimStart(s)) }

  predicate Blank(s: string) { forall i | 0 <= i < |s| :: IsWhite(s[i]) }

  /** The pattern stands at position i. */
  predicate At(s: string, pat: string, i: nat) {
    i + |pat| <= |s| && forall k | 0 <= k < |pat| :: s[i + k] == pat[k]
  }

  /** Position of the first occurrence of a non-empty pattern. */
  function Find(s: string, pat: string): Option<nat>
    requires pat != []
  {
    if |s| < |pat| then None
    else if At(s, pat, 0) then Some(0)
    else match Find(s[1..], pat)
      case None => None
      case Some(i) => Some(i + 1)
  }

  /** Position of the last occurrence of a character. */
  function RFind(s: string, c: char): Option<nat> {
    if s == [] then None
    else if s[|s| - 1] == c then Some(|s| - 1)
    else RFind(s[..|s| - 1], c)
  }

  function Split(s: string, c: char): (parts: seq<string>)
    ensures parts != []
  {
    if s == [] then [[]]
    else if s[0] == c then [[]] + Split(s[1..], c)
    else var rest := Split(s[1..], c); [[s[0]] + rest[0]] + rest[1..]
  }

  function StripCr(s: string): string {
    if s != [] && s[|s| - 1] == '\r' then s[..|s| - 1] else s
  }

  predicate OneLine(s: string) { '\n' !in s }

  /** Lines end at '\n' or "\r\n"; the last one need not end at all. */
  function Lines(s: string): seq<string> {
    if s == [] then []
    else match Find(s, ['\n'])
      case None => [s]
      case Some(i) => FindBounds(s, ['\n']); [StripCr(s[..i])] + Lines(s[i + 1..])
  }

  lemma AtShift(s: string, pat: string, i: nat)
    requires s != []
    ensures At(s, pat, i + 1) <==> At(s[1..], pat, i)
  {
    var t := s[1..];
    if At(t, pat, i) {
      forall k | 0 <= k < |pat| ensures s[i + 1 + k] == pat[k] {
        assert t[i + k] == pat[k];
      }
    }
    if At(s, pat, i + 1) {
      forall k | 0 <= k < |pat| ensures t[i + k] == pat[k] {
        assert s[i + 1 + k] == pat[k];
      }
    }
  }

  lemma AtChar(s: string, c: char, i: nat)
    ensures At(s, [c], i) <==> i < |s| && s[i] == c
  {
    if At(s, [c], i) {
      assert s[i + 0] == [c][0];
    }
  }

  lemma {:induction false} FindBounds(s: string, pat: string)
    requires pat != []
    ensures match Find(s, pat)
      case Some(i) => At(s, pat, i) && forall j | 0 <= j < i :: !At(s, pat, j)
      case None => forall j: nat :: !At(s, pat, j)
  {
    if |s| >= |pat| && !At(s, pat, 0) {
      FindBounds(s[1..], pat);
      forall j: nat | j > 0 ensures At(s, pat, j) <==> At(s[1..], pat, j - 1) { AtShift(s, pat, j - 1); }
    }
  }

  /** The first occurrence is where the pattern stands and stood nowhere before. */
  lemma {:induction false} FindIs(s: string, pat: string, i: nat)
    requires pat != [] && At(s, pat, i) && forall j | 0 <= j < i :: !At(s, pat, j)
    ensures Find(s, pat) == Some(i)
  {
    FindBounds(s, pat);
  }

  lemma {:induction false} RFindIs(s: string, c: char, i: nat)
    requires i < |s| && s[i] == c && c !in s[i + 1..]
    ensures RFind(s, c) == Some(i)
  {
    if i + 1 < |s| {
      assert s[|s| - 1] in s[i + 1..];
      assert s[i + 1..|s| - 1] <= s[i + 1..];
      assert s[..|s| - 1][i + 1..] == s[i + 1..|s| - 1];
      RFindIs(s[..|s| - 1], c, i);
    }
  }

  lemma {:induction false} RFindBounds(s: string, c: char)
    ensures RFind(s, c).Some? ==> RFind(s, c).value < |s| && s[RFind(s, c).value] == c
    ensures RFind(s, c).None? <==> c !in s
  {
    if s != [] && s[|s| - 1] != c {
      RFindBounds(s[..|s| - 1], c);
      assert s == s[..|s| - 1] + [s[|s| - 1]];
    }
  }

  lemma {:induction false} SplitAt(a: string, c: char, b: string)
    requires c !in a
    ensures Split(a + [c] + b, c) == [a] + Split(b, c)
  {
    if a == [] {
      assert a + [c] + b == [c] + b;
    } else {
      SplitAt(a[1..], c, b);
      assert (a + [c] + b)[1..] == a[1..] + [c] + b;
      assert [a[0]] + a[1..] == a;
    }
  }

  lemma {:induction false} SplitNone(a: string, c: char)
    requires c !in a
    ensures Split(a, c) == [a]
  {
    if a != [] {
      SplitNone(a[1..], c);
      assert [a[0]] + a[1..] == a;
    }
  }

  lemma {:induction false} TrimStartSolid(s: string)
    ensures TrimStart(s) == [] <==> Blank(s)
    ensures TrimStart(s) != [] ==> !IsWhite(TrimStart(s)[0])
    ensures |TrimStart(s)| <= |s| && TrimStart(s) == s[|s| - |TrimStart(s)|..]
  {
    if s != [] && IsWhite(s[0]) {
      TrimStartSolid(s[1..]);
      assert s == [s[0]] + s[1..];
    }
  }

  /** Trimming an end drops white space only. */
  lemma {:induction false} TrimEndDrops(s: string)
    ensures TrimEnd(s) <= s && Blank(s[|TrimEnd(s)|..])
    ensures TrimEnd(s) != [] ==> !IsWhite(TrimEnd(s)[|TrimEnd(s)| - 1])
  {
    if s != [] && IsWhite(s[|s| - 1]) {
      TrimEndDrops(s[..|s| - 1]);
    }
  }

  lemma TrimKeepsSolid(s: string, i: nat)
    requires i < |s| && !IsWhite(s[i])
    ensures i < |TrimEnd(s)| && TrimEnd(s)[i] == s[i]
  {
    TrimEndDrops(s);
    var k := |TrimEnd(s)|;
    forall j | k <= j < |s| ensures IsWhite(s[j]) { assert s[k..][j - k] == s[j]; }
  }

  /** Text with solid ends is its own trim. */
  lemma TrimOfSolid(s: string)
    requires s != [] && !IsWhite(s[0]) && !IsWhite(s[|s| - 1])
    ensures Trim(s) == s
  {
  }

  /** Trimming does not see a carriage return at the end. */
  lemma {:induction false} TrimStripsCr(s: string)
    ensures Trim(StripCr(s)) == Trim(s)
  {
    if s != [] && s[|s| - 1] == '\r' {
      TrimEndWhite(s[..|s| - 1], '\r');
      assert s == s[..|s| - 1] + ['\r'];
    }
  }

  lemma {:induction false} TrimEndWhite(s: string, c: char)
    requires IsWhite(c)
    ensures Trim(s + [c]) == Trim(s)
  {
    if s == [] {
      assert s + [c] == [c] && [c][1..] == [];
    } else if IsWhite(s[0]) {
      TrimEndWhite(s[1..], c);
      assert (s + [c])[1..] == s[1..] + [c];
    } else {
      assert (s + [c])[..|s|] == s;
    }
  }

  // ---- Lines of growing text ----

  predicate Terminated(s: string) { s == [] || s[|s| - 1] == '\n' }

  lemma NewlineAt(a: string, b: string)
    requires OneLine(a)
    ensures Find(a + "\n" + b, ['\n']) == Some(|a|)
  {
    var s := a + "\n" + b;
    AtChar(s, '\n', |a|);
    forall j | 0 <= j < |a| ensures !At(s, ['\n'], j) {
      AtChar(s, '\n', j);
      assert s[j] == a[j] && s[j] in a;
    }
    FindIs(s, ['\n'], |a|);
  }

  lemma LinesCons(a: string, b: string)
    requires OneLine(a)
    ensures Lines(a + "\n" + b) == [StripCr(a)] + Lines(b)
  {
    NewlineAt(a, b);
    assert (a + "\n" + b)[..|a|] == a && (a + "\n" + b)[|a| + 1..] == b;
  }

  lemma NoNewline(s: string)
    ensures Find(s, ['\n']).None? <==> OneLine(s)
  {
    FindBounds(s, ['\n']);
    if Find(s, ['\n']).Some? {
      AtChar(s, '\n', Find(s, ['\n']).value);
    } else if !OneLine(s) {
      var i :| 0 <= i < |s| && s[i] == '\n';
      AtChar(s, '\n', i);
    }
  }

  /** The first line and what follows it. */
  lemma FirstLine(s: string) returns (a: string, b: string)
    requires !OneLine(s)
    ensures OneLine(a) && s == a + "\n" + b
  {
    NoNewline(s);
    FindBounds(s, ['\n']);
    var i := Find(s, ['\n']).value;
    a, b := s[..i], s[i + 1..];
    AtChar(s, '\n', i);
    forall j | 0 <= j < |a| ensures a[j] != '\n' {
      AtChar(s, '\n', j);
    }
  }

  /** A whole line written after terminated text becomes the next line. */
  lemma {:induction false} LinesAppend(s: string, line: string)
    requires Terminated(s) && OneLine(line)
    ensures Lines(s + line + "\n") == Lines(s) + [StripCr(line)]
    decreases |s|
  {
    hide Find, StripCr;
    if s == [] {
      assert s + line + "\n" == line + "\n" + [];
      LinesCons(line, []);
    } else {
      assert s[|s| - 1] in s;
      var a, b := FirstLine(s);
      assert Terminated(b) by { if b != [] { assert b[|b| - 1] == s[|s| - 1]; } }
      LinesAppend(b, line);
      LinesCons(a, b);
      assert s + line + "\n" == a + "\n" + (b + line + "\n");
      LinesCons(a, b + line + "\n");
    }
  }

  predicate EndsLike(a: string, b: string) { a != [] && b != [] && a[|a| - 1] == b[|b| - 1] }

  /** Writing on after unterminated text continues its last line; a newline then ends that line. */
  lemma {:induction false} LinesExtend(s: string, more: string)
    requires !Terminated(s) && OneLine(more)
    ensures var k := |Lines(s)| - 1;
      k >= 0 && Lines(s + more + "\n") == Lines(s)[..k] + [StripCr(Lines(s)[k] + more)]
    ensures EndsLike(Lines(s)[|Lines(s)| - 1], s)
    decreases |s|
  {
    hide Find, StripCr;
    if OneLine(s) {
      NoNewline(s);
      assert s + more + "\n" == (s + more) + "\n" + [];
      LinesCons(s + more, []);
    } else {
      var a, b := FirstLine(s);
      assert b != [] && b[|b| - 1] == s[|s| - 1];
      LinesExtend(b, more);
      LinesCons(a, b);
      assert s + more + "\n" == a + "\n" + (b + more + "\n");
      LinesCons(a, b + more + "\n");
    }
  }

  // ---- The first word of a line ----

  /** What stands before the first white space. */
  function Word(s: string): string {
    if s == [] || IsWhite(s[0]) then [] else [s[0]] + Word(s[1..])
  }

  function FirstWord(s: string): Option<string> {
    if TrimStart(s) == [] then None else Some(Word(TrimStart(s)))
  }

  predicate Solid(s: string) { s != [] && forall i | 0 <= i < |s| :: !IsWhite(s[i]) }

  lemma {:induction false} WordThenSpace(w: string, rest: string)
    requires forall i | 0 <= i < |w| :: !IsWhite(w[i])
    ensures Word(w + " " + rest) == w
  {
    if w == [] {
      assert w + " " + rest == " " + rest;
    } else {
      WordThenSpace(w[1..], rest);
      assert (w + " " + rest)[1..] == w[1..] + " " + rest;
    }
  }

  lemma {:induction false} TrimStartPrepend(s: string, t: string)
    ensures TrimStart(s + t) == if Blank(s) then TrimStart(t) else TrimStart(s) + t
  {
    if s == [] {
      assert s + t == t;
    } else if IsWhite(s[0]) {
      assert (s + t)[1..] == s[1..] + t;
      TrimStartPrepend(s[1..], t);
      assert s == [s[0]] + s[1..];
    }
  }

  /** A word written after blank text is its first word. */
  lemma FirstWordAfterBlank(blank: string, w: string, rest: string)
    requires Blank(blank) && Solid(w)
    ensures FirstWord(blank + w + " " + rest) == Some(w)
  {
    var tail := w + " " + rest;
    assert blank + w + " " + rest == blank + tail;
    TrimStartPrepend(blank, tail);
    assert TrimStart(tail) == tail;
    WordThenSpace(w, rest);
  }

  lemma {:induction false} WordExtended(s: string, w: string, rest: string)
    requires s != [] && !IsWhite(s[0]) && Solid(w)
    ensures var longer := Word(s + w + " " + rest); longer == Word(s) || longer == Word(s) + w
    ensures Word(s) != []
  {
    var all := s + w + " " + rest;
    assert all[1..] == s[1..] + w + " " + rest;
    if |s| == 1 {
      assert all[1..] == w + " " + rest;
      WordThenSpace(w, rest);
    } else if !IsWhite(s[1]) {
      WordExtended(s[1..], w, rest);
    }
  }

  /** A word written on after other text leaves the first word alone or is glued to it. */
  lemma FirstWordAfterText(s: string, w: string, rest: string)
    requires !Blank(s) && Solid(w)
    ensures FirstWord(s).Some? && FirstWord(s).value != []
    ensures FirstWord(s + w + " " + rest) in {FirstWord(s), Some(FirstWord(s).value + w)}
  {
    TrimStartSolid(s);
    assert s + w + " " + rest == s + (w + " " + rest);
    TrimStartPrepend(s, w + " " + rest);
    var t := TrimStart(s);
    assert t + (w + " " + rest) == t + w + " " + rest;
    WordExtended(t, w, rest);
  }
}
