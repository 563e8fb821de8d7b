/** Scanners put into the IP block list for good (src/server/bot_ipfilter.rs): the line appended for
    an address, the list of addresses added, and putting lost lines back. */
module BotIpFilters {
  import opened Common
  import opened Decimals
  import opened IpFilters
  import opened Sources
  import opened Texts

  // ---- The line written for an address ----

  /** Octet i of an address, the highest first. */
  function Octet(ip: ipv4, i: nat): (octet: nat)
    requires i < 4
    ensures octet <= 255
  {
    if i == 0 then ip / 0x100_0000 else if i == 1 then ip / 0x1_0000 % 0x100
    else if i == 2 then ip / 0x100 % 0x100 else ip % 0x100
  }

  lemma OctetsMakeTheAddress(ip: ipv4)
    ensures Dotted(Octet(ip, 0), Octet(ip, 1), Octet(ip, 2), Octet(ip, 3)) == ip
  {
    var top := ip / 0x100;
    assert ip / 0x1_0000 == top / 0x100;
    assert ip / 0x100_0000 == top / 0x100 / 0x100;
  }

  lemma OctetsOfDotted(a: nat, b: nat, c: nat, d: nat)
    requires a <= 255 && b <= 255 && c <= 255 && d <= 255
    ensures var ip := Dotted(a, b, c, d);
      Octet(ip, 0) == a && Octet(ip, 1) == b && Octet(ip, 2) == c && Octet(ip, 3) == d
  {
    var ip := Dotted(a, b, c, d);
    assert ip / 0x1_0000 == a * 0x100 + b;
    assert ip / 0x100 == a * 0x1_0000 + b * 0x100 + c;
  }

  function ThreeDigits(n: nat): string { [Digit(n / 100), Digit(n / 10), Digit(n)] }

  function Padded(ip: ipv4): string {
    ThreeDigits(Octet(ip, 0)) + "." + ThreeDigits(Octet(ip, 1)) + "." + ThreeDigits(Octet(ip, 2)) + "." +
    ThreeDigits(Octet(ip, 3))
  }

  function FormatLine(ip: ipv4): string { Padded(ip) + " - " + Padded(ip) + " , " + "000 , bot" }

  lemma ThreeDigitsParse(n: nat)
    requires n <= 255
    ensures ParseU8(ThreeDigits(n)) == Some(n)
  {
    ThreeDigitsValue(n);
    hide Value;
  }

  lemma ThreeDigitsValue(n: nat)
    requires n < 1000
    ensures AllDigits(ThreeDigits(n)) && Value(ThreeDigits(n)) == n
  {
    hide Digit, DigitValue;
    ValueOfThree(Digit(n / 100), Digit(n / 10), Digit(n));
    DigitsAdd(n);
  }

  lemma DigitsAdd(n: nat)
    requires n < 1000
    ensures 10 * (10 * (n / 100 % 10) + n / 10 % 10) + n % 10 == n
  {
  }

  lemma ValueOfThree(a: char, b: char, c: char)
    requires IsDigit(a) && IsDigit(b) && IsDigit(c)
    ensures Value([a, b, c]) == 10 * (10 * DigitValue(a) + DigitValue(b)) + DigitValue(c)
  {
    hide DigitValue;
    assert [a, b, c][..2] == [a, b] && [a, b][..1] == [a] && [a][..0] == [];
    assert Value([a]) == DigitValue(a);
    assert Value([a, b]) == 10 * Value([a]) + DigitValue(b);
  }

  lemma PaddedParses(ip: ipv4)
    ensures Ip(Padded(ip)) == Some(ip)
  {
    hide ParseU8, ThreeDigits, Ip;
    ThreeDigitsParse(Octet(ip, 0));
    ThreeDigitsParse(Octet(ip, 1));
    ThreeDigitsParse(Octet(ip, 2));
    ThreeDigitsParse(Octet(ip, 3));
    IpOfOctets(ThreeDigits(Octet(ip, 0)), ThreeDigits(Octet(ip, 1)), ThreeDigits(Octet(ip, 2)), ThreeDigits(Octet(ip, 3)));
    OctetsMakeTheAddress(ip);
  }

  /** The line written for an address blocks that address and no other. */
  lemma FormatLineParses(ip: ipv4)
    ensures ParseLine(FormatLine(ip)) == Some(Range(ip, ip))
    ensures Entry(FormatLine(ip)) == Some(Range(ip, ip))
    ensures OneLine(FormatLine(ip)) && StripCr(FormatLine(ip)) == FormatLine(ip)
  {
    hide Ip, Padded, ParseLine, Find;
    PaddedParses(ip);
    var a, tail := Padded(ip), "000 , bot";
    DatLineParses(a, a, tail);
    AddressChars(a);
    var line := FormatLine(ip);
    assert line[|line| - 1] == tail[8];
    assert line[0] == a[0];
    TrimOfSolid(line);
    forall i | 0 <= i < |line| ensures line[i] != '\n' {
      assert line[i] in a || line[i] in " - " || line[i] in " , " || line[i] in tail;
    }
  }

  lemma ThreeDigitsAre(n: nat, a: char, b: char, c: char)
    requires n < 1000 && IsDigit(a) && IsDigit(b) && IsDigit(c)
    requires n == 100 * DigitValue(a) + 10 * DigitValue(b) + DigitValue(c)
    ensures ThreeDigits(n) == [a, b, c]
  {
    assert n / 100 == DigitValue(a) && n / 10 == 10 * DigitValue(a) + DigitValue(b);
    assert n / 10 % 10 == DigitValue(b) && n % 10 == DigitValue(c);
    SameDigit(Digit(n / 100), a);
    SameDigit(Digit(n / 10), b);
    SameDigit(Digit(n), c);
  }

  lemma SameDigit(x: char, y: char)
    requires IsDigit(x) && IsDigit(y) && DigitValue(x) == DigitValue(y)
    ensures x == y
  {
  }

  lemma PaddedOne()
    ensures Padded(Dotted(71, 231, 168, 221)) == "071" + "." + "231" + "." + "168" + "." + "221"
  {
    OctetsOfDotted(71, 231, 168, 221);
    ThreeDigitsAre(71, '0', '7', '1');
    ThreeDigitsAre(231, '2', '3', '1');
    ThreeDigitsAre(168, '1', '6', '8');
    ThreeDigitsAre(221, '2', '2', '1');
    hide ThreeDigits, Octet, Dotted;
    assert "071" == ['0', '7', '1'] && "231" == ['2', '3', '1'] && "168" == ['1', '6', '8'] && "221" == ['2', '2', '1'];
  }

  /** The line written for 71.231.168.221. */
  lemma WrittenLine()
    ensures var a := "071" + "." + "231" + "." + "168" + "." + "221";
      FormatLine(Dotted(71, 231, 168, 221)) == a + " - " + a + " , 000 , bot"
  {
    hide Padded;
    PaddedOne();
    var a := Padded(Dotted(71, 231, 168, 221));
    assert " , " + "000 , bot" == " , 000 , bot";
    assert a + " - " + a + " , " + "000 , bot" == a + " - " + a + (" , " + "000 , bot");
  }

  // ---- Appending ----

  /** The text with its last line ended. */
  function Ended(content: string): string { if Terminated(content) then content else content + "\n" }

  function AppendedText(content: string, ip: ipv4): string { Ended(content) + FormatLine(ip) + "\n" }

  /** The file after the line for an address was asked for. */
  function Appended(content: string, ip: ipv4): string {
    if Covered(content, ip) then content else AppendedText(content, ip)
  }

  lemma EndedLines(content: string)
    ensures Terminated(Ended(content))
    ensures !Terminated(content) ==> Lines(content) != [] && EndsLike(Lines(content)[|Lines(content)| - 1], content)
    ensures var lines, k := Lines(content), |Lines(content)| - 1;
      Lines(Ended(content)) == if Terminated(content) then lines else lines[..k] + [StripCr(lines[k])]
  {
    hide Lines, StripCr;
    if !Terminated(content) {
      LinesExtend(content, "");
      var k := |Lines(content)| - 1;
      assert Lines(content)[k] + "" == Lines(content)[k];
      assert content + "" + "\n" == content + "\n";
    }
  }

  lemma AppendedLines(content: string, ip: ipv4)
    ensures Lines(AppendedText(content, ip)) == Lines(Ended(content)) + [FormatLine(ip)]
  {
    hide Lines, FormatLine, StripCr, Ended;
    FormatLineParses(ip);
    EndedLines(content);
    LinesAppend(Ended(content), FormatLine(ip));
  }

  lemma EndedCovers(content: string, n: ipv4)
    ensures Covered(Ended(content), n) <==> Covered(content, n)
  {
    hide Lines, StripCr, Ended, Blocks;
    EndedLines(content);
    if !Terminated(content) {
      var lines, k := Lines(content), |Lines(content)| - 1;
      CoversSnoc(lines[..k], StripCr(lines[k]), n);
      CoversSnoc(lines[..k], lines[k], n);
      assert lines == lines[..k] + [lines[k]];
      StripCrBlocks(lines[k], n);
    }
  }

  /** Exactly one address is added to what the file blocks. */
  lemma AppendIsExact(content: string, ip: ipv4, n: ipv4)
    ensures Covered(Appended(content, ip), n) <==> Covered(content, n) || n == ip
  {
    hide Lines, FormatLine, Entry, AppendedText, Ended, Covers;
    if !Covered(content, ip) {
      AppendedLines(content, ip);
      FormatLineParses(ip);
      EndedCovers(content, n);
      CoversSnoc(Lines(Ended(content)), FormatLine(ip), n);
    }
  }

  lemma StripCrBlocks(line: string, n: ipv4)
    ensures Blocks(StripCr(line), n) <==> Blocks(line, n)
  {
    TrimStripsCr(line);
  }

  /** The old text is kept as it stood, and so is every line but for one case: a last line that ends
      in a carriage return and no newline loses that carriage return (and reads the same trimmed). */
  lemma AppendKeepsLines(content: string, ip: ipv4)
    requires !Covered(content, ip)
    ensures content <= AppendedText(content, ip)
    ensures |Lines(AppendedText(content, ip))| == |Lines(content)| + 1
    ensures forall i | 0 <= i < |Lines(content)| :: Trim(Lines(AppendedText(content, ip))[i]) == Trim(Lines(content)[i])
    ensures Lines(AppendedText(content, ip)) == Lines(content) + [FormatLine(ip)] <==>
      !(content != [] && content[|content| - 1] == '\r')
  {
    hide Lines, FormatLine, Trim;
    AppendedLines(content, ip);
    EndedLines(content);
    if !Terminated(content) {
      var lines, k := Lines(content), |Lines(content)| - 1;
      TrimStripsCr(lines[k]);
      assert lines == lines[..k] + [lines[k]];
      var after := Lines(AppendedText(content, ip));
      assert after[k] == StripCr(lines[k]);
      assert (lines + [FormatLine(ip)])[k] == lines[k];
    }
  }

  // ---- Putting lost addresses back ----

  function Reasserted(content: string, ips: seq<ipv4>): string {
    if ips == [] then content else Appended(Reasserted(content, ips[..|ips| - 1]), ips[|ips| - 1])
  }

  /** What the file blocks afterwards: what it blocked before and the listed addresses. */
  lemma {:induction false} ReassertIsExact(content: string, ips: seq<ipv4>, n: ipv4)
    ensures Covered(Reasserted(content, ips), n) <==> Covered(content, n) || n in ips
  {
    hide Covered, Appended, Reasserted;
    if ips == [] {
      ReassertedEmpty(content);
    } else {
      var init, last := ips[..|ips| - 1], ips[|ips| - 1];
      ReassertIsExact(content, init, n);
      var before := Reasserted(content, init);
      AppendIsExact(before, last, n);
      ReassertedNext(content, init, last);
      InLonger(init, last, n);
      assert ips == init + [last];
    }
  }

  lemma InLonger(ips: seq<ipv4>, ip: ipv4, n: ipv4)
    ensures n in ips + [ip] <==> n in ips || n == ip
  {
  }

  lemma ReassertedEmpty(content: string)
    ensures Reasserted(content, []) == content
  {
  }

  lemma ReassertedNext(content: string, ips: seq<ipv4>, ip: ipv4)
    ensures Reasserted(content, ips + [ip]) == Appended(Reasserted(content, ips), ip)
  {
    hide Appended;
    assert (ips + [ip])[..|ips|] == ips;
  }

  /** Nothing is written when every listed address is covered, so a second pass writes nothing. */
  lemma {:induction false} ReassertNothing(content: string, ips: seq<ipv4>)
    requires forall ip | ip in ips :: Covered(content, ip)
    ensures Reasserted(content, ips) == content
  {
    if ips != [] {
      assert ips[|ips| - 1] in ips;
      ReassertNothing(content, ips[..|ips| - 1]);
    }
  }

  lemma ReassertTwice(content: string, ips: seq<ipv4>)
    ensures Reasserted(Reasserted(content, ips), ips) == Reasserted(content, ips)
  {
    hide Covered, Reasserted;
    forall ip | ip in ips ensures Covered(Reasserted(content, ips), ip) { ReassertIsExact(content, ips, ip); }
    ReassertNothing(Reasserted(content, ips), ips);
  }

  /** Every earlier text survives a whole pass: it is kept in front, and no line of it is lost or reads
      differently once trimmed. */
  ghost predicate LinesSurvive(before: string, after: string) {
    before <= after && |Lines(before)| <= |Lines(after)| &&
    forall i | 0 <= i < |Lines(before)| :: Trim(Lines(after)[i]) == Trim(Lines(before)[i])
  }

  lemma {:induction false} ReassertKeepsLines(content: string, ips: seq<ipv4>)
    ensures LinesSurvive(content, Reasserted(content, ips))
    ensures |Lines(Reasserted(content, ips))| <= |Lines(content)| + |ips|
  {
    hide Lines, Trim, Covered, AppendedText, Reasserted;
    if ips == [] {
      ReassertedEmpty(content);
    } else {
      var init, last := ips[..|ips| - 1], ips[|ips| - 1];
      ReassertKeepsLines(content, init);
      assert ips == init + [last];
      ReassertedNext(content, init, last);
      if !Covered(Reasserted(content, init), last) { AppendKeepsLines(Reasserted(content, init), last); }
    }
  }

  /** A file whose last line ends in a carriage return and no newline loses that carriage return. */
  lemma BareCarriageReturnIsLost(ip: ipv4)
    ensures Lines("x\r") == ["x\r"]
    ensures !Covered("x\r", ip) && Lines(AppendedText("x\r", ip)) == ["x", FormatLine(ip)]
  {
    var text := "x\r";
    NoNewline(text);
    assert Lines(text) == [text];
    NotALine();
    hide Lines, FormatLine, Entry;
    AppendedLines(text, ip);
    EndedLines(text);
    assert StripCr(text) == "x";
  }

  lemma NotALine()
    ensures Entry("x\r") == None
  {
    assert Trim("x\r") == "x" by {
      TrimEndWhite("x", '\r');
      assert "x" + ['\r'] == "x\r";
      TrimOfSolid("x");
    }
    hide Trim;
    RFindBounds("x", ':');
    RFindBounds("x", '-');
    TrimOfSolid("x");
  }

  // ---- The list of added addresses ----

  /** Rust's address syntax: four octets of up to three digits, without superfluous zeros. */
  function StrictOctet(s: string): Option<nat> {
    if Canonical(s) && |s| <= 3 && Value(s) <= 255 then Some(Value(s)) else None
  }

  function ParseStrict(s: string): Option<ipv4> {
    var parts := Split(s, '.');
    if |parts| == 4 && (forall i | 0 <= i < 4 :: StrictOctet(parts[i]).Some?)
    then Some(Dotted(StrictOctet(parts[0]).value, StrictOctet(parts[1]).value,
                     StrictOctet(parts[2]).value, StrictOctet(parts[3]).value))
    else None
  }

  function Display(ip: ipv4): string {
    Decimal(Octet(ip, 0)) + "." + Decimal(Octet(ip, 1)) + "." + Decimal(Octet(ip, 2)) + "." + Decimal(Octet(ip, 3))
  }

  lemma AtMostThreeDigits(n: nat)
    requires n <= 255
    ensures |Decimal(n)| <= 3
  {
    if n >= 100 {
      assert Decimal(n / 100) == [Digit(n / 100)];
      assert Decimal(n / 10) == Decimal(n / 10 / 10) + [Digit(n / 10)];
    }
  }

  /** Octet texts and octets are in one-to-one correspondence. */
  lemma OctetText(s: string, n: nat)
    requires n <= 255
    ensures StrictOctet(s) == Some(n) <==> s == Decimal(n)
  {
    hide Decimal, Value, Canonical;
    DecimalReadsBack(n);
    AtMostThreeDigits(n);
    if Canonical(s) { CanonicalIsDecimal(s); }
  }

  lemma {:induction false} SplitJoins(s: string, c: char)
    ensures Joined(Split(s, c), c) == s
    ensures forall i | 0 <= i < |Split(s, c)| :: c !in Split(s, c)[i]
  {
    if s != [] {
      SplitJoins(s[1..], c);
      var rest := Split(s[1..], c);
      assert s == [s[0]] + s[1..];
      if s[0] == c {
        assert ([[]] + rest)[1..] == rest;
      } else {
        JoinedHead(s[0], rest, c);
      }
    }
  }

  /** The parts with the separator between them. */
  function Joined(parts: seq<string>, c: char): string
    requires parts != []
  {
    if |parts| == 1 then parts[0] else parts[0] + [c] + Joined(parts[1..], c)
  }

  lemma JoinedHead(x: char, parts: seq<string>, c: char)
    requires parts != []
    ensures Joined([[x] + parts[0]] + parts[1..], c) == [x] + Joined(parts, c)
  {
    var more := [[x] + parts[0]] + parts[1..];
    assert more[1..] == parts[1..];
  }

  lemma JoinedFour(a: string, b: string, c: string, d: string, sep: char)
    ensures Joined([a, b, c, d], sep) == a + [sep] + b + [sep] + c + [sep] + d
  {
    assert [a, b, c, d][1..] == [b, c, d];
    assert [b, c, d][1..] == [c, d];
    assert [c, d][1..] == [d];
    assert Joined([c, d], sep) == c + [sep] + d;
    assert Joined([b, c, d], sep) == b + [sep] + (c + [sep] + d);
    assert b + [sep] + (c + [sep] + d) == b + [sep] + c + [sep] + d;
    assert a + [sep] + (b + [sep] + c + [sep] + d) == a + [sep] + b + [sep] + c + [sep] + d;
  }

  lemma SplitOfFour(a: string, b: string, c: string, d: string)
    requires '.' !in a && '.' !in b && '.' !in c && '.' !in d
    ensures Split(a + "." + b + "." + c + "." + d, '.') == [a, b, c, d]
  {
    hide Split;
    SplitNone(d, '.');
    SplitAt(c, '.', d);
    SplitAt(b, '.', c + "." + d);
    SplitAt(a, '.', b + "." + c + "." + d);
    assert b + "." + (c + "." + d) == b + "." + c + "." + d;
    assert a + "." + (b + "." + c + "." + d) == a + "." + b + "." + c + "." + d;
  }

  lemma DecimalHasNoDot(n: nat)
    ensures '.' !in Decimal(n)
  {
    DecimalReadsBack(n);
  }

  /** A text reads as an address exactly when it is how that address is written. */
  lemma StrictIsDisplay(s: string, ip: ipv4)
    ensures ParseStrict(s) == Some(ip) <==> s == Display(ip)
  {
    hide Split, StrictOctet, Decimal, Octet, Dotted;
    var parts := Split(s, '.');
    OctetTexts(parts, ip);
    if s == Display(ip) {
      DecimalHasNoDot(Octet(ip, 0)); DecimalHasNoDot(Octet(ip, 1)); DecimalHasNoDot(Octet(ip, 2)); DecimalHasNoDot(Octet(ip, 3));
      SplitOfFour(Decimal(Octet(ip, 0)), Decimal(Octet(ip, 1)), Decimal(Octet(ip, 2)), Decimal(Octet(ip, 3)));
      OctetsMakeTheAddress(ip);
    }
    if ParseStrict(s) == Some(ip) {
      StrictOctetSmall(parts[0]); StrictOctetSmall(parts[1]); StrictOctetSmall(parts[2]); StrictOctetSmall(parts[3]);
      OctetsOfDotted(StrictOctet(parts[0]).value, StrictOctet(parts[1]).value,
                     StrictOctet(parts[2]).value, StrictOctet(parts[3]).value);
      SplitJoins(s, '.');
      assert parts == [parts[0], parts[1], parts[2], parts[3]];
      JoinedFour(parts[0], parts[1], parts[2], parts[3], '.');
    }
  }

  lemma StrictOctetSmall(s: string)
    ensures StrictOctet(s).Some? ==> StrictOctet(s).value <= 255
  {
  }

  lemma OctetTexts(parts: seq<string>, ip: ipv4)
    ensures |parts| == 4 ==>
      forall i | 0 <= i < 4 :: StrictOctet(parts[i]) == Some(Octet(ip, i)) <==> parts[i] == Decimal(Octet(ip, i))
  {
    hide Octet;
    if |parts| == 4 {
      forall i | 0 <= i < 4 ensures StrictOctet(parts[i]) == Some(Octet(ip, i)) <==> parts[i] == Decimal(Octet(ip, i)) {
        OctetText(parts[i], Octet(ip, i));
      }
    }
  }

  /** The address a line of the list holds: its first word, when that is an address. */
  function ListedBy(line: string): Option<ipv4> {
    match FirstWord(line)
    case None => None
    case Some(w) => ParseStrict(w)
  }

  function ListedIn(lines: seq<string>): seq<ipv4> {
    if lines == [] then []
    else
      var before := ListedIn(lines[..|lines| - 1]);
      match ListedBy(lines[|lines| - 1])
      case None => before
      case Some(ip) => before + [ip]
  }

  function Listed(text: string): seq<ipv4> { ListedIn(Lines(text)) }

  predicate Recorded(text: string, ip: ipv4) {
    exists i | 0 <= i < |Lines(text)| :: FirstWord(Lines(text)[i]) == Some(Display(ip))
  }

  lemma ListedByIs(line: string, ip: ipv4)
    ensures ListedBy(line) == Some(ip) <==> FirstWord(line) == Some(Display(ip))
  {
    hide FirstWord, ParseStrict, Display;
    if FirstWord(line).Some? { StrictIsDisplay(FirstWord(line).value, ip); }
  }

  lemma {:induction false} ListedInIs(lines: seq<string>, ip: ipv4)
    ensures ip in ListedIn(lines) <==> exists i | 0 <= i < |lines| :: FirstWord(lines[i]) == Some(Display(ip))
  {
    if lines != [] {
      hide FirstWord, ListedBy, Display;
      var init, last := lines[..|lines| - 1], lines[|lines| - 1];
      ListedInIs(init, ip);
      ListedByIs(last, ip);
      assert lines == init + [last];
      assert forall i | 0 <= i < |init| :: lines[i] == init[i];
    }
  }

  /** The duplicate test of `remember` compares texts; it finds exactly the addresses that the list
      will later be read as. */
  lemma RecordedIsListed(text: string, ip: ipv4)
    ensures Recorded(text, ip) <==> ip in Listed(text)
  {
    hide FirstWord, Display, Lines;
    ListedInIs(Lines(text), ip);
  }

  function RememberedText(text: string, ip: ipv4, when: string): string { text + Display(ip) + " " + when + "\n" }

  lemma DisplayIsSolid(ip: ipv4)
    ensures Solid(Display(ip)) && OneLine(Display(ip))
  {
    hide Decimal;
    DecimalReadsBack(Octet(ip, 0));
    DecimalReadsBack(Octet(ip, 1));
    DecimalReadsBack(Octet(ip, 2));
    DecimalReadsBack(Octet(ip, 3));
  }

  ghost predicate ReadyForLine(text: string) {
    Terminated(text) || (Lines(text) != [] && Blank(Lines(text)[|Lines(text)| - 1]))
  }

  /** The list gains the new address, and no other, exactly when its last line was ended or blank:
      no separator is written, so after an unfinished line the address is glued to that line. */
  lemma RememberedIsListed(text: string, ip: ipv4, when: string)
    requires !Recorded(text, ip) && Solid(when)
    ensures ip in Listed(RememberedText(text, ip, when)) <==> ReadyForLine(text)
    ensures ReadyForLine(text) ==>
      forall n :: n in Listed(RememberedText(text, ip, when)) <==> n in Listed(text) || n == ip
  {
    hide Lines, FirstWord, Display, Decimal, ListedIn, Blank;
    var lines, after := Lines(text), Lines(RememberedText(text, ip, when));
    var key := Display(ip);
    var line := key + " " + when;
    DisplayIsSolid(ip);
    assert OneLine(line);
    assert StripCr(line) == line;
    assert text + line + "\n" == RememberedText(text, ip, when);
    assert [] + key + " " + when == line;
    ListedInIs(lines, ip);
    if Terminated(text) {
      LinesAppend(text, line);
      NoText();
      FirstWordAfterBlank([], key, when);
      forall n ensures n in ListedIn(after) <==> n in ListedIn(lines) || n == ip { LastLine(lines, line, ip, n); }
    } else {
      LinesExtend(text, line);
      var k := |lines| - 1;
      var last := lines[k] + line;
      assert last == lines[k] + key + " " + when;
      assert StripCr(last) == last;
      assert lines == lines[..k] + [lines[k]];
      if Blank(lines[k]) {
        FirstWordAfterBlank(lines[k], key, when);
        BlankListsNothing(lines[k]);
        forall n ensures n in ListedIn(after) <==> n in ListedIn(lines) || n == ip {
          LastLine(lines[..k], last, ip, n);
          NoLastLine(lines, n);
        }
      } else {
        FirstWordAfterText(lines[k], key, when);
        assert FirstWord(last) != Some(key);
        ListedInIs(after, ip);
        forall i | 0 <= i < k ensures FirstWord(after[i]) != Some(key) { assert after[i] == lines[i]; }
      }
    }
  }

  /** A list left without its final newline loses both addresses: the one it ends with and the one
      recorded next run together. */
  lemma UnfinishedListLosesAddress(listed: ipv4, ip: ipv4, when: string)
    requires listed != ip && Solid(when)
    ensures var text := Display(listed);
      !Recorded(text, ip) && !ReadyForLine(text) && listed in Listed(text) &&
      ip !in Listed(RememberedText(text, ip, when)) && listed !in Listed(RememberedText(text, ip, when))
  {
    hide Display;
    var text := Display(listed);
    DisplayIsSolid(listed);
    NoNewline(text);
    assert Lines(text) == [text];
    assert TrimStart(text) == text;
    WordOfSolid(text);
    hide TrimStart, Word;
    assert FirstWord(text) == Some(text);
    if text == Display(ip) {
      StrictIsDisplay(text, listed);
      StrictIsDisplay(text, ip);
    }
    assert !Terminated(text) by { assert text[|text| - 1] in text; }
    RememberedIsListed(text, ip, when);
    assert Recorded(text, listed);
    RecordedIsListed(text, listed);
    RunTogether(listed, ip, when);
  }

  /** The two addresses make one word, which is neither. */
  lemma RunTogether(listed: ipv4, ip: ipv4, when: string)
    requires Solid(when)
    ensures listed !in Listed(RememberedText(Display(listed), ip, when))
  {
    hide Display, TrimStart, Word, ListedIn;
    DisplayIsSolid(listed);
    DisplayIsSolid(ip);
    var line := Display(listed) + Display(ip) + " " + when;
    WordThenSpace(Display(listed) + Display(ip), when);
    assert TrimStart(line) == line by { SolidStart(line); }
    assert FirstWord(line) == Some(Display(listed) + Display(ip));
    OneLineOfList(Display(listed), ip, when);
    ListedInIs([line], listed);
  }

  lemma SolidStart(s: string)
    requires s != [] && !IsWhite(s[0])
    ensures TrimStart(s) == s
  {
  }

  lemma OneLineOfList(text: string, ip: ipv4, when: string)
    requires OneLine(text) && Solid(when)
    ensures Lines(RememberedText(text, ip, when)) == [text + Display(ip) + " " + when]
  {
    hide Display;
    DisplayIsSolid(ip);
    var line := text + Display(ip) + " " + when;
    assert OneLine(line) && StripCr(line) == line;
    assert RememberedText(text, ip, when) == line + "\n" + [];
    LinesCons(line, []);
  }

  lemma {:induction false} WordOfSolid(s: string)
    requires forall i | 0 <= i < |s| :: !IsWhite(s[i])
    ensures Word(s) == s
  {
    if s != [] {
      WordOfSolid(s[1..]);
      assert s == [s[0]] + s[1..];
    }
  }

  lemma NoText()
    ensures Blank([])
  {
  }

  lemma BlankListsNothing(line: string)
    requires Blank(line)
    ensures ListedBy(line) == None
  {
    TrimStartSolid(line);
  }

  lemma LastLine(lines: seq<string>, line: string, ip: ipv4, n: ipv4)
    requires FirstWord(line) == Some(Display(ip))
    ensures n in ListedIn(lines + [line]) <==> n in ListedIn(lines) || n == ip
  {
    hide FirstWord, Display;
    ListedByIs(line, ip);
    assert (lines + [line])[..|lines|] == lines;
  }

  lemma NoLastLine(lines: seq<string>, n: ipv4)
    requires lines != [] && ListedBy(lines[|lines| - 1]) == None
    ensures n in ListedIn(lines) <==> n in ListedIn(lines[..|lines| - 1])
  {
  }

  // ---- The files ----

  datatype IoError = CannotRead | CannotWrite

  /** A text file and what the process may do with it. */
  class TextFile {
    var text: Option<string> // None: no such file
    var readable: bool
    var writable: bool

    function Content(): string
      reads this
    {
      if text.Some? then text.value else ""
    }

    /** Append the line for an address unless a line covers it already. */
    method AppendIfMissing(ip: ipv4) returns (r: Result<bool, IoError>)
      modifies this`text
      ensures r.Err? ==> text == old(text)
      ensures r.Err? <==> (old(text).Some? && !readable) || (!writable && !Covered(old(Content()), ip))
      ensures r.Ok? ==> r.value == !Covered(old(Content()), ip)
      ensures r.Ok? ==> Content() == Appended(old(Content()), ip)
      ensures r.Ok? && !r.value ==> text == old(text)
    {
      hide Covered, FormatLine;
      if text.Some? && !readable {
        return Err(CannotRead);
      }
      var content := if text.Some? then text.value else "";
      if Covered(content, ip) {
        return Ok(false);
      }
      if !writable {
        return Err(CannotWrite);
      }
      var sep := if content == [] || content[|content| - 1] == '\n' then "" else "\n";
      text := Some(content + sep + FormatLine(ip) + "\n");
      return Ok(true);
    }

    /** Record an address in this list, once. An unreadable list counts as empty. */
    method Remember(ip: ipv4, when: string) returns (r: Result<(), IoError>)
      modifies this`text
      ensures var have := if readable then old(Content()) else "";
        if Recorded(have, ip) then r.Ok? && text == old(text)
        else if !writable then r == Err(CannotWrite) && text == old(text)
        else r.Ok? && text == Some(RememberedText(old(Content()), ip, when))
    {
      hide Display;
      var have := if text.Some? && readable then text.value else "";
      var key := Display(ip);
      var lines := Lines(have);
      for i := 0 to |lines|
        invariant text == old(text)
        invariant forall j | 0 <= j < i :: FirstWord(lines[j]) != Some(key)
      {
        if FirstWord(lines[i]) == Some(key) {
          return Ok(());
        }
      }
      if !writable {
        return Err(CannotWrite);
      }
      text := Some((if text.Some? then text.value else "") + key + " " + when + "\n");
      return Ok(());
    }
  }

  lemma AppendGrows(content: string, ip: ipv4)
    ensures |Lines(Appended(content, ip))| == |Lines(content)| + if Covered(content, ip) then 0 else 1
  {
    if !Covered(content, ip) { AppendKeepsLines(content, ip); }
  }

  /** Put every listed address back into the filter file; the result counts the lines written. */
  method Reassert(filter: TextFile, list: TextFile) returns (n: nat)
    requires filter != list
    modifies filter`text
    ensures var ips := if list.text.Some? && list.readable then Listed(list.text.value) else [];
      filter.readable && filter.writable ==>
        filter.Content() == Reasserted(old(filter.Content()), ips) &&
        |Lines(filter.Content())| == |Lines(old(filter.Content()))| + n &&
        (n == 0 <==> filter.text == old(filter.text)) &&
        (n == 0 <==> forall ip | ip in ips :: Covered(old(filter.Content()), ip))
    ensures LinesSurvive(old(filter.Content()), filter.Content())
    ensures !filter.writable || (old(filter.text).Some? && !filter.readable) ==>
      n == 0 && filter.text == old(filter.text)
  {
    hide Lines, ListedBy, Appended, Covered, Trim;
    n := 0;
    if list.text.None? || !list.readable {
      return;
    }
    ghost var before := filter.Content();
    var lines := Lines(list.text.value);
    for i := 0 to |lines|
      invariant filter.readable && filter.writable ==>
        filter.Content() == Reasserted(before, ListedIn(lines[..i])) &&
        |Lines(filter.Content())| == |Lines(before)| + n &&
        (n == 0 <==> filter.text == old(filter.text))
      invariant !filter.writable || (old(filter.text).Some? && !filter.readable) ==>
        n == 0 && filter.text == old(filter.text)
      invariant LinesSurvive(before, filter.Content())
    {
      assert lines[..i + 1][..i] == lines[..i];
      var listed := ListedBy(lines[i]);
      if listed.Some? {
        AppendGrows(filter.Content(), listed.value);
        SurvivesAppend(before, filter.Content(), listed.value);
        ListedNext(before, lines, i);
        var r := filter.AppendIfMissing(listed.value);
        if r.Err? {
          break;
        }
        if r.value {
          n := n + 1;
        }
      }
    }
    assert filter.readable && filter.writable ==> filter.Content() == Reasserted(before, Listed(list.text.value)) by {
      assert lines[..|lines|] == lines;
    }
    NothingWritten(before, Listed(list.text.value));
  }

  lemma SurvivesAppend(before: string, content: string, ip: ipv4)
    requires LinesSurvive(before, content)
    ensures LinesSurvive(before, Appended(content, ip))
  {
    hide Lines, Trim, Covered, AppendedText;
    if !Covered(content, ip) { AppendKeepsLines(content, ip); }
  }

  lemma ListedNext(content: string, lines: seq<string>, i: nat)
    requires i < |lines| && ListedBy(lines[i]).Some?
    ensures Reasserted(content, ListedIn(lines[..i + 1])) ==
      Appended(Reasserted(content, ListedIn(lines[..i])), ListedBy(lines[i]).value)
  {
    hide Appended, ListedBy, Reasserted;
    assert lines[..i + 1][..i] == lines[..i];
    ReassertedNext(content, ListedIn(lines[..i]), ListedBy(lines[i]).value);
  }

  lemma NothingWritten(content: string, ips: seq<ipv4>)
    ensures Reasserted(content, ips) == content <==> forall ip | ip in ips :: Covered(content, ip)
  {
    hide Covered, Reasserted;
    if Reasserted(content, ips) == content {
      forall ip | ip in ips ensures Covered(content, ip) { ReassertIsExact(content, ips, ip); }
    } else if forall ip | ip in ips :: Covered(content, ip) {
      ReassertNothing(content, ips);
    }
  }
}
