/** From a hardware trace to the card: extract, compile, replay. */
module RoundTrip {
  import opened Pal
  import opened Regex
  import opened Golden
  import opened Blob
  import opened Replay
  import opened Extract

  // ---- what the trace says ------------------------------------------------------------------

  /** The region write the extractor sees in a trace line. */
  function Traced(line: string): seq<RegWrite> {
    if IsMarker(line) then []
    else
      match Search(VFIO_WRITE, line)
      case None => []
      case Some(groups) =>
        SearchFits(VFIO_WRITE, line);
        WriteGroups(groups);
        [GroupsToWrite(groups)]
  }

  function TracedAll(lines: seq<string>): seq<RegWrite> {
    if lines == [] then [] else Traced(lines[0]) + TracedAll(lines[1..])
  }

  const KICKSTART := RegWrite(1, 0x8, 0x1091_4221)

  /** The region writes before the first stop line, then the kick-start if there is one. */
  function WindowTraced(body: seq<string>): seq<RegWrite> {
    var n := FirstStop(body);
    TracedAll(body[..n]) + if n < |body| then [KICKSTART] else []
  }

  /** The same for the part of a trace after its first marker line. */
  function WindowWrites(lines: seq<string>): seq<RegWrite> {
    match AfterMarker(lines)
    case Some(body) => WindowTraced(body)
    case None => []
  }

  // ---- printed lines parse back ---------------------------------------------------------------

  lemma Associate(a: string, b: string, c: string)
    ensures (a + b) + c == a + (b + c)
  {
  }

  /** Optional space, then a literal: the unit the pattern is made of. */
  lemma SpellToken(gap: string, text: string, rest: Pattern, tail: string, groups: seq<string>)
    requires All(Space, gap) && Denotes(rest, tail, groups)
    ensures Denotes(Run(Space, 0, false, Lit(text, rest)), gap + (text + tail), groups)
  {
    SpellLit(text, rest, tail, groups);
    SpellRun(Space, 0, false, Lit(text, rest), gap, text + tail, groups);
  }

  /** The same with no space. */
  lemma SpellTight(text: string, rest: Pattern, tail: string, groups: seq<string>)
    requires Denotes(rest, tail, groups)
    ensures Denotes(Run(Space, 0, false, Lit(text, rest)), text + tail, groups)
  {
    SpellToken("", text, rest, tail, groups);
    assert "" + (text + tail) == text + tail;
  }

  lemma SpellHexArg(after: Pattern, digits: string, tail: string, groups: seq<string>)
    requires IsDigits(HexDigit, digits) && Denotes(after, tail, groups)
    ensures Denotes(Run(Space, 0, false, Lit(",", Run(Space, 0, false, Lit("0x", Run(HexDigit, 1, true, after))))),
                    ", 0x" + (digits + tail), [digits] + groups)
  {
    var p := Run(HexDigit, 1, true, after);
    SpellRun(HexDigit, 1, true, after, digits, tail, groups);
    SpellToken(" ", "0x", p, digits + tail, [digits] + groups);
    SpellTight(",", Run(Space, 0, false, Lit("0x", p)), " " + ("0x" + (digits + tail)), [digits] + groups);
    CommaHex(digits + tail);
  }

  lemma CommaHex(tail: string)
    ensures "," + (" " + ("0x" + tail)) == ", 0x" + tail
  {
  }

  lemma SpellBar(digits: string, tail: string, groups: seq<string>)
    requires IsDigits(Digit, digits) && Denotes(AFTER_BAR, tail, groups)
    ensures Denotes(AFTER_FD, "," + (" " + (digits + tail)), [digits] + groups)
  {
    var p := Run(Digit, 1, true, AFTER_BAR);
    SpellRun(Digit, 1, true, AFTER_BAR, digits, tail, groups);
    SpellRun(Space, 0, false, p, " ", digits + tail, [digits] + groups);
    SpellTight(",", Run(Space, 0, false, p), " " + (digits + tail), [digits] + groups);
  }

  lemma SpellClose(tail: string)
    ensures Denotes(AFTER_VALUE, ")" + tail, [])
  {
    SpellTight(")", End, tail, []);
  }

  const FD_PART: Pattern := Run(Space, 0, false, Lit("fd", AFTER_FD))
  const PAREN_PART: Pattern := Run(Space, 0, false, Lit("(", FD_PART))

  lemma WriteRegParts()
    ensures WRITE_REG == Run(Space, 0, false, Lit("write_reg", PAREN_PART))
  {
  }

  lemma SpellParen(args: string, groups: seq<string>)
    requires Denotes(AFTER_FD, args, groups)
    ensures Denotes(PAREN_PART, "(" + ("fd" + args), groups)
  {
    SpellTight("fd", AFTER_FD, args, groups);
    SpellTight("(", FD_PART, "fd" + args, groups);
  }

  lemma SpellName(tail: string, groups: seq<string>)
    requires Denotes(PAREN_PART, tail, groups)
    ensures Denotes(WRITE_REG, "    " + ("write_reg" + tail), groups)
  {
    WriteRegParts();
    SpellToken("    ", "write_reg", PAREN_PART, tail, groups);
  }

  lemma OpenText(tail: string)
    ensures "    " + ("write_reg" + ("(" + ("fd" + ("," + (" " + tail))))) == "    write_reg(fd, " + tail
  {
  }

  lemma LineText(bar: string, offset: string, value: string, tail: string)
    ensures WriteLine(bar, offset, value) + tail
         == "    write_reg(fd, " + (bar + (", 0x" + (offset + (", 0x" + (value + (")" + (";" + tail)))))))
  {
  }

  /** The printer and the parser agree: a printed call, whatever follows it, parses back to
      the numbers it was printed from. */
  lemma WriteLineParses(bar: string, offset: string, value: string, tail: string)
    requires IsDigits(Digit, bar) && IsDigits(HexDigit, offset) && IsDigits(HexDigit, value)
    ensures ParseLine(WriteLine(bar, offset, value) + tail) == Some(GroupsToWrite([bar, offset, value]))
  {
    var t3 := ")" + (";" + tail);
    SpellClose(";" + tail);
    SpellHexArg(AFTER_VALUE, value, t3, []);
    var t2 := ", 0x" + (value + t3);
    SpellHexArg(AFTER_OFFSET, offset, t2, [value] + []);
    var t1 := ", 0x" + (offset + t2);
    SpellBar(bar, t1, [offset] + ([value] + []));
    SpellParen("," + (" " + (bar + t1)), [bar] + ([offset] + ([value] + [])));
    SpellName("(" + ("fd" + ("," + (" " + (bar + t1)))), [bar] + ([offset] + ([value] + [])));
    OpenText(bar + t1);
    LineText(bar, offset, value, tail);
    ParseSpelled(WriteLine(bar, offset, value) + tail, bar, offset, value);
  }

  lemma ParseSpelled(line: string, bar: string, offset: string, value: string)
    requires Denotes(WRITE_REG, line, [bar] + ([offset] + ([value] + [])))
    ensures ParseLine(line) == Some(GroupsToWrite([bar, offset, value]))
  {
    assert [bar] + ([offset] + ([value] + [])) == [bar, offset, value];
    WriteRegDeterministic();
    MatchComplete(WRITE_REG, line, [bar, offset, value]);
  }

  // ---- numbers ------------------------------------------------------------------------------

  function DigitChar(d: nat): char
    requires d < 16
  {
    if d < 10 then '0' + d as char else 'a' + (d - 10) as char
  }

  /** The usual notation of a number: digits in the radix, most significant first. */
  function Notation(radix: nat, n: nat): string
    requires 2 <= radix <= 16
    decreases n
  {
    if n < radix then [DigitChar(n)] else Notation(radix, n / radix) + [DigitChar(n % radix)]
  }

  lemma NumberStep(radix: nat, digits: string, ch: char)
    ensures Number(radix, digits + [ch]) == radix * Number(radix, digits) + DigitValue(ch)
  {
  }

  lemma DigitRoundTrip(d: nat)
    requires d < 16
    ensures DigitValue(DigitChar(d)) == d && In(HexDigit, DigitChar(d))
    ensures d < 10 ==> In(Digit, DigitChar(d))
  {
  }

  lemma OneDigit(radix: nat, d: nat)
    requires d < 16
    ensures Number(radix, [DigitChar(d)]) == d
  {
  }

  lemma DivMod(n: nat, radix: nat)
    requires radix == 10 || radix == 16
    ensures radix * (n / radix) + n % radix == n && n % radix < radix
  {
  }

  function DigitsOf(radix: nat): Class {
    if radix == 10 then Digit else HexDigit
  }

  lemma DigitsSnoc(cls: Class, s: string, ch: char)
    requires IsDigits(cls, s) && In(cls, ch)
    ensures IsDigits(cls, s + [ch])
  {
  }

  lemma {:induction false} NotationIsDigits(radix: nat, n: nat)
    requires radix == 10 || radix == 16
    ensures IsDigits(DigitsOf(radix), Notation(radix, n))
    decreases n
  {
    DivMod(n, radix);
    if n < radix {
      DigitRoundTrip(n);
    } else {
      NotationIsDigits(radix, n / radix);
      DigitRoundTrip(n % radix);
      DigitsSnoc(DigitsOf(radix), Notation(radix, n / radix), DigitChar(n % radix));
    }
  }

  lemma {:induction false} NumberOfNotation(radix: nat, n: nat)
    requires radix == 10 || radix == 16
    ensures Number(radix, Notation(radix, n)) == n
    decreases n
  {
    if n < radix {
      OneDigit(radix, n);
    } else {
      NumberOfNotation(radix, n / radix);
      NumberStep(radix, Notation(radix, n / radix), DigitChar(n % radix));
      DigitRoundTrip(n % radix);
      DivMod(n, radix);
    }
  }

  /** Printing any three numbers as a call and parsing the line gives the numbers back. */
  lemma NumbersRoundTrip(bar: nat, offset: nat, value: nat, tail: string)
    ensures ParseLine(WriteLine(Notation(10, bar), Notation(16, offset), Notation(16, value)) + tail)
         == Some(RegWrite(bar, offset, value))
  {
    NumberOfNotation(10, bar); NotationIsDigits(10, bar);
    NumberOfNotation(16, offset); NotationIsDigits(16, offset);
    NumberOfNotation(16, value); NotationIsDigits(16, value);
    WriteLineParses(Notation(10, bar), Notation(16, offset), Notation(16, value), tail);
  }

  lemma ReadLineIgnored(offset: string, tail: string)
    ensures ParseLine(ReadLine(offset) + tail) == None
  {
    var s := ReadLine(offset) + tail;
    var lit := "    usleep(100);";
    assert lit[0] == ' ' && lit[1] == ' ' && lit[2] == ' ' && lit[3] == ' ' && lit[4] == 'u';
    assert s == lit + (" // Emulate hardware delay for read at 0x" + offset + tail);
    assert s[0] == ' ' && s[1] == ' ' && s[2] == ' ' && s[3] == ' ' && s[4] == 'u';
    MatchSound(WRITE_REG, s);
    if Match(WRITE_REG, s).Some? {
      var groups := Match(WRITE_REG, s).value;
      var k: nat :| RunOf(WRITE_REG, s, groups, k);
      NotAToken(s, k, groups);
    }
  }

  lemma NotAToken(s: string, k: nat, groups: seq<string>)
    requires |s| > 4 && s[0] == ' ' && s[1] == ' ' && s[2] == ' ' && s[3] == ' ' && s[4] == 'u'
    ensures !RunOf(WRITE_REG, s, groups, k)
  {
    if RunOf(WRITE_REG, s, groups, k) {
      if k > 4 { AllAt(Space, s, k, 4); }
    }
  }

  // ---- the kick-start line ------------------------------------------------------------------

  lemma NumberStep2(digits: string, a: char, b: char)
    ensures Number(16, digits + [a, b]) == 0x100 * Number(16, digits) + 0x10 * DigitValue(a) + DigitValue(b)
  {
    NumberStep(16, digits, a);
    NumberStep(16, digits + [a], b);
    assert digits + [a] + [b] == digits + [a, b];
  }

  lemma KickstartValue()
    ensures Number(16, "10914221") == 0x1091_4221
  {
    var d1, d2, d3 := ['1', '0'], ['1', '0', '9', '1'], ['1', '0', '9', '1', '4', '2'];
    NumberStep2([], '1', '0');
    NumberStep2(d1, '9', '1');
    NumberStep2(d2, '4', '2');
    NumberStep2(d3, '2', '1');
    assert [] + ['1', '0'] == d1 && d1 + ['9', '1'] == d2 && d2 + ['4', '2'] == d3;
    assert d3 + ['2', '1'] == "10914221";
  }

  lemma KickstartNumbers()
    ensures GroupsToWrite(["1", "8", "10914221"]) == KICKSTART
  {
    NumberStep(10, "", '1');
    NumberStep(16, "", '8');
    assert "" + ['1'] == "1" && "" + ['8'] == "8";
    KickstartValue();
  }

  lemma KickstartText()
    ensures KICKSTART_LINE == WriteLine("1", "8", "10914221") + " // Kickstart!"
  {
    assert "    write_reg(fd, " + "1" == "    write_reg(fd, 1";
    assert "    write_reg(fd, 1" + ", 0x" == "    write_reg(fd, 1, 0x";
    assert "    write_reg(fd, 1, 0x" + "8" == "    write_reg(fd, 1, 0x8";
    assert "    write_reg(fd, 1, 0x8" + ", 0x" == "    write_reg(fd, 1, 0x8, 0x";
    assert "    write_reg(fd, 1, 0x8, 0x" + "10914221" == "    write_reg(fd, 1, 0x8, 0x10914221";
    assert "    write_reg(fd, 1, 0x8, 0x10914221" + ");" == "    write_reg(fd, 1, 0x8, 0x10914221);";
  }

  lemma KickstartOneLine()
    ensures '\n' !in KICKSTART_LINE && KICKSTART_LINE != ""
  {
    KickstartText();
    assert '\n' !in WriteLine("1", "8", "10914221");
    assert '\n' !in " // Kickstart!";
  }

  lemma KickstartParses(tail: string)
    ensures ParseLine(KICKSTART_LINE + tail) == Some(KICKSTART)
  {
    KickstartNumbers();
    KickstartText();
    Associate(WriteLine("1", "8", "10914221"), " // Kickstart!", tail);
    WriteLineParses("1", "8", "10914221", " // Kickstart!" + tail);
  }

  // ---- printed files read back line by line ------------------------------------------------------

  /** A printed line: not empty, no newline inside, and it parses the same whatever follows it. */
  ghost predicate Clean(line: string) {
    line != "" && '\n' !in line && forall tail :: ParseLine(line + tail) == ParseLine(line)
  }

  ghost predicate AllClean(lines: seq<string>) {
    forall i :: 0 <= i < |lines| ==> Clean(lines[i])
  }

  lemma CleanIf(line: string, w: Option<RegWrite>)
    requires line != "" && '\n' !in line && forall tail :: ParseLine(line + tail) == w
    ensures Clean(line) && ParseLine(line) == w
  {
    assert line + "" == line;
  }

  lemma ParsedOne(line: string)
    ensures Parsed([line]) == match ParseLine(line) case Some(w) => [w] case None => []
  {
  }

  lemma {:induction false} LineEndAt(line: string, rest: string)
    requires '\n' !in line
    ensures LineEnd(line + "\n" + rest) == |line| + 1
  {
    var s := line + "\n" + rest;
    if line != "" {
      assert s[1..] == line[1..] + "\n" + rest;
      LineEndAt(line[1..], rest);
    }
  }

  lemma LinesCons(line: string, rest: string)
    requires '\n' !in line
    ensures Lines(line + "\n" + rest) == [line + "\n"] + Lines(rest)
  {
    var s := line + "\n" + rest;
    LineEndAt(line, rest);
    assert s[..|line| + 1] == line + "\n" && s[|line| + 1..] == rest;
  }

  lemma LastLine(line: string)
    requires Clean(line)
    ensures Lines(line) == [line]
  {
    assert line[..LineEnd(line)] == line && line[LineEnd(line)..] == "";
  }

  /** Joining printed lines, splitting the file again and parsing is parsing the lines. */
  lemma {:induction false} JoinParses(lines: seq<string>)
    requires AllClean(lines)
    ensures Parsed(Lines(Join(lines))) == Parsed(lines)
    decreases |lines|
  {
    if |lines| == 1 {
      LastLine(lines[0]);
      assert lines == [lines[0]];
    } else if lines != [] {
      var line, rest := lines[0], lines[1..];
      assert AllClean(rest);
      JoinParses(rest);
      LinesCons(line, Join(rest));
      ParsedAppend([line + "\n"], Lines(Join(rest)));
      ParsedAppend([line], rest);
      assert lines == [line] + rest;
      ParsedOne(line + "\n");
      ParsedOne(line);
    }
  }

  // ---- the whole chain ------------------------------------------------------------------------------

  lemma NoNewline(cls: Class, s: string)
    requires All(cls, s) && (cls == Digit || cls == HexDigit)
    ensures '\n' !in s
  {
  }

  lemma WriteLineClean(bar: string, offset: string, value: string)
    requires IsDigits(Digit, bar) && IsDigits(HexDigit, offset) && IsDigits(HexDigit, value)
    ensures Clean(WriteLine(bar, offset, value))
    ensures ParseLine(WriteLine(bar, offset, value)) == Some(GroupsToWrite([bar, offset, value]))
  {
    NoNewline(Digit, bar); NoNewline(HexDigit, offset); NoNewline(HexDigit, value);
    var line, w := WriteLine(bar, offset, value), Some(GroupsToWrite([bar, offset, value]));
    forall tail ensures ParseLine(line + tail) == w { WriteLineParses(bar, offset, value, tail); }
    CleanIf(line, w);
  }

  lemma ReadLineClean(offset: string)
    requires All(HexDigit, offset)
    ensures Clean(ReadLine(offset)) && ParseLine(ReadLine(offset)) == None
  {
    NoNewline(HexDigit, offset);
    forall tail ensures ParseLine(ReadLine(offset) + tail) == None { ReadLineIgnored(offset, tail); }
    CleanIf(ReadLine(offset), None);
  }

  lemma KickstartClean()
    ensures Clean(KICKSTART_LINE) && ParseLine(KICKSTART_LINE) == Some(KICKSTART)
  {
    KickstartOneLine();
    forall tail ensures ParseLine(KICKSTART_LINE + tail) == Some(KICKSTART) { KickstartParses(tail); }
    CleanIf(KICKSTART_LINE, Some(KICKSTART));
  }

  // Every printed line is clean.

  lemma PrintedClean(line: string)
    ensures AllClean(Printed(line))
  {
    if Search(VFIO_WRITE, line).Some? {
      var groups := Search(VFIO_WRITE, line).value;
      SearchFits(VFIO_WRITE, line);
      WriteGroups(groups);
      WriteLineClean(groups[0], groups[1], groups[2]);
    }
    if Search(VFIO_READ, line).Some? {
      var groups := Search(VFIO_READ, line).value;
      SearchFits(VFIO_READ, line);
      ReadGroups(groups);
      ReadLineClean(groups[1]);
    }
  }

  lemma {:induction false} PrintedAllClean(lines: seq<string>)
    ensures AllClean(PrintedAll(lines))
  {
    if lines != [] {
      PrintedClean(lines[0]);
      PrintedAllClean(lines[1..]);
      CleanAppend(Printed(lines[0]), PrintedAll(lines[1..]));
    }
  }

  lemma CleanAppend(a: seq<string>, b: seq<string>)
    requires AllClean(a) && AllClean(b)
    ensures AllClean(a + b)
  {
  }

  lemma CleanAdd(a: seq<string>, line: string, add: bool)
    requires AllClean(a) && Clean(line)
    ensures AllClean(a + if add then [line] else [])
  {
  }

  lemma KickstartAdd(a: seq<string>, add: bool)
    requires AllClean(a)
    ensures AllClean(a + if add then [KICKSTART_LINE] else [])
  {
    KickstartClean();
    CleanAdd(a, KICKSTART_LINE, add);
  }

  lemma WindowClean(body: seq<string>)
    ensures AllClean(WindowOutput(body))
  {
    var n := FirstStop(body);
    PrintedAllClean(body[..n]);
    KickstartAdd(PrintedAll(body[..n]), n < |body|);
  }

  lemma OutputClean(lines: seq<string>)
    ensures AllClean(Output(lines))
  {
    match AfterMarker(lines)
    case Some(body) => WindowClean(body);
    case None =>
  }

  // What the printed lines parse to.

  lemma PrintedWriteParsed(line: string)
    requires !IsMarker(line)
    ensures Parsed(PrintedWrite(line)) == Traced(line)
  {
    if Search(VFIO_WRITE, line).Some? {
      var groups := Search(VFIO_WRITE, line).value;
      SearchFits(VFIO_WRITE, line);
      WriteGroups(groups);
      WriteLineClean(groups[0], groups[1], groups[2]);
      assert groups == [groups[0], groups[1], groups[2]];
      ParsedOne(WriteLine(groups[0], groups[1], groups[2]));
    }
  }

  lemma PrintedReadParsed(line: string)
    ensures Parsed(PrintedRead(line)) == []
  {
    if Search(VFIO_READ, line).Some? {
      var groups := Search(VFIO_READ, line).value;
      SearchFits(VFIO_READ, line);
      ReadGroups(groups);
      ReadLineClean(groups[1]);
      ParsedOne(ReadLine(groups[1]));
    }
  }

  lemma PrintedParsed(line: string)
    ensures Parsed(Printed(line)) == Traced(line)
  {
    if !IsMarker(line) {
      PrintedWriteParsed(line);
      PrintedReadParsed(line);
      ParsedAppend(PrintedWrite(line), PrintedRead(line));
    }
  }

  lemma {:induction false} PrintedAllParsed(lines: seq<string>)
    ensures Parsed(PrintedAll(lines)) == TracedAll(lines)
  {
    if lines != [] {
      PrintedParsed(lines[0]);
      PrintedAllParsed(lines[1..]);
      ParsedAppend(Printed(lines[0]), PrintedAll(lines[1..]));
    }
  }

  lemma ParsedAdd(lines: seq<string>, line: string, w: RegWrite, add: bool)
    requires ParseLine(line) == Some(w)
    ensures Parsed(lines + if add then [line] else []) == Parsed(lines) + if add then [w] else []
  {
    if add {
      ParsedSnoc(lines, line);
    } else {
      assert lines + [] == lines && Parsed(lines) + [] == Parsed(lines);
    }
  }

  lemma WindowParsed(body: seq<string>)
    ensures Parsed(WindowOutput(body)) == WindowTraced(body)
  {
    var n := FirstStop(body);
    PrintedAllParsed(body[..n]);
    KickstartClean();
    ParsedAdd(PrintedAll(body[..n]), KICKSTART_LINE, KICKSTART, n < |body|);
  }

  lemma OutputParsed(lines: seq<string>)
    ensures Parsed(Output(lines)) == WindowWrites(lines)
  {
    match AfterMarker(lines)
    case Some(body) => WindowParsed(body);
    case None =>
  }

  /** The extractor's output file. */
  function ExtractedText(trace: string): string {
    Join(Output(Lines(trace)))
  }

  /** The extracted text, parsed as golden text, is the window's region writes and the
      kick-start; the lines printed for reads vanish. */
  lemma ExtractedParses(trace: string)
    ensures Parsed(Lines(ExtractedText(trace))) == WindowWrites(Lines(trace))
  {
    OutputClean(Lines(trace));
    OutputParsed(Lines(trace));
    JoinParses(Output(Lines(trace)));
  }

  /** In range, and not taken for a poll. */
  predicate Replayable(w: RegWrite) {
    Packable(w) && w.bar != 0xFF
  }

  predicate AllReplayable(ws: seq<RegWrite>) {
    forall i :: 0 <= i < |ws| ==> Replayable(ws[i])
  }

  /** The write as the card sees it; a region that is not one of its three BARs does not reach it. */
  function BusEvent(w: RegWrite): History
    requires Replayable(w)
  {
    if w.bar == 0 then [Wr(Dsp, w.offset, w.value as bv32)]
    else if w.bar == 1 then [Wr(Reg, w.offset, w.value as bv32)]
    else if w.bar == 2 then [Wr(Port, w.offset, w.value as bv32)]
    else []
  }

  function BusEvents(ws: seq<RegWrite>): History
    requires AllReplayable(ws)
  {
    if ws == [] then [] else BusEvent(ws[0]) + BusEvents(ws[1..])
  }

  lemma ReplayablePackable(ws: seq<RegWrite>)
    requires AllReplayable(ws)
    ensures AllPackable(ws)
  {
  }

  lemma ReplayOne(hw: Hardware, w: RegWrite, log: History)
    requires Replayable(w)
    ensures ReplayEntry(hw, None, ToEntry(w), log) == log + BusEvent(w)
  {
    BarByte(w.bar);
  }

  lemma {:induction false} ReplayWrites(hw: Hardware, ws: seq<RegWrite>, log: History)
    requires AllReplayable(ws) && AllPackable(ws)
    ensures ReplayAll(hw, None, ToEntries(ws), log) == log + BusEvents(ws)
  {
    if ws == [] {
      assert log + BusEvents(ws) == log;
    } else {
      var w, rest := ws[0], ws[1..];
      assert ws == [w] + rest;
      ToEntriesCons(w, rest);
      ReplayOne(hw, w, log);
      ReplayWrites(hw, rest, log + BusEvent(w));
      ReplayHead(hw, None, ToEntry(w), ToEntries(rest), log);
      EventsAssociate(log, BusEvent(w), BusEvents(rest));
    }
  }

  lemma EventsAssociate(a: History, b: History, c: History)
    ensures (a + b) + c == a + (b + c)
  {
  }

  lemma OneFile(text: string)
    ensures AllLines([text]) == Lines(text)
  {
  }

  /** For every trace, the calls in the extracted text are the window's writes, so it compiles
      without error iff they are in range; and when none is a poll, replaying the compiled blob
      with no DMA buffer puts exactly those writes on the bus, in trace order. */
  lemma TraceToBus(hw: Hardware, trace: string, ws: seq<RegWrite>, log: History)
    requires ws == Parsed(AllLines([ExtractedText(trace)]))
    ensures ws == WindowWrites(Lines(trace))
    ensures AllReplayable(ws) ==> AllPackable(ws) && ReplayCompiled(hw, None, ws, log) == log + BusEvents(ws)
  {
    OneFile(ExtractedText(trace));
    ExtractedParses(trace);
    if AllReplayable(ws) { CompiledWrites(hw, ws, log); }
  }

  lemma CompiledWrites(hw: Hardware, ws: seq<RegWrite>, log: History)
    requires AllReplayable(ws)
    ensures AllPackable(ws) && ReplayCompiled(hw, None, ws, log) == log + BusEvents(ws)
  {
    ReplayablePackable(ws);
    DecodeEncode(ToEntries(ws));
    ReplayWrites(hw, ws, log);
  }
}
