/** The whole chain on a list of device accesses: traced, extracted, compiled and replayed. */
module FrontToBack {
  import opened Pal
  import opened Regex
  import opened Golden
  import opened Extract
  import opened RoundTrip
  import opened TraceFormat

  /** An access of the traced driver; a read comes with the value it returned. */
  datatype Access =
    | RegionWrite(bar: nat, offset: nat, value: nat)
    | RegionRead(bar: nat, offset: nat, value: nat)

  /** A device name keeps to its line and does not spell the tracer's word for a region. */
  predicate DeviceName(name: string) {
    '\n' !in name && !Contains(name, "region")
  }

  /** What the tracer prints for an access. */
  function AccessLine(name: string, a: Access): string {
    var bar, offset, value := Notation(10, a.bar), Notation(16, a.offset), Notation(16, a.value);
    match a
    case RegionWrite(_, _, _) => AccessText(WRITE_WORD, name, bar, offset, WRITE_MID, value, WRITE_TAIL)
    case RegionRead(_, _, _) => AccessText(READ_WORD, name, bar, offset, READ_MID, value, READ_TAIL)
  }

  function AccessLines(name: string, accesses: seq<Access>): seq<string> {
    seq(|accesses|, i requires 0 <= i < |accesses| => AccessLine(name, accesses[i]))
  }

  /** The trace file. */
  function TraceText(name: string, accesses: seq<Access>): string {
    if accesses == [] then "" else AccessLine(name, accesses[0]) + TraceText(name, accesses[1..])
  }

  // ---- what the chain should put on the bus ---------------------------------------------------

  /** A region that is not 255, and 32-bit words. */
  predicate InRange(a: Access) {
    a.bar < 0xFF && a.offset < 0x1_0000_0000 && a.value < 0x1_0000_0000
  }

  predicate AllInRange(accesses: seq<Access>) {
    forall i :: 0 <= i < |accesses| ==> InRange(accesses[i])
  }

  /** 0xb44, or any other offset that is written with these digits first. */
  predicate UploadOffset(offset: nat) {
    || offset == 0xB44 || 0xB440 <= offset <= 0xB44F || 0xB_4400 <= offset <= 0xB_44FF
    || 0xB4_4000 <= offset <= 0xB4_4FFF || 0xB44_0000 <= offset <= 0xB44_FFFF
    || 0xB440_0000 <= offset <= 0xB44F_FFFF
  }

  /** What is taken for the end of the upload.  The last word is also found in a device name. */
  predicate EndsUpload(name: string, a: Access) {
    && a.RegionWrite? && a.bar == 0 && UploadOffset(a.offset)
    && (a.value == 0x3000_0890 || Contains(name, UPLOAD_WORD))
  }

  /** What is taken for the kick-start: its value, wherever it stands. */
  predicate KicksOff(name: string, a: Access) {
    !EndsUpload(name, a) && (a.offset == 0x1091_4221 || a.value == 0x1091_4221 || Contains(name, CODE))
  }

  function FirstEnd(name: string, accesses: seq<Access>): (n: nat)
    ensures n <= |accesses|
    ensures forall i :: 0 <= i < n ==> !EndsUpload(name, accesses[i])
    ensures n < |accesses| ==> EndsUpload(name, accesses[n])
  {
    if accesses == [] || EndsUpload(name, accesses[0]) then 0 else 1 + FirstEnd(name, accesses[1..])
  }

  /** The accesses after the end of the upload, if it ends. */
  function AfterEnd(name: string, accesses: seq<Access>): Option<seq<Access>> {
    var n := FirstEnd(name, accesses);
    if n == |accesses| then None else Some(accesses[n + 1..])
  }

  function FirstKick(name: string, accesses: seq<Access>): (n: nat)
    ensures n <= |accesses|
    ensures forall i :: 0 <= i < n ==> !KicksOff(name, accesses[i])
    ensures n < |accesses| ==> KicksOff(name, accesses[n])
  {
    if accesses == [] || KicksOff(name, accesses[0]) then 0 else 1 + FirstKick(name, accesses[1..])
  }

  /** The writes among the accesses, in order; a repeated end of upload does not count. */
  function Writes(name: string, accesses: seq<Access>): seq<RegWrite> {
    if accesses == [] then []
    else
      var a := accesses[0];
      (if a.RegionWrite? && !EndsUpload(name, a) then [RegWrite(a.bar, a.offset, a.value)] else [])
      + Writes(name, accesses[1..])
  }

  /** The writes from the end of the upload to the kick-start, if the device's name can be seen,
      and then the kick-start, if there is one. */
  function WindowOf(name: string, accesses: seq<Access>): seq<RegWrite> {
    match AfterEnd(name, accesses)
    case Some(body) =>
      var k := FirstKick(name, body);
      (if Visible(name) then Writes(name, body[..k]) else []) + if k < |body| then [KICKSTART] else []
    case None => []
  }

  // ---- the tests as numbers ---------------------------------------------------------------------

  function Pow16(k: nat): nat {
    if k == 0 then 1 else 16 * Pow16(k - 1)
  }

  lemma {:induction false} NotationShort(n: nat, k: nat)
    requires k > 0 && n < Pow16(k)
    ensures |Notation(16, n)| <= k
    decreases k
  {
    if n >= 16 { NotationShort(n / 16, k - 1); }
  }

  /** Hexadecimal digits as a number is printed: lower case, no leading zero. */
  predicate Canonical(digits: string) {
    digits != "" && digits[0] != '0' && forall i :: 0 <= i < |digits| ==> DigitChar(DigitValue(digits[i])) == digits[i]
  }

  lemma {:induction false} NotationOfNumber(digits: string)
    requires Canonical(digits)
    ensures Number(16, digits) > 0 && Notation(16, Number(16, digits)) == digits
  {
    var init, last := digits[..|digits| - 1], digits[|digits| - 1];
    if init == "" {
      assert digits == [last];
      NumberStep(16, "", last);
    } else {
      NotationOfNumber(init);
      NotationStep(Number(16, init), DigitValue(last));
      assert digits == init + [last];
    }
  }

  lemma NotationStep(n: nat, d: nat)
    requires n > 0 && d < 16
    ensures Notation(16, 16 * n + d) == Notation(16, n) + [DigitChar(d)]
  {
    assert (16 * n + d) / 16 == n && (16 * n + d) % 16 == d;
  }

  lemma WholeWord(v: nat, digits: string)
    requires v < 0x1_0000_0000 && |digits| == 8 && Contains(Notation(16, v), digits)
    ensures v == Number(16, digits)
  {
    assert Pow16(8) == 0x1_0000_0000;
    NotationShort(v, 8);
    assert Notation(16, v) == digits;
    NumberOfNotation(16, v);
  }

  /** For a 32-bit number the kick-start test compares the value. */
  lemma CodeIsValue(v: nat)
    requires v < 0x1_0000_0000
    ensures Contains(Notation(16, v), CODE) <==> v == 0x1091_4221
  {
    KickstartValue();
    if Contains(Notation(16, v), CODE) { WholeWord(v, CODE); }
    if v == 0x1091_4221 {
      NotationOfNumber(CODE);
      ContainsAt(Notation(16, v), CODE, 0);
    }
  }

  lemma UploadValue()
    ensures Number(16, "30000890") == 0x3000_0890
  {
    var d1, d2, d3 := ['3', '0'], ['3', '0', '0', '0'], ['3', '0', '0', '0', '0', '8'];
    NumberStep2([], '3', '0');
    NumberStep2(d1, '0', '0');
    NumberStep2(d2, '0', '8');
    NumberStep2(d3, '9', '0');
    assert [] + ['3', '0'] == d1 && d1 + ['0', '0'] == d2 && d2 + ['0', '8'] == d3;
    assert d3 + ['9', '0'] == "30000890";
  }

  /** And so does the marker test for the word. */
  lemma UploadWordIsValue(v: nat)
    requires v < 0x1_0000_0000
    ensures "30000890" <= Notation(16, v) <==> v == 0x3000_0890
  {
    UploadValue();
    if "30000890" <= Notation(16, v) {
      ContainsAt(Notation(16, v), "30000890", 0);
      WholeWord(v, "30000890");
    }
    if v == 0x3000_0890 { NotationOfNumber("30000890"); }
  }

  lemma B44Value()
    ensures Number(16, "b44") == 0xB44
  {
    NumberStep(16, "", 'b');
    NumberStep(16, "b", '4');
    NumberStep(16, "b4", '4');
    assert "" + ['b'] == "b" && "b" + ['4'] == "b4" && "b4" + ['4'] == "b44";
  }

  lemma B44Step(n: nat)
    ensures "b44" <= Notation(16, n) <==> n == 0xB44 || (n >= 16 && "b44" <= Notation(16, n / 16))
  {
    B44Value();
    if n == 0xB44 { NotationOfNumber("b44"); }
    if "b44" <= Notation(16, n) && |Notation(16, n)| == 3 {
      assert Notation(16, n) == "b44";
      NumberOfNotation(16, n);
    }
  }

  /** For the offset it compares leading digits, which are ranges of 32-bit numbers. */
  lemma B44IsRanges(n: nat)
    requires n < 0x1_0000_0000
    ensures "b44" <= Notation(16, n) <==> UploadOffset(n)
  {
    B44Step(n);
    B44Step(n / 0x10);
    assert n / 0x10 / 16 == n / 0x100;
    B44Middle(n / 0x100);
  }

  /** The same for six digits. */
  lemma B44Middle(n: nat)
    requires n < 0x100_0000
    ensures "b44" <= Notation(16, n)
       <==> n == 0xB44 || 0xB440 <= n <= 0xB44F || 0xB_4400 <= n <= 0xB_44FF || 0xB4_4000 <= n <= 0xB4_4FFF
  {
    B44Step(n);
    B44Step(n / 0x10);
    assert n / 0x10 / 16 == n / 0x100;
    B44Low(n / 0x100);
  }

  /** And for four. */
  lemma B44Low(n: nat)
    requires n < 0x1_0000
    ensures "b44" <= Notation(16, n) <==> n == 0xB44 || 0xB440 <= n <= 0xB44F
  {
    B44Step(n);
    B44Step(n / 0x10);
    assert n / 0x10 / 16 == n / 0x100;
    NotationShort(n / 0x100, 2);
  }

  // ---- one line ---------------------------------------------------------------------------------

  lemma AccessDigits(a: Access)
    ensures IsAccess(Notation(10, a.bar), Notation(16, a.offset), Notation(16, a.value))
  {
    NotationIsDigits(10, a.bar);
    NotationIsDigits(16, a.offset);
    NotationIsDigits(16, a.value);
  }

  lemma {:induction false} NotationZero(n: nat)
    ensures Notation(10, n) == "0" <==> n == 0
  {
    NumberOfNotation(10, n);
    NumberOfNotation(10, 0);
  }

  lemma LineMarks(name: string, a: Access)
    requires DeviceName(name) && InRange(a)
    ensures IsMarker(AccessLine(name, a)) <==> EndsUpload(name, a)
  {
    AccessDigits(a);
    var bar, offset, value := Notation(10, a.bar), Notation(16, a.offset), Notation(16, a.value);
    match a
    case RegionWrite(_, _, _) =>
      MarkerIff(name, bar, offset, value);
      NotationZero(a.bar);
      B44IsRanges(a.offset);
      UploadWordIsValue(a.value);
    case RegionRead(_, _, _) => ReadUnseen(name, bar, offset, value);
  }

  lemma BarHasNoCode(bar: nat)
    requires bar < 0xFF
    ensures !Contains(Notation(10, bar), CODE)
  {
    if bar >= 100 { assert |Notation(10, bar / 10 / 10)| == 1; }
    if bar >= 10 { assert |Notation(10, bar / 10)| <= 2; }
    TooShort(Notation(10, bar), CODE);
  }

  lemma LineKicks(name: string, a: Access)
    requires DeviceName(name) && InRange(a)
    ensures IsKickstart(AccessLine(name, a))
       <==> a.offset == 0x1091_4221 || a.value == 0x1091_4221 || Contains(name, CODE)
  {
    BarHasNoCode(a.bar);
    CodeIsValue(a.offset);
    CodeIsValue(a.value);
    var bar, offset, value := Notation(10, a.bar), Notation(16, a.offset), Notation(16, a.value);
    match a
    case RegionWrite(_, _, _) => KickstartIff(WRITE_WORD, name, bar, offset, WRITE_MID, value, WRITE_TAIL);
    case RegionRead(_, _, _) => KickstartIff(READ_WORD, name, bar, offset, READ_MID, value, READ_TAIL);
  }

  lemma LineStops(name: string, a: Access)
    requires DeviceName(name) && InRange(a)
    ensures Stops(AccessLine(name, a)) <==> KicksOff(name, a)
  {
    LineMarks(name, a);
    LineKicks(name, a);
  }

  lemma NumbersOf(bar: nat, offset: nat, value: nat)
    ensures GroupsToWrite([Notation(10, bar), Notation(16, offset), Notation(16, value)])
         == RegWrite(bar, offset, value)
  {
    NumberOfNotation(10, bar);
    NumberOfNotation(16, offset);
    NumberOfNotation(16, value);
  }

  lemma LineTraced(name: string, a: Access)
    requires DeviceName(name) && InRange(a)
    ensures Traced(AccessLine(name, a))
         == if Visible(name) && a.RegionWrite? && !EndsUpload(name, a) then [RegWrite(a.bar, a.offset, a.value)] else []
  {
    AccessDigits(a);
    LineMarks(name, a);
    var bar, offset, value := Notation(10, a.bar), Notation(16, a.offset), Notation(16, a.value);
    match a
    case RegionWrite(_, _, _) =>
      SeenIffNoColon(name, bar, offset, value, WRITE_TAIL);
      NumbersOf(a.bar, a.offset, a.value);
    case RegionRead(_, _, _) => ReadUnseen(name, bar, offset, value);
  }

  // ---- the file ---------------------------------------------------------------------------------

  lemma TextEnds(word: string, name: string, bar: string, offset: string, mid: string, value: string, tail: string)
    ensures AccessText(word, name, bar, offset, mid, value, tail + "\n")
         == AccessText(word, name, bar, offset, mid, value, tail) + "\n"
  {
  }

  lemma TextOneLine(word: string, name: string, bar: string, offset: string, mid: string, value: string, tail: string)
    requires '\n' !in word && '\n' !in name && '\n' !in mid && '\n' !in tail && IsAccess(bar, offset, value)
    ensures '\n' !in AccessText(word, name, bar, offset, mid, value, tail)
  {
  }

  /** A line without its newline. */
  function AccessStem(name: string, a: Access): string {
    var bar, offset, value := Notation(10, a.bar), Notation(16, a.offset), Notation(16, a.value);
    match a
    case RegionWrite(_, _, _) => AccessText(WRITE_WORD, name, bar, offset, WRITE_MID, value, ", 4)")
    case RegionRead(_, _, _) => AccessText(READ_WORD, name, bar, offset, READ_MID, value, "")
  }

  lemma StemOneLine(name: string, a: Access)
    requires DeviceName(name)
    ensures AccessLine(name, a) == AccessStem(name, a) + "\n" && '\n' !in AccessStem(name, a)
  {
    AccessDigits(a);
    var bar, offset, value := Notation(10, a.bar), Notation(16, a.offset), Notation(16, a.value);
    match a
    case RegionWrite(_, _, _) =>
      TextEnds(WRITE_WORD, name, bar, offset, WRITE_MID, value, ", 4)");
      TextOneLine(WRITE_WORD, name, bar, offset, WRITE_MID, value, ", 4)");
    case RegionRead(_, _, _) =>
      assert READ_TAIL == "" + "\n";
      TextEnds(READ_WORD, name, bar, offset, READ_MID, value, "");
      TextOneLine(READ_WORD, name, bar, offset, READ_MID, value, "");
  }

  lemma LinesStep(line: string, stem: string, rest: string)
    requires line == stem + "\n" && '\n' !in stem
    ensures Lines(line + rest) == [line] + Lines(rest)
  {
    LinesCons(stem, rest);
  }

  lemma AccessLinesCons(name: string, accesses: seq<Access>)
    requires accesses != []
    ensures AccessLines(name, accesses) == [AccessLine(name, accesses[0])] + AccessLines(name, accesses[1..])
  {
  }

  lemma AccessLinesFrom(name: string, accesses: seq<Access>, n: nat)
    requires n <= |accesses|
    ensures AccessLines(name, accesses)[n..] == AccessLines(name, accesses[n..])
    ensures AccessLines(name, accesses)[..n] == AccessLines(name, accesses[..n])
  {
  }

  lemma {:induction false} TraceLines(name: string, accesses: seq<Access>)
    requires DeviceName(name)
    ensures Lines(TraceText(name, accesses)) == AccessLines(name, accesses)
  {
    if accesses != [] {
      TraceLines(name, accesses[1..]);
      StemOneLine(name, accesses[0]);
      LinesStep(AccessLine(name, accesses[0]), AccessStem(name, accesses[0]), TraceText(name, accesses[1..]));
      AccessLinesCons(name, accesses);
    }
  }

  // ---- the window -------------------------------------------------------------------------------

  lemma FirstEndLine(name: string, accesses: seq<Access>)
    requires DeviceName(name) && AllInRange(accesses)
    ensures FirstMarker(AccessLines(name, accesses)) == FirstEnd(name, accesses)
  {
    var lines := AccessLines(name, accesses);
    forall i | 0 <= i < |accesses| ensures IsMarker(lines[i]) <==> EndsUpload(name, accesses[i]) {
      LineMarks(name, accesses[i]);
    }
  }

  lemma FirstKickLine(name: string, accesses: seq<Access>)
    requires DeviceName(name) && AllInRange(accesses)
    ensures FirstStop(AccessLines(name, accesses)) == FirstKick(name, accesses)
  {
    var lines := AccessLines(name, accesses);
    forall i | 0 <= i < |accesses| ensures Stops(lines[i]) <==> KicksOff(name, accesses[i]) {
      LineStops(name, accesses[i]);
    }
  }

  lemma {:induction false} TracedWrites(name: string, accesses: seq<Access>)
    requires DeviceName(name) && AllInRange(accesses)
    ensures TracedAll(AccessLines(name, accesses)) == if Visible(name) then Writes(name, accesses) else []
  {
    if accesses != [] {
      LineTraced(name, accesses[0]);
      TracedWrites(name, accesses[1..]);
      AccessLinesCons(name, accesses);
    }
  }

  lemma BodyTraced(name: string, body: seq<Access>)
    requires DeviceName(name) && AllInRange(body)
    ensures var k := FirstKick(name, body);
            WindowTraced(AccessLines(name, body))
              == (if Visible(name) then Writes(name, body[..k]) else []) + if k < |body| then [KICKSTART] else []
  {
    var k := FirstKick(name, body);
    FirstKickLine(name, body);
    TracedWrites(name, body[..k]);
    AccessLinesFrom(name, body, k);
  }

  lemma AfterMarkerLines(name: string, accesses: seq<Access>)
    requires DeviceName(name) && AllInRange(accesses)
    ensures AfterMarker(AccessLines(name, accesses))
         == match AfterEnd(name, accesses) case Some(body) => Some(AccessLines(name, body)) case None => None
  {
    FirstEndLine(name, accesses);
    var n := FirstEnd(name, accesses);
    if n < |accesses| { AccessLinesFrom(name, accesses, n + 1); }
  }

  lemma WindowTracedIs(name: string, accesses: seq<Access>)
    requires DeviceName(name) && AllInRange(accesses)
    ensures WindowWrites(AccessLines(name, accesses)) == WindowOf(name, accesses)
  {
    AfterMarkerLines(name, accesses);
    match AfterEnd(name, accesses)
    case Some(body) => BodyTraced(name, body);
    case None =>
  }

  // ---- front to back ----------------------------------------------------------------------------

  lemma {:induction false} WritesReplayable(name: string, accesses: seq<Access>)
    requires AllInRange(accesses)
    ensures AllReplayable(Writes(name, accesses))
  {
    if accesses != [] { WritesReplayable(name, accesses[1..]); }
  }

  lemma KickstartReplayable(ws: seq<RegWrite>, seen: bool, add: bool)
    requires AllReplayable(ws)
    ensures AllReplayable((if seen then ws else []) + if add then [KICKSTART] else [])
  {
  }

  lemma WindowReplayable(name: string, accesses: seq<Access>)
    requires AllInRange(accesses)
    ensures AllReplayable(WindowOf(name, accesses))
  {
    match AfterEnd(name, accesses)
    case None =>
    case Some(body) =>
      var k := FirstKick(name, body);
      WritesReplayable(name, body[..k]);
      KickstartReplayable(Writes(name, body[..k]), Visible(name), k < |body|);
  }

  /** What the bus gets in the end: the traced accesses extracted, compiled and replayed. */
  function Calls(name: string, accesses: seq<Access>): seq<RegWrite> {
    Parsed(AllLines([ExtractedText(TraceText(name, accesses))]))
  }

  /** For every device and every list of accesses: the calls in the extracted text are the writes
      from the end of the upload to the kick-start, and the kick-start; or the kick-start alone
      if the device's name has a colon.  Compiled and replayed with no DMA buffer they are exactly
      what the card sees, in order. */
  lemma TracedToBus(hw: Hardware, name: string, accesses: seq<Access>, log: History)
    requires DeviceName(name) && AllInRange(accesses)
    ensures var ws := Calls(name, accesses);
            && ws == WindowOf(name, accesses)
            && AllReplayable(ws) && AllPackable(ws)
            && ReplayCompiled(hw, None, ws, log) == log + BusEvents(WindowOf(name, accesses))
  {
    TraceLines(name, accesses);
    WindowTracedIs(name, accesses);
    WindowReplayable(name, accesses);
    TraceToBus(hw, TraceText(name, accesses), Calls(name, accesses), log);
  }

  // ---- names with a colon -----------------------------------------------------------------------

  const KICKSTART_EVENT: Event := Wr(Reg, 0x8, 0x1091_4221)

  lemma OneEvent(w: RegWrite)
    requires Replayable(w)
    ensures AllReplayable([w]) && BusEvents([w]) == BusEvent(w)
  {
    assert [w][1..] == [];
  }

  lemma WordOf(n: nat, word: bv32)
    requires n == word as int
    ensures n as bv32 == word
  {
  }

  lemma KickstartEvents()
    ensures AllReplayable([]) && BusEvents([]) == []
    ensures AllReplayable([KICKSTART]) && BusEvents([KICKSTART]) == [KICKSTART_EVENT]
  {
    OneEvent(KICKSTART);
    WordOf(KICKSTART.value, 0x1091_4221);
  }

  /** A name with a colon: all that reaches the bus is the kick-start, if there is one. */
  lemma ColonLosesAll(hw: Hardware, name: string, accesses: seq<Access>, log: History)
    requires DeviceName(name) && ':' in name && AllInRange(accesses)
    ensures AllPackable(Calls(name, accesses))
    ensures var body := AfterEnd(name, accesses);
            ReplayCompiled(hw, None, Calls(name, accesses), log)
              == if body.Some? && FirstKick(name, body.value) < |body.value| then log + [KICKSTART_EVENT] else log
  {
    TracedToBus(hw, name, accesses, log);
    KickstartEvents();
    InvisibleWindow(name, accesses);
    assert log + [] == log;
  }

  lemma InvisibleWindow(name: string, accesses: seq<Access>)
    requires !Visible(name)
    ensures var body := AfterEnd(name, accesses);
            WindowOf(name, accesses)
              == if body.Some? && FirstKick(name, body.value) < |body.value| then [KICKSTART] else []
  {
  }

  const UPLOAD_LAST: Access := RegionWrite(0, 0xB44, 0x3000_0890)
  const KICKSTART_WRITE: Access := RegionWrite(1, 0x8, 0x1091_4221)

  const PCI_NAME := "0000:06:01.0"
  const PCI_TRACE: seq<Access> := [UPLOAD_LAST, RegionWrite(0, 0x6FB8, 0x3), KICKSTART_WRITE]

  lemma PlainName(name: string)
    requires forall i :: 0 <= i < |name| ==> name[i] !in "rx9\n"
    ensures DeviceName(name) && !Contains(name, UPLOAD_WORD) && !Contains(name, CODE)
  {
    Missing(name, "region", 'r');
    Missing(name, UPLOAD_WORD, 'x');
    Missing(name, CODE, '9');
  }

  /** For instance, on a device named by its PCI address: the write to BAR0 0x6fb8 is lost. */
  lemma PciWriteLost(hw: Hardware, log: History)
    ensures AllPackable(Calls(PCI_NAME, PCI_TRACE))
    ensures ReplayCompiled(hw, None, Calls(PCI_NAME, PCI_TRACE), log) == log + [KICKSTART_EVENT]
  {
    PlainName(PCI_NAME);
    assert PCI_NAME[4] == ':';
    ColonLosesAll(hw, PCI_NAME, PCI_TRACE, log);
    assert FirstEnd(PCI_NAME, PCI_TRACE) == 0;
    var body := [RegionWrite(0, 0x6FB8, 0x3), KICKSTART_WRITE];
    assert PCI_TRACE[1..] == body;
    assert KicksOff(PCI_NAME, body[1]);
  }

  // ---- the window that is meant -----------------------------------------------------------------

  function FirstOf(a: Access, accesses: seq<Access>): (n: nat)
    ensures n <= |accesses|
    ensures forall i :: 0 <= i < n ==> accesses[i] != a
    ensures n < |accesses| ==> accesses[n] == a
  {
    if accesses == [] || accesses[0] == a then 0 else 1 + FirstOf(a, accesses[1..])
  }

  function AllWrites(accesses: seq<Access>): seq<RegWrite> {
    if accesses == [] then []
    else
      var a := accesses[0];
      (if a.RegionWrite? then [RegWrite(a.bar, a.offset, a.value)] else []) + AllWrites(accesses[1..])
  }

  /** Every write of these accesses up to the first kick-start, and the kick-start. */
  function MeantBody(body: seq<Access>): seq<RegWrite> {
    var k := FirstOf(KICKSTART_WRITE, body);
    AllWrites(body[..k]) + if k < |body| then [KICKSTART] else []
  }

  /** The window runs from BAR0 0xb44 = 0x30000890 to BAR1 0x8 = 0x10914221, and holds all the writes
      between them. */
  predicate IsMeant(name: string, accesses: seq<Access>) {
    var n := FirstEnd(name, accesses);
    && n == FirstOf(UPLOAD_LAST, accesses)
    && (n < |accesses| ==>
          && FirstKick(name, accesses[n + 1..]) == FirstOf(KICKSTART_WRITE, accesses[n + 1..])
          && WindowOf(name, accesses) == MeantBody(accesses[n + 1..]))
  }

  /** What is first taken for the end of the upload is its last write, what is then first taken for
      the kick-start is the kick-start, and nothing in between is taken for the end again. */
  predicate TakesRight(name: string, accesses: seq<Access>) {
    var n := FirstEnd(name, accesses);
    n < |accesses| ==>
      && accesses[n] == UPLOAD_LAST
      && BodyRight(name, accesses[n + 1..])
  }

  predicate BodyRight(name: string, body: seq<Access>) {
    var k := FirstKick(name, body);
    && (k < |body| ==> body[k] == KICKSTART_WRITE)
    && forall i :: 0 <= i < k ==> !EndsUpload(name, body[i])
  }

  lemma FirstEndMeant(name: string, accesses: seq<Access>)
    ensures var n := FirstEnd(name, accesses);
            n == FirstOf(UPLOAD_LAST, accesses) <==> (n < |accesses| ==> accesses[n] == UPLOAD_LAST)
  {
    assert EndsUpload(name, UPLOAD_LAST);
  }

  lemma FirstKickMeant(name: string, body: seq<Access>)
    ensures var k := FirstKick(name, body);
            k == FirstOf(KICKSTART_WRITE, body) <==> (k < |body| ==> body[k] == KICKSTART_WRITE)
  {
    assert KicksOff(name, KICKSTART_WRITE);
  }

  /** A write that is taken for the end of the upload is dropped, and so the lists differ in length. */
  lemma {:induction false} DroppedIff(name: string, accesses: seq<Access>)
    ensures |Writes(name, accesses)| <= |AllWrites(accesses)|
    ensures |Writes(name, accesses)| == |AllWrites(accesses)|
       <==> forall i :: 0 <= i < |accesses| ==> !EndsUpload(name, accesses[i])
    ensures |Writes(name, accesses)| == |AllWrites(accesses)| <==> Writes(name, accesses) == AllWrites(accesses)
  {
    if accesses != [] {
      DroppedIff(name, accesses[1..]);
      assert (forall i :: 0 <= i < |accesses| ==> !EndsUpload(name, accesses[i])) <==>
               !EndsUpload(name, accesses[0])
               && forall i :: 0 <= i < |accesses[1..]| ==> !EndsUpload(name, accesses[1..][i]) by {
        assert forall i :: 0 < i < |accesses| ==> accesses[i] == accesses[1..][i - 1];
      }
    }
  }

  lemma BodyMeantIff(name: string, body: seq<Access>)
    requires Visible(name)
    ensures var k := FirstKick(name, body);
            (k == FirstOf(KICKSTART_WRITE, body)
             && Writes(name, body[..k]) + (if k < |body| then [KICKSTART] else []) == MeantBody(body))
            <==> BodyRight(name, body)
  {
    var k := FirstKick(name, body);
    FirstKickMeant(name, body);
    DroppedIff(name, body[..k]);
    SameTail(Writes(name, body[..k]), AllWrites(body[..k]), if k < |body| then [KICKSTART] else []);
  }

  lemma SameTail(a: seq<RegWrite>, b: seq<RegWrite>, tail: seq<RegWrite>)
    ensures a + tail == b + tail ==> |a| == |b|
  {
    assert |a + tail| == |a| + |tail| && |b + tail| == |b| + |tail|;
  }

  /** The extracted window is the one that is meant iff each of its ends is taken right. */
  lemma MeantIff(name: string, accesses: seq<Access>)
    requires Visible(name)
    ensures IsMeant(name, accesses) <==> TakesRight(name, accesses)
  {
    var n := FirstEnd(name, accesses);
    FirstEndMeant(name, accesses);
    if n < |accesses| { BodyMeantIff(name, accesses[n + 1..]); }
  }

  const EARLY_TRACE: seq<Access> :=
    [RegionWrite(0, 0xB440, 0x3000_0890), RegionWrite(1, 0x10, 0x1), UPLOAD_LAST, KICKSTART_WRITE]

  /** For instance: the same word written to 0xb440 opens the window early, and a write from before
      the end of the upload comes through. */
  lemma EarlyWindow(name: string)
    requires DeviceName(name) && Visible(name) && !Contains(name, UPLOAD_WORD) && !Contains(name, CODE)
    ensures AllInRange(EARLY_TRACE) && !IsMeant(name, EARLY_TRACE)
    ensures WindowOf(name, EARLY_TRACE) == [RegWrite(1, 0x10, 0x1), KICKSTART]
    ensures MeantBody(EARLY_TRACE[3..]) == [KICKSTART]
  {
    MeantIff(name, EARLY_TRACE);
    assert FirstEnd(name, EARLY_TRACE) == 0;
    var w, body := RegionWrite(1, 0x10, 0x1), [RegionWrite(1, 0x10, 0x1), UPLOAD_LAST, KICKSTART_WRITE];
    assert EARLY_TRACE[1..] == body && EARLY_TRACE[3..] == [KICKSTART_WRITE];
    assert !KicksOff(name, body[0]) && !KicksOff(name, body[1]) && KicksOff(name, body[2]);
    assert FirstKick(name, body) == 2 && body[..2] == [w, UPLOAD_LAST];
    assert [w, UPLOAD_LAST][1..] == [UPLOAD_LAST] && [UPLOAD_LAST][1..] == [];
    assert Writes(name, [UPLOAD_LAST]) == [];
    assert FirstOf(KICKSTART_WRITE, [KICKSTART_WRITE]) == 0 && [KICKSTART_WRITE][..0] == [];
  }
}
