/** The text the extractor writes for a traced driver, line by line. */
module Rendering {
  import opened Pal
  import opened Regex
  import opened Golden
  import opened Extract
  import opened RoundTrip
  import opened TraceFormat
  import opened FrontToBack

  /** The line for one access: a write as a call, a read as a delay. */
  function Rendered(a: Access): string {
    match a
    case RegionWrite(bar, offset, value) =>
      "    write_reg(fd, " + Notation(10, bar) + ", 0x" + Notation(16, offset) + ", 0x" + Notation(16, value) + ");"
    case RegionRead(_, offset, _) =>
      "    usleep(100);" + " // Emulate hardware delay for read at 0x" + Notation(16, offset)
  }

  /** A line for each access, in order; a repeated end of the upload has none. */
  function RenderedAll(name: string, accesses: seq<Access>): seq<string> {
    if accesses == [] then []
    else
      (if EndsUpload(name, accesses[0]) then [] else [Rendered(accesses[0])]) + RenderedAll(name, accesses[1..])
  }

  function RenderedBody(name: string, body: seq<Access>): seq<string> {
    var k := FirstKick(name, body);
    (if Visible(name) then RenderedAll(name, body[..k]) else [])
    + if k < |body| then ["    write_reg(fd, 1, 0x8, 0x10914221); // Kickstart!"] else []
  }

  /** The window's accesses and the kick-start. */
  function RenderedWindow(name: string, accesses: seq<Access>): seq<string> {
    match AfterEnd(name, accesses)
    case Some(body) => RenderedBody(name, body)
    case None => []
  }

  lemma WriteRendered(name: string, bar: string, offset: string, value: string)
    requires !Contains(name, "region") && IsAccess(bar, offset, value)
    requires !IsMarker(AccessText(WRITE_WORD, name, bar, offset, WRITE_MID, value, WRITE_TAIL))
    ensures Printed(AccessText(WRITE_WORD, name, bar, offset, WRITE_MID, value, WRITE_TAIL))
         == if Visible(name) then [WriteLine(bar, offset, value)] else []
  {
    SeenIffNoColon(name, bar, offset, value, WRITE_TAIL);
    WriteUnseen(name, bar, offset, value);
  }

  lemma ReadRendered(name: string, bar: string, offset: string, value: string)
    requires !Contains(name, "region") && IsAccess(bar, offset, value)
    ensures Printed(AccessText(READ_WORD, name, bar, offset, READ_MID, value, READ_TAIL))
         == if Visible(name) then [ReadLine(offset)] else []
  {
    ReadSeenIffNoColon(name, bar, offset, value);
    ReadUnseen(name, bar, offset, value);
  }

  lemma LineRendered(name: string, a: Access)
    requires DeviceName(name) && InRange(a)
    ensures Printed(AccessLine(name, a)) == if Visible(name) && !EndsUpload(name, a) then [Rendered(a)] else []
  {
    AccessDigits(a);
    LineMarks(name, a);
    var bar, offset, value := Notation(10, a.bar), Notation(16, a.offset), Notation(16, a.value);
    if a.RegionRead? {
      ReadRendered(name, bar, offset, value);
    } else if !EndsUpload(name, a) {
      WriteRendered(name, bar, offset, value);
    }
  }

  lemma {:induction false} AllRendered(name: string, accesses: seq<Access>)
    requires DeviceName(name) && AllInRange(accesses)
    ensures PrintedAll(AccessLines(name, accesses)) == if Visible(name) then RenderedAll(name, accesses) else []
  {
    if accesses != [] {
      LineRendered(name, accesses[0]);
      AllRendered(name, accesses[1..]);
      AccessLinesCons(name, accesses);
    }
  }

  lemma BodyRendered(name: string, body: seq<Access>)
    requires DeviceName(name) && AllInRange(body)
    ensures WindowOutput(AccessLines(name, body)) == RenderedBody(name, body)
  {
    var k := FirstKick(name, body);
    FirstKickLine(name, body);
    AllRendered(name, body[..k]);
    AccessLinesFrom(name, body, k);
  }

  lemma WindowRendered(name: string, accesses: seq<Access>)
    requires DeviceName(name) && AllInRange(accesses)
    ensures Output(AccessLines(name, accesses)) == RenderedWindow(name, accesses)
  {
    AfterMarkerLines(name, accesses);
    match AfterEnd(name, accesses)
    case Some(body) => BodyRendered(name, body);
    case None =>
  }

  // ---- the file -----------------------------------------------------------------------------

  /** `text` is these lines with a newline between each two of them. */
  predicate IsFileOf(text: string, lines: seq<string>) {
    if lines == [] then text == ""
    else if |lines| == 1 then text == lines[0]
    else
      var n := |lines[0]|;
      n < |text| && text[..n] == lines[0] && text[n] == '\n' && IsFileOf(text[n + 1..], lines[1..])
  }

  lemma {:induction false} JoinIsFile(lines: seq<string>)
    ensures IsFileOf(Join(lines), lines)
  {
    if |lines| > 1 {
      JoinIsFile(lines[1..]);
      var text := Join(lines);
      assert text == lines[0] + "\n" + Join(lines[1..]);
      assert text[|lines[0]| + 1..] == Join(lines[1..]);
    }
  }

  /** For every device and every list of accesses, the extracted file is the window's accesses
      one a line, each as a call or as a delay, and then the kick-start. */
  lemma FileRendered(name: string, accesses: seq<Access>)
    requires DeviceName(name) && AllInRange(accesses)
    ensures IsFileOf(ExtractedText(TraceText(name, accesses)), RenderedWindow(name, accesses))
  {
    TraceLines(name, accesses);
    WindowRendered(name, accesses);
    JoinIsFile(RenderedWindow(name, accesses));
  }
}
