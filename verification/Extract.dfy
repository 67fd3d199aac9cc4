/** The trace extractor: the register writes between the end of the DSP upload and the
    kick-start, printed as golden text. */
module Extract {
  import opened Pal
  import opened Regex
  import opened Golden

  /** Python's `sub in text`. */
  predicate Contains(text: string, sub: string) {
    exists i :: 0 <= i <= |text| && sub <= text[i..]
  }

  predicate IsMarker(line: string) {
    Contains(line, "vfio_region_write") && Contains(line, "region0+0xb44") && Contains(line, "0x30000890")
  }

  predicate IsKickstart(line: string) {
    Contains(line, "10914221")
  }

  /** vfio_region_write\s+\([^:]+:region(\d+)\+(0x[0-9a-fA-F]+),\s+(0x[0-9a-fA-F]+) */
  const VFIO_WRITE: Pattern :=
    Lit("vfio_region_write", Run(Space, 1, false, Lit("(", Run(NotColon, 1, false, Lit(":region", VFIO_ARGS)))))

  const VFIO_ARGS: Pattern :=
    Run(Digit, 1, true, Lit("+0x", Run(HexDigit, 1, true, Lit(",", Run(Space, 1, false, VFIO_VALUE)))))

  const VFIO_VALUE: Pattern := Lit("0x", Run(HexDigit, 1, true, End))

  /** vfio_region_read\s+\([^:]+:region(\d+)\+(0x[0-9a-fA-F]+) */
  const VFIO_READ: Pattern :=
    Lit("vfio_region_read", Run(Space, 1, false, Lit("(", Run(NotColon, 1, false, Lit(":region",
      Run(Digit, 1, true, Lit("+0x", Run(HexDigit, 1, true, End))))))))

  lemma WriteGroups(groups: seq<string>)
    requires GroupsFit(VFIO_WRITE, groups)
    ensures |groups| == 3
    ensures groups[0] != "" && All(Digit, groups[0])
    ensures groups[1] != "" && All(HexDigit, groups[1])
    ensures groups[2] != "" && All(HexDigit, groups[2])
  {
    var p := VFIO_WRITE;
    assert GroupsFit(p.rest, groups) && GroupsFit(p.rest.rest, groups) && GroupsFit(p.rest.rest.rest, groups);
    assert GroupsFit(p.rest.rest.rest.rest, groups) && GroupsFit(VFIO_ARGS, groups);
    var q := VFIO_ARGS;
    assert GroupsFit(q.rest, groups[1..]) && GroupsFit(q.rest.rest, groups[1..]);
    assert GroupsFit(q.rest.rest.rest, groups[1..][1..]) && GroupsFit(q.rest.rest.rest.rest, groups[1..][1..]);
    assert GroupsFit(VFIO_VALUE, groups[1..][1..]);
    assert GroupsFit(VFIO_VALUE.rest, groups[1..][1..]);
    assert GroupsFit(VFIO_VALUE.rest.rest, groups[1..][1..][1..]);
  }

  lemma ReadGroups(groups: seq<string>)
    requires GroupsFit(VFIO_READ, groups)
    ensures |groups| == 2 && All(HexDigit, groups[1])
  {
    var p := VFIO_READ;
    assert GroupsFit(p.rest, groups) && GroupsFit(p.rest.rest, groups) && GroupsFit(p.rest.rest.rest, groups);
    assert GroupsFit(p.rest.rest.rest.rest, groups);
    var q := p.rest.rest.rest.rest.rest;
    assert GroupsFit(q, groups);
    assert GroupsFit(q.rest, groups[1..]) && GroupsFit(q.rest.rest, groups[1..]);
    assert GroupsFit(q.rest.rest.rest, groups[1..][1..]);
  }

  // ---- printed lines ----------------------------------------------------------------------

  function WriteLine(bar: string, offset: string, value: string): string {
    "    write_reg(fd, " + bar + ", 0x" + offset + ", 0x" + value + ");"
  }

  function ReadLine(offset: string): string {
    "    usleep(100);" + " // Emulate hardware delay for read at 0x" + offset
  }

  const KICKSTART_LINE := "    write_reg(fd, 1, 0x8, 0x10914221); // Kickstart!"

  // ---- the extraction loop ------------------------------------------------------------------

  function PrintedWrite(line: string): seq<string> {
    match Search(VFIO_WRITE, line)
    case None => []
    case Some(groups) =>
      SearchFits(VFIO_WRITE, line);
      WriteGroups(groups);
      [WriteLine(groups[0], groups[1], groups[2])]
  }

  function PrintedRead(line: string): seq<string> {
    match Search(VFIO_READ, line)
    case None => []
    case Some(groups) =>
      SearchFits(VFIO_READ, line);
      ReadGroups(groups);
      [ReadLine(groups[1])]
  }

  /** What one line of the window prints. */
  function Printed(line: string): seq<string> {
    if IsMarker(line) then [] else PrintedWrite(line) + PrintedRead(line)
  }

  /** The index of the first marker line, or the number of lines. */
  function FirstMarker(lines: seq<string>): (n: nat)
    ensures n <= |lines|
    ensures forall i :: 0 <= i < n ==> !IsMarker(lines[i])
    ensures n < |lines| ==> IsMarker(lines[n])
  {
    if lines == [] || IsMarker(lines[0]) then 0 else 1 + FirstMarker(lines[1..])
  }

  predicate Stops(line: string) {
    !IsMarker(line) && IsKickstart(line)
  }

  function FirstStop(lines: seq<string>): (n: nat)
    ensures n <= |lines|
    ensures forall i :: 0 <= i < n ==> !Stops(lines[i])
    ensures n < |lines| ==> Stops(lines[n])
  {
    if lines == [] || Stops(lines[0]) then 0 else 1 + FirstStop(lines[1..])
  }

  /** Everything printed for a stretch of the trace. */
  function PrintedAll(lines: seq<string>): seq<string> {
    if lines == [] then []
    else Printed(lines[0]) + PrintedAll(lines[1..])
  }

  /** What the window prints from `body` on: up to the first stop line, and the kick-start
      if there is one. */
  function WindowOutput(body: seq<string>): seq<string> {
    var n := FirstStop(body);
    PrintedAll(body[..n]) + if n < |body| then [KICKSTART_LINE] else []
  }

  /** The lines after the first marker, if there is one. */
  function AfterMarker(lines: seq<string>): Option<seq<string>> {
    var n := FirstMarker(lines);
    if n == |lines| then None else Some(lines[n + 1..])
  }

  function Output(lines: seq<string>): seq<string> {
    match AfterMarker(lines)
    case Some(body) => WindowOutput(body)
    case None => []
  }

  function Join(lines: seq<string>): string {
    if lines == [] then ""
    else if |lines| == 1 then lines[0]
    else lines[0] + "\n" + Join(lines[1..])
  }

  lemma FirstStopCons(line: string, rest: seq<string>)
    ensures FirstStop([line] + rest) == if Stops(line) then 0 else 1 + FirstStop(rest)
  {
  }

  lemma PrintedAllCons(line: string, rest: seq<string>)
    ensures PrintedAll([line] + rest) == Printed(line) + PrintedAll(rest)
  {
  }

  lemma WindowNext(line: string, rest: seq<string>)
    requires !Stops(line)
    ensures WindowOutput([line] + rest) == Printed(line) + WindowOutput(rest)
  {
    var n := FirstStop(rest);
    FirstStopCons(line, rest);
    assert ([line] + rest)[..n + 1] == [line] + rest[..n];
    PrintedAllCons(line, rest[..n]);
    Associate(Printed(line), PrintedAll(rest[..n]), if n < |rest| then [KICKSTART_LINE] else []);
  }

  lemma Associate(a: seq<string>, b: seq<string>, c: seq<string>)
    ensures a + (b + c) == (a + b) + c
  {
  }

  lemma FirstMarkerCons(line: string, rest: seq<string>)
    ensures FirstMarker([line] + rest) == if IsMarker(line) then 0 else 1 + FirstMarker(rest)
  {
  }

  lemma OutputMarker(line: string, rest: seq<string>)
    requires IsMarker(line)
    ensures Output([line] + rest) == WindowOutput(rest)
  {
  }

  lemma OutputOther(line: string, rest: seq<string>)
    requires !IsMarker(line)
    ensures Output([line] + rest) == Output(rest)
  {
    var n := FirstMarker(rest);
    FirstMarkerCons(line, rest);
    if n < |rest| { assert ([line] + rest)[n + 2..] == rest[n + 1..]; }
  }

  lemma OutputSkip(lines: seq<string>, i: nat)
    requires i < |lines| && !IsMarker(lines[i])
    ensures Output(lines[i..]) == Output(lines[i + 1..])
  {
    assert lines[i..] == [lines[i]] + lines[i + 1..];
    OutputOther(lines[i], lines[i + 1..]);
  }

  /** The loop's invariant: what is printed so far, followed by what the lines from `i` on
      print, is the whole output. */
  ghost predicate Progress(lines: seq<string>, i: nat, started: bool, output: seq<string>) {
    && i <= |lines|
    && (if started then Output(lines) == output + WindowOutput(lines[i..])
        else output == [] && Output(lines) == Output(lines[i..]))
  }

  lemma ProgressStart(lines: seq<string>)
    ensures Progress(lines, 0, false, [])
  {
  }

  lemma MarkerInWindow(line: string, rest: seq<string>)
    requires IsMarker(line)
    ensures WindowOutput([line] + rest) == WindowOutput(rest)
  {
    WindowNext(line, rest);
    assert Printed(line) == [];
  }

  lemma WindowSkip(lines: seq<string>, i: nat)
    requires i < |lines| && IsMarker(lines[i])
    ensures WindowOutput(lines[i..]) == WindowOutput(lines[i + 1..])
  {
    assert lines[i..] == [lines[i]] + lines[i + 1..];
    MarkerInWindow(lines[i], lines[i + 1..]);
  }

  lemma OutputStart(lines: seq<string>, i: nat)
    requires i < |lines| && IsMarker(lines[i])
    ensures Output(lines[i..]) == WindowOutput(lines[i + 1..])
  {
    assert lines[i..] == [lines[i]] + lines[i + 1..];
    OutputMarker(lines[i], lines[i + 1..]);
  }

  lemma WindowPrint(lines: seq<string>, i: nat)
    requires i < |lines| && !Stops(lines[i])
    ensures WindowOutput(lines[i..]) == Printed(lines[i]) + WindowOutput(lines[i + 1..])
  {
    assert lines[i..] == [lines[i]] + lines[i + 1..];
    WindowNext(lines[i], lines[i + 1..]);
  }

  lemma ProgressMarker(lines: seq<string>, i: nat, started: bool, output: seq<string>)
    requires i < |lines| && Progress(lines, i, started, output) && IsMarker(lines[i])
    ensures Progress(lines, i + 1, true, output)
  {
    if started { WindowSkip(lines, i); } else { OutputStart(lines, i); }
  }

  lemma ProgressStop(lines: seq<string>, i: nat, output: seq<string>)
    requires i < |lines| && Progress(lines, i, true, output) && Stops(lines[i])
    ensures Output(lines) == output + [KICKSTART_LINE]
  {
  }

  lemma ProgressPrint(lines: seq<string>, i: nat, output: seq<string>)
    requires i < |lines| && Progress(lines, i, true, output) && !Stops(lines[i])
    ensures Progress(lines, i + 1, true, output + Printed(lines[i]))
  {
    WindowPrint(lines, i);
    Associate(output, Printed(lines[i]), WindowOutput(lines[i + 1..]));
  }

  lemma ProgressSkip(lines: seq<string>, i: nat, output: seq<string>)
    requires i < |lines| && Progress(lines, i, false, output) && !IsMarker(lines[i])
    ensures Progress(lines, i + 1, false, output)
  {
    OutputSkip(lines, i);
  }

  lemma ProgressEnd(lines: seq<string>, started: bool, output: seq<string>)
    requires Progress(lines, |lines|, started, output)
    ensures output == Output(lines)
  {
  }

  /** The body of the loop inside the window. */
  method PrintLine(line: string, output: seq<string>) returns (output': seq<string>)
    requires !IsMarker(line)
    ensures output' == output + Printed(line)
  {
    output' := output + PrintedWrite(line);
    output' := output' + PrintedRead(line);
  }

  method Generate(trace: string) returns (text: string)
    ensures text == Join(Output(Lines(trace)))
  {
    var lines := Lines(trace);
    var output: seq<string> := [];
    var startParsing := false;
    ProgressStart(lines);
    for i := 0 to |lines|
      invariant Progress(lines, i, startParsing, output)
    {
      var line := lines[i];
      if IsMarker(line) {
        ProgressMarker(lines, i, startParsing, output);
        startParsing := true;
        continue;
      }
      if startParsing {
        if IsKickstart(line) {
          ProgressStop(lines, i, output);
          output := output + [KICKSTART_LINE];
          return Join(output);
        }
        ProgressPrint(lines, i, output);
        output := PrintLine(line, output);
      } else {
        ProgressSkip(lines, i, output);
      }
    }
    ProgressEnd(lines, startParsing, output);
    return Join(output);
  }
}
