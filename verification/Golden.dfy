/** The golden-text compiler: `write_reg(fd, bar, offset, value)` lines to an init blob. */
module Golden {
  import opened Pal
  import opened Regex
  import opened Blob
  import opened Replay
  import opened Translation

  // ---- numbers in text ------------------------------------------------------------------

  function DigitValue(ch: char): nat {
    if '0' <= ch <= '9' then ch as int - '0' as int
    else if 'a' <= ch <= 'f' then 10 + (ch as int - 'a' as int)
    else if 'A' <= ch <= 'F' then 10 + (ch as int - 'A' as int)
    else 0
  }

  function Number(radix: nat, digits: string): nat {
    if digits == "" then 0
    else radix * Number(radix, digits[..|digits| - 1]) + DigitValue(digits[|digits| - 1])
  }

  // ---- one line -------------------------------------------------------------------------

  /** A register write as the text names it; the numbers are unbounded. */
  datatype RegWrite = RegWrite(bar: nat, offset: nat, value: nat)

  /** \s*write_reg\s*\(\s*fd\s*,\s*(\d+)\s*,\s*(0x[0-9a-fA-F]+)\s*,\s*(0x[0-9a-fA-F]+)\s*\)
      The 0x prefixes are matched as literals, so a group here is the digits after it. */
  const WRITE_REG: Pattern :=
    Run(Space, 0, false, Lit("write_reg", Run(Space, 0, false, Lit("(", Run(Space, 0, false, Lit("fd", AFTER_FD))))))

  const AFTER_FD: Pattern :=
    Run(Space, 0, false, Lit(",", Run(Space, 0, false, Run(Digit, 1, true, AFTER_BAR))))

  const AFTER_BAR: Pattern :=
    Run(Space, 0, false, Lit(",", Run(Space, 0, false, Lit("0x", Run(HexDigit, 1, true, AFTER_OFFSET)))))

  const AFTER_OFFSET: Pattern :=
    Run(Space, 0, false, Lit(",", Run(Space, 0, false, Lit("0x", Run(HexDigit, 1, true, AFTER_VALUE)))))

  const AFTER_VALUE: Pattern := Run(Space, 0, false, Lit(")", End))

  lemma WriteRegDeterministic()
    ensures Deterministic(WRITE_REG)
  {
    assert Deterministic(AFTER_VALUE);
    assert Deterministic(AFTER_OFFSET);
    assert Deterministic(AFTER_BAR);
    assert Deterministic(AFTER_FD);
  }

  function GroupsToWrite(groups: seq<string>): RegWrite
    requires |groups| == 3
  {
    RegWrite(Number(10, groups[0]), Number(16, groups[1]), Number(16, groups[2]))
  }

  lemma WriteRegGroups(groups: seq<string>)
    requires GroupsFit(WRITE_REG, groups)
    ensures |groups| == 3
    ensures groups[0] != "" && All(Digit, groups[0])
    ensures groups[1] != "" && All(HexDigit, groups[1])
    ensures groups[2] != "" && All(HexDigit, groups[2])
  {
    var p := WRITE_REG;
    assert GroupsFit(p.rest, groups) && GroupsFit(p.rest.rest, groups);
    assert GroupsFit(p.rest.rest.rest, groups) && GroupsFit(p.rest.rest.rest.rest, groups);
    assert GroupsFit(p.rest.rest.rest.rest.rest, groups);
    assert GroupsFit(AFTER_FD, groups);
    BarGroup(groups);
    HexGroup(AFTER_BAR, AFTER_OFFSET, groups[1..]);
    HexGroup(AFTER_OFFSET, AFTER_VALUE, groups[1..][1..]);
    var p' := AFTER_VALUE;
    assert GroupsFit(p'.rest, groups[1..][1..][1..]) && GroupsFit(p'.rest.rest, groups[1..][1..][1..]);
    assert groups[1..][1..][1..] == [];
  }

  lemma BarGroup(groups: seq<string>)
    requires GroupsFit(AFTER_FD, groups)
    ensures groups != [] && groups[0] != "" && All(Digit, groups[0]) && GroupsFit(AFTER_BAR, groups[1..])
  {
    var p := AFTER_FD;
    assert GroupsFit(p.rest, groups) && GroupsFit(p.rest.rest, groups) && GroupsFit(p.rest.rest.rest, groups);
  }

  lemma HexGroup(p: Pattern, after: Pattern, groups: seq<string>)
    requires p == Run(Space, 0, false, Lit(",", Run(Space, 0, false, Lit("0x", Run(HexDigit, 1, true, after)))))
    requires GroupsFit(p, groups)
    ensures groups != [] && groups[0] != "" && All(HexDigit, groups[0]) && GroupsFit(after, groups[1..])
  {
    assert GroupsFit(p.rest, groups) && GroupsFit(p.rest.rest, groups) && GroupsFit(p.rest.rest.rest, groups);
    assert GroupsFit(p.rest.rest.rest.rest, groups);
  }

  function ParseLine(line: string): Option<RegWrite> {
    match Match(WRITE_REG, line)
    case None => None
    case Some(groups) =>
      assert |groups| == 3 by {
        MatchSound(WRITE_REG, line);
        DenotesFits(WRITE_REG, line, groups);
        WriteRegGroups(groups);
      }
      Some(GroupsToWrite(groups))
  }

  // ---- one entry --------------------------------------------------------------------------

  /** struct.pack('<BII', ...) accepts these and raises struct.error on the others. */
  predicate Packable(w: RegWrite) {
    w.bar < 0x100 && w.offset < 0x1_0000_0000 && w.value < 0x1_0000_0000
  }

  function ToEntry(w: RegWrite): Entry
    requires Packable(w)
  {
    Entry(w.bar as bv8, w.offset, w.value as bv32)
  }

  // ---- the compiler -------------------------------------------------------------------------

  /** The lines of a file, newlines kept. */
  function LineEnd(text: string): (n: nat)
    ensures n <= |text| && (text != "" ==> n > 0)
    ensures '\n' !in text ==> n == |text|
  {
    if text == "" then 0
    else if text[0] == '\n' then 1
    else 1 + LineEnd(text[1..])
  }

  function Lines(text: string): seq<string> {
    if text == "" then [] else [text[..LineEnd(text)]] + Lines(text[LineEnd(text)..])
  }

  function AllLines(files: seq<string>): seq<string> {
    if files == [] then [] else Lines(files[0]) + AllLines(files[1..])
  }

  function Parsed(lines: seq<string>): seq<RegWrite> {
    if lines == [] then []
    else
      match ParseLine(lines[0])
      case Some(w) => [w] + Parsed(lines[1..])
      case None => Parsed(lines[1..])
  }

  predicate AllPackable(ws: seq<RegWrite>) {
    forall i :: 0 <= i < |ws| ==> Packable(ws[i])
  }

  function ToEntries(ws: seq<RegWrite>): seq<Entry>
    requires AllPackable(ws)
  {
    seq(|ws|, i requires 0 <= i < |ws| => ToEntry(ws[i]))
  }

  /** The blob compiled from these calls. */
  function Compile(ws: seq<RegWrite>): (blob: seq<bv8>)
    requires AllPackable(ws)
    ensures |blob| % 9 == 0
  {
    Encode(ToEntries(ws))
  }

  /** How many writes are packed before the first one that is out of range. */
  function PackablePrefix(ws: seq<RegWrite>): (n: nat)
    ensures n <= |ws| && AllPackable(ws[..n])
    ensures n < |ws| ==> !Packable(ws[n])
  {
    if ws == [] || !Packable(ws[0]) then 0
    else
      var n := 1 + PackablePrefix(ws[1..]);
      assert forall i :: 0 < i < n ==> ws[..n][i] == ws[1..][..n - 1][i - 1];
      n
  }

  lemma {:induction false} ParsedAppend(a: seq<string>, b: seq<string>)
    ensures Parsed(a + b) == Parsed(a) + Parsed(b)
    decreases |a|
  {
    if a == [] {
      assert a + b == b;
    } else {
      assert (a + b)[1..] == a[1..] + b;
      ParsedAppend(a[1..], b);
    }
  }

  lemma {:induction false} AllLinesAppend(a: seq<string>, f: string)
    ensures AllLines(a + [f]) == AllLines(a) + Lines(f)
    decreases |a|
  {
    if a == [] {
      assert a + [f] == [f] && [f][1..] == [];
    } else {
      assert (a + [f])[1..] == a[1..] + [f];
      AllLinesAppend(a[1..], f);
    }
  }

  lemma EncodeAppend(es: seq<Entry>, e: Entry)
    ensures Encode(es + [e]) == Encode(es) + EncodeEntry(e)
  {
    EncodeConcat(es, [e]);
    assert [e][1..] == [];
  }

  lemma ParsedSnoc(lines: seq<string>, line: string)
    ensures Parsed(lines + [line])
         == Parsed(lines) + (match ParseLine(line) case Some(w) => [w] case None => [])
  {
    ParsedAppend(lines, [line]);
    assert [line][1..] == [];
  }

  /** The reading loop over one file. */
  method ReadFile(lines: seq<string>, before: seq<RegWrite>, ghost done: seq<string>) returns (entries: seq<RegWrite>)
    requires before == Parsed(done)
    ensures entries == Parsed(done + lines)
  {
    entries := before;
    assert done + lines[..0] == done;
    for i := 0 to |lines|
      invariant entries == Parsed(done + lines[..i])
    {
      assert done + lines[..i + 1] == (done + lines[..i]) + [lines[i]];
      ParsedSnoc(done + lines[..i], lines[i]);
      var result := ParseLine(lines[i]);
      if result.Some? {
        entries := entries + [result.value];
      }
    }
    assert lines[..|lines|] == lines;
  }

  method ReadEntries(files: seq<string>) returns (entries: seq<RegWrite>)
    ensures entries == Parsed(AllLines(files))
  {
    entries := [];
    for f := 0 to |files|
      invariant entries == Parsed(AllLines(files[..f]))
    {
      entries := ReadFile(Lines(files[f]), entries, AllLines(files[..f]));
      AllLinesAppend(files[..f], files[f]);
      assert files[..f + 1] == files[..f] + [files[f]];
    }
    assert files[..|files|] == files;
  }

  lemma CompileSnoc(ws: seq<RegWrite>, n: nat)
    requires n < |ws| && AllPackable(ws[..n]) && Packable(ws[n])
    ensures AllPackable(ws[..n + 1]) && Compile(ws[..n + 1]) == Compile(ws[..n]) + EncodeEntry(ToEntry(ws[n]))
  {
    assert ws[..n + 1] == ws[..n] + [ws[n]];
    assert ToEntries(ws[..n + 1]) == ToEntries(ws[..n]) + [ToEntry(ws[n])];
    EncodeAppend(ToEntries(ws[..n]), ToEntry(ws[n]));
  }

  /** The packing loop; packing an entry that is out of range raises an error. */
  method WriteBlob(entries: seq<RegWrite>) returns (blob: seq<bv8>, ok: bool)
    ensures ok == AllPackable(entries)
    ensures blob == Compile(entries[..PackablePrefix(entries)])
  {
    blob := [];
    for i := 0 to |entries|
      invariant AllPackable(entries[..i]) && blob == Compile(entries[..i])
    {
      if !Packable(entries[i]) {
        PrefixIs(entries, i);
        return blob, false;
      }
      CompileSnoc(entries, i);
      blob := blob + EncodeEntry(ToEntry(entries[i]));
    }
    PrefixIs(entries, |entries|);
    return blob, true;
  }

  /** Compile the inputs.  `ok` is false when packing raised an error; the blob then holds
      the entries written before it. */
  method Convert(files: seq<string>) returns (blob: seq<bv8>, ok: bool)
    ensures var ws := Parsed(AllLines(files));
            && ok == AllPackable(ws)
            && blob == Compile(ws[..PackablePrefix(ws)])
            && (ok ==> blob == Compile(ws))
  {
    var entries := ReadEntries(files);
    blob, ok := WriteBlob(entries);
    if ok { WholePrefix(entries); }
  }

  lemma PackableAt(ws: seq<RegWrite>, n: nat, i: nat)
    requires i < n <= |ws| && AllPackable(ws[..n])
    ensures Packable(ws[i])
  {
  }

  lemma PrefixIs(ws: seq<RegWrite>, n: nat)
    requires n <= |ws| && AllPackable(ws[..n]) && (n < |ws| ==> !Packable(ws[n]))
    ensures PackablePrefix(ws) == n
    ensures AllPackable(ws) <==> n == |ws|
  {
    var m := PackablePrefix(ws);
    if m < n {
      PackableAt(ws, n, m);
    } else if n < m {
      PackableAt(ws, m, n);
    }
    assert n == |ws| ==> ws[..n] == ws;
  }

  lemma WholePrefix(ws: seq<RegWrite>)
    requires AllPackable(ws)
    ensures ws[..PackablePrefix(ws)] == ws
  {
  }

  // ---- compiler correctness --------------------------------------------------------------------

  /** What replaying it does. */
  function ReplayCompiled(hw: Hardware, dma: Option<bv32>, ws: seq<RegWrite>, log: History): History
    requires AllPackable(ws)
  {
    ReplayAll(hw, dma, Decode(Compile(ws)), log)
  }

  /** Executing one `write_reg` call directly, by its numbers. */
  function Execute(hw: Hardware, dma: Option<bv32>, w: RegWrite, log: History): History
    requires Packable(w)
  {
    var offset, value := w.offset, Translate(dma, w.value as bv32);
    if w.bar == 0 then log + [Wr(Dsp, offset, value)]
    else if w.bar == 1 then log + [Wr(Reg, offset, value)]
    else if w.bar == 2 then log + [Wr(Port, offset, value)]
    else if w.bar == 255 then Poll(hw, log, Dsp, offset, value, 1000)
    else log
  }

  predicate LinesPackable(lines: seq<string>) {
    forall i :: 0 <= i < |lines| ==> ParseLine(lines[i]).Some? ==> Packable(ParseLine(lines[i]).value)
  }

  /** Executing a text line by line; a line that is not a `write_reg` call does nothing. */
  function ExecuteLines(hw: Hardware, dma: Option<bv32>, lines: seq<string>, log: History): History
    requires LinesPackable(lines)
  {
    if lines == [] then log
    else
      var log' := match ParseLine(lines[0]) case Some(w) => Execute(hw, dma, w, log) case None => log;
      ExecuteLines(hw, dma, lines[1..], log')
  }

  lemma BarByte(bar: nat)
    requires bar < 0x100
    ensures bar as bv8 == 0 <==> bar == 0
    ensures bar as bv8 == 1 <==> bar == 1
    ensures bar as bv8 == 2 <==> bar == 2
    ensures bar as bv8 == 0xFF <==> bar == 0xFF
  {
  }

  lemma ExecuteIsReplay(hw: Hardware, dma: Option<bv32>, w: RegWrite, log: History)
    requires Packable(w)
    ensures ReplayEntry(hw, dma, ToEntry(w), log) == Execute(hw, dma, w, log)
  {
    BarByte(w.bar);
  }

  lemma {:induction false} PackableLines(lines: seq<string>)
    ensures AllPackable(Parsed(lines)) <==> LinesPackable(lines)
  {
    if lines != [] {
      PackableLines(lines[1..]);
      var ws, rest := Parsed(lines), Parsed(lines[1..]);
      assert LinesPackable(lines) <==>
               (ParseLine(lines[0]).Some? ==> Packable(ParseLine(lines[0]).value)) && LinesPackable(lines[1..]) by {
        assert forall i :: 0 < i < |lines| ==> lines[i] == lines[1..][i - 1];
      }
      if ParseLine(lines[0]).Some? {
        assert ws == [ParseLine(lines[0]).value] + rest;
        assert AllPackable(ws) <==> Packable(ws[0]) && AllPackable(rest) by {
          assert forall i :: 0 < i < |ws| ==> ws[i] == rest[i - 1];
          assert forall i :: 0 <= i < |rest| ==> rest[i] == ws[i + 1];
        }
      }
    }
  }

  lemma ParsedHead(lines: seq<string>, w: RegWrite)
    requires lines != [] && ParseLine(lines[0]) == Some(w)
    ensures Parsed(lines) == [w] + Parsed(lines[1..])
  {
  }

  lemma ToEntriesCons(w: RegWrite, rest: seq<RegWrite>)
    requires Packable(w) && AllPackable(rest) && AllPackable([w] + rest)
    ensures ToEntries([w] + rest) == [ToEntry(w)] + ToEntries(rest)
  {
  }

  lemma ReplayHead(hw: Hardware, dma: Option<bv32>, e: Entry, es: seq<Entry>, log: History)
    ensures ReplayAll(hw, dma, [e] + es, log) == ReplayAll(hw, dma, es, ReplayEntry(hw, dma, e, log))
  {
  }

  lemma {:induction false} EntriesReplayLines(hw: Hardware, dma: Option<bv32>, lines: seq<string>, log: History)
    requires LinesPackable(lines) && AllPackable(Parsed(lines))
    ensures ReplayAll(hw, dma, ToEntries(Parsed(lines)), log) == ExecuteLines(hw, dma, lines, log)
  {
    if lines != [] {
      var rest := lines[1..];
      PackableLines(rest);
      assert LinesPackable(rest);
      match ParseLine(lines[0])
      case None => EntriesReplayLines(hw, dma, rest, log);
      case Some(w) =>
        ParsedHead(lines, w);
        ToEntriesCons(w, Parsed(rest));
        ReplayHead(hw, dma, ToEntry(w), ToEntries(Parsed(rest)), log);
        ExecuteIsReplay(hw, dma, w, log);
        EntriesReplayLines(hw, dma, rest, Execute(hw, dma, w, log));
    }
  }

  /** Compiler correctness: for every list of texts, the conversion succeeds iff every
      `write_reg` call is in range, and then replaying the blob is executing the calls, line by
      line, with translated values: the same reads and the same writes in the same order. */
  lemma CompilerCorrect(hw: Hardware, dma: Option<bv32>, files: seq<string>, log: History)
    ensures var ws, lines := Parsed(AllLines(files)), AllLines(files);
            && (AllPackable(ws) <==> LinesPackable(lines))
            && (AllPackable(ws) ==>
                 ReplayCompiled(hw, dma, ws, log) == ExecuteLines(hw, dma, lines, log))
  {
    var lines := AllLines(files);
    PackableLines(lines);
    if AllPackable(Parsed(lines)) {
      DecodeEncode(ToEntries(Parsed(lines)));
      EntriesReplayLines(hw, dma, lines, log);
    }
  }

  /** What the driver does with the compiled blob: it is refused exactly when the texts hold no
      call at all, and otherwise the card sees the execution of the texts. */
  method ReplayBlob(ctx: Ctx, files: seq<string>, blob: seq<bv8>) returns (ret: int)
    requires LinesPackable(AllLines(files)) && AllPackable(Parsed(AllLines(files)))
    requires blob == Compile(Parsed(AllLines(files)))
    modifies ctx.card
    ensures ret == if Parsed(AllLines(files)) == [] then -1 else 0
    ensures ctx.card.log == ExecuteLines(ctx.card.hw, ctx.Dma(), AllLines(files), old(ctx.card.log))
  {
    ghost var ws, hw, dma, was := Parsed(AllLines(files)), ctx.card.hw, ctx.Dma(), ctx.card.log;
    ghost var es := ToEntries(ws);
    assert ReplayAll(hw, dma, es, was) == ExecuteLines(hw, dma, AllLines(files), was) by {
      EntriesReplayLines(hw, dma, AllLines(files), was);
    }
    BlobAccepted(es);
    ret := ReplaySequence(ctx, Some(blob));
  }

  lemma BlobAccepted(es: seq<Entry>)
    ensures ValidSequence(Some(Encode(es))) <==> es != []
    ensures Decode(Encode(es)) == es
  {
    assert |Encode(es)| == 9 * |es|;
    DecodeEncode(es);
  }
}
