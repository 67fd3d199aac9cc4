/** What full initialization does on the bus, access by access. */
module FullInitTraffic {
  import opened Pal
  import opened Blob
  import opened Replay
  import opened Fpga
  import opened FullInit
  import opened FullInitMemory

  // ---- the FPGA upload --------------------------------------------------------------------------

  /** Reset and set-up, then the control register only, then the finish and a status read. */
  lemma LoadMoves(hw: Hardware, image: seq<bv8>, log: History) returns (vals: seq<bv32>)
    requires image != []
    ensures Moves(LoadLog(hw, Some(image), log))
         == Moves(log) + [W(Port, 0x4, 0x1), W(Reg, 0x30_0000, 0xE0), W(Reg, 0x30_0004, 0xE0)]
            + ControlMoves(vals) + [W(Reg, 0x30_0004, 0xC0), W(Port, 0x8, 0x0), R(Port, 0x0)]
    ensures vals != [] && vals[0] == 0 && forall i :: 0 < i < |vals| ==> Based(vals[i])
  {
    vals := CtrlWrites(Driver, image);
    var upload := Upload(Driver, image);
    UploadMoves(Driver, image, vals);
    MovesAppend(log, upload);
    ReadMoves(hw, log + upload, Port, 0x0);
    CtrlBase(Driver, image);
  }

  lemma UploadMoves(loader: Loader, image: seq<bv8>, vals: seq<bv32>)
    requires vals == CtrlWrites(loader, image)
    ensures Moves(Upload(loader, image))
         == [W(Port, 0x4, 0x1), W(Reg, 0x30_0000, 0xE0), W(Reg, 0x30_0004, 0xE0)]
            + ControlMoves(vals) + [W(Reg, 0x30_0004, 0xC0), W(Port, 0x8, 0x0)]
  {
    assert Moves(OnCtrl(vals)) == ControlMoves(vals);
    MovesAppend(SETUP, OnCtrl(vals));
    MovesAppend(SETUP + OnCtrl(vals), FINISH);
  }

  lemma CtrlBase(loader: Loader, image: seq<bv8>)
    ensures var vals := CtrlWrites(loader, image);
            vals != [] && vals[0] == 0 && forall i :: 0 < i < |vals| ==> Based(vals[i])
  {
    SerialBase(loader, Bits(image));
  }

  function ControlMoves(vals: seq<bv32>): seq<Move> {
    seq(|vals|, i requires 0 <= i < |vals| => W(Reg, 0x30_0008, vals[i]))
  }

  /** Besides clock and data, only bit 6 is set. */
  predicate Based(v: bv32) {
    v & 0xFFFF_FF5F == 0x40
  }

  lemma {:induction false} SerialBase(loader: Loader, bits: seq<bool>)
    ensures forall i :: 0 <= i < |Serial(loader, bits)| ==> Based(Serial(loader, bits)[i])
  {
    if bits != [] {
      SerialBase(loader, bits[..|bits| - 1]);
      TripleBase(loader, bits);
    }
  }

  lemma TripleBase(loader: Loader, bits: seq<bool>)
    requires bits != []
    ensures var t := Triple(loader, bits); Based(t[0]) && Based(t[1]) && Based(t[2])
  {
    BitBase(bits[|bits| - 1]);
    if |bits| > 1 { BitBase(bits[|bits| - 2]); }
  }

  lemma BitBase(bit: bool)
    ensures Based(Val(bit)) && Based(ValHigh(bit)) && Based(BASE_VAL)
  {
  }

  // ---- kick-start ---------------------------------------------------------------------------------

  lemma KickMoves(hw: Hardware, log: History)
    ensures Moves(Kickstart(hw, log))
         == Moves(log) + [W(Port, 0x0, 0x0), W(Dsp, 0x3_FFFC, 0x0), W(Port, 0x4, 0x2),
                          R(Dsp, 0x3_FFFC), R(Port, 0x0), R(Port, 0x4)]
  {
  }

  // ---- port loop -------------------------------------------------------------------------------------

  lemma ConfigureMoves(hw: Hardware, log: History)
    ensures Moves(PortConfigure(hw, log))
         == Moves(log) + [R(Dsp, 0x6FD8), W(Dsp, 0x7040, 0x0), R(Dsp, 0x6FEC), W(Dsp, 0x6FEC, 0x0),
                          R(Port, 0x0), W(Reg, 0x40_0000, 0x10)]
  {
  }

  /** The periodic check: each status word is cleared iff it was not zero, in the driver's order. */
  lemma StatusEvents(hw: Hardware, log: History) returns (s1: bv32, s2: bv32, s3: bv32)
    ensures StatusCheck(hw, log)
         == log + [Rd(Dsp, 0x70D4, s1)] + (if s1 != 0 then [Wr(Dsp, 0x70D4, 0x0)] else [])
            + [Rd(Dsp, 0x70DC, s2), Rd(Dsp, 0x70D8, s3)]
            + (if s3 != 0 then [Wr(Dsp, 0x70D8, 0x0)] else []) + (if s2 != 0 then [Wr(Dsp, 0x70DC, 0x0)] else [])
  {
    s1 := hw(log, Dsp, 0x70D4);
    var log1 := ClearIf(Read(hw, log, Dsp, 0x70D4), s1, 0x70D4);
    s2 := hw(log1, Dsp, 0x70DC);
    s3 := hw(Read(hw, log1, Dsp, 0x70DC), Dsp, 0x70D8);
  }

  lemma ReadMoves(hw: Hardware, log: History, bar: Bar, offset: u32)
    ensures Moves(Read(hw, log, bar, offset)) == Moves(log) + [R(bar, offset)]
  {
  }

  // How often: 32 strobes, and a status check in every eighth iteration.

  lemma ConfigureCount(hw: Hardware, log: History, m: Move)
    requires m == W(Reg, 0x40_0000, 0x10) || m == R(Dsp, 0x70D4)
    ensures Count(PortConfigure(hw, log), m) == Count(log, m) + if m.W? then 1 else 0
  {
    var log1 := Read(hw, log, Dsp, 0x6FD8);
    var log2 := log1 + [Wr(Dsp, 0x7040, 0x0)];
    var log3 := Read(hw, log2, Dsp, 0x6FEC);
    var log4 := log3 + [Wr(Dsp, 0x6FEC, 0x0)];
    var log5 := Read(hw, log4, Port, 0x0);
    CountSnoc(log, Rd(Dsp, 0x6FD8, hw(log, Dsp, 0x6FD8)), m);
    CountSnoc(log1, Wr(Dsp, 0x7040, 0x0), m);
    CountSnoc(log2, Rd(Dsp, 0x6FEC, hw(log2, Dsp, 0x6FEC)), m);
    CountSnoc(log3, Wr(Dsp, 0x6FEC, 0x0), m);
    CountSnoc(log4, Rd(Port, 0x0, hw(log4, Port, 0x0)), m);
    CountSnoc(log5, Wr(Reg, 0x40_0000, 0x10), m);
  }

  lemma ClearCount(log: History, status: bv32, offset: u32, m: Move)
    requires m == W(Reg, 0x40_0000, 0x10) || m == R(Dsp, 0x70D4)
    ensures Count(ClearIf(log, status, offset), m) == Count(log, m)
  {
    if status != 0 { CountSnoc(log, Wr(Dsp, offset, 0x0), m); }
  }

  lemma StatusCount(hw: Hardware, log: History, m: Move)
    requires m == W(Reg, 0x40_0000, 0x10) || m == R(Dsp, 0x70D4)
    ensures Count(StatusCheck(hw, log), m) == Count(log, m) + if m.R? then 1 else 0
  {
    var s1 := hw(log, Dsp, 0x70D4);
    var log1 := ClearIf(Read(hw, log, Dsp, 0x70D4), s1, 0x70D4);
    var s2 := hw(log1, Dsp, 0x70DC);
    var log2 := Read(hw, log1, Dsp, 0x70DC);
    var s3 := hw(log2, Dsp, 0x70D8);
    var log3 := ClearIf(Read(hw, log2, Dsp, 0x70D8), s3, 0x70D8);
    CountSnoc(log, Rd(Dsp, 0x70D4, s1), m);
    ClearCount(Read(hw, log, Dsp, 0x70D4), s1, 0x70D4, m);
    CountSnoc(log1, Rd(Dsp, 0x70DC, s2), m);
    CountSnoc(log2, Rd(Dsp, 0x70D8, s3), m);
    ClearCount(Read(hw, log2, Dsp, 0x70D8), s3, 0x70D8, m);
    ClearCount(log3, s2, 0x70DC, m);
  }

  /** What iteration `i` adds to the count. */
  function Rise(m: Move, i: nat): nat {
    if m.W? || i % 8 == 7 then 1 else 0
  }

  lemma IterationCount(hw: Hardware, log: History, i: nat, m: Move)
    requires m == W(Reg, 0x40_0000, 0x10) || m == R(Dsp, 0x70D4)
    ensures Count(PortIteration(hw, log, i), m) == Count(log, m) + Rise(m, i)
  {
    ConfigureCount(hw, log, m);
    StatusCount(hw, PortConfigure(hw, log), m);
  }

  /** What `n` iterations add to it. */
  function Rises(m: Move, n: nat): nat {
    if m.W? then n else n / 8
  }

  lemma RisesNext(m: Move, n: nat)
    requires n > 0
    ensures Rises(m, n) == Rises(m, n - 1) + Rise(m, n - 1)
  {
  }

  /** Every iteration adds to the count what it should. */
  ghost predicate Adds(step: FullInit.Step, m: Move) {
    forall log, i :: Count(step(log, i), m) == Count(log, m) + Rise(m, i)
  }

  lemma AddsAt(step: FullInit.Step, log: History, i: nat, m: Move)
    requires Adds(step, m)
    ensures Count(step(log, i), m) == Count(log, m) + Rise(m, i)
  {
  }

  lemma {:induction false} IterateCount(step: FullInit.Step, log: History, n: nat, m: Move)
    requires Adds(step, m)
    ensures Count(Iterate(step, log, n), m) == Count(log, m) + Rises(m, n)
    decreases n
  {
    if n > 0 {
      var before := Iterate(step, log, n - 1);
      IterateCount(step, log, n - 1, m);
      RisesNext(m, n);
      AddsAt(step, before, n - 1, m);
      assert Iterate(step, log, n) == step(before, n - 1);
    }
  }

  lemma PortLoopCount(hw: Hardware, log: History, m: Move)
    requires m == W(Reg, 0x40_0000, 0x10) || m == R(Dsp, 0x70D4)
    ensures Count(PortLoop(hw, log), m) == Count(log, m) + if m.W? then 32 else 4
  {
    forall log, i ensures Count(PortStep(hw)(log, i), m) == Count(log, m) + Rise(m, i) {
      IterationCount(hw, log, i, m);
    }
    IterateCount(PortStep(hw), log, PORT_ITERATIONS, m);
  }

  lemma PortLoopCounts(hw: Hardware, log: History)
    ensures Count(PortLoop(hw, log), W(Reg, 0x40_0000, 0x10)) == Count(log, W(Reg, 0x40_0000, 0x10)) + 32
    ensures Count(PortLoop(hw, log), R(Dsp, 0x70D4)) == Count(log, R(Dsp, 0x70D4)) + 4
  {
    PortLoopCount(hw, log, W(Reg, 0x40_0000, 0x10));
    PortLoopCount(hw, log, R(Dsp, 0x70D4));
  }

  // ---- the final check --------------------------------------------------------------------------------

  /** 64K zero writes, the shadow read, up to 2000 reads of the sync status until one is zero, and a
      read of the port status. */
  lemma HwInitTraffic(hw: Hardware, mapped: bool, log: History) returns (zeroed: History, n: nat)
    ensures |zeroed| == 0x1_0000 && forall i :: 0 <= i < |zeroed| ==> zeroed[i] == Wr(Dsp, 4 * i, 0)
    ensures var checked := if mapped then Read(hw, log + zeroed, Reg, 0x00) else log + zeroed;
            && n <= 2000 && (forall k :: 0 <= k < n - 1 ==> Answer(hw, checked, Dsp, 0x70D0, k) != 0)
            && (n == 2000 || (n > 0 && Answer(hw, checked, Dsp, 0x70D0, n - 1) == 0))
            && HwInitLog(hw, mapped, log) == Read(hw, Reads(hw, checked, Dsp, 0x70D0, n), Port, 0x0)
  {
    zeroed := Zeros(RAM_WORDS);
    n := PollReadsToFirstMatch(hw, ShadowRead(hw, mapped, log + zeroed), Dsp, 0x70D0, 0, 2000);
  }

  // ---- the words that start the card -------------------------------------------------------------------

  lemma KickPort(hw: Hardware, log: History)
    ensures LastWrite(Kickstart(hw, log), Port, 0x4) == Some(0x2)
  {
    var kicked := log + [Wr(Port, 0x0, 0x0)] + [Wr(Dsp, 0x3_FFFC, 0x0)] + [Wr(Port, 0x4, 0x2)];
    assert log + KICK == kicked;
    var log2 := Read(hw, kicked, Dsp, 0x3_FFFC);
    LastWriteSnoc(log + [Wr(Port, 0x0, 0x0)] + [Wr(Dsp, 0x3_FFFC, 0x0)], Wr(Port, 0x4, 0x2), Port, 0x4);
    KickReads(hw, kicked, log2, Read(hw, log2, Port, 0x0), Port, 0x4);
  }

  lemma {:induction false} IterateStrobes(hw: Hardware, start: Memory, log: History, n: nat)
    requires n > 0
    ensures LastWrite(Iterate(PortStep(hw), log, n), Reg, 0x40_0000) == Some(0x10)
  {
    var before := Iterate(PortStep(hw), log, n - 1);
    StepIs(hw, before, n - 1);
    ConfigureWord(hw, before, Reg, 0x40_0000);
    StatusCheckKeeps(hw, start, PortConfigure(hw, before), Reg, 0x40_0000);
  }

  /** Full initialization without a malformed sequence ends with the DSP started and the ports strobed. */
  lemma StartedWords(hw: Hardware, start: Memory, dma: Option<bv32>, mapped: bool, fw: Option<seq<bv8>>,
                     init: Option<seq<bv8>>, log: History)
    requires init.Some? ==> |init.value| % 9 == 0
    ensures Mem(start, FullInitLog(hw, dma, mapped, fw, init, log), Port, 0x4) == 0x2
    ensures Mem(start, FullInitLog(hw, dma, mapped, fw, init, log), Reg, 0x40_0000) == 0x10
  {
    var replayed := ReplayAll(hw, dma, Entries(init), BootLog(hw, fw, log));
    var kicked := Kickstart(hw, replayed);
    KickPort(hw, replayed);
    PortLoopKeeps(hw, start, kicked, Port, 0x4);
    IterateStrobes(hw, start, kicked, PORT_ITERATIONS);
    HwInitWord(hw, mapped, PortLoop(hw, kicked), Port, 0x4);
    HwInitWord(hw, mapped, PortLoop(hw, kicked), Reg, 0x40_0000);
  }
}
