/** The whole bring-up: FPGA, DSP RAM clearing, sequence replay, kick-start, port loop and
    the final sync check. */
module FullInit {
  import opened Pal
  import opened Hw
  import opened Blob
  import opened Translation
  import opened Replay
  import opened Fpga

  const RAM_WORDS: nat := 0x1_0000
  const SYNC_POLL_MS := 2000
  const PORT_ITERATIONS := 32

  // ---- zeroing ------------------------------------------------------------------------------

  /** The byte offset of a word of DSP RAM. */
  function WordOffset(i: nat): u32
    requires i < RAM_WORDS
  {
    i * 4
  }

  /** The first `n` writes of the zeroing loop. */
  function Zeros(n: nat): History
    requires n <= RAM_WORDS
  {
    seq(n, i requires 0 <= i < n => Wr(Dsp, WordOffset(i), 0))
  }

  lemma ZerosStep(n: nat)
    requires n < RAM_WORDS
    ensures Zeros(n + 1) == Zeros(n) + [Wr(Dsp, WordOffset(n), 0)]
  {
  }

  method ZeroDspRam(ctx: Ctx)
    modifies ctx.card
    ensures ctx.card.log == old(ctx.card.log) + Zeros(RAM_WORDS)
  {
    ghost var was := ctx.card.log;
    for i := 0 to RAM_WORDS
      invariant ctx.card.log == was + Zeros(i)
    {
      ZerosStep(i);
      ctx.card.Write32(Dsp, WordOffset(i), 0);
    }
  }

  // ---- kick-start and port loop -----------------------------------------------------------------

  const KICK: History := [Wr(Port, 0x0, 0x0), Wr(Dsp, 0x3_FFFC, 0x0), Wr(Port, 0x4, 0x2)]

  function Kickstart(hw: Hardware, log: History): History {
    Read(hw, Read(hw, Read(hw, log + KICK, Dsp, 0x3_FFFC), Port, 0x0), Port, 0x4)
  }

  method DspKickstart(ctx: Ctx)
    modifies ctx.card
    ensures ctx.card.log == Kickstart(ctx.card.hw, old(ctx.card.log))
  {
    ghost var was := ctx.card.log;
    ctx.card.Write32(Port, 0x0, 0x0);
    ctx.card.Write32(Dsp, 0x3_FFFC, 0x0);
    ctx.card.Write32(Port, 0x4, 0x2);
    assert ctx.card.log == was + KICK;
    var _ := ctx.card.Read32(Dsp, 0x3_FFFC);
    var _ := ctx.card.Read32(Port, 0x0);
    var _ := ctx.card.Read32(Port, 0x4);
  }

  /** A write that happens only if the value read before it was not zero. */
  function ClearIf(log: History, status: bv32, offset: u32): History {
    if status != 0 then log + [Wr(Dsp, offset, 0x0)] else log
  }

  function StatusCheck(hw: Hardware, log: History): History {
    var s1 := hw(log, Dsp, 0x70D4);
    var log1 := ClearIf(Read(hw, log, Dsp, 0x70D4), s1, 0x70D4);
    var s2 := hw(log1, Dsp, 0x70DC);
    var log2 := Read(hw, log1, Dsp, 0x70DC);
    var s3 := hw(log2, Dsp, 0x70D8);
    var log3 := ClearIf(Read(hw, log2, Dsp, 0x70D8), s3, 0x70D8);
    ClearIf(log3, s2, 0x70DC)
  }

  function PortConfigure(hw: Hardware, log: History): History {
    var log1 := Read(hw, log, Dsp, 0x6FD8) + [Wr(Dsp, 0x7040, 0x0)];
    var log2 := Read(hw, log1, Dsp, 0x6FEC) + [Wr(Dsp, 0x6FEC, 0x0)];
    Read(hw, log2, Port, 0x0) + [Wr(Reg, 0x40_0000, 0x10)]
  }

  function PortIteration(hw: Hardware, log: History, iter: nat): History {
    var log' := PortConfigure(hw, log);
    if iter % 8 == 7 then StatusCheck(hw, log') else log'
  }

  type Step = (History, nat) -> History

  /** A counted loop: `step` for the counter values 0 .. n-1. */
  function Iterate(step: Step, log: History, n: nat): History {
    if n == 0 then log else step(Iterate(step, log, n - 1), n - 1)
  }

  function PortStep(hw: Hardware): Step {
    (log: History, iter: nat) => PortIteration(hw, log, iter)
  }

  function PortLoop(hw: Hardware, log: History): History {
    Iterate(PortStep(hw), log, PORT_ITERATIONS)
  }

  method ConfigurePorts(ctx: Ctx)
    modifies ctx.card
    ensures ctx.card.log == PortConfigure(ctx.card.hw, old(ctx.card.log))
  {
    var _ := ctx.card.Read32(Dsp, 0x6FD8);
    ctx.card.Write32(Dsp, 0x7040, 0x0);
    var _ := ctx.card.Read32(Dsp, 0x6FEC);
    ctx.card.Write32(Dsp, 0x6FEC, 0x0);
    var _ := ctx.card.Read32(Port, 0x0);        // only logged
    ctx.card.Write32(Reg, 0x40_0000, 0x10);
  }

  method CheckStatus(ctx: Ctx)
    modifies ctx.card
    ensures ctx.card.log == StatusCheck(ctx.card.hw, old(ctx.card.log))
  {
    var s1 := ctx.card.Read32(Dsp, 0x70D4);
    if s1 != 0 { ctx.card.Write32(Dsp, 0x70D4, 0x0); }
    var s2 := ctx.card.Read32(Dsp, 0x70DC);
    var s3 := ctx.card.Read32(Dsp, 0x70D8);
    if s3 != 0 { ctx.card.Write32(Dsp, 0x70D8, 0x0); }
    if s2 != 0 { ctx.card.Write32(Dsp, 0x70DC, 0x0); }
  }

  method ConfigureAndCheck(ctx: Ctx, iter: nat)
    modifies ctx.card
    ensures ctx.card.log == PortIteration(ctx.card.hw, old(ctx.card.log), iter)
  {
    ConfigurePorts(ctx);
    if iter % 8 == 7 {
      CheckStatus(ctx);
    }
  }

  method PostInitPortLoop(ctx: Ctx)
    modifies ctx.card
    ensures ctx.card.log == PortLoop(ctx.card.hw, old(ctx.card.log))
  {
    ghost var was, step := ctx.card.log, PortStep(ctx.card.hw);
    for iter := 0 to PORT_ITERATIONS
      invariant ctx.card.log == Iterate(step, was, iter)
    {
      ConfigureAndCheck(ctx, iter);
      StepIs(ctx.card.hw, Iterate(step, was, iter), iter);
    }
  }

  lemma StepIs(hw: Hardware, log: History, iter: nat)
    ensures PortStep(hw)(log, iter) == PortIteration(hw, log, iter)
  {
  }

  // ---- the final check -----------------------------------------------------------------------------

  function ShadowRead(hw: Hardware, mapped: bool, log: History): History {
    if mapped then Read(hw, log, Reg, PORT_CONF) else log
  }

  function HwInitLog(hw: Hardware, mapped: bool, log: History): History {
    var log' := ShadowRead(hw, mapped, log + Zeros(RAM_WORDS));
    Read(hw, Poll(hw, log', Dsp, SYNC_STATUS, 0x0, SYNC_POLL_MS), Port, 0x0)
  }

  method HwInit(ctx: Ctx) returns (ret: int)
    modifies ctx`portConfShadow, ctx.card
    ensures ret == 0
    ensures ctx.card.log == HwInitLog(ctx.card.hw, ctx.regMapped, old(ctx.card.log))
    ensures ctx.portConfShadow
         == if ctx.regMapped then ctx.card.hw(old(ctx.card.log) + Zeros(RAM_WORDS), Reg, PORT_CONF) else 0
  {
    ZeroDspRam(ctx);
    if ctx.regMapped {
      var conf := ctx.card.Read32(Reg, PORT_CONF);
      ctx.portConfShadow := conf;
    } else {
      ctx.portConfShadow := 0;
    }
    var _ := PollReg(ctx, 0, SYNC_STATUS, 0x0, SYNC_POLL_MS);    // only logged
    var _ := ctx.card.Read32(Port, 0x0);                         // only logged
    return 0;
  }

  // ---- full initialization ---------------------------------------------------------------------------

  /** There is a sequence, but it is not a whole number of entries. */
  predicate BadSequence(init: Option<seq<bv8>>) {
    init.Some? && |init.value| != 0 && |init.value| % 9 != 0
  }

  /** The entries replayed; none when there is no sequence. */
  function Entries(init: Option<seq<bv8>>): seq<Entry>
    requires !BadSequence(init)
  {
    if init.Some? && init.value != [] then Decode(init.value) else []
  }

  /** Loading the FPGA and the first zeroing. */
  function BootLog(hw: Hardware, fw: Option<seq<bv8>>, log: History): History {
    LoadLog(hw, fw, log) + Zeros(RAM_WORDS)
  }

  /** Just before the final check. */
  function StartedLog(hw: Hardware, dma: Option<bv32>, fw: Option<seq<bv8>>, es: seq<Entry>, log: History): History {
    PortLoop(hw, Kickstart(hw, ReplayAll(hw, dma, es, BootLog(hw, fw, log))))
  }

  function FullInitLog(hw: Hardware, dma: Option<bv32>, mapped: bool, fw: Option<seq<bv8>>,
                       init: Option<seq<bv8>>, log: History): History
  {
    if BadSequence(init) then BootLog(hw, fw, log)
    else HwInitLog(hw, mapped, StartedLog(hw, dma, fw, Entries(init), log))
  }

  /** Load the FPGA, if there is an image, and clear the DSP RAM. */
  method BootCard(ctx: Ctx, fw: Option<seq<bv8>>)
    modifies ctx.card
    ensures ctx.card.log == BootLog(ctx.card.hw, fw, old(ctx.card.log))
  {
    if fw.Some? && |fw.value| > 0 {
      var err := LoadFpga(ctx, fw);
      assert err == 0;    // loading a non-empty image reports no error
    }
    ZeroDspRam(ctx);
  }

  /** Start the DSP and configure the ports. */
  method StartCard(ctx: Ctx)
    modifies ctx.card
    ensures ctx.card.log == PortLoop(ctx.card.hw, Kickstart(ctx.card.hw, old(ctx.card.log)))
  {
    DspKickstart(ctx);
    PostInitPortLoop(ctx);
  }

  /** Fails only on a malformed sequence, whatever the hardware answers. */
  method FullInit(ctx: Ctx, fw: Option<seq<bv8>>, init: Option<seq<bv8>>) returns (ret: int)
    modifies ctx`portConfShadow, ctx.card
    ensures ret == if init.Some? && |init.value| % 9 != 0 then -1 else 0
    ensures ctx.card.log == FullInitLog(ctx.card.hw, ctx.Dma(), ctx.regMapped, fw, init, old(ctx.card.log))
    ensures ctx.portConfShadow
         == if BadSequence(init) then old(ctx.portConfShadow)
            else if ctx.regMapped then
              ctx.card.hw(StartedLog(ctx.card.hw, ctx.Dma(), fw, Entries(init), old(ctx.card.log))
                          + Zeros(RAM_WORDS), Reg, PORT_CONF)
            else 0
  {
    BootCard(ctx, fw);
    if init.Some? && |init.value| > 0 {
      var err := ReplaySequence(ctx, init);
      if err != 0 {
        return err;
      }
    }
    StartCard(ctx);
    ret := HwInit(ctx);
  }

  // ---- order of events ----------------------------------------------------------------------------------

  lemma {:induction false} PollExtends(hw: Hardware, log: History, bar: Bar, offset: u32, target: bv32, tries: nat)
    ensures log <= Poll(hw, log, bar, offset, target, tries)
    decreases tries
  {
    if tries > 0 { PollExtends(hw, Read(hw, log, bar, offset), bar, offset, target, tries - 1); }
  }

  lemma {:induction false} ReplayExtends(hw: Hardware, dma: Option<bv32>, es: seq<Entry>, log: History)
    ensures log <= ReplayAll(hw, dma, es, log)
  {
    if es != [] {
      PollExtends(hw, log, Dsp, es[0].offset, Translate(dma, es[0].value), POLL_MS);
      ReplayExtends(hw, dma, es[1..], ReplayEntry(hw, dma, es[0], log));
    }
  }

  lemma PrefixTransitive(a: History, b: History, c: History)
    requires a <= b <= c
    ensures a <= c
  {
  }

  lemma {:induction false} IterateExtends(step: Step, log: History, n: nat)
    requires forall log, i :: log <= step(log, i)
    ensures log <= Iterate(step, log, n)
    decreases n
  {
    if n > 0 {
      IterateExtends(step, log, n - 1);
      PrefixTransitive(log, Iterate(step, log, n - 1), Iterate(step, log, n));
    }
  }

  lemma PortLoopExtends(hw: Hardware, log: History)
    ensures log <= PortLoop(hw, log)
  {
    forall log, i ensures log <= PortStep(hw)(log, i) { PortIterationExtends(hw, log, i); }
    IterateExtends(PortStep(hw), log, PORT_ITERATIONS);
  }

  lemma PortIterationExtends(hw: Hardware, log: History, iter: nat)
    ensures log <= PortIteration(hw, log, iter)
  {
  }

  lemma HwInitExtends(hw: Hardware, mapped: bool, log: History)
    ensures log <= HwInitLog(hw, mapped, log)
  {
    PollExtends(hw, ShadowRead(hw, mapped, log + Zeros(RAM_WORDS)), Dsp, SYNC_STATUS, 0x0, SYNC_POLL_MS);
  }

  predicate StartsDsp(e: Event) {
    e == Wr(Port, 0x4, 0x2)
  }

  predicate NeverStarts(events: History) {
    forall i :: 0 <= i < |events| ==> !StartsDsp(events[i])
  }

  lemma UploadNeverStarts(vals: seq<bv32>)
    ensures NeverStarts(SETUP) && NeverStarts(OnCtrl(vals)) && NeverStarts(FINISH)
  {
  }

  lemma LoadNeverStarts(hw: Hardware, fw: Option<seq<bv8>>, log: History) returns (tail: History)
    ensures LoadLog(hw, fw, log) == log + tail && NeverStarts(tail)
  {
    tail := [];
    if HasImage(fw) {
      UploadNeverStarts(CtrlWrites(Driver, fw.value));
      var upload := Upload(Driver, fw.value);
      tail := upload + [Rd(Port, 0x0, hw(log + upload, Port, 0x0))];
    }
  }

  /** With a sequence the driver refuses, the DSP is never started and nothing of the sequence is
      applied: the card sees the FPGA upload and the zeroing, and no more. */
  lemma RefusedNeverStarts(hw: Hardware, dma: Option<bv32>, mapped: bool, fw: Option<seq<bv8>>,
                           init: Option<seq<bv8>>, log: History)
    requires init.Some? && |init.value| % 9 != 0
    ensures var all := FullInitLog(hw, dma, mapped, fw, init, log);
            && all == LoadLog(hw, fw, log) + Zeros(RAM_WORDS)
            && log <= all && forall i :: |log| <= i < |all| ==> !StartsDsp(all[i])
  {
    var tail := LoadNeverStarts(hw, fw, log);
    assert log + tail + Zeros(RAM_WORDS) == log + (tail + Zeros(RAM_WORDS));
  }

  /** Otherwise the kick-start is what follows the last entry of the sequence, which follows
      the zeroing, which follows the FPGA upload: reset, clear the boot vector, start the DSP. */
  lemma KickstartFollowsReplay(hw: Hardware, dma: Option<bv32>, mapped: bool, fw: Option<seq<bv8>>,
                               init: Option<seq<bv8>>, log: History)
    requires init.Some? ==> |init.value| % 9 == 0
    ensures var loaded := LoadLog(hw, fw, log) + Zeros(RAM_WORDS);
            var replayed := if init.Some? then ReplayAll(hw, dma, Decode(init.value), loaded) else loaded;
            && loaded <= replayed
            && replayed + [Wr(Port, 0x0, 0x0), Wr(Dsp, 0x3_FFFC, 0x0), Wr(Port, 0x4, 0x2)]
               <= FullInitLog(hw, dma, mapped, fw, init, log)
  {
    var es := Entries(init);
    var replayed := ReplayAll(hw, dma, es, BootLog(hw, fw, log));
    ReplayExtends(hw, dma, es, BootLog(hw, fw, log));
    var kicked := Kickstart(hw, replayed);
    assert replayed + KICK <= kicked;
    PortLoopExtends(hw, kicked);
    HwInitExtends(hw, mapped, StartedLog(hw, dma, fw, es, log));
  }
}
