/** What full initialization leaves in the card's words. */
module FullInitMemory {
  import opened Pal
  import opened Hw
  import opened Blob
  import opened Translation
  import opened Replay
  import opened Fpga
  import opened FullInit

  /** A word of the 64K words of DSP RAM that the driver zeroes. */
  predicate InRam(offset: u32) {
    offset % 4 == 0 && offset < 0x4_0000
  }

  // ---- zeroing -------------------------------------------------------------------------------

  lemma {:induction false} ZerosHit(n: nat, i: nat)
    requires i < n <= RAM_WORDS
    ensures LastWrite(Zeros(n), Dsp, WordOffset(i)) == Some(0)
  {
    ZerosStep(n - 1);
    LastWriteSnoc(Zeros(n - 1), Wr(Dsp, WordOffset(n - 1), 0), Dsp, WordOffset(i));
    if i < n - 1 { ZerosHit(n - 1, i); }
  }

  lemma {:induction false} ZerosMiss(n: nat, bar: Bar, offset: u32)
    requires n <= RAM_WORDS && !(bar == Dsp && InRam(offset))
    ensures LastWrite(Zeros(n), bar, offset) == None
  {
    if n > 0 {
      ZerosStep(n - 1);
      LastWriteSnoc(Zeros(n - 1), Wr(Dsp, WordOffset(n - 1), 0), bar, offset);
      ZerosMiss(n - 1, bar, offset);
    }
  }

  lemma ZeroedWord(log: History, bar: Bar, offset: u32)
    ensures LastWrite(log + Zeros(RAM_WORDS), bar, offset)
         == if bar == Dsp && InRam(offset) then Some(0) else LastWrite(log, bar, offset)
  {
    LastWriteAppend(log, Zeros(RAM_WORDS), bar, offset);
    if bar == Dsp && InRam(offset) {
      ZerosHit(RAM_WORDS, offset / 4);
    } else {
      ZerosMiss(RAM_WORDS, bar, offset);
    }
  }

  // ---- kick-start and port loop ------------------------------------------------------------------

  lemma ReadWord(hw: Hardware, log: History, b: Bar, o: u32, bar: Bar, offset: u32)
    ensures LastWrite(Read(hw, log, b, o), bar, offset) == LastWrite(log, bar, offset)
  {
  }

  predicate KickWrites(bar: Bar, offset: u32) {
    (bar == Port && (offset == 0x0 || offset == 0x4)) || (bar == Dsp && offset == 0x3_FFFC)
  }

  lemma KickWord(hw: Hardware, log: History, bar: Bar, offset: u32)
    ensures !KickWrites(bar, offset) ==> LastWrite(Kickstart(hw, log), bar, offset) == LastWrite(log, bar, offset)
    ensures LastWrite(Kickstart(hw, log), Dsp, 0x3_FFFC) == Some(0)
  {
    var log1 := log + KICK;
    var log2 := Read(hw, log1, Dsp, 0x3_FFFC);
    var log3 := Read(hw, log2, Port, 0x0);
    assert log1 == log + [KICK[0]] + [KICK[1]] + [KICK[2]];
    KickReads(hw, log1, log2, log3, bar, offset);
    KickReads(hw, log1, log2, log3, Dsp, 0x3_FFFC);
    LastWriteSnoc(log, KICK[0], bar, offset);
    LastWriteSnoc(log + [KICK[0]], KICK[1], bar, offset);
    LastWriteSnoc(log + [KICK[0]] + [KICK[1]], KICK[2], bar, offset);
    LastWriteSnoc(log + [KICK[0]], KICK[1], Dsp, 0x3_FFFC);
    LastWriteSnoc(log + [KICK[0]] + [KICK[1]], KICK[2], Dsp, 0x3_FFFC);
  }

  lemma KickReads(hw: Hardware, log1: History, log2: History, log3: History, bar: Bar, offset: u32)
    requires log2 == Read(hw, log1, Dsp, 0x3_FFFC) && log3 == Read(hw, log2, Port, 0x0)
    ensures LastWrite(Read(hw, log3, Port, 0x4), bar, offset) == LastWrite(log1, bar, offset)
  {
    ReadWord(hw, log1, Dsp, 0x3_FFFC, bar, offset);
    ReadWord(hw, log2, Port, 0x0, bar, offset);
    ReadWord(hw, log3, Port, 0x4, bar, offset);
  }

  /** The three status words of the periodic check. */
  predicate StatusWord(offset: u32) {
    offset == 0x70D4 || offset == 0x70D8 || offset == 0x70DC
  }

  predicate ConfigureWrites(bar: Bar, offset: u32) {
    (bar == Dsp && (offset == 0x7040 || offset == 0x6FEC)) || (bar == Reg && offset == 0x40_0000)
  }

  predicate LoopWrites(bar: Bar, offset: u32) {
    ConfigureWrites(bar, offset) || (bar == Dsp && StatusWord(offset))
  }

  lemma ConfigureWord(hw: Hardware, log: History, bar: Bar, offset: u32)
    ensures LastWrite(PortConfigure(hw, log), bar, offset)
         == if bar == Dsp && (offset == 0x7040 || offset == 0x6FEC) then Some(0)
            else if bar == Reg && offset == 0x40_0000 then Some(0x10)
            else LastWrite(log, bar, offset)
  {
    var log1 := Read(hw, log, Dsp, 0x6FD8);
    var log2 := log1 + [Wr(Dsp, 0x7040, 0x0)];
    var log3 := Read(hw, log2, Dsp, 0x6FEC);
    var log4 := log3 + [Wr(Dsp, 0x6FEC, 0x0)];
    var log5 := Read(hw, log4, Port, 0x0);
    ReadWord(hw, log, Dsp, 0x6FD8, bar, offset);
    LastWriteSnoc(log1, Wr(Dsp, 0x7040, 0x0), bar, offset);
    ReadWord(hw, log2, Dsp, 0x6FEC, bar, offset);
    LastWriteSnoc(log3, Wr(Dsp, 0x6FEC, 0x0), bar, offset);
    ReadWord(hw, log4, Port, 0x0, bar, offset);
    LastWriteSnoc(log5, Wr(Reg, 0x40_0000, 0x10), bar, offset);
  }

  lemma ClearWord(log: History, status: bv32, o: u32, bar: Bar, offset: u32)
    ensures LastWrite(ClearIf(log, status, o), bar, offset)
         == if status != 0 && bar == Dsp && offset == o then Some(0) else LastWrite(log, bar, offset)
  {
  }

  /** Read a status word and clear it if it was set. */
  lemma ReadClearWord(hw: Hardware, start: Memory, log: History, o: u32, bar: Bar, offset: u32)
    ensures !(bar == Dsp && offset == o) ==>
              LastWrite(ClearIf(Read(hw, log, Dsp, o), hw(log, Dsp, o), o), bar, offset) == LastWrite(log, bar, offset)
    ensures hw(log, Dsp, o) == Mem(start, log, Dsp, o) ==>
              Mem(start, ClearIf(Read(hw, log, Dsp, o), hw(log, Dsp, o), o), Dsp, o) == 0
  {
  }

  lemma StatusCheckKeeps(hw: Hardware, start: Memory, log: History, bar: Bar, offset: u32)
    requires !(bar == Dsp && StatusWord(offset))
    ensures LastWrite(StatusCheck(hw, log), bar, offset) == LastWrite(log, bar, offset)
  {
    var log1 := ClearIf(Read(hw, log, Dsp, 0x70D4), hw(log, Dsp, 0x70D4), 0x70D4);
    var log2 := Read(hw, log1, Dsp, 0x70DC);
    var log3 := ClearIf(Read(hw, log2, Dsp, 0x70D8), hw(log2, Dsp, 0x70D8), 0x70D8);
    ReadClearWord(hw, start, log, 0x70D4, bar, offset);
    ReadWord(hw, log1, Dsp, 0x70DC, bar, offset);
    ReadClearWord(hw, start, log2, 0x70D8, bar, offset);
    ClearWord(log3, hw(log1, Dsp, 0x70DC), 0x70DC, bar, offset);
  }

  /** On RAM the periodic check leaves its three status words zero. */
  lemma StatusCheckClears(hw: Hardware, start: Memory, log: History, offset: u32)
    requires IsRam(hw, start) && StatusWord(offset)
    ensures Mem(start, StatusCheck(hw, log), Dsp, offset) == 0
  {
    var log1 := ClearIf(Read(hw, log, Dsp, 0x70D4), hw(log, Dsp, 0x70D4), 0x70D4);
    var log2 := Read(hw, log1, Dsp, 0x70DC);
    var log3 := ClearIf(Read(hw, log2, Dsp, 0x70D8), hw(log2, Dsp, 0x70D8), 0x70D8);
    assert ReadsBack(hw, start, log, Dsp, 0x70D4) && ReadsBack(hw, start, log2, Dsp, 0x70D8);
    assert ReadsBack(hw, start, log1, Dsp, 0x70DC);
    ReadClearWord(hw, start, log, 0x70D4, Dsp, offset);
    ReadWord(hw, log1, Dsp, 0x70DC, Dsp, offset);
    ReadClearWord(hw, start, log2, 0x70D8, Dsp, offset);
    ClearWord(log3, hw(log1, Dsp, 0x70DC), 0x70DC, Dsp, offset);
  }

  lemma IterationKeeps(hw: Hardware, start: Memory, log: History, iter: nat, bar: Bar, offset: u32)
    requires !LoopWrites(bar, offset)
    ensures LastWrite(PortIteration(hw, log, iter), bar, offset) == LastWrite(log, bar, offset)
  {
    ConfigureWord(hw, log, bar, offset);
    StatusCheckKeeps(hw, start, PortConfigure(hw, log), bar, offset);
  }

  lemma {:induction false} IterateKeeps(step: Step, log: History, n: nat, bar: Bar, offset: u32)
    requires forall log, i :: LastWrite(step(log, i), bar, offset) == LastWrite(log, bar, offset)
    ensures LastWrite(Iterate(step, log, n), bar, offset) == LastWrite(log, bar, offset)
    decreases n
  {
    if n > 0 { IterateKeeps(step, log, n - 1, bar, offset); }
  }

  lemma PortLoopKeeps(hw: Hardware, start: Memory, log: History, bar: Bar, offset: u32)
    requires !LoopWrites(bar, offset)
    ensures LastWrite(PortLoop(hw, log), bar, offset) == LastWrite(log, bar, offset)
  {
    forall log, i ensures LastWrite(PortStep(hw)(log, i), bar, offset) == LastWrite(log, bar, offset) {
      IterationKeeps(hw, start, log, i, bar, offset);
    }
    IterateKeeps(PortStep(hw), log, PORT_ITERATIONS, bar, offset);
  }

  /** An iteration that ends with the periodic check. */
  lemma IterationClears(hw: Hardware, start: Memory, log: History, iter: nat, offset: u32)
    requires IsRam(hw, start) && iter % 8 == 7 && LoopWrites(Dsp, offset)
    ensures Mem(start, PortIteration(hw, log, iter), Dsp, offset) == 0
  {
    ConfigureWord(hw, log, Dsp, offset);
    if StatusWord(offset) {
      StatusCheckClears(hw, start, PortConfigure(hw, log), offset);
    } else {
      StatusCheckKeeps(hw, start, PortConfigure(hw, log), Dsp, offset);
    }
  }

  /** The last iteration ends with one. */
  lemma PortLoopClears(hw: Hardware, start: Memory, log: History, offset: u32)
    requires IsRam(hw, start) && LoopWrites(Dsp, offset)
    ensures Mem(start, PortLoop(hw, log), Dsp, offset) == 0
  {
    var before := Iterate(PortStep(hw), log, PORT_ITERATIONS - 1);
    LastIteration(hw, log, before);
    IterationClears(hw, start, before, PORT_ITERATIONS - 1, offset);
  }

  lemma LastIteration(hw: Hardware, log: History, before: History)
    requires before == Iterate(PortStep(hw), log, PORT_ITERATIONS - 1)
    ensures PortLoop(hw, log) == PortIteration(hw, before, PORT_ITERATIONS - 1)
  {
  }

  // ---- the program in DSP RAM ---------------------------------------------------------------------------

  /** Words that the kick-start or the port loop clears after the sequence. */
  predicate Cleared(offset: u32) {
    offset == 0x3_FFFC || LoopWrites(Dsp, offset)
  }

  lemma BootWord(hw: Hardware, fw: Option<seq<bv8>>, log: History, offset: u32)
    requires InRam(offset)
    ensures LastWrite(BootLog(hw, fw, log), Dsp, offset) == Some(0)
  {
    ZeroedWord(LoadLog(hw, fw, log), Dsp, offset);
  }

  /** Just before the final check, DSP RAM is zero, overlaid with the last writes of the
      sequence, overlaid with the words the kick-start and the port loop clear. */
  lemma ProgramLoaded(hw: Hardware, start: Memory, dma: Option<bv32>, fw: Option<seq<bv8>>, es: seq<Entry>,
                      log: History, offset: u32)
    requires IsRam(hw, start) && InRam(offset)
    ensures var word := Mem(start, StartedLog(hw, dma, fw, es, log), Dsp, offset);
            && (Cleared(offset) ==> word == 0)
            && (!Cleared(offset) && NeverNames(es, Dsp, offset) ==> word == 0)
            && (!Cleared(offset) ==> forall i :: LastNaming(es, Dsp, offset, i) ==> word == Translate(dma, es[i].value))
  {
    var boot := BootLog(hw, fw, log);
    var replayed := ReplayAll(hw, dma, es, boot);
    var kicked := Kickstart(hw, replayed);
    BootWord(hw, fw, log, offset);
    KickWord(hw, replayed, Dsp, offset);
    if LoopWrites(Dsp, offset) {
      PortLoopClears(hw, start, kicked, offset);
    } else {
      PortLoopKeeps(hw, start, kicked, Dsp, offset);
      if !Cleared(offset) {
        if NeverNames(es, Dsp, offset) { ReplayUnnamed(hw, dma, es, boot, Dsp, offset); }
        forall i | LastNaming(es, Dsp, offset, i)
          ensures LastWrite(replayed, Dsp, offset) == Some(Translate(dma, es[i].value))
        {
          ReplayNamed(hw, dma, es, boot, Dsp, offset, i);
        }
      }
    }
  }

  // ---- after the final check ------------------------------------------------------------------------------

  lemma HwInitWord(hw: Hardware, mapped: bool, log: History, bar: Bar, offset: u32)
    ensures LastWrite(HwInitLog(hw, mapped, log), bar, offset)
         == if bar == Dsp && InRam(offset) then Some(0) else LastWrite(log, bar, offset)
  {
    var log1 := log + Zeros(RAM_WORDS);
    var log2 := ShadowRead(hw, mapped, log1);
    var log3 := Poll(hw, log2, Dsp, SYNC_STATUS, 0x0, SYNC_POLL_MS);
    ZeroedWord(log, bar, offset);
    ReadWord(hw, log1, Reg, PORT_CONF, bar, offset);
    PollKeepsWords(hw, log2, Dsp, SYNC_STATUS, 0x0, SYNC_POLL_MS, bar, offset);
    ReadWord(hw, log3, Port, 0x0, bar, offset);
  }

  /** The shadow that initialization takes is what PORT_CONF holds when it ends. */
  lemma ShadowMatchesConf(hw: Hardware, start: Memory, log: History)
    requires IsRam(hw, start)
    ensures hw(log + Zeros(RAM_WORDS), Reg, PORT_CONF) == Mem(start, HwInitLog(hw, true, log), Reg, PORT_CONF)
  {
    assert ReadsBack(hw, start, log + Zeros(RAM_WORDS), Reg, PORT_CONF);
    ZeroedWord(log, Reg, PORT_CONF);
    HwInitWord(hw, true, log, Reg, PORT_CONF);
  }

  /** The final zeroing makes the sync poll succeed on its first read. */
  lemma SyncPollImmediate(hw: Hardware, start: Memory, mapped: bool, log: History)
    requires IsRam(hw, start)
    ensures var polled := ShadowRead(hw, mapped, log + Zeros(RAM_WORDS));
            && Answer(hw, polled, Dsp, SYNC_STATUS, 0) == 0x0
            && Poll(hw, polled, Dsp, SYNC_STATUS, 0x0, SYNC_POLL_MS) == Read(hw, polled, Dsp, SYNC_STATUS)
  {
    var polled := ShadowRead(hw, mapped, log + Zeros(RAM_WORDS));
    ZeroedWord(log, Dsp, SYNC_STATUS);
    ReadWord(hw, log + Zeros(RAM_WORDS), Reg, PORT_CONF, Dsp, SYNC_STATUS);
    assert ReadsBack(hw, start, polled, Dsp, SYNC_STATUS);
    assert Reads(hw, polled, Dsp, SYNC_STATUS, 0) == polled;
  }

  /** After full initialization every word of DSP RAM is zero, whatever the image, the sequence
      and the hardware's answers: the final check zeroes what the sequence loaded. */
  lemma RamZeroAfterFullInit(hw: Hardware, start: Memory, dma: Option<bv32>, mapped: bool, fw: Option<seq<bv8>>,
                             init: Option<seq<bv8>>, log: History, offset: u32)
    requires InRam(offset)
    ensures Mem(start, FullInitLog(hw, dma, mapped, fw, init, log), Dsp, offset) == 0
  {
    if BadSequence(init) {
      BootWord(hw, fw, log, offset);
    } else {
      HwInitWord(hw, mapped, StartedLog(hw, dma, fw, Entries(init), log), Dsp, offset);
    }
  }

  // ---- frame ------------------------------------------------------------------------------------------------

  /** Words the initialization code itself writes. */
  predicate InitWrites(bar: Bar, offset: u32) {
    match bar
    case Dsp => InRam(offset)
    case Reg => offset == 0x30_0000 || offset == 0x30_0004 || offset == FPGA_CTRL || offset == 0x40_0000
    case Port => offset == 0x0 || offset == 0x4 || offset == 0x8
  }

  lemma {:induction false} WritesNothing(log: History, bar: Bar, offset: u32)
    requires forall e :: e in log ==> !WritesTo(e, bar, offset)
    ensures LastWrite(log, bar, offset) == None
  {
    if log != [] { WritesNothing(log[..|log| - 1], bar, offset); }
  }

  lemma UploadWord(hw: Hardware, fw: Option<seq<bv8>>, log: History, bar: Bar, offset: u32)
    requires !InitWrites(bar, offset)
    ensures LastWrite(LoadLog(hw, fw, log), bar, offset) == LastWrite(log, bar, offset)
  {
    if HasImage(fw) {
      var mid := OnCtrl(CtrlWrites(Driver, fw.value));
      forall e | e in Upload(Driver, fw.value) ensures !WritesTo(e, bar, offset) {
        if e in mid { var i :| 0 <= i < |mid| && mid[i] == e; }
      }
      WritesNothing(Upload(Driver, fw.value), bar, offset);
      LastWriteAppend(log, Upload(Driver, fw.value), bar, offset);
      ReadWord(hw, log + Upload(Driver, fw.value), Port, 0x0, bar, offset);
    }
  }

  lemma BootOther(hw: Hardware, fw: Option<seq<bv8>>, log: History, bar: Bar, offset: u32)
    requires !InitWrites(bar, offset)
    ensures LastWrite(BootLog(hw, fw, log), bar, offset) == LastWrite(log, bar, offset)
  {
    UploadWord(hw, fw, log, bar, offset);
    ZeroedWord(LoadLog(hw, fw, log), bar, offset);
  }

  lemma AfterReplayOther(hw: Hardware, start: Memory, mapped: bool, replayed: History, bar: Bar, offset: u32)
    requires !InitWrites(bar, offset)
    ensures LastWrite(HwInitLog(hw, mapped, PortLoop(hw, Kickstart(hw, replayed))), bar, offset)
         == LastWrite(replayed, bar, offset)
  {
    var kicked := Kickstart(hw, replayed);
    KickWord(hw, replayed, bar, offset);
    PortLoopKeeps(hw, start, kicked, bar, offset);
    HwInitWord(hw, mapped, PortLoop(hw, kicked), bar, offset);
  }

  lemma FinalOther(hw: Hardware, start: Memory, dma: Option<bv32>, mapped: bool, fw: Option<seq<bv8>>,
                   es: seq<Entry>, log: History, bar: Bar, offset: u32)
    requires !InitWrites(bar, offset)
    ensures Mem(start, HwInitLog(hw, mapped, StartedLog(hw, dma, fw, es, log)), bar, offset)
         == Mem(start, ReplayAll(hw, dma, es, BootLog(hw, fw, log)), bar, offset)
    ensures Mem(start, BootLog(hw, fw, log), bar, offset) == Mem(start, log, bar, offset)
  {
    BootOther(hw, fw, log, bar, offset);
    AfterReplayOther(hw, start, mapped, ReplayAll(hw, dma, es, BootLog(hw, fw, log)), bar, offset);
  }

  /** Any other word of the card changes only as the sequence says: it ends with the translated
      value of the last entry naming it, or keeps its value. */
  lemma OtherWordsFollowSequence(hw: Hardware, start: Memory, dma: Option<bv32>, mapped: bool, fw: Option<seq<bv8>>,
                                 es: seq<Entry>, log: History, bar: Bar, offset: u32, word: bv32)
    requires !InitWrites(bar, offset)
    requires word == Mem(start, HwInitLog(hw, mapped, StartedLog(hw, dma, fw, es, log)), bar, offset)
    ensures NeverNames(es, bar, offset) ==> word == Mem(start, log, bar, offset)
    ensures forall i :: LastNaming(es, bar, offset, i) ==> word == Translate(dma, es[i].value)
  {
    FinalOther(hw, start, dma, mapped, fw, es, log, bar, offset);
    ReplayedWord(hw, start, dma, es, BootLog(hw, fw, log), bar, offset);
  }

  lemma ReplayedWord(hw: Hardware, start: Memory, dma: Option<bv32>, es: seq<Entry>, log: History,
                     bar: Bar, offset: u32)
    ensures var word := Mem(start, ReplayAll(hw, dma, es, log), bar, offset);
            && (NeverNames(es, bar, offset) ==> word == Mem(start, log, bar, offset))
            && forall i :: LastNaming(es, bar, offset, i) ==> word == Translate(dma, es[i].value)
  {
    if NeverNames(es, bar, offset) { ReplayUnnamed(hw, dma, es, log, bar, offset); }
    forall i | LastNaming(es, bar, offset, i)
      ensures LastWrite(ReplayAll(hw, dma, es, log), bar, offset) == Some(Translate(dma, es[i].value))
    {
      ReplayNamed(hw, dma, es, log, bar, offset, i);
    }
  }
}
