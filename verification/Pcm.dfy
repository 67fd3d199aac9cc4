/** The PORT_CONF register, its shadow and the running flag, as the ALSA callbacks, hw_stop and the
    Windows START/STOP requests change them. */
module Pcm {
  import opened Pal
  import opened Hw

  const DMA_EN: bv32 := 0x80
  const RUN: bv32 := 0x2_0000
  const DMA_RD: bv32 := 0x4_0000
  const START: bv32 := 0x8000_0000

  const EINVAL := 22

  datatype Stream = Playback | Capture

  datatype Command = Start | Resume | Stop | Suspend | PauseRelease | PausePush | Other

  datatype Op =
    | PlaybackPrepare
    | CapturePrepare
    | Trigger(stream: Stream, cmd: Command)
    | HwStop
    | WdfStart
    | WdfStop

  /** The register, as it reads back, and the two context fields the operations share. */
  datatype Audio = Audio(conf: bv32, shadow: bv32, running: bool)

  // ---- the register values ------------------------------------------------------------------

  function StartConf(conf: bv32, stream: Stream): bv32 {
    var val := conf | (DMA_EN | RUN);
    match stream
    case Playback => val | DMA_RD
    case Capture => val & !DMA_RD
  }

  function StopConf(conf: bv32): bv32 {
    conf & !(DMA_EN | RUN | DMA_RD | START)
  }

  function WdfStartConf(conf: bv32): bv32 {
    conf | (DMA_EN | RUN | DMA_RD)
  }

  function PushConf(shadow: bv32): bv32 {
    shadow & !DMA_EN
  }

  function ReleaseConf(shadow: bv32): bv32 {
    shadow | DMA_EN
  }

  predicate En(conf: bv32) {
    conf & DMA_EN != 0
  }

  predicate Runs(conf: bv32) {
    conf & RUN != 0
  }

  predicate Plays(conf: bv32) {
    conf & DMA_RD != 0
  }

  lemma StartBits(conf: bv32, stream: Stream)
    ensures En(StartConf(conf, stream)) && Runs(StartConf(conf, stream))
    ensures Plays(StartConf(conf, stream)) <==> stream == Playback
  {
  }

  lemma StopBits(conf: bv32)
    ensures !En(StopConf(conf)) && !Runs(StopConf(conf)) && !Plays(StopConf(conf))
  {
  }

  lemma WdfStartBits(conf: bv32)
    ensures En(WdfStartConf(conf)) && Runs(WdfStartConf(conf)) && Plays(WdfStartConf(conf))
  {
  }

  lemma PushKeepsRun(shadow: bv32)
    ensures Runs(PushConf(shadow)) == Runs(shadow)
  {
  }

  lemma PushKeepsDirection(shadow: bv32)
    ensures Plays(PushConf(shadow)) == Plays(shadow)
  {
  }

  lemma ReleaseKeepsRun(shadow: bv32)
    ensures Runs(ReleaseConf(shadow)) == Runs(shadow)
  {
  }

  lemma ReleaseKeepsDirection(shadow: bv32)
    ensures Plays(ReleaseConf(shadow)) == Plays(shadow)
  {
  }

  lemma ReleaseUndoesPush(conf: bv32)
    requires En(conf)
    ensures ReleaseConf(PushConf(conf)) == conf
  {
  }

  // ---- one operation --------------------------------------------------------------------------

  function Step(s: Audio, op: Op): Audio {
    match op
    case PlaybackPrepare => Audio(0, s.shadow, false)
    case CapturePrepare => s.(running := false)
    case HwStop => Audio(StopConf(s.conf), StopConf(s.conf), false)
    case WdfStop => Audio(StopConf(s.conf), StopConf(s.conf), false)
    case WdfStart => Audio(WdfStartConf(s.conf), WdfStartConf(s.conf), true)
    case Trigger(stream, cmd) =>
      match cmd
      case Start => Audio(StartConf(s.conf, stream), StartConf(s.conf, stream), true)
      case Resume => Audio(StartConf(s.conf, stream), StartConf(s.conf, stream), true)
      case Stop => Audio(StopConf(s.conf), StopConf(s.conf), false)
      case Suspend => Audio(StopConf(s.conf), StopConf(s.conf), false)
      case PauseRelease => Audio(ReleaseConf(s.shadow), ReleaseConf(s.shadow), true)
      case PausePush => Audio(PushConf(s.shadow), PushConf(s.shadow), false)
      case Other => s
  }

  /** Operations that write PORT_CONF. */
  predicate WritesConf(op: Op) {
    op != CapturePrepare && !(op.Trigger? && op.cmd == Other)
  }

  /** Operations that read PORT_CONF before writing it. */
  predicate ReadsConf(op: Op) {
    op == HwStop || op == WdfStart || op == WdfStop ||
    (op.Trigger? && (op.cmd == Start || op.cmd == Resume || op.cmd == Stop || op.cmd == Suspend))
  }

  /** The bus accesses of an operation that writes `conf` to PORT_CONF, if it writes. */
  function BusLog(hw: Hardware, log: History, op: Op, conf: bv32): History {
    if ReadsConf(op) then Read(hw, log, Reg, PORT_CONF) + [Wr(Reg, PORT_CONF, conf)]
    else if WritesConf(op) then log + [Wr(Reg, PORT_CONF, conf)]
    else log
  }

  function Last(log: History): Event
    requires log != []
  {
    log[|log| - 1]
  }

  /** On any hardware: the state as the operation sees it, with the answer it would get to a read
      of PORT_CONF in place of the register. */
  function Seen(ctx: Ctx): Audio
    reads ctx`portConfShadow, ctx`dmaRunning, ctx.card
  {
    Audio(ctx.card.hw(ctx.card.log, Reg, PORT_CONF), ctx.portConfShadow, ctx.dmaRunning)
  }

  /** The operation took the step from what it saw, on the bus and in the context. */
  twostate predicate Took(ctx: Ctx, op: Op)
    reads ctx`portConfShadow, ctx`dmaRunning, ctx.card
  {
    var t := Step(old(Seen(ctx)), op);
    && ctx.card.log == BusLog(ctx.card.hw, old(ctx.card.log), op, t.conf)
    && ctx.portConfShadow == t.shadow && ctx.dmaRunning == t.running
  }

  function View(ctx: Ctx): Audio
    reads ctx`portConfShadow, ctx`dmaRunning, ctx.card
  {
    Audio(ctx.card.Word(Reg, PORT_CONF), ctx.portConfShadow, ctx.dmaRunning)
  }

  // ---- the callbacks ----------------------------------------------------------------------------

  lemma ConfWord(start: Memory, log: History, e: Event)
    ensures Mem(start, log + [e], Reg, PORT_CONF)
         == if WritesTo(e, Reg, PORT_CONF) then e.value else Mem(start, log, Reg, PORT_CONF)
  {
  }

  /** Reading PORT_CONF; on plain hardware the value is the register's, and nothing changes. */
  method ReadConf(ctx: Ctx) returns (val: bv32)
    modifies ctx.card
    ensures ctx.card.log == Read(ctx.card.hw, old(ctx.card.log), Reg, PORT_CONF)
    ensures val == ctx.card.hw(old(ctx.card.log), Reg, PORT_CONF)
    ensures IsRam(ctx.card.hw, ctx.card.start) ==>
              val == old(ctx.card.Word(Reg, PORT_CONF)) == ctx.card.Word(Reg, PORT_CONF)
  {
    assert IsRam(ctx.card.hw, ctx.card.start) ==>
             ReadsBack(ctx.card.hw, ctx.card.start, ctx.card.log, Reg, PORT_CONF);
    ConfWord(ctx.card.start, ctx.card.log, Rd(Reg, PORT_CONF, ctx.card.hw(ctx.card.log, Reg, PORT_CONF)));
    val := ctx.card.Read32(Reg, PORT_CONF);
  }

  /** Writing PORT_CONF, the shadow and the flag together. */
  method Commit(ctx: Ctx, val: bv32, running: bool)
    modifies ctx.card, ctx`portConfShadow, ctx`dmaRunning
    ensures ctx.card.log == old(ctx.card.log) + [Wr(Reg, PORT_CONF, val)]
    ensures View(ctx) == Audio(val, val, running)
  {
    ConfWord(ctx.card.start, ctx.card.log, Wr(Reg, PORT_CONF, val));
    ctx.card.Write32(Reg, PORT_CONF, val);
    ctx.portConfShadow := val;
    ctx.dmaRunning := running;
  }

  /** The buffer's base address, if there is one. */
  method TellBase(ctx: Ctx)
    modifies ctx.card
    ensures ctx.dmaAddr == 0 ==> ctx.card.log == old(ctx.card.log)
    ensures forall word :: ctx.dmaAddr != 0 && IsLow(word, ctx.dmaAddr) ==>
              ctx.card.log == old(ctx.card.log) + [Wr(Reg, 0x18, word)]
    ensures View(ctx) == old(View(ctx))
  {
    if ctx.dmaAddr != 0 {
      ConfWord(ctx.card.start, ctx.card.log, Wr(Reg, DMA_BASE, Low32(ctx.dmaAddr)));
      ctx.card.Write32(Reg, DMA_BASE, Low32(ctx.dmaAddr));
    }
  }

  method PreparePlayback(ctx: Ctx, periodBytes: bv32, rate: u32)
    modifies ctx.card, ctx`rate, ctx`dmaRunning, ctx.dmaBuf
    ensures ctx.dmaAddr == 0 ==>
              ctx.card.log == old(ctx.card.log) + [Wr(Reg, 0x00, 0), Wr(Reg, 0x14, periodBytes)]
    ensures forall word :: ctx.dmaAddr != 0 && IsLow(word, ctx.dmaAddr) ==>
              ctx.card.log == old(ctx.card.log) + [Wr(Reg, 0x00, 0), Wr(Reg, 0x14, periodBytes), Wr(Reg, 0x18, word)]
    ensures View(ctx) == Step(old(View(ctx)), PlaybackPrepare)
    ensures ctx.rate == rate
    ensures ctx.dmaBuf != null ==> forall i :: 0 <= i < ctx.dmaBuf.Length ==> ctx.dmaBuf[i] == 0
  {
    if ctx.dmaBuf != null {
      Clear(ctx.dmaBuf);
    }
    ghost var start, was := ctx.card.start, ctx.card.log;
    ConfWord(start, was, Wr(Reg, PORT_CONF, 0));
    ctx.card.Write32(Reg, PORT_CONF, 0);
    ConfWord(start, ctx.card.log, Wr(Reg, DMA_SIZE, periodBytes));
    ctx.card.Write32(Reg, DMA_SIZE, periodBytes);
    TellBase(ctx);
    ctx.rate := rate;
    ctx.dmaRunning := false;
  }

  method PrepareCapture(ctx: Ctx, rate: u32)
    modifies ctx`rate, ctx`dmaRunning
    ensures View(ctx) == Step(old(View(ctx)), CapturePrepare)
    ensures ctx.rate == rate
  {
    ctx.rate := rate;
    ctx.dmaRunning := false;
  }

  method StartDma(ctx: Ctx, stream: Stream, cmd: Command)
    requires cmd == Start || cmd == Resume
    modifies ctx.card, ctx`portConfShadow, ctx`dmaRunning
    ensures Took(ctx, Trigger(stream, cmd))
    ensures IsRam(ctx.card.hw, ctx.card.start) ==> View(ctx) == Step(old(View(ctx)), Trigger(stream, cmd))
  {
    var val := ReadConf(ctx);
    Commit(ctx, StartConf(val, stream), true);
  }

  /** The operations that stop DMA. */
  predicate StopsDma(op: Op) {
    op == HwStop || op == WdfStop || (op.Trigger? && (op.cmd == Stop || op.cmd == Suspend))
  }

  method StopDma(ctx: Ctx, op: Op)
    requires StopsDma(op)
    modifies ctx.card, ctx`portConfShadow, ctx`dmaRunning
    ensures Took(ctx, op)
    ensures IsRam(ctx.card.hw, ctx.card.start) ==> View(ctx) == Step(old(View(ctx)), op)
  {
    var val := ReadConf(ctx);
    Commit(ctx, StopConf(val), false);
  }

  method ReleaseDma(ctx: Ctx, stream: Stream)
    modifies ctx.card, ctx`portConfShadow, ctx`dmaRunning
    ensures Took(ctx, Trigger(stream, PauseRelease))
    ensures View(ctx) == Step(old(View(ctx)), Trigger(stream, PauseRelease))
  {
    Commit(ctx, ReleaseConf(ctx.portConfShadow), true);
  }

  method PushDma(ctx: Ctx, stream: Stream)
    modifies ctx.card, ctx`portConfShadow, ctx`dmaRunning
    ensures Took(ctx, Trigger(stream, PausePush))
    ensures View(ctx) == Step(old(View(ctx)), Trigger(stream, PausePush))
  {
    Commit(ctx, PushConf(ctx.portConfShadow), false);
  }

  /** The trigger callback.  The register is written from what was read, except by the two pause
      commands, which trust the shadow. */
  method HandleTrigger(ctx: Ctx, stream: Stream, cmd: Command, nowNs: u64) returns (ret: int)
    modifies ctx.card, ctx`portConfShadow, ctx`dmaRunning, ctx`startTimeNs
    ensures ret == if cmd == Other then -22 else 0
    ensures Took(ctx, Trigger(stream, cmd))
    ensures cmd != Other ==> Last(ctx.card.log) == Wr(Reg, 0x00, ctx.portConfShadow)
    ensures IsRam(ctx.card.hw, ctx.card.start) ==> View(ctx) == Step(old(View(ctx)), Trigger(stream, cmd))
    ensures ctx.startTimeNs == if cmd == Start || cmd == Resume then nowNs else old(ctx.startTimeNs)
  {
    ret := 0;
    match cmd {
      case Start | Resume =>
        StartDma(ctx, stream, cmd);
        ctx.startTimeNs := nowNs;
      case Stop | Suspend =>
        StopDma(ctx, Trigger(stream, cmd));
      case PauseRelease =>
        ReleaseDma(ctx, stream);
      case PausePush =>
        PushDma(ctx, stream);
      case Other =>
        ret := -EINVAL;
    }
  }

  method StopHardware(ctx: Ctx)
    modifies ctx.card, ctx`portConfShadow, ctx`dmaRunning
    ensures !ctx.regMapped ==> View(ctx) == old(View(ctx)) && ctx.card.log == old(ctx.card.log)
    ensures ctx.regMapped ==> Took(ctx, HwStop)
    ensures ctx.regMapped && IsRam(ctx.card.hw, ctx.card.start) ==> View(ctx) == Step(old(View(ctx)), HwStop)
  {
    if !ctx.regMapped {
      return;
    }
    StopDma(ctx, HwStop);
  }

  /** The START request; false is STATUS_DEVICE_NOT_READY. */
  method RequestStart(ctx: Ctx) returns (ready: bool)
    modifies ctx.card, ctx`portConfShadow, ctx`dmaRunning
    ensures ready == ctx.regMapped
    ensures !ready ==> View(ctx) == old(View(ctx)) && ctx.card.log == old(ctx.card.log)
    ensures ready ==> Took(ctx, WdfStart)
    ensures ready && IsRam(ctx.card.hw, ctx.card.start) ==> View(ctx) == Step(old(View(ctx)), WdfStart)
  {
    if !ctx.regMapped {
      return false;
    }
    var val := ReadConf(ctx);
    Commit(ctx, WdfStartConf(val), true);
    return true;
  }

  method RequestStop(ctx: Ctx) returns (ready: bool)
    modifies ctx.card, ctx`portConfShadow, ctx`dmaRunning
    ensures ready == ctx.regMapped
    ensures !ready ==> View(ctx) == old(View(ctx)) && ctx.card.log == old(ctx.card.log)
    ensures ready ==> Took(ctx, WdfStop)
    ensures ready && IsRam(ctx.card.hw, ctx.card.start) ==> View(ctx) == Step(old(View(ctx)), WdfStop)
  {
    if !ctx.regMapped {
      return false;
    }
    StopDma(ctx, WdfStop);
    return true;
  }

  // ---- every interleaving -------------------------------------------------------------------------

  /** The state after a run of operations, in whatever order the two streams, the card's removal
      and the Windows requests issue them. */
  function RunOps(s: Audio, ops: seq<Op>): Audio {
    if ops == [] then s else Step(RunOps(s, ops[..|ops| - 1]), ops[|ops| - 1])
  }

  /** While DMA is flagged as running, the shadow is the register and the register enables DMA. */
  predicate Tracks(s: Audio) {
    s.running ==> s.shadow == s.conf && En(s.conf)
  }

  /** The register writes that enable DMA. */
  predicate Enables(op: Op) {
    op == WdfStart || (op.Trigger? && (op.cmd == Start || op.cmd == Resume || op.cmd == PauseRelease))
  }

  function LastWriter(ops: seq<Op>): (last: Option<Op>)
    ensures last.Some? ==> WritesConf(last.value)
  {
    if ops == [] then None
    else if WritesConf(ops[|ops| - 1]) then Some(ops[|ops| - 1])
    else LastWriter(ops[..|ops| - 1])
  }

  /** Whether the last operation that wrote the register enabled DMA; without one, as it was. */
  predicate LastEnables(ops: seq<Op>, was: bool) {
    match LastWriter(ops) case Some(op) => Enables(op) case None => was
  }

  /** A capture prepare comes after the last operation that wrote PORT_CONF. */
  predicate PreparedSince(ops: seq<Op>) {
    ops != [] && !WritesConf(ops[|ops| - 1]) && (ops[|ops| - 1] == CapturePrepare || PreparedSince(ops[..|ops| - 1]))
  }

  lemma StepEnables(s: Audio, op: Op)
    ensures WritesConf(op) ==> En(Step(s, op).conf) == Enables(op) == Step(s, op).running
    ensures !WritesConf(op) ==> Step(s, op).conf == s.conf && Step(s, op).running == (s.running && op != CapturePrepare)
  {
  }

  lemma StepTracks(s: Audio, op: Op)
    requires Tracks(s)
    ensures Tracks(Step(s, op))
  {
    StepEnables(s, op);
  }

  lemma {:induction false} RunTracks(s: Audio, ops: seq<Op>)
    requires Tracks(s)
    ensures Tracks(RunOps(s, ops))
  {
    if ops != [] {
      RunTracks(s, ops[..|ops| - 1]);
      StepTracks(RunOps(s, ops[..|ops| - 1]), ops[|ops| - 1]);
    }
  }

  /** After any run, whether DMA is enabled is decided by the last operation that wrote the
      register, and the flag agrees unless a capture was prepared since. */
  lemma {:induction false} RunOutcome(s: Audio, ops: seq<Op>)
    ensures En(RunOps(s, ops).conf) == LastEnables(ops, En(s.conf))
    ensures RunOps(s, ops).running == (!PreparedSince(ops) && LastEnables(ops, s.running))
  {
    if ops != [] {
      RunOutcome(s, ops[..|ops| - 1]);
      StepEnables(RunOps(s, ops[..|ops| - 1]), ops[|ops| - 1]);
    }
  }

  /** The converse of `Tracks`, that DMA enabled means flagged as running, is kept by a run iff it
      does not prepare a capture while DMA is enabled and then leave the register alone. */
  lemma FlagIffEnabled(s: Audio, ops: seq<Op>)
    requires s.running == En(s.conf)
    ensures (RunOps(s, ops).running <==> En(RunOps(s, ops).conf))
       <==> !(PreparedSince(ops) && LastEnables(ops, En(s.conf)))
  {
    RunOutcome(s, ops);
  }

  /** For instance: start playback, then prepare a capture. */
  lemma CapturePrepareDropsFlag(s: Audio)
    ensures var end := RunOps(s, [Trigger(Playback, Start), CapturePrepare]);
            En(end.conf) && !end.running
  {
  }

  // RUN and the direction: the pauses keep what the shadow has, and the shadow survives a playback
  // prepare.

  /** The last operation that set them outright. */
  function LastSetter(ops: seq<Op>): (last: Option<Op>)
    ensures last.Some? ==> ReadsConf(last.value)
  {
    if ops == [] then None
    else if ReadsConf(ops[|ops| - 1]) then Some(ops[|ops| - 1])
    else LastSetter(ops[..|ops| - 1])
  }

  predicate SetsRun(op: Op) {
    op == WdfStart || (op.Trigger? && (op.cmd == Start || op.cmd == Resume))
  }

  predicate SetsPlay(op: Op) {
    op == WdfStart || op == Trigger(Playback, Start) || op == Trigger(Playback, Resume)
  }

  lemma StepSets(s: Audio, op: Op)
    ensures var shadow := Step(s, op).shadow;
            if ReadsConf(op) then Runs(shadow) == SetsRun(op) && Plays(shadow) == SetsPlay(op)
            else Runs(shadow) == Runs(s.shadow) && Plays(shadow) == Plays(s.shadow)
  {
    match op
    case PlaybackPrepare =>
    case CapturePrepare =>
    case HwStop => StopBits(s.conf);
    case WdfStop => StopBits(s.conf);
    case WdfStart => WdfStartBits(s.conf);
    case Trigger(stream, cmd) => TriggerSets(s, stream, cmd);
  }

  lemma StartSets(s: Audio, stream: Stream, cmd: Command)
    requires cmd == Start || cmd == Resume
    ensures var shadow := Step(s, Trigger(stream, cmd)).shadow; Runs(shadow) && (Plays(shadow) <==> stream == Playback)
  {
    StartBits(s.conf, stream);
  }

  lemma StopSets(s: Audio, stream: Stream, cmd: Command)
    requires cmd == Stop || cmd == Suspend
    ensures var shadow := Step(s, Trigger(stream, cmd)).shadow; !Runs(shadow) && !Plays(shadow)
  {
    StopBits(s.conf);
  }

  lemma PushSets(s: Audio, stream: Stream)
    ensures var shadow := Step(s, Trigger(stream, PausePush)).shadow;
            Runs(shadow) == Runs(s.shadow) && Plays(shadow) == Plays(s.shadow)
  {
    PushKeepsRun(s.shadow);
    PushKeepsDirection(s.shadow);
  }

  lemma ReleaseSets(s: Audio, stream: Stream)
    ensures var shadow := Step(s, Trigger(stream, PauseRelease)).shadow;
            Runs(shadow) == Runs(s.shadow) && Plays(shadow) == Plays(s.shadow)
  {
    ReleaseKeepsRun(s.shadow);
    ReleaseKeepsDirection(s.shadow);
  }

  lemma TriggerSets(s: Audio, stream: Stream, cmd: Command)
    ensures var op := Trigger(stream, cmd); var shadow := Step(s, op).shadow;
            if ReadsConf(op) then Runs(shadow) == SetsRun(op) && Plays(shadow) == SetsPlay(op)
            else Runs(shadow) == Runs(s.shadow) && Plays(shadow) == Plays(s.shadow)
  {
    match cmd
    case Start => StartSets(s, stream, cmd);
    case Resume => StartSets(s, stream, cmd);
    case Stop => StopSets(s, stream, cmd);
    case Suspend => StopSets(s, stream, cmd);
    case PausePush => PushSets(s, stream);
    case PauseRelease => ReleaseSets(s, stream);
    case Other =>
  }

  lemma {:induction false} RunShadow(s: Audio, ops: seq<Op>)
    ensures Runs(RunOps(s, ops).shadow)
         == match LastSetter(ops) case Some(op) => SetsRun(op) case None => Runs(s.shadow)
    ensures Plays(RunOps(s, ops).shadow)
         == match LastSetter(ops) case Some(op) => SetsPlay(op) case None => Plays(s.shadow)
  {
    if ops != [] {
      RunShadow(s, ops[..|ops| - 1]);
      StepSets(RunOps(s, ops[..|ops| - 1]), ops[|ops| - 1]);
    }
  }

  lemma {:induction false} RunConf(s: Audio, ops: seq<Op>)
    ensures RunOps(s, ops).conf
         == match LastWriter(ops)
            case None => s.conf
            case Some(op) => if op == PlaybackPrepare then 0 else RunOps(s, ops).shadow
  {
    if ops != [] { RunConf(s, ops[..|ops| - 1]); }
  }

  /** What the register's three bits are after any run: who wrote it last decides DMA_EN; a playback
      prepare clears all three, and otherwise who last started or stopped decides RUN and DMA_RD. */
  lemma RegisterOutcome(s: Audio, ops: seq<Op>)
    requires LastWriter(ops).Some? && LastSetter(ops).Some?
    ensures var conf, writer, setter := RunOps(s, ops).conf, LastWriter(ops).value, LastSetter(ops).value;
            && En(conf) == Enables(writer)
            && Runs(conf) == (writer != PlaybackPrepare && SetsRun(setter))
            && Plays(conf) == (writer != PlaybackPrepare && SetsPlay(setter))
  {
    RunOutcome(s, ops);
    RunShadow(s, ops);
    RunConf(s, ops);
  }

  // ---- one stream ---------------------------------------------------------------------------------------

  /** The states of an ALSA stream.  A suspended stream keeps the state it goes back to. */
  datatype Alsa = Setup | Prepared | Running | Paused | Suspended | SuspendedPrepared | SuspendedPaused

  /** What the ALSA core does to a stream.  It suspends, resumes and drops a stream that is not
      running without calling the driver: `Sleep`, `Wake` and `Drop`. */
  datatype Call = Prepare | Command(cmd: Command) | Sleep | Wake | Drop

  function Next(a: Alsa, call: Call): Option<Alsa> {
    match call
    case Prepare => if a == Running || a == Paused then None else Some(Prepared)
    case Command(cmd) => AfterCommand(a, cmd)
    case Sleep =>
      if a == Prepared then Some(SuspendedPrepared) else if a == Paused then Some(SuspendedPaused) else None
    case Wake =>
      if a == SuspendedPrepared then Some(Prepared) else if a == SuspendedPaused then Some(Paused) else None
    case Drop => if a == Running || a == Paused then None else Some(Setup)
  }

  function AfterCommand(a: Alsa, cmd: Command): Option<Alsa> {
    match cmd
    case Start => if a == Prepared then Some(Running) else None
    case Stop => if a == Running || a == Paused then Some(Setup) else None
    case PausePush => if a == Running then Some(Paused) else None
    case PauseRelease => if a == Paused then Some(Running) else None
    case Suspend => if a == Running then Some(Suspended) else None
    case Resume => if a == Suspended then Some(Running) else None
    case Other => None
  }

  /** The callback it makes, if any. */
  function OpsOf(stream: Stream, call: Call): seq<Op> {
    match call
    case Prepare => (match stream case Playback => [PlaybackPrepare] case Capture => [CapturePrepare])
    case Command(cmd) => [Trigger(stream, cmd)]
    case Sleep => []
    case Wake => []
    case Drop => []
  }

  function RunStream(a: Alsa, calls: seq<Call>): Option<Alsa> {
    if calls == [] then Some(a)
    else
      match RunStream(a, calls[..|calls| - 1])
      case None => None
      case Some(b) => Next(b, calls[|calls| - 1])
  }

  function ToOps(stream: Stream, calls: seq<Call>): seq<Op> {
    if calls == [] then [] else ToOps(stream, calls[..|calls| - 1]) + OpsOf(stream, calls[|calls| - 1])
  }

  /** A stretch of a run in which at most one operation happens. */
  function Steps(s: Audio, ops: seq<Op>): Audio
    requires |ops| <= 1
  {
    if ops == [] then s else Step(s, ops[0])
  }

  lemma RunThen(s: Audio, ops: seq<Op>, more: seq<Op>)
    requires |more| <= 1
    ensures RunOps(s, ops + more) == Steps(RunOps(s, ops), more)
  {
    if more == [] {
      assert ops + more == ops;
    } else {
      assert (ops + more)[..|ops + more| - 1] == ops;
    }
  }

  predicate Halted(stream: Stream, s: Audio) {
    !s.running && s.shadow == s.conf && !En(s.conf) && Runs(s.conf) && (Plays(s.conf) <==> stream == Playback)
  }

  /** What the register and the flag are in each ALSA state. */
  predicate Refines(stream: Stream, a: Alsa, s: Audio) {
    match a
    case Running =>
      s.running && s.shadow == s.conf && En(s.conf) && Runs(s.conf) && (Plays(s.conf) <==> stream == Playback)
    case Paused => Halted(stream, s)
    case SuspendedPaused => Halted(stream, s)
    case _ => !s.running
  }

  const RUNNING_PLAYBACK: bv32 := 0x6_0080
  const PAUSED_PLAYBACK: bv32 := 0x6_0000

  /** Playback starts from a cleared register, so its value is known outright once prepared. */
  predicate ExactPlayback(a: Alsa, conf: bv32) {
    match a
    case Setup => true
    case Prepared => conf == 0
    case SuspendedPrepared => conf == 0
    case Suspended => conf == 0
    case Running => conf == RUNNING_PLAYBACK
    case Paused => conf == PAUSED_PLAYBACK
    case SuspendedPaused => conf == PAUSED_PLAYBACK
  }

  lemma {:induction false} WriterThatSets(ops: seq<Op>)
    requires LastWriter(ops).Some? && ReadsConf(LastWriter(ops).value)
    ensures LastSetter(ops) == LastWriter(ops)
  {
    if !WritesConf(ops[|ops| - 1]) { WriterThatSets(ops[..|ops| - 1]); }
  }

  /** The stream's DMA was started, and not ended since by its own callbacks. */
  predicate Live(a: Alsa) {
    a == Running || a == Paused || a == SuspendedPaused
  }

  /** It started DMA in the stream's direction. */
  predicate StartsFor(op: Op, stream: Stream) {
    SetsRun(op) && (SetsPlay(op) <==> stream == Playback)
  }

  /** What a run must leave alone for the register, the shadow and the flag to be as the stream's own
      state says. */
  predicate Undisturbed(stream: Stream, a: Alsa, ops: seq<Op>) {
    if !Live(a) then
      PreparedSince(ops) || !LastEnables(ops, false)
    else
      && LastWriter(ops).Some? && LastSetter(ops).Some? && StartsFor(LastSetter(ops).value, stream)
      && (if a == Running then Enables(LastWriter(ops).value) && !PreparedSince(ops)
          else LastWriter(ops).value.Trigger? && LastWriter(ops).value.cmd == PausePush)
  }

  lemma LiveRefinesIff(s: Audio, ops: seq<Op>, stream: Stream, a: Alsa)
    requires !s.running && Live(a) && LastWriter(ops).Some? && LastSetter(ops).Some?
    ensures Refines(stream, a, RunOps(s, ops)) <==> Undisturbed(stream, a, ops)
  {
    RunOutcome(s, ops);
    RegisterOutcome(s, ops);
    RunConf(s, ops);
    if ReadsConf(LastWriter(ops).value) { WriterThatSets(ops); }
  }

  lemma RefinesIff(s: Audio, ops: seq<Op>, stream: Stream, a: Alsa)
    requires !s.running && (Live(a) ==> LastWriter(ops).Some? && LastSetter(ops).Some?)
    ensures Refines(stream, a, RunOps(s, ops)) <==> Undisturbed(stream, a, ops)
  {
    RunOutcome(s, ops);
    if Live(a) { LiveRefinesIff(s, ops, stream, a); }
  }

  /** What is said of a run and one more operation. */
  lemma LastOf(ops: seq<Op>, more: seq<Op>)
    requires |more| <= 1
    ensures more == [] ==> LastWriter(ops + more) == LastWriter(ops) && LastSetter(ops + more) == LastSetter(ops)
    ensures more != [] ==> LastWriter(ops + more) == if WritesConf(more[0]) then Some(more[0]) else LastWriter(ops)
    ensures more != [] ==> LastSetter(ops + more) == if ReadsConf(more[0]) then Some(more[0]) else LastSetter(ops)
    ensures PreparedSince(ops + more)
         == if more == [] then PreparedSince(ops)
            else !WritesConf(more[0]) && (more[0] == CapturePrepare || PreparedSince(ops))
  {
    if more == [] {
      assert ops + more == ops;
    } else {
      assert (ops + more)[..|ops + more| - 1] == ops;
    }
  }

  lemma UndisturbedStep(stream: Stream, a: Alsa, ops: seq<Op>, call: Call)
    requires Undisturbed(stream, a, ops) && Next(a, call).Some?
    ensures Undisturbed(stream, Next(a, call).value, ops + OpsOf(stream, call))
  {
    LastOf(ops, OpsOf(stream, call));
  }

  /** A stream that is alone is never disturbed. */
  lemma {:induction false} AloneUndisturbed(stream: Stream, calls: seq<Call>)
    requires RunStream(Setup, calls).Some?
    ensures Undisturbed(stream, RunStream(Setup, calls).value, ToOps(stream, calls))
  {
    if calls != [] {
      var init := calls[..|calls| - 1];
      AloneUndisturbed(stream, init);
      UndisturbedStep(stream, RunStream(Setup, init).value, ToOps(stream, init), calls[|calls| - 1]);
    }
  }

  lemma PlaybackValues()
    ensures StartConf(0, Playback) == RUNNING_PLAYBACK && StopConf(RUNNING_PLAYBACK) == 0
    ensures PushConf(RUNNING_PLAYBACK) == PAUSED_PLAYBACK && ReleaseConf(PAUSED_PLAYBACK) == RUNNING_PLAYBACK
  {
  }

  lemma CommandExact(a: Alsa, s: Audio, cmd: Command)
    requires Refines(Playback, a, s) && ExactPlayback(a, s.conf) && AfterCommand(a, cmd).Some?
    ensures ExactPlayback(AfterCommand(a, cmd).value, Step(s, Trigger(Playback, cmd)).conf)
  {
    PlaybackValues();
  }

  lemma StepExact(a: Alsa, s: Audio, call: Call)
    requires Refines(Playback, a, s) && ExactPlayback(a, s.conf) && Next(a, call).Some?
    ensures ExactPlayback(Next(a, call).value, Steps(s, OpsOf(Playback, call)).conf)
  {
    if call.Command? { CommandExact(a, s, call.cmd); }
  }

  lemma {:induction false} ExactRun(s: Audio, calls: seq<Call>)
    requires !s.running && RunStream(Setup, calls).Some?
    ensures ExactPlayback(RunStream(Setup, calls).value, RunOps(s, ToOps(Playback, calls)).conf)
  {
    if calls != [] {
      var init, call := calls[..|calls| - 1], calls[|calls| - 1];
      var a, ops := RunStream(Setup, init).value, ToOps(Playback, init);
      ExactRun(s, init);
      AloneUndisturbed(Playback, init);
      RefinesIff(s, ops, Playback, a);
      StepExact(a, RunOps(s, ops), call);
      RunThen(s, ops, OpsOf(Playback, call));
    }
  }

  lemma OffStep(stream: Stream, a: Alsa, ops: seq<Op>, call: Call)
    requires Next(a, call).Some? && (a != Running ==> !LastEnables(ops, false))
    ensures Next(a, call).value != Running ==> !LastEnables(ops + OpsOf(stream, call), false)
  {
    LastOf(ops, OpsOf(stream, call));
  }

  lemma {:induction false} AloneOff(stream: Stream, calls: seq<Call>)
    requires RunStream(Setup, calls).Some?
    ensures RunStream(Setup, calls).value != Running ==> !LastEnables(ToOps(stream, calls), false)
  {
    if calls != [] {
      var init := calls[..|calls| - 1];
      AloneOff(stream, init);
      OffStep(stream, RunStream(Setup, init).value, ToOps(stream, init), calls[|calls| - 1]);
    }
  }

  /** Over every ALSA-legal run of one stream, from any register value, the register, the shadow and
      the flag are what the stream's state says; and if DMA was off before, it is on in no state but
      running. */
  lemma StreamRefines(stream: Stream, s: Audio, calls: seq<Call>)
    requires !s.running && RunStream(Setup, calls).Some?
    ensures !En(s.conf) ==>
              (En(RunOps(s, ToOps(stream, calls)).conf) <==> RunStream(Setup, calls).value == Running)
    ensures Refines(stream, RunStream(Setup, calls).value, RunOps(s, ToOps(stream, calls)))
    ensures stream == Playback ==> ExactPlayback(RunStream(Setup, calls).value, RunOps(s, ToOps(stream, calls)).conf)
  {
    AloneUndisturbed(stream, calls);
    RefinesIff(s, ToOps(stream, calls), stream, RunStream(Setup, calls).value);
    if stream == Playback { ExactRun(s, calls); }
    RunOutcome(s, ToOps(stream, calls));
    AloneOff(stream, calls);
  }

  // ---- the other bits ---------------------------------------------------------------------------------------

  // Bits 7, 17, 18 and 31 are the driver's: the masks below are all others.

  lemma StopKeeps(conf: bv32)
    ensures StopConf(conf) & 0x7FF9_FF7F == conf & 0x7FF9_FF7F
  {
  }

  lemma StopClearsBits(conf: bv32)
    ensures StopConf(conf) & 0x8006_0080 == 0
  {
  }

  lemma PlaybackStartKeeps(conf: bv32)
    ensures StartConf(conf, Playback) & 0xFFF9_FF7F == conf & 0xFFF9_FF7F
  {
  }

  lemma PlaybackStartSets(conf: bv32)
    ensures StartConf(conf, Playback) & 0x0006_0080 == 0x0006_0080
  {
  }

  lemma CaptureStartKeeps(conf: bv32)
    ensures StartConf(conf, Capture) & 0xFFF9_FF7F == conf & 0xFFF9_FF7F
  {
  }

  lemma CaptureStartSets(conf: bv32)
    ensures StartConf(conf, Capture) & 0x0006_0080 == 0x0002_0080
  {
  }

  lemma WdfStartKeeps(conf: bv32)
    ensures WdfStartConf(conf) & 0xFFF9_FF7F == conf & 0xFFF9_FF7F
  {
  }

  lemma WdfStartSets(conf: bv32)
    ensures WdfStartConf(conf) & 0x0006_0080 == 0x0006_0080
  {
  }

  lemma PushKeeps(shadow: bv32)
    ensures PushConf(shadow) & 0xFFFF_FF7F == shadow & 0xFFFF_FF7F
  {
  }

  lemma PushClears(shadow: bv32)
    ensures PushConf(shadow) & 0x80 == 0
  {
  }

  lemma ReleaseKeeps(shadow: bv32)
    ensures ReleaseConf(shadow) & 0xFFFF_FF7F == shadow & 0xFFFF_FF7F
  {
  }

  lemma ReleaseSetsBit(shadow: bv32)
    ensures ReleaseConf(shadow) & 0x80 == 0x80
  {
  }

  lemma StopStep(s: Audio, op: Op)
    requires StopsDma(op)
    ensures Step(s, op) == Audio(StopConf(s.conf), StopConf(s.conf), false)
  {
  }

  lemma StartStep(s: Audio, stream: Stream, cmd: Command)
    requires cmd == Start || cmd == Resume
    ensures Step(s, Trigger(stream, cmd)) == Audio(StartConf(s.conf, stream), StartConf(s.conf, stream), true)
  {
  }

  lemma WdfStartStep(s: Audio)
    ensures Step(s, WdfStart) == Audio(WdfStartConf(s.conf), WdfStartConf(s.conf), true)
  {
  }

  lemma PushStep(s: Audio, stream: Stream)
    ensures Step(s, Trigger(stream, PausePush)) == Audio(PushConf(s.shadow), PushConf(s.shadow), false)
  {
  }

  lemma ReleaseStep(s: Audio, stream: Stream)
    ensures Step(s, Trigger(stream, PauseRelease)) == Audio(ReleaseConf(s.shadow), ReleaseConf(s.shadow), true)
  {
  }

  /** The four bits are clear and all others are as they were. */
  predicate Stopped(t: Audio, was: bv32) {
    && t.conf & 0x7FF9_FF7F == was & 0x7FF9_FF7F && t.conf & 0x8006_0080 == 0
    && t.shadow == t.conf && !t.running
  }

  /** DMA_EN and RUN are set, DMA_RD is the direction, and all others are as they were. */
  predicate Started(t: Audio, was: bv32, play: bool) {
    && t.conf & 0xFFF9_FF7F == was & 0xFFF9_FF7F && t.conf & 0x0006_0080 == (if play then 0x0006_0080 else 0x0002_0080)
    && t.shadow == t.conf && t.running
  }

  /** DMA_EN is set or clear and all others are as they were. */
  predicate Switched(t: Audio, was: bv32, on: bool) {
    && t.conf & 0xFFFF_FF7F == was & 0xFFFF_FF7F && t.conf & 0x80 == (if on then 0x80 else 0)
    && t.shadow == t.conf && t.running == on
  }

  lemma StopIs(conf: bv32)
    ensures Stopped(Audio(StopConf(conf), StopConf(conf), false), conf)
  {
    StopKeeps(conf);
    StopClearsBits(conf);
  }

  lemma PlaybackStartIs(conf: bv32)
    ensures Started(Audio(StartConf(conf, Playback), StartConf(conf, Playback), true), conf, true)
  {
    PlaybackStartKeeps(conf);
    PlaybackStartSets(conf);
  }

  lemma CaptureStartIs(conf: bv32)
    ensures Started(Audio(StartConf(conf, Capture), StartConf(conf, Capture), true), conf, false)
  {
    CaptureStartKeeps(conf);
    CaptureStartSets(conf);
  }

  lemma WdfStartIs(conf: bv32)
    ensures Started(Audio(WdfStartConf(conf), WdfStartConf(conf), true), conf, true)
  {
    WdfStartKeeps(conf);
    WdfStartSets(conf);
  }

  lemma PushIs(shadow: bv32)
    ensures Switched(Audio(PushConf(shadow), PushConf(shadow), false), shadow, false)
  {
    PushKeeps(shadow);
    PushClears(shadow);
  }

  lemma ReleaseIs(shadow: bv32)
    ensures Switched(Audio(ReleaseConf(shadow), ReleaseConf(shadow), true), shadow, true)
  {
    ReleaseKeeps(shadow);
    ReleaseSetsBit(shadow);
  }

  lemma StopClears(s: Audio, op: Op)
    requires StopsDma(op)
    ensures Stopped(Step(s, op), s.conf)
  {
    StopStep(s, op);
    StopIs(s.conf);
  }

  lemma TriggerStarts(s: Audio, stream: Stream, cmd: Command)
    requires cmd == Start || cmd == Resume
    ensures Started(Step(s, Trigger(stream, cmd)), s.conf, stream == Playback)
  {
    StartStep(s, stream, cmd);
    match stream
    case Playback => PlaybackStartIs(s.conf);
    case Capture => CaptureStartIs(s.conf);
  }

  lemma WdfStarts(s: Audio)
    ensures Started(Step(s, WdfStart), s.conf, true)
  {
    WdfStartStep(s);
    WdfStartIs(s.conf);
  }

  lemma PauseSwitches(s: Audio, stream: Stream, cmd: Command)
    requires cmd == PausePush || cmd == PauseRelease
    ensures Switched(Step(s, Trigger(stream, cmd)), s.shadow, cmd == PauseRelease)
  {
    if cmd == PausePush {
      PushStep(s, stream);
      PushIs(s.shadow);
    } else {
      ReleaseStep(s, stream);
      ReleaseIs(s.shadow);
    }
  }

  // From the masks of one operation to the bits that are not the driver's.

  predicate SameOthers(conf: bv32, was: bv32) {
    conf & 0x7FF9_FF7F == was & 0x7FF9_FF7F
  }

  lemma StoppedOthers(t: Audio, conf: bv32, was: bv32)
    requires Stopped(t, conf) && SameOthers(conf, was)
    ensures SameOthers(t.conf, was) && t.shadow == t.conf
  {
  }

  lemma StartedOthers(t: Audio, conf: bv32, was: bv32, play: bool)
    requires Started(t, conf, play) && SameOthers(conf, was)
    ensures SameOthers(t.conf, was) && t.shadow == t.conf
  {
  }

  lemma SwitchedOthers(t: Audio, shadow: bv32, was: bv32, on: bool)
    requires Switched(t, shadow, on) && SameOthers(shadow, was)
    ensures SameOthers(t.conf, was) && t.shadow == t.conf
  {
  }

  lemma StopOthers(s: Audio, op: Op, was: bv32)
    requires StopsDma(op) && SameOthers(s.conf, was)
    ensures SameOthers(Step(s, op).conf, was) && Step(s, op).shadow == Step(s, op).conf
  {
    StopClears(s, op);
    StoppedOthers(Step(s, op), s.conf, was);
  }

  lemma StartOthers(s: Audio, stream: Stream, cmd: Command, was: bv32)
    requires (cmd == Start || cmd == Resume) && SameOthers(s.conf, was)
    ensures SameOthers(Step(s, Trigger(stream, cmd)).conf, was)
    ensures Step(s, Trigger(stream, cmd)).shadow == Step(s, Trigger(stream, cmd)).conf
  {
    StartStep(s, stream, cmd);
    match stream
    case Playback => PlaybackStartOthers(s.conf, was);
    case Capture => CaptureStartOthers(s.conf, was);
  }

  lemma PlaybackStartOthers(conf: bv32, was: bv32)
    requires SameOthers(conf, was)
    ensures SameOthers(StartConf(conf, Playback), was)
  {
    PlaybackStartIs(conf);
    StartedOthers(Audio(StartConf(conf, Playback), StartConf(conf, Playback), true), conf, was, true);
  }

  lemma CaptureStartOthers(conf: bv32, was: bv32)
    requires SameOthers(conf, was)
    ensures SameOthers(StartConf(conf, Capture), was)
  {
    CaptureStartIs(conf);
    StartedOthers(Audio(StartConf(conf, Capture), StartConf(conf, Capture), true), conf, was, false);
  }

  lemma WdfStartOthers(s: Audio, was: bv32)
    requires SameOthers(s.conf, was)
    ensures SameOthers(Step(s, WdfStart).conf, was) && Step(s, WdfStart).shadow == Step(s, WdfStart).conf
  {
    WdfStarts(s);
    StartedOthers(Step(s, WdfStart), s.conf, was, true);
  }

  lemma PauseOthers(s: Audio, stream: Stream, cmd: Command, was: bv32)
    requires (cmd == PausePush || cmd == PauseRelease) && SameOthers(s.shadow, was)
    ensures var t := Step(s, Trigger(stream, cmd)); SameOthers(t.conf, was) && t.shadow == t.conf
  {
    PauseSwitches(s, stream, cmd);
    SwitchedOthers(Step(s, Trigger(stream, cmd)), s.shadow, was, cmd == PauseRelease);
  }

  // A run by any step function; `RunOps` is the one with `Step`.

  type Stepper = (Audio, Op) -> Audio

  function Fold(step: Stepper, s: Audio, ops: seq<Op>): Audio {
    if ops == [] then s else step(Fold(step, s, ops[..|ops| - 1]), ops[|ops| - 1])
  }

  lemma {:induction false} RunIsFold(s: Audio, ops: seq<Op>)
    ensures RunOps(s, ops) == Fold(Step, s, ops)
  {
    if ops != [] { RunIsFold(s, ops[..|ops| - 1]); }
  }

  lemma FoldOne(step: Stepper, s: Audio, ops: seq<Op>, more: seq<Op>)
    requires |more| <= 1
    ensures Fold(step, s, ops + more) == if more == [] then Fold(step, s, ops) else step(Fold(step, s, ops), more[0])
  {
    if more == [] {
      assert ops + more == ops;
    } else {
      assert (ops + more)[..|ops + more| - 1] == ops;
    }
  }

  /** The other bits are those of `was`, in the shadow too while the stream's DMA is not ended. */
  predicate CaptureOthers(a: Alsa, s: Audio, was: bv32) {
    SameOthers(s.conf, was) && (Live(a) ==> s.shadow == s.conf)
  }

  /** The step function does to a stream's other bits what it should. */
  ghost predicate StepsCapture(step: Stepper, was: bv32) {
    forall a, s, cmd :: CaptureOthers(a, s, was) && AfterCommand(a, cmd).Some? ==>
                          CaptureOthers(AfterCommand(a, cmd).value, step(s, Trigger(Capture, cmd)), was)
  }

  ghost predicate PreparesCapture(step: Stepper) {
    forall s :: step(s, CapturePrepare).conf == s.conf
  }

  lemma {:induction false} FoldCapture(step: Stepper, s: Audio, calls: seq<Call>, was: bv32)
    requires StepsCapture(step, was) && PreparesCapture(step)
    requires SameOthers(s.conf, was) && RunStream(Setup, calls).Some?
    ensures CaptureOthers(RunStream(Setup, calls).value, Fold(step, s, ToOps(Capture, calls)), was)
  {
    if calls != [] {
      var init, call := calls[..|calls| - 1], calls[|calls| - 1];
      FoldCapture(step, s, init, was);
      FoldOne(step, s, ToOps(Capture, init), OpsOf(Capture, call));
    }
  }

  lemma CaptureStep(a: Alsa, s: Audio, cmd: Command, was: bv32)
    requires CaptureOthers(a, s, was) && AfterCommand(a, cmd).Some?
    ensures CaptureOthers(AfterCommand(a, cmd).value, Step(s, Trigger(Capture, cmd)), was)
  {
    match cmd
    case Start => StartOthers(s, Capture, Start, was);
    case Resume => StartOthers(s, Capture, Resume, was);
    case Stop => StopOthers(s, Trigger(Capture, Stop), was);
    case Suspend => StopOthers(s, Trigger(Capture, Suspend), was);
    case PausePush => PauseOthers(s, Capture, PausePush, was);
    case PauseRelease => PauseOthers(s, Capture, PauseRelease, was);
  }

  /** Over every legal capture run the bits that are not the driver's are what they were. */
  lemma CaptureKeepsOthers(s: Audio, calls: seq<Call>)
    requires !s.running && RunStream(Setup, calls).Some?
    ensures SameOthers(RunOps(s, ToOps(Capture, calls)).conf, s.conf)
  {
    forall a, t, cmd | CaptureOthers(a, t, s.conf) && AfterCommand(a, cmd).Some?
      ensures CaptureOthers(AfterCommand(a, cmd).value, Step(t, Trigger(Capture, cmd)), s.conf)
    {
      CaptureStep(a, t, cmd, s.conf);
    }
    FoldCapture(Step, s, calls, s.conf);
    RunIsFold(s, ToOps(Capture, calls));
  }

  /** The register and the shadow have the other bits of `was`. */
  predicate Others(s: Audio, was: bv32) {
    SameOthers(s.conf, was) && SameOthers(s.shadow, was)
  }

  lemma ShadowedOthers(t: Audio, was: bv32)
    requires SameOthers(t.conf, was) && t.shadow == t.conf
    ensures Others(t, was)
  {
  }

  lemma CommandOthers(s: Audio, stream: Stream, cmd: Command, was: bv32)
    requires cmd != Other && Others(s, was)
    ensures Others(Step(s, Trigger(stream, cmd)), was)
  {
    match cmd
    case Start => StartOthers(s, stream, Start, was);
    case Resume => StartOthers(s, stream, Resume, was);
    case Stop => StopOthers(s, Trigger(stream, Stop), was);
    case Suspend => StopOthers(s, Trigger(stream, Suspend), was);
    case PausePush => PauseOthers(s, stream, PausePush, was);
    case PauseRelease => PauseOthers(s, stream, PauseRelease, was);
    ShadowedOthers(Step(s, Trigger(stream, cmd)), was);
  }

  lemma OtherCommand(s: Audio, stream: Stream)
    ensures Step(s, Trigger(stream, Other)) == s
  {
  }

  lemma StepOthers(s: Audio, op: Op, was: bv32)
    requires op != PlaybackPrepare && Others(s, was)
    ensures Others(Step(s, op), was)
  {
    match op
    case CapturePrepare =>
    case HwStop =>
      StopOthers(s, HwStop, was);
      ShadowedOthers(Step(s, HwStop), was);
    case WdfStop =>
      StopOthers(s, WdfStop, was);
      ShadowedOthers(Step(s, WdfStop), was);
    case WdfStart =>
      WdfStartOthers(s, was);
      ShadowedOthers(Step(s, WdfStart), was);
    case Trigger(stream, cmd) =>
      if cmd == Other { OtherCommand(s, stream); } else { CommandOthers(s, stream, cmd, was); }
  }

  lemma {:induction false} FoldKeeps(step: Stepper, s: Audio, ops: seq<Op>, was: bv32)
    requires Others(s, was) && PlaybackPrepare !in ops
    requires forall t, op :: op != PlaybackPrepare && Others(t, was) ==> Others(step(t, op), was)
    ensures Others(Fold(step, s, ops), was)
  {
    if ops != [] { FoldKeeps(step, s, ops[..|ops| - 1], was); }
  }

  /** Over every interleaving in which no playback is prepared, too: only that clears them. */
  lemma RunKeepsOthers(s: Audio, ops: seq<Op>, was: bv32)
    requires Others(s, was) && PlaybackPrepare !in ops
    ensures Others(RunOps(s, ops), was)
  {
    forall t, op | op != PlaybackPrepare && Others(t, was) ensures Others(Step(t, op), was) { StepOthers(t, op, was); }
    FoldKeeps(Step, s, ops, was);
    RunIsFold(s, ops);
  }

  // ---- pausing ----------------------------------------------------------------------------------------------

  function PausePairs(stream: Stream, n: nat): seq<Op> {
    if n == 0 then []
    else PausePairs(stream, n - 1) + [Trigger(stream, PausePush), Trigger(stream, PauseRelease)]
  }

  lemma FoldTwo(step: Stepper, s: Audio, ops: seq<Op>, a: Op, b: Op)
    ensures Fold(step, s, ops + [a, b]) == step(step(Fold(step, s, ops), a), b)
  {
    var all := ops + [a, b];
    assert all[..|all| - 1] == ops + [a] && (ops + [a])[..|ops|] == ops;
  }

  lemma {:induction false} FoldPairs(step: Stepper, s: Audio, stream: Stream, n: nat)
    requires step(step(s, Trigger(stream, PausePush)), Trigger(stream, PauseRelease)) == s
    ensures Fold(step, s, PausePairs(stream, n)) == s
  {
    if n > 0 {
      FoldPairs(step, s, stream, n - 1);
      FoldTwo(step, s, PausePairs(stream, n - 1), Trigger(stream, PausePush), Trigger(stream, PauseRelease));
    }
  }

  lemma PairRestores(stream: Stream, s: Audio)
    requires s.running && Tracks(s)
    ensures Step(Step(s, Trigger(stream, PausePush)), Trigger(stream, PauseRelease)) == s
  {
    ReleaseUndoesPush(s.conf);
  }

  /** Any number of pause/release pairs gives back the exact state of a running stream. */
  lemma PausePairsRestore(stream: Stream, s: Audio, n: nat)
    requires s.running && Tracks(s)
    ensures RunOps(s, PausePairs(stream, n)) == s
  {
    PairRestores(stream, s);
    FoldPairs(Step, s, stream, n);
    RunIsFold(s, PausePairs(stream, n));
  }

  // ---- two streams ------------------------------------------------------------------------------------------------

  datatype Both = Both(playback: Alsa, capture: Alsa) {
    function Of(stream: Stream): Alsa {
      match stream case Playback => playback case Capture => capture
    }
  }

  /** A step of the two streams together, or of hw_stop and the Windows requests, which do not go
      through the ALSA core and so leave its states alone. */
  datatype Turn = Core(stream: Stream, call: Call) | Removed | Requested(start: bool)

  function NextBoth(b: Both, turn: Turn): Option<Both> {
    match turn
    case Core(Playback, call) =>
      (match Next(b.playback, call) case Some(a) => Some(b.(playback := a)) case None => None)
    case Core(Capture, call) =>
      (match Next(b.capture, call) case Some(a) => Some(b.(capture := a)) case None => None)
    case _ => Some(b)
  }

  function TurnOps(turn: Turn): seq<Op> {
    match turn
    case Core(stream, call) => OpsOf(stream, call)
    case Removed => [HwStop]
    case Requested(start) => [if start then WdfStart else WdfStop]
  }

  function RunBoth(b: Both, turns: seq<Turn>): Option<Both> {
    if turns == [] then Some(b)
    else
      match RunBoth(b, turns[..|turns| - 1])
      case None => None
      case Some(c) => NextBoth(c, turns[|turns| - 1])
  }

  function AllOps(turns: seq<Turn>): seq<Op> {
    if turns == [] then [] else AllOps(turns[..|turns| - 1]) + TurnOps(turns[|turns| - 1])
  }

  lemma LiveStep(b: Both, turn: Turn, stream: Stream)
    requires NextBoth(b, turn).Some? && Live(NextBoth(b, turn).value.Of(stream))
    ensures Live(b.Of(stream)) || (TurnOps(turn) != [] && ReadsConf(TurnOps(turn)[0]))
  {
  }

  lemma StartedStep(b: Both, turn: Turn, stream: Stream, ops: seq<Op>)
    requires NextBoth(b, turn).Some? && Live(NextBoth(b, turn).value.Of(stream))
    requires Live(b.Of(stream)) ==> LastSetter(ops).Some? && LastWriter(ops).Some?
    ensures LastSetter(ops + TurnOps(turn)).Some? && LastWriter(ops + TurnOps(turn)).Some?
  {
    LiveStep(b, turn, stream);
    LastOf(ops, TurnOps(turn));
  }

  lemma {:induction false} LiveWasStarted(turns: seq<Turn>, stream: Stream)
    requires RunBoth(Both(Setup, Setup), turns).Some?
    requires Live(RunBoth(Both(Setup, Setup), turns).value.Of(stream))
    ensures LastSetter(AllOps(turns)).Some? && LastWriter(AllOps(turns)).Some?
  {
    var init, turn := turns[..|turns| - 1], turns[|turns| - 1];
    var b := RunBoth(Both(Setup, Setup), init).value;
    if Live(b.Of(stream)) { LiveWasStarted(init, stream); }
    StartedStep(b, turn, stream, AllOps(init));
  }

  /** Two streams share one register: over every legal run of both, with removal and Windows requests
      in between, what holds of a single stream holds of each iff it was left undisturbed. */
  lemma BothRefineIff(s: Audio, turns: seq<Turn>, stream: Stream)
    requires !s.running && RunBoth(Both(Setup, Setup), turns).Some?
    ensures var a := RunBoth(Both(Setup, Setup), turns).value.Of(stream);
            Refines(stream, a, RunOps(s, AllOps(turns))) <==> Undisturbed(stream, a, AllOps(turns))
  {
    var a, ops := RunBoth(Both(Setup, Setup), turns).value.Of(stream), AllOps(turns);
    if Live(a) { LiveWasStarted(turns, stream); }
    RefinesIff(s, ops, stream, a);
  }

  /** With two streams, a stream that ALSA holds running has DMA enabled iff the last register
      write, whoever made it, was a start, resume or pause release. */
  lemma RunningHasDmaIff(s: Audio, turns: seq<Turn>, stream: Stream)
    requires RunBoth(Both(Setup, Setup), turns).Some?
    requires RunBoth(Both(Setup, Setup), turns).value.Of(stream) == Running
    ensures var ops := AllOps(turns);
            LastWriter(ops).Some? && (En(RunOps(s, ops).conf) <==> Enables(LastWriter(ops).value))
  {
    LiveWasStarted(turns, stream);
    RunOutcome(s, AllOps(turns));
  }

  const BOTH_RUN: seq<Turn> :=
    [Core(Playback, Prepare), Core(Playback, Command(Start)), Core(Capture, Prepare), Core(Capture, Command(Start))]

  lemma BothRun()
    ensures RunBoth(Both(Setup, Setup), BOTH_RUN) == Some(Both(Running, Running))
    ensures AllOps(BOTH_RUN) == [PlaybackPrepare, Trigger(Playback, Start), CapturePrepare, Trigger(Capture, Start)]
  {
    var b := Both(Setup, Setup);
    var turns1 := [Core(Playback, Prepare)];
    var turns2 := [Core(Playback, Prepare), Core(Playback, Command(Start))];
    var turns3 := [Core(Playback, Prepare), Core(Playback, Command(Start)), Core(Capture, Prepare)];
    assert turns1[..0] == [] && turns2[..1] == turns1 && turns3[..2] == turns2 && BOTH_RUN[..3] == turns3;
    assert RunBoth(b, turns1) == Some(Both(Prepared, Setup)) && AllOps(turns1) == [PlaybackPrepare];
    assert RunBoth(b, turns2) == Some(Both(Running, Setup));
    assert AllOps(turns2) == [PlaybackPrepare, Trigger(Playback, Start)];
    assert RunBoth(b, turns3) == Some(Both(Running, Prepared));
    assert AllOps(turns3) == [PlaybackPrepare, Trigger(Playback, Start), CapturePrepare];
  }

  /** For instance: with both streams started, the direction is the capture's. */
  lemma SecondStreamTurnsDirection(s: Audio)
    ensures RunBoth(Both(Setup, Setup), BOTH_RUN) == Some(Both(Running, Running))
    ensures var conf := RunOps(s, AllOps(BOTH_RUN)).conf; En(conf) && Runs(conf) && !Plays(conf)
  {
    BothRun();
    RegisterOutcome(s, AllOps(BOTH_RUN));
  }

  /** And stopping one of them stops the DMA of the other. */
  lemma OtherStreamStopsDma(s: Audio)
    ensures var turns := BOTH_RUN + [Core(Capture, Command(Stop))];
            && RunBoth(Both(Setup, Setup), turns) == Some(Both(Running, Setup))
            && !En(RunOps(s, AllOps(turns)).conf) && !RunOps(s, AllOps(turns)).running
  {
    BothRun();
    var turns := BOTH_RUN + [Core(Capture, Command(Stop))];
    assert turns[..|turns| - 1] == BOTH_RUN;
    LastOf(AllOps(BOTH_RUN), [Trigger(Capture, Stop)]);
    RunOutcome(s, AllOps(turns));
  }
}
