/** The platform layer: the card behind its three BARs, and the driver context.

    The card keeps the history of every bus access.  What it answers to a read is
    an arbitrary function of that history (`hw`), so a statement about all `hw` is a
    statement about all hardware.  The plain-RAM card is the special case in which a
    word reads back the last value written to it. */
module Pal {

  datatype Option<+T> = None | Some(value: T)

  datatype Bar = Dsp | Reg | Port

  datatype Event =
    | Wr(bar: Bar, offset: u32, value: bv32)
    | Rd(bar: Bar, offset: u32, value: bv32)

  type History = seq<Event>
  type Hardware = (History, Bar, u32) -> bv32
  type Memory = (Bar, u32) -> bv32

  // Words whose bits matter are bit-vectors; numbers that are only compared, added or
  // multiplied are bounded integers.
  type u32 = x: int | 0 <= x < 0x1_0000_0000
  type u64 = x: int | 0 <= x < 0x1_0000_0000_0000_0000

  const U64 := 0x1_0000_0000_0000_0000

  // ---- histories ----------------------------------------------------------

  predicate WritesTo(e: Event, bar: Bar, offset: u32) {
    e.Wr? && e.bar == bar && e.offset == offset
  }

  function LastWrite(log: History, bar: Bar, offset: u32): Option<bv32> {
    if log == [] then None
    else
      var e := log[|log| - 1];
      if WritesTo(e, bar, offset) then Some(e.value) else LastWrite(log[..|log| - 1], bar, offset)
  }

  /** The word a plain RAM holds after `log`, given what it held at power-on. */
  function Mem(start: Memory, log: History, bar: Bar, offset: u32): bv32 {
    match LastWrite(log, bar, offset)
    case Some(v) => v
    case None => start(bar, offset)
  }

  predicate ReadsBack(hw: Hardware, start: Memory, log: History, bar: Bar, offset: u32) {
    hw(log, bar, offset) == Mem(start, log, bar, offset)
  }

  /** Hardware in which every word reads back what was last written to it. */
  ghost predicate IsRam(hw: Hardware, start: Memory) {
    forall log, bar, offset :: ReadsBack(hw, start, log, bar, offset)
  }

  function RamOf(start: Memory): Hardware {
    (log: History, bar: Bar, offset: u32) => Mem(start, log, bar, offset)
  }

  /** For every power-on contents there is such a hardware. */
  lemma RamIsRam(start: Memory)
    ensures IsRam(RamOf(start), start)
  {
  }

  function Read(hw: Hardware, log: History, bar: Bar, offset: u32): History {
    log + [Rd(bar, offset, hw(log, bar, offset))]
  }

  /** The history after `n` back-to-back reads of one register. */
  function Reads(hw: Hardware, log: History, bar: Bar, offset: u32, n: nat): History {
    if n == 0 then log else Read(hw, Reads(hw, log, bar, offset, n - 1), bar, offset)
  }

  lemma LastWriteSnoc(log: History, e: Event, bar: Bar, offset: u32)
    ensures LastWrite(log + [e], bar, offset)
         == if WritesTo(e, bar, offset) then Some(e.value) else LastWrite(log, bar, offset)
  {
  }

  lemma {:induction false} LastWriteAppend(a: History, b: History, bar: Bar, offset: u32)
    ensures LastWrite(a + b, bar, offset)
         == if LastWrite(b, bar, offset).Some? then LastWrite(b, bar, offset) else LastWrite(a, bar, offset)
    decreases |b|
  {
    if b == [] {
      assert a + b == a;
    } else {
      var init, e := b[..|b| - 1], b[|b| - 1];
      assert a + b == (a + init) + [e] && b == init + [e];
      LastWriteSnoc(a + init, e, bar, offset);
      LastWriteSnoc(init, e, bar, offset);
      LastWriteAppend(a, init, bar, offset);
    }
  }

  // ---- accesses without the answers -----------------------------------------------------------

  /** What the driver did, whatever the hardware answered. */
  datatype Move = W(bar: Bar, offset: u32, value: bv32) | R(bar: Bar, offset: u32)

  function MoveOf(e: Event): Move {
    match e
    case Wr(bar, offset, value) => W(bar, offset, value)
    case Rd(bar, offset, _) => R(bar, offset)
  }

  function Moves(log: History): seq<Move> {
    seq(|log|, i requires 0 <= i < |log| => MoveOf(log[i]))
  }

  lemma MovesAppend(a: History, b: History)
    ensures Moves(a + b) == Moves(a) + Moves(b)
  {
  }

  function Count(log: History, m: Move): nat {
    if log == [] then 0 else Count(log[..|log| - 1], m) + if MoveOf(log[|log| - 1]) == m then 1 else 0
  }

  lemma CountSnoc(log: History, e: Event, m: Move)
    ensures Count(log + [e], m) == Count(log, m) + if MoveOf(e) == m then 1 else 0
  {
  }

  // ---- the card -----------------------------------------------------------

  class Card {
    const hw: Hardware
    const start: Memory
    var log: History

    constructor (hw: Hardware, start: Memory)
      ensures this.hw == hw && this.start == start && log == []
    {
      this.hw, this.start, log := hw, start, [];
    }

    function Word(bar: Bar, offset: u32): bv32
      reads this
    {
      Mem(start, log, bar, offset)
    }

    method Write32(bar: Bar, offset: u32, value: bv32)
      modifies this
      ensures log == old(log) + [Wr(bar, offset, value)]
    {
      log := log + [Wr(bar, offset, value)];
    }

    method Read32(bar: Bar, offset: u32) returns (value: bv32)
      modifies this
      ensures value == hw(old(log), bar, offset)
      ensures log == Read(hw, old(log), bar, offset)
    {
      value := hw(log, bar, offset);
      log := log + [Rd(bar, offset, value)];
    }
  }

  /** The BAR a byte selects; any other byte selects none. */
  function BarOf(bar: bv8): Option<Bar> {
    if bar == 0 then Some(Dsp) else if bar == 1 then Some(Reg) else if bar == 2 then Some(Port) else None
  }

  /** A write through the dispatcher: writes to unknown BARs are dropped. */
  function BusWrite(log: History, bar: bv8, offset: u32, value: bv32): History {
    match BarOf(bar)
    case Some(b) => log + [Wr(b, offset, value)]
    case None => log
  }

  // ---- the driver context ---------------------------------------------------

  /** `word` is the low half of the address. */
  predicate IsLow(word: bv32, address: u64) {
    word as int == address % 0x1_0000_0000
  }

  function Low32(address: u64): (low: bv32)
    ensures forall word :: IsLow(word, address) ==> low == word
  {
    var low := (address % 0x1_0000_0000) as bv32;
    assert forall word: bv32 :: IsLow(word, address) ==> low == word by {
      forall word: bv32 | IsLow(word, address) ensures low == word { LowIs(word, address); }
    }
    low
  }

  lemma LowIs(word: bv32, address: u64)
    requires IsLow(word, address)
    ensures (address % 0x1_0000_0000) as bv32 == word
  {
  }

  class Ctx {
    const card: Card
    const regMapped: bool          // iobase_reg is not NULL
    var dmaBuf: array?<bv32>       // coherent buffer, as 32-bit words
    var dmaAddr: u64
    var dmaSize: u64               // in bytes
    var portConfShadow: bv32
    var rate: u32
    var dmaRunning: bool
    var startTimeNs: u64

    constructor (card: Card, regMapped: bool)
      ensures this.card == card && this.regMapped == regMapped
      ensures dmaBuf == null && dmaAddr == 0 && dmaSize == 0
      ensures portConfShadow == 0 && rate == 0 && !dmaRunning && startTimeNs == 0
    {
      this.card, this.regMapped := card, regMapped;
      dmaBuf, dmaAddr, dmaSize := null, 0, 0;
      portConfShadow, rate, dmaRunning, startTimeNs := 0, 0, false, 0;
    }

    /** The 32-bit bus address of the DMA buffer, if there is a buffer. */
    function Dma(): (dma: Option<bv32>)
      reads this
      ensures dmaBuf == null ==> dma == None
      ensures forall word :: dmaBuf != null && IsLow(word, dmaAddr) ==> dma == Some(word)
    {
      if dmaBuf == null then None else Some(Low32(dmaAddr))
    }
  }

  method MotuWrite(ctx: Ctx, bar: bv8, offset: u32, value: bv32)
    modifies ctx.card
    ensures ctx.card.log == BusWrite(old(ctx.card.log), bar, offset, value)
  {
    match BarOf(bar)
    case Some(b) => ctx.card.Write32(b, offset, value);
    case None =>
  }

  method MotuRead(ctx: Ctx, bar: bv8, offset: u32) returns (value: bv32)
    modifies ctx.card
    ensures BarOf(bar).None? ==> value == 0xFFFF_FFFF && ctx.card.log == old(ctx.card.log)
    ensures BarOf(bar).Some? ==>
              && value == ctx.card.hw(old(ctx.card.log), BarOf(bar).value, offset)
              && ctx.card.log == Read(ctx.card.hw, old(ctx.card.log), BarOf(bar).value, offset)
  {
    match BarOf(bar)
    case Some(b) => value := ctx.card.Read32(b, offset);
    case None => value := 0xFFFF_FFFF;
  }

  /** memset(buf, 0, size) over a word buffer. */
  method Clear(buf: array<bv32>)
    modifies buf
    ensures forall i :: 0 <= i < buf.Length ==> buf[i] == 0
  {
    for i := 0 to buf.Length
      invariant forall j :: 0 <= j < i ==> buf[j] == 0
    {
      buf[i] := 0;
    }
  }
}
