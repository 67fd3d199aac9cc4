/** The FPGA bit-bang serializer, the two other encodings of the same protocol in the tools,
    and the receiver they are all proved against.

    The receiver is this model's assumption: a serial input that samples the data line (bit 5
    of BAR1 0x300008) whenever the clock line (bit 7) rises. */
module Fpga {
  import opened Pal
  import opened Hw

  const DATA_BIT: bv32 := 0x20
  const CLK_BIT: bv32 := 0x80
  const BASE_VAL: bv32 := 0x40
  const HIGH_VAL: bv32 := 0xC0

  // ---- images as bits, LSB first -----------------------------------------------------------

  function Bit(byte: bv8, k: nat): bool
    requires k < 8
  {
    byte & (1 << k) != 0
  }

  function ByteBits(byte: bv8): (b: seq<bool>)
    ensures |b| == 8
  {
    [Bit(byte, 0), Bit(byte, 1), Bit(byte, 2), Bit(byte, 3), Bit(byte, 4), Bit(byte, 5), Bit(byte, 6), Bit(byte, 7)]
  }

  function Bits(image: seq<bv8>): (bits: seq<bool>)
    ensures |bits| == 8 * |image|
  {
    if image == [] then [] else Bits(image[..|image| - 1]) + ByteBits(image[|image| - 1])
  }

  function PackByte(b: seq<bool>): bv8
    requires |b| == 8
  {
    (if b[0] then 0x01 else 0) | (if b[1] then 0x02 else 0) | (if b[2] then 0x04 else 0) | (if b[3] then 0x08 else 0) |
    (if b[4] then 0x10 else 0) | (if b[5] then 0x20 else 0) | (if b[6] then 0x40 else 0) | (if b[7] then 0x80 else 0)
  }

  /** Reassemble whole bytes from received bits. */
  function Pack(bits: seq<bool>): seq<bv8> {
    seq(|bits| / 8, i requires 0 <= i < |bits| / 8 => PackByte(bits[8 * i..8 * i + 8]))
  }

  lemma PackBits(byte: bv8)
    ensures PackByte(ByteBits(byte)) == byte
  {
  }

  lemma ByteBitsAt(byte: bv8, k: nat)
    requires k < 8
    ensures ByteBits(byte)[k] == Bit(byte, k)
  {
  }

  lemma {:induction false} ByteAt(image: seq<bv8>, i: nat)
    requires i < |image|
    ensures Bits(image)[8 * i..8 * i + 8] == ByteBits(image[i])
  {
    var init := image[..|image| - 1];
    if i < |image| - 1 {
      ByteAt(init, i);
      assert Bits(image)[8 * i..8 * i + 8] == Bits(init)[8 * i..8 * i + 8];
    }
  }

  lemma BitAt(image: seq<bv8>, i: nat, k: nat)
    requires i < |image| && k < 8
    ensures Bits(image)[8 * i + k] == Bit(image[i], k)
  {
    ByteAt(image, i);
    ByteBitsAt(image[i], k);
    assert Bits(image)[8 * i + k] == Bits(image)[8 * i..8 * i + 8][k];
  }

  lemma PackAt(image: seq<bv8>, i: nat)
    requires i < |image|
    ensures PackByte(Bits(image)[8 * i..8 * i + 8]) == image[i]
  {
    ByteAt(image, i);
    PackBits(image[i]);
  }

  lemma PackUnpacks(image: seq<bv8>)
    ensures Pack(Bits(image)) == image
  {
    var packed := Pack(Bits(image));
    assert |packed| == |image|;
    forall i | 0 <= i < |image| ensures packed[i] == image[i] {
      PackAt(image, i);
    }
  }

  // ---- the wires and the receiver ------------------------------------------------------------

  /** What the receiver sees of a register value. */
  datatype Wire = Wire(clk: bool, data: bool)

  function ToWire(val: bv32): Wire {
    Wire(val & 0x80 != 0, val & 0x20 != 0)
  }

  function ToWires(vals: seq<bv32>): seq<Wire> {
    seq(|vals|, i requires 0 <= i < |vals| => ToWire(vals[i]))
  }

  /** The clock level after a series of samples, given the level before it. */
  predicate Level(idle: bool, ws: seq<Wire>) {
    if ws == [] then idle else ws[|ws| - 1].clk
  }

  /** The bits sampled at the rising edges. */
  function Receive(idle: bool, ws: seq<Wire>): seq<bool> {
    if ws == [] then []
    else
      var init, last := ws[..|ws| - 1], ws[|ws| - 1];
      Receive(idle, init) + if !Level(idle, init) && last.clk then [last.data] else []
  }

  /** The number of falling edges. */
  function Falls(idle: bool, ws: seq<Wire>): nat {
    if ws == [] then 0
    else
      var init, last := ws[..|ws| - 1], ws[|ws| - 1];
      Falls(idle, init) + if Level(idle, init) && !last.clk then 1 else 0
  }

  predicate Smooth(a: Wire, b: Wire) {
    a.clk == b.clk || a.data == b.data
  }

  /** No write moves the clock and the data line at the same time. */
  predicate NoSkew(ws: seq<Wire>) {
    if |ws| <= 1 then true
    else NoSkew(ws[..|ws| - 1]) && Smooth(ws[|ws| - 2], ws[|ws| - 1])
  }

  // ---- the three encodings -------------------------------------------------------------------

  // The four values of the protocol: clock low or high, with the data bit.

  function Val(bit: bool): bv32 {
    if bit then 0x60 else 0x40
  }

  function ValHigh(bit: bool): bv32 {
    if bit then 0xE0 else 0xC0
  }

  lemma Values(bit: bool)
    ensures BASE_VAL | (if bit then DATA_BIT else 0) == Val(bit)
    ensures Val(bit) | CLK_BIT == ValHigh(bit)
    ensures HIGH_VAL | (if bit then DATA_BIT else 0) == ValHigh(bit)
  {
  }

  datatype Loader = Driver | FixBitbang | SafeSync

  /** The three writes for the last bit of a non-empty prefix. */
  function Triple(loader: Loader, bits: seq<bool>): (t: seq<bv32>)
    requires bits != []
    ensures |t| == 3
  {
    var bit := bits[|bits| - 1];
    var val := Val(bit);
    match loader
    case Driver => [if |bits| == 1 then BASE_VAL else Val(bits[|bits| - 2]), val, ValHigh(bit)]
    case FixBitbang => [val, ValHigh(bit), val]
    case SafeSync => [val, val, ValHigh(bit)]
  }

  function Serial(loader: Loader, bits: seq<bool>): seq<bv32> {
    if bits == [] then [] else Serial(loader, bits[..|bits| - 1]) + Triple(loader, bits)
  }

  /** Every value a loader writes to the control register: a clearing write, then the bits. */
  function CtrlWrites(loader: Loader, image: seq<bv8>): seq<bv32> {
    [0] + Serial(loader, Bits(image))
  }

  function OnCtrl(vals: seq<bv32>): History {
    seq(|vals|, i requires 0 <= i < |vals| => Wr(Reg, FPGA_CTRL, vals[i]))
  }

  const SETUP: History := [Wr(Port, 0x4, 0x1), Wr(Reg, 0x30_0000, 0xE0), Wr(Reg, 0x30_0004, 0xE0)]
  const FINISH: History := [Wr(Reg, 0x30_0004, 0xC0), Wr(Port, 0x8, 0x0)]

  /** The bus writes of a whole upload, up to the final status read. */
  function Upload(loader: Loader, image: seq<bv8>): History {
    SETUP + OnCtrl(CtrlWrites(loader, image)) + FINISH
  }

  /** The values written to the control register in a stretch of history. */
  function CtrlValues(log: History): seq<bv32> {
    if log == [] then []
    else
      var e := log[|log| - 1];
      CtrlValues(log[..|log| - 1]) + if WritesTo(e, Reg, 0x30_0008) then [e.value] else []
  }

  // ---- the loaders ---------------------------------------------------------------------------

  lemma SerialSnoc(loader: Loader, bits: seq<bool>, n: nat)
    requires n < |bits|
    ensures Serial(loader, bits[..n + 1]) == Serial(loader, bits[..n]) + Triple(loader, bits[..n + 1])
  {
    assert bits[..n + 1][..n] == bits[..n];
  }

  /** The history with `n` bits of the image sent. */
  function Sent(loader: Loader, image: seq<bv8>, was: History, n: nat): History
    requires n <= 8 * |image|
  {
    was + SETUP + OnCtrl([0] + Serial(loader, Bits(image)[..n]))
  }

  lemma SentStep(loader: Loader, image: seq<bv8>, was: History, n: nat)
    requires n < 8 * |image|
    ensures Sent(loader, image, was, n + 1)
         == Sent(loader, image, was, n) + OnCtrl(Triple(loader, Bits(image)[..n + 1]))
  {
    var bits := Bits(image);
    var t := Triple(loader, bits[..n + 1]);
    SerialSnoc(loader, bits, n);
    SentMore(was + SETUP, Serial(loader, bits[..n]), t);
  }

  lemma SentMore(log: History, vals: seq<bv32>, t: seq<bv32>)
    ensures log + OnCtrl([0] + (vals + t)) == (log + OnCtrl([0] + vals)) + OnCtrl(t)
  {
  }

  // One step of each inner loop, by the loops' indices.

  /** `val_prev` before bit `n`. */
  function Previous(image: seq<bv8>, n: nat): bv32
    requires n <= 8 * |image|
  {
    if n == 0 then BASE_VAL else Val(Bits(image)[n - 1])
  }

  lemma PreviousStep(image: seq<bv8>, i: nat, k: nat)
    requires i < |image| && k < 8
    ensures Previous(image, 8 * i + k + 1) == Val(Bit(image[i], k))
  {
    BitAt(image, i, k);
  }

  lemma DriverTriple(bits: seq<bool>, n: nat, previous: bv32, bit: bool)
    requires n < |bits| && bits[n] == bit && previous == if n == 0 then BASE_VAL else Val(bits[n - 1])
    ensures Triple(Driver, bits[..n + 1]) == [previous, Val(bit), ValHigh(bit)]
  {
  }

  lemma DriverStep(image: seq<bv8>, was: History, i: nat, k: nat)
    requires i < |image| && k < 8
    ensures Sent(Driver, image, was, 8 * i + k + 1)
         == Sent(Driver, image, was, 8 * i + k)
            + OnCtrl([Previous(image, 8 * i + k), Val(Bit(image[i], k)), ValHigh(Bit(image[i], k))])
  {
    BitAt(image, i, k);
    SentStep(Driver, image, was, 8 * i + k);
    DriverTriple(Bits(image), 8 * i + k, Previous(image, 8 * i + k), Bit(image[i], k));
  }

  lemma FixBitbangStep(image: seq<bv8>, was: History, i: nat, k: nat)
    requires i < |image| && k < 8
    ensures var low, high := Val(Bit(image[i], k)), ValHigh(Bit(image[i], k));
            Sent(FixBitbang, image, was, 8 * i + k + 1)
              == Sent(FixBitbang, image, was, 8 * i + k) + OnCtrl([low, high, low])
  {
    BitAt(image, i, k);
    SentStep(FixBitbang, image, was, 8 * i + k);
  }

  lemma SafeSyncStep(image: seq<bv8>, was: History, i: nat, k: nat)
    requires i < |image| && k < 8
    ensures var val := Val(Bit(image[i], k));
            Sent(SafeSync, image, was, 8 * i + k + 1)
              == Sent(SafeSync, image, was, 8 * i + k) + OnCtrl([val, val, ValHigh(Bit(image[i], k))])
  {
    BitAt(image, i, k);
    SentStep(SafeSync, image, was, 8 * i + k);
  }

  /** The values the driver and safe_sync compute for a bit: base | data, then with the clock. */
  method SetupAndPulse(byte: bv8, bit: nat) returns (val: bv32, pulse: bv32)
    requires bit < 8
    ensures val == Val(Bit(byte, bit)) && pulse == ValHigh(Bit(byte, bit))
  {
    var dataBit := if byte & (1 << bit) != 0 then DATA_BIT else 0;
    val := BASE_VAL | dataBit;
    pulse := val | CLK_BIT;
    Values(Bit(byte, bit));
  }

  /** The values fix_bitbang computes for a bit. */
  method LowAndHigh(byte: bv8, bit: nat) returns (low: bv32, high: bv32)
    requires bit < 8
    ensures low == Val(Bit(byte, bit)) && high == ValHigh(Bit(byte, bit))
  {
    var dataBit := if byte & (1 << bit) != 0 then DATA_BIT else 0;
    low := BASE_VAL | dataBit;
    high := HIGH_VAL | dataBit;
    Values(Bit(byte, bit));
  }

  /** Three writes to the control register. */
  method WriteCtrl3(card: Card, a: bv32, b: bv32, c: bv32)
    modifies card
    ensures card.log == old(card.log) + OnCtrl([a, b, c])
  {
    card.Write32(Reg, FPGA_CTRL, a);
    card.Write32(Reg, FPGA_CTRL, b);
    card.Write32(Reg, FPGA_CTRL, c);
  }

  lemma SentNone(loader: Loader, image: seq<bv8>, was: History)
    ensures Sent(loader, image, was, 0)
         == was + [Wr(Port, 0x4, 0x1)] + [Wr(Reg, 0x30_0000, 0xE0)] + [Wr(Reg, 0x30_0004, 0xE0)]
            + [Wr(Reg, FPGA_CTRL, 0)]
  {
  }

  lemma SentAll(loader: Loader, image: seq<bv8>, was: History)
    ensures Sent(loader, image, was, 8 * |image|) + [Wr(Reg, 0x30_0004, 0xC0)] + [Wr(Port, 0x8, 0x0)]
         == was + Upload(loader, image)
  {
    assert Bits(image)[..8 * |image|] == Bits(image);
  }

  /** Whether there is anything to load: not NULL and not empty. */
  predicate HasImage(fw: Option<seq<bv8>>) {
    fw.Some? && fw.value != []
  }

  function LoadLog(hw: Hardware, fw: Option<seq<bv8>>, log: History): History {
    if HasImage(fw) then Read(hw, log + Upload(Driver, fw.value), Port, 0x0) else log
  }

  method DriverBit(card: Card, byte: bv8, bit: nat, valPrev: bv32,
                   ghost image: seq<bv8>, ghost was: History, ghost i: nat)
    returns (val: bv32)
    requires i < |image| && bit < 8 && byte == image[i]
    requires card.log == Sent(Driver, image, was, 8 * i + bit) && valPrev == Previous(image, 8 * i + bit)
    modifies card
    ensures card.log == Sent(Driver, image, was, 8 * i + (bit + 1)) && val == Previous(image, 8 * i + (bit + 1))
  {
    DriverStep(image, was, i, bit);
    PreviousStep(image, i, bit);
    var pulse;
    val, pulse := SetupAndPulse(byte, bit);
    WriteCtrl3(card, valPrev, val, pulse);
  }

  method FixBitbangBit(card: Card, byte: bv8, bit: nat, ghost image: seq<bv8>, ghost was: History, ghost i: nat)
    requires i < |image| && bit < 8 && byte == image[i]
    requires card.log == Sent(FixBitbang, image, was, 8 * i + bit)
    modifies card
    ensures card.log == Sent(FixBitbang, image, was, 8 * i + (bit + 1))
  {
    FixBitbangStep(image, was, i, bit);
    var valLow, valHigh := LowAndHigh(byte, bit);
    WriteCtrl3(card, valLow, valHigh, valLow);
  }

  method SafeSyncBit(card: Card, byte: bv8, bit: nat, ghost image: seq<bv8>, ghost was: History, ghost i: nat)
    requires i < |image| && bit < 8 && byte == image[i]
    requires card.log == Sent(SafeSync, image, was, 8 * i + bit)
    modifies card
    ensures card.log == Sent(SafeSync, image, was, 8 * i + (bit + 1))
  {
    SafeSyncStep(image, was, i, bit);
    var val, pulse := SetupAndPulse(byte, bit);
    WriteCtrl3(card, val, val, pulse);
  }

  // The nested bit-bang loops, LSB first.

  method DriverByte(card: Card, byte: bv8, valPrev: bv32, ghost image: seq<bv8>, ghost was: History, ghost i: nat)
    returns (val: bv32)
    requires i < |image| && byte == image[i]
    requires card.log == Sent(Driver, image, was, 8 * i) && valPrev == Previous(image, 8 * i)
    modifies card
    ensures card.log == Sent(Driver, image, was, 8 * (i + 1)) && val == Previous(image, 8 * (i + 1))
  {
    val := valPrev;
    for bit := 0 to 8
      invariant card.log == Sent(Driver, image, was, 8 * i + bit) && val == Previous(image, 8 * i + bit)
    {
      val := DriverBit(card, byte, bit, val, image, was, i);
    }
  }

  method SendDriver(card: Card, bitstream: seq<bv8>, ghost was: History)
    requires card.log == Sent(Driver, bitstream, was, 0)
    modifies card
    ensures card.log == Sent(Driver, bitstream, was, 8 * |bitstream|)
  {
    var valPrev := BASE_VAL;
    for i := 0 to |bitstream|
      invariant card.log == Sent(Driver, bitstream, was, 8 * i) && valPrev == Previous(bitstream, 8 * i)
    {
      valPrev := DriverByte(card, bitstream[i], valPrev, bitstream, was, i);
    }
  }

  method SendFixBitbang(card: Card, fw: seq<bv8>, ghost was: History)
    requires card.log == Sent(FixBitbang, fw, was, 0)
    modifies card
    ensures card.log == Sent(FixBitbang, fw, was, 8 * |fw|)
  {
    for i := 0 to |fw|
      invariant card.log == Sent(FixBitbang, fw, was, 8 * i)
    {
      for bit := 0 to 8
        invariant card.log == Sent(FixBitbang, fw, was, 8 * i + bit)
      {
        FixBitbangBit(card, fw[i], bit, fw, was, i);
      }
    }
  }

  method SendSafeSync(card: Card, fw: seq<bv8>, ghost was: History)
    requires card.log == Sent(SafeSync, fw, was, 0)
    modifies card
    ensures card.log == Sent(SafeSync, fw, was, 8 * |fw|)
  {
    for i := 0 to |fw|
      invariant card.log == Sent(SafeSync, fw, was, 8 * i)
    {
      for bit := 0 to 8
        invariant card.log == Sent(SafeSync, fw, was, 8 * i + bit)
      {
        SafeSyncBit(card, fw[i], bit, fw, was, i);
      }
    }
  }

  /** The set-up writes, ending with the clearing write of the control register. */
  method Prepare(card: Card, ghost loader: Loader, ghost image: seq<bv8>)
    modifies card
    ensures card.log == Sent(loader, image, old(card.log), 0)
  {
    SentNone(loader, image, card.log);
    card.Write32(Port, 0x4, 0x1);
    card.Write32(Reg, 0x30_0000, 0xE0);
    card.Write32(Reg, 0x30_0004, 0xE0);
    card.Write32(Reg, FPGA_CTRL, 0x00);
  }

  method Finalize(card: Card, ghost loader: Loader, ghost image: seq<bv8>, ghost was: History)
    requires card.log == Sent(loader, image, was, 8 * |image|)
    modifies card
    ensures card.log == was + Upload(loader, image)
  {
    SentAll(loader, image, was);
    card.Write32(Reg, 0x30_0004, 0xC0);
    card.Write32(Port, 0x8, 0x0);
  }

  method LoadFpga(ctx: Ctx, fw: Option<seq<bv8>>) returns (ret: int)
    modifies ctx.card
    ensures ret == if fw.Some? && |fw.value| > 0 then 0 else -1
    ensures ret == -1 ==> ctx.card.log == old(ctx.card.log)
    ensures ctx.card.log == LoadLog(ctx.card.hw, fw, old(ctx.card.log))
  {
    if fw.None? || |fw.value| == 0 {
      return -1;
    }
    ghost var was := ctx.card.log;
    Prepare(ctx.card, Driver, fw.value);
    SendDriver(ctx.card, fw.value, was);
    Finalize(ctx.card, Driver, fw.value, was);
    var _ := ctx.card.Read32(Port, 0x0);    // only logged
    return 0;
  }

  method FixBitbangUpload(card: Card, fw: seq<bv8>)
    modifies card
    ensures card.log == old(card.log) + Upload(FixBitbang, fw)
  {
    ghost var was := card.log;
    Prepare(card, FixBitbang, fw);
    SendFixBitbang(card, fw, was);
    Finalize(card, FixBitbang, fw, was);
  }

  method SafeSyncUpload(card: Card, fw: seq<bv8>)
    modifies card
    ensures card.log == old(card.log) + Upload(SafeSync, fw)
  {
    ghost var was := card.log;
    Prepare(card, SafeSync, fw);
    SendSafeSync(card, fw, was);
    Finalize(card, SafeSync, fw, was);
  }

  // ---- reception --------------------------------------------------------------------------------

  lemma BaseWire()
    ensures ToWire(BASE_VAL) == Wire(false, false) && ToWire(0) == Wire(false, false)
  {
  }

  /** The wires during the three writes for the last bit. */
  function WireTriple(loader: Loader, bits: seq<bool>): seq<Wire>
    requires bits != []
  {
    var bit := bits[|bits| - 1];
    match loader
    case Driver => [Wire(false, |bits| > 1 && bits[|bits| - 2]), Wire(false, bit), Wire(true, bit)]
    case FixBitbang => [Wire(false, bit), Wire(true, bit), Wire(false, bit)]
    case SafeSync => [Wire(false, bit), Wire(false, bit), Wire(true, bit)]
  }

  function SerialWires(loader: Loader, bits: seq<bool>): seq<Wire> {
    if bits == [] then [Wire(false, false)]
    else SerialWires(loader, bits[..|bits| - 1]) + WireTriple(loader, bits)
  }

  lemma TripleWires(loader: Loader, bits: seq<bool>)
    requires bits != []
    ensures ToWires(Triple(loader, bits)) == WireTriple(loader, bits)
  {
  }

  lemma ToWiresAppend(a: seq<bv32>, b: seq<bv32>)
    ensures ToWires(a + b) == ToWires(a) + ToWires(b)
  {
  }

  lemma {:induction false} SerialIsWires(loader: Loader, bits: seq<bool>)
    ensures ToWires([0] + Serial(loader, bits)) == SerialWires(loader, bits)
    ensures |Serial(loader, bits)| == 3 * |bits|
  {
    if bits == [] {
      BaseWire();
      assert [0] + [] == [0];
    } else {
      var init := bits[..|bits| - 1];
      SerialIsWires(loader, init);
      TripleWires(loader, bits);
      ToWiresAppend([0] + Serial(loader, init), Triple(loader, bits));
      assert [0] + (Serial(loader, init) + Triple(loader, bits)) == ([0] + Serial(loader, init)) + Triple(loader, bits);
    }
  }

  lemma ReceiveSnoc(idle: bool, ws: seq<Wire>, w: Wire)
    ensures Receive(idle, ws + [w]) == Receive(idle, ws) + if !Level(idle, ws) && w.clk then [w.data] else []
    ensures Falls(idle, ws + [w]) == Falls(idle, ws) + if Level(idle, ws) && !w.clk then 1 else 0
    ensures Level(idle, ws + [w]) == w.clk
  {
  }

  /** Three samples with the clock low first and one rising edge, at which `bit` is stable. */
  predicate OneEdge(t: seq<Wire>, bit: bool, high: bool) {
    && |t| == 3 && !t[0].clk && (t[1].clk || t[2].clk) && t[2].clk == high
    && (t[1].clk ==> t[1].data == bit) && (t[2].clk ==> t[2].data == bit)
  }

  lemma TripleOneEdge(loader: Loader, bits: seq<bool>)
    requires bits != []
    ensures OneEdge(WireTriple(loader, bits), bits[|bits| - 1], loader != FixBitbang)
  {
  }

  lemma ReceiveThree(idle: bool, ws: seq<Wire>, t: seq<Wire>, bit: bool, high: bool)
    requires OneEdge(t, bit, high)
    ensures Receive(idle, ws + t) == Receive(idle, ws) + [bit]
    ensures Falls(idle, ws + t) == Falls(idle, ws) + (if Level(idle, ws) then 1 else 0) + (if high then 0 else 1)
    ensures Level(idle, ws + t) == high
  {
    ReceiveSnoc(idle, ws, t[0]);
    ReceiveSnoc(idle, ws + [t[0]], t[1]);
    ReceiveSnoc(idle, ws + [t[0]] + [t[1]], t[2]);
    assert ws + t == ws + [t[0]] + [t[1]] + [t[2]];
  }

  /** The clock is left high after each bit, except by the encoding that returns it to low. */
  predicate EndsHigh(loader: Loader, bits: seq<bool>) {
    loader != FixBitbang && bits != []
  }

  lemma FirstReceived(idle: bool)
    ensures Receive(idle, [Wire(false, false)]) == [] && !Level(idle, [Wire(false, false)])
    ensures Falls(idle, [Wire(false, false)]) == if idle then 1 else 0
  {
  }

  lemma SerialStep(idle: bool, loader: Loader, bits: seq<bool>, ws: seq<Wire>)
    requires bits != [] && Receive(idle, ws) == bits[..|bits| - 1]
    ensures Receive(idle, ws + WireTriple(loader, bits)) == bits
    ensures Level(idle, ws + WireTriple(loader, bits)) == EndsHigh(loader, bits)
  {
    var bit := bits[|bits| - 1];
    TripleOneEdge(loader, bits);
    ReceiveThree(idle, ws, WireTriple(loader, bits), bit, loader != FixBitbang);
    assert bits[..|bits| - 1] + [bit] == bits;
  }

  /** However the clock line was left: the clearing write takes it low without a rising edge. */
  lemma {:induction false} SerialReceived(idle: bool, loader: Loader, bits: seq<bool>)
    ensures Receive(idle, SerialWires(loader, bits)) == bits
    ensures Level(idle, SerialWires(loader, bits)) == EndsHigh(loader, bits)
  {
    FirstReceived(idle);
    if bits != [] {
      var init := bits[..|bits| - 1];
      SerialReceived(idle, loader, init);
      SerialStep(idle, loader, bits, SerialWires(loader, init));
    }
  }

  lemma {:induction false} SerialFalls(idle: bool, loader: Loader, bits: seq<bool>)
    ensures Falls(idle, SerialWires(loader, bits))
         == (if idle then 1 else 0) + |bits| - (if EndsHigh(loader, bits) then 1 else 0)
    ensures |SerialWires(loader, bits)| == 3 * |bits| + 1
  {
    FirstReceived(idle);
    if bits != [] {
      var init := bits[..|bits| - 1];
      SerialFalls(idle, loader, init);
      SerialReceived(idle, loader, init);
      TripleOneEdge(loader, bits);
      ReceiveThree(idle, SerialWires(loader, init), WireTriple(loader, bits), bits[|bits| - 1], loader != FixBitbang);
    }
  }

  // ---- reading the bus ------------------------------------------------------------------------------

  lemma CtrlValuesSnoc(log: History, e: Event)
    ensures CtrlValues(log + [e]) == CtrlValues(log) + if WritesTo(e, Reg, FPGA_CTRL) then [e.value] else []
  {
  }

  lemma {:induction false} CtrlValuesOnCtrl(log: History, vals: seq<bv32>)
    ensures CtrlValues(log + OnCtrl(vals)) == CtrlValues(log) + vals
    decreases |vals|
  {
    if vals == [] {
      assert log + OnCtrl(vals) == log && CtrlValues(log) + vals == CtrlValues(log);
    } else {
      var init, v := vals[..|vals| - 1], vals[|vals| - 1];
      assert log + OnCtrl(vals) == (log + OnCtrl(init)) + [Wr(Reg, FPGA_CTRL, v)];
      CtrlValuesSnoc(log + OnCtrl(init), Wr(Reg, FPGA_CTRL, v));
      CtrlValuesOnCtrl(log, init);
      assert CtrlValues(log) + vals == (CtrlValues(log) + init) + [v];
    }
  }

  lemma {:induction false} OffCtrl(log: History)
    requires forall e :: e in log ==> !WritesTo(e, Reg, FPGA_CTRL)
    ensures CtrlValues(log) == []
  {
    if log != [] { OffCtrl(log[..|log| - 1]); }
  }

  lemma {:induction false} OffCtrlAfter(log: History, off: History)
    requires forall e :: e in off ==> !WritesTo(e, Reg, FPGA_CTRL)
    ensures CtrlValues(log + off) == CtrlValues(log)
    decreases |off|
  {
    if off == [] {
      assert log + off == log;
    } else {
      var init, e := off[..|off| - 1], off[|off| - 1];
      assert log + off == (log + init) + [e];
      CtrlValuesSnoc(log + init, e);
      OffCtrlAfter(log, init);
    }
  }

  lemma UploadOnCtrl(loader: Loader, image: seq<bv8>)
    ensures CtrlValues(Upload(loader, image)) == CtrlWrites(loader, image)
  {
    OffCtrl(SETUP);
    CtrlValuesOnCtrl(SETUP, CtrlWrites(loader, image));
    assert [] + CtrlWrites(loader, image) == CtrlWrites(loader, image);
    OffCtrlAfter(SETUP + OnCtrl(CtrlWrites(loader, image)), FINISH);
  }

  /** What a receiver on the control register sees of a stretch of history. */
  function Seen(log: History): seq<Wire> {
    ToWires(CtrlValues(log))
  }

  lemma UploadSeen(loader: Loader, image: seq<bv8>)
    ensures Seen(Upload(loader, image)) == SerialWires(loader, Bits(image))
  {
    UploadOnCtrl(loader, image);
    SerialIsWires(loader, Bits(image));
  }

  /** The round trip, for all three loaders: the receiver rebuilds exactly the image, whatever it
      is and however the clock line was left. */
  lemma UploadReceived(loader: Loader, image: seq<bv8>, idle: bool)
    ensures Pack(Receive(idle, Seen(Upload(loader, image)))) == image
  {
    UploadSeen(loader, image);
    SerialReceived(idle, loader, Bits(image));
    PackUnpacks(image);
  }

  /** 24 writes a byte and one clearing write; one rising edge a bit; one falling edge a bit, less
      one for the loaders that leave the clock high, and one more if the clock was left high before. */
  lemma UploadEdges(loader: Loader, image: seq<bv8>, idle: bool)
    requires image != []
    ensures |Seen(Upload(loader, image))| == 24 * |image| + 1
    ensures |Receive(idle, Seen(Upload(loader, image)))| == 8 * |image|
    ensures Falls(idle, Seen(Upload(loader, image)))
         == (if idle then 1 else 0) + 8 * |image| - (if loader == FixBitbang then 0 else 1)
    ensures Level(idle, Seen(Upload(loader, image))) == (loader != FixBitbang)
  {
    UploadSeen(loader, image);
    SerialReceived(idle, loader, Bits(image));
    SerialFalls(idle, loader, Bits(image));
  }

  /** The three loaders are interchangeable to the receiver. */
  lemma LoadersAgree(a: Loader, b: Loader, image: seq<bv8>, idle: bool)
    ensures Receive(idle, Seen(Upload(a, image))) == Receive(idle, Seen(Upload(b, image)))
  {
    UploadSeen(a, image);
    UploadSeen(b, image);
    SerialReceived(idle, a, Bits(image));
    SerialReceived(idle, b, Bits(image));
  }

  // ---- skew ---------------------------------------------------------------------------------------

  lemma NoSkewSnoc(ws: seq<Wire>, w: Wire)
    requires ws != []
    ensures NoSkew(ws + [w]) <==> NoSkew(ws) && Smooth(ws[|ws| - 1], w)
  {
  }

  lemma NoSkewThree(ws: seq<Wire>, t: seq<Wire>)
    requires ws != [] && |t| == 3
    ensures NoSkew(ws + t) <==> NoSkew(ws) && Smooth(ws[|ws| - 1], t[0]) && Smooth(t[0], t[1]) && Smooth(t[1], t[2])
  {
    NoSkewSnoc(ws, t[0]);
    NoSkewSnoc(ws + [t[0]], t[1]);
    NoSkewSnoc(ws + [t[0]] + [t[1]], t[2]);
    assert ws + t == ws + [t[0]] + [t[1]] + [t[2]];
  }

  predicate AllEqual(bits: seq<bool>) {
    forall i :: 0 < i < |bits| ==> bits[i - 1] == bits[i]
  }

  lemma TripleSmooth(loader: Loader, bits: seq<bool>, last: Wire)
    requires bits != []
    requires var init := bits[..|bits| - 1]; last == Wire(EndsHigh(loader, init), init != [] && init[|init| - 1])
    ensures var t := WireTriple(loader, bits);
            (Smooth(last, t[0]) && Smooth(t[0], t[1]) && Smooth(t[1], t[2])) ==
            (loader != SafeSync || |bits| == 1 || bits[|bits| - 2] == bits[|bits| - 1])
  {
  }

  lemma {:induction false} SerialLast(loader: Loader, bits: seq<bool>)
    ensures var ws := SerialWires(loader, bits);
            ws != [] && ws[|ws| - 1] == Wire(EndsHigh(loader, bits), bits != [] && bits[|bits| - 1])
  {
  }

  /** The driver repeats the previous data value as the clock falls, and fix_bitbang lowers the
      clock before the data moves, so neither skews.  safe_sync lowers the clock and changes the
      data in one write, so it is free of skew only on images whose bits are all the same. */
  lemma {:induction false} SerialSkew(loader: Loader, bits: seq<bool>)
    ensures NoSkew(SerialWires(loader, bits)) <==> loader != SafeSync || AllEqual(bits)
  {
    if bits != [] {
      var init, t := bits[..|bits| - 1], WireTriple(loader, bits);
      var before := SerialWires(loader, init);
      SerialSkew(loader, init);
      SerialLast(loader, init);
      NoSkewThree(before, t);
      TripleSmooth(loader, bits, before[|before| - 1]);
      AllEqualSnoc(init, bits[|bits| - 1]);
      assert bits == init + [bits[|bits| - 1]];
    }
  }

  lemma AllEqualSnoc(bits: seq<bool>, bit: bool)
    ensures AllEqual(bits + [bit]) <==> AllEqual(bits) && (bits == [] || bits[|bits| - 1] == bit)
  {
    var all := bits + [bit];
    assert forall i :: 0 <= i < |bits| ==> all[i] == bits[i];
    if AllEqual(all) {
      forall i | 0 < i < |bits| ensures bits[i - 1] == bits[i] { assert all[i - 1] == all[i]; }
      if bits != [] { assert all[|bits| - 1] == all[|bits|]; }
    }
  }

  lemma UploadSkew(loader: Loader, image: seq<bv8>)
    ensures NoSkew(Seen(Upload(loader, image))) <==> loader != SafeSync || AllEqual(Bits(image))
  {
    UploadSeen(loader, image);
    SerialSkew(loader, Bits(image));
  }
}
