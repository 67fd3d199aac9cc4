/** DMA address translation: the five address windows of the captured Windows trace,
    rewritten onto the driver's own buffer. */
module Translation {
  import opened Pal

  const MAGIC_1_BASE: bv32 := 0x1091_4000
  const MAGIC_1_MASK: bv32 := 0xFFFF_F000
  const MAGIC_2: bv32 := 0xFE87_0000
  const MAGIC_3: bv32 := 0x9000_0000
  const MAGIC_4_BASE: bv32 := 0xBFD7_0000
  const MAGIC_4_MASK: bv32 := 0xFFFF_0000
  const MAGIC_5_BASE: bv32 := 0xBFF9_2000
  const MAGIC_5_MASK: bv32 := 0xFFFF_F000
  const MAGIC_5_OFF: bv32 := 0x22_2000

  /** The driver's if/return chain, for the low half of the buffer's address. */
  function TranslateAt(dma32: bv32, val: bv32): bv32 {
    if val & MAGIC_1_MASK == MAGIC_1_BASE then (dma32 & MAGIC_1_MASK) | (val & !MAGIC_1_MASK)
    else if val == MAGIC_2 then dma32
    else if val == MAGIC_3 then dma32
    else if val & MAGIC_4_MASK == MAGIC_4_BASE then (dma32 & MAGIC_4_MASK) | (val & !MAGIC_4_MASK)
    else if val & MAGIC_5_MASK == MAGIC_5_BASE then dma32 + MAGIC_5_OFF + (val & !MAGIC_5_MASK)
    else val
  }

  /** motu424_translate_dma.  `dma` is None when there is no buffer. */
  function Translate(dma: Option<bv32>, val: bv32): bv32 {
    match dma
    case None => val
    case Some(dma32) => TranslateAt(dma32, val)
  }

  /** The five windows: what the driver tests and computes for each, and the address range and
      the base + offset that its comments promise. */
  datatype Window = W1 | W2 | W3 | W4 | W5 {
    /** The driver's test. */
    predicate Test(val: bv32) {
      match this
      case W1 => val & MAGIC_1_MASK == MAGIC_1_BASE
      case W2 => val == MAGIC_2
      case W3 => val == MAGIC_3
      case W4 => val & MAGIC_4_MASK == MAGIC_4_BASE
      case W5 => val & MAGIC_5_MASK == MAGIC_5_BASE
    }

    /** What the driver returns when the test succeeds. */
    function Result(base: bv32, val: bv32): bv32 {
      match this
      case W1 => (base & MAGIC_1_MASK) | (val & !MAGIC_1_MASK)
      case W2 => base
      case W3 => base
      case W4 => (base & MAGIC_4_MASK) | (val & !MAGIC_4_MASK)
      case W5 => base + MAGIC_5_OFF + (val & !MAGIC_5_MASK)
    }

    predicate Inside(val: bv32) {
      match this
      case W1 => 0x1091_4000 <= val <= 0x1091_4FFF
      case W2 => val == 0xFE87_0000
      case W3 => val == 0x9000_0000
      case W4 => 0xBFD7_0000 <= val <= 0xBFD7_FFFF
      case W5 => 0xBFF9_2000 <= val <= 0xBFF9_2FFF
    }

    /** Where the window's addresses live in the driver's buffer. */
    function Offset(val: bv32): bv32 {
      match this
      case W1 => val - 0x1091_4000
      case W2 => 0
      case W3 => 0
      case W4 => val - 0xBFD7_0000
      case W5 => 0x22_2000 + (val - 0xBFF9_2000)
    }

    function Relocate(base: bv32, val: bv32): bv32 {
      base + Offset(val)
    }
  }

  /** The driver's tests in the given order; the first one that succeeds decides. */
  function TestInOrder(order: seq<Window>, base: bv32, val: bv32): bv32 {
    if order == [] then val
    else if order[0].Test(val) then order[0].Result(base, val)
    else TestInOrder(order[1..], base, val)
  }

  /** base + offset inside a window, unchanged outside all five. */
  function Additive(base: bv32, val: bv32): bv32 {
    if W1.Inside(val) then W1.Relocate(base, val)
    else if W2.Inside(val) then W2.Relocate(base, val)
    else if W3.Inside(val) then W3.Relocate(base, val)
    else if W4.Inside(val) then W4.Relocate(base, val)
    else if W5.Inside(val) then W5.Relocate(base, val)
    else val
  }

  /** The replay tool's translation, which has one address for each group of windows. */
  function ToolTranslate(addr0: bv32, addr1: bv32, addr2: bv32, addr3: bv32, val: bv32): bv32 {
    if val & MAGIC_1_MASK == MAGIC_1_BASE then addr0 | (val & 0xFFF)
    else if val == MAGIC_2 then addr1
    else if val == MAGIC_3 then addr2
    else if val & MAGIC_4_MASK == MAGIC_4_BASE then addr3 | (val & 0xFFFF)
    else if val & MAGIC_5_MASK == MAGIC_5_BASE then addr3 + MAGIC_5_OFF + (val & 0xFFF)
    else val
  }

  predicate Aligned64K(base: bv32) {
    base & 0xFFFF == 0
  }

  // ---- the tests are ranges ---------------------------------------------------------

  lemma TestRange1(val: bv32)
    ensures val & MAGIC_1_MASK == MAGIC_1_BASE <==> 0x1091_4000 <= val <= 0x1091_4FFF
  {
  }

  lemma TestRange4(val: bv32)
    ensures val & MAGIC_4_MASK == MAGIC_4_BASE <==> 0xBFD7_0000 <= val <= 0xBFD7_FFFF
  {
  }

  lemma TestRange5(val: bv32)
    ensures val & MAGIC_5_MASK == MAGIC_5_BASE <==> 0xBFF9_2000 <= val <= 0xBFF9_2FFF
  {
  }

  lemma TestIsRange(w: Window, val: bv32)
    ensures w.Test(val) <==> w.Inside(val)
  {
    match w
    case W1 => TestRange1(val);
    case W2 =>
    case W3 =>
    case W4 => TestRange4(val);
    case W5 => TestRange5(val);
  }

  lemma WindowsDisjoint(u: Window, w: Window, val: bv32)
    requires u.Inside(val) && w.Inside(val)
    ensures u == w
  {
  }

  lemma TestsDisjoint(u: Window, w: Window, val: bv32)
    requires u.Test(val) && w.Test(val)
    ensures u == w
  {
    TestIsRange(u, val);
    TestIsRange(w, val);
    WindowsDisjoint(u, w, val);
  }

  // ---- the order of the tests --------------------------------------------------------

  // The chain, one branch at a time.

  /** `w` is the one window whose test succeeds. */
  predicate Only(w: Window, val: bv32) {
    && W1.Test(val) == (w == W1) && W2.Test(val) == (w == W2) && W3.Test(val) == (w == W3)
    && W4.Test(val) == (w == W4) && W5.Test(val) == (w == W5)
  }

  lemma TestsOf(w: Window, val: bv32)
    requires w.Test(val)
    ensures Only(w, val)
  {
    forall u: Window | u.Test(val) ensures u == w { TestsDisjoint(u, w, val); }
    assert W1.Test(val) ==> W1 == w;
    assert W2.Test(val) ==> W2 == w;
    assert W3.Test(val) ==> W3 == w;
    assert W4.Test(val) ==> W4 == w;
    assert W5.Test(val) ==> W5 == w;
  }

  lemma Chain1(base: bv32, val: bv32)
    requires Only(W1, val)
    ensures TranslateAt(base, val) == W1.Result(base, val)
  {
  }

  lemma Chain2(base: bv32, val: bv32)
    requires Only(W2, val)
    ensures TranslateAt(base, val) == W2.Result(base, val)
  {
  }

  lemma Chain3(base: bv32, val: bv32)
    requires Only(W3, val)
    ensures TranslateAt(base, val) == W3.Result(base, val)
  {
  }

  lemma Chain4(base: bv32, val: bv32)
    requires Only(W4, val)
    ensures TranslateAt(base, val) == W4.Result(base, val)
  {
  }

  lemma Chain5(base: bv32, val: bv32)
    requires Only(W5, val)
    ensures TranslateAt(base, val) == W5.Result(base, val)
  {
  }

  lemma ChainTakes(w: Window, base: bv32, val: bv32)
    requires w.Test(val)
    ensures TranslateAt(base, val) == w.Result(base, val)
  {
    TestsOf(w, val);
    match w
    case W1 => Chain1(base, val);
    case W2 => Chain2(base, val);
    case W3 => Chain3(base, val);
    case W4 => Chain4(base, val);
    case W5 => Chain5(base, val);
  }

  /** A test that succeeds decides, whatever its place in the chain. */
  lemma BranchTaken(w: Window, base: bv32, val: bv32)
    requires w.Test(val)
    ensures Translate(Some(base), val) == w.Result(base, val)
  {
    ChainTakes(w, base, val);
  }

  lemma NoBranch(base: bv32, val: bv32)
    requires forall w: Window :: !w.Test(val)
    ensures Translate(Some(base), val) == val
  {
    assert !W1.Test(val) && !W2.Test(val) && !W3.Test(val) && !W4.Test(val) && !W5.Test(val);
  }

  /** Any order of the five tests gives the driver's function, wherever the buffer is. */
  lemma {:induction false} OrderIrrelevant(order: seq<Window>, base: bv32, val: bv32)
    requires forall w: Window :: w.Test(val) ==> w in order
    ensures TestInOrder(order, base, val) == Translate(Some(base), val)
  {
    if order == [] {
      NoBranch(base, val);
    } else if order[0].Test(val) {
      BranchTaken(order[0], base, val);
    } else {
      OrderIrrelevant(order[1..], base, val);
    }
  }

  // ---- base + offset ------------------------------------------------------------------

  lemma PageOffset1(base: bv32, val: bv32)
    requires Aligned64K(base) && 0x1091_4000 <= val <= 0x1091_4FFF
    ensures (base & MAGIC_1_MASK) | (val & !MAGIC_1_MASK) == base + (val - 0x1091_4000)
  {
  }

  lemma PageOffset4(base: bv32, val: bv32)
    requires Aligned64K(base) && 0xBFD7_0000 <= val <= 0xBFD7_FFFF
    ensures (base & MAGIC_4_MASK) | (val & !MAGIC_4_MASK) == base + (val - 0xBFD7_0000)
  {
  }

  lemma Relocated1(base: bv32, val: bv32)
    requires W1.Inside(val) && Aligned64K(base)
    ensures W1.Result(base, val) == W1.Relocate(base, val)
  {
    PageOffset1(base, val);
  }

  lemma Relocated4(base: bv32, val: bv32)
    requires W4.Inside(val) && Aligned64K(base)
    ensures W4.Result(base, val) == W4.Relocate(base, val)
  {
    PageOffset4(base, val);
  }

  lemma PageOffset5(val: bv32)
    requires 0xBFF9_2000 <= val <= 0xBFF9_2FFF
    ensures val & !MAGIC_5_MASK == val - 0xBFF9_2000
  {
  }

  lemma PlusAssociates(a: bv32, b: bv32, c: bv32)
    ensures a + b + c == a + (b + c)
  {
  }

  lemma Relocated5(base: bv32, val: bv32)
    requires W5.Inside(val)
    ensures W5.Result(base, val) == W5.Relocate(base, val)
  {
    PageOffset5(val);
    PlusAssociates(base, MAGIC_5_OFF, val & !MAGIC_5_MASK);
  }

  lemma ResultIsRelocated(w: Window, base: bv32, val: bv32)
    requires w.Inside(val) && Aligned64K(base)
    ensures w.Result(base, val) == w.Relocate(base, val)
  {
    if w == W1 {
      Relocated1(base, val);
    } else if w == W4 {
      Relocated4(base, val);
    } else if w == W5 {
      Relocated5(base, val);
    }
  }

  /** For a 64 KiB-aligned base the masks compute base + offset. */
  lemma TranslateInside(w: Window, base: bv32, val: bv32)
    requires w.Inside(val) && Aligned64K(base)
    ensures Translate(Some(base), val) == w.Relocate(base, val)
  {
    TestIsRange(w, val);
    BranchTaken(w, base, val);
    ResultIsRelocated(w, base, val);
  }

  predicate Outside(val: bv32) {
    !W1.Inside(val) && !W2.Inside(val) && !W3.Inside(val) && !W4.Inside(val) && !W5.Inside(val)
  }

  lemma OutsideIsNoWindow(val: bv32)
    ensures Outside(val) <==> forall w: Window :: !w.Inside(val)
  {
  }

  lemma TranslateOutside(base: bv32, val: bv32)
    requires Outside(val)
    ensures Translate(Some(base), val) == val
  {
    forall w: Window ensures !w.Test(val) {
      OutsideIsNoWindow(val);
      TestIsRange(w, val);
    }
    NoBranch(base, val);
  }

  lemma AdditiveInside(w: Window, base: bv32, val: bv32)
    requires w.Inside(val)
    ensures Additive(base, val) == w.Relocate(base, val)
  {
    if W1.Inside(val) { WindowsDisjoint(W1, w, val); }
    if W2.Inside(val) { WindowsDisjoint(W2, w, val); }
    if W3.Inside(val) { WindowsDisjoint(W3, w, val); }
    if W4.Inside(val) { WindowsDisjoint(W4, w, val); }
  }

  lemma AdditiveWhenAligned(base: bv32, val: bv32)
    requires Aligned64K(base)
    ensures Translate(Some(base), val) == Additive(base, val)
  {
    if w: Window :| w.Inside(val) {
      TranslateInside(w, base, val);
      AdditiveInside(w, base, val);
    } else {
      OutsideIsNoWindow(val);
      TranslateOutside(base, val);
    }
  }

  lemma MaskMovesUnaligned(base: bv32)
    ensures base & MAGIC_4_MASK == base <==> Aligned64K(base)
  {
  }

  lemma Window4Start(base: bv32)
    ensures W4.Test(MAGIC_4_BASE) && W4.Result(base, MAGIC_4_BASE) == base & MAGIC_4_MASK
  {
  }

  /** The first address of window 4 goes to the start of the base's 64 KiB block. */
  lemma FirstOfWindow4(base: bv32)
    ensures Translate(Some(base), MAGIC_4_BASE) == base & MAGIC_4_MASK
  {
    Window4Start(base);
    BranchTaken(W4, base, MAGIC_4_BASE);
  }

  /** The fourth window's wider mask makes 64 KiB alignment necessary as well as sufficient
      for "base + offset". */
  lemma AdditiveIffAligned(base: bv32)
    ensures (forall val :: Translate(Some(base), val) == Additive(base, val)) <==> Aligned64K(base)
  {
    if Aligned64K(base) {
      forall val ensures Translate(Some(base), val) == Additive(base, val) {
        AdditiveWhenAligned(base, val);
      }
    } else {
      FirstOfWindow4(base);
      AdditiveInside(W4, base, MAGIC_4_BASE);
      MaskMovesUnaligned(base);
    }
  }

  /** With an aligned buffer base + offset needs no order either. */
  lemma AdditiveInOrder(order: seq<Window>, base: bv32, val: bv32)
    requires (forall w: Window :: w.Test(val) ==> w in order) && Aligned64K(base)
    ensures TestInOrder(order, base, val) == Additive(base, val)
  {
    OrderIrrelevant(order, base, val);
    AdditiveWhenAligned(base, val);
  }

  // ---- the replay tool ------------------------------------------------------------------

  lemma OrAligned1(base: bv32, val: bv32)
    requires Aligned64K(base)
    ensures base | (val & 0xFFF) == (base & MAGIC_1_MASK) | (val & !MAGIC_1_MASK)
  {
  }

  lemma OrAligned4(base: bv32, val: bv32)
    requires Aligned64K(base)
    ensures base | (val & 0xFFFF) == (base & MAGIC_4_MASK) | (val & !MAGIC_4_MASK)
  {
  }

  lemma ToolChain1(base: bv32, val: bv32)
    requires Only(W1, val)
    ensures ToolTranslate(base, base, base, base, val) == base | (val & 0xFFF)
  {
    assert W1.Test(val);
  }

  lemma ToolChain4(base: bv32, val: bv32)
    requires Only(W4, val)
    ensures ToolTranslate(base, base, base, base, val) == base | (val & 0xFFFF)
  {
    assert !W1.Test(val) && !W2.Test(val) && !W3.Test(val) && W4.Test(val);
  }

  lemma ToolChain5(base: bv32, val: bv32)
    requires Only(W5, val)
    ensures ToolTranslate(base, base, base, base, val) == base + MAGIC_5_OFF + (val & 0xFFF)
  {
    assert !W1.Test(val) && !W2.Test(val) && !W3.Test(val) && !W4.Test(val) && W5.Test(val);
  }

  lemma SameLowBits(val: bv32)
    ensures val & 0xFFF == val & !MAGIC_5_MASK
  {
  }

  lemma ToolBranch(w: Window, base: bv32, val: bv32)
    requires w.Test(val) && Aligned64K(base)
    ensures ToolTranslate(base, base, base, base, val) == w.Result(base, val)
  {
    TestsOf(w, val);
    match w
    case W1 => OrAligned1(base, val); ToolChain1(base, val);
    case W2 =>
    case W3 =>
    case W4 => OrAligned4(base, val); ToolChain4(base, val);
    case W5 => SameLowBits(val); ToolChain5(base, val);
  }

  lemma ToolNoBranch(base: bv32, val: bv32)
    requires forall w: Window :: !w.Test(val)
    ensures ToolTranslate(base, base, base, base, val) == val
  {
    assert !W1.Test(val) && !W2.Test(val) && !W3.Test(val) && !W4.Test(val) && !W5.Test(val);
  }

  lemma ToolWhenAligned(base: bv32, val: bv32)
    requires Aligned64K(base)
    ensures Translate(Some(base), val) == ToolTranslate(base, base, base, base, val)
  {
    if w: Window :| w.Test(val) {
      BranchTaken(w, base, val);
      ToolBranch(w, base, val);
    } else {
      NoBranch(base, val);
      ToolNoBranch(base, val);
    }
  }

  lemma FirstOfWindow4Tool(base: bv32)
    ensures ToolTranslate(base, base, base, base, MAGIC_4_BASE) == base
  {
  }

  lemma ToolAgreesIffAligned(base: bv32)
    ensures (forall val :: Translate(Some(base), val) == ToolTranslate(base, base, base, base, val))
       <==> Aligned64K(base)
  {
    if Aligned64K(base) {
      forall val ensures Translate(Some(base), val) == ToolTranslate(base, base, base, base, val) {
        ToolWhenAligned(base, val);
      }
    } else {
      FirstOfWindow4(base);
      FirstOfWindow4Tool(base);
      MaskMovesUnaligned(base);
    }
  }

  // ---- the buffer --------------------------------------------------------------------------

  /** An address of the 4 MiB buffer at `base`. */
  predicate InBuffer(base: bv32, addr: bv32) {
    base <= addr && addr - base <= 0x3F_FFFF
  }

  /** The last address a window is rewritten to, base + 0x22_2FFF, does not pass 2^32. */
  predicate Reaches(base: bv32) {
    base <= 0xFFDD_D000
  }

  // Adding an offset to an aligned base, high and low half apart: the low half cannot carry.

  lemma HighGrows(base: bv32, high: bv32)
    requires Aligned64K(base) && high & 0xFFFF == 0 && base <= 0xFFDD_0000 && high <= 0x22_0000
    ensures base <= base + high && (base + high) & 0xFFFF == 0
  {
  }

  lemma LowOrs(base: bv32, low: bv32)
    requires Aligned64K(base) && low <= 0xFFFF
    ensures base + low == base | low
  {
  }

  lemma OrGrows(a: bv32, b: bv32)
    ensures a <= a | b
  {
  }

  lemma HalvesGrow(base: bv32, high: bv32, low: bv32)
    requires Aligned64K(base) && base <= 0xFFDD_0000
    requires high & 0xFFFF == 0 && high <= 0x22_0000 && low <= 0xFFFF
    ensures base <= base + high + low
  {
    HighGrows(base, high);
    LowOrs(base + high, low);
    OrGrows(base + high, low);
  }

  lemma SumGrows(base: bv32, high: bv32, low: bv32)
    requires Aligned64K(base) && base <= 0xFFDD_0000
    requires high & 0xFFFF == 0 && high <= 0x22_0000 && low <= 0xFFFF
    ensures base <= base + (high + low)
  {
    HalvesGrow(base, high, low);
    PlusAssociates(base, high, low);
  }

  lemma Halves(offset: bv32)
    ensures offset == (offset & 0xFFFF_0000) + (offset & 0xFFFF)
  {
  }

  lemma HalvesSmall(offset: bv32)
    requires offset <= 0x22_2FFF
    ensures (offset & 0xFFFF_0000) & 0xFFFF == 0 && offset & 0xFFFF_0000 <= 0x22_0000 && offset & 0xFFFF <= 0xFFFF
  {
  }

  lemma AlignedReach(base: bv32)
    requires Aligned64K(base) && Reaches(base)
    ensures base <= 0xFFDD_0000
  {
  }

  lemma OffsetGrowsBy(base: bv32, offset: bv32, high: bv32, low: bv32)
    requires Aligned64K(base) && base <= 0xFFDD_0000
    requires offset <= 0x22_2FFF && high == offset & 0xFFFF_0000 && low == offset & 0xFFFF
    ensures base <= base + offset
  {
    Halves(offset);
    HalvesSmall(offset);
    SumGrows(base, high, low);
  }

  lemma OffsetGrows(base: bv32, offset: bv32)
    requires Aligned64K(base) && Reaches(base) && offset <= 0x22_2FFF
    ensures base <= base + offset
  {
    AlignedReach(base);
    OffsetGrowsBy(base, offset, offset & 0xFFFF_0000, offset & 0xFFFF);
  }

  lemma SumMinus(a: bv32, b: bv32)
    ensures (a + b) - a == b
  {
  }

  lemma GrownInBuffer(base: bv32, offset: bv32)
    requires offset <= 0x22_2FFF && base <= base + offset
    ensures InBuffer(base, base + offset)
  {
    SumMinus(base, offset);
  }

  lemma OffsetInBuffer(base: bv32, offset: bv32)
    requires Aligned64K(base) && Reaches(base) && offset <= 0x22_2FFF
    ensures InBuffer(base, base + offset)
  {
    OffsetGrows(base, offset);
    GrownInBuffer(base, offset);
  }

  lemma InBuffer1(base: bv32, val: bv32)
    requires W1.Inside(val) && Aligned64K(base) && Reaches(base)
    ensures InBuffer(base, W1.Relocate(base, val))
  {
    OffsetInBuffer(base, W1.Offset(val));
  }

  lemma InBuffer2(base: bv32, val: bv32)
    requires W2.Inside(val) && Aligned64K(base) && Reaches(base)
    ensures InBuffer(base, W2.Relocate(base, val))
  {
    OffsetInBuffer(base, W2.Offset(val));
  }

  lemma InBuffer3(base: bv32, val: bv32)
    requires W3.Inside(val) && Aligned64K(base) && Reaches(base)
    ensures InBuffer(base, W3.Relocate(base, val))
  {
    OffsetInBuffer(base, W3.Offset(val));
  }

  lemma InBuffer4(base: bv32, val: bv32)
    requires W4.Inside(val) && Aligned64K(base) && Reaches(base)
    ensures InBuffer(base, W4.Relocate(base, val))
  {
    OffsetInBuffer(base, W4.Offset(val));
  }

  lemma InBuffer5(base: bv32, val: bv32)
    requires W5.Inside(val) && Aligned64K(base) && Reaches(base)
    ensures InBuffer(base, W5.Relocate(base, val))
  {
    OffsetInBuffer(base, W5.Offset(val));
  }

  lemma RelocatedInBuffer(w: Window, base: bv32, val: bv32)
    requires w.Inside(val) && Aligned64K(base) && Reaches(base)
    ensures InBuffer(base, w.Relocate(base, val))
  {
    match w
    case W1 => InBuffer1(base, val);
    case W2 => InBuffer2(base, val);
    case W3 => InBuffer3(base, val);
    case W4 => InBuffer4(base, val);
    case W5 => InBuffer5(base, val);
  }

  lemma BelowUnaligned(base: bv32)
    requires !Aligned64K(base)
    ensures base & MAGIC_4_MASK < base
  {
  }

  lemma LastOfWindow5(base: bv32)
    requires !Reaches(base)
    ensures W5.Test(0xBFF9_2FFF) && W5.Result(base, 0xBFF9_2FFF) < base
  {
  }

  /** Every rewritten value is an address inside the driver's buffer, and every other value is
      kept, iff the buffer is 64 KiB aligned and the rewritten part of it ends below 2^32. */
  lemma RewrittenInBuffer(base: bv32)
    ensures (forall val :: if Outside(val) then Translate(Some(base), val) == val
                           else InBuffer(base, Translate(Some(base), val)))
       <==> Aligned64K(base) && Reaches(base)
  {
    if !Aligned64K(base) {
      FirstOfWindow4(base);
      BelowUnaligned(base);
      assert !Outside(MAGIC_4_BASE);
    } else if !Reaches(base) {
      LastOfWindow5(base);
      BranchTaken(W5, base, 0xBFF9_2FFF);
      assert !Outside(0xBFF9_2FFF);
    } else {
      forall val ensures if Outside(val) then Translate(Some(base), val) == val
                         else InBuffer(base, Translate(Some(base), val)) {
        RewrittenStays(base, val);
      }
    }
  }

  lemma RewrittenStays(base: bv32, val: bv32)
    requires Aligned64K(base) && Reaches(base)
    ensures if Outside(val) then Translate(Some(base), val) == val else InBuffer(base, Translate(Some(base), val))
  {
    if Outside(val) {
      TranslateOutside(base, val);
    } else {
      OutsideIsNoWindow(val);
      var w: Window :| w.Inside(val);
      TranslateInside(w, base, val);
      RelocatedInBuffer(w, base, val);
    }
  }

  // ---- translating twice ----------------------------------------------------------------

  /** Windows 1 to 4 are rewritten into the base's 64 KiB block.  No other address of the block
      may be one that a window moves. */
  predicate BlockStable(base: bv32) {
    var block := base & 0xFFFF_0000;
    && (block == 0x1091_0000 ==> base & 0xFFFF_F000 == 0x1091_4000)
    && (block == 0xFE87_0000 ==> base == 0xFE87_0000)
    && (block == 0x9000_0000 ==> base == 0x9000_0000)
    && block != 0xBFF9_0000
  }

  /** Window 5 is rewritten to the 4 KiB from base + 0x22_2000, which must not overlap a window,
      except for the base that maps window 5 to itself. */
  predicate TableStable(base: bv32) {
    && !(0x106F_1001 <= base <= 0x106F_2FFF)
    && !(0xFE64_D001 <= base <= 0xFE64_E000)
    && !(0x8FDD_D001 <= base <= 0x8FDD_E000)
    && !(0xBFB4_D001 <= base <= 0xBFB5_DFFF)
    && (0xBFD6_F001 <= base <= 0xBFD7_0FFF ==> base == 0xBFD7_0000)
  }

  predicate Stable(base: bv32) {
    BlockStable(base) && TableStable(base)
  }

  predicate SameBlock(base: bv32, r: bv32) {
    r & 0xFFFF_0000 == base & 0xFFFF_0000
  }

  predicate InTable(base: bv32, r: bv32) {
    r - (base + MAGIC_5_OFF) <= 0xFFF
  }

  lemma ResultInBlock1(base: bv32, val: bv32)
    ensures SameBlock(base, W1.Result(base, val))
  {
  }

  lemma ResultInBlock4(base: bv32, val: bv32)
    ensures SameBlock(base, W4.Result(base, val))
  {
  }

  lemma ResultInBlock(w: Window, base: bv32, val: bv32)
    requires w != W5
    ensures SameBlock(base, w.Result(base, val))
  {
    if w == W1 {
      ResultInBlock1(base, val);
    } else if w == W4 {
      ResultInBlock4(base, val);
    }
  }

  lemma LowBits(val: bv32)
    ensures val & !MAGIC_5_MASK <= 0xFFF
  {
  }

  lemma SumInTable(base: bv32, offset: bv32)
    requires offset <= 0xFFF
    ensures InTable(base, base + MAGIC_5_OFF + offset)
  {
    SumMinus(base + MAGIC_5_OFF, offset);
  }

  lemma PageInTable(base: bv32, val: bv32)
    ensures InTable(base, base + MAGIC_5_OFF + (val & !MAGIC_5_MASK))
  {
    LowBits(val);
    SumInTable(base, val & !MAGIC_5_MASK);
  }

  lemma ResultInTable(base: bv32, val: bv32)
    ensures InTable(base, W5.Result(base, val))
  {
    PageInTable(base, val);
  }

  // A window that a rewritten address is in maps it to itself: first the addresses in the block.

  lemma BlockAt1(base: bv32, r: bv32)
    requires BlockStable(base) && SameBlock(base, r) && W1.Test(r)
    ensures W1.Result(base, r) == r
  {
  }

  lemma BlockAt2(base: bv32, r: bv32)
    requires BlockStable(base) && SameBlock(base, r) && W2.Test(r)
    ensures base == r
  {
  }

  lemma BlockAt3(base: bv32, r: bv32)
    requires BlockStable(base) && SameBlock(base, r) && W3.Test(r)
    ensures base == r
  {
  }

  lemma BlockAt4(base: bv32, r: bv32)
    requires SameBlock(base, r)
    ensures W4.Result(base, r) == r
  {
  }

  lemma BlockNotAt5(base: bv32, r: bv32)
    requires BlockStable(base) && SameBlock(base, r)
    ensures !W5.Test(r)
  {
  }

  lemma BlockFixed(u: Window, base: bv32, r: bv32)
    requires BlockStable(base) && SameBlock(base, r) && u.Test(r)
    ensures u.Result(base, r) == r
  {
    match u
    case W1 => BlockAt1(base, r);
    case W2 => BlockAt2(base, r);
    case W3 => BlockAt3(base, r);
    case W4 => BlockAt4(base, r);
    case W5 => BlockNotAt5(base, r);
  }

  // Then the addresses of window 5's table.

  lemma TableOutside(base: bv32, r: bv32)
    requires TableStable(base) && InTable(base, r)
    ensures !W1.Inside(r) && !W2.Inside(r) && !W3.Inside(r) && !W4.Inside(r)
  {
  }

  lemma TableAt5(base: bv32, r: bv32)
    requires TableStable(base) && InTable(base, r) && W5.Inside(r)
    ensures W5.Result(base, r) == r
  {
  }

  lemma TableFixed(u: Window, base: bv32, r: bv32)
    requires TableStable(base) && InTable(base, r) && u.Test(r)
    ensures u.Result(base, r) == r
  {
    TestIsRange(u, r);
    TableOutside(base, r);
    if u == W5 { TableAt5(base, r); }
  }

  lemma ResultFixed(w: Window, u: Window, base: bv32, val: bv32)
    requires Stable(base) && u.Test(w.Result(base, val))
    ensures u.Result(base, w.Result(base, val)) == w.Result(base, val)
  {
    if w == W5 {
      ResultInTable(base, val);
      TableFixed(u, base, w.Result(base, val));
    } else {
      ResultInBlock(w, base, val);
      BlockFixed(u, base, w.Result(base, val));
    }
  }

  lemma TwiceIsOnce(base: bv32, val: bv32)
    requires Stable(base)
    ensures Translate(Some(base), Translate(Some(base), val)) == Translate(Some(base), val)
  {
    if w: Window :| w.Test(val) {
      var r := w.Result(base, val);
      BranchTaken(w, base, val);
      if u: Window :| u.Test(r) {
        BranchTaken(u, base, r);
        ResultFixed(w, u, base, val);
      } else {
        NoBranch(base, r);
      }
    } else {
      NoBranch(base, val);
    }
  }

  /** The address `val` of window `w` is rewritten into window `u` and moved again. */
  predicate Moves(w: Window, u: Window, base: bv32, val: bv32) {
    var r := w.Result(base, val);
    w.Test(val) && u.Test(r) && u.Result(base, r) != r
  }

  lemma MovesTwice(w: Window, u: Window, base: bv32, val: bv32)
    requires Moves(w, u, base, val)
    ensures Translate(Some(base), Translate(Some(base), val)) != Translate(Some(base), val)
  {
    BranchTaken(w, base, val);
    BranchTaken(u, base, w.Result(base, val));
  }

  lemma BlockMoves1(base: bv32)
    requires base & 0xFFFF_0000 == 0x1091_0000 && base & 0xFFFF_F000 != 0x1091_4000
    ensures Moves(W4, W1, base, 0xBFD7_4000)
  {
  }

  lemma BlockMoves2(base: bv32)
    requires base & 0xFFFF_0000 == 0xFE87_0000 && base != 0xFE87_0000
    ensures Moves(W4, W2, base, 0xBFD7_0000)
  {
  }

  lemma BlockMoves3(base: bv32)
    requires base & 0xFFFF_0000 == 0x9000_0000 && base != 0x9000_0000
    ensures Moves(W4, W3, base, 0xBFD7_0000)
  {
  }

  lemma BlockMoves5(base: bv32)
    requires base & 0xFFFF_0000 == 0xBFF9_0000
    ensures Moves(W4, W5, base, 0xBFD7_2000)
  {
  }

  /** The address of window 5 rewritten to `first`, or the first one if the table begins later. */
  function TableAddress(base: bv32, first: bv32): bv32 {
    MAGIC_5_BASE + if base + 0x22_2000 >= first then 0 else first - (base + 0x22_2000)
  }

  lemma TableMoves1(base: bv32)
    requires 0x106F_1001 <= base <= 0x106F_2FFF
    ensures Moves(W5, W1, base, TableAddress(base, 0x1091_4000))
  {
  }

  lemma TableMoves2(base: bv32)
    requires 0xFE64_D001 <= base <= 0xFE64_E000
    ensures Moves(W5, W2, base, TableAddress(base, 0xFE87_0000))
  {
  }

  lemma TableMoves3(base: bv32)
    requires 0x8FDD_D001 <= base <= 0x8FDD_E000
    ensures Moves(W5, W3, base, TableAddress(base, 0x9000_0000))
  {
  }

  lemma TableMoves4(base: bv32)
    requires 0xBFB4_D001 <= base <= 0xBFB5_DFFF
    ensures Moves(W5, W4, base, TableAddress(base, 0xBFD7_0000))
  {
    if base + 0x22_2000 < 0xBFD7_0000 {
      TableReaches4(base);
    } else {
      TableBegins4(base);
    }
  }

  lemma TableReaches4(base: bv32)
    requires 0xBFB4_D001 <= base < 0xBFB4_E000
    ensures Moves(W5, W4, base, MAGIC_5_BASE + (0xBFD7_0000 - (base + 0x22_2000)))
  {
  }

  lemma TableBegins4(base: bv32)
    requires 0xBFB4_E000 <= base <= 0xBFB5_DFFF
    ensures Moves(W5, W4, base, MAGIC_5_BASE)
  {
  }

  lemma TableMoves5(base: bv32)
    requires 0xBFD6_F001 <= base <= 0xBFD7_0FFF && base != 0xBFD7_0000
    ensures Moves(W5, W5, base, TableAddress(base, 0xBFF9_2000))
  {
  }

  lemma BlockMoves(base: bv32) returns (u: Window, val: bv32)
    requires !BlockStable(base)
    ensures Moves(W4, u, base, val)
  {
    var block := base & 0xFFFF_0000;
    if block == 0x1091_0000 {
      BlockMoves1(base);
      return W1, 0xBFD7_4000;
    } else if block == 0xFE87_0000 {
      BlockMoves2(base);
      return W2, 0xBFD7_0000;
    } else if block == 0x9000_0000 {
      BlockMoves3(base);
      return W3, 0xBFD7_0000;
    } else {
      BlockMoves5(base);
      return W5, 0xBFD7_2000;
    }
  }

  lemma TableMoves(base: bv32) returns (u: Window, val: bv32)
    requires !TableStable(base)
    ensures Moves(W5, u, base, val)
  {
    if 0x106F_1001 <= base <= 0x106F_2FFF {
      TableMoves1(base);
      return W1, TableAddress(base, 0x1091_4000);
    } else if 0xFE64_D001 <= base <= 0xFE64_E000 {
      TableMoves2(base);
      return W2, TableAddress(base, 0xFE87_0000);
    } else if 0x8FDD_D001 <= base <= 0x8FDD_E000 {
      TableMoves3(base);
      return W3, TableAddress(base, 0x9000_0000);
    } else if 0xBFB4_D001 <= base <= 0xBFB5_DFFF {
      TableMoves4(base);
      return W4, TableAddress(base, 0xBFD7_0000);
    } else {
      TableMoves5(base);
      return W5, TableAddress(base, 0xBFF9_2000);
    }
  }

  /** For every buffer address: translating twice is translating once iff no rewritten address
      lands in a window that moves it again. */
  lemma IdempotentIff(base: bv32)
    ensures (forall val :: Translate(Some(base), Translate(Some(base), val)) == Translate(Some(base), val))
       <==> Stable(base)
  {
    if Stable(base) {
      forall val ensures Translate(Some(base), Translate(Some(base), val)) == Translate(Some(base), val) {
        TwiceIsOnce(base, val);
      }
    } else if !BlockStable(base) {
      var u, val := BlockMoves(base);
      MovesTwice(W4, u, base, val);
    } else {
      var u, val := TableMoves(base);
      MovesTwice(W5, u, base, val);
    }
  }

  lemma BlockStableWhenAligned(base: bv32, block: bv32)
    requires block == base & 0xFFFF_0000 == base
    ensures BlockStable(base) <==> base != 0x1091_0000 && base != 0xBFF9_0000
  {
  }

  lemma TableStableWhenAligned(base: bv32)
    requires Aligned64K(base)
    ensures TableStable(base) <==> base != 0xBFB5_0000
  {
  }

  lemma StableWhenAligned(base: bv32)
    requires Aligned64K(base)
    ensures Stable(base) <==> base != 0x1091_0000 && base != 0xBFB5_0000 && base != 0xBFF9_0000
  {
    MaskMovesUnaligned(base);
    BlockStableWhenAligned(base, base);
    TableStableWhenAligned(base);
  }

  /** No address of the buffer is in a window. */
  ghost predicate Clear(base: bv32) {
    forall addr :: InBuffer(base, addr) ==> Outside(addr)
  }

  /** A clear buffer is not enough for it: this one is moved twice all the same. */
  lemma ClearNotEnough()
    ensures Clear(0x1091_5000) && !Stable(0x1091_5000)
  {
  }

  /** A clear buffer that is 64 KiB aligned is. */
  lemma ClearAlignedStable(base: bv32)
    requires Clear(base) && Aligned64K(base)
    ensures Stable(base)
  {
    StableWhenAligned(base);
    assert InBuffer(0x1091_0000, 0x1091_4000) && InBuffer(0xBFB5_0000, 0xBFD7_0000);
    assert InBuffer(0xBFF9_0000, 0xBFF9_2000);
    assert !Outside(0x1091_4000) && !Outside(0xBFD7_0000) && !Outside(0xBFF9_2000);
  }
}
