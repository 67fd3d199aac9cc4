/** The PCM position: the card's pointer when it is plausible, otherwise elapsed time. */
module Position {
  import opened Pal
  import opened Hw

  const FRAME_BYTES := 8          // two channels of 32 bits, the only format the driver offers
  const NS_PER_SEC := 1_000_000_000

  /** u64 subtraction and multiplication wrap. */
  function Elapsed(now: u64, start: u64): u64 {
    (now - start) % U64
  }

  function Frames(elapsedNs: u64, rate: u32): nat {
    elapsedNs * rate % U64 / NS_PER_SEC
  }

  /** The frame position the callback reports. */
  function FramePosition(running: bool, hwPtr: u32, dmaSize: u64, bufferSize: nat, elapsedNs: u64,
                         rate: u32): (pos: nat)
    ensures bufferSize > 0 ==> pos < bufferSize
    ensures bufferSize == 0 || !running ==> pos == 0
  {
    if running && 0 < hwPtr < dmaSize then
      var pos := hwPtr / FRAME_BYTES;
      if pos >= bufferSize then 0 else pos
    else if running && bufferSize > 0 then Frames(elapsedNs, rate) % bufferSize
    else 0
  }

  /** The DMA pointer register as a number. */
  method ReadPointer(ctx: Ctx) returns (hwPtr: u32)
    modifies ctx.card
    ensures ctx.card.log == Read(ctx.card.hw, old(ctx.card.log), Reg, DMA_CTRL)
    ensures hwPtr == ctx.card.hw(old(ctx.card.log), Reg, DMA_CTRL) as int
  {
    var word := ctx.card.Read32(Reg, DMA_CTRL);
    hwPtr := word as int;
  }

  method Pointer(ctx: Ctx, bufferSize: nat, nowNs: u64) returns (pos: nat)
    modifies ctx.card
    ensures ctx.card.log == Read(ctx.card.hw, old(ctx.card.log), Reg, 0x10)
    ensures pos == FramePosition(ctx.dmaRunning, ctx.card.hw(old(ctx.card.log), Reg, 0x10) as int, ctx.dmaSize,
                                 bufferSize, Elapsed(nowNs, ctx.startTimeNs), ctx.rate)
    ensures bufferSize > 0 ==> pos < bufferSize
  {
    pos := 0;
    var hwPtr := ReadPointer(ctx);
    if ctx.dmaRunning && hwPtr > 0 && hwPtr < ctx.dmaSize {
      pos := hwPtr / FRAME_BYTES;
      if pos >= bufferSize {
        pos := 0;
      }
    } else if ctx.dmaRunning && bufferSize > 0 {
      var elapsed := Elapsed(nowNs, ctx.startTimeNs);
      var frames := Frames(elapsed, ctx.rate);
      pos := frames % bufferSize;
    }
  }

  // ---- a plausible pointer ------------------------------------------------------------------------

  /** The frame the pointer is in, of two channels of four bytes; 0 if that is not in the buffer. */
  lemma PlausiblePosition(hwPtr: u32, dmaSize: u64, bufferSize: nat, elapsedNs: u64, rate: u32)
    requires 0 < hwPtr < dmaSize
    ensures var pos := FramePosition(true, hwPtr, dmaSize, bufferSize, elapsedNs, rate);
            if hwPtr < 2 * 4 * bufferSize then 2 * 4 * pos <= hwPtr < 2 * 4 * (pos + 1) else pos == 0
  {
  }

  lemma FrameOf(hwPtr: nat, pos: nat, bufferSize: nat)
    requires 8 * pos <= hwPtr < 8 * (pos + 1) && hwPtr < 8 * bufferSize
    ensures pos == hwPtr / 8 && pos < bufferSize
  {
  }

  /** Between two plausible pointers into the buffer, wrapped round or not, the advance that is reported
      is the whole frames between them; for pointers to whole frames, the bytes between them. */
  lemma PlausibleAdvance(p1: u32, p2: u32, dmaSize: u64, bufferSize: nat, e1: u64, e2: u64, rate: u32)
    requires 0 < p1 < dmaSize && 0 < p2 < dmaSize && p1 < 2 * 4 * bufferSize && p2 < 2 * 4 * bufferSize
    ensures var pos1 := FramePosition(true, p1, dmaSize, bufferSize, e1, rate);
            var pos2 := FramePosition(true, p2, dmaSize, bufferSize, e2, rate);
            var frames := p2 / (2 * 4) - p1 / (2 * 4);
            && (pos2 - pos1) % bufferSize == (if frames >= 0 then frames else frames + bufferSize)
            && (p1 % (2 * 4) == 0 && p2 % (2 * 4) == 0 ==>
                  2 * 4 * ((pos2 - pos1) % bufferSize) == if p1 <= p2 then p2 - p1 else p2 - p1 + 2 * 4 * bufferSize)
  {
    PlausiblePosition(p1, dmaSize, bufferSize, e1, rate);
    PlausiblePosition(p2, dmaSize, bufferSize, e2, rate);
    FrameOf(p1, FramePosition(true, p1, dmaSize, bufferSize, e1, rate), bufferSize);
    FrameOf(p2, FramePosition(true, p2, dmaSize, bufferSize, e2, rate), bufferSize);
    Residue(p2 / 8 - p1 / 8, bufferSize);
  }

  // ---- the time fallback --------------------------------------------------------------------------

  /** The frame count is the true one, elapsed * rate / 10^9 rounded down, exactly as long as the
      product fits in 64 bits: some 2^64 / rate nanoseconds, over four days at 48 kHz. */
  lemma FramesExactIff(elapsedNs: u64, rate: u32)
    ensures Frames(elapsedNs, rate) == elapsedNs * rate / 1_000_000_000 <==> elapsedNs * rate < 0x1_0000_0000_0000_0000
  {
  }

  lemma ProductMonotone(e1: nat, e2: nat, rate: nat)
    requires e1 <= e2
    ensures e1 * rate <= e2 * rate
    ensures (e2 - e1) * rate == e2 * rate - e1 * rate
  {
  }

  lemma FloorDifference(p1: nat, p2: nat)
    requires p1 <= p2
    ensures p1 / 1_000_000_000 <= p2 / 1_000_000_000
    ensures -1_000_000_000 < 1_000_000_000 * (p2 / 1_000_000_000 - p1 / 1_000_000_000) - (p2 - p1) < 1_000_000_000
  {
  }

  /** Between any two polls the count never goes back, and advances by (t2 - t1) * rate / 10^9 to
      within one frame, however far apart they are: rounding does not accumulate. */
  lemma FramesAdvance(e1: u64, e2: u64, rate: u32)
    requires e1 <= e2 && e2 * rate < 0x1_0000_0000_0000_0000
    ensures Frames(e1, rate) <= Frames(e2, rate)
    ensures -1_000_000_000 < 1_000_000_000 * (Frames(e2, rate) - Frames(e1, rate)) - (e2 - e1) * rate < 1_000_000_000
  {
    ProductMonotone(e1, e2, rate);
    FramesExactIff(e1, rate);
    FramesExactIff(e2, rate);
    FloorDifference(e1 * rate, e2 * rate);
  }

  lemma TimesMonotone(m: nat, a: int, b: int)
    requires a <= b
    ensures m * a <= m * b
  {
  }

  lemma TimesPlus(m: nat, a: int, b: int)
    ensures m * (a + b) == m * a + m * b
  {
  }

  /** Numbers less than `m` apart have the same quotient or consecutive ones. */
  lemma Quotients(a: nat, b: nat, m: nat)
    requires a <= b < a + m
    ensures b / m == a / m || b / m == a / m + 1
  {
    var qa, qb := a / m, b / m;
    assert a == m * qa + a % m && b == m * qb + b % m;
    if qb < qa {
      TimesMonotone(m, qb + 1, qa);
      TimesPlus(m, qb, 1);
    } else if qb > qa + 1 {
      TimesMonotone(m, qa + 2, qb);
      TimesPlus(m, qa, 2);
    }
  }

  lemma Residue(x: int, m: nat)
    requires -(m as int) <= x < m && m > 0
    ensures x % m == if x < 0 then x + m else x
  {
  }

  lemma ModDifference(a: nat, b: nat, m: nat)
    requires a <= b < a + m
    ensures (b % m - a % m) % m == b - a
  {
    var qa, qb := a / m, b / m;
    Quotients(a, b, m);
    assert a == m * qa + a % m && b == m * qb + b % m;
    if qb != qa {
      TimesPlus(m, qa, 1);
      assert b % m - a % m == b - a - m;
    }
    Residue(b % m - a % m, m);
  }

  /** The hardware's position is not plausible, so the time decides. */
  predicate FallsBack(hwPtr: u32, dmaSize: u64) {
    !(0 < hwPtr < dmaSize)
  }

  /** The caller recovers the advance from two positions reported by time, as long as it is shorter
      than the buffer. */
  lemma AdvanceRecovered(e1: u64, e2: u64, rate: u32, bufferSize: nat, dmaSize: u64, hwPtr1: u32, hwPtr2: u32)
    requires FallsBack(hwPtr1, dmaSize) && FallsBack(hwPtr2, dmaSize)
    requires e1 <= e2 && e2 * rate < 0x1_0000_0000_0000_0000
    requires bufferSize > 0 && Frames(e2, rate) - Frames(e1, rate) < bufferSize
    ensures var p1 := FramePosition(true, hwPtr1, dmaSize, bufferSize, e1, rate);
            var p2 := FramePosition(true, hwPtr2, dmaSize, bufferSize, e2, rate);
            (p2 - p1) % bufferSize == Frames(e2, rate) - Frames(e1, rate)
  {
    FramesAdvance(e1, e2, rate);
    ModDifference(Frames(e1, rate), Frames(e2, rate), bufferSize);
  }

  // ---- pausing ------------------------------------------------------------------------------------

  /** The start time is not moved by a pause, so the fallback counts the pause as played: across a
      pause from t1 to t2 the count stands still iff no frame boundary falls inside it. */
  lemma PauseCounted(start: u64, t1: u64, t2: u64, rate: u32)
    requires start <= t1 <= t2 && (t2 - start) * rate < U64
    ensures Frames(Elapsed(t2, start), rate) == Frames(Elapsed(t1, start), rate)
       <==> (t1 - start) * rate % 1_000_000_000 + (t2 - t1) * rate < 1_000_000_000
  {
    var e1, e2 := t1 - start, t2 - start;
    assert Elapsed(t1, start) == e1 && Elapsed(t2, start) == e2;
    ProductMonotone(e1, e2, rate);
    FramesExactIff(e1, rate);
    FramesExactIff(e2, rate);
    SameFloor(e1 * rate, e2 * rate);
  }

  lemma SameFloor(p1: nat, p2: nat)
    requires p1 <= p2
    ensures p1 / 1_000_000_000 == p2 / 1_000_000_000 <==> p1 % 1_000_000_000 + (p2 - p1) < 1_000_000_000
  {
  }
}
