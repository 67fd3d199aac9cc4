/** The life of the coherent DMA buffer, against an allocator that may fail at any request. */
module Dma {
  import opened Pal
  import opened Hw

  const PAGE_SIZE := 4096
  const ENOMEM := 12

  /** An allocation, as the driver has to hand it back. */
  datatype Block = Block(addr: u64, size: u64)

  /** Rounding up to a page in 64-bit arithmetic: the addition wraps. */
  function PageAlign(size: u64): u64 {
    (size + PAGE_SIZE - 1) % U64 / PAGE_SIZE * PAGE_SIZE
  }

  /** The size asked of the allocator. */
  function Request(size: u64): u64 {
    if PageAlign(size) > BUF_MAX then BUF_MAX else PageAlign(size)
  }

  // ---- the allocator --------------------------------------------------------------------------

  class Pool {
    const answer: nat -> Option<u64>       // the address the n-th request gets, or no memory
    var requests: nat
    ghost var live: map<array<bv32>, Block>

    constructor (answer: nat -> Option<u64>)
      ensures this.answer == answer && requests == 0 && live == map[]
    {
      this.answer, requests, live := answer, 0, map[];
    }

    method Allocate(size: u64) returns (buf: array?<bv32>, addr: u64)
      modifies this
      ensures requests == old(requests) + 1
      ensures match answer(old(requests))
              case None => buf == null && live == old(live)
              case Some(a) => buf != null && fresh(buf) && addr == a && buf.Length == size / 4
                              && live == old(live)[buf := Block(a, size)]
    {
      var a := answer(requests);
      requests := requests + 1;
      if a.None? {
        return null, 0;
      }
      buf, addr := new bv32[size / 4], a.value;
      live := live[buf := Block(addr, size)];
    }

    /** Only what is live can be freed, and only with its own address and size. */
    method Release(buf: array<bv32>, ghost addr: u64, ghost size: u64)
      requires buf in live && live[buf] == Block(addr, size)
      modifies this`live
      ensures live == old(live) - {buf}
    {
      live := live - {buf};
    }
  }

  // ---- the buffer's state machine ----------------------------------------------------------------

  /** The block the context holds, and how many blocks are allocated in all. */
  datatype State = State(held: Option<Block>, live: int, requests: nat)

  datatype Op = Alloc(size: u64) | Free

  function Freed(s: State): State {
    if s.held.Some? then s.(held := None, live := s.live - 1) else s
  }

  function Step(answer: nat -> Option<u64>, s: State, op: Op): State {
    match op
    case Free => Freed(s)
    case Alloc(size) =>
      if s.held.Some? && s.held.value.size >= size then s
      else
        var t := Freed(s);
        match answer(t.requests)
        case None => t.(requests := t.requests + 1)
        case Some(addr) => State(Some(Block(addr, Request(size))), t.live + 1, t.requests + 1)
  }

  ghost function View(ctx: Ctx, pool: Pool): State
    reads ctx, pool
  {
    State(if ctx.dmaBuf == null then None else Some(Block(ctx.dmaAddr, ctx.dmaSize)), |pool.live|, pool.requests)
  }

  /** The context's block, and nothing else, is allocated. */
  ghost predicate Owns(ctx: Ctx, pool: Pool)
    reads ctx, pool
  {
    pool.live == if ctx.dmaBuf == null then map[] else map[ctx.dmaBuf := Block(ctx.dmaAddr, ctx.dmaSize)]
  }

  lemma OwnsIff(ctx: Ctx, pool: Pool)
    ensures ctx.dmaBuf == null ==> (Owns(ctx, pool) <==> pool.live == map[])
    ensures forall buf: array<bv32> :: buf == ctx.dmaBuf ==>
              (Owns(ctx, pool) <==> pool.live == map[buf := Block(ctx.dmaAddr, ctx.dmaSize)])
  {
  }

  // ---- the driver's functions ------------------------------------------------------------------------

  /** The descriptor writes for a buffer at `addr`. */
  function Descriptors(addr: u64): History {
    [Wr(Dsp, 0x7008, Low32(addr)), Wr(Dsp, 0x70A4, Low32(addr)), Wr(Dsp, 0x70A8, 0x3_0000), Wr(Dsp, 0x70AC, 0x59C),
     Wr(Reg, DMA_BASE, Low32(addr))]
  }

  method SetupSg(ctx: Ctx) returns (err: int)
    modifies ctx.card
    ensures err == if ctx.dmaBuf == null then -1 else 0
    ensures ctx.card.log == old(ctx.card.log) + if ctx.dmaBuf == null then [] else Descriptors(ctx.dmaAddr)
  {
    if ctx.dmaBuf == null {
      return -1;
    }
    var addr := Low32(ctx.dmaAddr);
    ctx.card.Write32(Dsp, 0x7008, addr);
    ctx.card.Write32(Dsp, 0x70A4, addr);
    ctx.card.Write32(Dsp, 0x70A8, 0x3_0000);
    ctx.card.Write32(Dsp, 0x70AC, 0x59C);
    ctx.card.Write32(Reg, DMA_BASE, addr);
    return 0;
  }

  method DmaFree(ctx: Ctx, pool: Pool)
    requires Owns(ctx, pool)
    modifies ctx`dmaBuf, ctx`dmaAddr, ctx`dmaSize, pool`live
    ensures Owns(ctx, pool) && ctx.dmaBuf == null && pool.live == map[]
    ensures if old(ctx.dmaBuf) != null then ctx.dmaAddr == 0 && ctx.dmaSize == 0
            else ctx.dmaAddr == old(ctx.dmaAddr) && ctx.dmaSize == old(ctx.dmaSize)
    ensures View(ctx, pool) == Step(pool.answer, old(View(ctx, pool)), Free)
  {
    if ctx.dmaBuf != null {
      pool.Release(ctx.dmaBuf, ctx.dmaAddr, ctx.dmaSize);
      ctx.dmaBuf := null;
      ctx.dmaAddr := 0;
      ctx.dmaSize := 0;
    }
  }

  /** Take a new block into the context, clear it and tell the card. */
  method Publish(ctx: Ctx, buf: array<bv32>, addr: u64, size: u64)
    modifies ctx`dmaBuf, ctx`dmaAddr, ctx`dmaSize, ctx.card, buf
    ensures ctx.dmaBuf == buf && ctx.dmaAddr == addr && ctx.dmaSize == size
    ensures ctx.card.log == old(ctx.card.log) + Descriptors(addr)
    ensures forall i :: 0 <= i < buf.Length ==> buf[i] == 0
  {
    ctx.dmaBuf, ctx.dmaAddr := buf, addr;
    ctx.dmaSize := size;
    Clear(buf);
    var err := SetupSg(ctx);
    assert err == 0;      // the descriptors only need a buffer, and there is one
  }

  method DmaAlloc(ctx: Ctx, pool: Pool, size: u64) returns (err: int)
    requires Owns(ctx, pool)
    modifies ctx`dmaBuf, ctx`dmaAddr, ctx`dmaSize, ctx.card, pool
    ensures Owns(ctx, pool)
    ensures View(ctx, pool) == Step(pool.answer, old(View(ctx, pool)), Alloc(size))
    ensures err == if ctx.dmaBuf != null then 0 else -12
    ensures ctx.dmaBuf == null && old(ctx.dmaBuf) != null ==> ctx.dmaAddr == 0 && ctx.dmaSize == 0
    ensures ctx.dmaBuf != null && ctx.dmaBuf != old(ctx.dmaBuf) ==>
              && ctx.card.log == old(ctx.card.log) + Descriptors(ctx.dmaAddr)
              && ctx.dmaBuf.Length == ctx.dmaSize / 4
              && forall i :: 0 <= i < ctx.dmaBuf.Length ==> ctx.dmaBuf[i] == 0
    ensures ctx.dmaBuf == null || ctx.dmaBuf == old(ctx.dmaBuf) ==> ctx.card.log == old(ctx.card.log)
  {
    if ctx.dmaBuf != null {
      if ctx.dmaSize >= size {
        return 0;
      }
      DmaFree(ctx, pool);
    }
    var request := Request(size);
    var buf, addr := pool.Allocate(request);
    if buf == null {
      return -ENOMEM;
    }
    Publish(ctx, buf, addr, request);
    return 0;
  }

  // ---- every run --------------------------------------------------------------------------------------

  function RunOps(answer: nat -> Option<u64>, s: State, ops: seq<Op>): State {
    if ops == [] then s else Step(answer, RunOps(answer, s, ops[..|ops| - 1]), ops[|ops| - 1])
  }

  /** One live block if one is held and none otherwise; a held block is whole pages, 4 MiB at most. */
  predicate Conserved(s: State) {
    && s.live == (if s.held.Some? then 1 else 0)
    && (s.held.Some? ==> s.held.value.size % 4096 == 0 && s.held.value.size <= 0x40_0000)
  }

  // What the pieces mean, in numbers.

  /** The smallest number of whole 4 KiB pages that is enough, or 4 MiB if that is less. */
  lemma RequestIsLeast(size: u64, pages: nat)
    requires size <= 0x40_0000
    ensures Request(size) % 4096 == 0 && size <= Request(size) < size + 4096
    ensures 4096 * pages >= size ==> Request(size) <= 4096 * pages
  {
  }

  lemma RequestCapped(size: u64)
    requires 0x40_0000 < size && size + 4095 < 0x1_0000_0000_0000_0000
    ensures Request(size) == 0x40_0000
  {
  }

  /** A block that is large enough is kept without asking the allocator; any other is given back and
      the allocator is asked once. */
  lemma AllocKeepsIff(answer: nat -> Option<u64>, s: State, size: u64)
    ensures Step(answer, s, Alloc(size)) == s <==> s.held.Some? && s.held.value.size >= size
    ensures Step(answer, s, Alloc(size)) != s ==>
              var t := Step(answer, s, Alloc(size));
              && t.requests == s.requests + 1
              && t.live == s.live - (if s.held.Some? then 1 else 0) + (if answer(s.requests).Some? then 1 else 0)
              && (t.held.Some? <==> answer(s.requests).Some?)
              && (t.held.Some? ==> t.held.value.addr == answer(s.requests).value)
  {
  }

  lemma FreeReleases(answer: nat -> Option<u64>, s: State)
    ensures var t := Step(answer, s, Free);
            t.held == None && t.requests == s.requests && t.live == s.live - (if s.held.Some? then 1 else 0)
  {
  }

  /** What the card's words hold once a buffer is set up. */
  lemma DescriptorWords(start: Memory, log: History, addr: u64, word: bv32)
    requires IsLow(word, addr)
    ensures var after := log + Descriptors(addr);
            && Mem(start, after, Dsp, 0x7008) == word && Mem(start, after, Dsp, 0x70A4) == word
            && Mem(start, after, Dsp, 0x70A8) == 0x3_0000 && Mem(start, after, Dsp, 0x70AC) == 0x59C
            && Mem(start, after, Reg, 0x18) == word
  {
    var d := Descriptors(addr);
    assert log + d == log + [d[0]] + [d[1]] + [d[2]] + [d[3]] + [d[4]];
    forall bar, offset ensures
      LastWrite(log + d, bar, offset)
        == if WritesTo(d[4], bar, offset) then Some(d[4].value)
           else LastWrite(log + [d[0]] + [d[1]] + [d[2]] + [d[3]], bar, offset)
    {
      LastWriteSnoc(log + [d[0]] + [d[1]] + [d[2]] + [d[3]], d[4], bar, offset);
    }
    LastWriteSnoc(log, d[0], Dsp, 0x7008);
    LastWriteSnoc(log + [d[0]], d[1], Dsp, 0x7008); LastWriteSnoc(log + [d[0]], d[1], Dsp, 0x70A4);
    LastWriteSnoc(log + [d[0]] + [d[1]], d[2], Dsp, 0x7008); LastWriteSnoc(log + [d[0]] + [d[1]], d[2], Dsp, 0x70A4);
    LastWriteSnoc(log + [d[0]] + [d[1]], d[2], Dsp, 0x70A8);
    LastWriteSnoc(log + [d[0]] + [d[1]] + [d[2]], d[3], Dsp, 0x7008);
    LastWriteSnoc(log + [d[0]] + [d[1]] + [d[2]], d[3], Dsp, 0x70A4);
    LastWriteSnoc(log + [d[0]] + [d[1]] + [d[2]], d[3], Dsp, 0x70A8);
    LastWriteSnoc(log + [d[0]] + [d[1]] + [d[2]], d[3], Dsp, 0x70AC);
  }

  lemma RequestInPages(size: u64)
    ensures Request(size) % PAGE_SIZE == 0 && Request(size) <= BUF_MAX
  {
  }

  lemma {:induction false} RunConserves(answer: nat -> Option<u64>, ops: seq<Op>)
    ensures Conserved(RunOps(answer, State(None, 0, 0), ops))
  {
    if ops != [] {
      RunConserves(answer, ops[..|ops| - 1]);
      if ops[|ops| - 1].Alloc? { RequestInPages(ops[|ops| - 1].size); }
    }
  }

  /** Enough for the caller: at least the size asked for, up to the cap. */
  predicate Enough(got: u64, size: u64) {
    got >= size || got >= 0x40_0000
  }

  lemma RequestEnoughIff(size: u64)
    ensures Enough(Request(size), size) <==> size + 4095 < 0x1_0000_0000_0000_0000
    ensures size + 4095 >= 0x1_0000_0000_0000_0000 ==> Request(size) == 0
  {
  }

  lemma StepEnoughIff(answer: nat -> Option<u64>, s: State, size: u64)
    requires Conserved(s) && Step(answer, s, Alloc(size)).held.Some?
    ensures var got := Step(answer, s, Alloc(size)).held.value.size;
            && (Enough(got, size) <==> size + 4095 < 0x1_0000_0000_0000_0000)
            && (size + 4095 >= 0x1_0000_0000_0000_0000 ==> got == 0)
  {
    RequestEnoughIff(size);
  }

  /** A successful allocation is enough exactly when rounding the size to a page does not wrap;
      the sizes for which it wraps get an empty block. */
  lemma AllocEnoughIff(answer: nat -> Option<u64>, ops: seq<Op>, size: u64)
    requires Step(answer, RunOps(answer, State(None, 0, 0), ops), Alloc(size)).held.Some?
    ensures Enough(Step(answer, RunOps(answer, State(None, 0, 0), ops), Alloc(size)).held.value.size, size)
       <==> size + 4095 < 0x1_0000_0000_0000_0000
    ensures size + 4095 >= 0x1_0000_0000_0000_0000 ==>
              Step(answer, RunOps(answer, State(None, 0, 0), ops), Alloc(size)).held.value.size == 0
  {
    RunConserves(answer, ops);
    StepEnoughIff(answer, RunOps(answer, State(None, 0, 0), ops), size);
  }
}
