/** Bringing the card up: allocate the DMA buffer, then initialize with it. */
module Probe {
  import opened Pal
  import opened Hw
  import opened Blob
  import opened Translation
  import opened Replay
  import opened FullInit
  import opened Dma

  /** The driver's probe, steps 3 to 6.  A failing initialization is only logged. */
  method BringUp(ctx: Ctx, pool: Pool, fw: Option<seq<bv8>>, init: Option<seq<bv8>>) returns (err: int)
    requires Owns(ctx, pool) && ctx.dmaBuf == null
    modifies ctx`dmaBuf, ctx`dmaAddr, ctx`dmaSize, ctx`portConfShadow, ctx.card, pool
    ensures err == 0 <==> old(pool.answer(pool.requests)).Some?
    ensures err != 0 ==> ctx.dmaBuf == null && ctx.card.log == old(ctx.card.log)
    ensures err == 0 ==> ctx.dmaBuf != null && ctx.dmaSize == 0x40_0000 && ctx.dmaBuf.Length == 0x10_0000
    ensures err == 0 ==> ctx.dmaAddr == old(pool.answer(pool.requests)).value
    ensures forall word :: err == 0 && IsLow(word, old(pool.answer(pool.requests)).value) ==>
              ctx.card.log == FullInitLog(ctx.card.hw, Some(word), ctx.regMapped, fw, init,
                                          old(ctx.card.log) + BufferWrites(word))
  {
    err := DmaAlloc(ctx, pool, 0x40_0000);
    if err != 0 {
      return;
    }
    ghost var was := ctx.card.log;
    forall word | IsLow(word, ctx.dmaAddr) ensures Descriptors(ctx.dmaAddr) == BufferWrites(word) {
      DescriptorsAre(ctx.dmaAddr, word);
    }
    var _ := FullInit.FullInit(ctx, fw, init);
  }

  /** The descriptor writes for a buffer at this address. */
  function BufferWrites(word: bv32): History {
    [Wr(Dsp, 0x7008, word), Wr(Dsp, 0x70A4, word), Wr(Dsp, 0x70A8, 0x3_0000), Wr(Dsp, 0x70AC, 0x59C),
     Wr(Reg, 0x18, word)]
  }

  /** Every address has a low word, and it is the address below 2^32. */
  lemma LowWord(address: u64) returns (word: bv32)
    ensures IsLow(word, address) && word as int == address % 0x1_0000_0000
  {
    word := WordOf(address % 0x1_0000_0000);
  }

  lemma DescriptorsAre(address: u64, word: bv32)
    requires IsLow(word, address)
    ensures Descriptors(address) == BufferWrites(word)
  {
  }

  /** The sequence with base + offset in place of every value inside a window. */
  function AdditiveEntries(base: bv32, es: seq<Entry>): seq<Entry> {
    seq(|es|, i requires 0 <= i < |es| => es[i].(value := Additive(base, es[i].value)))
  }

  lemma TranslateEntriesAdditive(base: bv32, es: seq<Entry>)
    requires Aligned64K(base)
    ensures TranslateEntries(Some(base), es) == AdditiveEntries(base, es)
  {
    forall i | 0 <= i < |es| ensures TranslateEntries(Some(base), es)[i] == AdditiveEntries(base, es)[i] {
      AdditiveWhenAligned(base, es[i].value);
    }
  }

  /** With an aligned buffer every replayed value goes out as base + offset. */
  lemma ReplayAdditive(hw: Hardware, base: bv32, es: seq<Entry>, log: History)
    requires Aligned64K(base)
    ensures ReplayAll(hw, Some(base), es, log) == ReplayAll(hw, None, AdditiveEntries(base, es), log)
  {
    TranslateEntriesAdditive(base, es);
    ReplayTranslated(hw, Some(base), es, log);
  }

  /** So bringing the card up with an aligned buffer is initializing it, with no buffer, from the
      sequence that has the buffer's own addresses in it. */
  lemma BroughtUpAdditive(hw: Hardware, base: bv32, mapped: bool, fw: Option<seq<bv8>>, init: Option<seq<bv8>>,
                          log: History)
    requires Aligned64K(base) && (init.Some? ==> |init.value| % 9 == 0)
    ensures var es := if init.Some? then Decode(init.value) else [];
            FullInitLog(hw, Some(base), mapped, fw, init, log)
              == HwInitLog(hw, mapped, StartedLog(hw, None, fw, AdditiveEntries(base, es), log))
  {
    ReplayAdditive(hw, base, Entries(init), BootLog(hw, fw, log));
  }
}
