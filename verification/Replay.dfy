/** Register polling and the replay of a decoded init sequence. */
module Replay {
  import opened Pal
  import opened Blob
  import opened Translation

  // ---- polling ----------------------------------------------------------------------

  /** The history after polling for `target` with at most `tries` reads. */
  function Poll(hw: Hardware, log: History, bar: Bar, offset: u32, target: bv32, tries: nat): History
    decreases tries
  {
    if tries == 0 then log
    else
      var log' := Read(hw, log, bar, offset);
      if hw(log, bar, offset) == target then log' else Poll(hw, log', bar, offset, target, tries - 1)
  }

  /** The hardware's answer to the k-th of a series of reads. */
  function Answer(hw: Hardware, log: History, bar: Bar, offset: u32, k: nat): bv32 {
    hw(Reads(hw, log, bar, offset, k), bar, offset)
  }

  predicate Answers(hw: Hardware, log: History, bar: Bar, offset: u32, target: bv32, tries: int) {
    exists k :: 0 <= k < tries && Answer(hw, log, bar, offset, k) == target
  }

  lemma {:induction false} ReadsFront(hw: Hardware, log: History, bar: Bar, offset: u32, n: nat)
    ensures Reads(hw, Read(hw, log, bar, offset), bar, offset, n) == Reads(hw, log, bar, offset, n + 1)
  {
    if n > 0 { ReadsFront(hw, log, bar, offset, n - 1); }
    assert Reads(hw, log, bar, offset, 0) == log;
  }

  /** A poll is a series of reads that ends with the first answer equal to the target, or
      after `tries` reads when none of them is. */
  lemma {:induction false} PollReadsToFirstMatch(hw: Hardware, log: History, bar: Bar, offset: u32, target: bv32,
                                                 tries: nat)
    returns (n: nat)
    ensures n <= tries && Poll(hw, log, bar, offset, target, tries) == Reads(hw, log, bar, offset, n)
    ensures forall k :: 0 <= k < n - 1 ==> Answer(hw, log, bar, offset, k) != target
    ensures if Answers(hw, log, bar, offset, target, tries)
            then n > 0 && Answer(hw, log, bar, offset, n - 1) == target
            else n == tries
    decreases tries
  {
    if tries == 0 { return 0; }
    assert Reads(hw, log, bar, offset, 0) == log;
    if hw(log, bar, offset) == target {
      assert Answer(hw, log, bar, offset, 0) == target;
      return 1;
    }
    var log' := Read(hw, log, bar, offset);
    var m := PollReadsToFirstMatch(hw, log', bar, offset, target, tries - 1);
    forall k: nat ensures Answer(hw, log', bar, offset, k) == Answer(hw, log, bar, offset, k + 1) {
      ReadsFront(hw, log, bar, offset, k);
    }
    ReadsFront(hw, log, bar, offset, m);
    if k :| 0 <= k < tries && Answer(hw, log, bar, offset, k) == target {
      assert Answer(hw, log', bar, offset, k - 1) == target;
    } else {
      assert forall k :: 0 <= k < tries - 1 ==> Answer(hw, log', bar, offset, k) == Answer(hw, log, bar, offset, k + 1);
    }
    forall k | 0 <= k < m + 1 - 1 ensures Answer(hw, log, bar, offset, k) != target {
      if k > 0 { assert Answer(hw, log', bar, offset, k - 1) == Answer(hw, log, bar, offset, k); }
    }
    return m + 1;
  }

  method PollReg(ctx: Ctx, bar: bv8, offset: u32, expected: bv32, timeoutMs: int) returns (ret: int)
    modifies ctx.card
    ensures BarOf(bar).Some? ==>
              var hw, was, b := ctx.card.hw, old(ctx.card.log), BarOf(bar).value;
              && ctx.card.log == Poll(hw, was, b, offset, expected, if timeoutMs < 0 then 0 else timeoutMs)
              && ret == (if Answers(hw, was, b, offset, expected, timeoutMs) then 0 else -1)
    ensures BarOf(bar).None? ==>
              && ctx.card.log == old(ctx.card.log)
              && ret == (if timeoutMs > 0 && expected == 0xFFFF_FFFF then 0 else -1)
  {
    ghost var hw, was := ctx.card.hw, ctx.card.log;
    ghost var tries := if timeoutMs < 0 then 0 else timeoutMs;
    var i := 0;
    while i < timeoutMs
      invariant 0 <= i <= tries
      invariant BarOf(bar).None? ==> ctx.card.log == was && (i > 0 ==> expected != 0xFFFF_FFFF)
      invariant BarOf(bar).Some? ==>
                  var b := BarOf(bar).value;
                  && ctx.card.log == Reads(hw, was, b, offset, i)
                  && Poll(hw, ctx.card.log, b, offset, expected, tries - i) == Poll(hw, was, b, offset, expected, tries)
                  && forall k :: 0 <= k < i ==> Answer(hw, was, b, offset, k) != expected
    {
      var val := MotuRead(ctx, bar, offset);
      if val == expected {
        assert BarOf(bar).Some? ==> Answer(hw, was, BarOf(bar).value, offset, i) == expected;
        return 0;
      }
      i := i + 1;
    }
    return -1;
  }

  // ---- replay -------------------------------------------------------------------------

  const POLL_MS := 1000

  function ReplayEntry(hw: Hardware, dma: Option<bv32>, e: Entry, log: History): History {
    var value := Translate(dma, e.value);
    if e.bar == POLL_MARKER then Poll(hw, log, Dsp, e.offset, value, POLL_MS)
    else BusWrite(log, e.bar, e.offset, value)
  }

  function ReplayAll(hw: Hardware, dma: Option<bv32>, es: seq<Entry>, log: History): History {
    if es == [] then log else ReplayAll(hw, dma, es[1..], ReplayEntry(hw, dma, es[0], log))
  }

  /** A sequence the driver accepts: not NULL, not empty, a whole number of entries. */
  predicate ValidSequence(data: Option<seq<bv8>>) {
    data.Some? && |data.value| != 0 && |data.value| % 9 == 0
  }

  method ReplaySequence(ctx: Ctx, data: Option<seq<bv8>>) returns (ret: int)
    modifies ctx.card
    ensures ret == if ValidSequence(data) then 0 else -1
    ensures ctx.card.log
         == if ValidSequence(data) then ReplayAll(ctx.card.hw, ctx.Dma(), Decode(data.value), old(ctx.card.log))
            else old(ctx.card.log)
    ensures ValidSequence(data) && ctx.dmaBuf == null ==>
              ctx.card.log == ReplayAll(ctx.card.hw, None, Decode(data.value), old(ctx.card.log))
    ensures forall word :: ValidSequence(data) && ctx.dmaBuf != null && IsLow(word, ctx.dmaAddr) ==>
              ctx.card.log == ReplayAll(ctx.card.hw, Some(word), Decode(data.value), old(ctx.card.log))
  {
    if data.None? || |data.value| == 0 || |data.value| % 9 != 0 {
      return -1;
    }
    var blob := data.value;
    var count := |blob| / 9;
    ghost var hw, dma, was := ctx.card.hw, ctx.Dma(), ctx.card.log;
    assert blob[0..] == blob;
    for i := 0 to count
      invariant ctx.Dma() == dma
      invariant ReplayAll(hw, dma, Decode(blob[9 * i..]), ctx.card.log) == ReplayAll(hw, dma, Decode(blob), was)
    {
      var entry := blob[i * 9..(i + 1) * 9];
      assert entry == blob[9 * i..][..9] && blob[9 * i..][9..] == blob[9 * (i + 1)..];
      var bar := entry[0];
      var offset := LoadOffset(entry[1], entry[2], entry[3], entry[4]);
      var value := LoadWord(entry[5], entry[6], entry[7], entry[8]);
      assert DecodeEntry(entry) == Entry(bar, offset, value);
      value := Translate(ctx.Dma(), value);
      if bar == POLL_MARKER {
        var _ := PollReg(ctx, 0, offset, value, POLL_MS);
        continue;
      }
      MotuWrite(ctx, bar, offset, value);
    }
    return 0;
  }

  // ---- replay algebra -------------------------------------------------------------------

  lemma {:induction false} ReplayAppend(hw: Hardware, dma: Option<bv32>, a: seq<Entry>, b: seq<Entry>, log: History)
    ensures ReplayAll(hw, dma, a + b, log) == ReplayAll(hw, dma, b, ReplayAll(hw, dma, a, log))
    decreases |a|
  {
    if a == [] {
      assert a + b == b;
    } else {
      assert (a + b)[1..] == a[1..] + b;
      ReplayAppend(hw, dma, a[1..], b, ReplayEntry(hw, dma, a[0], log));
    }
  }

  /** Replaying two blobs back to back is replaying their concatenation. */
  lemma ReplayBlobAppend(hw: Hardware, dma: Option<bv32>, a: seq<bv8>, b: seq<bv8>, log: History)
    requires |a| % 9 == 0 && |b| % 9 == 0
    ensures ReplayAll(hw, dma, Decode(a + b), log) == ReplayAll(hw, dma, Decode(b), ReplayAll(hw, dma, Decode(a), log))
  {
    DecodeAppend(a, b);
    ReplayAppend(hw, dma, Decode(a), Decode(b), log);
  }

  function TranslateEntries(dma: Option<bv32>, es: seq<Entry>): seq<Entry> {
    seq(|es|, i requires 0 <= i < |es| => es[i].(value := Translate(dma, es[i].value)))
  }

  /** The blob with every value, poll targets included, translated beforehand. */
  function TranslateBlob(dma: Option<bv32>, blob: seq<bv8>): seq<bv8>
    requires |blob| % 9 == 0
  {
    Encode(TranslateEntries(dma, Decode(blob)))
  }

  lemma {:induction false} ReplayTranslated(hw: Hardware, dma: Option<bv32>, es: seq<Entry>, log: History)
    ensures ReplayAll(hw, dma, es, log) == ReplayAll(hw, None, TranslateEntries(dma, es), log)
  {
    if es != [] {
      var ts := TranslateEntries(dma, es);
      assert ts[1..] == TranslateEntries(dma, es[1..]);
      ReplayTranslated(hw, dma, es[1..], ReplayEntry(hw, dma, es[0], log));
    }
  }

  /** The DMA buffer only matters through the translation of the blob's values. */
  lemma ReplayTranslatedBlob(hw: Hardware, dma: Option<bv32>, blob: seq<bv8>, log: History)
    requires |blob| % 9 == 0
    ensures ReplayAll(hw, dma, Decode(blob), log) == ReplayAll(hw, None, Decode(TranslateBlob(dma, blob)), log)
  {
    DecodeEncode(TranslateEntries(dma, Decode(blob)));
    ReplayTranslated(hw, dma, Decode(blob), log);
  }

  // ---- what replay leaves behind ----------------------------------------------------------

  predicate EntryNames(e: Entry, bar: Bar, offset: u32) {
    BarOf(e.bar) == Some(bar) && e.offset == offset
  }

  /** Entry `i` is the last one that names the word. */
  predicate LastNaming(es: seq<Entry>, bar: Bar, offset: u32, i: int) {
    0 <= i < |es| && EntryNames(es[i], bar, offset) && forall j :: i < j < |es| ==> !EntryNames(es[j], bar, offset)
  }

  predicate NeverNames(es: seq<Entry>, bar: Bar, offset: u32) {
    forall j :: 0 <= j < |es| ==> !EntryNames(es[j], bar, offset)
  }

  lemma {:induction false} PollKeepsWords(hw: Hardware, log: History, b: Bar, o: u32, target: bv32, tries: nat,
                                          bar: Bar, offset: u32)
    ensures LastWrite(Poll(hw, log, b, o, target, tries), bar, offset) == LastWrite(log, bar, offset)
    decreases tries
  {
    if tries > 0 {
      LastWriteSnoc(log, Rd(b, o, hw(log, b, o)), bar, offset);
      PollKeepsWords(hw, Read(hw, log, b, o), b, o, target, tries - 1, bar, offset);
    }
  }

  lemma ReplayEntryWord(hw: Hardware, dma: Option<bv32>, e: Entry, log: History, bar: Bar, offset: u32)
    ensures LastWrite(ReplayEntry(hw, dma, e, log), bar, offset)
         == if EntryNames(e, bar, offset) then Some(Translate(dma, e.value)) else LastWrite(log, bar, offset)
  {
    var value := Translate(dma, e.value);
    if e.bar == POLL_MARKER {
      PollKeepsWords(hw, log, Dsp, e.offset, value, POLL_MS, bar, offset);
    } else if BarOf(e.bar).Some? {
      LastWriteSnoc(log, Wr(BarOf(e.bar).value, e.offset, value), bar, offset);
    }
  }

  lemma {:induction false} ReplayUnnamed(hw: Hardware, dma: Option<bv32>, es: seq<Entry>, log: History,
                                         bar: Bar, offset: u32)
    requires NeverNames(es, bar, offset)
    ensures LastWrite(ReplayAll(hw, dma, es, log), bar, offset) == LastWrite(log, bar, offset)
  {
    if es != [] {
      ReplayEntryWord(hw, dma, es[0], log, bar, offset);
      ReplayUnnamed(hw, dma, es[1..], ReplayEntry(hw, dma, es[0], log), bar, offset);
    }
  }

  lemma {:induction false} ReplayNamed(hw: Hardware, dma: Option<bv32>, es: seq<Entry>, log: History,
                                       bar: Bar, offset: u32, i: int)
    requires LastNaming(es, bar, offset, i)
    ensures LastWrite(ReplayAll(hw, dma, es, log), bar, offset) == Some(Translate(dma, es[i].value))
  {
    var log' := ReplayEntry(hw, dma, es[0], log);
    if i == 0 {
      ReplayEntryWord(hw, dma, es[0], log, bar, offset);
      ReplayUnnamed(hw, dma, es[1..], log', bar, offset);
    } else {
      ReplayNamed(hw, dma, es[1..], log', bar, offset, i - 1);
    }
  }

  lemma {:induction false} SomeLastNaming(es: seq<Entry>, bar: Bar, offset: u32)
    ensures NeverNames(es, bar, offset) || exists i :: LastNaming(es, bar, offset, i)
  {
    if es != [] {
      SomeLastNaming(es[1..], bar, offset);
      if i :| LastNaming(es[1..], bar, offset, i) {
        assert forall j :: i + 1 < j < |es| ==> es[j] == es[1..][j - 1];
        assert LastNaming(es, bar, offset, i + 1);
      } else {
        assert forall j :: 0 < j < |es| ==> es[j] == es[1..][j - 1];
        if EntryNames(es[0], bar, offset) { assert LastNaming(es, bar, offset, 0); }
      }
    }
  }

  /** As a word map: each word ends up with the translated value of the last entry naming it,
      or keeps its old value.  Poll entries and unknown BARs name nothing. */
  lemma ReplayMemory(hw: Hardware, start: Memory, dma: Option<bv32>, blob: seq<bv8>, log: History,
                     bar: Bar, offset: u32)
    requires |blob| % 9 == 0
    ensures var es := Decode(blob);
            var word := Mem(start, ReplayAll(hw, dma, es, log), bar, offset);
            && (forall i :: LastNaming(es, bar, offset, i) ==> word == Translate(dma, es[i].value))
            && (NeverNames(es, bar, offset) ==> word == Mem(start, log, bar, offset))
            && (NeverNames(es, bar, offset) || exists i :: LastNaming(es, bar, offset, i))
  {
    var es := Decode(blob);
    SomeLastNaming(es, bar, offset);
    forall i | LastNaming(es, bar, offset, i)
      ensures LastWrite(ReplayAll(hw, dma, es, log), bar, offset) == Some(Translate(dma, es[i].value))
    {
      ReplayNamed(hw, dma, es, log, bar, offset, i);
    }
    if NeverNames(es, bar, offset) {
      ReplayUnnamed(hw, dma, es, log, bar, offset);
    }
  }
}
