/** Copying between the stereo buffer of ALSA and the card's frames of 98 words. */
module Multiplex {
  import opened Pal
  import opened Hw

  /** The words the loops touch are inside the hardware buffer. */
  predicate Fits(frames: nat, hwWords: nat) {
    frames > 0 ==> (frames - 1) * CHANNELS + 3 < hwWords
  }

  /** The stereo sample that word `k` of the hardware buffer carries, if any. */
  predicate Carries(k: nat, frames: nat) {
    k / CHANNELS < frames && (k % CHANNELS == 2 || k % CHANNELS == 3)
  }

  function SampleOf(k: nat): nat {
    2 * (k / CHANNELS) + (if k % CHANNELS == 3 then 1 else 0)
  }

  /** The hardware word that carries stereo sample `j`. */
  function WordOf(j: nat): nat {
    CHANNELS * (j / 2) + 2 + j % 2
  }

  /** The hardware buffer after a playback copy. */
  function Muxed(hw: seq<bv32>, stereo: seq<bv32>, frames: nat): (r: seq<bv32>)
    requires 2 * frames <= |stereo|
    ensures |r| == |hw|
  {
    seq(|hw|, k requires 0 <= k < |hw| => if Carries(k, frames) then stereo[SampleOf(k)] else hw[k])
  }

  /** The stereo buffer after a capture copy. */
  function Demuxed(hw: seq<bv32>, stereo: seq<bv32>, frames: nat): (r: seq<bv32>)
    requires Fits(frames, |hw|)
    ensures |r| == |stereo|
  {
    seq(|stereo|, j requires 0 <= j < |stereo| =>
      if j < 2 * frames then (WordFits(j, frames, |hw|); hw[WordOf(j)]) else stereo[j])
  }

  lemma WordFits(j: nat, frames: nat, hwWords: nat)
    requires j < 2 * frames && Fits(frames, hwWords)
    ensures WordOf(j) < hwWords
  {
  }

  /** Word `w` of frame `f`. */
  lemma WordAt(f: nat, w: nat)
    requires w < CHANNELS
    ensures (f * CHANNELS + w) / CHANNELS == f && (f * CHANNELS + w) % CHANNELS == w
  {
  }

  // ---- the ack callbacks --------------------------------------------------------------------------

  method PlaybackAck(ctx: Ctx, area: array?<bv32>, frames: nat) returns (ret: int)
    requires ctx.dmaBuf != null && area != null ==>
               ctx.dmaBuf != area && 2 * frames <= area.Length && Fits(frames, ctx.dmaBuf.Length)
    modifies ctx.dmaBuf
    ensures ret == 0
    ensures ctx.dmaBuf != null && area != null ==> ctx.dmaBuf[..] == Muxed(old(ctx.dmaBuf[..]), area[..], frames)
    ensures ctx.dmaBuf != null && area == null ==> ctx.dmaBuf[..] == old(ctx.dmaBuf[..])
  {
    if ctx.dmaBuf == null || area == null {
      return 0;
    }
    var hw := ctx.dmaBuf;
    ghost var was := hw[..];
    for i := 0 to frames
      invariant forall k :: 0 <= k < hw.Length ==> hw[k] == if Carries(k, i) then area[SampleOf(k)] else was[k]
    {
      var left := area[i * 2];
      var right := area[i * 2 + 1];
      var frame := i * CHANNELS;
      assert frame <= (frames - 1) * CHANNELS;
      WordAt(i, 2);
      WordAt(i, 3);
      CarriesNext(i, hw.Length);
      hw[frame + 2] := left;
      hw[frame + 3] := right;
    }
    assert hw[..] == Muxed(was, area[..], frames);
    return 0;
  }

  lemma CarriesNext(i: nat, words: nat)
    ensures forall k :: 0 <= k < words ==>
              (Carries(k, i + 1) <==> Carries(k, i) || k == i * CHANNELS + 2 || k == i * CHANNELS + 3)
    ensures !Carries(i * CHANNELS + 2, i) && !Carries(i * CHANNELS + 3, i)
  {
    WordAt(i, 2);
    WordAt(i, 3);
    forall k | 0 <= k < words
      ensures Carries(k, i + 1) <==> Carries(k, i) || k == i * CHANNELS + 2 || k == i * CHANNELS + 3
    {
      assert k == k / CHANNELS * CHANNELS + k % CHANNELS;
    }
  }

  method CaptureAck(ctx: Ctx, area: array?<bv32>, frames: nat) returns (ret: int)
    requires ctx.dmaBuf != null && area != null ==>
               ctx.dmaBuf != area && 2 * frames <= area.Length && Fits(frames, ctx.dmaBuf.Length)
    modifies area
    ensures ret == 0
    ensures ctx.dmaBuf != null && area != null ==> area[..] == Demuxed(ctx.dmaBuf[..], old(area[..]), frames)
    ensures ctx.dmaBuf == null && area != null ==> area[..] == old(area[..])
  {
    if ctx.dmaBuf == null || area == null {
      return 0;
    }
    var hw := ctx.dmaBuf;
    ghost var was := area[..];
    for i := 0 to frames
      invariant forall j :: 0 <= j < 2 * frames ==> WordOf(j) < hw.Length
      invariant forall j :: 0 <= j < area.Length ==> area[j] == if j < 2 * i then hw[WordOf(j)] else was[j]
    {
      var frame := i * CHANNELS;
      assert WordOf(2 * i) == frame + 2 && WordOf(2 * i + 1) == frame + 3;
      area[i * 2] := hw[frame + 2];
      area[i * 2 + 1] := hw[frame + 3];
    }
    assert area[..] == Demuxed(hw[..], was, frames);
    return 0;
  }

  // ---- what the copies undo ---------------------------------------------------------------------------

  /** Capturing what was just played gives back the stereo buffer. */
  lemma CaptureUndoesPlayback(hw: seq<bv32>, stereo: seq<bv32>, frames: nat)
    requires 2 * frames <= |stereo| && Fits(frames, |hw|)
    ensures Demuxed(Muxed(hw, stereo, frames), stereo, frames) == stereo
    ensures forall other: seq<bv32>, j :: |other| == |stereo| && 0 <= j < 2 * frames ==>
              Demuxed(Muxed(hw, stereo, frames), other, frames)[j] == stereo[j]
  {
  }

  /** Playing back what was just captured leaves the hardware buffer as it was. */
  lemma PlaybackUndoesCapture(hw: seq<bv32>, stereo: seq<bv32>, frames: nat)
    requires 2 * frames <= |stereo| && Fits(frames, |hw|)
    ensures Muxed(hw, Demuxed(hw, stereo, frames), frames) == hw
  {
  }

  /** A played frame: left in word 2 and right in word 3 of 98. */
  lemma PlayedFrame(hw: seq<bv32>, stereo: seq<bv32>, frames: nat, i: nat)
    requires 2 * frames <= |stereo| && i < frames && 98 * i + 3 < |hw|
    ensures Muxed(hw, stereo, frames)[98 * i + 2] == stereo[2 * i]
    ensures Muxed(hw, stereo, frames)[98 * i + 3] == stereo[2 * i + 1]
  {
    WordAt(i, 2);
    WordAt(i, 3);
  }

  /** A captured frame comes from the same two words. */
  lemma CapturedFrame(hw: seq<bv32>, stereo: seq<bv32>, frames: nat, i: nat)
    requires 2 * frames <= |stereo| && i < frames && Fits(frames, |hw|)
    ensures 98 * i + 3 < |hw|
    ensures Demuxed(hw, stereo, frames)[2 * i] == hw[98 * i + 2]
    ensures Demuxed(hw, stereo, frames)[2 * i + 1] == hw[98 * i + 3]
    ensures forall j :: 2 * frames <= j < |stereo| ==> Demuxed(hw, stereo, frames)[j] == stereo[j]
  {
    assert 98 * i <= 98 * (frames - 1);
    assert WordOf(2 * i) == 98 * i + 2 && WordOf(2 * i + 1) == 98 * i + 3;
  }

  /** A playback copy touches words 2 and 3 of the first `frames` frames and nothing else. */
  lemma OtherWordsKept(hw: seq<bv32>, stereo: seq<bv32>, frames: nat, k: nat)
    requires 2 * frames <= |stereo| && k < |hw|
    requires (k % CHANNELS != 2 && k % CHANNELS != 3) || k >= frames * CHANNELS
    ensures Muxed(hw, stereo, frames)[k] == hw[k]
  {
  }

  // ---- the limits ------------------------------------------------------------------------------------------

  /** Buffer sizes, in frames of 8 bytes, that the advertised limits allow. */
  predicate AllowedByLimits(frames: nat, periodFrames: nat, periods: nat) {
    && frames == periodFrames * periods && PERIODS_MIN <= periods <= PERIODS_MAX
    && PERIOD_BYTES_MIN <= 8 * periodFrames <= PERIOD_BYTES_MAX && 8 * frames <= BUF_MAX
  }

  /** The copies fit iff the words of every frame are in the buffer. */
  lemma FitsIffInside(frames: nat, hwWords: nat)
    ensures Fits(frames, hwWords) <==> forall f: nat :: f < frames ==> 98 * f + 3 < hwWords
  {
    if !Fits(frames, hwWords) { assert 98 * (frames - 1) + 3 >= hwWords; }
  }

  /** The largest buffer the copies can serve has 10700 frames; the limits allow more. */
  lemma FitsIff(frames: nat)
    ensures Fits(frames, BUF_MAX / 4) <==> frames <= 10700
  {
  }

  lemma LimitsAllowTooMany()
    ensures AllowedByLimits(16384, 8192, 2) && !Fits(16384, BUF_MAX / 4)
  {
  }
}
