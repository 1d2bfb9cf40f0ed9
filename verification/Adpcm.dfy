/** Xbox ADPCM: the IMA/DVI codec in fixed blocks of 36 bytes and 64 frames a channel, channels interleaved. */
module Adpcm {
  import opened Bits
  import opened LittleEndian

  const BLOCK := 36
  const FRAMES := 64

  datatype Channel = Channel(sample: int, index: int)

  /** A 16-bit predictor and an index into the step table. */
  type State = c: Channel | -32768 <= c.sample <= 32767 && 0 <= c.index <= 88
    witness Channel(0, 0)

  type Code = n: int | 0 <= n < 16

  // The step table, in three parts.

  function LowStep(index: int): (r: int)
    requires 0 <= index <= 29
    ensures 7 <= r <= 118
  {
    match index
    case 0 => 7 case 1 => 8 case 2 => 9 case 3 => 10 case 4 => 11 case 5 => 12
    case 6 => 13 case 7 => 14 case 8 => 16 case 9 => 17 case 10 => 19 case 11 => 21
    case 12 => 23 case 13 => 25 case 14 => 28 case 15 => 31 case 16 => 34 case 17 => 37
    case 18 => 41 case 19 => 45 case 20 => 50 case 21 => 55 case 22 => 60 case 23 => 66
    case 24 => 73 case 25 => 80 case 26 => 88 case 27 => 97 case 28 => 107 case _ => 118
  }

  function MiddleStep(index: int): (r: int)
    requires 30 <= index <= 59
    ensures 130 <= r <= 2066
  {
    match index
    case 30 => 130 case 31 => 143 case 32 => 157 case 33 => 173 case 34 => 190 case 35 => 209
    case 36 => 230 case 37 => 253 case 38 => 279 case 39 => 307 case 40 => 337 case 41 => 371
    case 42 => 408 case 43 => 449 case 44 => 494 case 45 => 544 case 46 => 598 case 47 => 658
    case 48 => 724 case 49 => 796 case 50 => 876 case 51 => 963 case 52 => 1060 case 53 => 1166
    case 54 => 1282 case 55 => 1411 case 56 => 1552 case 57 => 1707 case 58 => 1878 case _ => 2066
  }

  function HighStep(index: int): (r: int)
    requires 60 <= index <= 88
    ensures 2272 <= r <= 32767
  {
    match index
    case 60 => 2272 case 61 => 2499 case 62 => 2749 case 63 => 3024 case 64 => 3327 case 65 => 3660
    case 66 => 4026 case 67 => 4428 case 68 => 4871 case 69 => 5358 case 70 => 5894 case 71 => 6484
    case 72 => 7132 case 73 => 7845 case 74 => 8630 case 75 => 9493 case 76 => 10442 case 77 => 11487
    case 78 => 12635 case 79 => 13899 case 80 => 15289 case 81 => 16818 case 82 => 18500 case 83 => 20350
    case 84 => 22385 case 85 => 24623 case 86 => 27086 case 87 => 29794 case _ => 32767
  }

  function StepSize(index: int): (r: int)
    requires 0 <= index <= 88
    ensures 7 <= r <= 32767
  {
    if index < 30 then LowStep(index) else if index < 60 then MiddleStep(index) else HighStep(index)
  }

  /** A step is larger than the one before, by a tenth of it, give or take 0.8. */
  predicate ATenthMore(step: int, next: int) {
    step < next && 11 * step - 8 <= 10 * next <= 11 * step + 8
  }

  lemma LowStepGrows(index: nat)
    requires 0 <= index < 29
    ensures ATenthMore(StepSize(index), StepSize(index + 1))
  {
    hide MiddleStep, HighStep;
  }

  lemma MiddleStepGrows(index: nat)
    requires 30 <= index < 59
    ensures ATenthMore(StepSize(index), StepSize(index + 1))
  {
    hide LowStep, HighStep;
  }

  lemma HighStepGrows(index: nat)
    requires 60 <= index < 87
    ensures ATenthMore(StepSize(index), StepSize(index + 1))
  {
    hide LowStep, MiddleStep;
  }

  /** From 7 on every step is a tenth more than the one before, but for the last, cut to 16 bits. */
  lemma StepGrows(index: nat)
    requires index < 88
    ensures StepSize(0) == 7 && StepSize(87) == 29794 && StepSize(88) == 32767
    ensures index < 87 ==> ATenthMore(StepSize(index), StepSize(index + 1))
  {
    if index != 29 && index != 59 && index < 87 {
      hide StepSize, ATenthMore;
      if index < 29 {
        LowStepGrows(index);
      } else if index < 59 {
        MiddleStepGrows(index);
      } else {
        HighStepGrows(index);
      }
    }
  }

  function Adjust(code: Code): int {
    match code % 8
    case 4 => 2 case 5 => 4 case 6 => 6 case 7 => 8 case _ => -1
  }

  function Clamp(lo: int, hi: int, x: int): int {
    if x < lo then lo else if x > hi then hi else x
  }

  function Delta(step: nat, code: Code): int {
    step / 8 + (if code / 4 % 2 == 1 then step else 0)
    + (if code / 2 % 2 == 1 then step / 2 else 0) + (if code % 2 == 1 then step / 4 else 0)
  }

  function StepSample(st: State, code: Code): State {
    var delta := Delta(StepSize(st.index), code);
    Channel(Clamp(-32768, 32767, if code / 8 == 1 then st.sample - delta else st.sample + delta),
            Clamp(0, 88, st.index + Adjust(code)))
  }

  /** A code's low three bits m move the sample by (2m + 1) / 8 of a step, up or as the fourth bit says down, less what
      the shifts cut off and held to 16 bits; small moves shrink the next step and large ones grow it. */
  lemma StepMoves(st: State, code: Code)
    ensures var step, m, r := StepSize(st.index), code % 8, StepSample(st, code);
      var move := if code < 8 then r.sample - st.sample else st.sample - r.sample;
      && 0 <= 8 * move <= (2 * m + 1) * step
      && (8 * move >= (2 * m + 1) * step - 17 || r.sample == if code < 8 then 32767 else -32768)
      && (m < 4 ==> r.index == if st.index == 0 then 0 else st.index - 1)
      && (m >= 4 ==> r.index == if st.index + 2 * (m - 3) <= 88 then st.index + 2 * (m - 3) else 88)
  {
    hide StepSize, Delta;
    DeltaBounds(StepSize(st.index), code);
  }

  lemma DeltaBounds(step: nat, code: Code)
    ensures var most := (2 * (code % 8) + 1) * step;
      0 <= Delta(step, code) && most - 17 <= 8 * Delta(step, code) <= most
  {
    hide Delta;
    OddTimes(code / 4 % 2, code / 2 % 2, code % 2, step);
    assert code % 8 == 4 * (code / 4 % 2) + 2 * (code / 2 % 2) + code % 2;
    DeltaSums(step, code);
  }

  lemma DeltaSums(step: nat, code: Code)
    ensures 0 <= Delta(step, code)
    ensures var most := step + (if code / 4 % 2 == 1 then 8 * step else 0) + (if code / 2 % 2 == 1 then 4 * step else 0)
                        + (if code % 2 == 1 then 2 * step else 0);
      most - 17 <= 8 * Delta(step, code) <= most
  {}

  lemma OddTimes(a: nat, b: nat, c: nat, step: nat)
    requires a < 2 && b < 2 && c < 2
    ensures (2 * (4 * a + 2 * b + c) + 1) * step ==
      step + (if a == 1 then 8 * step else 0) + (if b == 1 then 4 * step else 0) + (if c == 1 then 2 * step else 0)
  {
    assert a == 0 || a == 1;
    assert b == 0 || b == 1;
    assert c == 0 || c == 1;
  }

  // ----- what a block means

  type MonoBlock = s: Bytes | |s| == BLOCK witness seq(BLOCK, _ => 0)

  /** The k-th code after the 4-byte header, low nibble first. */
  function CodeAt(block: MonoBlock, k: nat): Code
    requires k < 64
  {
    if k % 2 == 0 then block[4 + k / 2] % 16 else block[4 + k / 2] / 16
  }

  function HeaderState(low: Byte, high: Byte, index: Byte): State {
    Channel(Int16(low, high), Clamp(0, 88, index))
  }

  /** The state when frame f comes out: the header's at frame 0, one code more each frame. */
  function StateAt(block: MonoBlock, f: nat): State
    requires f < FRAMES
  {
    if f == 0 then HeaderState(block[0], block[1], block[2])
    else StepSample(StateAt(block, f - 1), CodeAt(block, f - 1))
  }

  lemma FirstState(block: MonoBlock)
    ensures StateAt(block, 0) == HeaderState(block[0], block[1], block[2])
  {}

  lemma NextState(block: MonoBlock, f: nat)
    requires f + 1 < FRAMES
    ensures StateAt(block, f + 1) == StepSample(StateAt(block, f), CodeAt(block, f))
  {
    hide StepSample, CodeAt;
  }

  predicate Channels(c: int) { c == 1 || c == 2 }

  // Products and quotients by the channel count, which is 1 or 2.

  function Times(c: nat, n: nat): nat { if c == 1 then n else 2 * n }
  function FrameOf(c: nat, n: nat): nat { if c == 1 then n else n / 2 }
  function ChannelOf(c: nat, n: nat): nat { if c == 1 then 0 else n % 2 }

  lemma ByChannels(c: nat, n: nat)
    requires Channels(c)
    ensures Times(c, n) == n * c && FrameOf(c, n) == n / c && ChannelOf(c, n) == n % c
  {}

  /** Where byte j of one channel's block sits among the interleaved 4-byte groups. */
  function Place(c: nat, ch: nat, j: nat): (at: nat)
    requires Channels(c) && ch < c && j < BLOCK
    ensures at < Times(c, BLOCK)
  {
    Times(c, j / 4 * 4) + ch * 4 + j % 4
  }

  function ChannelBlock(block: Bytes, c: nat, ch: nat): MonoBlock
    requires Channels(c) && |block| == Times(c, BLOCK) && ch < c
  {
    seq(BLOCK, j requires 0 <= j < BLOCK => block[Place(c, ch, j)])
  }

  function Output(block: Bytes, c: nat, n: nat): int
    requires Channels(c) && |block| == Times(c, BLOCK) && n < Times(c, FRAMES)
  {
    StateAt(ChannelBlock(block, c, ChannelOf(c, n)), FrameOf(c, n)).sample
  }

  function DecodeBlock(block: Bytes, c: nat): (r: seq<int>)
    requires Channels(c) && |block| == Times(c, BLOCK)
    ensures |r| == Times(c, FRAMES)
  {
    seq(Times(c, FRAMES), n requires 0 <= n < Times(c, FRAMES) => Output(block, c, n))
  }

  function Decoded(src: Bytes, c: nat): seq<int>
    requires Channels(c)
  {
    if |src| < Times(c, BLOCK) then [] else DecodeBlock(src[..Times(c, BLOCK)], c) + Decoded(src[Times(c, BLOCK)..], c)
  }

  // ----- the decoder

  function Horner(nibbles: seq<Code>): nat {
    if nibbles == [] then 0 else nibbles[0] + 16 * Horner(nibbles[1..])
  }

  function Nibbles(a: Byte, b: Byte, c: Byte, d: Byte): (r: seq<Code>)
    ensures |r| == 8
  {
    [a % 16, a / 16, b % 16, b / 16, c % 16, c / 16, d % 16, d / 16]
  }

  function Word32(a: nat, b: nat, c: nat, d: nat): nat {
    a + 256 * b + 65536 * c + 16777216 * d
  }

  lemma WordIsNibbles(a: Byte, b: Byte, c: Byte, d: Byte)
    ensures Word32(a, b, c, d) == Horner(Nibbles(a, b, c, d))
  {
    var n := Nibbles(a, b, c, d);
    assert n[7..] == [d / 16] && n[6..] == [d % 16] + n[7..] && n[5..] == [c / 16] + n[6..];
    assert n[4..] == [c % 16] + n[5..] && n[3..] == [b / 16] + n[4..] && n[2..] == [b % 16] + n[3..];
    assert n[1..] == [a / 16] + n[2..] && n == [a % 16] + n[1..];
    assert Horner(n[7..]) == d / 16;
    assert Horner(n[6..]) == d;
    assert Horner(n[5..]) == c / 16 + 16 * d;
    assert Horner(n[4..]) == c + 256 * d;
    assert Horner(n[3..]) == b / 16 + 16 * (c + 256 * d);
    assert Horner(n[2..]) == b + 256 * (c + 256 * d);
  }

  /** The block's frames written so far: all below `frame`, and those below `more` in channels below ch. */
  ghost predicate Filled(out: seq<int>, block: Bytes, c: nat, frame: nat, more: nat, ch: nat)
    requires Channels(c) && |block| == Times(c, BLOCK) && |out| == Times(c, FRAMES)
  {
    forall n ::
      0 <= n < Times(c, FRAMES) && (FrameOf(c, n) < frame || (FrameOf(c, n) < more && ChannelOf(c, n) < ch)) ==>
        out[n] == Output(block, c, n)
  }

  /** What writing one channel's frames [frame, end) leaves in the block's output. */
  ghost predicate Wrote(before: seq<int>, out: seq<int>, mono: MonoBlock, c: nat, ch: nat, frame: nat, end: nat)
    requires Channels(c) && |before| == |out| == Times(c, FRAMES)
  {
    forall n :: 0 <= n < Times(c, FRAMES) ==>
      out[n] ==
        if ChannelOf(c, n) == ch && frame <= FrameOf(c, n) < end then StateAt(mono, FrameOf(c, n)).sample else before[n]
  }

  lemma NothingWrote(before: seq<int>, mono: MonoBlock, c: nat, ch: nat, frame: nat)
    requires Channels(c) && |before| == Times(c, FRAMES)
    ensures Wrote(before, before, mono, c, ch, frame, frame)
  {}

  lemma WroteFills(before: seq<int>, out: seq<int>, block: Bytes, c: nat, ch: nat, frame: nat, end: nat)
    requires Channels(c) && |block| == Times(c, BLOCK) && |before| == |out| == Times(c, FRAMES) && ch < c
    requires Filled(before, block, c, frame, end, ch) &&
      Wrote(before, out, ChannelBlock(block, c, ch), c, ch, frame, end)
    ensures Filled(out, block, c, frame, end, ch + 1)
  {
    hide StateAt, ChannelBlock;
    forall n | 0 <= n < Times(c, FRAMES) && (FrameOf(c, n) < frame ||
      (FrameOf(c, n) < end && ChannelOf(c, n) < ch + 1)) ensures out[n] == Output(block, c, n) {
      if ChannelOf(c, n) == ch && frame <= FrameOf(c, n) < end {
        assert out[n] == StateAt(ChannelBlock(block, c, ch), FrameOf(c, n)).sample;
      } else {
        assert out[n] == before[n];
      }
    }
  }

  lemma NextRow(out: seq<int>, block: Bytes, c: nat, frame: nat, end: nat)
    requires Channels(c) && |block| == Times(c, BLOCK) && |out| == Times(c, FRAMES) && frame <= end
    requires Filled(out, block, c, frame, end, c)
    ensures Filled(out, block, c, end, end, 0)
  {}

  lemma RowStarts(out: seq<int>, block: Bytes, c: nat, frame: nat, more: nat)
    requires Channels(c) && |block| == Times(c, BLOCK) && |out| == Times(c, FRAMES) && frame <= more
    requires Filled(out, block, c, frame, frame, 0)
    ensures Filled(out, block, c, frame, more, 0)
  {}

  /** One channel's next four bytes: n codes, each one frame. */
  method DecodeGroup(src: Bytes, p: nat, ghost mono: MonoBlock, start: State, c: nat, ch: nat, ghost g: nat, frame: nat,
                     n: nat, dst: array<int>, at: nat) returns (st: State)
    requires Channels(c) && ch < c && at + Times(c, FRAMES) <= dst.Length
    requires g < 8 && frame == 1 + 8 * g && 0 < n <= 8 && frame + n <= FRAMES
    requires p + 4 <= |src| && src[p..p + 4] == mono[4 + 4 * g..8 + 4 * g]
    requires start == StateAt(mono, frame - 1)
    modifies dst
    ensures st == StateAt(mono, frame + n - 1)
    ensures dst[..at] == old(dst[..at]) && dst[at + Times(c, FRAMES)..] == old(dst[at + Times(c, FRAMES)..])
    ensures Wrote(old(dst[at..at + Times(c, FRAMES)]), dst[at..at + Times(c, FRAMES)], mono, c, ch, frame, frame + n)
  {
    hide Nibbles, CodeAt, StepSample, Wrote, Position, StateAt, Horner, Word32, Times, FrameOf, ChannelOf, Channels;
    WordIsNibbles(src[p], src[p + 1], src[p + 2], src[p + 3]);
    var codes := Word32(src[p], src[p + 1], src[p + 2], src[p + 3]);
    st := start;
    NothingWrote(dst[at..at + Times(c, FRAMES)], mono, c, ch, frame);
    for i := 0 to n
      invariant st == StateAt(mono, frame + i - 1)
      invariant codes == Horner(Nibbles(src[p], src[p + 1], src[p + 2], src[p + 3])[i..])
      invariant dst[..at] == old(dst[..at]) && dst[at + Times(c, FRAMES)..] == old(dst[at + Times(c, FRAMES)..])
      invariant Wrote(old(dst[at..at + Times(c, FRAMES)]), dst[at..at + Times(c, FRAMES)], mono, c, ch, frame,
        frame + i)
    {
      CodeTaken(src, p, mono, g, i, codes, st);
      st := StepSample(st, codes % 16);
      codes := codes / 16;
      var m := Position(c, ch, frame + i);
      ghost var out := dst[at..at + Times(c, FRAMES)];
      Store(dst, at, Times(c, FRAMES), m, st.sample);
      OneMoreFrame(old(dst[at..at + Times(c, FRAMES)]), out, dst[at..at + Times(c, FRAMES)], mono, c, ch, frame,
        frame + i, m);
    }
  }

  method Store(dst: array<int>, at: nat, size: nat, m: nat, v: int)
    requires at + size <= dst.Length && m < size
    modifies dst
    ensures dst[at..at + size] == old(dst[at..at + size])[m := v]
    ensures dst[..at] == old(dst[..at]) && dst[at + size..] == old(dst[at + size..])
  {
    dst[at + m] := v;
  }

  lemma OneMoreFrame(before: seq<int>, out: seq<int>, out': seq<int>, mono: MonoBlock, c: nat, ch: nat,
                     frame: nat, f: nat, m: nat)
    requires Channels(c) && |before| == |out| == |out'| == Times(c, FRAMES) && ch < c && frame <= f < FRAMES
    requires m < Times(c, FRAMES) && FrameOf(c, m) == f && ChannelOf(c, m) == ch
    requires Wrote(before, out, mono, c, ch, frame, f) && out' == out[m := StateAt(mono, f).sample]
    ensures Wrote(before, out', mono, c, ch, frame, f + 1)
  {
    hide StateAt;
    forall n | 0 <= n < Times(c, FRAMES)
      ensures out'[n] ==
        if ChannelOf(c, n) == ch && frame <= FrameOf(c, n) < f + 1 then StateAt(mono, FrameOf(c, n)).sample
        else before[n]
    {
      if ChannelOf(c, n) == ch && FrameOf(c, n) == f {
        assert n == m by { if c == 1 {} else {} }
      }
    }
  }

  /** The next code comes off the low end of the word, and steps the state to the next frame. */
  lemma CodeTaken(src: Bytes, p: nat, mono: MonoBlock, g: nat, i: nat, codes: nat, st: State)
    requires g < 8 && i < 8 && 8 * g + i < 63 && p + 4 <= |src| && src[p..p + 4] == mono[4 + 4 * g..8 + 4 * g]
    requires codes == Horner(Nibbles(src[p], src[p + 1], src[p + 2], src[p + 3])[i..])
    requires st == StateAt(mono, 8 * g + i)
    ensures StepSample(st, codes % 16) == StateAt(mono, 8 * g + i + 1)
    ensures codes / 16 == Horner(Nibbles(src[p], src[p + 1], src[p + 2], src[p + 3])[i + 1..])
  {
    hide Nibbles, CodeAt, StepSample, StateAt;
    var nibbles := Nibbles(src[p], src[p + 1], src[p + 2], src[p + 3]);
    GroupCode(src, p, mono, g, i);
    NextState(mono, 8 * g + i);
    assert nibbles[i..][1..] == nibbles[i + 1..] && nibbles[i..][0] == nibbles[i];
  }

  lemma GroupCode(src: Bytes, p: nat, mono: MonoBlock, g: nat, i: nat)
    requires g < 8 && i < 8 && 8 * g + i < 63 && p + 4 <= |src| && src[p..p + 4] == mono[4 + 4 * g..8 + 4 * g]
    ensures Nibbles(src[p], src[p + 1], src[p + 2], src[p + 3])[i] == CodeAt(mono, 8 * g + i)
  {
    assert src[p] == src[p..p + 4][0] && src[p + 1] == src[p..p + 4][1];
    assert src[p + 2] == src[p..p + 4][2] && src[p + 3] == src[p..p + 4][3];
    assert (8 * g + i) / 2 == 4 * g + i / 2 && (8 * g + i) % 2 == i % 2;
  }

  /** Where frame f of channel ch goes among the interleaved frames. */
  function Position(c: nat, ch: nat, f: nat): (m: nat)
    requires Channels(c) && ch < c && f < FRAMES
    ensures m < Times(c, FRAMES) && FrameOf(c, m) == f && ChannelOf(c, m) == ch
  {
    Times(c, f) + ch
  }

  method DecodeBlockInto(src: Bytes, start: nat, c: nat, dst: array<int>, at: nat)
    requires Channels(c) && start + Times(c, BLOCK) <= |src| && at + Times(c, FRAMES) <= dst.Length
    modifies dst
    ensures dst[..] == old(dst[..])[..at] + DecodeBlock(src[start..start + Times(c, BLOCK)], c) +
      old(dst[..])[at + Times(c, FRAMES)..]
  {
    hide StateAt, ChannelBlock, Output;
    ghost var block := src[start..start + Times(c, BLOCK)];
    var st, p := DecodeHeaders(src, start, c, dst, at);
    var frame := 1;
    ghost var g := 0;
    while frame < FRAMES
      invariant 0 <= g <= 8 && frame == (if g < 8 then 1 + 8 * g else 64)
      invariant p == start + Times(c, 4) + Times(c, 4 * g)
      invariant |st| == 2 && forall k :: 0 <= k < c ==> st[k] == StateAt(ChannelBlock(block, c, k), frame - 1)
      invariant dst[..at] == old(dst[..at]) && dst[at + Times(c, FRAMES)..] == old(dst[at + Times(c, FRAMES)..])
      invariant Filled(dst[at..at + Times(c, FRAMES)], block, c, frame, frame, 0)
    {
      var n := FRAMES - frame;
      if n > 8 { n := 8; }
      st, p := DecodeRow(src, start, c, dst, at, block, st, p, g, frame, n);
      frame, g := frame + n, g + 1;
    }
    WholeBlock(dst[at..at + Times(c, FRAMES)], block, c);
    assert dst[..] == dst[..at] + dst[at..at + Times(c, FRAMES)] + dst[at + Times(c, FRAMES)..];
    assert old(dst[..at]) == old(dst[..])[..at];
    assert old(dst[at + Times(c, FRAMES)..]) == old(dst[..])[at + Times(c, FRAMES)..];
  }

  /** The next group of each channel in turn. */
  method DecodeRow(src: Bytes, ghost start: nat, c: nat, dst: array<int>, at: nat, ghost block: Bytes,
    st0: seq<State>, p0: nat, ghost g: nat, frame: nat, n: nat) returns (st: seq<State>, p: nat)
    requires Channels(c) && start + Times(c, BLOCK) <= |src| && at + Times(c, FRAMES) <= dst.Length
    requires block == src[start..start + Times(c, BLOCK)]
    requires g < 8 && frame == 1 + 8 * g && n == (if g < 7 then 8 else 7)
    requires p0 == start + Times(c, 4) + Times(c, 4 * g) && |st0| == 2
    requires forall k :: 0 <= k < c ==> st0[k] == StateAt(ChannelBlock(block, c, k), frame - 1)
    requires Filled(dst[at..at + Times(c, FRAMES)], block, c, frame, frame, 0)
    modifies dst
    ensures p == start + Times(c, 4) + Times(c, 4 * (g + 1)) && |st| == 2
    ensures forall k :: 0 <= k < c ==> st[k] == StateAt(ChannelBlock(block, c, k), frame + n - 1)
    ensures dst[..at] == old(dst[..at]) && dst[at + Times(c, FRAMES)..] == old(dst[at + Times(c, FRAMES)..])
    ensures Filled(dst[at..at + Times(c, FRAMES)], block, c, frame + n, frame + n, 0)
  {
    hide StateAt, ChannelBlock, Output, Filled;
    st, p := st0, p0;
    RowStarts(dst[at..at + Times(c, FRAMES)], block, c, frame, frame + n);
    for ch := 0 to c
      invariant p == start + Times(c, 4) + Times(c, 4 * g) + 4 * ch
      invariant |st| == 2 && forall k :: 0 <= k < c ==>
                  st[k] == StateAt(ChannelBlock(block, c, k), if k < ch then frame + n - 1 else frame - 1)
      invariant dst[..at] == old(dst[..at]) && dst[at + Times(c, FRAMES)..] == old(dst[at + Times(c, FRAMES)..])
      invariant Filled(dst[at..at + Times(c, FRAMES)], block, c, frame, frame + n, ch)
    {
      GroupPlaces(src, start, block, c, ch, g, p);
      ghost var before := dst[at..at + Times(c, FRAMES)];
      var next := DecodeGroup(src, p, ChannelBlock(block, c, ch), st[ch], c, ch, g, frame, n, dst, at);
      WroteFills(before, dst[at..at + Times(c, FRAMES)], block, c, ch, frame, frame + n);
      st := st[ch := next];
      p := p + 4;
    }
    NextRow(dst[at..at + Times(c, FRAMES)], block, c, frame, frame + n);
  }

  lemma WholeBlock(out: seq<int>, block: Bytes, c: nat)
    requires Channels(c) && |block| == Times(c, BLOCK) && |out| == Times(c, FRAMES) &&
      Filled(out, block, c, FRAMES, FRAMES, 0)
    ensures out == DecodeBlock(block, c)
  {
    hide Output;
    forall n | 0 <= n < Times(c, FRAMES) ensures out[n] == Output(block, c, n) {
      if c == 1 {
        assert FrameOf(c, n) < FRAMES;
      } else {
        assert FrameOf(c, n) < FRAMES;
      }
    }
  }

  /** Each channel's 4-byte header gives its first frame, and the state its codes start from. */
  method DecodeHeaders(src: Bytes, start: nat, c: nat, dst: array<int>, at: nat) returns (st: seq<State>, p: nat)
    requires Channels(c) && start + Times(c, BLOCK) <= |src| && at + Times(c, FRAMES) <= dst.Length
    modifies dst
    ensures p == start + Times(c, 4) && |st| == 2
    ensures forall k :: 0 <= k < c ==> st[k] == StateAt(ChannelBlock(src[start..start + Times(c, BLOCK)], c, k), 0)
    ensures dst[..at] == old(dst[..at]) && dst[at + Times(c, FRAMES)..] == old(dst[at + Times(c, FRAMES)..])
    ensures Filled(dst[at..at + Times(c, FRAMES)], src[start..start + Times(c, BLOCK)], c, 1, 1, 0)
  {
    hide StateAt, ChannelBlock, HeaderState, Filled, Times;
    ghost var block := src[start..start + Times(c, BLOCK)];
    p := start;
    st := [Channel(0, 0), Channel(0, 0)];
    NothingFilled(dst[at..at + Times(c, FRAMES)], block, c);
    HeadersFit(c);
    for ch := 0 to c
      invariant p == start + 4 * ch && |st| == 2
      invariant forall k :: 0 <= k < ch ==> st[k] == StateAt(ChannelBlock(block, c, k), 0)
      invariant dst[..at] == old(dst[..at]) && dst[at + Times(c, FRAMES)..] == old(dst[at + Times(c, FRAMES)..])
      invariant Filled(dst[at..at + Times(c, FRAMES)], block, c, 0, 1, ch)
    {
      HeaderRead(src, start, c, ch);
      var seed := Int16(src[p], src[p + 1]);
      var index := if src[p + 2] > 88 then 88 else src[p + 2];
      IsHeader(src[p], src[p + 1], src[p + 2]);
      st := st[ch := Channel(seed, index)];
      HeaderFills(dst[at..at + Times(c, FRAMES)], block, c, ch, seed);
      Store(dst, at, Times(c, FRAMES), ch, seed);
      p := p + 4;
    }
    NextRow(dst[at..at + Times(c, FRAMES)], block, c, 0, 1);
  }

  lemma NothingFilled(out: seq<int>, block: Bytes, c: nat)
    requires Channels(c) && |block| == Times(c, BLOCK) && |out| == Times(c, FRAMES)
    ensures Filled(out, block, c, 0, 1, 0)
  {}

  lemma HeadersFit(c: nat)
    requires Channels(c)
    ensures Times(c, 4) == 4 * c && 4 * c < Times(c, BLOCK) && c < Times(c, FRAMES)
  {}

  lemma IsHeader(low: Byte, high: Byte, index: Byte)
    ensures HeaderState(low, high, index) == Channel(Int16(low, high), if index > 88 then 88 else index)
  {}

  /** A header read where it lies is the state before the channel's first code. */
  lemma HeaderRead(src: Bytes, start: nat, c: nat, ch: nat)
    requires Channels(c) && start + Times(c, BLOCK) <= |src| && ch < c
    ensures var p := start + 4 * ch;
      p + 4 <= |src| && HeaderState(src[p], src[p + 1], src[p + 2]) ==
        StateAt(ChannelBlock(src[start..start + Times(c, BLOCK)], c, ch), 0)
  {
    hide HeaderState, StateAt, ChannelBlock;
    var block := src[start..start + Times(c, BLOCK)];
    HeaderPlaces(block, c, ch);
    assert block[4 * ch] == src[start + 4 * ch];
    assert block[4 * ch + 1] == src[start + 4 * ch + 1];
    assert block[4 * ch + 2] == src[start + 4 * ch + 2];
  }

  lemma HeaderFills(before: seq<int>, block: Bytes, c: nat, ch: nat, seed: int)
    requires Channels(c) && |block| == Times(c, BLOCK) && |before| == Times(c, FRAMES) && ch < c
    requires Filled(before, block, c, 0, 1, ch) && seed == StateAt(ChannelBlock(block, c, ch), 0).sample
    ensures ch < |before| && Filled(before[ch := seed], block, c, 0, 1, ch + 1)
  {
    hide StateAt, ChannelBlock, Filled, Wrote;
    var mono := ChannelBlock(block, c, ch);
    NothingWrote(before, mono, c, ch, 0);
    OneMoreFrame(before, before, before[ch := seed], mono, c, ch, 0, 0, ch);
    WroteFills(before, before[ch := seed], block, c, ch, 0, 1);
  }

  lemma HeaderPlaces(block: Bytes, c: nat, ch: nat)
    requires Channels(c) && |block| == Times(c, BLOCK) && ch < c
    ensures StateAt(ChannelBlock(block, c, ch), 0) == HeaderState(block[4 * ch], block[4 * ch + 1], block[4 * ch + 2])
  {
    hide HeaderState, StateAt, Times;
    FirstState(ChannelBlock(block, c, ch));
    HeaderPlace(c, ch);
  }

  lemma HeaderPlace(c: nat, ch: nat)
    requires Channels(c) && ch < c
    ensures Place(c, ch, 0) == 4 * ch && Place(c, ch, 1) == 4 * ch + 1 && Place(c, ch, 2) == 4 * ch + 2
  {}

  lemma GroupPlaces(src: Bytes, start: nat, block: Bytes, c: nat, ch: nat, g: nat, p: nat)
    requires Channels(c) && start + Times(c, BLOCK) <= |src| && block == src[start..start + Times(c, BLOCK)] && ch < c
    requires g < 8 && p == start + Times(c, 4) + Times(c, 4 * g) + 4 * ch
    ensures p + 4 <= start + Times(c, BLOCK)
    ensures src[p..p + 4] == ChannelBlock(block, c, ch)[4 + 4 * g..8 + 4 * g]
  {
    hide ChannelBlock, Times;
    GroupFits(c, ch, g);
    var mono := ChannelBlock(block, c, ch);
    GroupByte(src, start, block, c, ch, g, p, 0);
    GroupByte(src, start, block, c, ch, g, p, 1);
    GroupByte(src, start, block, c, ch, g, p, 2);
    GroupByte(src, start, block, c, ch, g, p, 3);
    SameFour(src[p..p + 4], mono[4 + 4 * g..8 + 4 * g]);
  }

  lemma GroupFits(c: nat, ch: nat, g: nat)
    requires Channels(c) && ch < c && g < 8
    ensures Times(c, 4) + Times(c, 4 * g) + 4 * ch + 4 <= Times(c, BLOCK)
  {}

  lemma SameFour(a: Bytes, b: Bytes)
    requires |a| == |b| == 4 && a[0] == b[0] && a[1] == b[1] && a[2] == b[2] && a[3] == b[3]
    ensures a == b
  {}

  lemma GroupByte(src: Bytes, start: nat, block: Bytes, c: nat, ch: nat, g: nat, p: nat, k: nat)
    requires Channels(c) && start + Times(c, BLOCK) <= |src| && block == src[start..start + Times(c, BLOCK)] && ch < c
    requires g < 8 && k < 4 && p == start + Times(c, 4) + Times(c, 4 * g) + 4 * ch
    ensures p + k < |src| && src[p + k] == ChannelBlock(block, c, ch)[4 + 4 * g + k]
  {
    hide Place, Times;
    GroupFits(c, ch, g);
    GroupPlace(c, ch, g, k);
  }

  lemma GroupPlace(c: nat, ch: nat, g: nat, k: nat)
    requires Channels(c) && ch < c && g < 8 && k < 4
    ensures Place(c, ch, 4 + 4 * g + k) == Times(c, 4) + Times(c, 4 * g) + 4 * ch + k
  {
    var j := 4 + 4 * g + k;
    assert j / 4 == 1 + g && j % 4 == k;
    if c == 1 {} else {}
  }

  /** Decodes whole blocks; refuses, writing nothing, a ragged input or one that does not fit. */
  method Decode(src: Bytes, channels: nat, dst: array<int>, dstFrames: nat) returns (ok: bool)
    requires channels * dstFrames <= dst.Length
    modifies dst
    ensures ok <==> Channels(channels) && |src| % (36 * channels) == 0 && |src| / (36 * channels) * 64 <= dstFrames
    ensures !ok ==> dst[..] == old(dst[..])
    ensures ok ==> |Decoded(src, channels)| <= dst.Length
                   && dst[..] == Decoded(src, channels) + old(dst[..])[|Decoded(src, channels)|..]
  {
    if channels < 1 || channels > 2 {
      return false;
    }
    var blockBytes := 36 * channels;
    if |src| % blockBytes != 0 {
      return false;
    }
    var blocks := |src| / blockBytes;
    if blocks * 64 > dstFrames {
      return false;
    }
    WholeBlocks(|src|, channels, blocks);
    ByChannels(channels, dstFrames);
    DecodeBlocks(src, channels, blocks, dst);
    ok := true;
  }

  method DecodeBlocks(src: Bytes, c: nat, blocks: nat, dst: array<int>)
    requires Channels(c) && |src| == Times(c, 36 * blocks) && Times(c, 64 * blocks) <= dst.Length
    modifies dst
    ensures |Decoded(src, c)| <= dst.Length && dst[..] == Decoded(src, c) + old(dst[..])[|Decoded(src, c)|..]
  {
    hide Decoded, DecodeBlock, Times, DecodedUpto;
    ghost var before := dst[..];
    var s, d := 0, 0;
    NothingDecoded(src, c, before);
    for b := 0 to blocks
      invariant s == Times(c, 36 * b) <= |src| && d == Times(c, 64 * b) <= dst.Length
      invariant DecodedUpto(src, s, c, d, before, dst[..])
    {
      TimesNext(c, b, blocks);
      DecodeNext(src, s, c, b, dst, d, before);
      s, d := s + Times(c, BLOCK), d + Times(c, FRAMES);
    }
    AllDecoded(src, c, d, before, dst[..]);
  }

  /** The first s bytes are decoded into the first d samples; the rest is as before. */
  ghost predicate DecodedUpto(src: Bytes, s: nat, c: nat, d: nat, before: seq<int>, now: seq<int>)
    requires Channels(c) && s <= |src| && d <= |before|
  {
    |Decoded(src[..s], c)| == d && now == Decoded(src[..s], c) + before[d..]
  }

  lemma AllDecoded(src: Bytes, c: nat, d: nat, before: seq<int>, now: seq<int>)
    requires Channels(c) && d <= |before| && DecodedUpto(src, |src|, c, d, before, now)
    ensures |Decoded(src, c)| == d && now == Decoded(src, c) + before[d..]
  {
    hide Decoded;
    assert src[..|src|] == src;
  }

  method DecodeNext(src: Bytes, s: nat, c: nat, ghost b: nat, dst: array<int>, d: nat, ghost before: seq<int>)
    requires Channels(c) && s == Times(c, 36 * b) && s + Times(c, BLOCK) <= |src| && d + Times(c, FRAMES) <= dst.Length
    requires |before| == dst.Length && DecodedUpto(src, s, c, d, before, dst[..])
    modifies dst
    ensures DecodedUpto(src, s + Times(c, BLOCK), c, d + Times(c, FRAMES), before, dst[..])
  {
    hide Decoded, DecodeBlock, Times;
    ghost var whole := dst[..];
    DecodeBlockInto(src, s, c, dst, d);
    BlockStep(src, s, c, b, before, whole, dst[..]);
  }

  lemma TimesNext(c: nat, b: nat, blocks: nat)
    requires b < blocks
    ensures Times(c, 36 * (b + 1)) == Times(c, 36 * b) + Times(c, BLOCK) <= Times(c, 36 * blocks)
    ensures Times(c, 64 * (b + 1)) == Times(c, 64 * b) + Times(c, FRAMES) <= Times(c, 64 * blocks)
  {}

  lemma NothingDecoded(src: Bytes, c: nat, before: seq<int>)
    requires Channels(c)
    ensures DecodedUpto(src, 0, c, 0, before, before) && Times(c, 36 * 0) == Times(c, 64 * 0) == 0
  {
    assert src[..0] == [] && [] + before[0..] == before;
  }

  lemma BlockStep(src: Bytes, s: nat, c: nat, b: nat, before: seq<int>, whole: seq<int>, after: seq<int>)
    requires Channels(c) && s == Times(c, 36 * b) && s + Times(c, BLOCK) <= |src|
    requires var done, piece := Decoded(src[..s], c), DecodeBlock(src[s..s + Times(c, BLOCK)], c);
      && |done| + |piece| <= |before| && whole == done + before[|done|..]
      && after == whole[..|done|] + piece + whole[|done| + |piece|..]
    ensures var next := src[..s + Times(c, BLOCK)];
      |Decoded(next, c)| == |Decoded(src[..s], c)| + Times(c, FRAMES) &&
        after == Decoded(next, c) + before[|Decoded(next, c)|..]
  {
    hide Decoded, DecodeBlock, Times;
    var next := src[s..s + Times(c, BLOCK)];
    assert src[..s + Times(c, BLOCK)] == src[..s] + next;
    DecodesConcat(src[..s], next, c, b);
    OneBlock(next, c);
    Appended(before, Decoded(src[..s], c), DecodeBlock(next, c), whole, after);
  }

  lemma Appended(before: seq<int>, done: seq<int>, piece: seq<int>, s: seq<int>, t: seq<int>)
    requires |done| + |piece| <= |before| && s == done + before[|done|..]
    requires t == s[..|done|] + piece + s[|done| + |piece|..]
    ensures t == (done + piece) + before[|done + piece|..]
  {}

  lemma WholeBlocks(size: nat, c: nat, blocks: nat)
    requires Channels(c) && size % (36 * c) == 0 && blocks == size / (36 * c)
    ensures Times(c, 36 * blocks) == size
  {}

  lemma OneBlock(block: Bytes, c: nat)
    requires Channels(c) && |block| == Times(c, BLOCK)
    ensures Decoded(block, c) == DecodeBlock(block, c)
  {
    assert block[..Times(c, BLOCK)] == block && block[Times(c, BLOCK)..] == [];
  }

  // ----- decoding distributes over blocks and over channels

  /** Decoding concatenated whole blocks concatenates what they decode to. */
  lemma {:induction false} DecodesConcat(s: Bytes, t: Bytes, c: nat, blocks: nat)
    requires Channels(c) && |s| == Times(c, 36 * blocks)
    ensures Decoded(s + t, c) == Decoded(s, c) + Decoded(t, c)
    decreases blocks
  {
    hide DecodeBlock, Decoded;
    if blocks == 0 {
      assert s + t == t;
      DecodedEmpty(c);
    } else {
      DecodesFirst(s, c);
      DecodesFirst(s + t, c);
      assert (s + t)[..Times(c, BLOCK)] == s[..Times(c, BLOCK)];
      assert (s + t)[Times(c, BLOCK)..] == s[Times(c, BLOCK)..] + t;
      DecodesConcat(s[Times(c, BLOCK)..], t, c, blocks - 1);
    }
  }

  lemma DecodedEmpty(c: nat)
    requires Channels(c)
    ensures Decoded([], c) == []
  {}

  lemma DecodesFirst(s: Bytes, c: nat)
    requires Channels(c) && |s| >= Times(c, BLOCK)
    ensures Decoded(s, c) == DecodeBlock(s[..Times(c, BLOCK)], c) + Decoded(s[Times(c, BLOCK)..], c)
  {
    hide DecodeBlock;
  }

  /** One channel's bytes out of a stereo stream, block by block. */
  function Deinterleave(src: Bytes, ch: nat): Bytes
    requires ch < 2
  {
    if |src| < 72 then [] else ChannelBlock(src[..72], 2, ch) + Deinterleave(src[72..], ch)
  }

  function Interleave(l: seq<int>, r: seq<int>): seq<int>
    requires |l| == |r|
  {
    seq(2 * |l|, n requires 0 <= n < 2 * |l| => if n % 2 == 0 then l[n / 2] else r[n / 2])
  }

  lemma MonoPlaces(mono: MonoBlock)
    ensures ChannelBlock(mono, 1, 0) == mono
  {
    forall j | 0 <= j < BLOCK ensures Place(1, 0, j) == j {}
  }

  lemma MonoOutput(mono: MonoBlock, n: nat)
    requires n < FRAMES
    ensures DecodeBlock(mono, 1)[n] == StateAt(mono, n).sample
  {
    hide StateAt;
    MonoPlaces(mono);
    assert n % 1 == 0 && n / 1 == n;
  }

  lemma StereoBlock(block: Bytes)
    requires |block| == 72
    ensures DecodeBlock(block, 2) ==
            Interleave(DecodeBlock(ChannelBlock(block, 2, 0), 1), DecodeBlock(ChannelBlock(block, 2, 1), 1))
  {
    hide StateAt, ChannelBlock;
    var l, r := ChannelBlock(block, 2, 0), ChannelBlock(block, 2, 1);
    forall n | 0 <= n < 128 ensures DecodeBlock(block, 2)[n] == Interleave(DecodeBlock(l, 1), DecodeBlock(r, 1))[n] {
      MonoOutput(l, n / 2);
      MonoOutput(r, n / 2);
    }
  }

  lemma InterleaveConcat(a: seq<int>, b: seq<int>, c: seq<int>, d: seq<int>)
    requires |a| == |c| && |b| == |d|
    ensures Interleave(a + b, c + d) == Interleave(a, c) + Interleave(b, d)
  {}

  /** Stereo decoding is the interleaving of the two channels' mono decodings. */
  lemma {:induction false} StereoIsTwoMonos(src: Bytes, blocks: nat)
    requires |src| == 72 * blocks
    ensures |Deinterleave(src, 0)| == |Deinterleave(src, 1)| == 36 * blocks
    ensures |Decoded(Deinterleave(src, 0), 1)| == |Decoded(Deinterleave(src, 1), 1)| == 64 * blocks
    ensures Decoded(src, 2) == Interleave(Decoded(Deinterleave(src, 0), 1), Decoded(Deinterleave(src, 1), 1))
    decreases blocks
  {
    if blocks > 0 {
      var l, r := ChannelBlock(src[..72], 2, 0), ChannelBlock(src[..72], 2, 1);
      StereoIsTwoMonos(src[72..], blocks - 1);
      DecodesConcat(l, Deinterleave(src[72..], 0), 1, 1);
      DecodesConcat(r, Deinterleave(src[72..], 1), 1, 1);
      OneBlock(l, 1);
      OneBlock(r, 1);
      StereoBlock(src[..72]);
      InterleaveConcat(DecodeBlock(l, 1), Decoded(Deinterleave(src[72..], 0), 1),
                       DecodeBlock(r, 1), Decoded(Deinterleave(src[72..], 1), 1));
    }
  }

  /** Every sample decoded is a 16-bit value. */
  lemma {:induction false} SamplesIn16Bits(src: Bytes, c: nat)
    requires Channels(c)
    ensures forall k :: 0 <= k < |Decoded(src, c)| ==> -32768 <= Decoded(src, c)[k] <= 32767
    decreases |src|
  {
    if |src| >= Times(c, BLOCK) {
      SamplesIn16Bits(src[Times(c, BLOCK)..], c);
    }
  }
}
