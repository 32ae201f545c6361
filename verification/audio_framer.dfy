/** Model of the audio worklet processor of public/audioProcessor.js.

    The processor keeps a fixed buffer of BufferSize slots and a write cursor.
    Every sample of an incoming block is written at the cursor; when the cursor
    reaches BufferSize the whole buffer is clamped, scaled and stored into a
    16-bit PCM frame, the frame is posted, and the cursor goes back to zero.

    Samples are exact reals. The conversion into an Int16Array slot is written
    out step by step (clamp, scale, truncate toward zero, wrap modulo 2^16) on
    those reals; no claim is made about IEEE single-precision rounding.
 */
module AudioFramer {

  /** Capacity of the accumulation buffer and length of every emitted frame. */
  const BufferSize: nat := 4096

  /** Range of a signed 16-bit PCM sample. */
  const PcmMin: int := -32768
  const PcmMax: int := 32767

  /** One posted frame: the contents of an Int16Array of BufferSize entries. */
  type Frame = seq<int>

  predicate InPcmRange(p: int) {
    PcmMin <= p <= PcmMax
  }

  // ---------------------------------------------------------------------------
  // Quantization of one sample
  // ---------------------------------------------------------------------------

  /** `Math.max(-1, Math.min(1, x))`. */
  function Clamp(x: real): (s: real)
    ensures -1.0 <= s <= 1.0
    ensures -1.0 <= x <= 1.0 ==> s == x
    ensures 1.0 <= x ==> s == 1.0
    ensures x <= -1.0 ==> s == -1.0
  {
    var m := if 1.0 < x then 1.0 else x;
    if m < -1.0 then -1.0 else m
  }

  /** Negative samples are scaled by 0x8000, the others by 0x7FFF, so the
      clamped range [-1, 1] lands on [-32768, 32767] end to end and the sign
      is kept. */
  function Scale(s: real): (v: real)
    ensures -1.0 <= s <= 1.0 ==> PcmMin as real <= v <= PcmMax as real
    ensures s == -1.0 ==> v == PcmMin as real
    ensures s == 1.0 ==> v == PcmMax as real
    ensures v < 0.0 <==> s < 0.0
    ensures v == 0.0 <==> s == 0.0
  {
    if s < 0.0 then s * 32768.0 else s * 32767.0
  }

  /** The integer part of ECMAScript's ToInt16 on a finite number: truncation toward zero. */
  function Truncate(v: real): (n: int)
    ensures 0.0 <= v ==> n as real <= v < n as real + 1.0
    ensures v < 0.0 ==> n as real - 1.0 < v <= n as real
  {
    if v < 0.0 then -((-v).Floor) else v.Floor
  }

  /** The modulo-2^16 step of ECMAScript's ToInt16, which an Int16Array store applies. */
  function WrapInt16(n: int): (p: int)
    ensures InPcmRange(p)
    ensures (p - n) % 65536 == 0
    ensures InPcmRange(n) ==> p == n
  {
    (n + 32768) % 65536 - 32768
  }

  /** The value an Int16Array slot receives for input sample x. */
  function ToPcm16(x: real): (p: int)
    ensures InPcmRange(p)
  {
    WrapInt16(Truncate(Scale(Clamp(x))))
  }

  /** Quantization never wraps: the stored value is the scaled sample truncated
      toward zero, so it is off from the exact scaled value by less than one step,
      and samples outside [-1, 1] saturate. */
  lemma ToPcm16Exact(x: real)
    ensures var v := Scale(Clamp(x));
      && ToPcm16(x) == Truncate(v)
      && (ToPcm16(x) as real) - 1.0 < v < (ToPcm16(x) as real) + 1.0
    ensures 0.0 <= x <= 1.0 ==> ToPcm16(x) == (x * 32767.0).Floor
    ensures -1.0 <= x < 0.0 ==> ToPcm16(x) == -((-x * 32768.0).Floor)
    ensures 1.0 <= x ==> ToPcm16(x) == PcmMax
    ensures x <= -1.0 ==> ToPcm16(x) == PcmMin
  {
    var v := Scale(Clamp(x));
    assert -32768.0 <= v <= 32767.0;
    assert InPcmRange(Truncate(v));
  }

  /** The reference points: 1.0 maps to 32767, -1.0 to -32768 and 0.0 to 0. */
  lemma ToPcm16FixedPoints()
    ensures ToPcm16(1.0) == 32767
    ensures ToPcm16(-1.0) == -32768
    ensures ToPcm16(0.0) == 0
  {
    ToPcm16Exact(1.0);
    ToPcm16Exact(-1.0);
    ToPcm16Exact(0.0);
  }

  /** A louder sample never quantizes to a smaller PCM value, and the sign is kept. */
  lemma ToPcm16Monotonic(x: real, y: real)
    requires x <= y
    ensures ToPcm16(x) <= ToPcm16(y)
    ensures x < 0.0 ==> ToPcm16(x) <= 0
    ensures 0.0 <= x ==> 0 <= ToPcm16(x)
  {
    ToPcm16Exact(x);
    ToPcm16Exact(y);
    var sx, sy := Clamp(x), Clamp(y);
    assert sx <= sy;
    var vx, vy := Scale(sx), Scale(sy);
    assert vx <= vy;
    if vx < 0.0 && vy < 0.0 {
      assert (-vy).Floor <= (-vx).Floor;
    } else if 0.0 <= vx {
      assert vx.Floor <= vy.Floor;
    }
  }

  /** Quantization of a whole buffer, slot by slot. */
  function QuantizeFrame(raw: seq<real>): (pcm: Frame)
    ensures |pcm| == |raw|
    ensures forall i :: 0 <= i < |pcm| ==> InPcmRange(pcm[i])
  {
    seq(|raw|, i requires 0 <= i < |raw| => ToPcm16(raw[i]))
  }

  /** Quantization is sample-wise, so it distributes over concatenation. */
  lemma QuantizeFrameAppend(a: seq<real>, b: seq<real>)
    ensures QuantizeFrame(a + b) == QuantizeFrame(a) + QuantizeFrame(b)
  {
    var l, r := QuantizeFrame(a + b), QuantizeFrame(a) + QuantizeFrame(b);
    assert |l| == |r|;
    forall i | 0 <= i < |l|
      ensures l[i] == r[i]
    {
      if i < |a| {
        assert (a + b)[i] == a[i];
      } else {
        assert (a + b)[i] == b[i - |a|];
      }
    }
  }

  /** The inner loop of `process` that fills the Int16Array. */
  method QuantizeBuffer(buffer: seq<real>) returns (pcm: Frame)
    ensures pcm == QuantizeFrame(buffer)
    ensures |pcm| == |buffer|
    ensures forall j :: 0 <= j < |pcm| ==> InPcmRange(pcm[j])
  {
    pcm := [];
    var j := 0;
    while j < |buffer|
      invariant 0 <= j <= |buffer|
      invariant pcm == QuantizeFrame(buffer[..j])
    {
      var s := Clamp(buffer[j]);
      var scaled := if s < 0.0 then s * 32768.0 else s * 32767.0;
      pcm := pcm + [WrapInt16(Truncate(scaled))];
      j := j + 1;
    }
    assert buffer[..j] == buffer;
  }

  // ---------------------------------------------------------------------------
  // The accumulator
  // ---------------------------------------------------------------------------

  /** The processor's fields: `buffer` (a Float32Array of BufferSize slots) and `bufferIndex`. */
  datatype Framer = Framer(buffer: seq<real>, cursor: nat)
  {
    /** Between two calls of `process` the buffer has BufferSize slots and the cursor lies inside it. */
    predicate Valid() {
      |buffer| == BufferSize && cursor < BufferSize
    }

    /** The samples accepted since the last emitted frame, oldest first. */
    function Pending(): (p: seq<real>)
      requires Valid()
      ensures |p| == cursor
    {
      buffer[..cursor]
    }
  }

  /** The constructor: a zero-filled buffer and cursor 0. */
  function Init(): (f: Framer)
    ensures f.Valid()
    ensures f.Pending() == []
  {
    Framer(seq(BufferSize, _ => 0.0), 0)
  }

  /** One iteration of the fill loop: store the sample, advance the cursor and,
      when the buffer is full, emit its quantization and reset the cursor. */
  function Push(f: Framer, x: real): (r: (Framer, seq<Frame>))
    requires f.Valid()
    ensures r.0.Valid()
    ensures f.cursor + 1 < BufferSize ==> r.1 == [] && r.0.Pending() == f.Pending() + [x]
    ensures f.cursor + 1 == BufferSize ==> r.1 == [QuantizeFrame(f.Pending() + [x])] && r.0.Pending() == []
  {
    var buffer := f.buffer[f.cursor := x];
    assert buffer[..f.cursor + 1] == f.Pending() + [x];
    if f.cursor + 1 >= BufferSize then
      assert buffer == buffer[..f.cursor + 1];
      (Framer(buffer, 0), [QuantizeFrame(buffer)])
    else
      (Framer(buffer, f.cursor + 1), [])
  }

  /** The fill loop over a whole block of samples, in order; returns the new
      state and the frames posted, oldest first. */
  function Feed(f: Framer, samples: seq<real>): (r: (Framer, seq<Frame>))
    requires f.Valid()
    ensures r.0.Valid()
    decreases |samples|
  {
    if samples == [] then (f, [])
    else
      var (g, frames) := Feed(f, samples[..|samples| - 1]);
      var (h, more) := Push(g, samples[|samples| - 1]);
      (h, frames + more)
  }

  /** The first channel of the first input, or no samples when that input has no channel. */
  function FirstChannel(inputs: seq<seq<seq<real>>>): (channel: seq<real>)
    requires |inputs| > 0
    ensures channel == [] <==> |inputs[0]| == 0 || inputs[0][0] == []
    ensures channel != [] ==> channel == inputs[0][0]
  {
    if |inputs[0]| > 0 then inputs[0][0] else []
  }

  /** `process(inputs, outputs, parameters)`: accumulate the first channel of the
      first input, emitting a frame each time the buffer fills; always keeps the
      processor alive. The source reads `inputs[0]` unguarded, so an empty
      `inputs` is outside its contract. */
  method Process(f: Framer, inputs: seq<seq<seq<real>>>) returns (g: Framer, frames: seq<Frame>, keepAlive: bool)
    requires f.Valid()
    requires |inputs| > 0
    ensures g.Valid()
    ensures (g, frames) == Feed(f, FirstChannel(inputs))
    ensures FirstChannel(inputs) == [] ==> g == f && frames == []
    ensures forall k :: 0 <= k < |frames| ==> |frames[k]| == BufferSize
    ensures keepAlive
  {
    var channel := FirstChannel(inputs);
    g, frames := f, [];
    if |channel| > 0 {
      var buffer: seq<real>, index: nat := f.buffer, f.cursor;
      var i := 0;
      while i < |channel|
        invariant 0 <= i <= |channel|
        invariant |buffer| == BufferSize && index < BufferSize
        invariant (Framer(buffer, index), frames) == Feed(f, channel[..i])
      {
        assert channel[..i + 1][..i] == channel[..i];
        ghost var pushed := Push(Framer(buffer, index), channel[i]);
        assert Feed(f, channel[..i + 1]) == (pushed.0, frames + pushed.1);
        buffer := buffer[index := channel[i]];
        index := index + 1;
        if index >= BufferSize {
          var pcm := QuantizeBuffer(buffer);
          assert pushed == (Framer(buffer, 0), [pcm]);
          frames := frames + [pcm];
          index := 0;
        } else {
          assert pushed == (Framer(buffer, index), []);
          assert frames + [] == frames;
        }
        i := i + 1;
      }
      assert channel[..i] == channel;
      g := Framer(buffer, index);
    }
    FeedFrameLength(f, channel);
    keepAlive := true;
  }

  // ---------------------------------------------------------------------------
  // Reference: chunking a sample stream into frames
  // ---------------------------------------------------------------------------

  /** The quantized frames of the whole BufferSize-sample chunks of s, in order. */
  function Frames(s: seq<real>): (frames: seq<Frame>)
    ensures |frames| == |s| / BufferSize
    ensures forall k :: 0 <= k < |frames| ==> |frames[k]| == BufferSize
    decreases |s|
  {
    if |s| < BufferSize then []
    else [QuantizeFrame(s[..BufferSize])] + Frames(s[BufferSize..])
  }

  /** Adding one sample to a stream adds a frame exactly when it completes a chunk. */
  lemma {:induction false} FramesSnoc(s: seq<real>, x: real)
    ensures (|s| + 1) % BufferSize != 0 ==> Frames(s + [x]) == Frames(s)
    ensures (|s| + 1) % BufferSize == 0 ==>
      Frames(s + [x]) == Frames(s) + [QuantizeFrame((s + [x])[|s| + 1 - BufferSize..])]
    decreases |s|
  {
    var t := s + [x];
    if |t| < BufferSize {
    } else if |t| == BufferSize {
      assert t[..BufferSize] == t;
      assert t[BufferSize..] == [];
      assert t[|s| + 1 - BufferSize..] == t;
    } else {
      assert t[..BufferSize] == s[..BufferSize];
      assert t[BufferSize..] == s[BufferSize..] + [x];
      FramesSnoc(s[BufferSize..], x);
      var u := s[BufferSize..] + [x];
      assert (|s[BufferSize..]| + 1) % BufferSize == (|s| + 1) % BufferSize;
      if (|s| + 1) % BufferSize == 0 {
        assert |u| >= BufferSize;
        assert u[|u| - BufferSize..] == t[|t| - BufferSize..];
      }
    }
  }

  /** One push extends the stream view of the framer: if its cursor and
      pending samples describe the stream `prev`, then after pushing x they
      describe `prev + [x]`, and the frames it emits are the ones that
      `prev + [x]` has beyond `prev`. */
  lemma PushSpec(g: Framer, prev: seq<real>, x: real)
    requires g.Valid()
    requires g.cursor == |prev| % BufferSize
    requires g.Pending() == prev[|prev| - g.cursor..]
    ensures var all := prev + [x];
      && Frames(all) == Frames(prev) + Push(g, x).1
      && Push(g, x).0.cursor == |all| % BufferSize
      && Push(g, x).0.Pending() == all[|all| - Push(g, x).0.cursor..]
  {
    var all := prev + [x];
    FramesSnoc(prev, x);
    if g.cursor + 1 < BufferSize {
      assert (|prev| + 1) % BufferSize == g.cursor + 1;
      assert all[|all| - (g.cursor + 1)..] == prev[|prev| - g.cursor..] + [x];
    } else {
      assert (|prev| + 1) % BufferSize == 0;
      assert g.Pending() + [x] == all[|all| - BufferSize..];
      assert all[|all| - 0..] == [];
    }
  }

  /** The central property of the framer: after feeding samples, the frames
      posted are exactly the quantized chunks of (pending samples ++ samples),
      the cursor is that stream's length modulo BufferSize, and the new pending
      samples are its unfinished tail. Nothing is lost, duplicated or reordered. */
  lemma {:induction false} FeedSpec(f: Framer, samples: seq<real>)
    requires f.Valid()
    ensures var all := f.Pending() + samples;
      && Feed(f, samples).1 == Frames(all)
      && Feed(f, samples).0.cursor == |all| % BufferSize
      && Feed(f, samples).0.Pending() == all[|all| - Feed(f, samples).0.cursor..]
    decreases |samples|
  {
    var all := f.Pending() + samples;
    if samples == [] {
      assert all == f.Pending();
      assert all[|all| - f.cursor..] == all;
    } else {
      var front, x := samples[..|samples| - 1], samples[|samples| - 1];
      FeedSpec(f, front);
      var prev := f.Pending() + front;
      assert all == prev + [x];
      var (g, frames) := Feed(f, front);
      PushSpec(g, prev, x);
    }
  }

  /** Every frame the framer posts has exactly BufferSize samples. */
  lemma FeedFrameLength(f: Framer, samples: seq<real>)
    requires f.Valid()
    ensures forall k :: 0 <= k < |Feed(f, samples).1| ==> |Feed(f, samples).1[k]| == BufferSize
  {
    FeedSpec(f, samples);
  }

  /** Feeding two blocks one after the other is feeding their concatenation:
      block boundaries do not matter. */
  lemma {:induction false} FeedAppend(f: Framer, a: seq<real>, b: seq<real>)
    requires f.Valid()
    ensures var (g, fa) := Feed(f, a);
      var (h, fb) := Feed(g, b);
      Feed(f, a + b) == (h, fa + fb)
    decreases |b|
  {
    if b == [] {
      assert a + b == a;
      var (g, fa) := Feed(f, a);
      assert Feed(g, b) == (g, []);
      assert fa + [] == fa;
    } else {
      var front, x := b[..|b| - 1], b[|b| - 1];
      assert (a + b)[..|a + b| - 1] == a + front;
      assert (a + b)[|a + b| - 1] == x;
      FeedAppend(f, a, front);
      var (g, fa) := Feed(f, a);
      var (k, ff) := Feed(g, front);
      var (h, more) := Push(k, x);
      assert fa + ff + more == fa + (ff + more);
    }
  }

  /** Concatenation of a sequence of blocks, in arrival order. */
  function Concat<T>(blocks: seq<seq<T>>): (s: seq<T>)
    decreases |blocks|
  {
    if blocks == [] then [] else Concat(blocks[..|blocks| - 1]) + blocks[|blocks| - 1]
  }

  /** Successive calls of `process`, one block per call. */
  function FeedBlocks(f: Framer, blocks: seq<seq<real>>): (r: (Framer, seq<Frame>))
    requires f.Valid()
    ensures r.0.Valid()
    decreases |blocks|
  {
    if blocks == [] then (f, [])
    else
      var (g, frames) := FeedBlocks(f, blocks[..|blocks| - 1]);
      var (h, more) := Feed(g, blocks[|blocks| - 1]);
      (h, frames + more)
  }

  /** However the samples are split into blocks, the framer ends where feeding
      them as a single block ends. */
  lemma {:induction false} FeedBlocksIsFeed(f: Framer, blocks: seq<seq<real>>)
    requires f.Valid()
    ensures FeedBlocks(f, blocks) == Feed(f, Concat(blocks))
    decreases |blocks|
  {
    if blocks != [] {
      FeedBlocksIsFeed(f, blocks[..|blocks| - 1]);
      FeedAppend(f, Concat(blocks[..|blocks| - 1]), blocks[|blocks| - 1]);
    }
  }

  /** Concatenation of frames, in order. */
  function Flatten(frames: seq<Frame>): seq<int>
    decreases |frames|
  {
    if frames == [] then [] else frames[0] + Flatten(frames[1..])
  }

  /** The posted frames, laid end to end, are the quantization of the first
      BufferSize * k samples of the stream, where k is the number of frames. */
  lemma {:induction false} FlattenFrames(s: seq<real>)
    ensures Flatten(Frames(s)) == QuantizeFrame(s[..|Frames(s)| * BufferSize])
    decreases |s|
  {
    if |s| < BufferSize {
      assert s[..0] == [];
    } else {
      var rest := s[BufferSize..];
      FlattenFrames(rest);
      var k := |Frames(rest)|;
      assert Frames(s)[1..] == Frames(rest);
      assert s[..BufferSize] + rest[..k * BufferSize] == s[..(k + 1) * BufferSize];
      QuantizeFrameAppend(s[..BufferSize], rest[..k * BufferSize]);
    }
  }

  /** Starting from a freshly constructed processor, blocks totalling n samples,
      however they are split, post exactly n / BufferSize frames of BufferSize
      samples each, leave the cursor at n % BufferSize, and the frames laid end
      to end are the quantized first BufferSize * (n / BufferSize) samples in
      arrival order. */
  lemma FramerFromStart(blocks: seq<seq<real>>)
    ensures var (g, frames) := FeedBlocks(Init(), blocks);
      var samples := Concat(blocks);
      && |frames| == |samples| / BufferSize
      && g.cursor == |samples| % BufferSize
      && (forall k :: 0 <= k < |frames| ==> |frames[k]| == BufferSize)
      && Flatten(frames) == QuantizeFrame(samples[..|frames| * BufferSize])
  {
    var samples := Concat(blocks);
    FeedBlocksIsFeed(Init(), blocks);
    FeedSpec(Init(), samples);
    assert Init().Pending() + samples == samples;
    FlattenFrames(samples);
  }
}
