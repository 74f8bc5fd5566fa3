/**
 The sample transport between an endpoint's ring in the shared section and the
 per-channel buffers of the audio host: SarClient::demux and SarClient::mux.

 Memory is modelled byte by byte. The ring starts at byte `base` and holds `frames`
 frames of `channels` samples of `sample` bytes each, wrapping at its end.
 */
module Ring {
  import opened Arith
  import opened Types

  /** Where the sample of channel c lies in a frame. */
  function Offset(sample: nat, c: nat): nat {
    sample * c
  }

  /** Where byte b of sample k lies in a host buffer. */
  function SampleAt(sample: nat, k: nat, b: nat): nat {
    k * sample + b
  }

  /** A byte of a sample lies inside its frame. */
  lemma SampleFits(c: nat, channels: nat, sample: nat, b: nat)
    requires c < channels && b < sample
    ensures c * sample == Offset(sample, c) && c * sample + b < sample * channels
  {
    MulMono(c + 1, channels, sample);
  }

  datatype Geometry = Geometry(base: nat, frames: nat, channels: nat, sample: nat) {
    ghost predicate Ok() {
      frames > 0 && channels > 0 && sample > 0
    }

    ghost predicate Fits(mem: seq<Byte>) {
      Ok() && base + Size() <= |mem|
    }

    function Stride(): (s: nat)
      ensures channels > 0 && sample > 0 ==> s > 0
    {
      sample * channels
    }

    function Size(): nat {
      frames * Stride()
    }

    /** The ring frame k frames after `start`. */
    function FrameAt(start: nat, k: nat): nat
      requires frames > 0
    {
      (start + k) % frames
    }

    /** Byte address of ring frame `q`. */
    function FrameAddr(q: nat): nat {
      base + q * Stride()
    }

    /** Byte address of channel `c` in ring frame `q`. */
    function Addr(q: nat, c: nat): nat {
      FrameAddr(q) + ChannelOffset(c)
    }

    function ChannelOffset(c: nat): nat {
      Offset(sample, c)
    }

    /** Which byte of which sample of which frame the byte at address `a` is. */
    function FrameOf(a: nat): nat
      requires Stride() > 0 && a >= base
    {
      (a - base) / Stride()
    }

    function ChannelOf(a: nat): nat
      requires Stride() > 0 && sample > 0 && a >= base
    {
      (a - base) % Stride() / sample
    }

    function ByteOf(a: nat): (b: nat)
      requires Stride() > 0 && sample > 0 && a >= base
      ensures b < sample
    {
      (a - base) % Stride() % sample
    }

    lemma AddrInRing(q: nat, c: nat)
      requires Ok() && q < frames && c < channels
      ensures base <= Addr(q, c) && Addr(q, c) + sample <= base + Size()
    {
      MulMono(q + 1, frames, Stride());
      MulMono(c + 1, channels, sample);
      assert (q + 1) * Stride() == q * Stride() + Stride();
    }

    /** An address inside the ring belongs to exactly one byte of one sample. */
    lemma Decode(q: nat, c: nat, b: nat)
      requires Ok() && q < frames && c < channels && b < sample
      ensures var a := Addr(q, c) + b;
              base <= a < base + Size() && FrameOf(a) == q && ChannelOf(a) == c && ByteOf(a) == b
    {
      AddrInRing(q, c);
      SampleFits(c, channels, sample, b);
      DivModUnique(q, c * sample + b, Stride());
      DivModUnique(c, b, sample);
    }

    lemma Encode(a: nat)
      requires Ok() && base <= a < base + Size()
      ensures FrameOf(a) < frames && ChannelOf(a) < channels && a == Addr(FrameOf(a), ChannelOf(a)) + ByteOf(a)
    {
      var r := a - base;
      DivModIdentity(r, Stride());
      DivModIdentity(r % Stride(), sample);
      if r / Stride() >= frames {
        MulMono(frames, r / Stride(), Stride());
      }
      if r % Stride() / sample >= channels {
        MulMono(channels, r % Stride() / sample, sample);
      }
    }
  }

  // ---------------------------------------------------------------------------------
  // Reference definition: what one period of `n` frames starting at ring frame `start`
  // means, without any first or second run.
  // ---------------------------------------------------------------------------------

  /** De-interleaving: sample k of channel c is channel c of ring frame (start + k) mod frames. */
  ghost function ChannelOut(mem: seq<Byte>, g: Geometry, start: nat, n: nat, c: nat): (out: seq<Byte>)
    requires g.Fits(mem) && c < g.channels
    ensures |out| == n * g.sample
  {
    seq(n * g.sample, m requires 0 <= m < n * g.sample =>
      g.AddrInRing((start + m / g.sample) % g.frames, c);
      mem[g.Addr((start + m / g.sample) % g.frames, c) + m % g.sample])
  }

  /** Byte m of one sequence is byte a of another. */
  ghost predicate Same(target: seq<Byte>, m: nat, mem: seq<Byte>, a: nat) {
    m < |target| && a < |mem| && target[m] == mem[a]
  }

  lemma ChannelOutAt(mem: seq<Byte>, g: Geometry, start: nat, n: nat, c: nat, k: nat, b: nat)
    requires g.Fits(mem) && c < g.channels && k < n && b < g.sample
    ensures Same(ChannelOut(mem, g, start, n, c), SampleAt(g.sample, k, b), mem, g.Addr(g.FrameAt(start, k), c) + b)
  {
    SampleByteInRange(k, b, n, g.sample);
    DivModUnique(k, b, g.sample);
    g.AddrInRing(g.FrameAt(start, k), c);
  }

  /** The whole result of a playback period: missing channels are silent, null targets stay null. */
  ghost function PlaybackOut(mem: seq<Byte>, g: Geometry, start: nat, n: nat, targets: seq<Option<seq<Byte>>>)
    : (out: seq<Option<seq<Byte>>>)
    requires g.Fits(mem)
    ensures |out| == |targets|
  {
    seq(|targets|, c requires 0 <= c < |targets| =>
      if targets[c].None? then None
      else if c < g.channels then Some(ChannelOut(mem, g, start, n, c))
      else Some(Silence(n * g.sample)))
  }

  function Silence(len: nat): seq<Byte> {
    seq(len, _ => 0)
  }

  ghost predicate PeriodBuffers(targets: seq<Option<seq<Byte>>>, len: nat) {
    forall c :: 0 <= c < |targets| && targets[c].Some? ==> |targets[c].value| == len
  }

  /** The byte a recording period leaves at address `a`. */
  ghost function RecordedByte(mem: seq<Byte>, g: Geometry, start: nat, n: nat, targets: seq<Option<seq<Byte>>>,
                              a: nat): Byte
    requires g.Fits(mem) && start < g.frames && n <= g.frames && a < |mem|
    requires PeriodBuffers(targets, n * g.sample)
  {
    if g.base <= a < g.base + g.Size() then
      var k, c, b := FrameAge(g, start, g.FrameOf(a)), g.ChannelOf(a), g.ByteOf(a);
      if k < n && c < |targets| && targets[c].Some? then
        SampleByteInRange(k, b, n, g.sample);
        targets[c].value[SampleAt(g.sample, k, b)]
      else mem[a]
    else mem[a]
  }

  /** How many frames after `start` the ring frame `q` is reached. */
  function FrameAge(g: Geometry, start: nat, q: nat): nat
    requires g.frames > 0 && start < g.frames
  {
    (q + g.frames - start) % g.frames
  }

  /** The whole shared section after a recording period. */
  ghost function RecordedMemory(mem: seq<Byte>, g: Geometry, start: nat, n: nat,
                                targets: seq<Option<seq<Byte>>>): (out: seq<Byte>)
    requires g.Fits(mem) && start < g.frames && n <= g.frames
    requires PeriodBuffers(targets, n * g.sample)
    ensures |out| == |mem|
  {
    seq(|mem|, a requires 0 <= a < |mem| => RecordedByte(mem, g, start, n, targets, a))
  }

  lemma SampleByteInRange(k: nat, b: nat, n: nat, sample: nat)
    requires k < n && b < sample
    ensures SampleAt(sample, k, b) < n * sample
  {
    MulMono(k + 1, n, sample);
  }

  lemma FrameAgeInverse(g: Geometry, start: nat, q: nat, k: nat)
    requires g.Ok() && start < g.frames && q < g.frames && k < g.frames
    ensures FrameAge(g, start, q) == k <==> q == g.FrameAt(start, k)
  {
    if start + k < g.frames {
      DivModUnique(0, start + k, g.frames);
    } else {
      DivModUnique(1, start + k - g.frames, g.frames);
    }
    if q >= start {
      DivModUnique(1, q - start, g.frames);
    } else {
      DivModUnique(0, q + g.frames - start, g.frames);
    }
  }

  /** A recorded sample reads back from the frame it was meant for. */
  lemma RecordedSample(mem: seq<Byte>, g: Geometry, start: nat, n: nat, targets: seq<Option<seq<Byte>>>, c: nat,
                       k: nat, b: nat)
    requires g.Fits(mem) && start < g.frames && n <= g.frames && PeriodBuffers(targets, n * g.sample)
    requires c < g.channels && k < n && b < g.sample
    ensures var a := g.Addr(g.FrameAt(start, k), c) + b;
            a < |mem| && SampleAt(g.sample, k, b) < n * g.sample &&
            RecordedByte(mem, g, start, n, targets, a) ==
            if c < |targets| && targets[c].Some? then targets[c].value[SampleAt(g.sample, k, b)] else mem[a]
  {
    var q := g.FrameAt(start, k);
    g.Decode(q, c, b);
    FrameAgeInverse(g, start, q, k);
    SampleByteInRange(k, b, n, g.sample);
  }

  // ---------------------------------------------------------------------------------
  // Round trips
  // ---------------------------------------------------------------------------------

  /** Interleaving a period and de-interleaving it from the same place returns every buffer
      that the ring has a channel for. */
  lemma RecordThenPlay(mem: seq<Byte>, g: Geometry, start: nat, n: nat, targets: seq<Option<seq<Byte>>>, c: nat)
    requires g.Fits(mem) && start < g.frames && n <= g.frames && PeriodBuffers(targets, n * g.sample)
    requires c < g.channels && c < |targets| && targets[c].Some?
    ensures ChannelOut(RecordedMemory(mem, g, start, n, targets), g, start, n, c) == targets[c].value
  {
    var out := ChannelOut(RecordedMemory(mem, g, start, n, targets), g, start, n, c);
    forall m | 0 <= m < n * g.sample
      ensures out[m] == targets[c].value[m]
    {
      var k, b := m / g.sample, m % g.sample;
      DivModIdentity(m, g.sample);
      if k >= n { MulMono(n, k, g.sample); }
      RecordedSample(mem, g, start, n, targets, c, k, b);
      ChannelOutAt(RecordedMemory(mem, g, start, n, targets), g, start, n, c, k, b);
    }
  }

  /** De-interleaving a period and interleaving the result again leaves the section as it was. */
  lemma PlayThenRecord(mem: seq<Byte>, g: Geometry, start: nat, n: nat, targets: seq<Option<seq<Byte>>>)
    requires g.Fits(mem) && start < g.frames && n <= g.frames
    ensures PeriodBuffers(PlaybackOut(mem, g, start, n, targets), n * g.sample)
    ensures RecordedMemory(mem, g, start, n, PlaybackOut(mem, g, start, n, targets)) == mem
  {
    forall a | 0 <= a < |mem|
      ensures RecordedByte(mem, g, start, n, PlaybackOut(mem, g, start, n, targets), a) == mem[a]
    {
      PlayThenRecordByte(mem, g, start, n, targets, a);
    }
  }

  lemma PlayThenRecordByte(mem: seq<Byte>, g: Geometry, start: nat, n: nat, targets: seq<Option<seq<Byte>>>, a: nat)
    requires g.Fits(mem) && start < g.frames && n <= g.frames && a < |mem|
    ensures RecordedByte(mem, g, start, n, PlaybackOut(mem, g, start, n, targets), a) == mem[a]
  {
    if g.base <= a < g.base + g.Size() && FrameAge(g, start, g.FrameOf(a)) < n {
      var k, c, b := Coordinates(g, start, a);
      PlayThenRecordSample(mem, g, start, n, targets, c, k, b);
    }
  }

  /** Every byte of the ring is one byte of one channel, some number of frames after `start`. */
  lemma Coordinates(g: Geometry, start: nat, a: nat) returns (k: nat, c: nat, b: nat)
    requires g.Ok() && start < g.frames && g.base <= a < g.base + g.Size()
    ensures k == FrameAge(g, start, g.FrameOf(a)) < g.frames && c < g.channels && b < g.sample
    ensures a == g.Addr(g.FrameAt(start, k), c) + b
  {
    g.Encode(a);
    k, c, b := FrameAge(g, start, g.FrameOf(a)), g.ChannelOf(a), g.ByteOf(a);
    FrameAgeInverse(g, start, g.FrameOf(a), k);
  }

  lemma PlayThenRecordSample(mem: seq<Byte>, g: Geometry, start: nat, n: nat, targets: seq<Option<seq<Byte>>>, c: nat,
                             k: nat, b: nat)
    requires g.Fits(mem) && start < g.frames && n <= g.frames && c < g.channels && k < n && b < g.sample
    ensures var a := g.Addr(g.FrameAt(start, k), c) + b;
            a < |mem| && RecordedByte(mem, g, start, n, PlaybackOut(mem, g, start, n, targets), a) == mem[a]
  {
    RecordedSample(mem, g, start, n, PlaybackOut(mem, g, start, n, targets), c, k, b);
    ChannelOutAt(mem, g, start, n, c, k, b);
  }

  // ---------------------------------------------------------------------------------
  // The loops of sarclient.cpp
  // ---------------------------------------------------------------------------------

  /** Where the k-th frame of a period lies when the period is split into a first run of `f` frames
      and a second run. */
  function RunAddr(first: nat, second: nat, f: nat, stride: nat, k: nat): nat {
    if k < f then first + k * stride else second + (k - f) * stride
  }

  /** Two runs of whole frames, in memory, not overlapping, together one period of `n` frames. */
  ghost predicate Runs(len: nat, first: nat, f: nat, second: nat, s: nat, n: nat, stride: nat) {
    && stride > 0
    && f + s == n
    && first + f * stride <= len
    && second + s * stride <= len
    && (second + s * stride <= first || first + f * stride <= second)
  }

  lemma RunAddrInside(len: nat, first: nat, f: nat, second: nat, s: nat, n: nat, stride: nat, k: nat)
    requires Runs(len, first, f, second, s, n, stride) && k < n
    ensures RunAddr(first, second, f, stride, k) + stride <= len
    ensures k < f ==> first <= RunAddr(first, second, f, stride, k)
    ensures k < f ==> RunAddr(first, second, f, stride, k) + stride <= first + f * stride
    ensures k >= f ==> second <= RunAddr(first, second, f, stride, k)
    ensures k >= f ==> RunAddr(first, second, f, stride, k) + stride <= second + s * stride
  {
    if k < f {
      MulMono(k + 1, f, stride);
    } else {
      MulMono(k - f + 1, s, stride);
    }
  }

  lemma RunAddrStep(first: nat, second: nat, f: nat, stride: nat, j: nat, k: nat)
    requires j < k && (j < f <==> k < f)
    ensures RunAddr(first, second, f, stride, j) + stride <= RunAddr(first, second, f, stride, k)
  {
    var d := if j < f then 0 else f;
    MulMono(j - d + 1, k - d, stride);
    assert (j - d + 1) * stride == (j - d) * stride + stride;
  }

  /** Different frames of a period never share a byte. */
  lemma RunAddrApart(len: nat, first: nat, f: nat, second: nat, s: nat, n: nat, stride: nat, j: nat, k: nat)
    requires Runs(len, first, f, second, s, n, stride) && j < n && k < n && j != k
    ensures RunAddr(first, second, f, stride, j) + stride <= RunAddr(first, second, f, stride, k)
         || RunAddr(first, second, f, stride, k) + stride <= RunAddr(first, second, f, stride, j)
  {
    if (j < f) == (k < f) {
      RunAddrStep(first, second, f, stride, if j < k then j else k, if j < k then k else j);
    } else {
      RunAddrInside(len, first, f, second, s, n, stride, j);
      RunAddrInside(len, first, f, second, s, n, stride, k);
    }
  }

  /** How much of a period of n frames the copy loop moves. It takes the whole frames that fit the first run, and goes
      on with the second run only if there were some and nothing was left over: a first run that is empty or does not
      end with a frame ends the copy. */
  ghost predicate Cut(firstSize: nat, secondSize: nat, stride: nat, n: nat, f: nat, s: nat) {
    && stride > 0 && firstSize + secondSize == n * stride
    && f * stride <= firstSize < f * stride + stride
    && if f > 0 && firstSize == f * stride then f + s == n && secondSize == s * stride else s == 0
  }

  lemma CutInside(firstSize: nat, secondSize: nat, stride: nat, n: nat, f: nat, s: nat)
    requires Cut(firstSize, secondSize, stride, n, f, s)
    ensures f + s <= n
  {
    if f > n { MulMono(n + 1, f, stride); }
  }

  /** The loop's cursor: where `buf` points and how much of the current run remains before sample k. */
  ghost predicate Cursor(first: nat, f: nat, second: nat, s: nat, rest: nat, stride: nat, off: nat,
                         k: nat, buf: nat, remaining: nat) {
    && k <= f + s
    && (k < f ==> buf == first + k * stride + off && remaining == (f - k) * stride + rest)
    && (f <= k < f + s ==> buf == second + (k - f) * stride + off && remaining == (f + s - k) * stride)
    && (k == f + s && (rest > 0 || f == 0) ==> remaining == rest)
  }

  lemma CursorStep(first: nat, f: nat, second: nat, s: nat, rest: nat, stride: nat, off: nat,
                   k: nat, buf: nat, remaining: nat)
    requires rest < stride && (rest > 0 || f == 0 ==> s == 0) && k < f + s
    requires Cursor(first, f, second, s, rest, stride, off, k, buf, remaining)
    ensures remaining >= stride && buf == RunAddr(first, second, f, stride, k) + off
    ensures if remaining == stride then Cursor(first, f, second, s, rest, stride, off, k + 1, second + off, s * stride)
            else Cursor(first, f, second, s, rest, stride, off, k + 1, buf + stride, remaining - stride)
  {
    var left := if k < f then f - k else f + s - k;
    MulMono(1, left, stride);
    if left > 1 { MulMono(2, left, stride); }
    assert (left - 1) * stride == left * stride - stride;
    if k >= f {
      assert (k + 1 - f) * stride == (k - f) * stride + stride;
    } else {
      assert (k + 1) * stride == k * stride + stride;
    }
  }

  /** The sample index and the byte index of the copy loop agree. */
  lemma SampleIndex(k: nat, n: nat, sample: nat)
    requires sample > 0 && k <= n
    ensures k * sample < n * sample <==> k < n
    ensures k < n ==> (k + 1) * sample == k * sample + sample <= n * sample
  {
    MulMono(k, n, sample);
    if k < n { MulMono(k + 1, n, sample); }
  }

  /** memcpy of one sample. */
  method CopySample(dst: array<Byte>, d: nat, src: array<Byte>, o: nat, len: nat)
    requires dst != src && d + len <= dst.Length && o + len <= src.Length
    modifies dst
    ensures dst[..] == old(dst[..d]) + src[o..o + len] + old(dst[d + len..])
  {
    for b := 0 to len
      invariant forall x :: 0 <= x < dst.Length ==> dst[x] == if d <= x < d + b then src[o + x - d] else old(dst[x])
    {
      dst[d + b] := src[o + b];
    }
  }

  /** memset(p, 0, len) over a whole buffer. */
  method Zero(a: array<Byte>)
    modifies a
    ensures a[..] == Silence(a.Length)
  {
    for b := 0 to a.Length
      invariant forall x :: 0 <= x < b ==> a[x] == 0
    {
      a[b] := 0;
    }
  }

  /** Byte b of sample k of a host buffer equals its place in the runs; `off` is the channel's place in a frame. */
  ghost predicate SampleCopied(mem: seq<Byte>, target: seq<Byte>, first: nat, second: nat, f: nat, stride: nat,
                               sample: nat, off: nat, k: nat, b: nat) {
    Same(target, SampleAt(sample, k, b), mem, RunAddr(first, second, f, stride, k) + off + b)
  }

  /** Byte `a` belongs to the channel at `off` in one of the first n frames of the runs. */
  ghost predicate Touched(first: nat, second: nat, f: nat, stride: nat, sample: nat, off: nat, n: nat, a: nat) {
    exists k :: 0 <= k < n &&
      RunAddr(first, second, f, stride, k) + off <= a < RunAddr(first, second, f, stride, k) + off + sample
  }

  ghost predicate AllCopied(mem: seq<Byte>, target: seq<Byte>, first: nat, second: nat, f: nat, stride: nat,
                            sample: nat, off: nat, n: nat) {
    forall k, b :: 0 <= k < n && 0 <= b < sample ==>
      SampleCopied(mem, target, first, second, f, stride, sample, off, k, b)
  }

  /** From byte `from` on a buffer is as it was. */
  ghost predicate KeptFrom(was: seq<Byte>, now: seq<Byte>, from: nat) {
    |now| == |was| && forall m :: from <= m < |was| ==> now[m] == was[m]
  }

  /** One pass of the demux loop: sample k has been copied out. */
  lemma DemuxStep(mem: seq<Byte>, was: seq<Byte>, now: seq<Byte>, first: nat, second: nat, f: nat, stride: nat,
                  sample: nat, off: nat, k: nat)
    requires AllCopied(mem, was, first, second, f, stride, sample, off, k)
    requires k * sample + sample <= |was|
    requires var o := RunAddr(first, second, f, stride, k) + off;
             o + sample <= |mem| && now == was[..k * sample] + mem[o..o + sample] + was[k * sample + sample..]
    ensures AllCopied(mem, now, first, second, f, stride, sample, off, k + 1)
  {
    forall l, b | 0 <= l < k + 1 && 0 <= b < sample
      ensures SampleCopied(mem, now, first, second, f, stride, sample, off, l, b)
    {
      if l < k {
        assert SampleCopied(mem, was, first, second, f, stride, sample, off, l, b);
        SampleByteInRange(l, b, k, sample);
      }
    }
  }

  /** One pass of the mux loop: sample k has been copied in, and nothing else moved. */
  lemma MuxStep(was: seq<Byte>, now: seq<Byte>, target: seq<Byte>, first: nat, second: nat, f: nat, s: nat,
                stride: nat, sample: nat, off: nat, k: nat)
    requires Runs(|was|, first, f, second, s, f + s, stride) && k < f + s && off + sample <= stride
    requires AllCopied(was, target, first, second, f, stride, sample, off, k)
    requires k * sample + sample <= |target|
    requires var o := RunAddr(first, second, f, stride, k) + off;
             o + sample <= |was| && now == was[..o] + target[k * sample..k * sample + sample] + was[o + sample..]
    ensures AllCopied(now, target, first, second, f, stride, sample, off, k + 1)
    ensures |now| == |was|
    ensures forall a :: 0 <= a < |was| && !Touched(first, second, f, stride, sample, off, k + 1, a) ==> now[a] == was[a]
  {
    forall l, b | 0 <= l < k + 1 && 0 <= b < sample
      ensures SampleCopied(now, target, first, second, f, stride, sample, off, l, b)
    {
      if l < k {
        assert SampleCopied(was, target, first, second, f, stride, sample, off, l, b);
        RunAddrApart(|was|, first, f, second, s, f + s, stride, l, k);
      }
    }
  }

  /** The inner loop of demux: one channel of a period, from the two runs into a host buffer. */
  method DemuxChannel(mem: array<Byte>, first: nat, firstSize: nat, second: nat, secondSize: nat,
                      target: array<Byte>, off: nat, stride: nat, targetSize: nat, sample: nat,
                      ghost n: nat, ghost f: nat, ghost s: nat)
    requires Cut(firstSize, secondSize, stride, n, f, s) && targetSize == n * sample
    requires Runs(mem.Length, first, f, second, s, f + s, stride)
    requires sample > 0 && off + sample <= stride
    requires target != mem && target.Length == targetSize
    modifies target
    ensures AllCopied(mem[..], target[..], first, second, f, stride, sample, off, f + s)
    ensures KeptFrom(old(target[..]), target[..], (f + s) * sample)
  {
    var buf: nat, remaining: nat, j: nat := first + off, firstSize, 0;
    ghost var k: nat := 0;
    ghost var rest := firstSize - f * stride;
    CutInside(firstSize, secondSize, stride, n, f, s);
    while j < targetSize && remaining >= stride
      invariant k <= f + s && j == k * sample
      invariant Cursor(first, f, second, s, rest, stride, off, k, buf, remaining)
      invariant AllCopied(mem[..], target[..], first, second, f, stride, sample, off, k)
      invariant KeptFrom(old(target[..]), target[..], k * sample)
      decreases targetSize - j
    {
      SampleIndex(k, n, sample);
      CursorStep(first, f, second, s, rest, stride, off, k, buf, remaining);
      RunAddrInside(mem.Length, first, f, second, s, f + s, stride, k);
      ghost var was := target[..];
      CopySample(target, j, mem, buf, sample);
      DemuxStep(mem[..], was, target[..], first, second, f, stride, sample, off, k);
      buf, remaining, j := buf + stride, remaining - stride, j + sample;
      k := k + 1;
      if remaining == 0 {
        buf, remaining := second + off, secondSize;
      }
    }
    SampleIndex(k, n, sample);
    if k < f + s {
      CursorStep(first, f, second, s, rest, stride, off, k, buf, remaining);
    }
  }

  /** The inner loop of mux: one channel of a period, from a host buffer into the two runs. */
  method MuxChannel(mem: array<Byte>, first: nat, firstSize: nat, second: nat, secondSize: nat,
                    target: array<Byte>, off: nat, stride: nat, targetSize: nat, sample: nat,
                    ghost n: nat, ghost f: nat, ghost s: nat)
    requires Cut(firstSize, secondSize, stride, n, f, s) && targetSize == n * sample
    requires Runs(mem.Length, first, f, second, s, f + s, stride)
    requires sample > 0 && off + sample <= stride
    requires target != mem && target.Length == targetSize
    modifies mem
    ensures AllCopied(mem[..], target[..], first, second, f, stride, sample, off, f + s)
    ensures forall a :: 0 <= a < mem.Length && !Touched(first, second, f, stride, sample, off, f + s, a) ==>
            mem[a] == old(mem[a])
  {
    var buf: nat, remaining: nat, j: nat := first + off, firstSize, 0;
    ghost var k: nat := 0;
    ghost var rest := firstSize - f * stride;
    CutInside(firstSize, secondSize, stride, n, f, s);
    while j < targetSize && remaining >= stride
      invariant k <= f + s && j == k * sample
      invariant Cursor(first, f, second, s, rest, stride, off, k, buf, remaining)
      invariant AllCopied(mem[..], target[..], first, second, f, stride, sample, off, k)
      invariant forall a :: 0 <= a < mem.Length && !Touched(first, second, f, stride, sample, off, k, a) ==>
                mem[a] == old(mem[a])
      decreases targetSize - j
    {
      SampleIndex(k, n, sample);
      CursorStep(first, f, second, s, rest, stride, off, k, buf, remaining);
      RunAddrInside(mem.Length, first, f, second, s, f + s, stride, k);
      ghost var was := mem[..];
      CopySample(mem, buf, target, j, sample);
      MuxStep(was, mem[..], target[..], first, second, f, s, stride, sample, off, k);
      buf, remaining, j := buf + stride, remaining - stride, j + sample;
      k := k + 1;
      if remaining == 0 {
        buf, remaining := second + off, secondSize;
      }
    }
    SampleIndex(k, n, sample);
    if k < f + s {
      CursorStep(first, f, second, s, rest, stride, off, k, buf, remaining);
    }
  }

  ghost function NonNull(targets: seq<array?<Byte>>): set<object> {
    set t: array?<Byte> | t in targets && t != null :: t as object
  }

  /** The host buffers as values; a null buffer is a channel the host did not ask for. */
  ghost function Contents(targets: seq<array?<Byte>>): (out: seq<Option<seq<Byte>>>)
    reads NonNull(targets)
    ensures |out| == |targets|
  {
    seq(|targets|, c requires 0 <= c < |targets| reads NonNull(targets) =>
      assert targets[c] in targets;
      if targets[c] == null then None else Some(targets[c][..]))
  }

  /** Distinct buffers of one period each, none of them the shared section itself. */
  ghost predicate Separate(mem: array<Byte>, targets: seq<array?<Byte>>, len: nat) {
    && (forall c :: 0 <= c < |targets| && targets[c] != null ==> targets[c] != mem && targets[c].Length == len)
    && (forall c, d :: 0 <= c < d < |targets| && targets[c] != null ==> targets[c] != targets[d])
  }

  /** What demux leaves in buffer c, in terms of the two runs: the frames that were moved, and behind them what was in
      the buffer before; a channel that the ring does not have is silent. */
  ghost predicate PlayedFromRuns(mem: seq<Byte>, was: seq<Byte>, target: seq<Byte>, first: nat, second: nat, f: nat,
                                 s: nat, sample: nat, c: nat, channels: nat) {
    if c < channels then
      && AllCopied(mem, target, first, second, f, sample * channels, sample, Offset(sample, c), f + s)
      && KeptFrom(was, target, (f + s) * sample)
    else
      target == Silence(|was|)
  }

  /** What demux leaves in all buffers; a channel that the host did not ask for has none. */
  ghost predicate PlayedPeriod(mem: seq<Byte>, was: seq<Option<seq<Byte>>>, now: seq<Option<seq<Byte>>>,
                               first: nat, second: nat, f: nat, s: nat, sample: nat, channels: nat) {
    && |now| == |was|
    && forall c :: 0 <= c < |was| ==>
         && (now[c].None? <==> was[c].None?)
         && (was[c].Some? ==> PlayedFromRuns(mem, was[c].value, now[c].value, first, second, f, s, sample, c, channels))
  }

  /** Byte `a` belongs to none of the first i channels that have a buffer. */
  ghost predicate Spared(targets: seq<Option<seq<Byte>>>, i: nat, first: nat, second: nat, f: nat, stride: nat,
                         sample: nat, n: nat, a: nat) {
    forall c :: 0 <= c < i && c < |targets| && targets[c].Some? ==>
      !Touched(first, second, f, stride, sample, Offset(sample, c), n, a)
  }

  /** What mux leaves in memory: the buffers of the channels that exist, and nothing else moved. */
  ghost predicate RecordedPeriod(was: seq<Byte>, now: seq<Byte>, targets: seq<Option<seq<Byte>>>,
                                 first: nat, second: nat, f: nat, s: nat, sample: nat, i: nat, stride: nat) {
    && |now| == |was|
    && (forall c :: 0 <= c < i && c < |targets| && targets[c].Some? ==>
          AllCopied(now, targets[c].value, first, second, f, stride, sample, Offset(sample, c), f + s))
    && (forall a :: 0 <= a < |was| && Spared(targets, i, first, second, f, stride, sample, f + s, a) ==>
        now[a] == was[a])
  }

  lemma OffsetFits(i: nat, channels: nat, sample: nat)
    requires i < channels
    ensures Offset(sample, i) + sample <= sample * channels
  {
    MulMono(i + 1, channels, sample);
  }

  method Demux(mem: array<Byte>, first: nat, firstSize: nat, second: nat, secondSize: nat,
               targets: seq<array?<Byte>>, channels: nat, targetSize: nat, sample: nat,
               ghost n: nat, ghost f: nat, ghost s: nat)
    requires sample > 0 && targetSize == n * sample && Separate(mem, targets, targetSize)
    requires channels > 0 ==> Cut(firstSize, secondSize, sample * channels, n, f, s)
    requires channels > 0 ==> Runs(mem.Length, first, f, second, s, f + s, sample * channels)
    modifies NonNull(targets)
    ensures PlayedPeriod(mem[..], old(Contents(targets)), Contents(targets), first, second, f, s, sample, channels)
  {
    var stride := sample * channels;
    var sources := if channels > |targets| then |targets| else channels;
    var i := 0;
    while i < sources
      invariant 0 <= i <= sources
      invariant forall c :: 0 <= c < i && targets[c] != null ==>
                  PlayedFromRuns(mem[..], old(targets[c][..]), targets[c][..], first, second, f, s, sample, c, channels)
      invariant forall c :: i <= c < |targets| && targets[c] != null ==> targets[c][..] == old(targets[c][..])
    {
      if targets[i] != null {
        assert targets[i] in targets;
        OffsetFits(i, channels, sample);
        DemuxChannel(mem, first, firstSize, second, secondSize, targets[i], Offset(sample, i), stride, targetSize,
                     sample, n, f, s);
      }
      i := i + 1;
    }
    while i < |targets|
      invariant sources <= i <= |targets|
      invariant forall c :: 0 <= c < i && targets[c] != null ==>
                  PlayedFromRuns(mem[..], old(targets[c][..]), targets[c][..], first, second, f, s, sample, c, channels)
    {
      if targets[i] != null {
        assert targets[i] in targets;
        Zero(targets[i]);
      }
      i := i + 1;
    }
  }

  method Mux(mem: array<Byte>, first: nat, firstSize: nat, second: nat, secondSize: nat,
             targets: seq<array?<Byte>>, channels: nat, targetSize: nat, sample: nat,
             ghost n: nat, ghost f: nat, ghost s: nat)
    requires sample > 0 && targetSize == n * sample && Separate(mem, targets, targetSize)
    requires channels > 0 ==> Cut(firstSize, secondSize, sample * channels, n, f, s)
    requires channels > 0 ==> Runs(mem.Length, first, f, second, s, f + s, sample * channels)
    modifies mem
    ensures Contents(targets) == old(Contents(targets))
    ensures RecordedPeriod(old(mem[..]), mem[..], Contents(targets), first, second, f, s, sample, channels,
                           sample * channels)
  {
    var stride := sample * channels;
    var sources := if channels > |targets| then |targets| else channels;
    ghost var was, buffers := mem[..], Contents(targets);
    for i := 0 to sources
      invariant Contents(targets) == buffers
      invariant RecordedPeriod(was, mem[..], buffers, first, second, f, s, sample, i, stride)
    {
      if targets[i] != null {
        assert targets[i] in targets;
        OffsetFits(i, channels, sample);
        ghost var before := mem[..];
        MuxChannel(mem, first, firstSize, second, secondSize, targets[i], Offset(sample, i), stride, targetSize,
                   sample, n, f, s);
        OneMoreChannel(was, before, mem[..], buffers, first, f, second, s, stride, sample, i);
      } else {
        NoSuchBuffer(was, mem[..], buffers, first, f, second, s, stride, sample, i);
      }
    }
    AllChannels(was, mem[..], buffers, first, f, second, s, stride, sample, sources, channels);
  }

  lemma NoSuchBuffer(was: seq<Byte>, now: seq<Byte>, targets: seq<Option<seq<Byte>>>, first: nat, f: nat, second: nat,
                     s: nat, stride: nat, sample: nat, i: nat)
    requires RecordedPeriod(was, now, targets, first, second, f, s, sample, i, stride)
    requires i < |targets| && targets[i].None?
    ensures RecordedPeriod(was, now, targets, first, second, f, s, sample, i + 1, stride)
  {
    forall a | 0 <= a < |was| && Spared(targets, i + 1, first, second, f, stride, sample, f + s, a)
      ensures now[a] == was[a]
    {
      assert Spared(targets, i, first, second, f, stride, sample, f + s, a);
    }
  }

  lemma AllChannels(was: seq<Byte>, now: seq<Byte>, targets: seq<Option<seq<Byte>>>, first: nat, f: nat, second: nat,
                    s: nat, stride: nat, sample: nat, i: nat, channels: nat)
    requires RecordedPeriod(was, now, targets, first, second, f, s, sample, i, stride)
    requires i == if channels > |targets| then |targets| else channels
    ensures RecordedPeriod(was, now, targets, first, second, f, s, sample, channels, stride)
  {
    forall a | 0 <= a < |was| && Spared(targets, channels, first, second, f, stride, sample, f + s, a)
      ensures now[a] == was[a]
    {
      assert Spared(targets, i, first, second, f, stride, sample, f + s, a);
    }
  }

  /** Channel i joins the channels before it. */
  lemma OneMoreChannel(was: seq<Byte>, before: seq<Byte>, now: seq<Byte>, targets: seq<Option<seq<Byte>>>, first: nat,
                       f: nat, second: nat, s: nat, stride: nat, sample: nat, i: nat)
    requires Runs(|was|, first, f, second, s, f + s, stride) && |now| == |before| &&
             Offset(sample, i) + sample <= stride
    requires RecordedPeriod(was, before, targets, first, second, f, s, sample, i, stride)
    requires i < |targets| && targets[i].Some?
    requires AllCopied(now, targets[i].value, first, second, f, stride, sample, Offset(sample, i), f + s)
    requires forall a :: 0 <= a < |before| ==>
               Touched(first, second, f, stride, sample, Offset(sample, i), f + s, a) || now[a] == before[a]
    ensures RecordedPeriod(was, now, targets, first, second, f, s, sample, i + 1, stride)
  {
    forall c | 0 <= c < i && targets[c].Some?
      ensures AllCopied(now, targets[c].value, first, second, f, stride, sample, Offset(sample, c), f + s)
    {
      MulMono(c + 1, i, sample);
      OtherChannelKept(before, now, targets[c].value, first, f, second, s, stride, sample, Offset(sample, c),
                       Offset(sample, i));
    }
    forall a | 0 <= a < |was| && Spared(targets, i + 1, first, second, f, stride, sample, f + s, a)
      ensures now[a] == was[a]
    {
      assert Spared(targets, i, first, second, f, stride, sample, f + s, a);
      assert !Touched(first, second, f, stride, sample, Offset(sample, i), f + s, a);
    }
  }

  /** Writing one channel keeps what was written for another. */
  lemma OtherChannelKept(was: seq<Byte>, now: seq<Byte>, target: seq<Byte>, first: nat, f: nat, second: nat, s: nat,
                         stride: nat, sample: nat, off: nat, off': nat)
    requires Runs(|was|, first, f, second, s, f + s, stride) && |now| == |was|
    requires off + sample <= off' && off' + sample <= stride
    requires AllCopied(was, target, first, second, f, stride, sample, off, f + s)
    requires forall a :: 0 <= a < |was| && !Touched(first, second, f, stride, sample, off', f + s, a) ==>
             now[a] == was[a]
    ensures AllCopied(now, target, first, second, f, stride, sample, off, f + s)
  {
    forall k, b | 0 <= k < f + s && 0 <= b < sample
      ensures SampleCopied(now, target, first, second, f, stride, sample, off, k, b)
    {
      assert SampleCopied(was, target, first, second, f, stride, sample, off, k, b);
      ChannelsApart(|was|, first, f, second, s, f + s, stride, sample, off, off', k, b);
    }
  }

  /** Bytes of one channel are never bytes of another. */
  lemma ChannelsApart(len: nat, first: nat, f: nat, second: nat, s: nat, n: nat, stride: nat, sample: nat, off: nat,
                      off': nat, k: nat, b: nat)
    requires Runs(len, first, f, second, s, n, stride)
    requires off + sample <= off' && off' + sample <= stride && k < n && b < sample
    ensures !Touched(first, second, f, stride, sample, off', n, RunAddr(first, second, f, stride, k) + off + b)
  {
    forall l | 0 <= l < n
      ensures !(RunAddr(first, second, f, stride, l) + off'
                <= RunAddr(first, second, f, stride, k) + off + b
                < RunAddr(first, second, f, stride, l) + off' + sample)
    {
      if l != k {
        RunAddrApart(len, first, f, second, s, n, stride, l, k);
      }
    }
  }

  // ---------------------------------------------------------------------------------
  // The two runs are the ring
  // ---------------------------------------------------------------------------------

  /** The split made by tick: the first run goes to the end of the ring, the second starts over. */
  ghost predicate Split(g: Geometry, start: nat, n: nat, f: nat, s: nat) {
    && g.Ok() && start < g.frames && n <= g.frames
    && f == (if n <= g.frames - start then n else g.frames - start)
    && s == n - f
  }

  lemma SplitGivesRuns(g: Geometry, start: nat, n: nat, f: nat, s: nat, len: nat)
    requires Split(g, start, n, f, s) && g.base + g.Size() <= len
    ensures Runs(len, g.FrameAddr(start), f, g.base, s, n, g.Stride())
  {
    MulMono(start + f, g.frames, g.Stride());
    assert (start + f) * g.Stride() == start * g.Stride() + f * g.Stride();
    MulMono(s, g.frames, g.Stride());
    MulMono(s, start, g.Stride());
    MulMono(0, f, g.Stride());
  }

  lemma RunIsRingFrame(g: Geometry, start: nat, n: nat, f: nat, s: nat, k: nat, c: nat)
    requires Split(g, start, n, f, s) && k < n
    ensures RunAddr(g.FrameAddr(start), g.base, f, g.Stride(), k) + g.sample * c == g.Addr(g.FrameAt(start, k), c)
  {
    if k < f {
      DivModUnique(0, start + k, g.frames);
      assert (start + k) * g.Stride() == start * g.Stride() + k * g.Stride();
    } else {
      DivModUnique(1, k - f, g.frames);
    }
  }

  lemma PlayedIsChannelOut(mem: seq<Byte>, g: Geometry, start: nat, n: nat, f: nat, s: nat, c: nat,
                           was: seq<Byte>, target: seq<Byte>)
    requires Split(g, start, n, f, s) && g.Fits(mem) && c < g.channels && |was| == n * g.sample
    requires PlayedFromRuns(mem, was, target, g.FrameAddr(start), g.base, f, s, g.sample, c, g.channels)
    ensures target == ChannelOut(mem, g, start, n, c)
  {
    forall m | 0 <= m < n * g.sample
      ensures target[m] == ChannelOut(mem, g, start, n, c)[m]
    {
      PlayedByte(mem, g, start, n, f, s, c, target, m);
    }
  }

  lemma PlayedByte(mem: seq<Byte>, g: Geometry, start: nat, n: nat, f: nat, s: nat, c: nat, target: seq<Byte>, m: nat)
    requires Split(g, start, n, f, s) && g.Fits(mem) && c < g.channels && m < |target| == n * g.sample
    requires AllCopied(mem, target, g.FrameAddr(start), g.base, f, g.Stride(), g.sample, g.ChannelOffset(c), n)
    ensures target[m] == ChannelOut(mem, g, start, n, c)[m]
  {
    var k, b := SampleAndByte(m, n, g.sample);
    PlayedSample(mem, g, start, n, f, s, c, target, k, b);
    ChannelOutAt(mem, g, start, n, c, k, b);
  }

  lemma SampleAndByte(m: nat, n: nat, sample: nat) returns (k: nat, b: nat)
    requires sample > 0 && m < n * sample
    ensures k < n && b < sample && m == SampleAt(sample, k, b)
  {
    k, b := m / sample, m % sample;
    DivModIdentity(m, sample);
    if k >= n { MulMono(n, k, sample); }
  }

  lemma PlayedSample(mem: seq<Byte>, g: Geometry, start: nat, n: nat, f: nat, s: nat, c: nat, target: seq<Byte>,
                     k: nat, b: nat)
    requires Split(g, start, n, f, s) && c < g.channels && k < n && b < g.sample
    requires AllCopied(mem, target, g.FrameAddr(start), g.base, f, g.Stride(), g.sample, g.ChannelOffset(c), n)
    ensures Same(target, SampleAt(g.sample, k, b), mem, g.Addr(g.FrameAt(start, k), c) + b)
  {
    assert SampleCopied(mem, target, g.FrameAddr(start), g.base, f, g.Stride(), g.sample, g.ChannelOffset(c), k, b);
    RunIsRingFrame(g, start, n, f, s, k, c);
  }

  lemma RecordedIsMemory(mem: seq<Byte>, mem': seq<Byte>, g: Geometry, start: nat, n: nat, f: nat, s: nat,
                         targets: seq<Option<seq<Byte>>>)
    requires Split(g, start, n, f, s) && g.Fits(mem) && PeriodBuffers(targets, n * g.sample)
    requires RecordedPeriod(mem, mem', targets, g.FrameAddr(start), g.base, f, s, g.sample, g.channels, g.Stride())
    ensures mem' == RecordedMemory(mem, g, start, n, targets)
  {
    forall a | 0 <= a < |mem|
      ensures mem'[a] == RecordedByte(mem, g, start, n, targets, a)
    {
      if Spared(targets, g.channels, g.FrameAddr(start), g.base, f, g.Stride(), g.sample, n, a) {
        UntouchedByte(mem, g, start, n, f, s, targets, a);
      } else {
        var c :| 0 <= c < g.channels && c < |targets| && targets[c].Some?
          && Touched(g.FrameAddr(start), g.base, f, g.Stride(), g.sample, Offset(g.sample, c), n, a);
        TouchedByte(mem, mem', g, start, n, f, s, targets, c, a);
      }
    }
  }

  lemma TouchedByte(mem: seq<Byte>, mem': seq<Byte>, g: Geometry, start: nat, n: nat, f: nat, s: nat,
                    targets: seq<Option<seq<Byte>>>, c: nat, a: nat)
    requires Split(g, start, n, f, s) && g.Fits(mem) && |mem'| == |mem| && PeriodBuffers(targets, n * g.sample) &&
             a < |mem|
    requires c < |targets| && c < g.channels && targets[c].Some?
    requires AllCopied(mem', targets[c].value, g.FrameAddr(start), g.base, f, g.Stride(), g.sample, g.ChannelOffset(c),
                       n)
    requires Touched(g.FrameAddr(start), g.base, f, g.Stride(), g.sample, g.ChannelOffset(c), n, a)
    ensures mem'[a] == RecordedByte(mem, g, start, n, targets, a)
  {
    var k, b, q := TouchedSample(mem', g, start, n, f, s, targets[c].value, c, a);
    RecordedSample(mem, g, start, n, targets, c, k, b);
  }

  /** The sample that a touched byte was copied from. */
  lemma TouchedSample(mem: seq<Byte>, g: Geometry, start: nat, n: nat, f: nat, s: nat, target: seq<Byte>, c: nat,
                      a: nat)
    returns (k: nat, b: nat, q: nat)
    requires Split(g, start, n, f, s)
    requires AllCopied(mem, target, g.FrameAddr(start), g.base, f, g.Stride(), g.sample, g.ChannelOffset(c), n)
    requires Touched(g.FrameAddr(start), g.base, f, g.Stride(), g.sample, g.ChannelOffset(c), n, a)
    ensures k < n && b < g.sample && q == g.FrameAt(start, k) && a == g.Addr(q, c) + b
    ensures Same(target, SampleAt(g.sample, k, b), mem, a)
  {
    k, b := CopiedFrom(mem, target, g.FrameAddr(start), g.base, f, g.Stride(), g.sample, g.ChannelOffset(c), n, a);
    q := g.FrameAt(start, k);
    RunIsRingFrame(g, start, n, f, s, k, c);
  }

  lemma CopiedFrom(mem: seq<Byte>, target: seq<Byte>, first: nat, second: nat, f: nat, stride: nat, sample: nat,
                   off: nat, n: nat, a: nat)
    returns (k: nat, b: nat)
    requires AllCopied(mem, target, first, second, f, stride, sample, off, n) &&
             Touched(first, second, f, stride, sample, off, n, a)
    ensures k < n && b < sample && a == RunAddr(first, second, f, stride, k) + off + b
    ensures Same(target, SampleAt(sample, k, b), mem, a)
  {
    k :| 0 <= k < n &&
      RunAddr(first, second, f, stride, k) + off <= a < RunAddr(first, second, f, stride, k) + off + sample;
    b := a - (RunAddr(first, second, f, stride, k) + off);
    assert SampleCopied(mem, target, first, second, f, stride, sample, off, k, b);
  }

  lemma UntouchedByte(mem: seq<Byte>, g: Geometry, start: nat, n: nat, f: nat, s: nat, targets: seq<Option<seq<Byte>>>,
                      a: nat)
    requires Split(g, start, n, f, s) && g.Fits(mem) && PeriodBuffers(targets, n * g.sample) && a < |mem|
    requires Spared(targets, g.channels, g.FrameAddr(start), g.base, f, g.Stride(), g.sample, n, a)
    ensures RecordedByte(mem, g, start, n, targets, a) == mem[a]
  {
    if g.base <= a < g.base + g.Size() && FrameAge(g, start, g.FrameOf(a)) < n {
      var k, c, b := Coordinates(g, start, a);
      RunIsRingFrame(g, start, n, f, s, k, c);
      RecordedSample(mem, g, start, n, targets, c, k, b);
      if c < |targets| && targets[c].Some? {
        assert Touched(g.FrameAddr(start), g.base, f, g.Stride(), g.sample, Offset(g.sample, c), n, a);
        assert false;
      }
    }
  }
}
