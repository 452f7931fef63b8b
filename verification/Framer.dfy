/**
 The PCM framer: cuts a synthesized byte stream into fixed frames, stamps them by the sample clock
 and paces them to near real time.

 The wall clock moves forward by any amount at any reading, a sleep may end late, a send may block
 for any time, and cancellation may end any of them; times are nanoseconds.
 */
module Framer {
  import opened Wrappers

  datatype AudioFrame = AudioFrame(pcm: seq<Byte>, tsUs: int)

  /** A frame as paced: its position on the sample clock, and when its send completed. */
  datatype Sent = Sent(pos: int, at: int)

  const SECOND: int := 1_000_000_000
  const DEFAULT_LEAD: int := 200_000_000

  /** `total` samples into the stream, in microseconds and in nanoseconds, rounded down. */
  function TsUs(total: nat, rate: nat): int
    requires rate >= 1
  {
    total * 1_000_000 / rate
  }

  function PlayPos(total: nat, rate: nat): int
    requires rate >= 1
  {
    total * SECOND / rate
  }

  /** The longest time between two neighbouring frames on the sample clock. */
  function FrameSpan(spf: nat, rate: nat): int
    requires rate >= 1
  {
    (spf * 1_000_000_000 + rate - 1) / rate
  }

  lemma PlayPosSteps(total: nat, spf: nat, rate: nat)
    requires rate >= 1
    ensures PlayPos(total, rate) <= PlayPos(total + spf, rate) <= PlayPos(total, rate) + FrameSpan(spf, rate)
  {
    var a, b := total * SECOND, spf * SECOND;
    assert (total + spf) * SECOND == a + b;
    FloorStep(a, b, rate);
  }

  /** Rounding down never gains, and loses less than one. */
  lemma FloorStep(a: nat, b: nat, d: nat)
    requires d >= 1
    ensures a / d <= (a + b) / d <= a / d + (b + d - 1) / d
  {
    var qa, q, qb := a / d, (a + b) / d, (b + d - 1) / d;
    DivBounds(a, d);
    DivBounds(a + b, d);
    DivBounds(b + d - 1, d);
    assert d * (q + 1) == d * q + d;
    assert d * (qa + qb + 1) == d * qa + d * qb + d;
    if q < qa { MulMono(d, q + 1, qa); }
    if q > qa + qb { MulMono(d, qa + qb + 1, q); }
  }

  lemma DivBounds(a: nat, d: nat)
    requires d >= 1
    ensures d * (a / d) <= a < d * (a / d) + d
  {
  }

  lemma MulMono(d: nat, x: int, y: int)
    requires x <= y
    ensures d * x <= d * y
  {
  }

  // ---------------------------------------------------------------------------
  // Framing as a function

  /** The shape of a stream: samples per frame and sample rate. */
  datatype Shape = Shape(spf: nat, rate: nat)

  /** `frameNs` nanoseconds of audio per frame, in whole samples. */
  function FormatOf(rate: nat, frameNs: nat): Shape {
    Shape(rate * frameNs / SECOND, rate)
  }

  /** At least one sample per frame; with none, the source's loop over the carry would not end. */
  predicate Good(f: Shape) {
    f.spf >= 1 && f.rate >= 1
  }

  type Format = f: Shape | Good(f) witness Shape(1, 1)

  function Bpf(f: Format): nat {
    2 * f.spf
  }

  /** The whole frames at the front of `stream`, the first one starting at sample `total`. */
  function Cut(stream: seq<Byte>, total: nat, f: Format): seq<AudioFrame>
    decreases |stream|
  {
    if |stream| < Bpf(f) then []
    else [AudioFrame(stream[..Bpf(f)], TsUs(total, f.rate))] + Cut(stream[Bpf(f)..], total + f.spf, f)
  }

  /** What is left behind them, less than a frame. */
  function Rest(stream: seq<Byte>, f: Format): (r: seq<Byte>)
    ensures |r| < Bpf(f)
    decreases |stream|
  {
    if |stream| < Bpf(f) then stream else Rest(stream[Bpf(f)..], f)
  }

  /** The sample position after the whole frames. */
  function Total(stream: seq<Byte>, total: nat, f: Format): nat
    decreases |stream|
  {
    if |stream| < Bpf(f) then total else Total(stream[Bpf(f)..], total + f.spf, f)
  }

  function Zeros(n: nat): seq<Byte> {
    seq(n, _ => 0)
  }

  /** The last, zero-padded frame, if anything is left. */
  function Tail(carry: seq<Byte>, total: nat, f: Format): seq<AudioFrame>
    requires |carry| < Bpf(f)
  {
    if carry == [] then [] else [AudioFrame(carry + Zeros(Bpf(f) - |carry|), TsUs(total, f.rate))]
  }

  /** One Emit with the whole stream, then Flush. */
  function OneShot(stream: seq<Byte>, f: Format): seq<AudioFrame>
  {
    Cut(stream, 0, f) + Tail(Rest(stream, f), Total(stream, 0, f), f)
  }

  /** The framer's memory, and what it has sent. */
  datatype Framing = Framing(carry: seq<Byte>, total: nat, sent: seq<AudioFrame>)

  function Emitted(s: Framing, pcm: seq<Byte>, f: Format): Framing
  {
    var stream := s.carry + pcm;
    Framing(Rest(stream, f), Total(stream, s.total, f), s.sent + Cut(stream, s.total, f))
  }

  /** Framing the rest of `carry` after the frames sent so far gives `goal`. */
  ghost predicate Toward(goal: Framing, carry: seq<Byte>, total: nat, sent: seq<AudioFrame>, f: Format)
  {
    && goal.carry == Rest(carry, f) && goal.total == Total(carry, total, f)
    && goal.sent == sent + Cut(carry, total, f)
  }

  /** Sending the first frame of the carry leaves the others to be sent. */
  lemma SendFirst(goal: Framing, carry: seq<Byte>, total: nat, sent: seq<AudioFrame>, f: Format)
    requires |carry| >= Bpf(f) && Toward(goal, carry, total, sent, f)
    ensures Toward(goal, carry[Bpf(f)..], total + f.spf, sent + [AudioFrame(carry[..Bpf(f)], TsUs(total, f.rate))], f)
  {
  }

  function EmittedAll(s: Framing, chunks: seq<seq<Byte>>, f: Format): Framing
    decreases |chunks|
  {
    if chunks == [] then s else EmittedAll(Emitted(s, chunks[0], f), chunks[1..], f)
  }

  function Flushed(s: Framing, f: Format): Framing
    requires |s.carry| < Bpf(f)
  {
    Framing([], s.total, s.sent + Tail(s.carry, s.total, f))
  }

  function Concat(chunks: seq<seq<Byte>>): seq<Byte> {
    if chunks == [] then [] else chunks[0] + Concat(chunks[1..])
  }

  /** Emitting `a` and then `b` is emitting them together. */
  lemma {:induction false} CutJoins(a: seq<Byte>, b: seq<Byte>, total: nat, f: Format)
    ensures Rest(a + b, f) == Rest(Rest(a, f) + b, f)
    ensures Total(a + b, total, f) == Total(Rest(a, f) + b, Total(a, total, f), f)
    ensures Cut(a + b, total, f) == Cut(a, total, f) + Cut(Rest(a, f) + b, Total(a, total, f), f)
    decreases |a|
  {
    var n := Bpf(f);
    if |a| < n {
    } else {
      assert (a + b)[..n] == a[..n] && (a + b)[n..] == a[n..] + b;
      CutJoins(a[n..], b, total + f.spf, f);
    }
  }

  const START: Framing := Framing([], 0, [])

  lemma EmittedJoins(a: seq<Byte>, b: seq<Byte>, f: Format)
    ensures Emitted(Emitted(START, a, f), b, f) == Emitted(START, a + b, f)
  {
    assert [] + a == a && [] + (a + b) == a + b;
    CutJoins(a, b, 0, f);
  }

  lemma {:induction false} EmittedAllJoins(a: seq<Byte>, chunks: seq<seq<Byte>>, f: Format)
    ensures EmittedAll(Emitted(START, a, f), chunks, f) == Emitted(START, a + Concat(chunks), f)
    decreases |chunks|
  {
    if chunks == [] {
      assert a + Concat(chunks) == a;
    } else {
      EmittedJoins(a, chunks[0], f);
      EmittedAllJoins(a + chunks[0], chunks[1..], f);
      assert (a + chunks[0]) + Concat(chunks[1..]) == a + Concat(chunks);
    }
  }

  /** However a stream is split into Emit calls, a final Flush has sent the frames of one-shot framing. */
  lemma ChunkIndependence(chunks: seq<seq<Byte>>, f: Format)
    ensures |EmittedAll(START, chunks, f).carry| < Bpf(f)
    ensures Flushed(EmittedAll(START, chunks, f), f).sent == OneShot(Concat(chunks), f)
  {
    assert Emitted(START, [], f) == START;
    EmittedAllJoins([], chunks, f);
    assert [] + Concat(chunks) == Concat(chunks);
    assert [] + Cut(Concat(chunks), 0, f) == Cut(Concat(chunks), 0, f);
  }

  /** The bytes of all frames, in order. */
  function Bytes(frames: seq<AudioFrame>): seq<Byte> {
    if frames == [] then [] else frames[0].pcm + Bytes(frames[1..])
  }

  lemma {:induction false} BytesJoin(a: seq<AudioFrame>, b: seq<AudioFrame>)
    ensures Bytes(a + b) == Bytes(a) + Bytes(b)
  {
    if a == [] {
      assert a + b == b;
    } else {
      assert (a + b)[1..] == a[1..] + b;
      BytesJoin(a[1..], b);
    }
  }

  lemma BytesFirst(x: AudioFrame, later: seq<AudioFrame>)
    ensures Bytes([x] + later) == x.pcm + Bytes(later)
  {
    assert ([x] + later)[1..] == later;
  }

  lemma Associative(a: seq<Byte>, b: seq<Byte>, c: seq<Byte>)
    ensures (a + b) + c == a + (b + c)
  {
  }

  lemma Halves(stream: seq<Byte>, n: nat)
    requires n <= |stream|
    ensures stream[..n] + stream[n..] == stream
  {
  }

  lemma {:induction false} CutBytes(stream: seq<Byte>, total: nat, f: Format)
    ensures Bytes(Cut(stream, total, f)) + Rest(stream, f) == stream
    decreases |stream|
  {
    var n := Bpf(f);
    if |stream| < n {
      assert [] + stream == stream;
    } else {
      var front, later := AudioFrame(stream[..n], TsUs(total, f.rate)), Cut(stream[n..], total + f.spf, f);
      CutBytes(stream[n..], total + f.spf, f);
      BytesFirst(front, later);
      Associative(front.pcm, Bytes(later), Rest(stream[n..], f));
      Halves(stream, n);
    }
  }

  lemma {:induction false} CutStamp(stream: seq<Byte>, total: nat, f: Format, i: nat)
    requires i < |Cut(stream, total, f)|
    ensures var c := Cut(stream, total, f); |c[i].pcm| == Bpf(f) && c[i].tsUs == TsUs(total + i * f.spf, f.rate)
    decreases i
  {
    if i == 0 {
    } else {
      CutStamp(stream[Bpf(f)..], total + f.spf, f, i - 1);
      MulStep(i, f.spf);
    }
  }

  lemma {:induction false} CutTotal(stream: seq<Byte>, total: nat, f: Format)
    ensures Total(stream, total, f) == total + |Cut(stream, total, f)| * f.spf
    decreases |stream|
  {
    if |stream| < Bpf(f) {
    } else {
      CutTotal(stream[Bpf(f)..], total + f.spf, f);
      MulStep(|Cut(stream, total, f)|, f.spf);
    }
  }

  lemma MulStep(i: nat, spf: nat)
    requires i >= 1
    ensures i * spf == (i - 1) * spf + spf
  {
  }

  /**
   One-shot framing carries the stream itself, padded with zeros to a whole frame, and frame `i` is
   stamped by the sample clock alone, so rounding never accumulates.
   */
  lemma FramesAreExact(stream: seq<Byte>, f: Format)
    ensures var c := OneShot(stream, f);
      && (exists pad: nat :: pad < Bpf(f) && Bytes(c) == stream + Zeros(pad))
      && (forall i :: 0 <= i < |c| ==> |c[i].pcm| == Bpf(f) && c[i].tsUs == i * f.spf * 1_000_000 / f.rate)
  {
    var whole, carry, total := Cut(stream, 0, f), Rest(stream, f), Total(stream, 0, f);
    var tail := Tail(carry, total, f);
    CutBytes(stream, 0, f);
    BytesJoin(whole, tail);
    var pad := if carry == [] then 0 else Bpf(f) - |carry|;
    assert Bytes(tail) == carry + Zeros(pad);
    assert Bytes(OneShot(stream, f)) == stream + Zeros(pad);
    forall i | 0 <= i < |OneShot(stream, f)|
      ensures var c := OneShot(stream, f); |c[i].pcm| == Bpf(f) && c[i].tsUs == i * f.spf * 1_000_000 / f.rate
    {
      if i < |whole| {
        CutStamp(stream, 0, f, i);
      } else {
        CutTotal(stream, 0, f);
      }
    }
  }

  // ---------------------------------------------------------------------------
  // The framer as an object

  /** The wall clock: any reading may be later than the one before by any amount. */
  class Clock {
    var now: int

    constructor () { now := 0; }

    method Read() returns (t: int)
      modifies this
      ensures t == now >= old(now)
    {
      var passed: int :| passed >= 0;
      now := now + passed;
      t := now;
    }

    /** Sleeps for at least `d`, unless cancelled. */
    method Sleep(d: int) returns (woken: bool)
      modifies this
      ensures now >= old(now)
      ensures woken ==> now >= old(now) + d
    {
      var passed: int :| passed >= 0;
      now := now + passed;
      woken := passed >= d;
    }
  }

  /** The adapter's output channel: a send takes any time and may be cut off by cancellation. */
  class Channel {
    var frames: seq<AudioFrame>
    ghost var times: seq<int>     // when each frame was taken

    constructor ()
      ensures frames == [] && times == []
    {
      frames, times := [], [];
    }

    method Send(f: AudioFrame, clock: Clock) returns (sent: bool)
      modifies this, clock
      ensures clock.now >= old(clock.now)
      ensures frames == if sent then old(frames) + [f] else old(frames)
      ensures times == if sent then old(times) + [clock.now] else old(times)
    {
      var passed: int :| passed >= 0;
      clock.now := clock.now + passed;
      sent := *;
      if sent {
        frames, times := frames + [f], times + [clock.now];
      }
    }
  }

  /** For any two paced frames, the later one is not further ahead of its time than lead plus a frame. */
  ghost predicate Bounded(q: seq<Sent>, lead: int, span: int) {
    forall i, j :: 0 <= i < j < |q| ==> q[j].pos - q[i].pos <= (q[j].at - q[i].at) + lead + span
  }

  /** What was paced since has the times at which the channel took it. */
  ghost predicate Follows(were: seq<Sent>, times: seq<int>, paced: seq<Sent>, now: seq<int>) {
    && were <= paced && times <= now && |paced| - |were| == |now| - |times|
    && forall k :: |were| <= k < |paced| ==> paced[k].at == now[|times| + k - |were|]
  }

  lemma FollowsOn(were: seq<Sent>, times: seq<int>, paced: seq<Sent>, now: seq<int>, x: Sent)
    requires Follows(were, times, paced, now)
    ensures Follows(were, times, paced + [x], now + [x.at])
  {
  }

  /** The paced frames stand on the sample clock one frame apart, from zero on. */
  ghost predicate ClockAt(paced: seq<Sent>, total: nat, f: Format)
  {
    && total == |paced| * f.spf
    && forall i :: 0 <= i < |paced| ==> paced[i].pos == i * f.spf * 1_000_000_000 / f.rate
  }

  lemma ClockOn(paced: seq<Sent>, total: nat, f: Format, at: int)
    requires ClockAt(paced, total, f)
    ensures ClockAt(paced + [Sent(PlayPos(total, f.rate), at)], total + f.spf, f)
  {
    assert (|paced| + 1) * f.spf == |paced| * f.spf + f.spf;
  }

  /** The anchor is at or behind what every sent frame's successor allows. */
  ghost predicate Anchored(f: Format, paced: seq<Sent>, total: nat, start: Option<int>, now: int)
  {
    var span := FrameSpan(f.spf, f.rate);
    && (start.None? ==> paced == [])
    && (forall i :: 0 <= i < |paced| ==> paced[i].at <= now)
    && (forall i :: 0 <= i < |paced| - 1 ==> paced[i].at - paced[i].pos - span <= start.value)
    && (|paced| > 0 ==> PlayPos(total, f.rate) <= paced[|paced| - 1].pos + span)
  }

  /** The pacer's memory between two frames, at time `now`. */
  ghost predicate Paced(f: Format, lead: int, paced: seq<Sent>, total: nat, start: Option<int>, now: int) {
    && lead > 0
    && Anchored(f, paced, total, start, now)
    && Bounded(paced, lead, FrameSpan(f.spf, f.rate))
    && ClockAt(paced, total, f)
  }

  /** A frame whose turn is not before the last send, sent at most `lead` early. */
  lemma PacedOn(f: Format, lead: int, paced: seq<Sent>, total: nat, was: Option<int>, start: int, before: int, at: int)
    requires Paced(f, lead, paced, total, was, before) && before <= at
    requires was.Some? ==> start >= was.value
    requires start + PlayPos(total, f.rate) >= before && at >= start + PlayPos(total, f.rate) - lead
    ensures Paced(f, lead, paced + [Sent(PlayPos(total, f.rate), at)], total + f.spf, Some(start), at)
  {
    PlayPosSteps(total, f.spf, f.rate);
    ClockOn(paced, total, f, at);
  }

  class PCMFramer {
    const fmt: Format
    const lead: int
    var carry: seq<Byte>
    var total: nat
    var start: Option<int>
    ghost var paced: seq<Sent>

    /** `lead` at or below zero means the default. */
    constructor (rate: nat, frameNs: nat, lead: int)
      requires Good(FormatOf(rate, frameNs))
      ensures fmt.rate == rate && fmt.spf == rate * frameNs / 1_000_000_000
      ensures forall now :: Valid(now)
      ensures carry == [] && total == 0 && start.None? && paced == []
      ensures this.lead == if lead <= 0 then 200_000_000 else lead
    {
      fmt := FormatOf(rate, frameNs);
      this.lead := if lead <= 0 then DEFAULT_LEAD else lead;
      carry, total, start, paced := [], 0, None, [];
    }

    ghost predicate Valid(now: int)
      reads this`start, this`paced, this`total
    {
      Paced(fmt, lead, paced, total, start, now)
    }

    /** Anchors or re-anchors, then waits until the frame is at most `lead` early. */
    method Pace(playPos: int, clock: Clock) returns (ok: bool)
      requires playPos >= 0
      modifies this`start, clock
      ensures clock.now >= old(clock.now) && start.Some?
      ensures old(start).Some? ==> start.value >= old(start).value
      ensures start.value + playPos >= old(clock.now)
      ensures old(start).None? ==> start.value <= clock.now
      ensures old(start).Some? && start != old(start) ==> start.value + playPos <= clock.now
      ensures ok ==> clock.now >= start.value + playPos - lead
    {
      if start.None? {
        var t := clock.Read();
        start := Some(t);
      }
      var target := start.value + playPos;
      var now := clock.Read();
      if now > target {
        start := Some(now - playPos);
        target := now;
      }
      var d := clock.Read();
      d := target - d - lead;
      ok := true;
      if d > 0 {
        ok := clock.Sleep(d);
      }
    }

    /**
     Sends every whole frame of carry and `pcm`; on success exactly those of the framing function.
     Cancelled or not, the anchor has not moved back; the frames sent are the next ones on the sample
     clock, each entered with the time its send was taken; and any two ever sent obey the bound.
     */
    method Emit(pcm: seq<Byte>, out: Channel, clock: Clock) returns (ok: bool)
      requires Valid(clock.now)
      modifies this, out, clock
      ensures Valid(clock.now) && clock.now >= old(clock.now)
      ensures ClockAt(paced, total, fmt) && Bounded(paced, lead, FrameSpan(fmt.spf, fmt.rate))
      ensures Follows(old(paced), old(out.times), paced, out.times)
      ensures |out.frames| - |old(out.frames)| == |paced| - |old(paced)|
      ensures old(start).Some? ==> start.Some? && start.value >= old(start).value
      ensures ok ==>
        Framing(carry, total, out.frames) == Emitted(Framing(old(carry), old(total), old(out.frames)), pcm, fmt)
      ensures old(out.frames) <= out.frames <= Emitted(Framing(old(carry), old(total), old(out.frames)), pcm, fmt).sent
    {
      carry := carry + pcm;
      var bpf := Bpf(fmt);
      ghost var goal := Emitted(Framing(old(carry), total, out.frames), pcm, fmt);
      ok := true;
      while |carry| >= bpf
        invariant Valid(clock.now) && clock.now >= old(clock.now) && Sending(goal, old(paced), old(out.times), out)
        invariant old(start).Some? ==> start.Some? && start.value >= old(start).value
        invariant |out.frames| - |old(out.frames)| == |paced| - |old(paced)| && old(out.frames) <= out.frames
        decreases |carry|
      {
        var frame := AudioFrame(carry[..bpf], TsUs(total, fmt.rate));
        SendFirst(goal, carry, total, out.frames, fmt);
        ghost var p, q, pos := paced, out.times, PlayPos(total, fmt.rate);
        carry := carry[bpf..];
        ok := SendPaced(frame, out, clock);
        if !ok {
          return;
        }
        FollowsOn(old(paced), old(out.times), p, q, Sent(pos, clock.now));
      }
    }

    /** Paces and sends one frame, then advances the sample clock. */
    method SendPaced(frame: AudioFrame, out: Channel, clock: Clock) returns (ok: bool)
      requires Valid(clock.now)
      modifies this`start, this`total, this`paced, out, clock
      ensures Valid(clock.now) && clock.now >= old(clock.now)
      ensures start.Some? && (old(start).Some? ==> start.value >= old(start).value)
      ensures ok ==> out.frames == old(out.frames) + [frame] && total == old(total) + fmt.spf
      ensures ok ==> paced == old(paced) + [Sent(PlayPos(old(total), fmt.rate), clock.now)] && out.times == old(out.times) + [clock.now]
      ensures !ok ==> out.frames == old(out.frames) && out.times == old(out.times) && paced == old(paced) && total == old(total)
    {
      var playPos := PlayPos(total, fmt.rate);
      ok := Pace(playPos, clock);
      if ok {
        ok := out.Send(frame, clock);
        if ok {
          PacedOn(fmt, lead, paced, total, old(start), start.value, old(clock.now), clock.now);
          paced := paced + [Sent(playPos, clock.now)];
          total := total + fmt.spf;
        }
      }
    }

    /** What has been sent so far is on the way to `goal`, each frame with its time. */
    ghost predicate Sending(goal: Framing, were: seq<Sent>, times: seq<int>, out: Channel)
      reads this`carry, this`total, this`paced, out`frames, out`times
    {
      Toward(goal, carry, total, out.frames, fmt) && Follows(were, times, paced, out.times)
    }

    /** Sends the zero-padded rest, if any; a cancelled send loses it, and nothing is left either way. */
    method Flush(out: Channel, clock: Clock) returns (ok: bool)
      requires |carry| < Bpf(fmt)
      modifies this`carry, out, clock
      ensures ok ==> Framing(carry, total, out.frames) == Flushed(Framing(old(carry), total, old(out.frames)), fmt)
      ensures !ok ==> old(carry) != [] && carry == [] && out.frames == old(out.frames)
      ensures clock.now >= old(clock.now)
    {
      if carry == [] {
        return true;
      }
      var frame := AudioFrame(carry + Zeros(Bpf(fmt) - |carry|), TsUs(total, fmt.rate));
      carry := [];
      ok := out.Send(frame, clock);
    }
  }
}
