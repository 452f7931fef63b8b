/**
 The wire frame: a fixed 24-byte big-endian header and a payload, with its two readers.

 `Decode` takes a whole message; `ReadFrameInto` streams it through a reused buffer.  Bytes
 are integers below 256, the number is unsigned 64-bit, `tsUs` signed 64-bit in two's complement.
 */
module Codec {
  import opened Wrappers

  const HEADER_SIZE: nat := 24
  const MAX_PAYLOAD: nat := 65536
  const MAGIC0: Byte := 0x56
  const MAGIC1: Byte := 0x53
  const VERSION: Byte := 1

  const TWO32: int := 0x1_0000_0000
  const TWO63: int := 0x8000_0000_0000_0000
  const TWO64: int := 0x1_0000_0000_0000_0000

  type Uint64 = x: int | 0 <= x < 0x1_0000_0000_0000_0000
  type Int64 = x: int | -0x8000_0000_0000_0000 <= x < 0x8000_0000_0000_0000
  type Int32 = x: int | -0x8000_0000 <= x < 0x8000_0000

  datatype Frame = Frame(typ: Int32, no: Uint64, tsUs: Int64, payload: seq<Byte>)

  datatype Error = ShortHeader | BadMagic | BadVersion | PayloadTooLarge | FrameLength | UnexpectedEnd | NotBinary

  datatype Result<+T> = Ok(value: T) | Err(error: Error)

  // ---------------------------------------------------------------------------
  // Big-endian integers

  /** `n` bytes, most significant first. */
  function PutBE(x: nat, n: nat): (b: seq<Byte>)
    ensures |b| == n
  {
    if n == 0 then [] else PutBE(x / 256, n - 1) + [x % 256]
  }

  function GetBE(b: seq<Byte>): nat {
    if b == [] then 0 else GetBE(b[..|b| - 1]) * 256 + b[|b| - 1]
  }

  function Pow256(n: nat): nat {
    if n == 0 then 1 else 256 * Pow256(n - 1)
  }

  lemma {:induction false} GetPut(x: nat, n: nat)
    requires x < Pow256(n)
    ensures GetBE(PutBE(x, n)) == x
  {
    if n == 0 {
    } else {
      GetPut(x / 256, n - 1);
      assert PutBE(x, n)[..n - 1] == PutBE(x / 256, n - 1);
    }
  }

  lemma {:induction false} PutGet(b: seq<Byte>)
    ensures GetBE(b) < Pow256(|b|) && PutBE(GetBE(b), |b|) == b
  {
    if b == [] {
    } else {
      var front := b[..|b| - 1];
      PutGet(front);
      assert b == front + [b[|b| - 1]];
    }
  }

  /** Four bytes as a number, most significant first. */
  function Word(b: seq<Byte>, at: nat): nat
    requires at + 4 <= |b|
  {
    var b0: nat, b1: nat, b2: nat, b3: nat := b[at], b[at + 1], b[at + 2], b[at + 3];
    b0 * 0x100_0000 + b1 * 0x1_0000 + b2 * 0x100 + b3
  }

  lemma GetWord(b: seq<Byte>)
    requires |b| == 4
    ensures GetBE(b) == Word(b, 0)
  {
    var b1, b2, b3 := b[..1], b[..2], b[..3];
    assert b3[..2] == b2 && b2[..1] == b1 && b1[..0] == [];
    assert GetBE(b1) == GetBE([]) * 0x100 + b[0];
    assert GetBE(b2) == GetBE(b1) * 0x100 + b[1];
    assert GetBE(b3) == GetBE(b2) * 0x100 + b[2];
    assert GetBE(b) == GetBE(b3) * 0x100 + b[3];
  }

  lemma GetTwoWords(b: seq<Byte>)
    requires |b| == 8
    ensures GetBE(b) == Word(b, 0) * 0x1_0000_0000 + Word(b, 4)
  {
    var b5, b6, b7 := b[..5], b[..6], b[..7];
    assert b7[..6] == b6 && b6[..5] == b5 && b5[..4] == b[..4];
    GetWord(b[..4]);
    assert Word(b[..4], 0) == Word(b, 0);
    assert GetBE(b5) == GetBE(b[..4]) * 0x100 + b[4];
    assert GetBE(b6) == GetBE(b5) * 0x100 + b[5];
    assert GetBE(b7) == GetBE(b6) * 0x100 + b[6];
    assert GetBE(b) == GetBE(b7) * 0x100 + b[7];
  }

  lemma Widths()
    ensures Pow256(4) == TWO32 && Pow256(8) == TWO64
  {
    assert Pow256(4) == 256 * (256 * (256 * (256 * Pow256(0))));
    assert Pow256(8) == 256 * (256 * (256 * (256 * Pow256(4))));
  }

  /** Reinterpreting a signed 64-bit integer as unsigned, and back. */
  function ToUnsigned(x: Int64): Uint64 {
    if x >= 0 then x else x + TWO64
  }

  function ToSigned(x: Uint64): Int64 {
    if x < TWO63 then x else x - TWO64
  }

  // ---------------------------------------------------------------------------
  // Encoding

  function EncodeHeader(f: Frame): (h: seq<Byte>)
    requires |f.payload| <= MAX_PAYLOAD
    ensures |h| == HEADER_SIZE
  {
    [MAGIC0, MAGIC1, VERSION, f.typ % 256]
    + PutBE(f.no, 8) + PutBE(ToUnsigned(f.tsUs), 8) + PutBE(|f.payload|, 4)
  }

  /**
   `AppendBinary`: leaves `buf` as it is and appends a message that decodes to the frame, its type
   cut to a byte; refuses exactly an oversized payload.
   */
  method AppendBinary(f: Frame, buf: seq<Byte>) returns (r: Result<seq<Byte>>)
    ensures r.Ok? <==> |f.payload| <= 65536
    ensures r.Err? ==> r.error == PayloadTooLarge
    ensures r.Ok? ==> buf <= r.value && |r.value| == |buf| + HEADER_SIZE + |f.payload|
    ensures r.Ok? ==> LaidOut(r.value[|buf|..], f) && Decode(r.value[|buf|..]) == Ok(f.(typ := f.typ % 256))
  {
    if |f.payload| > MAX_PAYLOAD {
      return Err(PayloadTooLarge);
    }
    var hdr := EncodeHeader(f);
    r := Ok(buf + hdr + f.payload);
    assert r.value[|buf|..] == Encode(f);
    EncodedLayout(f);
    DecodeEncode(f);
  }

  function Encode(f: Frame): seq<Byte>
    requires |f.payload| <= MAX_PAYLOAD
  {
    EncodeHeader(f) + f.payload
  }

  /** The wire format, byte by byte. */
  predicate LaidOut(m: seq<Byte>, f: Frame) {
    && |m| == 24 + |f.payload|
    && m[0] == 0x56 && m[1] == 0x53 && m[2] == 1 && m[3] == f.typ % 256
    && Word(m, 4) * 0x1_0000_0000 + Word(m, 8) == f.no
    && Word(m, 12) * 0x1_0000_0000 + Word(m, 16) == (if f.tsUs >= 0 then f.tsUs else f.tsUs + 0x1_0000_0000_0000_0000)
    && Word(m, 20) == |f.payload|
    && m[24..] == f.payload
  }

  lemma EncodedLayout(f: Frame)
    requires |f.payload| <= MAX_PAYLOAD
    ensures LaidOut(Encode(f), f)
  {
    var h, m := EncodeHeader(f), Encode(f);
    HeaderFields(f);
    Widths();
    GetPut(f.no, 8);
    GetPut(ToUnsigned(f.tsUs), 8);
    GetPut(|f.payload|, 4);
    GetTwoWords(h[4..12]);
    GetTwoWords(h[12..20]);
    GetWord(h[20..24]);
  }

  // ---------------------------------------------------------------------------
  // Decoding

  /** A parsed header: the frame without its payload, and the declared length. */
  datatype Header = Header(f: Frame, length: nat)

  function DecodeHeader(hdr: seq<Byte>): Result<Header> {
    if |hdr| < HEADER_SIZE then Err(ShortHeader)
    else if hdr[0] != MAGIC0 || hdr[1] != MAGIC1 then Err(BadMagic)
    else if hdr[2] != VERSION then Err(BadVersion)
    else
      var length := GetBE(hdr[20..24]);
      if length > MAX_PAYLOAD then Err(PayloadTooLarge)
      else
        PutGet(hdr[4..12]); PutGet(hdr[12..20]); Widths();
        Ok(Header(Frame(hdr[3], GetBE(hdr[4..12]), ToSigned(GetBE(hdr[12..20])), []), length))
  }

  function Decode(buf: seq<Byte>): Result<Frame> {
    match DecodeHeader(buf)
    case Err(e) => Err(e)
    case Ok(h) =>
      if |buf| != HEADER_SIZE + h.length then Err(FrameLength)
      else Ok(h.f.(payload := buf[HEADER_SIZE..]))
  }

  // ---------------------------------------------------------------------------
  // Round trips

  lemma HeaderFields(f: Frame)
    requires |f.payload| <= MAX_PAYLOAD
    ensures var h := EncodeHeader(f);
      && h[0] == MAGIC0 && h[1] == MAGIC1 && h[2] == VERSION && h[3] == f.typ % 256
      && h[4..12] == PutBE(f.no, 8) && h[12..20] == PutBE(ToUnsigned(f.tsUs), 8) && h[20..24] == PutBE(|f.payload|, 4)
  {
  }

  lemma DecodeEncodedHeader(f: Frame, more: seq<Byte>)
    requires |f.payload| <= MAX_PAYLOAD
    ensures DecodeHeader(EncodeHeader(f) + more) ==
            Ok(Header(Frame(f.typ % 256, f.no, f.tsUs, []), |f.payload|))
  {
    var h, buf := EncodeHeader(f), EncodeHeader(f) + more;
    HeaderFields(f);
    assert buf[4..12] == h[4..12] && buf[12..20] == h[12..20] && buf[20..24] == h[20..24];
    Widths();
    GetPut(f.no, 8);
    GetPut(ToUnsigned(f.tsUs), 8);
    GetPut(|f.payload|, 4);
  }

  /** Decoding what was encoded gives the frame back exactly when its type fits the type byte. */
  lemma DecodeEncode(f: Frame)
    requires |f.payload| <= MAX_PAYLOAD
    ensures Decode(Encode(f)) == Ok(f.(typ := f.typ % 256))
    ensures Decode(Encode(f)) == Ok(f) <==> 0 <= f.typ < 256
  {
    DecodeEncodedHeader(f, f.payload);
    assert Encode(f)[HEADER_SIZE..] == f.payload;
  }

  /** The fields of a decoded frame are the bytes they came from. */
  lemma DecodedFields(buf: seq<Byte>, f: Frame)
    requires Decode(buf) == Ok(f)
    ensures |f.payload| <= MAX_PAYLOAD && f.payload == buf[HEADER_SIZE..]
    ensures [MAGIC0, MAGIC1, VERSION, f.typ % 256] == buf[..4]
    ensures PutBE(f.no, 8) == buf[4..12] && PutBE(ToUnsigned(f.tsUs), 8) == buf[12..20]
    ensures PutBE(|f.payload|, 4) == buf[20..24]
  {
    PutGet(buf[4..12]);
    PutGet(buf[12..20]);
    PutGet(buf[20..24]);
    Widths();
  }

  lemma Pieces(buf: seq<Byte>)
    requires |buf| >= HEADER_SIZE
    ensures buf == buf[..4] + buf[4..12] + buf[12..20] + buf[20..24] + buf[HEADER_SIZE..]
  {
  }

  /** Which messages are accepted, and why any other is not, in the order of the checks. */
  lemma DecodeVerdict(buf: seq<Byte>)
    ensures
      if |buf| < 24 then Decode(buf) == Err(ShortHeader)
      else if buf[0] != 0x56 || buf[1] != 0x53 then Decode(buf) == Err(BadMagic)
      else if buf[2] != 1 then Decode(buf) == Err(BadVersion)
      else if Word(buf, 20) > 65536 then Decode(buf) == Err(PayloadTooLarge)
      else if |buf| != 24 + Word(buf, 20) then Decode(buf) == Err(FrameLength)
      else Decode(buf).Ok? && Decode(buf).value.typ == buf[3] && LaidOut(buf, Decode(buf).value)
  {
    if |buf| >= 24 {
      GetWord(buf[20..24]);
      GetTwoWords(buf[4..12]);
      GetTwoWords(buf[12..20]);
    }
  }

  /** Every accepted message is the encoding of the frame it decodes to. */
  lemma EncodeDecode(buf: seq<Byte>)
    ensures Decode(buf).Ok? ==>
      var f := Decode(buf).value; |f.payload| <= MAX_PAYLOAD && 0 <= f.typ < 256 && Encode(f) == buf
  {
    if Decode(buf).Ok? {
      DecodedFields(buf, Decode(buf).value);
      Pieces(buf);
    }
  }

  /** A message is accepted exactly when it encodes some frame. */
  lemma AcceptsExactlyEncodings(buf: seq<Byte>)
    ensures Decode(buf).Ok? <==> exists f: Frame :: |f.payload| <= MAX_PAYLOAD && 0 <= f.typ < 256 && Encode(f) == buf
  {
    EncodeDecode(buf);
    forall f: Frame | |f.payload| <= MAX_PAYLOAD && 0 <= f.typ < 256 && Encode(f) == buf ensures Decode(buf).Ok? {
      DecodeEncode(f);
    }
  }

  // ---------------------------------------------------------------------------
  // The streaming reader

  /** One message being read: `io.ReadFull` semantics. */
  class MessageReader {
    const msg: seq<Byte>
    var at: nat

    ghost predicate Valid()
      reads this
    {
      at <= |msg|
    }

    constructor (msg: seq<Byte>)
      ensures this.msg == msg && at == 0 && Valid()
    {
      this.msg := msg;
      at := 0;
    }

    /** All `n` bytes, or what there is: `eof` when nothing was left at all. */
    method ReadFull(n: nat) returns (ok: bool, eof: bool, data: seq<Byte>)
      requires Valid()
      modifies this
      ensures Valid()
      ensures ok == (|msg| - old(at) >= n)
      ensures ok ==> data == msg[old(at)..old(at) + n] && at == old(at) + n
      ensures !ok ==> data == msg[old(at)..] && (eof <==> data == [])
    {
      if |msg| - at >= n {
        data := msg[at..at + n];
        at := at + n;
        return true, false, data;
      }
      ok, eof, data := false, at == |msg|, msg[at..];
      at := |msg|;
    }
  }

  /** A reused buffer: its contents and its capacity. */
  datatype Dst = Dst(bytes: seq<Byte>, cap: nat)

  predicate Fits(d: Dst) {
    |d.bytes| <= d.cap
  }

  /** How a rejected message is reported: a message that ends early is not told apart further. */
  function StreamError(msg: seq<Byte>): Error {
    if |msg| < HEADER_SIZE then UnexpectedEnd
    else match DecodeHeader(msg)
      case Err(e) => e
      case Ok(h) => if |msg| < HEADER_SIZE + h.length then UnexpectedEnd else FrameLength
  }

  /** Ends early, rejected as `Decode` rejects it, or followed by more: told apart by the length alone. */
  lemma StreamVerdict(msg: seq<Byte>)
    requires Decode(msg).Err?
    ensures StreamError(msg) ==
      if |msg| < 24 then UnexpectedEnd
      else if Decode(msg).error != FrameLength then Decode(msg).error
      else if |msg| < 24 + Word(msg, 20) then UnexpectedEnd
      else FrameLength
  {
    if |msg| >= 24 {
      GetWord(msg[20..24]);
    }
  }

  /**
   Reads one binary message through `dst`.  It accepts exactly what `Decode` accepts, with the same
   frame, which then fills the returned buffer; the buffer is only replaced by a larger one.
   */
  method ReadFrameInto(binary: bool, msg: seq<Byte>, dst: Dst) returns (r: Result<Frame>, out: Dst)
    requires Fits(dst)
    ensures Fits(out) && out.cap >= dst.cap
    ensures !binary ==> r == Err(NotBinary) && out == dst
    ensures binary ==> (r.Ok? <==> Decode(msg).Ok?)
    ensures r.Ok? ==> r == Decode(msg) && out.bytes == r.value.payload
    ensures binary && r.Err? ==> r.error == StreamError(msg)
    ensures binary && (|msg| < HEADER_SIZE || DecodeHeader(msg).Err?) ==> out == dst
    ensures r.Ok? ==> out.cap == if |r.value.payload| > dst.cap then |r.value.payload| else dst.cap
  {
    out := dst;
    if !binary {
      return Err(NotBinary), out;
    }
    var reader := new MessageReader(msg);
    var ok, eof, hdr := reader.ReadFull(HEADER_SIZE);
    if !ok {
      return Err(UnexpectedEnd), out;
    }
    HeaderOfPrefix(msg);
    var h := DecodeHeader(hdr);
    if h.Err? {
      return Err(h.error), out;
    }
    var n := h.value.length;
    out := Dst(dst.bytes, if dst.cap < n then n else dst.cap);
    var data;
    ok, eof, data := reader.ReadFull(n);
    if !ok {
      return Err(UnexpectedEnd), Dst(data, out.cap);
    }
    out := Dst(data, out.cap);
    var extra;
    ok, eof, extra := reader.ReadFull(1);
    if ok {
      return Err(FrameLength), out;
    }
    assert data == msg[HEADER_SIZE..];
    return Ok(h.value.f.(payload := data)), out;
  }

  /** The header is decided by the first 24 bytes. */
  lemma HeaderOfPrefix(msg: seq<Byte>)
    requires |msg| >= HEADER_SIZE
    ensures DecodeHeader(msg[..HEADER_SIZE]) == DecodeHeader(msg)
  {
    var hdr := msg[..HEADER_SIZE];
    assert hdr[4..12] == msg[4..12] && hdr[12..20] == msg[12..20] && hdr[20..24] == msg[20..24];
  }
}
