/** The frame codec: a 16-byte big-endian header and a payload of at most 2^20 bytes. */
module Frames {
  import opened Ids

  newtype Byte = b: int | 0 <= b < 256
  type Uint32 = n: nat | n < 0x1_0000_0000
  type Uint64 = n: nat | n < 0x1_0000_0000_0000_0000

  const HEADER_SIZE := 16
  const MAX_PAYLOAD_LEN := 0x10_0000

  datatype Frame = Frame(msgType: Uint32, sequence: Uint64, payload: seq<Byte>)

  datatype Error = InvalidFrame | PayloadTooLarge | Eof | UnexpectedEof
  datatype Result<+T> = Ok(value: T) | Err(error: Error)

  // ---------------------------------------------------------------- big-endian numbers

  function Pow256(width: nat): (p: nat)
    ensures p > 0
  {
    if width == 0 then 1 else 256 * Pow256(width - 1)
  }

  /** The `width` low bytes of `n`, most significant first. */
  function Put(n: nat, width: nat): (bytes: seq<Byte>)
    ensures |bytes| == width
  {
    if width == 0 then [] else Put(n / 256, width - 1) + [(n % 256) as Byte]
  }

  function Get(bytes: seq<Byte>): nat {
    if bytes == [] then 0 else 256 * Get(bytes[..|bytes| - 1]) + bytes[|bytes| - 1] as nat
  }

  lemma {:induction false} GetPut(n: nat, width: nat)
    requires n < Pow256(width)
    ensures Get(Put(n, width)) == n
  {
    if width > 0 {
      GetPut(n / 256, width - 1);
      assert Put(n, width)[..width - 1] == Put(n / 256, width - 1);
    }
  }

  lemma {:induction false} PutGet(bytes: seq<Byte>)
    ensures Get(bytes) < Pow256(|bytes|)
    ensures Put(Get(bytes), |bytes|) == bytes
    decreases |bytes|
  {
    if bytes != [] {
      var front, last := bytes[..|bytes| - 1], bytes[|bytes| - 1];
      PutGet(front);
      assert Get(bytes) == 256 * Get(front) + last as nat;
      assert Get(bytes) / 256 == Get(front) && Get(bytes) % 256 == last as nat;
      assert bytes == front + [last];
    }
  }

  lemma Widths()
    ensures Pow256(4) == 0x1_0000_0000 && Pow256(8) == 0x1_0000_0000_0000_0000
  {
  }

  // ---------------------------------------------------------------- specification

  /** The length field holds 32 bits, so a longer payload's length is cut. */
  function Encode(f: Frame): (bytes: seq<Byte>)
    ensures |bytes| == HEADER_SIZE + |f.payload|
  {
    Put(f.msgType, 4) + Put(f.sequence, 8) + Put(|f.payload| % 0x1_0000_0000, 4) + f.payload
  }

  function Header(data: seq<Byte>): (nat, nat, nat)
    requires |data| >= HEADER_SIZE
  {
    (Get(data[0..4]), Get(data[4..12]), Get(data[12..16]))
  }

  lemma HeaderFits(data: seq<Byte>)
    requires |data| >= HEADER_SIZE
    ensures Header(data).0 < 0x1_0000_0000 && Header(data).1 < 0x1_0000_0000_0000_0000
  {
    Widths();
    PutGet(data[0..4]);
    PutGet(data[4..12]);
  }

  function Decode(data: seq<Byte>): Result<Frame> {
    if |data| < HEADER_SIZE then Err(InvalidFrame)
    else
      var (msgType, sequence, payloadLen) := Header(data);
      HeaderFits(data);
      if payloadLen > MAX_PAYLOAD_LEN then Err(PayloadTooLarge)
      else if |data| < HEADER_SIZE + payloadLen then Err(InvalidFrame)
      else Ok(Frame(msgType, sequence, data[HEADER_SIZE..HEADER_SIZE + payloadLen]))
  }

  /** `io.ReadFull`: what is read and what is left; a failed read uses up the input. */
  function ReadFull(data: seq<Byte>, n: nat): (Result<seq<Byte>>, seq<Byte>) {
    if n <= |data| then (Ok(data[..n]), data[n..])
    else (Err(if data == [] then Eof else UnexpectedEof), [])
  }

  /** The one way to read `n` bytes: they and the rest make up the input. */
  lemma ReadFullSplits(data: seq<Byte>, n: nat, r: Result<seq<Byte>>, rest: seq<Byte>)
    requires r.Ok? <==> n <= |data|
    requires r.Ok? ==> |r.value| == n && data == r.value + rest
    requires r.Err? ==> rest == [] && (r.error == Eof <==> data == []) && (r.error == UnexpectedEof <==> data != [])
    ensures (r, rest) == ReadFull(data, n)
  {
  }

  function Read(data: seq<Byte>): (Result<Frame>, seq<Byte>) {
    var (header, rest) := ReadFull(data, HEADER_SIZE);
    if header.Err? then (Err(header.error), rest)
    else
      var (msgType, sequence, payloadLen) := Header(header.value);
      HeaderFits(header.value);
      if payloadLen > MAX_PAYLOAD_LEN then (Err(PayloadTooLarge), rest)
      else if payloadLen == 0 then (Ok(Frame(msgType, sequence, [])), rest)
      else
        var (payload, rest') := ReadFull(rest, payloadLen);
        if payload.Err? then (Err(payload.error), rest')
        else (Ok(Frame(msgType, sequence, payload.value)), rest')
  }

  // ---------------------------------------------------------------- decoding inverts encoding

  lemma HeaderOfEncode(f: Frame, rest: seq<Byte>)
    ensures Header(Encode(f) + rest) == (f.msgType, f.sequence, |f.payload| % 0x1_0000_0000)
  {
    Widths();
    var data := Encode(f) + rest;
    assert data[0..4] == Put(f.msgType, 4);
    assert data[4..12] == Put(f.sequence, 8);
    assert data[12..16] == Put(|f.payload| % 0x1_0000_0000, 4);
    GetPut(f.msgType, 4);
    GetPut(f.sequence, 8);
    GetPut(|f.payload| % 0x1_0000_0000, 4);
  }

  /** Decoding gives a frame exactly when the input starts with the frame's encoding and the payload is in bounds. */
  lemma DecodeIff(data: seq<Byte>, f: Frame)
    ensures Decode(data) == Ok(f) <==> |f.payload| <= MAX_PAYLOAD_LEN && Encode(f) <= data
  {
    if Decode(data) == Ok(f) {
      var n := Header(data).2;
      PutGet(data[0..4]);
      PutGet(data[4..12]);
      PutGet(data[12..16]);
      assert data[..HEADER_SIZE + n]
          == data[0..4] + data[4..12] + data[12..16] + data[HEADER_SIZE..HEADER_SIZE + n];
      assert Encode(f) == data[..HEADER_SIZE + n];
    }
    if |f.payload| <= MAX_PAYLOAD_LEN && Encode(f) <= data {
      var rest := data[|Encode(f)|..];
      assert data == Encode(f) + rest;
      HeaderOfEncode(f, rest);
      assert data[HEADER_SIZE..HEADER_SIZE + |f.payload|] == f.payload;
    }
  }

  /** Encode then decode is the identity exactly on payloads within the limit. */
  lemma RoundTripIff(f: Frame)
    ensures Decode(Encode(f)) == Ok(f) <==> |f.payload| <= MAX_PAYLOAD_LEN
  {
    DecodeIff(Encode(f), f);
  }

  /** `DecodeFrame` and `ReadFrame` accept the same inputs and give the same frame; the reader keeps the rest. */
  lemma ReadAgreesWithDecode(data: seq<Byte>)
    ensures Read(data).0.Ok? <==> Decode(data).Ok?
    ensures Read(data).0.Ok? ==> Read(data).0 == Decode(data) && data == Encode(Read(data).0.value) + Read(data).1
  {
    if |data| >= HEADER_SIZE {
      var header := data[..HEADER_SIZE];
      assert header[0..4] == data[0..4] && header[4..12] == data[4..12] && header[12..16] == data[12..16];
      var n := Header(data).2;
      if n <= MAX_PAYLOAD_LEN && |data| >= HEADER_SIZE + n {
        var f := Decode(data).value;
        DecodeIff(data, f);
        assert data[HEADER_SIZE..][..n] == f.payload;
        assert data == data[..HEADER_SIZE + n] + data[HEADER_SIZE + n..];
        assert data[HEADER_SIZE..][n..] == data[HEADER_SIZE + n..];
        assert Encode(f) == data[..HEADER_SIZE + n];
      }
    }
  }

  /** A frame is read off the front of a stream, and the rest of the stream is left. */
  lemma ReadOfEncode(f: Frame, rest: seq<Byte>)
    requires |f.payload| <= MAX_PAYLOAD_LEN
    ensures Read(Encode(f) + rest) == (Ok(f), rest)
  {
    var data := Encode(f) + rest;
    DecodeIff(data, f);
    ReadAgreesWithDecode(data);
    assert rest == data[|Encode(f)|..];
    assert Read(data).1 == data[|Encode(f)|..];
  }

  // ---------------------------------------------------------------- the bytes on the wire

  /** The four length bytes of a header, most significant first. */
  function LengthField(data: seq<Byte>): nat
    requires |data| >= 16
  {
    data[12] as nat * 0x100_0000 + data[13] as nat * 0x1_0000 + data[14] as nat * 0x100 + data[15] as nat
  }

  lemma GetFour(b: seq<Byte>)
    requires |b| == 4
    ensures Get(b) == b[0] as nat * 0x100_0000 + b[1] as nat * 0x1_0000 + b[2] as nat * 0x100 + b[3] as nat
  {
    assert b[..3][..2] == b[..2] && b[..2][..1] == b[..1] && b[..1][..0] == [];
    assert Get(b[..1]) == b[0] as nat;
    assert Get(b[..2]) == 256 * Get(b[..1]) + b[1] as nat;
    assert Get(b[..3]) == 256 * Get(b[..2]) + b[2] as nat;
  }

  lemma LengthOfHeader(data: seq<Byte>)
    requires |data| >= 16
    ensures Header(data).2 == LengthField(data)
  {
    GetFour(data[12..16]);
  }

  /** Which inputs `DecodeFrame` refuses, and how. */
  lemma DecodeErrors(data: seq<Byte>)
    ensures Decode(data) == Err(PayloadTooLarge) <==> |data| >= 16 && LengthField(data) > 0x10_0000
    ensures Decode(data) == Err(InvalidFrame) <==>
      |data| < 16 || (LengthField(data) <= 0x10_0000 && |data| < 16 + LengthField(data))
    ensures Decode(data).Err? ==> Decode(data).error in {PayloadTooLarge, InvalidFrame}
  {
    if |data| >= 16 { LengthOfHeader(data); }
  }

  /**
   * Which inputs `ReadFrame` refuses, and how: end of file where a header or a
   * payload should begin, unexpected end inside one, too large by the header alone.
   */
  lemma ReadErrors(data: seq<Byte>)
    ensures Read(data).0 == Err(PayloadTooLarge) <==> |data| >= 16 && LengthField(data) > 0x10_0000
    ensures Read(data).0 == Err(Eof) <==> |data| == 0 || (|data| == 16 && 0 < LengthField(data) <= 0x10_0000)
    ensures Read(data).0 == Err(UnexpectedEof) <==>
      0 < |data| < 16 || (|data| > 16 && LengthField(data) <= 0x10_0000 && |data| < 16 + LengthField(data))
    ensures Read(data).0 != Err(InvalidFrame)
    ensures Read(data).0.Err? ==> Read(data).1 == if |data| >= 16 && LengthField(data) > 0x10_0000 then data[16..] else []
  {
    if |data| >= 16 {
      LengthOfHeader(data[..16]);
      assert data[..16][12..16] == data[12..16];
    }
  }

  lemma {:induction false} PutByte(n: nat, width: nat, k: nat)
    requires k < width
    ensures Put(n, width)[k] as nat == n / Pow256(width - 1 - k) % 256
  {
    if k < width - 1 {
      PutByte(n / 256, width - 1, k);
      DivideTwice(n, Pow256(width - 2 - k));
    }
  }

  lemma DivideTwice(n: nat, d: nat)
    requires d > 0
    ensures n / 256 / d == n / (256 * d)
  {
    var q, r := n / 256 / d, n / 256 % d;
    assert n / 256 == q * d + r;
    assert n == 256 * (q * d + r) + n % 256;
    assert n == (256 * d) * q + (256 * r + n % 256) && 0 <= 256 * r + n % 256 < 256 * d;
    QuotientIs(n, 256 * d, q, 256 * r + n % 256);
  }

  lemma QuotientIs(n: nat, d: nat, q: nat, r: nat)
    requires r < d && n == d * q + r
    ensures n / d == q
  {
    assert d * (n / d) <= n < d * (n / d) + d;
    TimesKeepsOrder(d, n / d, q);
    TimesKeepsOrder(d, q, n / d);
  }

  lemma TimesKeepsOrder(d: nat, a: nat, b: nat)
    ensures a < b ==> d * (a + 1) <= d * b
  {
  }

  /** The byte at each position of an encoding. */
  lemma EncodingBytes(f: Frame, k: nat)
    requires k < |Encode(f)|
    ensures Encode(f)[k] as nat ==
      if k < 4 then f.msgType / Pow256(3 - k) % 256
      else if k < 12 then f.sequence / Pow256(11 - k) % 256
      else if k < 16 then |f.payload| % 0x1_0000_0000 / Pow256(15 - k) % 256
      else f.payload[k - 16] as nat
  {
    if k < 4 { PutByte(f.msgType, 4, k); }
    else if k < 12 { PutByte(f.sequence, 8, k - 4); }
    else if k < 16 { PutByte(|f.payload| % 0x1_0000_0000, 4, k - 12); }
  }

  // ---------------------------------------------------------------- streams of frames

  /** Reading frames until a read fails: the frames, and the input of the failing read. */
  function ReadAll(data: seq<Byte>): (seq<Frame>, seq<Byte>)
    decreases |data|
  {
    var (r, rest) := Read(data);
    ReadAgreesWithDecode(data);
    if r.Err? then ([], data)
    else
      var (frames, left) := ReadAll(rest);
      ([r.value] + frames, left)
  }

  function Encodings(frames: seq<Frame>): (encodings: seq<seq<Byte>>)
    ensures |encodings| == |frames|
  {
    seq(|frames|, i requires 0 <= i < |frames| => Encode(frames[i]))
  }

  ghost predicate InBounds(frames: seq<Frame>) {
    forall i :: 0 <= i < |frames| ==> |frames[i].payload| <= MAX_PAYLOAD_LEN
  }

  /** Reading back a packed batch gives exactly its frames, in order, with nothing left. */
  lemma {:induction false} PackedRoundTrip(frames: seq<Frame>)
    requires InBounds(frames)
    ensures ReadAll(Flatten(Encodings(frames))) == (frames, [])
    decreases |frames|
  {
    if frames == [] {
      assert Flatten(Encodings(frames)) == [];
    } else {
      var f, tail := frames[0], frames[1..];
      PackedRoundTrip(tail);
      assert Encodings(frames) == [Encode(f)] + Encodings(tail);
      FlattenCons(Encode(f), Encodings(tail));
      ReadOfEncode(f, Flatten(Encodings(tail)));
      assert frames == [f] + tail;
    }
  }

  /** Whatever the input, the frames read re-encode to the part of it that was consumed. */
  lemma {:induction false} ReadAllReencodes(data: seq<Byte>)
    ensures Flatten(Encodings(ReadAll(data).0)) + ReadAll(data).1 == data
    ensures InBounds(ReadAll(data).0) && Read(ReadAll(data).1).0.Err?
    decreases |data|
  {
    var (r, rest) := Read(data);
    ReadAgreesWithDecode(data);
    if r.Ok? {
      ReadAllReencodes(rest);
      DecodeIff(data, r.value);
      ReencodeCons(r.value, ReadAll(rest).0, ReadAll(rest).1, rest);
    } else {
      assert Flatten(Encodings([])) == [];
    }
  }

  lemma ReencodeCons(f: Frame, frames: seq<Frame>, left: seq<Byte>, rest: seq<Byte>)
    requires Flatten(Encodings(frames)) + left == rest
    ensures Flatten(Encodings([f] + frames)) + left == Encode(f) + rest
  {
    assert Encodings([f] + frames) == [Encode(f)] + Encodings(frames);
    FlattenCons(Encode(f), Encodings(frames));
  }

  // ---------------------------------------------------------------- the code

  /** `binary.BigEndian.PutUint32` and `PutUint64`: fills the buffer from the least significant byte. */
  method PutUint(buf: array<Byte>, at: nat, n: nat, width: nat)
    requires at + width <= buf.Length
    modifies buf
    ensures buf[..] == old(buf[..at]) + Put(n, width) + old(buf[at + width..])
  {
    var rest := n;
    var i := width;
    while i > 0
      invariant 0 <= i <= width
      invariant buf[..at] == old(buf[..at]) && buf[at + width..] == old(buf[at + width..])
      invariant Put(rest, i) + buf[at + i..at + width] == Put(n, width)
    {
      i := i - 1;
      buf[at + i] := (rest % 256) as Byte;
      rest := rest / 256;
      assert buf[at + i..at + width] == [buf[at + i]] + buf[at + i + 1..at + width];
    }
    assert buf[..] == buf[..at] + buf[at..at + width] + buf[at + width..];
  }

  /** Go's `copy` of a whole slice into the buffer. */
  method CopyInto(buf: array<Byte>, at: nat, bytes: seq<Byte>)
    requires at + |bytes| == buf.Length
    modifies buf
    ensures buf[..] == old(buf[..at]) + bytes
  {
    for i := 0 to |bytes|
      invariant buf[..at] == old(buf[..at])
      invariant buf[at..at + i] == bytes[..i]
    {
      buf[at + i] := bytes[i];
    }
    assert buf[..] == buf[..at] + buf[at..at + |bytes|];
  }

  method EncodeFrame(f: Frame) returns (buf: array<Byte>)
    ensures fresh(buf) && buf[..] == Encode(f)
  {
    var payloadLen := |f.payload|;
    buf := new Byte[HEADER_SIZE + payloadLen];
    PutUint(buf, 0, f.msgType, 4);
    ghost var header := Put(f.msgType, 4);
    assert buf[..4] == header;
    PutUint(buf, 4, f.sequence, 8);
    header := header + Put(f.sequence, 8);
    assert buf[..12] == header;
    PutUint(buf, 12, payloadLen % 0x1_0000_0000, 4);
    header := header + Put(payloadLen % 0x1_0000_0000, 4);
    assert buf[..16] == header;
    CopyInto(buf, HEADER_SIZE, f.payload);
  }

  /** An `io.Reader` over bytes still to be read. */
  class Reader {
    var rest: seq<Byte>

    constructor (data: seq<Byte>)
      ensures rest == data
    {
      rest := data;
    }

    /** Reads exactly `n` bytes off the front, or fails for lack of them and uses up the input. */
    method Full(n: nat) returns (r: Result<seq<Byte>>)
      modifies this
      ensures r.Ok? <==> n <= |old(rest)|
      ensures r.Ok? ==> |r.value| == n && old(rest) == r.value + rest
      ensures r.Err? ==> rest == [] && (r.error == Eof <==> old(rest) == []) && (r.error == UnexpectedEof <==> old(rest) != [])
    {
      if n <= |rest| {
        r, rest := Ok(rest[..n]), rest[n..];
      } else {
        r, rest := Err(if |rest| == 0 then Eof else UnexpectedEof), [];
      }
    }

    method ReadFrame() returns (r: Result<Frame>)
      modifies this
      ensures (r, rest) == Read(old(rest))
    {
      var header := Full(HEADER_SIZE);
      ReadFullSplits(old(rest), HEADER_SIZE, header, rest);
      if header.Err? { return Err(header.error); }
      var (msgType, sequence, payloadLen) := Header(header.value);
      HeaderFits(header.value);
      if payloadLen > MAX_PAYLOAD_LEN { return Err(PayloadTooLarge); }
      var payload := [];
      if payloadLen > 0 {
        ghost var before := rest;
        var read := Full(payloadLen);
        ReadFullSplits(before, payloadLen, read, rest);
        if read.Err? { return Err(read.error); }
        payload := read.value;
      }
      return Ok(Frame(msgType, sequence, payload));
    }
  }

  /** Concatenates the messages of a batch. */
  method PackMessages(messages: seq<seq<Byte>>) returns (packed: seq<Byte>)
    ensures packed == Flatten(messages)
  {
    packed := [];
    for i := 0 to |messages|
      invariant packed == Flatten(messages[..i])
    {
      assert messages[..i + 1] == messages[..i] + [messages[i]];
      FlattenSnoc(messages[..i], messages[i]);
      packed := packed + messages[i];
    }
    assert messages[..|messages|] == messages;
  }
}
