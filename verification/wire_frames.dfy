/**
 Frames on the control stream: a type byte, the payload length as a big-endian
 int64, the payload.
 */
module WireFrames {
  import opened Bytes
  import opened WireTypes

  const MAX_MSG_LENGTH: nat := 512 * 1024

  const TWO_63: nat := 0x8000_0000_0000_0000
  const TWO_64: nat := 0x1_0000_0000_0000_0000

  // ------------------------------------------------------------ big-endian int64

  /** The k low bytes of n, most significant first. */
  function BigEndian(n: nat, k: nat): (bytes: seq<byte>)
    ensures |bytes| == k
  {
    if k == 0 then [] else BigEndian(n / 256, k - 1) + [(n % 256) as byte]
  }

  function Unsigned(bytes: seq<byte>): nat {
    if bytes == [] then 0 else Unsigned(bytes[..|bytes| - 1]) * 256 + bytes[|bytes| - 1] as nat
  }

  /** Two's complement reading of eight bytes. */
  function Int64(bytes: seq<byte>): int {
    if Unsigned(bytes) >= TWO_63 then Unsigned(bytes) - TWO_64 else Unsigned(bytes)
  }

  function Power256(k: nat): (p: nat)
    ensures p > 0
  {
    if k == 0 then 1 else 256 * Power256(k - 1)
  }

  lemma Power256Of8()
    ensures Power256(8) == TWO_64
  {
    assert Power256(4) == 0x1_0000_0000;
    assert Power256(8) == 256 * 256 * 256 * 256 * Power256(4);
  }

  lemma {:induction false} UnsignedOfBigEndian(n: nat, k: nat)
    requires n < Power256(k)
    ensures Unsigned(BigEndian(n, k)) == n
  {
    if k > 0 {
      UnsignedOfBigEndian(n / 256, k - 1);
      assert BigEndian(n, k)[..k - 1] == BigEndian(n / 256, k - 1);
    }
  }

  lemma {:induction false} BigEndianOfUnsigned(bytes: seq<byte>)
    ensures BigEndian(Unsigned(bytes), |bytes|) == bytes
  {
    if bytes != [] {
      BigEndianOfUnsigned(bytes[..|bytes| - 1]);
      assert bytes == bytes[..|bytes| - 1] + [bytes[|bytes| - 1]];
    }
  }

  lemma {:induction false} UnsignedBound(bytes: seq<byte>)
    ensures Unsigned(bytes) < Power256(|bytes|)
  {
    if bytes != [] {
      UnsignedBound(bytes[..|bytes| - 1]);
    }
  }

  /** Byte i of k stands for 256 to the power k - 1 - i: the most significant byte comes first. */
  lemma {:induction false} BigEndianAt(n: nat, k: nat, i: nat)
    requires i < k
    ensures BigEndian(n, k)[i] as nat == (n / Power256(k - 1 - i)) % 256
  {
    if i < k - 1 {
      BigEndianAt(n / 256, k - 1, i);
      DivideTwice(n, Power256(k - 2 - i));
    }
  }

  lemma DivideTwice(n: nat, p: nat)
    requires p > 0
    ensures n / 256 / p == n / (256 * p)
  {
    var q := n / 256 / p;
    assert q * p <= n / 256 < (q + 1) * p;
    assert q * (256 * p) <= n < (q + 1) * (256 * p) by {
      assert 256 * (n / 256) <= n < 256 * (n / 256) + 256;
      assert 256 * (q * p) <= 256 * (n / 256) && n / 256 + 1 <= (q + 1) * p;
    }
    Quotient(n, 256 * p, q);
  }

  lemma Quotient(n: nat, d: nat, q: nat)
    requires d > 0 && q * d <= n < (q + 1) * d
    ensures n / d == q
  {
    var m := n / d;
    assert m * d <= n < (m + 1) * d;
    if m < q {
      Multiples(m + 1, q, d);
    } else if q < m {
      Multiples(q + 1, m, d);
    }
  }

  lemma Multiples(a: nat, b: nat, d: nat)
    requires a <= b
    ensures a * d <= b * d
  {
    assert b * d == a * d + (b - a) * d;
  }

  /** The length a reader sees in eight bytes, written out; from 128 on the first byte makes it negative. */
  lemma Int64Is(b: seq<byte>)
    requires |b| == 8
    ensures var unsigned :=
        b[0] as int * 0x100_0000_0000_0000 + b[1] as int * 0x1_0000_0000_0000
        + b[2] as int * 0x100_0000_0000 + b[3] as int * 0x1_0000_0000
        + b[4] as int * 0x100_0000 + b[5] as int * 0x1_0000
        + b[6] as int * 0x100 + b[7] as int;
      Int64(b) == if b[0] as int < 128 then unsigned else unsigned - 0x1_0000_0000_0000_0000
  {
    assert b[..8] == b;
    UnsignedPrefix(b, 7);
    UnsignedPrefix(b, 6);
    UnsignedPrefix(b, 5);
    UnsignedPrefix(b, 4);
    UnsignedPrefix(b, 3);
    UnsignedPrefix(b, 2);
    UnsignedPrefix(b, 1);
    UnsignedPrefix(b, 0);
    assert Unsigned(b[..0]) == 0;
  }

  lemma UnsignedPrefix(b: seq<byte>, n: nat)
    requires n < |b|
    ensures Unsigned(b[..n + 1]) == 256 * Unsigned(b[..n]) + b[n] as nat
  {
    assert b[..n + 1][..n] == b[..n];
  }

  lemma Int64RoundTrip(n: nat)
    requires n < TWO_63
    ensures Int64(BigEndian(n, 8)) == n
  {
    Power256Of8();
    UnsignedOfBigEndian(n, 8);
  }

  // ------------------------------------------------------------------------ frames

  /** A frame as written; writing checks no length. */
  function Encode(typeByte: byte, payload: seq<byte>): (frame: seq<byte>)
    ensures |frame| == 9 + |payload|
  {
    [typeByte] + BigEndian(|payload|, 8) + payload
  }

  datatype FrameError =
    | ReadTypeError
    | MsgTypeError
    | ReadLengthError
    | MaxMsgLengthError
    | MsgLengthError
    | ReadPayloadError

  /** The outcome of reading, with the bytes not consumed. */
  datatype FrameResult =
    | Frame(typeByte: byte, payload: seq<byte>, rest: seq<byte>)
    | Bad(error: FrameError, rest: seq<byte>)

  /** One frame from the front of a stream that ends with the bytes given. */
  function ReadFrame(bytes: seq<byte>): FrameResult {
    if |bytes| < 1 then Bad(ReadTypeError, [])
    else if !Known(bytes[0]) then Bad(MsgTypeError, bytes[1..])
    else if |bytes| < 9 then Bad(ReadLengthError, [])
    else
      var length := Int64(bytes[1..9]);
      if length > MAX_MSG_LENGTH then Bad(MaxMsgLengthError, bytes[9..])
      else if length < 0 then Bad(MsgLengthError, bytes[9..])
      else if |bytes| < 9 + length then Bad(ReadPayloadError, [])
      else Frame(bytes[0], bytes[9..9 + length], bytes[9 + length..])
  }

  lemma FrameParts(typeByte: byte, payload: seq<byte>, rest: seq<byte>)
    requires |payload| < TWO_63
    ensures var bytes := Encode(typeByte, payload) + rest;
      && bytes[0] == typeByte && |bytes| >= 9 && Int64(bytes[1..9]) == |payload|
      && bytes[9..9 + |payload|] == payload && bytes[9 + |payload|..] == rest && bytes[9..] == payload + rest
  {
    Int64RoundTrip(|payload|);
    assert (Encode(typeByte, payload) + rest)[1..9] == BigEndian(|payload|, 8);
  }

  /**
   Reading what was written: the frame and exactly the bytes after it, if and only
   if the payload is within the limit, which only the reader checks.
   */
  lemma ReadsWhatWasWritten(typeByte: byte, payload: seq<byte>, rest: seq<byte>)
    requires Known(typeByte) && |payload| < TWO_63
    ensures ReadFrame(Encode(typeByte, payload) + rest) == Frame(typeByte, payload, rest) <==>
      |payload| <= MAX_MSG_LENGTH
    ensures |payload| > MAX_MSG_LENGTH ==>
      ReadFrame(Encode(typeByte, payload) + rest) == Bad(MaxMsgLengthError, payload + rest)
  {
    FrameParts(typeByte, payload, rest);
  }

  /** Whatever is read as a frame is the written form of that frame. */
  lemma ReadOnlyWhatIsWritten(bytes: seq<byte>)
    requires ReadFrame(bytes).Frame?
    ensures var r := ReadFrame(bytes);
      Known(r.typeByte) && |r.payload| <= MAX_MSG_LENGTH && bytes == Encode(r.typeByte, r.payload) + r.rest
  {
    var r := ReadFrame(bytes);
    BigEndianOfUnsigned(bytes[1..9]);
    UnsignedBound(bytes[1..9]);
    Power256Of8();
    assert Unsigned(bytes[1..9]) == |r.payload|;
    assert bytes == [bytes[0]] + bytes[1..9] + bytes[9..9 + |r.payload|] + bytes[9 + |r.payload|..];
  }

  /** A stream cut inside a frame yields no message and is used up. */
  lemma CutFramesYieldNothing(typeByte: byte, payload: seq<byte>, cut: nat)
    requires Known(typeByte) && |payload| <= MAX_MSG_LENGTH && cut < |Encode(typeByte, payload)|
    ensures var r := ReadFrame(Encode(typeByte, payload)[..cut]);
      r.Bad? && r.rest == [] &&
      r.error == if cut < 1 then ReadTypeError else if cut < 9 then ReadLengthError else ReadPayloadError
  {
    var frame := Encode(typeByte, payload);
    FrameParts(typeByte, payload, []);
    assert frame + [] == frame;
    if cut >= 9 {
      assert frame[..cut][1..9] == frame[1..9];
    }
  }

  // ----------------------------------------------------------------------- streams

  function EncodeAll(frames: seq<(byte, seq<byte>)>): seq<byte> {
    if frames == [] then [] else Encode(frames[0].0, frames[0].1) + EncodeAll(frames[1..])
  }

  datatype StreamResult =
    | Frames(frames: seq<(byte, seq<byte>)>, rest: seq<byte>)
    | Stopped(frames: seq<(byte, seq<byte>)>, error: FrameError)

  /** n frames in a row, or those before the first that cannot be read. */
  function ReadAll(bytes: seq<byte>, n: nat): StreamResult {
    if n == 0 then Frames([], bytes)
    else
      match ReadFrame(bytes)
      case Bad(error, _) => Stopped([], error)
      case Frame(t, payload, rest) =>
        match ReadAll(rest, n - 1)
        case Frames(frames, left) => Frames([(t, payload)] + frames, left)
        case Stopped(frames, error) => Stopped([(t, payload)] + frames, error)
  }

  ghost predicate Sendable(frames: seq<(byte, seq<byte>)>) {
    forall i :: 0 <= i < |frames| ==> Known(frames[i].0) && |frames[i].1| <= MAX_MSG_LENGTH
  }

  /** The first of several frames is read, and then the others. */
  lemma ReadAllStep(frames: seq<(byte, seq<byte>)>, tail: seq<byte>, n: nat)
    requires Sendable(frames) && frames != [] && n > 0
    ensures ReadAll(EncodeAll(frames) + tail, n) ==
      match ReadAll(EncodeAll(frames[1..]) + tail, n - 1)
      case Frames(others, left) => Frames([frames[0]] + others, left)
      case Stopped(others, error) => Stopped([frames[0]] + others, error)
  {
    var later := EncodeAll(frames[1..]) + tail;
    assert EncodeAll(frames) + tail == Encode(frames[0].0, frames[0].1) + later;
    ReadsWhatWasWritten(frames[0].0, frames[0].1, later);
    assert (frames[0].0, frames[0].1) == frames[0];
  }

  /** A stream of frames is read back frame by frame, leaving what follows. */
  lemma {:induction false} StreamRoundTrip(frames: seq<(byte, seq<byte>)>, rest: seq<byte>)
    requires Sendable(frames)
    ensures ReadAll(EncodeAll(frames) + rest, |frames|) == Frames(frames, rest)
  {
    ReadsBack(frames, rest, |frames|);
  }

  lemma {:induction false} ReadsBack(frames: seq<(byte, seq<byte>)>, rest: seq<byte>, n: nat)
    requires Sendable(frames) && n == |frames|
    ensures YieldsAll(ReadAll(EncodeAll(frames) + rest, n), frames, rest)
  {
    if frames == [] {
      assert EncodeAll(frames) + rest == rest;
    } else {
      ReadsBack(frames[1..], rest, n - 1);
      ReadsOneMore(frames, rest, n);
    }
  }

  lemma ReadsOneMore(frames: seq<(byte, seq<byte>)>, rest: seq<byte>, n: nat)
    requires Sendable(frames) && frames != [] && n > 0
    requires YieldsAll(ReadAll(EncodeAll(frames[1..]) + rest, n - 1), frames[1..], rest)
    ensures YieldsAll(ReadAll(EncodeAll(frames) + rest, n), frames, rest)
  {
    ReadAllStep(frames, rest, n);
    assert [frames[0]] + frames[1..] == frames;
  }

  ghost predicate YieldsAll(r: StreamResult, frames: seq<(byte, seq<byte>)>, rest: seq<byte>) {
    r.Frames? && r.frames == frames && r.rest == rest
  }

  ghost predicate StopsAfter(r: StreamResult, frames: seq<(byte, seq<byte>)>) {
    r.Stopped? && r.frames == frames
  }

  /** A stream that ends inside a frame yields the frames before it and stops. */
  lemma {:induction false} CutStream(frames: seq<(byte, seq<byte>)>, typeByte: byte, payload: seq<byte>, cut: nat)
    requires Sendable(frames) && Known(typeByte) && |payload| <= MAX_MSG_LENGTH
    requires cut < |Encode(typeByte, payload)|
    ensures StopsAfter(ReadAll(EncodeAll(frames) + Encode(typeByte, payload)[..cut], |frames| + 1), frames)
  {
    CutFramesYieldNothing(typeByte, payload, cut);
    StopsInside(frames, Encode(typeByte, payload)[..cut]);
  }

  lemma {:induction false} StopsInside(frames: seq<(byte, seq<byte>)>, tail: seq<byte>)
    requires Sendable(frames) && ReadFrame(tail).Bad?
    ensures StopsAfter(ReadAll(EncodeAll(frames) + tail, |frames| + 1), frames)
  {
    if frames == [] {
      assert EncodeAll(frames) + tail == tail;
    } else {
      ReadAllStep(frames, tail, |frames| + 1);
      StopsInside(frames[1..], tail);
      assert [frames[0]] + frames[1..] == frames;
    }
  }

  /** Two lists of frames that are written alike are the same list. */
  lemma {:induction false} StreamsAreUnambiguous(frames: seq<(byte, seq<byte>)>, others: seq<(byte, seq<byte>)>)
    requires Sendable(frames) && Sendable(others) && EncodeAll(frames) == EncodeAll(others)
    ensures frames == others
  {
    if frames == [] || others == [] {
      assert frames == [] || |EncodeAll(frames)| >= 9;
      assert others == [] || |EncodeAll(others)| >= 9;
    } else {
      ReadsWhatWasWritten(frames[0].0, frames[0].1, EncodeAll(frames[1..]));
      ReadsWhatWasWritten(others[0].0, others[0].1, EncodeAll(others[1..]));
      StreamsAreUnambiguous(frames[1..], others[1..]);
      assert frames == [frames[0]] + frames[1..] && others == [others[0]] + others[1..];
    }
  }

  // ------------------------------------------------------------- payloads as values

  /** A value to send: nothing, or a payload of some type. */
  datatype Message<Body> = Nil | Msg(t: WireType, body: Body)

  /** The payload codec, which the framing does not look into. */
  datatype Codec<!Body> = Codec(
    marshal: Message<Body> -> seq<byte>,
    unmarshal: (WireType, seq<byte>) -> Parsed<Body>,
    zero: WireType -> Body)

  datatype Parsed<Body> = Parsed(body: Body) | Malformed(cause: string)

  /** Why a message was not read: its frame was not, or its payload does not parse. */
  datatype ReadError = BadFrame(error: FrameError) | BadPayload(name: string, cause: string)

  datatype Read<Body> = Value(message: Message<Body>) | NotRead(reason: ReadError)

  predicate Writable<Body>(m: Message<Body>) {
    m.Msg? && !m.t.Unregistered?
  }

  /**
   What decoding a payload yields: an empty payload is the zero value, and a
   failure names the message by the table of logical names.
   */
  function Decode<Body>(codec: Codec<Body>, typeByte: byte, payload: seq<byte>): Read<Body>
    requires Known(typeByte)
  {
    var t := TypeOf(typeByte);
    if payload == [] then Value(Msg(t, codec.zero(t)))
    else match codec.unmarshal(t, payload)
      case Parsed(body) => Value(Msg(t, body))
      case Malformed(cause) => NotRead(BadPayload(BYTE_TYPE_MAP[typeByte], cause))
  }

  function EncodeMessage<Body>(codec: Codec<Body>, m: Message<Body>): seq<byte>
    requires Writable(m)
  {
    Encode(ByteOf(m.t), codec.marshal(m))
  }

  /** The codec gives the message back and its text fits a frame. */
  ghost predicate Carries<Body(!new)>(codec: Codec<Body>, m: Message<Body>) {
    && Writable(m)
    && 0 < |codec.marshal(m)| <= MAX_MSG_LENGTH
    && codec.unmarshal(m.t, codec.marshal(m)) == Parsed(m.body)
  }

  lemma MessageRoundTrip<Body(!new)>(codec: Codec<Body>, m: Message<Body>, rest: seq<byte>)
    requires Carries(codec, m)
    ensures var r := ReadFrame(EncodeMessage(codec, m) + rest);
      r.Frame? && r.rest == rest && Known(r.typeByte) && Decode(codec, r.typeByte, r.payload) == Value(m)
  {
    TypesAndBytes(m.t);
    ReadsWhatWasWritten(ByteOf(m.t), codec.marshal(m), rest);
  }

  /** A frame is written as its type byte, eight bytes of length, most significant first, and the payload. */
  lemma EncodeExactly(typeByte: byte, payload: seq<byte>)
    requires |payload| < TWO_63
    ensures var frame := Encode(typeByte, payload);
      && |frame| == 9 + |payload| && frame[0] == typeByte && frame[9..] == payload
      && forall i :: 1 <= i < 9 ==> frame[i] as nat == (|payload| / Power256(8 - i)) % 256
  {
    forall i | 1 <= i < 9
      ensures Encode(typeByte, payload)[i] as nat == (|payload| / Power256(8 - i)) % 256
    {
      BigEndianAt(|payload|, 8, i - 1);
    }
  }

  /**
   What a payload decodes to, exactly: no bytes are the zero value, bytes that do
   not parse are never a message, and others are what they parse to.
   */
  lemma DecodeExactly<Body(!new)>(codec: Codec<Body>, typeByte: byte, payload: seq<byte>)
    requires Known(typeByte)
    ensures var r, t := Decode(codec, typeByte, payload), TypeOf(typeByte);
      && (r.Value? <==> |payload| == 0 || codec.unmarshal(t, payload).Parsed?)
      && (|payload| == 0 ==> r == Value(Msg(t, codec.zero(t))))
      && (|payload| > 0 && r.Value? ==> r.message == Msg(t, codec.unmarshal(t, payload).body))
      && (r.NotRead? ==> r.reason == BadPayload(MsgType(t), codec.unmarshal(t, payload).cause))
  {
    BytesAndTypes(typeByte);
  }

  /** What is no frame, by its first bytes: a type that is not known, or a length that is negative. */
  lemma RejectedHeads(bytes: seq<byte>)
    requires |bytes| >= 1
    ensures !Known(bytes[0]) ==> ReadFrame(bytes) == Bad(MsgTypeError, bytes[1..])
    ensures Known(bytes[0]) && |bytes| >= 9 && bytes[1] >= 128 ==> ReadFrame(bytes) == Bad(MsgLengthError, bytes[9..])
  {
    if |bytes| >= 9 {
      Int64Is(bytes[1..9]);
    }
  }
}
