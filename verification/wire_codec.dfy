/**
 The mapper that registers the type table, and reads and writes frames on a
 stream.
 */
module WireCodecs {
  import opened Bytes
  import opened WireTypes
  import opened WireFrames

  /** What a stream still has to give. */
  class Stream {
    var rest: seq<byte>

    constructor (bytes: seq<byte>)
      ensures rest == bytes
    {
      rest := bytes;
    }

    /** Fills n bytes or, at the end of the stream, uses it up. */
    method ReadFull(n: nat) returns (ok: bool, bytes: seq<byte>)
      modifies this
      ensures ok <==> |old(rest)| >= n
      ensures ok ==> bytes == old(rest)[..n] && rest == old(rest)[n..]
      ensures !ok ==> bytes == [] && rest == []
    {
      if |rest| < n {
        rest := [];
        return false, [];
      }
      bytes := rest[..n];
      rest := rest[n..];
      ok := true;
    }

    method Append(bytes: seq<byte>)
      modifies this
      ensures rest == old(rest) + bytes
    {
      rest := rest + bytes;
    }
  }

  /** The payload types in the order they are registered. */
  ghost const ALL_TYPES: seq<WireType> := [
    ClientHello,
    ServerHello,
    StartWorkConn,
    NewEndpoint,
    CloseEndpoint,
    EndpointHealth,
    DiscoverTools,
    DiscoverToolsResult,
    ExecPreflight,
    ExecPreflightResult,
    Preflight,
    PreflightResult,
    EndpointDiagnostic,
    Disconnect,
    Stop,
    Restart,
    Update,
    LifecycleResult,
    DataHello,
    DataHelloAck
  ]

  lemma AllTypesAreRegistered(i: nat)
    requires i < |ALL_TYPES|
    ensures !ALL_TYPES[i].Unregistered?
  {
  }

  ghost function ByteAt(i: nat): byte
    requires i < |ALL_TYPES|
  {
    AllTypesAreRegistered(i);
    ByteOf(ALL_TYPES[i])
  }

  /** The two tables after the first k registrations. */
  ghost function TypesUpTo(k: nat): map<byte, WireType>
    requires k <= |ALL_TYPES|
  {
    if k == 0 then map[] else TypesUpTo(k - 1)[ByteAt(k - 1) := ALL_TYPES[k - 1]]
  }

  ghost function BytesUpTo(k: nat): map<WireType, byte>
    requires k <= |ALL_TYPES|
  {
    if k == 0 then map[] else BytesUpTo(k - 1)[ALL_TYPES[k - 1] := ByteAt(k - 1)]
  }

  lemma {:induction false} TypesUpToIs(k: nat, b: byte)
    requires k <= |ALL_TYPES| && b in TypesUpTo(k)
    ensures Known(b) && TypesUpTo(k)[b] == TypeOf(b)
  {
    AllTypesAreRegistered(k - 1);
    TypesAndBytes(ALL_TYPES[k - 1]);
    if b != ByteAt(k - 1) {
      TypesUpToIs(k - 1, b);
    }
  }

  lemma {:induction false} BytesUpToIs(k: nat, t: WireType)
    requires k <= |ALL_TYPES| && t in BytesUpTo(k)
    ensures !t.Unregistered? && BytesUpTo(k)[t] == ByteOf(t)
  {
    AllTypesAreRegistered(k - 1);
    if t != ALL_TYPES[k - 1] {
      BytesUpToIs(k - 1, t);
    }
  }

  lemma {:induction false} TablesHold(k: nat, i: nat)
    requires i < k <= |ALL_TYPES|
    ensures ALL_TYPES[i] in BytesUpTo(k) && ByteAt(i) in TypesUpTo(k)
  {
    if i < k - 1 {
      TablesHold(k - 1, i);
    }
  }

  ghost function Position(t: WireType): (i: nat)
    requires !t.Unregistered?
    ensures i < |ALL_TYPES| && ALL_TYPES[i] == t
  {
    match t
    case ClientHello => 0
    case ServerHello => 1
    case StartWorkConn => 2
    case NewEndpoint => 3
    case CloseEndpoint => 4
    case EndpointHealth => 5
    case DiscoverTools => 6
    case DiscoverToolsResult => 7
    case ExecPreflight => 8
    case ExecPreflightResult => 9
    case Preflight => 10
    case PreflightResult => 11
    case EndpointDiagnostic => 12
    case Disconnect => 13
    case Stop => 14
    case Restart => 15
    case Update => 16
    case LifecycleResult => 17
    case DataHello => 18
    case DataHelloAck => 19
  }

  class MsgTransportMapper {
    var typeMap: map<byte, WireType>
    var typeByteMap: map<WireType, byte>

    /** Every entry so far pairs a type with its own byte. */
    ghost predicate Paired()
      reads this
    {
      && (forall b :: b in typeMap ==> Known(b) && typeMap[b] == TypeOf(b))
      && (forall t :: t in typeByteMap ==> !t.Unregistered? && typeByteMap[t] == ByteOf(t))
    }

    /** Every type is registered, in both tables, so they are inverse to each other. */
    ghost predicate Complete()
      reads this
    {
      && Paired()
      && (forall t: WireType :: t in typeByteMap <==> !t.Unregistered?)
      && (forall b: byte :: b in typeMap <==> Known(b))
    }

    constructor ()
      ensures Complete()
    {
      typeMap, typeByteMap := map[], map[];
      new;
      RegisterAll();
      RegisteredIsComplete();
    }

    method RegisterMsg(typeByte: byte, t: WireType)
      modifies this
      ensures typeMap == old(typeMap)[typeByte := t]
      ensures typeByteMap == old(typeByteMap)[t := typeByte]
    {
      typeMap := typeMap[typeByte := t];
      typeByteMap := typeByteMap[t := typeByte];
    }

    /** The first k registrations of RegisterAll are done and no other. */
    ghost predicate Registered(k: nat)
      reads this
    {
      k <= |ALL_TYPES| && typeMap == TypesUpTo(k) && typeByteMap == BytesUpTo(k)
    }

    /** The next registration of RegisterAll. */
    method RegisterNext(ghost k: nat, typeByte: byte, t: WireType) returns (ghost next: nat)
      requires Registered(k) && k < |ALL_TYPES| && ALL_TYPES[k] == t && ByteOf(t) == typeByte
      modifies this
      ensures Registered(next) && next == k + 1
    {
      RegisterMsg(typeByte, t);
      next := k + 1;
    }

    method RegisterAll()
      requires typeMap == map[] && typeByteMap == map[]
      modifies this
      ensures Registered(|ALL_TYPES|)
    {
      ghost var k := RegisterFirst(0);
      k := RegisterSecond(k);
      k := RegisterThird(k);
      k := RegisterFourth(k);
      k := RegisterFifth(k);
    }

    method RegisterFirst(ghost start: nat) returns (ghost next: nat)
      requires Registered(start) && start == 0
      modifies this
      ensures Registered(next) && next == 4
    {
      next := RegisterNext(start, TYPE_CLIENT_HELLO, ClientHello);
      next := RegisterNext(next, TYPE_SERVER_HELLO, ServerHello);
      next := RegisterNext(next, TYPE_START_WORK_CONN, StartWorkConn);
      next := RegisterNext(next, TYPE_NEW_ENDPOINT, NewEndpoint);
    }

    method RegisterSecond(ghost start: nat) returns (ghost next: nat)
      requires Registered(start) && start == 4
      modifies this
      ensures Registered(next) && next == 8
    {
      next := RegisterNext(start, TYPE_CLOSE_ENDPOINT, CloseEndpoint);
      next := RegisterNext(next, TYPE_ENDPOINT_HEALTH, EndpointHealth);
      next := RegisterNext(next, TYPE_DISCOVER_TOOLS, DiscoverTools);
      next := RegisterNext(next, TYPE_DISCOVER_TOOLS_RESULT, DiscoverToolsResult);
    }

    method RegisterThird(ghost start: nat) returns (ghost next: nat)
      requires Registered(start) && start == 8
      modifies this
      ensures Registered(next) && next == 12
    {
      next := RegisterNext(start, TYPE_EXEC_PREFLIGHT, ExecPreflight);
      next := RegisterNext(next, TYPE_EXEC_PREFLIGHT_RESULT, ExecPreflightResult);
      next := RegisterNext(next, TYPE_PREFLIGHT, Preflight);
      next := RegisterNext(next, TYPE_PREFLIGHT_RESULT, PreflightResult);
    }

    method RegisterFourth(ghost start: nat) returns (ghost next: nat)
      requires Registered(start) && start == 12
      modifies this
      ensures Registered(next) && next == 16
    {
      next := RegisterNext(start, TYPE_ENDPOINT_DIAGNOSTIC, EndpointDiagnostic);
      next := RegisterNext(next, TYPE_DISCONNECT, Disconnect);
      next := RegisterNext(next, TYPE_STOP, Stop);
      next := RegisterNext(next, TYPE_RESTART, Restart);
    }

    method RegisterFifth(ghost start: nat) returns (ghost next: nat)
      requires Registered(start) && start == 16
      modifies this
      ensures Registered(next) && next == 20
    {
      next := RegisterNext(start, TYPE_UPDATE, Update);
      next := RegisterNext(next, TYPE_LIFECYCLE_RESULT, LifecycleResult);
      next := RegisterNext(next, TYPE_DATA_HELLO, DataHello);
      next := RegisterNext(next, TYPE_DATA_HELLO_ACK, DataHelloAck);
    }

    lemma RegisteredIsComplete()
      requires Registered(|ALL_TYPES|)
      ensures Complete()
    {
      forall b | b in typeMap
        ensures Known(b) && typeMap[b] == TypeOf(b)
      {
        TypesUpToIs(|ALL_TYPES|, b);
      }
      forall t | t in typeByteMap
        ensures !t.Unregistered? && typeByteMap[t] == ByteOf(t)
      {
        BytesUpToIs(|ALL_TYPES|, t);
      }
      forall t: WireType | !t.Unregistered?
        ensures t in typeByteMap && ByteOf(t) in typeMap
      {
        TablesHold(|ALL_TYPES|, Position(t));
      }
      forall b: byte | Known(b)
        ensures b in typeMap
      {
        BytesAndTypes(b);
      }
    }

    /** One frame from the stream; the bytes not consumed stay on it. */
    method ReadFrame(r: Stream) returns (result: FrameResult)
      requires Complete()
      modifies r
      ensures result == WireFrames.ReadFrame(old(r.rest)) && r.rest == result.rest
    {
      var ok, head := r.ReadFull(1);
      if !ok {
        return Bad(ReadTypeError, r.rest);
      }
      var typeByte := head[0];
      if typeByte !in typeMap {
        return Bad(MsgTypeError, r.rest);
      }
      var lengthBytes: seq<byte>;
      ok, lengthBytes := r.ReadFull(8);
      if !ok {
        return Bad(ReadLengthError, r.rest);
      }
      assert lengthBytes == old(r.rest)[1..9] && r.rest == old(r.rest)[9..];
      var length := Int64(lengthBytes);
      if length > MAX_MSG_LENGTH {
        return Bad(MaxMsgLengthError, r.rest);
      }
      if length < 0 {
        return Bad(MsgLengthError, r.rest);
      }
      var payload: seq<byte>;
      ok, payload := r.ReadFull(length);
      if !ok {
        return Bad(ReadPayloadError, r.rest);
      }
      assert payload == old(r.rest)[9..9 + length] && r.rest == old(r.rest)[9 + length..];
      result := Frame(typeByte, payload, r.rest);
    }

    /** Read and decode one message. */
    method Read<Body>(r: Stream, codec: Codec<Body>) returns (message: Read<Body>)
      requires Complete()
      modifies r
      ensures var f := WireFrames.ReadFrame(old(r.rest));
        && r.rest == f.rest
        && message == if f.Frame? then Decode(codec, f.typeByte, f.payload) else NotRead(BadFrame(f.error))
    {
      var f := ReadFrame(r);
      if f.Bad? {
        return NotRead(BadFrame(f.error));
      }
      var t := typeMap[f.typeByte];
      if |f.payload| == 0 {
        return Value(Msg(t, codec.zero(t)));
      }
      match codec.unmarshal(t, f.payload)
      case Parsed(body) =>
        message := Value(Msg(t, body));
      case Malformed(cause) =>
        message := NotRead(BadPayload(BYTE_TYPE_MAP[f.typeByte], cause));
    }

    /** Encode and write one message; nothing is written for one without a type byte. */
    method Write<Body>(w: Stream, codec: Codec<Body>, m: Message<Body>) returns (ok: bool)
      requires Complete()
      modifies w
      ensures ok <==> m.Msg? && !m.t.Unregistered?
      ensures w.rest == if ok then old(w.rest) + EncodeMessage(codec, m) else old(w.rest)
    {
      if m.Nil? || m.t !in typeByteMap {
        return false;
      }
      var content := codec.marshal(m);
      w.Append([typeByteMap[m.t]] + BigEndian(|content|, 8) + content);
      ok := true;
    }
  }
}
