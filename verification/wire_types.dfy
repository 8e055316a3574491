/**
 The types of control messages, the bytes that stand for them on the wire and
 their logical names.
 */
module WireTypes {
  import opened Bytes

  /** The payload types; `Unregistered` is any type the table does not know. */
  datatype WireType =
    | ClientHello
    | ServerHello
    | StartWorkConn
    | NewEndpoint
    | CloseEndpoint
    | EndpointHealth
    | DiscoverTools
    | DiscoverToolsResult
    | ExecPreflight
    | ExecPreflightResult
    | Preflight
    | PreflightResult
    | EndpointDiagnostic
    | Disconnect
    | Stop
    | Restart
    | Update
    | LifecycleResult
    | DataHello
    | DataHelloAck
    | Unregistered(name: string)

  const TYPE_CLIENT_HELLO: byte := 111 // 'o'
  const TYPE_SERVER_HELLO: byte := 49 // '1'
  const TYPE_START_WORK_CONN: byte := 115 // 's'
  const TYPE_NEW_ENDPOINT: byte := 51 // '3'
  const TYPE_CLOSE_ENDPOINT: byte := 101 // 'e'
  const TYPE_ENDPOINT_HEALTH: byte := 72 // 'H'
  const TYPE_DISCOVER_TOOLS: byte := 68 // 'D'
  const TYPE_DISCOVER_TOOLS_RESULT: byte := 70 // 'F'
  const TYPE_EXEC_PREFLIGHT: byte := 80 // 'P'
  const TYPE_EXEC_PREFLIGHT_RESULT: byte := 81 // 'Q'
  const TYPE_PREFLIGHT: byte := 82 // 'R'
  const TYPE_PREFLIGHT_RESULT: byte := 83 // 'S'
  const TYPE_ENDPOINT_DIAGNOSTIC: byte := 71 // 'G'
  const TYPE_DISCONNECT: byte := 100 // 'd'
  const TYPE_STOP: byte := 116 // 't'
  const TYPE_RESTART: byte := 120 // 'x'
  const TYPE_UPDATE: byte := 117 // 'u'
  const TYPE_LIFECYCLE_RESULT: byte := 76 // 'L'
  const TYPE_DATA_HELLO: byte := 97 // 'a'
  const TYPE_DATA_HELLO_ACK: byte := 65 // 'A'

  /** The logical name each payload type reports. */
  function MsgType(t: WireType): string {
    match t
    case ClientHello => "client_hello"
    case ServerHello => "server_hello"
    case StartWorkConn => "start_work_conn"
    case NewEndpoint => "new_endpoint"
    case CloseEndpoint => "close_endpoint"
    case EndpointHealth => "endpoint_health"
    case DiscoverTools => "discover_tools"
    case DiscoverToolsResult => "discover_tools_result"
    case ExecPreflight => "exec_preflight"
    case ExecPreflightResult => "exec_preflight_result"
    case Preflight => "preflight"
    case PreflightResult => "preflight_result"
    case EndpointDiagnostic => "endpoint_diagnostic"
    case Disconnect => "disconnect"
    case Stop => "stop"
    case Restart => "restart"
    case Update => "update"
    case LifecycleResult => "lifecycle_result"
    case DataHello => "data_hello"
    case DataHelloAck => "data_hello_ack"
    case Unregistered(name) => name
  }

  /** From type byte to logical name. */
  const BYTE_TYPE_MAP: map<byte, string> := map[
    TYPE_CLIENT_HELLO := "client_hello",
    TYPE_SERVER_HELLO := "server_hello",
    TYPE_START_WORK_CONN := "start_work_conn",
    TYPE_NEW_ENDPOINT := "new_endpoint",
    TYPE_CLOSE_ENDPOINT := "close_endpoint",
    TYPE_ENDPOINT_HEALTH := "endpoint_health",
    TYPE_DISCOVER_TOOLS := "discover_tools",
    TYPE_DISCOVER_TOOLS_RESULT := "discover_tools_result",
    TYPE_EXEC_PREFLIGHT := "exec_preflight",
    TYPE_EXEC_PREFLIGHT_RESULT := "exec_preflight_result",
    TYPE_PREFLIGHT := "preflight",
    TYPE_PREFLIGHT_RESULT := "preflight_result",
    TYPE_ENDPOINT_DIAGNOSTIC := "endpoint_diagnostic",
    TYPE_DISCONNECT := "disconnect",
    TYPE_STOP := "stop",
    TYPE_RESTART := "restart",
    TYPE_UPDATE := "update",
    TYPE_LIFECYCLE_RESULT := "lifecycle_result",
    TYPE_DATA_HELLO := "data_hello",
    TYPE_DATA_HELLO_ACK := "data_hello_ack"
  ]

  /** What the type byte of a payload type is meant to be. */
  function ByteOf(t: WireType): byte
    requires !t.Unregistered?
  {
    match t
    case ClientHello => TYPE_CLIENT_HELLO
    case ServerHello => TYPE_SERVER_HELLO
    case StartWorkConn => TYPE_START_WORK_CONN
    case NewEndpoint => TYPE_NEW_ENDPOINT
    case CloseEndpoint => TYPE_CLOSE_ENDPOINT
    case EndpointHealth => TYPE_ENDPOINT_HEALTH
    case DiscoverTools => TYPE_DISCOVER_TOOLS
    case DiscoverToolsResult => TYPE_DISCOVER_TOOLS_RESULT
    case ExecPreflight => TYPE_EXEC_PREFLIGHT
    case ExecPreflightResult => TYPE_EXEC_PREFLIGHT_RESULT
    case Preflight => TYPE_PREFLIGHT
    case PreflightResult => TYPE_PREFLIGHT_RESULT
    case EndpointDiagnostic => TYPE_ENDPOINT_DIAGNOSTIC
    case Disconnect => TYPE_DISCONNECT
    case Stop => TYPE_STOP
    case Restart => TYPE_RESTART
    case Update => TYPE_UPDATE
    case LifecycleResult => TYPE_LIFECYCLE_RESULT
    case DataHello => TYPE_DATA_HELLO
    case DataHelloAck => TYPE_DATA_HELLO_ACK
  }

  predicate Known(b: byte) {
    b in BYTE_TYPE_MAP
  }

  /** The inverse of ByteOf. */
  function TypeOf(b: byte): (t: WireType)
    requires Known(b)
  {
    if b == TYPE_CLIENT_HELLO then ClientHello
    else if b == TYPE_SERVER_HELLO then ServerHello
    else if b == TYPE_START_WORK_CONN then StartWorkConn
    else if b == TYPE_NEW_ENDPOINT then NewEndpoint
    else if b == TYPE_CLOSE_ENDPOINT then CloseEndpoint
    else if b == TYPE_ENDPOINT_HEALTH then EndpointHealth
    else if b == TYPE_DISCOVER_TOOLS then DiscoverTools
    else if b == TYPE_DISCOVER_TOOLS_RESULT then DiscoverToolsResult
    else if b == TYPE_EXEC_PREFLIGHT then ExecPreflight
    else if b == TYPE_EXEC_PREFLIGHT_RESULT then ExecPreflightResult
    else if b == TYPE_PREFLIGHT then Preflight
    else if b == TYPE_PREFLIGHT_RESULT then PreflightResult
    else if b == TYPE_ENDPOINT_DIAGNOSTIC then EndpointDiagnostic
    else if b == TYPE_DISCONNECT then Disconnect
    else if b == TYPE_STOP then Stop
    else if b == TYPE_RESTART then Restart
    else if b == TYPE_UPDATE then Update
    else if b == TYPE_LIFECYCLE_RESULT then LifecycleResult
    else if b == TYPE_DATA_HELLO then DataHello
    else DataHelloAck
  }

  /** Bytes, payload types and logical names stand in one-to-one correspondence. */
  lemma TypesAndBytes(t: WireType)
    requires !t.Unregistered?
    ensures Known(ByteOf(t)) && TypeOf(ByteOf(t)) == t
    ensures BYTE_TYPE_MAP[ByteOf(t)] == MsgType(t)
  {
    match t
    case ClientHello =>
    case ServerHello =>
    case StartWorkConn =>
    case NewEndpoint =>
    case CloseEndpoint =>
    case EndpointHealth =>
    case DiscoverTools =>
    case DiscoverToolsResult =>
    case ExecPreflight =>
    case ExecPreflightResult =>
    case Preflight =>
    case PreflightResult =>
    case EndpointDiagnostic =>
    case Disconnect =>
    case Stop =>
    case Restart =>
    case Update =>
    case LifecycleResult =>
    case DataHello =>
    case DataHelloAck =>
  }

  lemma BytesAndTypes(b: byte)
    requires Known(b)
    ensures !TypeOf(b).Unregistered? && ByteOf(TypeOf(b)) == b && BYTE_TYPE_MAP[b] == MsgType(TypeOf(b))
  {
  }

  /** Which payload type reports a name. */
  function TypeNamed(name: string): WireType {
    if name == "client_hello" then ClientHello
    else if name == "server_hello" then ServerHello
    else if name == "start_work_conn" then StartWorkConn
    else if name == "new_endpoint" then NewEndpoint
    else if name == "close_endpoint" then CloseEndpoint
    else if name == "endpoint_health" then EndpointHealth
    else if name == "discover_tools" then DiscoverTools
    else if name == "discover_tools_result" then DiscoverToolsResult
    else if name == "exec_preflight" then ExecPreflight
    else if name == "exec_preflight_result" then ExecPreflightResult
    else LaterTypeNamed(name)
  }

  function LaterTypeNamed(name: string): WireType {
    if name == "preflight" then Preflight
    else if name == "preflight_result" then PreflightResult
    else if name == "endpoint_diagnostic" then EndpointDiagnostic
    else if name == "disconnect" then Disconnect
    else if name == "stop" then Stop
    else if name == "restart" then Restart
    else if name == "update" then Update
    else if name == "lifecycle_result" then LifecycleResult
    else if name == "data_hello" then DataHello
    else if name == "data_hello_ack" then DataHelloAck
    else Unregistered(name)
  }

  /** No two registered types share a byte, and none share a logical name. */
  lemma NamesAreDistinct(t: WireType, u: WireType)
    requires !t.Unregistered? && !u.Unregistered?
    ensures ByteOf(t) == ByteOf(u) ==> t == u
    ensures MsgType(t) == MsgType(u) ==> t == u
  {
    TypesAndBytes(t);
    TypesAndBytes(u);
    NameDecides(t);
    NameDecides(u);
  }

  lemma NameDecides(t: WireType)
    requires !t.Unregistered?
    ensures TypeNamed(MsgType(t)) == t
  {
    match t
    case ClientHello | ServerHello | StartWorkConn | NewEndpoint | CloseEndpoint =>
    case EndpointHealth | DiscoverTools | DiscoverToolsResult | ExecPreflight | ExecPreflightResult =>
    case _ =>
      LaterNameDecides(t);
  }

  predicate Later(t: WireType) {
    t in {Preflight, PreflightResult, EndpointDiagnostic, Disconnect, Stop, Restart, Update, LifecycleResult,
          DataHello, DataHelloAck}
  }

  lemma LaterNameDecides(t: WireType)
    requires Later(t)
    ensures LaterTypeNamed(MsgType(t)) == t
    ensures TypeNamed(MsgType(t)) == LaterTypeNamed(MsgType(t))
  {
    match t
    case Preflight =>
    case PreflightResult =>
    case EndpointDiagnostic =>
    case Disconnect =>
    case Stop =>
    case Restart =>
    case Update =>
    case LifecycleResult =>
    case DataHello =>
    case DataHelloAck =>
  }
}
