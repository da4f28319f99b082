/** Enum spellings in TEXT columns, and how a stored row is read back as a monitor. */
module Codec {
  import opened Models

  /** A TEXT column seen through the codec: a known spelling, or text nobody wrote on purpose. */
  datatype Cell<+T> = Known(value: T) | Unrecognized(text: string)

  datatype StoreError = CorruptRow | NotFound | QueryFailed

  datatype MonitorRow = MonitorRow(
    name: string, target: string, kind: Cell<MonitorKind>,
    intervalSecs: i64, status: Cell<MonitorStatus>, agentId: Option<AgentId>)

  function KindText(kind: MonitorKind): string {
    match kind
    case Http => "http"
    case Tcp => "tcp"
    case Icmp => "icmp"
    case K8sDeployment => "k8s_deployment"
    case K8sStatefulSet => "k8s_stateful_set"
    case K8sService => "k8s_service"
    case HostAgentCheck => "host_agent_check"
  }

  function DecodeKind(text: string): Cell<MonitorKind> {
    if text == "http" then Known(Http)
    else if text == "tcp" then Known(Tcp)
    else if text == "icmp" then Known(Icmp)
    else if text == "k8s_deployment" then Known(K8sDeployment)
    else if text == "k8s_stateful_set" then Known(K8sStatefulSet)
    else if text == "k8s_service" then Known(K8sService)
    else if text == "host_agent_check" then Known(HostAgentCheck)
    else Unrecognized(text)
  }

  function StatusText(status: MonitorStatus): string {
    match status
    case Pending => "pending"
    case Up => "up"
    case Down => "down"
    case Paused => "paused"
    case Stale => "stale"
    case Unknown => "unknown"
  }

  function DecodeStatus(text: string): Cell<MonitorStatus> {
    if text == "pending" then Known(Pending)
    else if text == "up" then Known(Up)
    else if text == "down" then Known(Down)
    else if text == "paused" then Known(Paused)
    else if text == "stale" then Known(Stale)
    else if text == "unknown" then Known(Unknown)
    else Unrecognized(text)
  }

  /** Decoding is a bijection between texts and well-formed cells, so rows may hold cells. */
  lemma TextCellsAreFaithful(text: string, kind: MonitorKind, status: MonitorStatus)
    ensures DecodeKind(KindText(kind)) == Known(kind)
    ensures DecodeStatus(StatusText(status)) == Known(status)
    ensures DecodeKind(text).Known? ==> KindText(DecodeKind(text).value) == text
    ensures DecodeStatus(text).Known? ==> StatusText(DecodeStatus(text).value) == text
  {
  }

  /** A negative stored interval is a legacy overflow; it reads as the sentinel zero. */
  function ReadInterval(stored: i64): u64 {
    if stored < 0 then 0 else stored
  }

  /** A row with an invalid interval is quarantined: its stored status is masked as `Unknown`. */
  function ReadMonitor(id: Id, row: MonitorRow): Result<Monitor, StoreError>
  {
    if row.kind.Unrecognized? then Err(CorruptRow)
    else if !ValidInterval(ReadInterval(row.intervalSecs)) then
      Ok(Monitor(id, row.name, row.target, row.kind.value, ReadInterval(row.intervalSecs), Unknown, row.agentId))
    else if row.status.Unrecognized? then Err(CorruptRow)
    else
      Ok(Monitor(id, row.name, row.target, row.kind.value, ReadInterval(row.intervalSecs), row.status.value,
                 row.agentId))
  }

  /** How a valid monitor is written. */
  function WriteMonitor(m: Monitor): MonitorRow
    requires ValidInterval(m.intervalSecs)
  {
    MonitorRow(m.name, m.target, Known(m.kind), m.intervalSecs, Known(m.status), m.agentId)
  }
}
