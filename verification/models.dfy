/** The entities every crate shares: monitors, agents, check results and outcomes. */
module Models {

  const TWO_TO_63 := 0x8000_0000_0000_0000
  const TWO_TO_64 := 0x1_0000_0000_0000_0000

  /** Unsigned machine words, where the width matters (timestamps, intervals). */
  type u64 = n: int | 0 <= n < TWO_TO_64

  /** SQLite INTEGER columns. */
  type i64 = n: int | -TWO_TO_63 <= n < TWO_TO_63

  type Id = nat
  type AgentId = nat

  datatype Option<+T> = None | Some(value: T)
  datatype Result<+T, +E> = Ok(value: T) | Err(error: E)

  datatype MonitorKind = Http | Tcp | Icmp | K8sDeployment | K8sStatefulSet | K8sService | HostAgentCheck
  datatype MonitorStatus = Pending | Up | Down | Paused | Stale | Unknown

  const MIN_INTERVAL_SECS := 1
  const MAX_INTERVAL_SECS := 86_400

  predicate ValidInterval(secs: int) {
    MIN_INTERVAL_SECS <= secs <= MAX_INTERVAL_SECS
  }

  predicate IsNetwork(kind: MonitorKind) {
    kind.Http? || kind.Tcp? || kind.Icmp?
  }

  datatype Monitor = Monitor(
    id: Id, name: string, target: string, kind: MonitorKind,
    intervalSecs: u64, status: MonitorStatus, agentId: Option<AgentId>)

  datatype Agent = Agent(
    id: AgentId, name: string, lastHeartbeatAt: u64, scope: string, token: string, region: Option<string>)

  datatype CheckResult = CheckResult(
    monitorId: Id, checkedAt: u64, success: bool, latencyMs: u64, message: Option<string>)

  /** What running one probe reports; `Unavailable` is a failure on our own side. */
  datatype ProbeOutcome =
    | Success(latencyMs: u64)
    | Failure(message: string)
    | Unavailable(message: string)

  /** What polling one Kubernetes resource reports. */
  datatype CollectorStatus =
    | Healthy
    | Unhealthy(reason: string)
    | UnknownState(reason: string)

  datatype AlertRequest = AlertRequest(monitorId: Id, monitorName: string, transitionedTo: MonitorStatus)

  datatype Assignment = Assignment(monitorId: Id, target: string, kind: MonitorKind)
}
