/** Port classification, derived from the router's port-forwarding table. */
module Ports {
  import opened Text

  datatype Severity = Low | Medium | High | Info

  /** Sensitive services: a case on one of these bypasses the burst buffer. */
  const HIGH_PORTS: set<int> := {22, 23, 3389, 5900, 5901, 5938, 4444, 8080, 8088, 8443, 9001}

  /** Services in use on this network: buffered, and merged if a flood occurs. */
  const MEDIUM_PORTS: set<int> :=
    {21, 25, 53, 80, 110, 143, 443, 445, 3306, 3724, 5432, 6379, 8085, 8096, 15636, 15637,
     24454, 25565, 2456, 2457, 2458, 27017}

  const KNOWN_PORTS: set<int> := HIGH_PORTS + MEDIUM_PORTS

  const EPHEMERAL_FROM := 32768

  /** The severity of a line for `dstPort`; None discards an ephemeral port. */
  function ClassifySeverity(dstPort: int): (severity: Option<Severity>)
    ensures severity != Some(Info)
  {
    if dstPort >= EPHEMERAL_FROM then None
    else if dstPort in HIGH_PORTS then Some(High)
    else if dstPort in MEDIUM_PORTS then Some(Medium)
    else Some(Low)
  }

  /** The severity of a merged burst: "info" unless a known port was targeted. */
  function BurstSeverity(ports: set<int>, highest: Severity): Severity {
    if exists p :: p in ports && p in KNOWN_PORTS then highest else Info
  }

  /** Rank used to find the highest severity of a batch; unknown labels rank zero. */
  function Rank(severity: Severity): nat {
    match severity
    case Low => 0
    case Medium => 1
    case High => 2
    case Info => 0
  }
}
