/** The named detection rules and their first-match cascade. */
module Rules {
  import opened Text
  import opened Seqs
  import opened Clusters

  datatype RuleType =
    | Unset  // what a case row read back from the database carries
    | GenericScan
    | InboundScan
    | PortScanning
    | RepeatedDropping
    | NewDeviceSeen
    | Suppressed

  /** Looks up the ASN of an address, if it is known. */
  type AsnLookup = string -> Option<string>

  datatype Rule =
    | CloudSuppress(lookup: Option<AsnLookup>)
    | ExternalScan(minPorts: int)
    | PortScan(minPorts: int)
    | RepeatedDrop(minDrops: int)
    | NewDevice

  const KNOWN_CLOUD_ASNS: set<string> :=
    {"AS8075", "AS8069", "AS8070", "AS8071", "AS8072", "AS8073", "AS8074", "AS3598", "AS15169", "AS396982",
     "AS16509", "AS14618", "AS13335", "AS20940", "AS16625", "AS21342", "AS32934", "AS714", "AS6185", "AS54113"}

  const WELL_KNOWN_GATEWAY_PORTS: set<int> := {22, 53, 80, 443, 8080, 8443, 123, 0}

  const LOCAL_PREFIXES: seq<string> :=
    ["10.",
     "172.16.", "172.17.", "172.18.", "172.19.", "172.20.", "172.21.", "172.22.", "172.23.",
     "172.24.", "172.25.", "172.26.", "172.27.", "172.28.", "172.29.", "172.30.", "172.31.",
     "192.168.", "127.", "169.254.", "0.0.0.0", "::1"]

  const SCAN_EVENT_TYPES: set<string> :=
    {"netfilter_drop", "netfilter_reject", "ids_alert", "suricata_alert", "blocked", "conn_attempt", "tcp_syn",
     "firewall_drop", "firewall_block", "portscan_detected", "wan_new_connection", "wan_forward"}

  const DROP_EVENT_TYPES: set<string> :=
    {"netfilter_drop", "netfilter_reject", "ids_alert", "blocked", "firewall_drop", "firewall_block"}

  const NEW_DEVICE_EVENT_TYPES: set<string> := {"dhcp_dhcpack", "wifi_associated", "wifi_authenticated"}

  /** Classification by text prefix. */
  predicate IsExternal(ip: string) {
    ip != "" && !exists prefix :: prefix in LOCAL_PREFIXES && HasPrefix(ip, prefix)
  }

  predicate IsGatewayIP(ip: string) {
    ip != "" && (HasSuffix(ip, ".1") || HasSuffix(ip, ".254"))
  }

  predicate AllEventsToGateway(es: seq<Event>) {
    es != [] && forall e <- es :: IsGatewayIP(e.dstIP) && e.dstPort in WELL_KNOWN_GATEWAY_PORTS
  }

  predicate IsSingleEventWANProbe(es: seq<Event>) {
    |es| == 1 && IsGatewayIP(es[0].dstIP) && es[0].dstPort in WELL_KNOWN_GATEWAY_PORTS
  }

  // ----- the rules one by one

  function EvalCloudSuppress(lookup: Option<AsnLookup>, cl: Profile): Option<RuleType> {
    if !IsExternal(cl.srcIP) || !AllEventsToGateway(cl.events) then None
    else
      match lookup
      case Some(f) =>
        var asn := f(cl.srcIP);
        if asn.Some? && asn.value in KNOWN_CLOUD_ASNS then Some(Suppressed) else None
      case None => if |cl.events| == 1 && IsSingleEventWANProbe(cl.events) then Some(Suppressed) else None
  }

  predicate HasScanEvent(es: seq<Event>) {
    exists e :: e in es && e.eventType in SCAN_EVENT_TYPES
  }

  /** Fires on any scan event of an external source; the ports found do not decide anything. */
  method EvalExternalScan(minPorts: int, cl: Profile) returns (m: Option<RuleType>)
    ensures m == if IsExternal(cl.srcIP) && HasScanEvent(cl.events) then Some(InboundScan) else None
  {
    if !IsExternal(cl.srcIP) {
      return None;
    }
    var min := if minPorts == 0 then 1 else minPorts;
    var scanEvents: nat := 0;
    var scanPorts: set<int> := {};
    for i := 0 to |cl.events|
      invariant scanEvents > 0 <==> HasScanEvent(cl.events[..i])
    {
      var e := cl.events[i];
      assert cl.events[..i + 1] == cl.events[..i] + [e];
      if e.eventType in SCAN_EVENT_TYPES {
        scanEvents := scanEvents + 1;
        if e.dstPort > 0 {
          scanPorts := scanPorts + {e.dstPort};
        }
      }
    }
    assert cl.events[..|cl.events|] == cl.events;
    for i := 0 to |cl.events| {
      if cl.events[i].dstPort > 0 {
        scanPorts := scanPorts + {cl.events[i].dstPort};
      }
    }
    if scanEvents == 0 {
      return None;
    }
    if |scanPorts| < min {
      if scanEvents == 0 {
        return None;
      }
    }
    return Some(InboundScan);
  }

  function EvalPortScan(minPorts: int, cl: Profile): Option<RuleType> {
    var min := if minPorts == 0 then 5 else minPorts;
    if !IsExternal(cl.srcIP) && |cl.ports| >= min then Some(PortScanning) else None
  }

  function Drops(es: seq<Event>): seq<Event> {
    Filter(es, (e: Event) => e.eventType in DROP_EVENT_TYPES)
  }

  method EvalRepeatedDrop(minDrops: int, cl: Profile) returns (m: Option<RuleType>)
    ensures m == if |Drops(cl.events)| >= (if minDrops == 0 then 3 else minDrops) then Some(RepeatedDropping) else None
  {
    var min := if minDrops == 0 then 3 else minDrops;
    var drops := 0;
    for i := 0 to |cl.events|
      invariant drops == |Drops(cl.events[..i])|
    {
      assert cl.events[..i + 1][..i] == cl.events[..i];
      if cl.events[i].eventType in DROP_EVENT_TYPES {
        drops := drops + 1;
      }
    }
    assert cl.events[..|cl.events|] == cl.events;
    return if drops >= min then Some(RepeatedDropping) else None;
  }

  predicate HasNewDeviceEvent(es: seq<Event>) {
    exists e :: e in es && e.eventType in NEW_DEVICE_EVENT_TYPES
  }

  function EvalNewDevice(cl: Profile): Option<RuleType> {
    if !IsExternal(cl.srcIP) && HasNewDeviceEvent(cl.events) then Some(NewDeviceSeen) else None
  }

  // ----- the cascade

  /** Whether and as what a rule matches. */
  function Matches(rule: Rule, cl: Profile): Option<RuleType> {
    match rule
    case CloudSuppress(lookup) => EvalCloudSuppress(lookup, cl)
    case ExternalScan(_) => if IsExternal(cl.srcIP) && HasScanEvent(cl.events) then Some(InboundScan) else None
    case PortScan(minPorts) => EvalPortScan(minPorts, cl)
    case RepeatedDrop(minDrops) =>
      if |Drops(cl.events)| >= (if minDrops == 0 then 3 else minDrops) then Some(RepeatedDropping) else None
    case NewDevice => EvalNewDevice(cl)
  }

  method Eval(rule: Rule, cl: Profile) returns (m: Option<RuleType>)
    ensures m == Matches(rule, cl)
  {
    match rule
    case CloudSuppress(lookup) => m := EvalCloudSuppress(lookup, cl);
    case ExternalScan(minPorts) => m := EvalExternalScan(minPorts, cl);
    case PortScan(minPorts) => m := EvalPortScan(minPorts, cl);
    case RepeatedDrop(minDrops) => m := EvalRepeatedDrop(minDrops, cl);
    case NewDevice => m := EvalNewDevice(cl);
  }

  /** The first rule that matches decides; no match is a generic scan. */
  ghost predicate Decides(rules: seq<Rule>, cl: Profile, verdict: RuleType) {
    || (verdict == GenericScan && forall rule <- rules :: Matches(rule, cl) == None)
    || (exists i :: 0 <= i < |rules| && Matches(rules[i], cl) == Some(verdict)
                    && forall j :: 0 <= j < i ==> Matches(rules[j], cl) == None)
  }

  function Verdict(rules: seq<Rule>, cl: Profile): RuleType {
    if rules == [] then GenericScan
    else
      match Matches(rules[0], cl)
      case Some(t) => t
      case None => Verdict(rules[1..], cl)
  }

  lemma {:induction false} VerdictDecides(rules: seq<Rule>, cl: Profile)
    ensures Decides(rules, cl, Verdict(rules, cl))
  {
    if rules != [] && Matches(rules[0], cl) == None {
      var rest, t := rules[1..], Verdict(rules[1..], cl);
      VerdictDecides(rest, cl);
      assert rules == [rules[0]] + rest;
      if i :| 0 <= i < |rest| && Matches(rest[i], cl) == Some(t) && forall j :: 0 <= j < i ==> Matches(rest[j], cl) == None {
        assert Matches(rules[i + 1], cl) == Some(t);
        assert forall j :: 1 <= j < i + 1 ==> rules[j] == rest[j - 1];
      }
    }
  }

  /** At most one verdict is decided. */
  lemma DecidesOnce(rules: seq<Rule>, cl: Profile, t: RuleType, t': RuleType)
    requires Decides(rules, cl, t) && Decides(rules, cl, t')
    ensures t == t'
  {
  }

  /** The default rules; the correlator wires its ASN lookup into the first. */
  function DefaultRules(lookup: Option<AsnLookup>): seq<Rule> {
    [CloudSuppress(lookup), ExternalScan(1), PortScan(5), RepeatedDrop(3), NewDevice]
  }

  lemma DropsAreScans(es: seq<Event>)
    ensures |Drops(es)| > 0 ==> HasScanEvent(es)
  {
    if |Drops(es)| > 0 {
      FilterIn(es, (e: Event) => e.eventType in DROP_EVENT_TYPES, Drops(es)[0]);
      assert DROP_EVENT_TYPES <= SCAN_EVENT_TYPES;
    }
  }

  lemma CascadeUnrolled(lookup: Option<AsnLookup>, cl: Profile)
    ensures var r := DefaultRules(lookup);
      var m0, m1, m2, m3, m4 := Matches(r[0], cl), Matches(r[1], cl), Matches(r[2], cl), Matches(r[3], cl), Matches(r[4], cl);
      Verdict(r, cl) == if m0.Some? then m0.value else if m1.Some? then m1.value else if m2.Some? then m2.value
                        else if m3.Some? then m3.value else if m4.Some? then m4.value else GenericScan
  {
    var r := DefaultRules(lookup);
    var r1, r2, r3, r4 := r[1..], r[2..], r[3..], r[4..];
    assert r1[1..] == r2 && r2[1..] == r3 && r3[1..] == r4 && r4[1..] == [];
    assert Verdict(r4, cl) == if Matches(r[4], cl).Some? then Matches(r[4], cl).value else GenericScan;
    assert Verdict(r3, cl) == if Matches(r[3], cl).Some? then Matches(r[3], cl).value else Verdict(r4, cl);
    assert Verdict(r2, cl) == if Matches(r[2], cl).Some? then Matches(r[2], cl).value else Verdict(r3, cl);
    assert Verdict(r1, cl) == if Matches(r[1], cl).Some? then Matches(r[1], cl).value else Verdict(r2, cl);
  }

  /** Cloud noise: all events go to a gateway address on a common port, and the source is a cloud's or sent one event. */
  predicate IsNoise(lookup: Option<AsnLookup>, cl: Profile) {
    && cl.events != []
    && (forall e <- cl.events ::
          && (HasSuffix(e.dstIP, ".1") || HasSuffix(e.dstIP, ".254"))
          && e.dstPort in {0, 22, 53, 80, 123, 443, 8080, 8443})
    && match lookup
       case Some(f) => f(cl.srcIP).Some? && f(cl.srcIP).value in KNOWN_CLOUD_ASNS
       case None => |cl.events| == 1
  }

  lemma NoiseExact(lookup: Option<AsnLookup>, cl: Profile)
    requires IsExternal(cl.srcIP)
    ensures EvalCloudSuppress(lookup, cl) == if IsNoise(lookup, cl) then Some(Suppressed) else None
  {
    assert IsNoise(lookup, cl) ==> AllEventsToGateway(cl.events);
  }

  /** Verdicts on an external source: repeated drops are always shadowed by the scan rule. */
  lemma ExternalVerdict(lookup: Option<AsnLookup>, cl: Profile)
    requires IsExternal(cl.srcIP)
    ensures Verdict(DefaultRules(lookup), cl) ==
            if IsNoise(lookup, cl) then Suppressed
            else if exists e :: e in cl.events && e.eventType in SCAN_EVENT_TYPES then InboundScan
            else GenericScan
  {
    DropsAreScans(cl.events);
    CascadeUnrolled(lookup, cl);
    NoiseExact(lookup, cl);
  }

  /** One probe of a gateway's web port, from a cloud and from elsewhere, with and without an ASN lookup. */
  lemma ProbeVerdicts(cl: Profile, e: Event, cloud: AsnLookup, other: AsnLookup, unknown: AsnLookup)
    requires IsExternal(cl.srcIP) && cl.events == [e]
    requires e.dstIP == "192.168.1.1" && e.dstPort == 80 && e.eventType == "tcp_syn"
    requires cloud(cl.srcIP) == Some("AS15169") && other(cl.srcIP) == Some("AS64496") && unknown(cl.srcIP) == None
    ensures Verdict(DefaultRules(Some(cloud)), cl) == Suppressed
    ensures Verdict(DefaultRules(Some(other)), cl) == InboundScan
    ensures Verdict(DefaultRules(Some(unknown)), cl) == InboundScan
    ensures Verdict(DefaultRules(None), cl) == Suppressed
  {
    assert e in cl.events && e.eventType in SCAN_EVENT_TYPES;
    assert "AS15169" in KNOWN_CLOUD_ASNS && "AS64496" !in KNOWN_CLOUD_ASNS;
    assert e.dstIP[|e.dstIP| - 2..] == ".1";
    ExternalVerdict(Some(cloud), cl);
    ExternalVerdict(Some(other), cl);
    ExternalVerdict(Some(unknown), cl);
    ExternalVerdict(None, cl);
  }

  /** Verdicts on any other source: never suppressed, never an inbound scan. */
  lemma InternalVerdict(lookup: Option<AsnLookup>, cl: Profile)
    requires !IsExternal(cl.srcIP)
    ensures Verdict(DefaultRules(lookup), cl) ==
            if |cl.ports| >= 5 then PortScanning
            else if |Drops(cl.events)| >= 3 then RepeatedDropping
            else if HasNewDeviceEvent(cl.events) then NewDeviceSeen
            else GenericScan
  {
    CascadeUnrolled(lookup, cl);
  }

  /** A threshold of zero stands for the default one. */
  lemma ZeroThresholds(cl: Profile)
    ensures Matches(PortScan(0), cl) == Matches(PortScan(5), cl)
    ensures Matches(RepeatedDrop(0), cl) == Matches(RepeatedDrop(3), cl)
  {
  }

  lemma FilterThree(e: Event, p: Event -> bool)
    ensures Filter([e, e, e], p) == if p(e) then [e, e, e] else []
  {
    if p(e) {
      FilterAll([e, e, e], p);
    } else {
      assert [e, e, e][..2] == [e, e] && [e, e][..1] == [e] && [e][..0] == [];
      assert Filter([e], p) == [] && Filter([e, e], p) == [];
    }
  }

  /** What three events of one type make of an external source. */
  lemma ExternalTypes(lookup: Option<AsnLookup>, cl: Profile, e: Event)
    requires IsExternal(cl.srcIP) && cl.events == [e, e, e] && e.dstIP == ""
    ensures Verdict(DefaultRules(lookup), cl) ==
            if e.eventType in {"netfilter_drop", "netfilter_reject", "ids_alert", "suricata_alert", "blocked", "conn_attempt",
                               "tcp_syn", "firewall_drop", "firewall_block", "portscan_detected", "wan_new_connection",
                               "wan_forward"}
            then InboundScan else GenericScan
  {
    assert cl.events[0] == e && !HasSuffix(e.dstIP, ".1") && !HasSuffix(e.dstIP, ".254");
    ExternalVerdict(lookup, cl);
  }

  /** And of any other. */
  lemma InternalTypes(lookup: Option<AsnLookup>, cl: Profile, e: Event)
    requires !IsExternal(cl.srcIP) && cl.events == [e, e, e] && |cl.ports| == 1
    ensures Verdict(DefaultRules(lookup), cl) ==
            if e.eventType in {"netfilter_drop", "netfilter_reject", "ids_alert", "blocked", "firewall_drop", "firewall_block"}
            then RepeatedDropping
            else if e.eventType in {"dhcp_dhcpack", "wifi_associated", "wifi_authenticated"} then NewDeviceSeen
            else GenericScan
  {
    assert cl.events[0] == e;
    FilterThree(e, (e: Event) => e.eventType in DROP_EVENT_TYPES);
    InternalVerdict(lookup, cl);
  }
}
