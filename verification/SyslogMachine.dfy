/**
 The syslog ingest and burst roll-up as a state machine. The ingest goroutine and the
 flush goroutine each have a program counter, and one step is one database statement or
 one critical section of the burst buffer, so a schedule is any interleaving of the two.
 A step carries whether its database statement succeeds.
 */
module SyslogMachine {
  import opened Text
  import opened Ports
  import opened Store

  const BURST_THRESHOLD := 3
  const BURST_MAX_EVENTS := 50

  datatype Line = Line(iface: string, srcIP: string, dstIP: string, srcPort: int, dstPort: int,
                       proto: string, rawLine: string)

  /** Events are grouped by the source's first three octets and the destination port. */
  datatype Key = Key(srcSubnet: string, dstPort: int)

  function SubnetPrefix(ip: string): string {
    var parts := Split(ip, '.');
    if |parts| == 4 then Join(parts[..3], ".") else ip
  }

  function KeyOf(line: Line): Key {
    Key(SubnetPrefix(line.srcIP), line.dstPort)
  }

  function EventKey(e: Event): Key {
    Key(SubnetPrefix(e.srcIP), e.dstPort)
  }

  function EventOf(line: Line): Event {
    var eventType :=
      if line.iface != "" && !HasPrefix(line.iface, "eth") && !HasPrefix(line.iface, "wan")
      then "wan_forward" else "wan_new_connection";
    Event(line.srcIP, line.srcPort, line.dstIP, line.dstPort, line.proto, eventType, line.rawLine)
  }

  /** A buffered case: the values its object had when it was buffered. */
  datatype Stub = Stub(id: Id, severity: Severity, events: seq<Id>, proto: string, srcIP: string, dstPort: int)

  /** Why a case is handed to the alerter. Only Individual and Rollup alerts take the semaphore. */
  datatype Reason = Immediate | Individual | Fallback | Rollup
  datatype Alert = Alert(id: Id, severity: Severity, reason: Reason)

  datatype IngestPc =
    | Waiting
    | Stored(line: Line, event: Id, retried: bool)  // event inserted, index not yet consulted
    | Opened(line: Line, event: Id, id: Id)  // new case inserted, not yet alerted or buffered
    | Fetched(line: Line, event: Id, id: Id, row: Row)  // existing case read back
    | Retrying(line: Line)  // stale index entry evicted, about to start over

  datatype FlushPc =
    | Asleep
    | Alerting(rest: seq<Stub>, reason: Reason)
    | Merging(batch: seq<Stub>)
    | Deleting(rest: seq<Stub>, burst: Id, severity: Severity)

  datatype State = State(events: map<Id, Event>, cases: map<Id, Row>, index: map<Key, Id>,
                         buffer: seq<Stub>, alerts: seq<Alert>, nextId: Id,
                         ingest: IngestPc, flush: FlushPc)

  const INIT := State(map[], map[], map[], [], [], 0, Waiting, Asleep)

  datatype Step =
    | Receive(line: Line, ok: bool)
    | Open(ok: bool)
    | Publish
    | Fetch(ok: bool)
    | Retry(ok: bool)
    | Update(ok: bool)
    | Drain
    | AlertNext
    | Merge(ok: bool)
    | Delete(ok: bool)
    | Announce

  // ----- the ingest goroutine

  /** Start of an ingest: discard an ephemeral port, else insert the event. */
  function Accept(s: State, line: Line, retried: bool, ok: bool): State {
    if ClassifySeverity(line.dstPort).None? then s.(ingest := Waiting)
    else if !ok then s.(nextId := s.nextId + 1, ingest := Waiting)
    else s.(events := s.events[s.nextId := EventOf(line)], nextId := s.nextId + 1,
            ingest := Stored(line, s.nextId, retried))
  }

  /** No case for the key: index a new one and insert it. */
  function OpenCase(s: State, ok: bool): State
    requires s.ingest.Stored?
  {
    var line, e, id := s.ingest.line, s.ingest.event, s.nextId;
    match ClassifySeverity(line.dstPort)
    case None => s
    case Some(severity) =>
      var s1 := s.(index := s.index[KeyOf(line) := id], nextId := id + 1);
      if ok then s1.(cases := s.cases[id := Row(severity, Status.Open, [e], Drop)], ingest := Opened(line, e, id))
      else s1.(ingest := Waiting)
  }

  function StubOf(line: Line, e: Id, id: Id, severity: Severity): Stub {
    Stub(id, severity, [e], line.proto, line.srcIP, line.dstPort)
  }

  /** The new case is alerted at once when its severity is high, else buffered. */
  function PublishCase(s: State): State
    requires s.ingest.Opened?
  {
    var line, e, id := s.ingest.line, s.ingest.event, s.ingest.id;
    match ClassifySeverity(line.dstPort)
    case None => s
    case Some(severity) =>
      var s1 := s.(ingest := Waiting);
      if severity == High then s1.(alerts := s.alerts + [Alert(id, severity, Immediate)])
      else s1.(buffer := s.buffer + [StubOf(line, e, id, severity)])
  }

  /** The indexed case is read; when that finds nothing its index entry goes and ingest starts over. */
  function FetchCase(s: State, ok: bool): State
    requires s.ingest.Stored? && KeyOf(s.ingest.line) in s.index
  {
    var line, e := s.ingest.line, s.ingest.event;
    var id := s.index[KeyOf(line)];
    if ok && id in s.cases then s.(ingest := Fetched(line, e, id, s.cases[id]))
    else s.(index := s.index - {KeyOf(line)}, ingest := Retrying(line))
  }

  /** The row that an append writes back; a full one is closed. */
  function Appended(row: Row, e: Id): Row {
    var events := row.events + [e];
    row.(events := events, status := if |events| >= BURST_MAX_EVENTS then Closed else row.status)
  }

  function UpdateRow(s: State, ok: bool): State
    requires s.ingest.Fetched?
  {
    var line, id, row := s.ingest.line, s.ingest.id, Appended(s.ingest.row, s.ingest.event);
    var s1 := s.(ingest := Waiting);
    if !ok then s1
    else
      s1.(cases := if id in s.cases then s.cases[id := row] else s.cases,
          index := if |row.events| >= BURST_MAX_EVENTS then s.index - {KeyOf(line)} else s.index)
  }

  // ----- the flush goroutine

  function DrainBuffer(s: State): State {
    var items := s.buffer;
    var s1 := s.(buffer := []);
    if items == [] then s1
    else if |items| < BURST_THRESHOLD then s1.(flush := Alerting(items, Individual))
    else s1.(flush := Merging(items))
  }

  function AlertStub(s: State): State
    requires s.flush.Alerting? && s.flush.rest != []
  {
    var b, rest := s.flush.rest[0], s.flush.rest[1..];
    s.(alerts := s.alerts + [Alert(b.id, b.severity, s.flush.reason)],
       flush := if rest == [] then Asleep else Alerting(rest, s.flush.reason))
  }

  function Flatten(batch: seq<Stub>): seq<Id> {
    if batch == [] then [] else Flatten(batch[..|batch| - 1]) + batch[|batch| - 1].events
  }

  /** The real destination ports of a batch. */
  function PortsOf(batch: seq<Stub>): set<int> {
    set b <- batch | b.dstPort > 0 :: b.dstPort
  }

  /** The highest-ranked severity, starting from "low". */
  function Highest(batch: seq<Stub>): Severity {
    if batch == [] then Low
    else
      var h, b := Highest(batch[..|batch| - 1]), batch[|batch| - 1];
      if Rank(b.severity) > Rank(h) then b.severity else h
  }

  function MergedSeverity(batch: seq<Stub>): Severity {
    BurstSeverity(PortsOf(batch), Highest(batch))
  }

  /** The burst case is inserted; when that fails every stub is alerted instead. */
  function MergeBatch(s: State, ok: bool): State
    requires s.flush.Merging?
  {
    var batch, id := s.flush.batch, s.nextId;
    var s1 := s.(nextId := id + 1);
    if !ok then s1.(flush := if batch == [] then Asleep else Alerting(batch, Fallback))
    else
      var severity := MergedSeverity(batch);
      s1.(cases := s.cases[id := Row(severity, Status.Open, Flatten(batch), Burst(|batch|))],
          flush := Deleting(batch, id, severity))
  }

  function DeleteStub(s: State, ok: bool): State
    requires s.flush.Deleting? && s.flush.rest != []
  {
    s.(cases := if ok then s.cases - {s.flush.rest[0].id} else s.cases,
       flush := Deleting(s.flush.rest[1..], s.flush.burst, s.flush.severity))
  }

  /** With all stubs gone the burst is alerted, unless it is mere background radiation. */
  function AnnounceBurst(s: State): State
    requires s.flush.Deleting?
  {
    s.(alerts := if s.flush.severity == Info then s.alerts
                 else s.alerts + [Alert(s.flush.burst, s.flush.severity, Rollup)],
       flush := Asleep)
  }

  // ----- schedules

  /** One step; a step whose goroutine is elsewhere does nothing. */
  function Next(s: State, step: Step): State {
    match step
    case Receive(line, ok) => if s.ingest.Waiting? then Accept(s, line, false, ok) else s
    case Open(ok) => if s.ingest.Stored? && KeyOf(s.ingest.line) !in s.index then OpenCase(s, ok) else s
    case Publish => if s.ingest.Opened? then PublishCase(s) else s
    case Fetch(ok) => if s.ingest.Stored? && KeyOf(s.ingest.line) in s.index then FetchCase(s, ok) else s
    case Retry(ok) => if s.ingest.Retrying? then Accept(s, s.ingest.line, true, ok) else s
    case Update(ok) => if s.ingest.Fetched? then UpdateRow(s, ok) else s
    case Drain => if s.flush.Asleep? then DrainBuffer(s) else s
    case AlertNext => if s.flush.Alerting? && s.flush.rest != [] then AlertStub(s) else s
    case Merge(ok) => if s.flush.Merging? then MergeBatch(s, ok) else s
    case Delete(ok) => if s.flush.Deleting? && s.flush.rest != [] then DeleteStub(s, ok) else s
    case Announce => if s.flush.Deleting? && s.flush.rest == [] then AnnounceBurst(s) else s
  }

  /** The state after a schedule. */
  function Run(s: State, steps: seq<Step>): State {
    if steps == [] then s else Next(Run(s, steps[..|steps| - 1]), steps[|steps| - 1])
  }

  /** The state after a schedule from the empty database. */
  function After(steps: seq<Step>): State {
    Run(INIT, steps)
  }

  lemma {:induction false} RunAppend(s: State, a: seq<Step>, b: seq<Step>)
    ensures Run(s, a + b) == Run(Run(s, a), b)
  {
    if b == [] {
      assert a + b == a;
    } else {
      var n := |b| - 1;
      RunAppend(s, a, b[..n]);
      assert (a + b)[..|a + b| - 1] == a + b[..n];
    }
  }
}
