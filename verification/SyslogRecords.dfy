/** What the listener stores of the lines it receives, and how it rates cases, after any schedule. */
module SyslogRecords {
  import opened Text
  import opened Ports
  import opened Store
  import opened SyslogMachine
  import opened SyslogInvariant
  import opened SyslogPreservation
  import opened SyslogAccounting
  import opened SyslogConservation

  // ----- events

  /** The line last received. */
  function Current(steps: seq<Step>): Option<Line> {
    if steps == [] then None
    else if Last(steps).Receive? && After(Before(steps)).ingest.Waiting? then Some(Last(steps).line)
    else Current(Before(steps))
  }

  /** The event ids that lines got on the way, each with its line: one when received, one more when ingested again. */
  function Accepted(steps: seq<Step>): map<Id, Line> {
    if steps == [] then map[]
    else
      var s, step, before := After(Before(steps)), Last(steps), Accepted(Before(steps));
      if step.Receive? && step.ok && s.ingest.Waiting? && step.line.dstPort < 32768 then before[s.nextId := step.line]
      else if step.Retry? && step.ok && s.ingest.Retrying? && Current(Before(steps)).Some?
      then before[s.nextId := Current(Before(steps)).value]
      else before
  }

  /** The row of a line: its own fields, and an event type that tells the router's outer interfaces from others. */
  ghost predicate StoredAs(line: Line, row: Event) {
    && row.srcIP == line.srcIP
    && row.srcPort == line.srcPort
    && row.dstIP == line.dstIP
    && row.dstPort == line.dstPort
    && row.proto == line.proto
    && row.rawRef == line.rawLine
    && (row.eventType == "wan_new_connection" || row.eventType == "wan_forward")
    && (row.eventType == "wan_new_connection" <==> line.iface == "" || "eth" <= line.iface || "wan" <= line.iface)
  }

  lemma RowOfLine(line: Line)
    ensures StoredAs(line, EventOf(line))
  {
    assert "wan_new_connection"[4] != "wan_forward"[4];
  }

  lemma NextLine(s: State, step: Step)
    ensures !Next(s, step).ingest.Waiting? ==>
      if step.Receive? && s.ingest.Waiting? then Next(s, step).ingest.line == step.line
      else !s.ingest.Waiting? && Next(s, step).ingest.line == s.ingest.line
  {
  }

  /** An ingest works on the line last received, also when it starts over. */
  lemma {:induction false} PendingLine(steps: seq<Step>)
    ensures var pc := After(steps).ingest; pc.Waiting? || Current(steps) == Some(pc.line)
  {
    if steps != [] {
      PendingLine(Before(steps));
      NextLine(After(Before(steps)), Last(steps));
    }
  }

  lemma NextEvents(s: State, step: Step)
    requires Inv(s)
    ensures var s' := Next(s, step);
      s'.events == if step.Receive? && step.ok && s.ingest.Waiting? && step.line.dstPort < 32768
                   then s.events[s.nextId := EventOf(step.line)]
                   else if step.Retry? && step.ok && s.ingest.Retrying? then s.events[s.nextId := EventOf(s.ingest.line)]
                   else s.events
  {
  }

  /**
   The event table holds exactly the lines that were accepted, as many times as they were, each with its
   own fields and the event type that its interface calls for.
   */
  lemma {:induction false} EventsExact(steps: seq<Step>)
    ensures var events, lines := After(steps).events, Accepted(steps);
      events.Keys == lines.Keys && forall e <- events :: StoredAs(lines[e], events[e])
  {
    if steps != [] {
      var s, step := After(Before(steps)), Last(steps);
      AlwaysInv(Before(steps));
      EventsExact(Before(steps));
      NextEvents(s, step);
      PendingLine(Before(steps));
      if step.Receive? {
        RowOfLine(step.line);
      } else if s.ingest.Retrying? {
        RowOfLine(s.ingest.line);
      }
    }
  }

  // ----- cases

  /** How a port is rated: sensitive services high, services in use medium, the rest low, ephemeral ports not at all. */
  ghost predicate Rated(port: int, severity: Severity) {
    && port < 32768
    && (severity == High <==> port in HIGH_PORTS)
    && (severity == Medium <==> port in MEDIUM_PORTS)
    && (severity == Low <==> port !in HIGH_PORTS && port !in MEDIUM_PORTS)
  }

  lemma RatedExact(port: int, severity: Severity)
    ensures ClassifySeverity(port) == Some(severity) <==> Rated(port, severity)
  {
    assert HIGH_PORTS !! MEDIUM_PORTS;
  }

  /** Remote shells and desktops, the web, a port without a service, and where the ephemeral ports begin. */
  lemma SomeServices()
    ensures Rated(22, High) && Rated(3389, High) && Rated(80, Medium) && Rated(443, Medium) && Rated(12345, Low)
    ensures Rated(32767, Low) && forall severity :: !Rated(32768, severity)
  {
  }

  /** All events of a DROP case have its key and the port that its severity stands for. */
  ghost predicate KeyedRow(events: map<Id, Event>, row: Row) {
    row.origin.Drop? ==>
      && (forall e <- row.events :: e in events && Rated(events[e].dstPort, row.severity))
      && (forall e <- row.events, e' <- row.events :: e in events && e' in events ==> EventKey(events[e]) == EventKey(events[e']))
  }

  ghost predicate Keyed(s: State) {
    forall c <- s.cases :: KeyedRow(s.events, s.cases[c])
  }

  lemma OpenKeyed(s: State, ok: bool)
    requires Inv(s) && Keyed(s) && s.ingest.Stored?
    ensures Keyed(OpenCase(s, ok))
  {
    var line := s.ingest.line;
    if ClassifySeverity(line.dstPort).Some? {
      RatedExact(line.dstPort, ClassifySeverity(line.dstPort).value);
      assert s.events[s.ingest.event].dstPort == line.dstPort by {
        assert EventKey(s.events[s.ingest.event]) == KeyOf(line);
      }
    }
  }

  lemma AppendKeyed(events: map<Id, Event>, row: Row, e: Id, key: Key)
    requires KeyedRow(events, row) && row.origin.Drop? && row.events != []
    requires e in events && EventKey(events[e]) == key
    requires forall x <- row.events :: x in events && EventKey(events[x]) == key
    ensures KeyedRow(events, Appended(row, e))
  {
    var first := row.events[0];
    assert first in row.events && events[first].dstPort == events[e].dstPort;
  }

  lemma FetchedRow(s: State)
    requires Inv(s) && s.ingest.Fetched? && s.ingest.id in s.cases
    ensures s.cases[s.ingest.id] == s.ingest.row && ReachedRowOk(s.events, KeyOf(s.ingest.line), s.ingest.row)
    ensures s.ingest.event in s.events && EventKey(s.events[s.ingest.event]) == KeyOf(s.ingest.line)
  {
  }

  lemma UpdateKeyed(s: State, ok: bool)
    requires Inv(s) && Keyed(s) && s.ingest.Fetched?
    ensures Keyed(UpdateRow(s, ok))
  {
    if s.ingest.id in s.cases {
      FetchedRow(s);
      AppendKeyed(s.events, s.ingest.row, s.ingest.event, KeyOf(s.ingest.line));
    }
  }

  lemma OtherRows(s: State, step: Step)
    requires !(step.Open? && s.ingest.Stored?) && !(step.Update? && s.ingest.Fetched?)
    ensures var s' := Next(s, step);
      forall c <- s'.cases :: (c in s.cases && s'.cases[c] == s.cases[c]) || s'.cases[c].origin.Burst?
  {
  }

  lemma SameKeyed(s: State, s': State)
    requires Keyed(s) && forall e <- s.events :: e in s'.events && s'.events[e] == s.events[e]
    requires forall c <- s'.cases :: (c in s.cases && s'.cases[c] == s.cases[c]) || s'.cases[c].origin.Burst?
    ensures Keyed(s')
  {
    forall c <- s'.cases ensures KeyedRow(s'.events, s'.cases[c]) {
      if c in s.cases {
        assert KeyedRow(s.events, s.cases[c]);
      }
    }
  }

  lemma OtherKeyed(s: State, step: Step)
    requires Inv(s) && Keyed(s)
    requires !(step.Open? && s.ingest.Stored?) && !(step.Update? && s.ingest.Fetched?)
    ensures Keyed(Next(s, step))
  {
    var s' := Next(s, step);
    OtherRows(s, step);
    NextEvolves(s, step);
    SameKeyed(s, s');
  }

  lemma NextKeyed(s: State, step: Step)
    requires Inv(s) && Keyed(s)
    ensures Keyed(Next(s, step))
  {
    if step.Open? && s.ingest.Stored? {
      OpenKeyed(s, step.ok);
    } else if step.Update? && s.ingest.Fetched? {
      UpdateKeyed(s, step.ok);
    } else {
      OtherKeyed(s, step);
    }
  }

  lemma {:induction false} AlwaysKeyed(steps: seq<Step>)
    ensures Keyed(After(steps))
  {
    if steps != [] {
      AlwaysInv(Before(steps));
      AlwaysKeyed(Before(steps));
      NextKeyed(After(Before(steps)), Last(steps));
    }
  }

  lemma RatedRow(s: State, c: Id, e: Id, e': Id)
    requires Keyed(s) && c in s.cases && s.cases[c].origin.Drop? && Owns(s.cases, c, e) && Owns(s.cases, c, e')
    ensures e in s.events && e' in s.events && Rated(s.events[e].dstPort, s.cases[c].severity)
    ensures EventKey(s.events[e]) == EventKey(s.events[e'])
  {
    assert KeyedRow(s.events, s.cases[c]);
  }

  /** Every event of a DROP case was aimed at a port of its severity, and all came from one subnet at one port. */
  lemma CasesRated(steps: seq<Step>, c: Id, e: Id, e': Id)
    requires c in After(steps).cases && After(steps).cases[c].origin.Drop?
    requires Owns(After(steps).cases, c, e) && Owns(After(steps).cases, c, e')
    ensures var s := After(steps);
      && e in s.events && e' in s.events
      && Rated(s.events[e].dstPort, s.cases[c].severity)
      && s.events[e].dstPort == s.events[e'].dstPort
      && SubnetPrefix(s.events[e].srcIP) == SubnetPrefix(s.events[e'].srcIP)
  {
    AlwaysKeyed(steps);
    RatedRow(After(steps), c, e, e');
  }

  // ----- buffered cases

  /** A buffered case tells the truth about its event: where it came from, how, and at which port. */
  ghost predicate TrueStub(events: map<Id, Event>, b: Stub) {
    && |b.events| == 1 && b.events[0] in events
    && b.proto == events[b.events[0]].proto && b.srcIP == events[b.events[0]].srcIP && b.dstPort == events[b.events[0]].dstPort
  }

  /** And a line being ingested is the one its event row was made of. */
  ghost predicate TrueStubs(s: State) {
    && (forall b <- s.buffer :: TrueStub(s.events, b))
    && (forall b <- Held(s.flush) :: TrueStub(s.events, b))
    && (s.ingest.Stored? || s.ingest.Opened? || s.ingest.Fetched? ==>
          s.ingest.event in s.events && StoredAs(s.ingest.line, s.events[s.ingest.event]))
  }

  lemma AcceptTrue(s: State, line: Line, retried: bool, ok: bool)
    requires Inv(s) && TrueStubs(s)
    ensures TrueStubs(Accept(s, line, retried, ok))
  {
    RowOfLine(line);
  }

  lemma PublishTrue(s: State)
    requires Inv(s) && TrueStubs(s) && s.ingest.Opened?
    ensures TrueStubs(PublishCase(s))
  {
  }

  lemma IngestTrue(s: State, step: Step)
    requires Inv(s) && TrueStubs(s) && (step.Open? || step.Fetch? || step.Update?)
    ensures TrueStubs(Next(s, step))
  {
  }

  lemma FlushTrue(s: State, step: Step)
    requires TrueStubs(s) && (step.Drain? || step.AlertNext? || step.Merge? || step.Delete? || step.Announce?)
    ensures TrueStubs(Next(s, step))
  {
    var s' := Next(s, step);
    assert s'.events == s.events && s'.ingest == s.ingest;
    assert forall b :: b in s'.buffer || b in Held(s'.flush) ==> b in s.buffer || b in Held(s.flush);
  }

  lemma {:induction false} AlwaysTrue(steps: seq<Step>)
    ensures TrueStubs(After(steps))
  {
    if steps != [] {
      var s, step := After(Before(steps)), Last(steps);
      AlwaysInv(Before(steps));
      AlwaysTrue(Before(steps));
      match step
      case Receive(line, ok) => if s.ingest.Waiting? { AcceptTrue(s, line, false, ok); }
      case Retry(ok) => if s.ingest.Retrying? { AcceptTrue(s, s.ingest.line, true, ok); }
      case Publish => if s.ingest.Opened? { PublishTrue(s); }
      case Open(_) => IngestTrue(s, step);
      case Fetch(_) => IngestTrue(s, step);
      case Update(_) => IngestTrue(s, step);
      case _ => FlushTrue(s, step);
    }
  }
}
