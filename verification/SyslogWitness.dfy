/** Runs that do orphan events and do leave stale index entries, without any failure. */
module SyslogWitness {
  import opened Text
  import opened Ports
  import opened Store
  import opened SyslogMachine
  import opened SyslogInvariant
  import opened SyslogConservation
  import opened SyslogAlerts
  import opened SyslogCalls
  import opened SyslogIndex

  const FINE := Faults(true, true, true, true)
  const TICK := Tick(true, (i: nat) => true)

  function Arrives(line: Line): Call {
    Packet(line, FINE, FINE)
  }

  predicate Buffered(line: Line) {
    ClassifySeverity(line.dstPort) in {Some(Low), Some(Medium)}
  }

  // ----- what single calls do

  /** A line whose key has no case opens one and buffers it. */
  function OpenedBy(s: State, line: Line): State
    requires Buffered(line)
  {
    var e, id, severity := s.nextId, s.nextId + 1, ClassifySeverity(line.dstPort).value;
    s.(events := s.events[e := EventOf(line)], cases := s.cases[id := Row(severity, Status.Open, [e], Drop)],
       index := s.index[KeyOf(line) := id], buffer := s.buffer + [StubOf(line, e, id, severity)], nextId := id + 1)
  }

  lemma Opens(s: State, line: Line)
    requires s.ingest.Waiting? && Buffered(line) && KeyOf(line) !in s.index
    ensures IngestEffect(s, line, FINE, FINE) == OpenedBy(s, line)
  {
  }

  /** A line whose key has a small case is appended to it. */
  function AppendedBy(s: State, line: Line, id: Id): State
    requires id in s.cases
  {
    s.(events := s.events[s.nextId := EventOf(line)], cases := s.cases[id := Appended(s.cases[id], s.nextId)],
       nextId := s.nextId + 1)
  }

  lemma Appends(s: State, line: Line, id: Id)
    requires s.ingest.Waiting? && Buffered(line) && KeyOf(line) in s.index && s.index[KeyOf(line)] == id
    requires id in s.cases && |s.cases[id].events| < BURST_MAX_EVENTS - 1
    ensures IngestEffect(s, line, FINE, FINE) == AppendedBy(s, line, id)
  {
  }

  /** A line that finds a stale entry is stored twice. */
  lemma Recovers(s: State, line: Line)
    requires s.ingest.Waiting? && Buffered(line) && KeyOf(line) in s.index && s.index[KeyOf(line)] !in s.cases
    ensures var s' := IngestEffect(s, line, FINE, FINE);
      && s'.events == s.events[s.nextId := EventOf(line)][s.nextId + 1 := EventOf(line)]
      && s'.cases == s.cases[s.nextId + 2 := Row(ClassifySeverity(line.dstPort).value, Status.Open, [s.nextId + 1], Drop)]
  {
  }

  lemma AfterPacket(calls: seq<Call>, s: State, line: Line, f: Faults)
    requires s == After(Schedule(calls)) && s.ingest.Waiting?
    ensures After(Schedule(calls + [Packet(line, f, FINE)])) == IngestEffect(s, line, f, FINE)
  {
    var call := Packet(line, f, FINE);
    ScheduleMore(calls, call);
    IngestIsSchedule(s, line, f, FINE);
    assert CallSteps(s, call) == IngestSteps(s, line, f, FINE);
  }

  lemma AfterTick(calls: seq<Call>)
    ensures After(Schedule(calls + [TICK])) == FlushEffect(After(Schedule(calls)), true, TICK.deleted)
  {
    ScheduleMore(calls, TICK);
    ScheduleIsAtomic(calls);
    FlushIsSchedule(After(Schedule(calls)), true, TICK.deleted);
  }

  // ----- which calls can recover or overtake

  lemma {:induction false} NoMergeNoRecovery(steps: seq<Step>)
    requires forall step <- steps :: !step.Merge?
    ensures MergedIds(steps) == {} && Recovered(steps) == {}
  {
    if steps != [] {
      assert forall step <- Before(steps) :: step in steps;
      NoMergeNoRecovery(Before(steps));
    }
  }

  lemma {:induction false} NoFetchNoRecovery(before: seq<Step>, more: seq<Step>)
    requires forall step <- more :: !step.Fetch?
    ensures Recovered(before + more) == Recovered(before)
    decreases |more|
  {
    if more == [] {
      assert before + more == before;
    } else {
      assert Before(before + more) == before + Before(more);
      NoFetchNoRecovery(before, Before(more));
    }
  }

  lemma {:induction false} NoDeleteNoOvertaking(before: seq<Step>, more: seq<Step>)
    requires forall step <- more :: !step.Delete?
    ensures Overtaken(before + more) == Overtaken(before)
    decreases |more|
  {
    if more == [] {
      assert before + more == before;
    } else {
      assert Before(before + more) == before + Before(more);
      NoDeleteNoOvertaking(before, Before(more));
    }
  }

  lemma {:induction false} PacketsNeverMerge(calls: seq<Call>)
    requires forall call <- calls :: call.Packet?
    ensures forall step <- Schedule(calls) :: !step.Merge?
  {
    if calls != [] {
      var n := |calls| - 1;
      PacketsNeverMerge(calls[..n]);
      assert forall step <- CallSteps(After(Schedule(calls[..n])), calls[n]) :: !step.Merge?;
    }
  }

  ghost predicate Orphan(calls: seq<Call>, e: Id) {
    var s := After(Schedule(calls)); e in s.events && !Owned(s.cases, e)
  }

  lemma TickSteps(s: State)
    ensures forall step <- CallSteps(s, TICK) :: !step.Fetch?
  {
  }

  lemma PacketSteps(s: State, line: Line)
    ensures forall step <- CallSteps(s, Arrives(line)) :: !step.Delete?
  {
  }

  /** The orphans of a first flush were overtaken by it. */
  lemma OrphanWasOvertaken(calls: seq<Call>, more: seq<Call>, e: Id)
    requires forall call <- calls :: call.Packet?
    requires more == calls + [TICK] && (forall call <- more :: Faultless(call)) && Orphan(more, e)
    ensures e in Overtaken(Schedule(more))
  {
    CallAccounting(more, e);
    var steps, rest := Schedule(calls), CallSteps(After(Schedule(calls)), TICK);
    ScheduleMore(calls, TICK);
    PacketsNeverMerge(calls);
    NoMergeNoRecovery(steps);
    TickSteps(After(steps));
    NoFetchNoRecovery(steps, rest);
  }

  /** An orphan that a line leaves of its own events was ingested again. */
  lemma OrphanWasRecovered(calls: seq<Call>, line: Line, more: seq<Call>, e: Id)
    requires forall call <- calls :: Faultless(call)
    requires more == calls + [Arrives(line)] && (forall call <- more :: Faultless(call)) && Orphan(more, e)
    requires e !in After(Schedule(calls)).events
    ensures e in Recovered(Schedule(more))
  {
    CallAccounting(more, e);
    CallAccounting(calls, e);
    ScheduleMore(calls, Arrives(line));
    PacketSteps(After(Schedule(calls)), line);
    NoDeleteNoOvertaking(Schedule(calls), CallSteps(After(Schedule(calls)), Arrives(line)));
  }

  // ----- the runs

  predicate Distinct(x: Line, y: Line, z: Line) {
    && Buffered(x) && Buffered(y) && Buffered(z)
    && KeyOf(x) != KeyOf(y) && KeyOf(x) != KeyOf(z) && KeyOf(y) != KeyOf(z)
  }

  function FourLines(x: Line, y: Line, z: Line): seq<Call> {
    [Arrives(x)] + [Arrives(y)] + [Arrives(z)] + [Arrives(x)]
  }

  function FiveCalls(x: Line, y: Line, z: Line): seq<Call> {
    FourLines(x, y, z) + [TICK]
  }

  function ThreeOpen(x: Line, y: Line, z: Line): State
    requires Buffered(x) && Buffered(y) && Buffered(z)
  {
    OpenedBy(OpenedBy(OpenedBy(INIT, x), y), z)
  }

  lemma AfterOpening(calls: seq<Call>, s: State, line: Line)
    requires s == After(Schedule(calls)) && s.ingest.Waiting? && Buffered(line) && KeyOf(line) !in s.index
    ensures After(Schedule(calls + [Arrives(line)])) == OpenedBy(s, line)
  {
    AfterPacket(calls, s, line, FINE);
    Opens(s, line);
  }

  lemma AfterThreeLines(x: Line, y: Line, z: Line)
    requires Distinct(x, y, z)
    ensures After(Schedule([Arrives(x)] + [Arrives(y)] + [Arrives(z)])) == ThreeOpen(x, y, z)
  {
    assert Schedule([]) == [] && After([]) == INIT;
    assert [] + [Arrives(x)] == [Arrives(x)];
    AfterOpening([], INIT, x);
    AfterOpening([Arrives(x)], OpenedBy(INIT, x), y);
    AfterOpening([Arrives(x)] + [Arrives(y)], OpenedBy(OpenedBy(INIT, x), y), z);
  }

  lemma AfterFourLines(x: Line, y: Line, z: Line)
    requires Distinct(x, y, z)
    ensures After(Schedule(FourLines(x, y, z))) == AppendedBy(ThreeOpen(x, y, z), x, 1)
  {
    AfterThreeLines(x, y, z);
    AfterPacket([Arrives(x)] + [Arrives(y)] + [Arrives(z)], ThreeOpen(x, y, z), x, FINE);
    Appends(ThreeOpen(x, y, z), x, 1);
  }

  predicate ThreeStubs(b: seq<Stub>) {
    |b| == 3 && forall i :: 0 <= i < 3 ==> b[i].id == 2 * i + 1 && b[i].events == [2 * i]
  }

  lemma FlattenThree(b: seq<Stub>)
    requires ThreeStubs(b)
    ensures Flatten(b) == [0, 2, 4]
  {
    assert b[..2][..1] == b[..1] && b[..1][..0] == [];
    assert Flatten(b[..1]) == [0] && Flatten(b[..2]) == [0, 2];
  }

  lemma DeleteThree(cases: map<Id, Row>, b: seq<Stub>)
    requires ThreeStubs(b)
    ensures Remaining(cases, b, TICK.deleted, 3) == cases - {1} - {3} - {5}
  {
    assert Remaining(cases, b, TICK.deleted, 1) == cases - {1};
    assert Remaining(cases, b, TICK.deleted, 2) == cases - {1} - {3};
  }

  /** A flush of three stubs with one event each leaves only the burst that owns those events. */
  lemma FlushThree(s: State)
    requires s.cases.Keys == {1, 3, 5} && s.nextId == 7 && ThreeStubs(s.buffer)
    ensures var s' := FlushEffect(s, true, TICK.deleted);
      && s'.cases.Keys == {7} && s'.cases[7].events == [0, 2, 4]
      && s'.events == s.events && s'.index == s.index && s'.nextId == 8 && s'.ingest == s.ingest
  {
    var row := Row(MergedSeverity(s.buffer), Status.Open, Flatten(s.buffer), Burst(3));
    FlattenThree(s.buffer);
    DeleteThree(s.cases[7 := row], s.buffer);
  }

  lemma OpenedBuffer(s: State, line: Line, stubs: seq<Stub>)
    requires Buffered(line) && s.buffer == stubs
    ensures var b := OpenedBy(s, line).buffer;
      |b| == |stubs| + 1 && b[..|stubs|] == stubs && b[|stubs|].id == s.nextId + 1 && b[|stubs|].events == [s.nextId]
    ensures OpenedBy(s, line).nextId == s.nextId + 2
  {
  }

  lemma ThreeOpenBuffer(x: Line, y: Line, z: Line)
    requires Buffered(x) && Buffered(y) && Buffered(z)
    ensures ThreeStubs(ThreeOpen(x, y, z).buffer)
  {
    var s1 := OpenedBy(INIT, x);
    var s2 := OpenedBy(s1, y);
    OpenedBuffer(INIT, x, []);
    OpenedBuffer(s1, y, s1.buffer);
    OpenedBuffer(s2, z, s2.buffer);
    var b := ThreeOpen(x, y, z).buffer;
    assert b[0] == s2.buffer[0] == s1.buffer[0] && b[1] == s2.buffer[1];
  }

  lemma ThreeOpenShape(x: Line, y: Line, z: Line)
    requires Distinct(x, y, z)
    ensures var s := ThreeOpen(x, y, z);
      && s.cases.Keys == {1, 3, 5} && s.nextId == 6 && s.events.Keys == {0, 2, 4} && ThreeStubs(s.buffer)
      && s.ingest == Waiting && KeyOf(x) in s.index && s.index[KeyOf(x)] == 1
  {
    ThreeOpenBuffer(x, y, z);
  }

  /** The tables, index and buffer before the flush. */
  lemma FourLinesShape(x: Line, y: Line, z: Line)
    requires Distinct(x, y, z)
    ensures var s := AppendedBy(ThreeOpen(x, y, z), x, 1);
      && s.cases.Keys == {1, 3, 5} && s.nextId == 7 && s.events.Keys == {0, 2, 4, 6} && ThreeStubs(s.buffer)
      && s.ingest == Waiting && KeyOf(x) in s.index && s.index[KeyOf(x)] == 1
  {
    ThreeOpenShape(x, y, z);
  }

  lemma AfterFlush(calls: seq<Call>, s0: State) returns (s: State)
    requires s0 == After(Schedule(calls)) && s0.cases.Keys == {1, 3, 5} && s0.nextId == 7 && ThreeStubs(s0.buffer)
    ensures s == After(Schedule(calls + [TICK]))
    ensures s.cases.Keys == {7} && s.cases[7].events == [0, 2, 4]
    ensures s.events == s0.events && s.index == s0.index && s.nextId == 8 && s.ingest == s0.ingest
  {
    AfterTick(calls);
    FlushThree(s0);
    s := FlushEffect(s0, true, TICK.deleted);
  }

  lemma AfterFiveCalls(x: Line, y: Line, z: Line) returns (s: State)
    requires Distinct(x, y, z)
    ensures s == After(Schedule(FiveCalls(x, y, z)))
    ensures s.cases.Keys == {7} && s.cases[7].events == [0, 2, 4] && s.events.Keys == {0, 2, 4, 6} && s.nextId == 8
    ensures s.ingest == Waiting && KeyOf(x) in s.index && s.index[KeyOf(x)] == 1
  {
    AfterFourLines(x, y, z);
    FourLinesShape(x, y, z);
    s := AfterFlush(FourLines(x, y, z), AppendedBy(ThreeOpen(x, y, z), x, 1));
  }

  lemma FineCalls(x: Line, y: Line, z: Line)
    ensures forall call <- FourLines(x, y, z) :: call.Packet? && Faultless(call)
    ensures forall call <- FiveCalls(x, y, z) :: Faultless(call)
  {
  }

  /**
   Three cases are opened, the first gets one more event, and a flush merges all three: that event
   (the seventh id handed out) is then owned by no case, though nothing failed, and the first
   case's index entry is stale.
   */
  lemma EventOvertaken(x: Line, y: Line, z: Line)
    requires Distinct(x, y, z)
    ensures Orphan(FiveCalls(x, y, z), 6) && 6 in Overtaken(Schedule(FiveCalls(x, y, z)))
    ensures var s := After(Schedule(FiveCalls(x, y, z))); KeyOf(x) in s.index && s.index[KeyOf(x)] !in s.cases
  {
    var s := AfterFiveCalls(x, y, z);
    FineCalls(x, y, z);
    forall c ensures !Owns(s.cases, c, 6) {
    }
    OrphanWasOvertaken(FourLines(x, y, z), FiveCalls(x, y, z), 6);
  }

  lemma StaysUnowned(s: State, e: Id, id: Id, row: Row)
    requires (forall c <- s.cases :: e !in s.cases[c].events) && e !in row.events
    ensures !Owned(s.cases[id := row], e)
  {
    var cases' := s.cases[id := row];
    forall c ensures !Owns(cases', c, e) {
    }
  }

  lemma RecoveryOrphans(calls: seq<Call>, s: State, line: Line)
    requires s == After(Schedule(calls)) && s.ingest.Waiting? && Buffered(line)
    requires KeyOf(line) in s.index && s.index[KeyOf(line)] !in s.cases
    requires forall c <- s.cases :: s.nextId !in s.cases[c].events
    ensures Orphan(calls + [Arrives(line)], s.nextId)
  {
    AfterPacket(calls, s, line, FINE);
    Recovers(s, line);
    var row := Row(ClassifySeverity(line.dstPort).value, Status.Open, [s.nextId + 1], Drop);
    StaysUnowned(s, s.nextId, s.nextId + 2, row);
  }

  /** One more line with the first key finds the stale entry and leaves a second orphan. */
  lemma LineRecovered(x: Line, y: Line, z: Line)
    requires Distinct(x, y, z)
    ensures Orphan(FiveCalls(x, y, z) + [Arrives(x)], 8)
    ensures 8 in Recovered(Schedule(FiveCalls(x, y, z) + [Arrives(x)]))
  {
    var five := FiveCalls(x, y, z);
    var s := AfterFiveCalls(x, y, z);
    FineCalls(x, y, z);
    RecoveryOrphans(five, s, x);
    OrphanWasRecovered(five, x, five + [Arrives(x)], 8);
  }

  // ----- what a single failure does to the index

  const UNREAD := FINE.(getCase := false)
  const NOT_INSERTED := FINE.(insertCase := false)

  lemma Rereads(s: State, line: Line)
    requires s.ingest.Waiting? && Buffered(line) && s.index == map[KeyOf(line) := 1] && s.nextId == 2
    requires s.cases == map[1 := Row(ClassifySeverity(line.dstPort).value, Status.Open, [0], Drop)]
    requires s.events == map[0 := EventOf(line)]
    ensures var s' := IngestEffect(s, line, UNREAD, FINE);
      && s'.index == map[KeyOf(line) := 4]
      && s'.events == s.events[2 := EventOf(line)][3 := EventOf(line)]
      && s'.cases == s.cases[4 := Row(ClassifySeverity(line.dstPort).value, Status.Open, [3], Drop)]
  {
  }

  /** When an open case cannot be read, its next line opens a second case of the same key. */
  lemma SecondCase(x: Line)
    requires Buffered(x)
    ensures var s := After(Schedule([Arrives(x)] + [Packet(x, UNREAD, FINE)]));
      && OpenDrop(s, 1) && OpenDrop(s, 4) && Owns(s.cases, 1, 0) && Owns(s.cases, 4, 3)
      && 0 in s.events && 3 in s.events && EventKey(s.events[0]) == EventKey(s.events[3])
      && 1 !in s.index.Values
  {
    assert Schedule([]) == [] && After([]) == INIT;
    assert [] + [Arrives(x)] == [Arrives(x)];
    AfterOpening([], INIT, x);
    AfterPacket([Arrives(x)], OpenedBy(INIT, x), x, UNREAD);
    Rereads(OpenedBy(INIT, x), x);
  }

  /** When a new case cannot be inserted, its index entry is stale at once. */
  lemma StaleAtOnce(x: Line)
    requires Buffered(x)
    ensures var s := After(Schedule([Packet(x, NOT_INSERTED, FINE)]));
      KeyOf(x) in s.index && s.index[KeyOf(x)] !in s.cases
  {
    assert Schedule([]) == [] && After([]) == INIT;
    assert [] + [Packet(x, NOT_INSERTED, FINE)] == [Packet(x, NOT_INSERTED, FINE)];
    AfterPacket([], INIT, x, NOT_INSERTED);
  }

  // ----- where a flush starts to merge, and where a case is full

  lemma PairFlush(s: State)
    requires |s.buffer| == 2 && s.alerts == []
    ensures var s', b := FlushEffect(s, true, TICK.deleted), s.buffer;
      && s'.cases == s.cases && s'.buffer == []
      && s'.alerts == [Alert(b[0].id, b[0].severity, Individual), Alert(b[1].id, b[1].severity, Individual)]
  {
    var b := s.buffer;
    assert b[..1][..0] == [] && AlertsFor([], Individual) == [];
    assert AlertsFor(b[..1], Individual) == [Alert(b[0].id, b[0].severity, Individual)];
  }

  lemma NoCalls(calls: seq<Call>)
    requires calls == []
    ensures After(Schedule(calls)) == INIT
  {
    assert Schedule(calls) == [] && After([]) == INIT;
  }

  lemma TwoOpen(x: Line, y: Line) returns (calls: seq<Call>, s: State)
    requires Buffered(x) && Buffered(y) && KeyOf(x) != KeyOf(y)
    ensures calls == [Arrives(x), Arrives(y)] && s == After(Schedule(calls))
    ensures s.cases.Keys == {1, 3} && s.alerts == [] && |s.buffer| == 2
    ensures s.buffer[0].id == 1 && s.buffer[0].severity == ClassifySeverity(x.dstPort).value
    ensures s.buffer[1].id == 3 && s.buffer[1].severity == ClassifySeverity(y.dstPort).value
  {
    calls := [];
    NoCalls(calls);
    AfterOpening(calls, INIT, x);
    calls := calls + [Arrives(x)];
    AfterOpening(calls, OpenedBy(INIT, x), y);
    calls := calls + [Arrives(y)];
    s := OpenedBy(OpenedBy(INIT, x), y);
  }

  /** Two buffered cases are alerted one by one, in order, and both keep their rows. */
  lemma PairAlerted(x: Line, y: Line) returns (calls: seq<Call>, s: State)
    requires Buffered(x) && Buffered(y) && KeyOf(x) != KeyOf(y)
    ensures calls == [Arrives(x), Arrives(y), TICK] && s == After(Schedule(calls))
    ensures s.cases.Keys == {1, 3} && s.buffer == []
    ensures s.alerts == [Alert(1, ClassifySeverity(x.dstPort).value, Individual),
                         Alert(3, ClassifySeverity(y.dstPort).value, Individual)]
  {
    var s0;
    calls, s0 := TwoOpen(x, y);
    AfterTick(calls);
    PairFlush(s0);
    s := FlushEffect(s0, true, TICK.deleted);
    calls := calls + [TICK];
  }

  /** When the burst cannot be inserted, three buffered cases are alerted one by one and keep their rows. */
  lemma FailedMerge(s: State)
    requires |s.buffer| == 3
    ensures var s', b := FlushEffect(s, false, TICK.deleted), s.buffer;
      && s'.cases == s.cases && s'.buffer == [] && s'.nextId == s.nextId + 1
      && s'.alerts == s.alerts + [Alert(b[0].id, b[0].severity, Fallback), Alert(b[1].id, b[1].severity, Fallback),
                                  Alert(b[2].id, b[2].severity, Fallback)]
  {
    var b := s.buffer;
    assert b[..3] == b && b[..2][..1] == b[..1] && b[..1][..0] == [] && AlertsFor([], Fallback) == [];
    assert AlertsFor(b[..1], Fallback) == [Alert(b[0].id, b[0].severity, Fallback)];
    assert AlertsFor(b[..2], Fallback) == AlertsFor(b[..1], Fallback) + [Alert(b[1].id, b[1].severity, Fallback)];
  }

  function Repeated(x: Line, n: nat): seq<Call> {
    if n == 0 then [] else Repeated(x, n - 1) + [Arrives(x)]
  }

  /** A case with room for one more event is closed by it and leaves the index. */
  lemma Fills(s: State, line: Line, id: Id)
    requires s.ingest.Waiting? && Buffered(line) && KeyOf(line) in s.index && s.index[KeyOf(line)] == id
    requires id in s.cases && |s.cases[id].events| == 49
    ensures var s' := IngestEffect(s, line, FINE, FINE);
      && s'.ingest.Waiting?
      && s'.cases == s.cases[id := Row(s.cases[id].severity, Closed, s.cases[id].events + [s.nextId], s.cases[id].origin)]
      && s'.index == s.index - {KeyOf(line)} && s'.nextId == s.nextId + 1
  {
  }

  predicate OneOpen(s: State, key: Key, n: nat) {
    && s.ingest.Waiting? && s.index == map[key := 1] && s.nextId == n + 1
    && s.cases.Keys == {1} && |s.cases[1].events| == n && s.cases[1].status == Status.Open
  }

  lemma FirstLine(calls: seq<Call>, x: Line) returns (s: State)
    requires calls == [] && Buffered(x)
    ensures s == After(Schedule(calls + [Arrives(x)])) && OneOpen(s, KeyOf(x), 1)
  {
    NoCalls(calls);
    AfterOpening(calls, INIT, x);
    s := OpenedBy(INIT, x);
  }

  lemma OneMoreLine(calls: seq<Call>, s0: State, x: Line, n: nat) returns (s: State)
    requires Buffered(x) && n < 49 && s0 == After(Schedule(calls)) && OneOpen(s0, KeyOf(x), n)
    ensures s == After(Schedule(calls + [Arrives(x)])) && OneOpen(s, KeyOf(x), n + 1)
  {
    AfterPacket(calls, s0, x, FINE);
    Appends(s0, x, 1);
    s := AppendedBy(s0, x, 1);
  }

  /** The first forty-nine lines of one key make one open case. */
  lemma {:induction false} CaseGrows(x: Line, n: nat) returns (s: State)
    requires Buffered(x) && 1 <= n <= 49
    ensures s == After(Schedule(Repeated(x, n))) && OneOpen(s, KeyOf(x), n)
  {
    if n == 1 {
      s := FirstLine(Repeated(x, 0), x);
    } else {
      var s0 := CaseGrows(x, n - 1);
      s := OneMoreLine(Repeated(x, n - 1), s0, x, n - 1);
    }
  }

  /** The fiftieth closes it, and the next one opens another. */
  lemma CaseFills(x: Line) returns (s: State, s': State)
    requires Buffered(x)
    ensures s == After(Schedule(Repeated(x, 50))) && s' == After(Schedule(Repeated(x, 51)))
    ensures s.cases.Keys == {1} && |s.cases[1].events| == 50 && s.cases[1].status == Closed && s.index == map[]
    ensures s'.cases.Keys == {1, 52} && s'.cases[1] == s.cases[1] && s'.cases[52].events == [51]
    ensures s'.index == map[KeyOf(x) := 52]
  {
    var s0 := CaseGrows(x, 49);
    AfterPacket(Repeated(x, 49), s0, x, FINE);
    Fills(s0, x, 1);
    s := IngestEffect(s0, x, FINE, FINE);
    AfterOpening(Repeated(x, 50), s, x);
    s' := OpenedBy(s, x);
  }

  // ----- three such lines

  function LineTo(dstPort: int): Line {
    Line("eth0", "203.0.113.9", "198.51.100.1", 40000, dstPort, "TCP", "")
  }

  lemma DistinctPorts(x: Line, y: Line, z: Line)
    requires x.dstPort == 21 && y.dstPort == 25 && z.dstPort == 53
    ensures Distinct(x, y, z)
  {
    assert 21 in MEDIUM_PORTS && 25 in MEDIUM_PORTS && 53 in MEDIUM_PORTS;
    assert 21 !in HIGH_PORTS && 25 !in HIGH_PORTS && 53 !in HIGH_PORTS;
  }

  /** So a run of calls that all succeed can leave an event without a case. */
  lemma OrphansExist() returns (calls: seq<Call>, e: Id)
    ensures (forall call <- calls :: Faultless(call)) && Orphan(calls, e)
  {
    var x, y, z := LineTo(21), LineTo(25), LineTo(53);
    DistinctPorts(x, y, z);
    FineCalls(x, y, z);
    EventOvertaken(x, y, z);
    calls, e := FiveCalls(x, y, z), 6;
  }
}
