/**
 A listener that starts over the tables of an earlier one: index, buffer and program counters are
 empty, whatever the tables hold. The ids already stored are negative, the listener's own are not.
 */
module SyslogRestart {
  import opened Ports
  import opened Store
  import opened SyslogMachine
  import opened SyslogInvariant
  import opened SyslogPreservation
  import opened SyslogAccounting
  import opened SyslogConservation

  type Events = map<Id, Event>
  type Cases = map<Id, Row>

  ghost predicate OldIds<V>(table: map<Id, V>) {
    forall id <- table :: id < 0
  }

  ghost predicate OldTables(events: Events, cases: Cases) {
    OldIds(events) && OldIds(cases)
  }

  /** A state with old rows beside its own. */
  function With(s: State, events: Events, cases: Cases): State {
    s.(events := events + s.events, cases := cases + s.cases)
  }

  ghost predicate Own(s: State) {
    && 0 <= s.nextId
    && (forall id <- s.events :: 0 <= id)
    && (forall id <- s.cases :: 0 <= id)
    && (forall k <- s.index :: 0 <= s.index[k])
  }

  lemma NextOwn(s: State, step: Step)
    requires Own(s)
    ensures Own(Next(s, step))
  {
  }

  // ----- each step leaves the old rows aside

  lemma PutWith<V>(m0: map<Id, V>, m: map<Id, V>, id: Id, v: V)
    ensures m0 + m[id := v] == (m0 + m)[id := v]
  {
  }

  lemma AcceptWith(s: State, line: Line, retried: bool, ok: bool, events: Events, cases: Cases)
    ensures Accept(With(s, events, cases), line, retried, ok) == With(Accept(s, line, retried, ok), events, cases)
  {
    PutWith(events, s.events, s.nextId, EventOf(line));
  }

  lemma OpenWith(s: State, ok: bool, events: Events, cases: Cases)
    requires s.ingest.Stored?
    ensures OpenCase(With(s, events, cases), ok) == With(OpenCase(s, ok), events, cases)
  {
    if ClassifySeverity(s.ingest.line.dstPort).Some? {
      PutWith(cases, s.cases, s.nextId, Row(ClassifySeverity(s.ingest.line.dstPort).value, Status.Open, [s.ingest.event], Drop));
    }
  }

  lemma FetchWith(s: State, ok: bool, events: Events, cases: Cases)
    requires Own(s) && OldIds(cases) && s.ingest.Stored? && KeyOf(s.ingest.line) in s.index
    ensures FetchCase(With(s, events, cases), ok) == With(FetchCase(s, ok), events, cases)
  {
    var id := s.index[KeyOf(s.ingest.line)];
    assert id in cases + s.cases <==> id in s.cases;
  }

  lemma UpdateWith(s: State, ok: bool, events: Events, cases: Cases)
    requires Inv(s) && Own(s) && OldIds(cases) && s.ingest.Fetched?
    ensures UpdateRow(With(s, events, cases), ok) == With(UpdateRow(s, ok), events, cases)
  {
    var id := s.ingest.id;
    assert id == s.index[KeyOf(s.ingest.line)];
    assert id in cases + s.cases <==> id in s.cases;
    PutWith(cases, s.cases, id, Appended(s.ingest.row, s.ingest.event));
  }

  lemma MergeWith(s: State, ok: bool, events: Events, cases: Cases)
    requires s.flush.Merging?
    ensures MergeBatch(With(s, events, cases), ok) == With(MergeBatch(s, ok), events, cases)
  {
    var batch := s.flush.batch;
    PutWith(cases, s.cases, s.nextId, Row(MergedSeverity(batch), Status.Open, Flatten(batch), Burst(|batch|)));
  }

  lemma DeleteWith(s: State, ok: bool, events: Events, cases: Cases)
    requires Inv(s) && Own(s) && OldIds(cases) && s.flush.Deleting? && s.flush.rest != []
    ensures DeleteStub(With(s, events, cases), ok) == With(DeleteStub(s, ok), events, cases)
  {
    var b := s.flush.rest[0];
    assert StubOk(s.cases, s.alerts, b);
    assert b.id !in cases;
    assert (cases + s.cases) - {b.id} == cases + (s.cases - {b.id});
  }

  lemma PublishWith(s: State, events: Events, cases: Cases)
    requires s.ingest.Opened?
    ensures PublishCase(With(s, events, cases)) == With(PublishCase(s), events, cases)
  {
  }

  lemma OtherWith(s: State, step: Step, events: Events, cases: Cases)
    requires step.Drain? || step.AlertNext? || step.Announce?
    ensures Next(With(s, events, cases), step) == With(Next(s, step), events, cases)
  {
  }

  lemma NextWith(s: State, step: Step, events: Events, cases: Cases)
    requires Inv(s) && Own(s) && OldIds(cases)
    ensures Next(With(s, events, cases), step) == With(Next(s, step), events, cases)
  {
    match step
    case Receive(line, ok) => if s.ingest.Waiting? { AcceptWith(s, line, false, ok, events, cases); }
    case Open(ok) => if s.ingest.Stored? { OpenWith(s, ok, events, cases); }
    case Fetch(ok) => if s.ingest.Stored? && KeyOf(s.ingest.line) in s.index { FetchWith(s, ok, events, cases); }
    case Retry(ok) => if s.ingest.Retrying? { AcceptWith(s, s.ingest.line, true, ok, events, cases); }
    case Update(ok) => if s.ingest.Fetched? { UpdateWith(s, ok, events, cases); }
    case Merge(ok) => if s.flush.Merging? { MergeWith(s, ok, events, cases); }
    case Delete(ok) => if s.flush.Deleting? && s.flush.rest != [] { DeleteWith(s, ok, events, cases); }
    case Publish => if s.ingest.Opened? { PublishWith(s, events, cases); }
    case _ => OtherWith(s, step, events, cases);
  }

  lemma {:induction false} AlwaysOwn(steps: seq<Step>)
    ensures Own(After(steps))
  {
    if steps != [] {
      AlwaysOwn(Before(steps));
      NextOwn(After(Before(steps)), Last(steps));
    }
  }

  /**
   Over any tables, a listener does what it does over empty ones, beside the old rows. Every
   theorem about `After(steps)` thus holds of its own rows, whatever was stored before.
   */
  lemma {:induction false} OldRowsAside(steps: seq<Step>, events: Events, cases: Cases)
    requires OldIds(cases)
    ensures Run(With(INIT, events, cases), steps) == With(After(steps), events, cases)
  {
    if steps != [] {
      OldRowsAside(Before(steps), events, cases);
      AlwaysInv(Before(steps));
      AlwaysOwn(Before(steps));
      NextWith(After(Before(steps)), Last(steps), events, cases);
    }
  }

  /** Case `c` has the given row and is neither indexed nor waiting for a flush nor alerted. */
  ghost predicate SetAside(s: State, c: Id, row: Row) {
    c in s.cases && s.cases[c] == row && c !in s.index.Values && !Waits(s, c) && !IsAlerted(s.alerts, c)
  }

  /** An old case is never changed, deleted, extended, indexed, merged or alerted. */
  lemma RowUntouched(steps: seq<Step>, events: Events, cases: Cases, c: Id)
    requires OldTables(events, cases) && c in cases
    ensures SetAside(Run(With(INIT, events, cases), steps), c, cases[c])
  {
    OldRowsAside(steps, events, cases);
    AlwaysInv(steps);
    AlwaysOwn(steps);
    var s := After(steps);
    assert Waits(s, c) ==> c in s.cases by {
      if Waits(s, c) {
        WaitingStubHasRow(s, c);
      }
    }
    assert IsAlerted(s.alerts, c) ==> c in s.cases;
  }

  lemma OldOwners(s: State, events: Events, cases: Cases, e: Id)
    requires Inv(s) && Own(s) && OldTables(events, cases) && e in events
    ensures Owned(With(s, events, cases).cases, e) <==> Owned(cases, e)
  {
    forall c ensures Owns(cases + s.cases, c, e) <==> Owns(cases, c, e) {
      if c in s.cases {
        assert RowOk(s.events, s.cases[c]);
      }
    }
    if Owned(cases, e) {
      var c :| Owns(cases, c, e);
      assert Owns(cases + s.cases, c, e);
    }
  }

  /** An old event is kept, and owned afterwards if and only if it was before. */
  lemma EventUntouched(steps: seq<Step>, events: Events, cases: Cases, e: Id)
    requires OldTables(events, cases) && e in events
    ensures var s := Run(With(INIT, events, cases), steps);
      && e in s.events && s.events[e] == events[e]
      && (Owned(s.cases, e) <==> Owned(cases, e))
  {
    OldRowsAside(steps, events, cases);
    AlwaysInv(steps);
    AlwaysOwn(steps);
    OldOwners(After(steps), events, cases, e);
  }

  // ----- a restart

  /** The id that a stopped listener had for what its successor knows as `id`. */
  function Former(id: Id, n: int): Id {
    id + n
  }

  ghost predicate ShiftedRow(row: Row, row': Row, n: int) {
    && row' == row.(events := row'.events)
    && |row'.events| == |row.events|
    && forall i :: 0 <= i < |row'.events| ==> row.events[i] == Former(row'.events[i], n)
  }

  ghost predicate ShiftedEvents(events: Events, events': Events, n: int) {
    && (forall e :: e in events' <==> Former(e, n) in events)
    && (forall e <- events' :: events'[e] == events[Former(e, n)])
  }

  ghost predicate ShiftedCases(cases: Cases, cases': Cases, n: int) {
    && (forall c :: c in cases' <==> Former(c, n) in cases)
    && (forall c <- cases' :: ShiftedRow(cases[Former(c, n)], cases'[c], n))
  }

  /** The tables that state `s` left, with all ids shifted below zero. */
  ghost predicate Leaves(s: State, events: Events, cases: Cases) {
    ShiftedEvents(s.events, events, s.nextId) && ShiftedCases(s.cases, cases, s.nextId)
  }

  lemma {:induction false} ShiftEvents(events: Events, n: int) returns (events': Events)
    ensures ShiftedEvents(events, events', n)
    decreases events.Keys
  {
    if e :| e in events {
      events' := ShiftEvents(events - {e}, n);
      assert Former(e - n, n) == e;
      events' := events'[e - n := events[e]];
    } else {
      events' := map[];
    }
  }

  lemma {:induction false} ShiftCases(cases: Cases, n: int) returns (cases': Cases)
    ensures ShiftedCases(cases, cases', n)
    decreases cases.Keys
  {
    if c :| c in cases {
      var events := cases[c].events;
      cases' := ShiftCases(cases - {c}, n);
      assert Former(c - n, n) == c;
      cases' := cases'[c - n := cases[c].(events := seq(|events|, i requires 0 <= i < |events| => events[i] - n))];
    } else {
      cases' := map[];
    }
  }

  /** Every state leaves such tables. */
  lemma LeavesSome(s: State) returns (events: Events, cases: Cases)
    ensures Leaves(s, events, cases)
  {
    events := ShiftEvents(s.events, s.nextId);
    cases := ShiftCases(s.cases, s.nextId);
  }

  lemma LeavesOld(s: State, events: Events, cases: Cases)
    requires Inv(s) && Leaves(s, events, cases)
    ensures OldTables(events, cases)
  {
  }

  lemma ShiftedIn(row: Row, row': Row, n: int, e: Id)
    requires ShiftedRow(row, row', n)
    ensures e in row'.events <==> Former(e, n) in row.events
  {
    if i :| 0 <= i < |row.events| && row.events[i] == Former(e, n) {
      assert row'.events[i] == e;
    }
  }

  lemma ShiftedOwners(cases: Cases, cases': Cases, n: int, e: Id)
    requires ShiftedCases(cases, cases', n)
    ensures Owned(cases', e) <==> Owned(cases, Former(e, n))
  {
    if Owned(cases', e) {
      var c :| Owns(cases', c, e);
      ShiftedIn(cases[Former(c, n)], cases'[c], n, e);
      assert Owns(cases, Former(c, n), Former(e, n));
    }
    if Owned(cases, Former(e, n)) {
      var c :| Owns(cases, c, Former(e, n));
      assert Former(c - n, n) == c;
      ShiftedIn(cases[c], cases'[c - n], n, e);
      assert Owns(cases', c - n, e);
    }
  }

  /**
   Whatever a listener does over the tables that another left at any moment, each case that was there
   stays as it was and is never alerted again: one that was buffered, held by a flush or just
   inserted is forgotten for good.
   */
  lemma RestartForgets(steps: seq<Step>, s: State, events: Events, cases: Cases, more: seq<Step>, c: Id)
    requires s == After(steps) && Leaves(s, events, cases) && Former(c, s.nextId) in s.cases
    ensures c in cases && ShiftedRow(s.cases[Former(c, s.nextId)], cases[c], s.nextId)
    ensures SetAside(Run(With(INIT, events, cases), more), c, cases[c])
  {
    AlwaysInv(steps);
    LeavesOld(s, events, cases);
    RowUntouched(more, events, cases, c);
  }

  lemma PendingUnowned(s: State)
    requires Inv(s)
    ensures forall e <- PendingEvent(s.ingest) :: !Owned(s.cases, e)
  {
  }

  /**
   The events that the restart leaves without an owner are those orphaned before and the one that the
   interrupted ingest had not yet placed; later calls neither add to them nor take them back.
   */
  lemma RestartOrphans(steps: seq<Step>, s: State, events: Events, cases: Cases, more: seq<Step>, e: Id)
    requires s == After(steps) && Leaves(s, events, cases) && Former(e, s.nextId) in s.events
    ensures var s', f := Run(With(INIT, events, cases), more), Former(e, s.nextId);
      e in s'.events && (!Owned(s'.cases, e) <==> f in LostEvents(steps) || f in PendingEvent(s.ingest))
  {
    AlwaysInv(steps);
    LeavesOld(s, events, cases);
    EventUntouched(more, events, cases, e);
    ShiftedOwners(s.cases, cases, s.nextId, e);
    OrphansExact(steps, Former(e, s.nextId));
    PendingUnowned(s);
  }
}
