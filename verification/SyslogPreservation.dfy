/** Every step of either goroutine keeps the invariant. */
module SyslogPreservation {
  import opened Text
  import opened Ports
  import opened Store
  import opened Seqs
  import opened SyslogMachine
  import opened SyslogInvariant

  // ----- one change to one table

  lemma AlertedAfter(alerts: seq<Alert>, a: Alert)
    ensures forall id :: IsAlerted(alerts + [a], id) <==> IsAlerted(alerts, id) || id == a.id
  {
    assert (alerts + [a])[|alerts|] == a;
  }

  /** `row` is a DROP case's row after one more event, which no row owned before. */
  ghost predicate Grown(cases: map<Id, Row>, id: Id, row: Row, e: Id) {
    && !Owned(cases, e)
    && row.origin.Drop?
    && row.events == (if id in cases then cases[id].events else []) + [e]
    && (id in cases ==> row.origin == cases[id].origin && row.severity == cases[id].severity && cases[id].events != [])
  }

  lemma GrownOwners(cases: map<Id, Row>, id: Id, row: Row, e: Id, c: Id, x: Id)
    requires Grown(cases, id, row, e)
    ensures !Owns(cases, c, e)
    ensures Owns(cases[id := row], c, x) <==> Owns(cases, c, x) || (c == id && x == e)
  {
  }

  lemma GrownSoleOwner(cases: map<Id, Row>, id: Id, row: Row, e: Id, cases': map<Id, Row>)
    requires Grown(cases, id, row, e) && cases' == cases[id := row]
    ensures forall c :: Owns(cases', c, e) ==> c == id
  {
    forall c | Owns(cases', c, e) ensures c == id {
      GrownOwners(cases, id, row, e, c, e);
    }
  }

  lemma GrownKeepsSharing(cases: map<Id, Row>, id: Id, row: Row, e: Id)
    requires SharingOk(cases) && Grown(cases, id, row, e)
    ensures SharingOk(cases[id := row])
  {
    var cases' := cases[id := row];
    forall c, c', x | Owns(cases', c, x) && Owns(cases', c', x) && c != c'
      ensures MayShare(cases'[c], cases'[c'], x)
    {
      GrownOwners(cases, id, row, e, c, x);
      GrownOwners(cases, id, row, e, c', x);
    }
  }

  lemma GrownKeepsStubs(cases: map<Id, Row>, alerts: seq<Alert>, stubs: seq<Stub>, id: Id, row: Row, e: Id)
    requires StubsOk(cases, alerts, stubs) && Grown(cases, id, row, e)
    ensures StubsOk(cases[id := row], alerts, stubs)
  {
    forall b <- stubs ensures StubOk(cases[id := row], alerts, b) {
      assert StubOk(cases, alerts, b);
    }
  }

  lemma GrownKeepsSoleOwners(cases: map<Id, Row>, alerts: seq<Alert>, stubs: seq<Stub>, id: Id, row: Row, e: Id)
    requires StubsOk(cases, alerts, stubs) && SoleOwners(cases, stubs) && Grown(cases, id, row, e)
    ensures SoleOwners(cases[id := row], stubs)
  {
    var cases' := cases[id := row];
    forall b <- stubs, c: Id | b.events != [] && Owns(cases', c, b.events[0]) ensures c == b.id {
      assert StubOk(cases, alerts, b);
      GrownOwners(cases, id, row, e, c, b.events[0]);
      GrownOwners(cases, id, row, e, b.id, b.events[0]);
      assert Owns(cases, b.id, b.events[0]);
    }
  }

  lemma DeletedOwners(cases: map<Id, Row>, id: Id)
    ensures forall c, e :: Owns(cases - {id}, c, e) ==> Owns(cases, c, e)
    ensures forall e :: Owned(cases - {id}, e) ==> Owned(cases, e)
  {
  }

  lemma DeletedKeepsSharing(cases: map<Id, Row>, id: Id)
    requires SharingOk(cases)
    ensures SharingOk(cases - {id})
  {
    DeletedOwners(cases, id);
  }

  lemma DeletedKeepsSoleOwners(cases: map<Id, Row>, id: Id, stubs: seq<Stub>)
    requires SoleOwners(cases, stubs)
    ensures SoleOwners(cases - {id}, stubs)
  {
    DeletedOwners(cases, id);
  }

  lemma DeletedKeepsStubs(cases: map<Id, Row>, alerts: seq<Alert>, stubs: seq<Stub>, id: Id)
    requires StubsOk(cases, alerts, stubs) && forall b <- stubs :: b.id != id
    ensures StubsOk(cases - {id}, alerts, stubs)
  {
    forall b <- stubs ensures StubOk(cases - {id}, alerts, b) {
      assert StubOk(cases, alerts, b);
    }
  }

  lemma TailStubs(cases: map<Id, Row>, alerts: seq<Alert>, stubs: seq<Stub>)
    requires StubsOk(cases, alerts, stubs) && stubs != []
    ensures StubOk(cases, alerts, stubs[0])
    ensures StubsOk(cases, alerts, stubs[1..])
    ensures forall b <- stubs[1..] :: b in stubs && b.id != stubs[0].id
  {
    forall i | 0 <= i < |stubs[1..]| ensures stubs[1..][i] == stubs[i + 1] {}
  }

  lemma AlertedKeepsStubs(cases: map<Id, Row>, alerts: seq<Alert>, stubs: seq<Stub>, a: Alert)
    requires StubsOk(cases, alerts, stubs) && forall b <- stubs :: b.id != a.id
    ensures StubsOk(cases, alerts + [a], stubs)
  {
    AlertedAfter(alerts, a);
    forall b <- stubs ensures StubOk(cases, alerts + [a], b) {
      assert StubOk(cases, alerts, b);
    }
  }

  /** A new alert for a row that had none and whose alert is now due. */
  lemma AlertedKeepsAlerts(cases: map<Id, Row>, alerts: seq<Alert>, a: Alert, opening: Option<Id>, merging: Option<Id>,
                           opening': Option<Id>, merging': Option<Id>)
    requires AlertsOk(cases, alerts, opening, merging)
    requires AlertOk(cases, a) && !IsAlerted(alerts, a.id)
    requires opening' == opening || (opening == Some(a.id) && opening' == None)
    requires cases[a.id].origin.Drop? ==> merging' == merging
    requires cases[a.id].origin.Burst? ==> cases[a.id].severity == Medium && merging == Some(a.id) && merging' == None
    ensures AlertsOk(cases, alerts + [a], opening', merging')
  {
    AlertedAfter(alerts, a);
    forall c <- cases
      ensures RowAlertOk(cases[c], IsAlerted(alerts + [a], c), opening' == Some(c), merging' == Some(c))
    {
      assert RowAlertOk(cases[c], IsAlerted(alerts, c), opening == Some(c), merging == Some(c));
    }
  }

  // ----- the ingest goroutine's steps

  lemma AcceptKeepsTables(s: State, line: Line, retried: bool, ok: bool)
    requires Inv(s)
    ensures var s' := Accept(s, line, retried, ok);
      && TablesOk(s'.events, s'.cases, s'.nextId)
      && IndexOk(s'.events, s'.cases, s'.index, s'.nextId)
  {
  }

  lemma AcceptKeeps(s: State, line: Line, retried: bool, ok: bool)
    requires Inv(s) && (s.ingest.Waiting? || s.ingest.Retrying?)
    requires retried ==> KeyOf(line) !in s.index
    ensures Inv(Accept(s, line, retried, ok))
  {
    AcceptKeepsTables(s, line, retried, ok);
  }

  lemma OpenKeepsTables(s: State)
    requires Inv(s) && s.ingest.Stored? && KeyOf(s.ingest.line) !in s.index
    ensures var s' := OpenCase(s, true);
      && TablesOk(s'.events, s'.cases, s'.nextId)
      && IndexOk(s'.events, s'.cases, s'.index, s'.nextId)
  {
  }

  lemma OpenKeepsAlerts(s: State)
    requires Inv(s) && s.ingest.Stored? && KeyOf(s.ingest.line) !in s.index
    ensures var s' := OpenCase(s, true);
      && FlushOk(s'.cases, s'.alerts, s'.flush)
      && AlertsOk(s'.cases, s'.alerts, OpenedId(s'.ingest), MergingId(s'.flush))
      && !IsAlerted(s'.alerts, s.nextId) && !Lists(s'.buffer, s.nextId) && !Lists(Held(s'.flush), s.nextId)
  {
  }

  lemma OpenKeeps(s: State, ok: bool)
    requires Inv(s) && s.ingest.Stored? && KeyOf(s.ingest.line) !in s.index
    ensures Inv(OpenCase(s, ok))
  {
    if ok {
      var s', e, id := OpenCase(s, ok), s.ingest.event, s.nextId;
      OpenKeepsTables(s);
      OpenKeepsAlerts(s);
      GrownSoleOwner(s.cases, id, s'.cases[id], e, s'.cases);
      GrownKeepsSharing(s.cases, id, s'.cases[id], e);
      GrownKeepsStubs(s.cases, s.alerts, s.buffer, id, s'.cases[id], e);
      GrownKeepsStubs(s.cases, s.alerts, Held(s.flush), id, s'.cases[id], e);
      GrownKeepsSoleOwners(s.cases, s.alerts, s.buffer, id, s'.cases[id], e);
      if !s.flush.Deleting? {
        GrownKeepsSoleOwners(s.cases, s.alerts, Held(s.flush), id, s'.cases[id], e);
      }
    }
  }

  lemma PublishKeepsStubs(s: State)
    requires Inv(s) && s.ingest.Opened? && ClassifySeverity(s.ingest.line.dstPort) != Some(High)
    ensures var s' := PublishCase(s);
      && StubsOk(s'.cases, s'.alerts, s'.buffer)
      && Disjoint(s'.buffer, Held(s'.flush))
      && SoleOwners(s'.cases, s'.buffer)
  {
    var s' := PublishCase(s);
    assert forall b <- s'.buffer :: b in s.buffer || b == s'.buffer[|s.buffer|];
    assert forall b <- s.buffer :: b.id != s.ingest.id;
    assert forall b <- Held(s.flush) :: b.id != s.ingest.id;
  }

  lemma PublishKeeps(s: State)
    requires Inv(s) && s.ingest.Opened?
    ensures Inv(PublishCase(s))
  {
    var line, id := s.ingest.line, s.ingest.id;
    var severity := ClassifySeverity(line.dstPort).value;
    if severity == High {
      var a := Alert(id, severity, Immediate);
      AlertedAfter(s.alerts, a);
      AlertedKeepsStubs(s.cases, s.alerts, s.buffer, a);
      AlertedKeepsStubs(s.cases, s.alerts, Held(s.flush), a);
      AlertedKeepsAlerts(s.cases, s.alerts, a, Some(id), MergingId(s.flush), None, MergingId(s.flush));
    } else {
      PublishKeepsStubs(s);
    }
  }

  lemma FetchKeeps(s: State, ok: bool)
    requires Inv(s) && s.ingest.Stored? && KeyOf(s.ingest.line) in s.index
    ensures Inv(FetchCase(s, ok))
  {
  }

  lemma UpdateKeepsTables(s: State, ok: bool)
    requires Inv(s) && s.ingest.Fetched?
    ensures var s' := UpdateRow(s, ok);
      && TablesOk(s'.events, s'.cases, s'.nextId)
      && IndexOk(s'.events, s'.cases, s'.index, s'.nextId)
  {
    var id, e := s.ingest.id, s.ingest.event;
    assert id in s.cases ==> (Owns(s.cases, id, e) <==> e in s.ingest.row.events);
  }

  lemma UpdateKeepsAlerts(s: State, ok: bool)
    requires Inv(s) && s.ingest.Fetched?
    ensures var s' := UpdateRow(s, ok);
      && FlushOk(s'.cases, s'.alerts, s'.flush)
      && AlertsOk(s'.cases, s'.alerts, OpenedId(s'.ingest), MergingId(s'.flush))
  {
  }

  lemma UpdateKeeps(s: State, ok: bool)
    requires Inv(s) && s.ingest.Fetched?
    ensures Inv(UpdateRow(s, ok))
  {
    UpdateKeepsTables(s, ok);
    UpdateKeepsAlerts(s, ok);
    if ok && s.ingest.id in s.cases {
      var e, id, row := s.ingest.event, s.ingest.id, Appended(s.ingest.row, s.ingest.event);
      GrownKeepsSharing(s.cases, id, row, e);
      GrownKeepsStubs(s.cases, s.alerts, s.buffer, id, row, e);
      GrownKeepsStubs(s.cases, s.alerts, Held(s.flush), id, row, e);
      GrownKeepsSoleOwners(s.cases, s.alerts, s.buffer, id, row, e);
      if !s.flush.Deleting? {
        GrownKeepsSoleOwners(s.cases, s.alerts, Held(s.flush), id, row, e);
      }
    }
  }

  // ----- the flush goroutine's steps

  lemma DrainKeeps(s: State)
    requires Inv(s) && s.flush.Asleep?
    ensures Inv(DrainBuffer(s))
  {
  }

  lemma AlertKeeps(s: State)
    requires Inv(s) && s.flush.Alerting? && s.flush.rest != []
    ensures Inv(AlertStub(s))
  {
    var b0, rest := s.flush.rest[0], s.flush.rest[1..];
    var a := Alert(b0.id, b0.severity, s.flush.reason);
    TailStubs(s.cases, s.alerts, s.flush.rest);
    AlertedAfter(s.alerts, a);
    AlertedKeepsStubs(s.cases, s.alerts, rest, a);
    AlertedKeepsStubs(s.cases, s.alerts, s.buffer, a);
    AlertedKeepsAlerts(s.cases, s.alerts, a, OpenedId(s.ingest), None, OpenedId(s.ingest), None);
  }

  lemma {:induction false} FlattenSingles(batch: seq<Stub>)
    requires forall b <- batch :: |b.events| == 1
    ensures |Flatten(batch)| == |batch|
    ensures forall i :: 0 <= i < |batch| ==> batch[i].events == [Flatten(batch)[i]]
  {
    if batch != [] {
      FlattenSingles(batch[..|batch| - 1]);
    }
  }

  lemma {:induction false} HighestRank(batch: seq<Stub>)
    requires forall b <- batch :: b.severity in {Low, Medium}
    ensures Highest(batch) == if exists b :: b in batch && b.severity == Medium then Medium else Low
  {
    if batch != [] {
      var n := |batch| - 1;
      HighestRank(batch[..n]);
      assert batch == batch[..n] + [batch[n]];
    }
  }

  /** What decides a merged burst's severity: only whether a medium port was hit. */
  lemma MergedSeverityByPort(batch: seq<Stub>)
    requires forall b <- batch :: b.severity in {Low, Medium} && ClassifySeverity(b.dstPort) == Some(b.severity)
    ensures MergedSeverity(batch) == if exists b :: b in batch && b.dstPort in MEDIUM_PORTS then Medium else Info
  {
    HighestRank(batch);
    if b :| b in batch && b.dstPort in MEDIUM_PORTS {
      assert b.severity == Medium;
      assert b.dstPort in PortsOf(batch);
    }
  }

  /** The i-th event of a batch about to be merged belongs to the i-th stub's row and to no other. */
  lemma BatchOwner(cases: map<Id, Row>, alerts: seq<Alert>, batch: seq<Stub>, i: nat, c: Id)
    requires StubsOk(cases, alerts, batch) && SoleOwners(cases, batch) && i < |batch|
    ensures |Flatten(batch)| == |batch| && batch[i].events == [Flatten(batch)[i]]
    ensures StubOk(cases, alerts, batch[i])
    ensures Owns(cases, c, Flatten(batch)[i]) <==> c == batch[i].id
  {
    assert forall b <- batch :: StubOk(cases, alerts, b);
    FlattenSingles(batch);
    assert batch[i] in batch;
    assert Owns(cases, batch[i].id, batch[i].events[0]);
  }

  lemma BatchFacts(cases: map<Id, Row>, alerts: seq<Alert>, batch: seq<Stub>)
    requires StubsOk(cases, alerts, batch) && SoleOwners(cases, batch)
    ensures |Flatten(batch)| == |batch|
    ensures NoDup(Flatten(batch))
    ensures forall b <- batch :: b.events != [] && b.events[0] in Flatten(batch)
    ensures MergedSeverity(batch) in {Medium, Info}
  {
    assert forall b <- batch :: StubOk(cases, alerts, b);
    FlattenSingles(batch);
    MergedSeverityByPort(batch);
    forall i, j | 0 <= i < j < |batch| ensures Flatten(batch)[i] != Flatten(batch)[j] {
      BatchOwner(cases, alerts, batch, i, batch[i].id);
      BatchOwner(cases, alerts, batch, j, batch[i].id);
    }
  }

  /** A burst row is written: it takes over its stubs' events. */
  lemma MergedOwner(cases: map<Id, Row>, id: Id, row: Row, c: Id, e: Id)
    requires id !in cases
    ensures Owns(cases[id := row], c, e) <==> Owns(cases, c, e) || (c == id && e in row.events)
  {
  }

  /** Only its stubs' rows share events with a new burst. */
  lemma MergedKeepsSharing(cases: map<Id, Row>, alerts: seq<Alert>, batch: seq<Stub>, id: Id, row: Row)
    requires SharingOk(cases) && StubsOk(cases, alerts, batch) && SoleOwners(cases, batch)
    requires id !in cases && row.origin.Burst? && row.events == Flatten(batch)
    ensures SharingOk(cases[id := row])
  {
    var cases' := cases[id := row];
    forall c, e | Owns(cases, c, e) && e in row.events ensures MayShare(cases[c], row, e) {
      var i :| 0 <= i < |row.events| && row.events[i] == e;
      BatchFacts(cases, alerts, batch);
      BatchOwner(cases, alerts, batch, i, c);
    }
    forall c, c', e | Owns(cases', c, e) && Owns(cases', c', e) && c != c'
      ensures MayShare(cases'[c], cases'[c'], e)
    {
      MergedOwner(cases, id, row, c, e);
      MergedOwner(cases, id, row, c', e);
    }
  }

  lemma MergedKeepsOwned(cases: map<Id, Row>, alerts: seq<Alert>, batch: seq<Stub>, id: Id, row: Row, e: Id)
    requires StubsOk(cases, alerts, batch) && SoleOwners(cases, batch)
    requires id !in cases && row.events == Flatten(batch)
    ensures Owned(cases[id := row], e) <==> Owned(cases, e)
  {
    var cases' := cases[id := row];
    if c :| Owns(cases, c, e) {
      MergedOwner(cases, id, row, c, e);
    }
    if c :| Owns(cases', c, e) {
      MergedOwner(cases, id, row, c, e);
      if c == id {
        BatchFacts(cases, alerts, batch);
        var i :| 0 <= i < |row.events| && row.events[i] == e;
        BatchOwner(cases, alerts, batch, i, batch[i].id);
      }
    }
  }

  /** A row outside the batch shares nothing with the new burst. */
  lemma MergedKeepsSole(cases: map<Id, Row>, alerts: seq<Alert>, batch: seq<Stub>, id: Id, row: Row, own: Id, e: Id)
    requires StubsOk(cases, alerts, batch) && SoleOwners(cases, batch)
    requires id !in cases && row.events == Flatten(batch)
    requires Owns(cases, own, e) && !Lists(batch, own)
    ensures !Owns(cases[id := row], id, e)
  {
    BatchFacts(cases, alerts, batch);
    forall i | 0 <= i < |batch| ensures row.events[i] != e {
      BatchOwner(cases, alerts, batch, i, own);
      assert batch[i] in batch;
    }
  }

  lemma MergedKeepsOthers(cases: map<Id, Row>, alerts: seq<Alert>, batch: seq<Stub>, others: seq<Stub>, id: Id, row: Row)
    requires StubsOk(cases, alerts, batch) && SoleOwners(cases, batch)
    requires StubsOk(cases, alerts, others) && SoleOwners(cases, others) && Disjoint(others, batch)
    requires id !in cases && row.events == Flatten(batch)
    ensures SoleOwners(cases[id := row], others)
  {
    var cases' := cases[id := row];
    forall b <- others, c: Id | b.events != [] && Owns(cases', c, b.events[0]) ensures c == b.id {
      assert StubOk(cases, alerts, b);
      assert Owns(cases, b.id, b.events[0]);
      assert forall b' <- batch :: b'.id != b.id;
      MergedKeepsSole(cases, alerts, batch, id, row, b.id, b.events[0]);
      MergedOwner(cases, id, row, c, b.events[0]);
    }
  }

  lemma MergedKeepsStubs(cases: map<Id, Row>, alerts: seq<Alert>, stubs: seq<Stub>, id: Id, row: Row)
    requires StubsOk(cases, alerts, stubs) && id !in cases
    ensures StubsOk(cases[id := row], alerts, stubs)
  {
    forall b <- stubs ensures StubOk(cases[id := row], alerts, b) {
      assert StubOk(cases, alerts, b);
    }
  }

  lemma MergeKeepsTables(s: State)
    requires Inv(s) && s.flush.Merging?
    ensures var s' := MergeBatch(s, true);
      && TablesOk(s'.events, s'.cases, s'.nextId)
      && IndexOk(s'.events, s'.cases, s'.index, s'.nextId)
  {
    var batch := s.flush.batch;
    BatchFacts(s.cases, s.alerts, batch);
    forall i | 0 <= i < |batch| ensures Flatten(batch)[i] in s.events {
      BatchOwner(s.cases, s.alerts, batch, i, batch[i].id);
      assert RowOk(s.events, s.cases[batch[i].id]);
    }
  }

  lemma MergeKeepsAlerts(s: State)
    requires Inv(s) && s.flush.Merging?
    ensures var s' := MergeBatch(s, true);
      && FlushOk(s'.cases, s'.alerts, s'.flush)
      && AlertsOk(s'.cases, s'.alerts, OpenedId(s'.ingest), MergingId(s'.flush))
  {
    BatchFacts(s.cases, s.alerts, s.flush.batch);
  }

  lemma MergeKeepsPending(s: State)
    requires Inv(s) && s.flush.Merging?
    ensures var s' := MergeBatch(s, true);
      IngestOk(s'.events, s'.cases, s'.index, s'.alerts, s'.buffer, Held(s'.flush), s'.ingest)
  {
    var s', id := MergeBatch(s, true), s.nextId;
    var row := s'.cases[id];
    if s.ingest.Stored? || s.ingest.Fetched? {
      MergedKeepsOwned(s.cases, s.alerts, s.flush.batch, id, row, s.ingest.event);
    } else if s.ingest.Opened? {
      assert Owns(s.cases, s.ingest.id, s.ingest.event);
      MergedKeepsSole(s.cases, s.alerts, s.flush.batch, id, row, s.ingest.id, s.ingest.event);
      forall c | Owns(s'.cases, c, s.ingest.event) ensures c == s.ingest.id {
        MergedOwner(s.cases, id, row, c, s.ingest.event);
      }
    }
  }

  lemma MergeKeeps(s: State, ok: bool)
    requires Inv(s) && s.flush.Merging?
    ensures Inv(MergeBatch(s, ok))
  {
    if ok {
      var s', id := MergeBatch(s, true), s.nextId;
      MergeKeepsTables(s);
      MergeKeepsAlerts(s);
      MergeKeepsPending(s);
      MergedKeepsSharing(s.cases, s.alerts, s.flush.batch, id, s'.cases[id]);
      MergedKeepsOthers(s.cases, s.alerts, s.flush.batch, s.buffer, id, s'.cases[id]);
      MergedKeepsStubs(s.cases, s.alerts, s.flush.batch, id, s'.cases[id]);
      MergedKeepsStubs(s.cases, s.alerts, s.buffer, id, s'.cases[id]);
    }
  }

  lemma DeleteKeepsTables(s: State, ok: bool)
    requires Inv(s) && s.flush.Deleting? && s.flush.rest != []
    ensures var s' := DeleteStub(s, ok);
      && TablesOk(s'.events, s'.cases, s'.nextId)
      && IndexOk(s'.events, s'.cases, s'.index, s'.nextId)
      && FlushOk(s'.cases, s'.alerts, s'.flush)
      && AlertsOk(s'.cases, s'.alerts, OpenedId(s'.ingest), MergingId(s'.flush))
      && IngestOk(s'.events, s'.cases, s'.index, s'.alerts, s'.buffer, Held(s'.flush), s'.ingest)
  {
    TailStubs(s.cases, s.alerts, s.flush.rest);
    DeletedOwners(s.cases, s.flush.rest[0].id);
    assert s.ingest.Opened? ==> s.ingest.id != s.flush.rest[0].id;
  }

  lemma DeleteKeeps(s: State, ok: bool)
    requires Inv(s) && s.flush.Deleting? && s.flush.rest != []
    ensures Inv(DeleteStub(s, ok))
  {
    var b0, rest := s.flush.rest[0], s.flush.rest[1..];
    DeleteKeepsTables(s, ok);
    TailStubs(s.cases, s.alerts, s.flush.rest);
    if ok {
      DeletedKeepsSharing(s.cases, b0.id);
      DeletedKeepsSoleOwners(s.cases, b0.id, s.buffer);
      DeletedKeepsStubs(s.cases, s.alerts, rest, b0.id);
      DeletedKeepsStubs(s.cases, s.alerts, s.buffer, b0.id);
    }
  }

  lemma AnnounceKeeps(s: State)
    requires Inv(s) && s.flush.Deleting? && s.flush.rest == []
    ensures Inv(AnnounceBurst(s))
  {
    if s.flush.severity != Info {
      var a := Alert(s.flush.burst, s.flush.severity, Rollup);
      assert forall b <- s.buffer :: StubOk(s.cases, s.alerts, b);
      AlertedAfter(s.alerts, a);
      AlertedKeepsStubs(s.cases, s.alerts, s.buffer, a);
      AlertedKeepsAlerts(s.cases, s.alerts, a, OpenedId(s.ingest), Some(s.flush.burst), OpenedId(s.ingest), None);
    }
  }

  // ----- every step of every schedule

  lemma NextKeeps(s: State, step: Step)
    requires Inv(s)
    ensures Inv(Next(s, step))
  {
    match step
    case Receive(line, ok) => if s.ingest.Waiting? { AcceptKeeps(s, line, false, ok); }
    case Open(ok) => if s.ingest.Stored? && KeyOf(s.ingest.line) !in s.index { OpenKeeps(s, ok); }
    case Publish => if s.ingest.Opened? { PublishKeeps(s); }
    case Fetch(ok) => if s.ingest.Stored? && KeyOf(s.ingest.line) in s.index { FetchKeeps(s, ok); }
    case Retry(ok) => if s.ingest.Retrying? { AcceptKeeps(s, s.ingest.line, true, ok); }
    case Update(ok) => if s.ingest.Fetched? { UpdateKeeps(s, ok); }
    case Drain => if s.flush.Asleep? { DrainKeeps(s); }
    case AlertNext => if s.flush.Alerting? && s.flush.rest != [] { AlertKeeps(s); }
    case Merge(ok) => if s.flush.Merging? { MergeKeeps(s, ok); }
    case Delete(ok) => if s.flush.Deleting? && s.flush.rest != [] { DeleteKeeps(s, ok); }
    case Announce => if s.flush.Deleting? && s.flush.rest == [] { AnnounceKeeps(s); }
  }

  /** The invariant holds after every schedule of the two goroutines. */
  lemma {:induction false} AlwaysInv(steps: seq<Step>)
    ensures Inv(After(steps))
  {
    if steps != [] {
      AlwaysInv(steps[..|steps| - 1]);
      NextKeeps(After(steps[..|steps| - 1]), steps[|steps| - 1]);
    }
  }
}
