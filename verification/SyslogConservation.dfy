/** Further laws of whole schedules: late appends, double ownership, and where every stub ends up. */
module SyslogConservation {
  import opened Store
  import opened SyslogMachine
  import opened SyslogInvariant
  import opened SyslogPreservation
  import opened SyslogAccounting

  function Before(steps: seq<Step>): seq<Step>
    requires steps != []
  {
    steps[..|steps| - 1]
  }

  function Last(steps: seq<Step>): Step
    requires steps != []
  {
    steps[|steps| - 1]
  }

  // ----- what is appended to a stub while it waits

  /** The event a step writes into the existing row of case `c`, if any. */
  function AppendedAt(s: State, step: Step, c: Id): set<Id> {
    if step == Update(true) && s.ingest.Fetched? && s.ingest.id == c && c in s.cases then {s.ingest.event} else {}
  }

  /** All events appended to case `c` along a schedule. */
  function Appends(steps: seq<Step>, c: Id): set<Id> {
    if steps == [] then {}
    else Appends(Before(steps), c) + AppendedAt(After(Before(steps)), Last(steps), c)
  }

  ghost predicate Waits(s: State, c: Id) {
    Lists(s.buffer, c) || Lists(Held(s.flush), c)
  }

  /** Those appended while `c` was buffered or held by a flush. */
  ghost function LateAppends(steps: seq<Step>, c: Id): set<Id> {
    if steps == [] then {}
    else
      var s := After(Before(steps));
      LateAppends(Before(steps), c) + if Waits(s, c) then AppendedAt(s, Last(steps), c) else {}
  }

  lemma UpdateAppends(s: State, c: Id)
    requires Inv(s) && s.ingest.Fetched? && c in s.cases
    ensures LateEvents(UpdateRow(s, true).cases, c) == LateEvents(s.cases, c) + AppendedAt(s, Update(true), c)
  {
    if c == s.ingest.id {
      var row, e := s.ingest.row, s.ingest.event;
      assert Appended(row, e).events[1..] == row.events[1..] + [e];
    }
  }

  /** Only an update changes a surviving row, and a new DROP row holds one event. */
  lemma OtherAppends(s: State, step: Step, c: Id)
    requires Inv(s) && c in Next(s, step).cases
    ensures c in s.cases && !step.Update? ==> Next(s, step).cases[c] == s.cases[c]
    ensures c !in s.cases ==> c == s.nextId
    ensures c !in s.cases && Next(s, step).cases[c].origin.Drop? ==> |Next(s, step).cases[c].events| == 1
  {
  }

  lemma NextAppends(s: State, step: Step, c: Id)
    requires Inv(s) && c in Next(s, step).cases && Next(s, step).cases[c].origin.Drop?
    ensures c in s.cases ==> LateEvents(Next(s, step).cases, c) == LateEvents(s.cases, c) + AppendedAt(s, step, c)
    ensures c !in s.cases ==> c == s.nextId && LateEvents(Next(s, step).cases, c) == {}
  {
    OtherAppends(s, step, c);
    if c in s.cases && step == Update(true) && s.ingest.Fetched? {
      UpdateAppends(s, c);
    }
  }

  lemma {:induction false} NoAppendsYet(steps: seq<Step>, c: Id)
    requires c >= After(steps).nextId
    ensures Appends(steps, c) == {}
  {
    if steps != [] {
      var s := After(Before(steps));
      AlwaysInv(Before(steps));
      NextEvolves(s, Last(steps));
      NoAppendsYet(Before(steps), c);
    }
  }

  /** A DROP case's row holds its first event and exactly the events appended to it. */
  lemma {:induction false} AppendsExact(steps: seq<Step>, c: Id)
    requires c in After(steps).cases && After(steps).cases[c].origin.Drop?
    ensures LateEvents(After(steps).cases, c) == Appends(steps, c)
  {
    if steps != [] {
      var s := After(Before(steps));
      AlwaysInv(Before(steps));
      NextAppends(s, Last(steps), c);
      if c in s.cases {
        NextEvolves(s, Last(steps));
        assert RowEvolves(s.cases[c], After(steps).cases[c]);
        AppendsExact(Before(steps), c);
      } else {
        NoAppendsYet(Before(steps), c);
      }
    }
  }

  /** Only publishing a new case adds a stub. */
  lemma NextStubs(s: State, step: Step, b: Stub)
    requires b in Next(s, step).buffer || b in Held(Next(s, step).flush)
    ensures b in s.buffer || b in Held(s.flush) || (step.Publish? && s.ingest.Opened? && b.id == s.ingest.id)
  {
  }

  lemma NextWaits(s: State, step: Step, c: Id)
    requires Waits(Next(s, step), c)
    ensures Waits(s, c) || (step.Publish? && s.ingest.Opened? && s.ingest.id == c)
  {
    var s' := Next(s, step);
    var b :| (b in s'.buffer || b in Held(s'.flush)) && b.id == c;
    NextStubs(s, step, b);
  }

  lemma {:induction false} LateAreAppends(steps: seq<Step>, c: Id)
    ensures LateAppends(steps, c) <= Appends(steps, c)
  {
    if steps != [] {
      LateAreAppends(Before(steps), c);
    }
  }

  /** Everything appended to a stub that still waits was appended while it waited. */
  lemma {:induction false} WaitingAppendsAreLate(steps: seq<Step>, c: Id)
    requires Waits(After(steps), c)
    ensures Appends(steps, c) == LateAppends(steps, c)
  {
    if steps != [] {
      var s, step := After(Before(steps)), Last(steps);
      AlwaysInv(Before(steps));
      NextWaits(s, step, c);
      if Waits(s, c) {
        WaitingAppendsAreLate(Before(steps), c);
      } else {
        AppendsExact(Before(steps), c);
        LateAreAppends(Before(steps), c);
      }
    }
  }

  lemma WaitingStubHasRow(s: State, c: Id)
    requires Inv(s) && Waits(s, c)
    ensures c in s.cases && s.cases[c].origin.Drop?
  {
  }

  /**
   What deleting a waiting stub's row orphans (see Lost): exactly the events appended to the case
   between its buffering and this moment, at whatever stage of the flush they came.
   */
  lemma WaitingStubExact(steps: seq<Step>, c: Id)
    requires Waits(After(steps), c)
    ensures c in After(steps).cases
    ensures LateEvents(After(steps).cases, c) == LateAppends(steps, c)
  {
    AlwaysInv(steps);
    WaitingStubHasRow(After(steps), c);
    AppendsExact(steps, c);
    WaitingAppendsAreLate(steps, c);
  }

  // ----- double ownership

  ghost predicate Shared(cases: map<Id, Row>, e: Id) {
    exists c, c' :: c != c' && Owns(cases, c, e) && Owns(cases, c', e)
  }

  /** A stub's event between the insertion of its burst and the deletion of its own row. */
  ghost predicate MidMerge(s: State, e: Id) {
    s.flush.Deleting? && exists b :: b in s.flush.rest && b.events != [] && b.events[0] == e
  }

  /** Owned twice for good. */
  ghost predicate Doubled(s: State, e: Id) {
    Shared(s.cases, e) && !MidMerge(s, e)
  }

  /** The event of a merged stub whose row could not be deleted. */
  function KeptAt(s: State, step: Step): set<Id> {
    if step == Delete(false) && s.flush.Deleting? && s.flush.rest != [] && s.flush.rest[0].events != []
    then {s.flush.rest[0].events[0]} else {}
  }

  function Kept(steps: seq<Step>): set<Id> {
    if steps == [] then {} else Kept(Before(steps)) + KeptAt(After(Before(steps)), Last(steps))
  }

  lemma SharedAfterGrowth(cases: map<Id, Row>, id: Id, row: Row, event: Id, e: Id)
    requires Grown(cases, id, row, event)
    ensures Shared(cases[id := row], e) <==> Shared(cases, e)
  {
    var cases' := cases[id := row];
    forall c ensures Owns(cases', c, e) <==> Owns(cases, c, e) || (c == id && e == event) {
      GrownOwners(cases, id, row, event, c, e);
    }
    forall c ensures !Owns(cases, c, event) {
      GrownOwners(cases, id, row, event, c, e);
    }
  }

  lemma SharedByMerge(cases: map<Id, Row>, alerts: seq<Alert>, batch: seq<Stub>, id: Id, row: Row, i: nat)
    requires StubsOk(cases, alerts, batch) && SoleOwners(cases, batch)
    requires id !in cases && row.events == Flatten(batch) && i < |batch| == |row.events|
    ensures Shared(cases[id := row], row.events[i]) && !Shared(cases, row.events[i])
  {
    var cases', e := cases[id := row], row.events[i];
    forall c ensures Owns(cases, c, e) <==> c == batch[i].id {
      BatchOwner(cases, alerts, batch, i, c);
    }
    MergedOwner(cases, id, row, batch[i].id, e);
    MergedOwner(cases, id, row, id, e);
    assert Owns(cases', batch[i].id, e) && Owns(cases', id, e);
  }

  lemma SharedAfterMerge(s: State, e: Id)
    requires Inv(s) && s.flush.Merging?
    ensures Doubled(MergeBatch(s, true), e) <==> Doubled(s, e)
  {
    var s', id, batch := MergeBatch(s, true), s.nextId, s.flush.batch;
    var row := s'.cases[id];
    BatchFacts(s.cases, s.alerts, batch);
    forall c ensures Owns(s'.cases, c, e) <==> Owns(s.cases, c, e) || (c == id && e in row.events) {
      MergedOwner(s.cases, id, row, c, e);
    }
    if e in row.events {
      var i :| 0 <= i < |batch| && row.events[i] == e;
      BatchOwner(s.cases, s.alerts, batch, i, id);
      SharedByMerge(s.cases, s.alerts, batch, id, row, i);
      assert batch[i] in batch;
    } else {
      assert forall b <- batch :: b.events[0] in row.events;
    }
  }

  lemma SharedAfterDelete(s: State, ok: bool, e: Id)
    requires Inv(s) && s.flush.Deleting? && s.flush.rest != []
    ensures Doubled(DeleteStub(s, ok), e) <==> Doubled(s, e) || e in KeptAt(s, Delete(ok))
  {
    var s', b0, burst := DeleteStub(s, ok), s.flush.rest[0], s.flush.burst;
    TailStubs(s.cases, s.alerts, s.flush.rest);
    assert forall c, x :: Owns(s'.cases, c, x) <==> Owns(s.cases, c, x) && (ok ==> c != b0.id);
    assert Owns(s.cases, burst, b0.events[0]) && Owns(s.cases, b0.id, b0.events[0]) && burst != b0.id;
  }

  lemma SharedAfterOpen(s: State, ok: bool, e: Id)
    requires Inv(s) && s.ingest.Stored? && KeyOf(s.ingest.line) !in s.index
    ensures Doubled(OpenCase(s, ok), e) <==> Doubled(s, e)
  {
    if ok {
      SharedAfterGrowth(s.cases, s.nextId, OpenCase(s, ok).cases[s.nextId], s.ingest.event, e);
    }
  }

  lemma SharedAfterUpdate(s: State, ok: bool, e: Id)
    requires Inv(s) && s.ingest.Fetched?
    ensures Doubled(UpdateRow(s, ok), e) <==> Doubled(s, e)
  {
    if ok && s.ingest.id in s.cases {
      SharedAfterGrowth(s.cases, s.ingest.id, Appended(s.ingest.row, s.ingest.event), s.ingest.event, e);
    }
  }

  lemma SharedAfterOther(s: State, step: Step, e: Id)
    requires !step.Open? && !step.Update? && step != Merge(true) && !step.Delete?
    ensures Doubled(Next(s, step), e) <==> Doubled(s, e)
    ensures KeptAt(s, step) == {}
  {
    assert Next(s, step).cases == s.cases;
    assert MidMerge(Next(s, step), e) <==> MidMerge(s, e);
  }

  lemma NextShared(s: State, step: Step, e: Id)
    requires Inv(s)
    ensures Doubled(Next(s, step), e) <==> Doubled(s, e) || e in KeptAt(s, step)
  {
    if step.Open? {
      if s.ingest.Stored? && KeyOf(s.ingest.line) !in s.index { SharedAfterOpen(s, step.ok, e); }
    } else if step.Update? {
      if s.ingest.Fetched? { SharedAfterUpdate(s, step.ok, e); }
    } else if step == Merge(true) {
      if s.flush.Merging? { SharedAfterMerge(s, e); }
    } else if step.Delete? {
      if s.flush.Deleting? && s.flush.rest != [] { SharedAfterDelete(s, step.ok, e); }
    } else {
      SharedAfterOther(s, step, e);
    }
  }

  lemma MidMergeIsShared(s: State, e: Id)
    requires Inv(s) && MidMerge(s, e)
    ensures Shared(s.cases, e)
  {
    var b :| b in s.flush.rest && b.events != [] && b.events[0] == e;
    assert StubOk(s.cases, s.alerts, b);
    assert Owns(s.cases, b.id, e) && Owns(s.cases, s.flush.burst, e);
  }

  lemma {:induction false} DoubledExact(steps: seq<Step>, e: Id)
    ensures Doubled(After(steps), e) <==> e in Kept(steps)
  {
    if steps != [] {
      AlwaysInv(Before(steps));
      DoubledExact(Before(steps), e);
      NextShared(After(Before(steps)), Last(steps), e);
    }
  }

  /**
   After any schedule an event is owned by two cases exactly when it is a stub's event and either
   the stub is in the middle of being merged or its deletion failed.
   */
  lemma SharedExact(steps: seq<Step>, e: Id)
    ensures Shared(After(steps).cases, e) <==> MidMerge(After(steps), e) || e in Kept(steps)
  {
    AlwaysInv(steps);
    DoubledExact(steps, e);
    if MidMerge(After(steps), e) {
      MidMergeIsShared(After(steps), e);
    }
  }
}
