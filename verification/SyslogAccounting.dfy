/** What whole schedules conserve: events, ownership, cases and alerts. */
module SyslogAccounting {
  import opened Ports
  import opened Store
  import opened SyslogMachine
  import opened SyslogInvariant
  import opened SyslogPreservation

  // ----- rows over time

  ghost predicate RowEvolves(row: Row, row': Row) {
    && row'.origin == row.origin
    && row'.severity == row.severity
    && row.events <= row'.events
    && (row.status == Closed || row.origin.Burst? ==> row' == row)
  }

  /** Nothing but low or medium DROP cases that were never alerted can disappear, and ids are not reused. */
  ghost predicate Evolves(s: State, s': State) {
    && s.nextId <= s'.nextId
    && s.alerts <= s'.alerts
    && (forall e <- s.events :: e in s'.events && s'.events[e] == s.events[e])
    && (forall c <- s.cases :: c in s'.cases ==> RowEvolves(s.cases[c], s'.cases[c]))
    && (forall c <- s.cases :: c !in s'.cases ==>
          s.cases[c].origin.Drop? && s.cases[c].severity in {Low, Medium} && !IsAlerted(s'.alerts, c))
    && (forall c <- s'.cases :: c in s.cases || c >= s.nextId)
  }

  lemma UpdateEvolves(s: State, ok: bool)
    requires Inv(s) && s.ingest.Fetched?
    ensures Evolves(s, UpdateRow(s, ok))
  {
  }

  lemma DeleteEvolves(s: State, ok: bool)
    requires Inv(s) && s.flush.Deleting? && s.flush.rest != []
    ensures Evolves(s, DeleteStub(s, ok))
  {
    assert StubOk(s.cases, s.alerts, s.flush.rest[0]);
  }

  lemma OpenEvolves(s: State, ok: bool)
    requires Inv(s) && s.ingest.Stored?
    ensures Evolves(s, OpenCase(s, ok))
  {
  }

  lemma MergeEvolves(s: State, ok: bool)
    requires Inv(s) && s.flush.Merging?
    ensures Evolves(s, MergeBatch(s, ok))
  {
  }

  lemma AcceptEvolves(s: State, line: Line, retried: bool, ok: bool)
    requires Inv(s)
    ensures Evolves(s, Accept(s, line, retried, ok))
  {
  }

  predicate KeepsRows(step: Step) {
    step.Publish? || step.Fetch? || step.Drain? || step.AlertNext? || step.Announce?
  }

  lemma SameRowsEvolve(s: State, step: Step)
    requires KeepsRows(step)
    ensures Evolves(s, Next(s, step))
  {
    var s' := Next(s, step);
    assert s'.events == s.events && s'.cases == s.cases && s'.nextId == s.nextId;
    assert s.alerts <= s'.alerts;
  }

  lemma NextEvolves(s: State, step: Step)
    requires Inv(s)
    ensures Evolves(s, Next(s, step))
  {
    if KeepsRows(step) {
      SameRowsEvolve(s, step);
    } else if step.Receive? && s.ingest.Waiting? {
      AcceptEvolves(s, step.line, false, step.ok);
    } else if step.Retry? && s.ingest.Retrying? {
      AcceptEvolves(s, s.ingest.line, true, step.ok);
    } else if step.Open? && s.ingest.Stored? {
      OpenEvolves(s, step.ok);
    } else if step.Update? && s.ingest.Fetched? {
      UpdateEvolves(s, step.ok);
    } else if step.Merge? && s.flush.Merging? {
      MergeEvolves(s, step.ok);
    } else if step.Delete? && s.flush.Deleting? && s.flush.rest != [] {
      DeleteEvolves(s, step.ok);
    }
  }

  lemma EvolvesTransitive(s: State, s': State, s'': State)
    requires Evolves(s, s') && Evolves(s', s'')
    requires Inv(s) && Inv(s'')
    ensures Evolves(s, s'')
  {
    forall c <- s.cases | c !in s''.cases
      ensures s.cases[c].origin.Drop? && s.cases[c].severity in {Low, Medium} && !IsAlerted(s''.alerts, c)
    {
      if c in s'.cases {
        assert RowEvolves(s.cases[c], s'.cases[c]);
      }
    }
    forall c <- s.cases | c in s''.cases ensures RowEvolves(s.cases[c], s''.cases[c]) {
      assert c in s'.cases;
      assert RowEvolves(s.cases[c], s'.cases[c]);
      assert RowEvolves(s'.cases[c], s''.cases[c]);
    }
  }

  lemma OneMoreEvolves(s: State, s': State, step: Step)
    requires Evolves(s, s') && Inv(s) && Inv(s')
    ensures Evolves(s, Next(s', step))
  {
    NextKeeps(s', step);
    NextEvolves(s', step);
    EvolvesTransitive(s, s', Next(s', step));
  }

  /**
   Between any two moments of any schedule: no event row is lost or changed; a surviving case keeps
   its kind and severity and only gains events, none once closed or when it is a burst; every high
   case, every burst and every alerted case survives; and no alert is withdrawn.
   */
  lemma {:induction false} RunEvolves(before: seq<Step>, steps: seq<Step>)
    ensures Evolves(After(before), After(before + steps))
    decreases |steps|
  {
    AlwaysInv(before);
    if steps == [] {
      assert before + steps == before;
    } else {
      var n := |steps| - 1;
      RunEvolves(before, steps[..n]);
      assert (before + steps)[..|before + steps| - 1] == before + steps[..n];
      AlwaysInv(before + steps[..n]);
      OneMoreEvolves(After(before), After(before + steps[..n]), steps[n]);
    }
  }

  /** A case that has reached 50 events is closed, out of the index, and never appended to again. */
  lemma FullCaseIsFinal(before: seq<Step>, steps: seq<Step>, c: Id)
    requires c in After(before).cases && After(before).cases[c].origin.Drop?
    requires |After(before).cases[c].events| >= BURST_MAX_EVENTS
    ensures var s, s' := After(before), After(before + steps);
      && |s.cases[c].events| == BURST_MAX_EVENTS && s.cases[c].status == Closed
      && c !in s.index.Values
      && (c in s'.cases ==> s'.cases[c] == s.cases[c] && c !in s'.index.Values)
  {
    AlwaysInv(before);
    AlwaysInv(before + steps);
    RunEvolves(before, steps);
    var s, s' := After(before), After(before + steps);
    assert RowOk(s.events, s.cases[c]);
    assert c in s'.cases ==> RowEvolves(s.cases[c], s'.cases[c]);
  }

  // ----- orphaned events

  /** The stored event an ingest has yet to hand to a case. */
  function PendingEvent(pc: IngestPc): set<Id> {
    if pc.Stored? || pc.Fetched? then {pc.event} else {}
  }

  /** A stored event that no case owns and no ingest is still placing. */
  ghost predicate Orphaned(s: State, e: Id) {
    e in s.events && !Owned(s.cases, e) && e !in PendingEvent(s.ingest)
  }

  /** What a stub's row holds beyond the event it was buffered with. */
  function LateEvents(cases: map<Id, Row>, id: Id): set<Id> {
    if id in cases && cases[id].events != [] then set e <- cases[id].events[1..] else {}
  }

  /**
   The events that lose their place in a case at one step: the new case could not be inserted;
   the indexed case could not be read, so the line was ingested again; the append could not be
   written, or hit a row that a flush had deleted meanwhile; or the event had been appended to
   a stub that was merged without it and is now deleted.
   */
  function Lost(s: State, step: Step): set<Id> {
    match step
    case Open(ok) =>
      if s.ingest.Stored? && KeyOf(s.ingest.line) !in s.index && !ok then {s.ingest.event} else {}
    case Fetch(ok) =>
      if s.ingest.Stored? && KeyOf(s.ingest.line) in s.index && !(ok && s.index[KeyOf(s.ingest.line)] in s.cases)
      then {s.ingest.event} else {}
    case Update(ok) =>
      if s.ingest.Fetched? && !(ok && s.ingest.id in s.cases) then {s.ingest.event} else {}
    case Delete(ok) =>
      if s.flush.Deleting? && s.flush.rest != [] && ok then LateEvents(s.cases, s.flush.rest[0].id) else {}
    case _ => {}
  }

  lemma OrphansAfterUpdate(s: State, e: Id)
    requires Inv(s) && s.ingest.Fetched?
    ensures var s' := UpdateRow(s, true);
      Orphaned(s', e) <==> Orphaned(s, e) || (e == s.ingest.event && s.ingest.id !in s.cases)
  {
    var s', id := UpdateRow(s, true), s.ingest.id;
    if id in s.cases {
      var row := Appended(s.ingest.row, s.ingest.event);
      assert Owns(s'.cases, id, s.ingest.event);
      forall c ensures Owns(s'.cases, c, e) <==> Owns(s.cases, c, e) || (c == id && e == s.ingest.event) {
        GrownOwners(s.cases, id, row, s.ingest.event, c, e);
      }
    }
  }

  lemma OrphansAfterOpen(s: State, e: Id)
    requires Inv(s) && s.ingest.Stored? && KeyOf(s.ingest.line) !in s.index
    ensures Orphaned(OpenCase(s, true), e) <==> Orphaned(s, e)
  {
    var s', id := OpenCase(s, true), s.nextId;
    assert Owns(s'.cases, id, s.ingest.event);
    forall c ensures Owns(s'.cases, c, e) <==> Owns(s.cases, c, e) || (c == id && e == s.ingest.event) {
      GrownOwners(s.cases, id, s'.cases[id], s.ingest.event, c, e);
    }
  }

  /** Deleting a merged stub's row orphans what was appended to it, and nothing else. */
  lemma OrphansAfterDelete(s: State, e: Id)
    requires Inv(s) && s.flush.Deleting? && s.flush.rest != []
    ensures var late := LateEvents(s.cases, s.flush.rest[0].id);
      && (Orphaned(DeleteStub(s, true), e) <==> Orphaned(s, e) || e in late)
      && (e in late ==> !Orphaned(s, e))
  {
    var s', b0 := DeleteStub(s, true), s.flush.rest[0];
    var row := s.cases[b0.id];
    assert StubOk(s.cases, s.alerts, b0);
    assert RowOk(s.events, row);
    assert row.events == [row.events[0]] + row.events[1..];
    assert forall c :: Owns(s'.cases, c, e) <==> Owns(s.cases, c, e) && c != b0.id;
    assert Owns(s.cases, s.flush.burst, row.events[0]) && s.flush.burst != b0.id;
    assert Owns(s'.cases, s.flush.burst, row.events[0]);
    if e in row.events {
      assert Owns(s.cases, b0.id, e);
    }
  }

  lemma OrphansAfterMerge(s: State, e: Id)
    requires Inv(s) && s.flush.Merging?
    ensures Orphaned(MergeBatch(s, true), e) <==> Orphaned(s, e)
  {
    MergedKeepsOwned(s.cases, s.alerts, s.flush.batch, s.nextId, MergeBatch(s, true).cases[s.nextId], e);
  }

  lemma OrphansAfterAccept(s: State, line: Line, retried: bool, ok: bool, e: Id)
    requires Inv(s) && (s.ingest.Waiting? || s.ingest.Retrying?)
    ensures Orphaned(Accept(s, line, retried, ok), e) <==> Orphaned(s, e)
  {
  }

  /** When no row changes, an event is orphaned only by an ingest that lets go of it. */
  lemma OrphansSameRows(s: State, s': State, e: Id)
    requires Inv(s) && s'.events == s.events && s'.cases == s.cases
    ensures PendingEvent(s'.ingest) <= PendingEvent(s.ingest) ==>
      (Orphaned(s', e) <==> Orphaned(s, e) || e in PendingEvent(s.ingest) - PendingEvent(s'.ingest))
    ensures e in PendingEvent(s.ingest) ==> !Orphaned(s, e)
  {
  }

  lemma LostByKept(s: State, step: Step)
    requires KeepsRows(step)
    ensures Next(s, step).events == s.events && Next(s, step).cases == s.cases
    ensures PendingEvent(Next(s, step).ingest) <= PendingEvent(s.ingest)
    ensures Lost(s, step) == PendingEvent(s.ingest) - PendingEvent(Next(s, step).ingest)
  {
  }

  predicate Fails(step: Step) {
    step == Step.Open(false) || step == Update(false) || step == Merge(false) || step == Delete(false)
  }

  lemma LostByFailure(s: State, step: Step)
    requires Fails(step) && (s.ingest.Stored? ==> ClassifySeverity(s.ingest.line.dstPort).Some?)
    ensures Next(s, step).events == s.events && Next(s, step).cases == s.cases
    ensures PendingEvent(Next(s, step).ingest) <= PendingEvent(s.ingest)
    ensures Lost(s, step) == PendingEvent(s.ingest) - PendingEvent(Next(s, step).ingest)
  {
  }

  /** One step orphans exactly the events it loses, and none of them was orphaned before. */
  lemma NextOrphans(s: State, step: Step, e: Id)
    requires Inv(s)
    ensures Orphaned(Next(s, step), e) <==> Orphaned(s, e) || e in Lost(s, step)
    ensures e in Lost(s, step) ==> !Orphaned(s, e)
  {
    if KeepsRows(step) {
      LostByKept(s, step);
      OrphansSameRows(s, Next(s, step), e);
    } else if Fails(step) {
      LostByFailure(s, step);
      OrphansSameRows(s, Next(s, step), e);
    } else if step.Open? && s.ingest.Stored? && KeyOf(s.ingest.line) !in s.index {
      OrphansAfterOpen(s, e);
    } else if step.Update? && s.ingest.Fetched? {
      OrphansAfterUpdate(s, e);
    } else if step.Delete? && s.flush.Deleting? && s.flush.rest != [] {
      OrphansAfterDelete(s, e);
    } else if step.Merge? && s.flush.Merging? {
      OrphansAfterMerge(s, e);
    } else if step.Receive? && s.ingest.Waiting? {
      OrphansAfterAccept(s, step.line, false, step.ok, e);
    } else if step.Retry? && s.ingest.Retrying? {
      OrphansAfterAccept(s, s.ingest.line, true, step.ok, e);
    }
  }

  /** Everything lost along a schedule. */
  function LostEvents(steps: seq<Step>): set<Id> {
    if steps == [] then {}
    else
      var n := |steps| - 1;
      LostEvents(steps[..n]) + Lost(After(steps[..n]), steps[n])
  }

  /** After any schedule the orphaned events are exactly those that some step lost. */
  lemma {:induction false} OrphansExact(steps: seq<Step>, e: Id)
    ensures Orphaned(After(steps), e) <==> e in LostEvents(steps)
  {
    if steps != [] {
      var n := |steps| - 1;
      OrphansExact(steps[..n], e);
      AlwaysInv(steps[..n]);
      NextOrphans(After(steps[..n]), steps[n], e);
    }
  }

  /** No event is lost twice. */
  lemma LostOnce(steps: seq<Step>)
    requires steps != []
    ensures LostEvents(steps[..|steps| - 1]) !! Lost(After(steps[..|steps| - 1]), steps[|steps| - 1])
  {
    var n := |steps| - 1;
    AlwaysInv(steps[..n]);
    forall e ensures !(e in LostEvents(steps[..n]) && e in Lost(After(steps[..n]), steps[n])) {
      OrphansExact(steps[..n], e);
      NextOrphans(After(steps[..n]), steps[n], e);
    }
  }
}
