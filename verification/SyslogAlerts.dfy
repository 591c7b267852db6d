/** Where every buffered case ends up, how bursts are rated, and what fault-free schedules can lose. */
module SyslogAlerts {
  import opened Text
  import opened Ports
  import opened Store
  import opened SyslogMachine
  import opened SyslogInvariant
  import opened SyslogPreservation
  import opened SyslogAccounting
  import opened SyslogConservation

  // ----- conservation of low and medium cases

  function Ids(stubs: seq<Stub>): set<Id> {
    set b <- stubs :: b.id
  }

  /** Cases handed to the alerter one by one by a flush. */
  function IndividuallyAlerted(alerts: seq<Alert>): set<Id> {
    set a <- alerts | a.reason in {Individual, Fallback} :: a.id
  }

  /** A low or medium case between its insertion and its buffering. */
  function Opening(pc: IngestPc): set<Id> {
    if pc.Opened? && ClassifySeverity(pc.line.dstPort) != Some(High) then {pc.id} else {}
  }

  function InsertedAt(s: State, step: Step): set<Id> {
    if step == Step.Open(true) && s.ingest.Stored? && KeyOf(s.ingest.line) !in s.index
       && ClassifySeverity(s.ingest.line.dstPort) in {Some(Low), Some(Medium)}
    then {s.nextId} else {}
  }

  function MergedAt(s: State, step: Step): set<Id> {
    if step == Merge(true) && s.flush.Merging? then Ids(s.flush.batch) else {}
  }

  /** The low and medium cases inserted along a schedule. */
  function Inserted(steps: seq<Step>): set<Id> {
    if steps == [] then {} else Inserted(Before(steps)) + InsertedAt(After(Before(steps)), Last(steps))
  }

  /** The cases rolled up into some burst along a schedule. */
  function MergedIds(steps: seq<Step>): set<Id> {
    if steps == [] then {} else MergedIds(Before(steps)) + MergedAt(After(Before(steps)), Last(steps))
  }

  /** Every inserted case is in exactly one of five places. */
  ghost predicate Placed(s: State, inserted: set<Id>, merged: set<Id>) {
    var alerted, buffered, held, opening :=
      IndividuallyAlerted(s.alerts), Ids(s.buffer), Ids(Unmerged(s.flush)), Opening(s.ingest);
    && inserted == alerted + merged + buffered + held + opening
    && alerted !! merged !! buffered !! held !! opening
    && forall id <- inserted :: id < s.nextId
  }

  lemma IdsOfTail(stubs: seq<Stub>)
    requires stubs != [] && forall i, j :: 0 <= i < j < |stubs| ==> stubs[i].id != stubs[j].id
    ensures Ids(stubs) == {stubs[0].id} + Ids(stubs[1..]) && stubs[0].id !in Ids(stubs[1..])
  {
    assert stubs == [stubs[0]] + stubs[1..];
  }

  lemma AlertPlaces(s: State, inserted: set<Id>, merged: set<Id>)
    requires Inv(s) && Placed(s, inserted, merged) && s.flush.Alerting? && s.flush.rest != []
    ensures Placed(AlertStub(s), inserted, merged)
  {
    IdsOfTail(s.flush.rest);
    var s', b0 := AlertStub(s), s.flush.rest[0];
    assert IndividuallyAlerted(s'.alerts) == IndividuallyAlerted(s.alerts) + {b0.id};
  }

  lemma PublishPlaces(s: State, inserted: set<Id>, merged: set<Id>)
    requires Inv(s) && Placed(s, inserted, merged) && s.ingest.Opened?
    ensures Placed(PublishCase(s), inserted, merged)
  {
    var s', id := PublishCase(s), s.ingest.id;
    assert IndividuallyAlerted(s'.alerts) == IndividuallyAlerted(s.alerts);
    assert Ids(s'.buffer) == Ids(s.buffer) + Opening(s.ingest);
  }

  lemma AnnouncePlaces(s: State, inserted: set<Id>, merged: set<Id>)
    requires Placed(s, inserted, merged) && s.flush.Deleting?
    ensures Placed(AnnounceBurst(s), inserted, merged)
  {
    assert IndividuallyAlerted(AnnounceBurst(s).alerts) == IndividuallyAlerted(s.alerts);
  }

  lemma OpenPlaces(s: State, ok: bool, inserted: set<Id>, merged: set<Id>)
    requires Placed(s, inserted, merged) && s.ingest.Stored? && KeyOf(s.ingest.line) !in s.index
    ensures Placed(OpenCase(s, ok), inserted + InsertedAt(s, Step.Open(ok)), merged)
  {
  }

  lemma MergePlaces(s: State, ok: bool, inserted: set<Id>, merged: set<Id>)
    requires Placed(s, inserted, merged) && s.flush.Merging?
    ensures Placed(MergeBatch(s, ok), inserted, merged + MergedAt(s, Merge(ok)))
  {
  }

  lemma DrainPlaces(s: State, inserted: set<Id>, merged: set<Id>)
    requires Placed(s, inserted, merged) && s.flush.Asleep?
    ensures Placed(DrainBuffer(s), inserted, merged)
  {
  }

  lemma OtherPlaces(s: State, step: Step, inserted: set<Id>, merged: set<Id>)
    requires Placed(s, inserted, merged)
    requires !step.AlertNext? && !step.Publish? && !step.Announce? && !step.Open? && !step.Merge? && !step.Drain?
    ensures Placed(Next(s, step), inserted, merged)
  {
  }

  lemma NextPlaces(s: State, step: Step, inserted: set<Id>, merged: set<Id>, inserted': set<Id>, merged': set<Id>)
    requires Inv(s) && Placed(s, inserted, merged)
    requires inserted' == inserted + InsertedAt(s, step) && merged' == merged + MergedAt(s, step)
    ensures Placed(Next(s, step), inserted', merged')
  {
    if step.Open? && s.ingest.Stored? && KeyOf(s.ingest.line) !in s.index {
      OpenPlaces(s, step.ok, inserted, merged);
      assert merged' == merged;
    } else if step.Merge? && s.flush.Merging? {
      MergePlaces(s, step.ok, inserted, merged);
      assert inserted' == inserted;
    } else {
      assert inserted' == inserted && merged' == merged;
      match step
      case AlertNext => if s.flush.Alerting? && s.flush.rest != [] { AlertPlaces(s, inserted, merged); }
      case Publish => if s.ingest.Opened? { PublishPlaces(s, inserted, merged); }
      case Announce => if s.flush.Deleting? && s.flush.rest == [] { AnnouncePlaces(s, inserted, merged); }
      case Drain => if s.flush.Asleep? { DrainPlaces(s, inserted, merged); }
      case Open(_) =>
      case Merge(_) =>
      case _ => OtherPlaces(s, step, inserted, merged);
    }
  }

  /**
   After any schedule the low and medium cases ever inserted are, without overlap, those alerted one
   by one, those merged into bursts, those still buffered, those held by a flush and the one about
   to be buffered; a failed burst insert moves stubs from one group to another but loses none.
   */
  lemma {:induction false} CasesConserved(steps: seq<Step>)
    ensures Placed(After(steps), Inserted(steps), MergedIds(steps))
  {
    if steps != [] {
      AlwaysInv(Before(steps));
      CasesConserved(Before(steps));
      NextPlaces(After(Before(steps)), Last(steps), Inserted(Before(steps)), MergedIds(Before(steps)),
                 Inserted(steps), MergedIds(steps));
    }
  }

  lemma {:induction false} CountIds(stubs: seq<Stub>)
    requires forall i, j :: 0 <= i < j < |stubs| ==> stubs[i].id != stubs[j].id
    ensures |Ids(stubs)| == |stubs|
  {
    if stubs != [] {
      IdsOfTail(stubs);
      CountIds(stubs[1..]);
    }
  }

  lemma CountPlaces(s: State, inserted: set<Id>, merged: set<Id>)
    requires Inv(s) && Placed(s, inserted, merged)
    ensures |inserted| == |IndividuallyAlerted(s.alerts)| + |merged| + |s.buffer|
                          + |Unmerged(s.flush)| + |Opening(s.ingest)|
  {
    CountIds(s.buffer);
    CountIds(Unmerged(s.flush));
  }

  /** The same conservation law as an equation between counts. */
  lemma CasesCounted(steps: seq<Step>)
    ensures var s := After(steps);
      |Inserted(steps)| == |IndividuallyAlerted(s.alerts)| + |MergedIds(steps)| + |s.buffer|
                           + |Unmerged(s.flush)| + |Opening(s.ingest)|
  {
    AlwaysInv(steps);
    CasesConserved(steps);
    CountPlaces(After(steps), Inserted(steps), MergedIds(steps));
  }

  // ----- each alert at most once, and the rating of bursts

  lemma WaitingStubSafe(s: State, c: Id)
    requires Inv(s) && Waits(s, c)
    ensures c in s.cases && s.cases[c].severity in {Low, Medium} && !IsAlerted(s.alerts, c)
  {
  }

  /** No case is handed to the alerter twice; a high case is alerted before its ingest is over. */
  lemma AlertedOnce(steps: seq<Step>)
    ensures var s := After(steps);
      && (forall i, j :: 0 <= i < j < |s.alerts| ==> s.alerts[i].id != s.alerts[j].id)
      && (forall c <- s.cases :: s.cases[c].severity == High && s.ingest.Waiting? ==> IsAlerted(s.alerts, c))
      && (forall c :: Waits(s, c) ==> c in s.cases && s.cases[c].severity in {Low, Medium} && !IsAlerted(s.alerts, c))
  {
    AlwaysInv(steps);
    var s := After(steps);
    forall c | Waits(s, c)
      ensures c in s.cases && s.cases[c].severity in {Low, Medium} && !IsAlerted(s.alerts, c)
    {
      WaitingStubSafe(s, c);
    }
  }

  /** The burst about to be inserted is "medium" exactly when a stub hit a medium port, else "info". */
  lemma BurstRating(steps: seq<Step>)
    requires After(steps).flush.Merging?
    ensures var s := After(steps); var s' := Next(s, Merge(true));
      && s.nextId in s'.cases
      && s'.cases[s.nextId].severity ==
         (if exists b :: b in s.flush.batch && b.dstPort in MEDIUM_PORTS then Medium else Info)
  {
    AlwaysInv(steps);
    assert forall b <- After(steps).flush.batch :: StubOk(After(steps).cases, After(steps).alerts, b);
    MergedSeverityByPort(After(steps).flush.batch);
  }

  /** Once its stubs are dealt with, a burst has been alerted exactly when it is not "info". */
  lemma BurstAlerted(steps: seq<Step>, c: Id)
    requires c in After(steps).cases && After(steps).cases[c].origin.Burst?
    requires !(After(steps).flush.Deleting? && After(steps).flush.burst == c)
    ensures IsAlerted(After(steps).alerts, c) <==> After(steps).cases[c].severity != Info
    ensures |After(steps).cases[c].events| == After(steps).cases[c].origin.merged >= BURST_THRESHOLD
  {
    AlwaysInv(steps);
  }

  // ----- recovery from a stale index entry

  /** A line that is ingested again finds no index entry, so it recovers at most once. */
  lemma RecoversOnce(steps: seq<Step>, ok: bool)
    requires After(steps).ingest.Stored? && After(steps).ingest.retried
    ensures Next(After(steps), Fetch(ok)) == After(steps)
  {
    AlwaysInv(steps);
  }

  predicate Succeeds(step: Step) {
    match step
    case Receive(_, ok) => ok
    case Open(ok) => ok
    case Fetch(ok) => ok
    case Retry(ok) => ok
    case Update(ok) => ok
    case Merge(ok) => ok
    case Delete(ok) => ok
    case _ => true
  }

  /** No database statement of the schedule fails. */
  predicate FaultFree(steps: seq<Step>) {
    forall step <- steps :: Succeeds(step)
  }

  /** Each call runs to its end before the other goroutine makes one. */
  predicate Atomic(steps: seq<Step>) {
    && (After(steps).ingest.Waiting? || After(steps).flush.Asleep?)
    && (steps == [] || Atomic(Before(steps)))
  }

  ghost predicate FetchedRowExists(s: State) {
    s.ingest.Fetched? ==> s.ingest.id in s.cases
  }

  lemma NextFetched(s: State, step: Step)
    requires FetchedRowExists(s) && (s.ingest.Waiting? || s.flush.Asleep?)
    ensures FetchedRowExists(Next(s, step))
  {
  }

  lemma {:induction false} AtomicFetched(steps: seq<Step>)
    requires Atomic(steps)
    ensures FetchedRowExists(After(steps))
  {
    if steps != [] {
      AtomicFetched(Before(steps));
      NextFetched(After(Before(steps)), Last(steps));
    }
  }

  ghost predicate StaleMerged(s: State, merged: set<Id>) {
    && (forall k <- s.index :: s.index[k] in s.cases || s.index[k] in merged)
    && (s.flush.Deleting? ==> forall b <- s.flush.rest :: b.id in merged)
  }

  lemma NextStale(s: State, step: Step, merged: set<Id>)
    requires Succeeds(step) && StaleMerged(s, merged)
    ensures StaleMerged(Next(s, step), merged + MergedAt(s, step))
  {
  }

  /** Without faults a stale index entry is that of a case merged into a burst. */
  lemma {:induction false} StaleMeansMerged(steps: seq<Step>)
    requires FaultFree(steps)
    ensures StaleMerged(After(steps), MergedIds(steps))
  {
    if steps != [] {
      assert forall step <- Before(steps) :: step in steps;
      assert Succeeds(Last(steps));
      StaleMeansMerged(Before(steps));
      NextStale(After(Before(steps)), Last(steps), MergedIds(Before(steps)));
    }
  }

  /** Merged cases that still have a row are those the flush has yet to delete. */
  ghost predicate MergedGone(s: State, merged: set<Id>) {
    forall id <- merged :: id < s.nextId && (id in s.cases ==> s.flush.Deleting? && Lists(s.flush.rest, id))
  }

  lemma MergeGone(s: State, merged: set<Id>)
    requires Inv(s) && s.flush.Merging? && MergedGone(s, merged)
    ensures MergedGone(MergeBatch(s, true), merged + MergedAt(s, Merge(true)))
  {
    forall b <- s.flush.batch ensures b.id < s.nextId && Lists(s.flush.batch, b.id) {
      assert StubOk(s.cases, s.alerts, b);
    }
  }

  lemma DeleteGone(s: State, merged: set<Id>)
    requires s.flush.Deleting? && s.flush.rest != [] && MergedGone(s, merged)
    ensures MergedGone(DeleteStub(s, true), merged)
  {
    var rest := s.flush.rest;
    forall id | Lists(rest, id) && id != rest[0].id ensures Lists(rest[1..], id) {
      var b :| b in rest && b.id == id;
      assert b in rest[1..];
    }
  }

  lemma OtherGone(s: State, step: Step)
    requires step.Merge? ==> !s.flush.Merging?
    requires step.Delete? ==> !s.flush.Deleting? || s.flush.rest == []
    ensures s.nextId <= Next(s, step).nextId
    ensures forall id :: id in Next(s, step).cases ==> id in s.cases || id == s.nextId
    ensures s.flush.Deleting? ==> Next(s, step).flush == s.flush || (s.flush.rest == [] && step.Announce?)
  {
  }

  lemma NextGone(s: State, step: Step, merged: set<Id>)
    requires Inv(s) && Succeeds(step) && MergedGone(s, merged)
    ensures MergedGone(Next(s, step), merged + MergedAt(s, step))
  {
    if step.Merge? && s.flush.Merging? {
      MergeGone(s, merged);
    } else if step.Delete? && s.flush.Deleting? && s.flush.rest != [] {
      DeleteGone(s, merged);
    } else {
      assert merged + MergedAt(s, step) == merged;
      OtherGone(s, step);
    }
  }

  lemma {:induction false} AlwaysGone(steps: seq<Step>)
    requires FaultFree(steps)
    ensures MergedGone(After(steps), MergedIds(steps))
  {
    if steps != [] {
      assert forall step <- Before(steps) :: step in steps;
      assert Succeeds(Last(steps));
      AlwaysInv(Before(steps));
      AlwaysGone(Before(steps));
      NextGone(After(Before(steps)), Last(steps), MergedIds(Before(steps)));
    }
  }

  /** Without faults an index entry is stale if and only if its case was merged and is not still to be deleted. */
  lemma StaleWithoutFaults(steps: seq<Step>, k: Key)
    requires FaultFree(steps) && k in After(steps).index
    ensures var s, id := After(steps), After(steps).index[k];
      id !in s.cases <==> id in MergedIds(steps) && !(s.flush.Deleting? && Lists(s.flush.rest, id))
  {
    AlwaysInv(steps);
    StaleMeansMerged(steps);
    AlwaysGone(steps);
    var s, id := After(steps), After(steps).index[k];
    if s.flush.Deleting? && Lists(s.flush.rest, id) {
      assert Waits(s, id);
      WaitingStubHasRow(s, id);
    }
  }

  /** The event of a line that finds the index entry of a merged and deleted case; it is ingested again. */
  function RecoveredAt(steps: seq<Step>, step: Step): set<Id> {
    var s := After(steps);
    if step.Fetch? && s.ingest.Stored? && KeyOf(s.ingest.line) in s.index
       && s.index[KeyOf(s.ingest.line)] in MergedIds(steps) && s.index[KeyOf(s.ingest.line)] !in s.cases
    then {s.ingest.event} else {}
  }

  /** The events appended to a merged stub while it waited, at the moment its row goes. */
  ghost function OvertakenAt(steps: seq<Step>, step: Step): set<Id> {
    var f := After(steps).flush;
    if step.Delete? && f.Deleting? && f.rest != [] then LateAppends(steps, f.rest[0].id) else {}
  }

  function Recovered(steps: seq<Step>): set<Id> {
    if steps == [] then {} else Recovered(Before(steps)) + RecoveredAt(Before(steps), Last(steps))
  }

  ghost function Overtaken(steps: seq<Step>): set<Id> {
    if steps == [] then {} else Overtaken(Before(steps)) + OvertakenAt(Before(steps), Last(steps))
  }

  lemma HeadWaits(s: State)
    requires s.flush.Deleting? && s.flush.rest != []
    ensures Waits(s, s.flush.rest[0].id)
    ensures Lost(s, Delete(true)) == LateEvents(s.cases, s.flush.rest[0].id)
  {
    assert s.flush.rest[0] in Held(s.flush);
  }

  lemma OvertakenIsLost(steps: seq<Step>)
    requires After(steps).flush.Deleting? && After(steps).flush.rest != []
    ensures OvertakenAt(steps, Delete(true)) == Lost(After(steps), Delete(true))
  {
    HeadWaits(After(steps));
    WaitingStubExact(steps, After(steps).flush.rest[0].id);
  }

  /** With atomic, fault-free calls a step loses events in these two ways only. */
  lemma AtomicLosses(steps: seq<Step>, step: Step)
    requires Atomic(steps) && FaultFree(steps) && Succeeds(step)
    ensures Lost(After(steps), step) == RecoveredAt(steps, step) + OvertakenAt(steps, step)
  {
    AtomicFetched(steps);
    StaleMeansMerged(steps);
    var s := After(steps);
    if step.Delete? && s.flush.Deleting? && s.flush.rest != [] {
      OvertakenIsLost(steps);
    }
  }

  /**
   The exact accounting of runs whose calls neither interleave nor fail: the events that no case
   owns are those appended to a stub between its buffering and its merging, and one for each line
   that found the index entry of a merged case.
   */
  lemma {:induction false} AtomicOrphans(steps: seq<Step>, e: Id)
    requires Atomic(steps) && FaultFree(steps)
    ensures Orphaned(After(steps), e) <==> e in Recovered(steps) || e in Overtaken(steps)
  {
    if steps != [] {
      assert FaultFree(Before(steps)) by { assert forall step <- Before(steps) :: step in steps; }
      assert Succeeds(Last(steps));
      AtomicOrphans(Before(steps), e);
      AtomicLosses(Before(steps), Last(steps));
      AlwaysInv(Before(steps));
      NextOrphans(After(Before(steps)), Last(steps), e);
    }
  }

  lemma {:induction false} NothingKept(steps: seq<Step>)
    requires FaultFree(steps)
    ensures Kept(steps) == {}
  {
    if steps != [] {
      assert forall step <- Before(steps) :: step in steps;
      assert Succeeds(Last(steps));
      NothingKept(Before(steps));
    }
  }

  /** Without failures no event has two owners, except while its stub is being merged. */
  lemma OneOwner(steps: seq<Step>, e: Id)
    requires FaultFree(steps)
    ensures Shared(After(steps).cases, e) <==> MidMerge(After(steps), e)
  {
    NothingKept(steps);
    SharedExact(steps, e);
  }
}
