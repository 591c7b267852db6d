/** What one uninterrupted ingest or flush does, and which schedule of the state machine it is. */
module SyslogCalls {
  import opened Ports
  import opened Store
  import opened SyslogMachine
  import opened SyslogInvariant
  import opened SyslogPreservation
  import opened SyslogConservation
  import opened SyslogAlerts
  import opened SyslogRestart

  /** Which statements of one ingest succeed. */
  datatype Faults = Faults(insertEvent: bool, insertCase: bool, getCase: bool, updateCase: bool)

  /** The steps of one ingest, `retry` being the faults of the recursive call after a stale entry. */
  function IngestSteps(s: State, line: Line, f: Faults, retry: Faults): seq<Step> {
    [Receive(line, f.insertEvent), Fetch(f.getCase), Update(f.updateCase), Retry(retry.insertEvent),
     Step.Open(if KeyOf(line) in s.index then retry.insertCase else f.insertCase), Publish]
  }

  function Deletes(n: nat, ok: nat -> bool): seq<Step> {
    seq(n, (i: nat) => Delete(ok(i)))
  }

  function AlertNexts(n: nat): seq<Step> {
    seq(n, (i: nat) => AlertNext)
  }

  /** The steps of one flush of `n` cases; `deleted(i)` tells whether the i-th deletion succeeds. */
  function FlushSteps(n: nat, inserted: bool, deleted: nat -> bool): seq<Step> {
    [Drain, Merge(inserted)] + Deletes(n, deleted) + [Announce] + AlertNexts(n)
  }

  lemma RunFirst(s: State, step: Step, rest: seq<Step>)
    ensures Run(s, [step] + rest) == Run(Next(s, step), rest)
  {
    RunAppend(s, [step], rest);
    assert Run(s, [step]) == Next(s, step);
  }

  lemma RunOne(s: State, step: Step)
    ensures Run(s, [step]) == Next(s, step)
  {
  }

  lemma RunTwo(s: State, a: Step, b: Step)
    ensures Run(s, [a, b]) == Next(Next(s, a), b)
  {
    assert [a, b] == [a] + [b];
    RunFirst(s, a, [b]);
    RunOne(Next(s, a), b);
  }

  lemma RunSix(s: State, a: Step, b: Step, c: Step, d: Step, e: Step, f: Step)
    ensures Run(s, [a, b, c, d, e, f]) == Next(Next(Next(Next(Next(Next(s, a), b), c), d), e), f)
  {
    var x, y, z := [a, b], [c, d], [e, f];
    assert x + y + z == [a, b, c, d, e, f];
    RunAppend(s, x + y, z);
    RunAppend(s, x, y);
    RunTwo(s, a, b);
    RunTwo(Run(s, x), c, d);
    RunTwo(Run(s, x + y), e, f);
  }

  function OpenAndPublish(s: State, ok: bool): State
    requires s.ingest.Stored?
  {
    var s1 := OpenCase(s, ok);
    if s1.ingest.Opened? then PublishCase(s1) else s1
  }

  /** What the rest of an ingest does once its event is stored. */
  function PlaceEffect(s: State, f: Faults, retry: Faults): State
    requires s.ingest.Stored?
  {
    var line := s.ingest.line;
    if KeyOf(line) !in s.index then OpenAndPublish(s, f.insertCase)
    else
      var s1 := FetchCase(s, f.getCase);
      if s1.ingest.Fetched? then UpdateRow(s1, f.updateCase)
      else
        var s2 := Accept(s1, line, true, retry.insertEvent);
        if s2.ingest.Waiting? then s2 else OpenAndPublish(s2, retry.insertCase)
  }

  /** What one ingest does, from a state in which no call is under way. */
  function IngestEffect(s: State, line: Line, f: Faults, retry: Faults): State
    requires s.ingest.Waiting?
  {
    var s1 := Accept(s, line, false, f.insertEvent);
    if s1.ingest.Waiting? then s1 else PlaceEffect(s1, f, retry)
  }

  lemma OpenIgnoresRetried(s: State, s': State, ok: bool)
    requires s.ingest.Stored? && s' == s.(ingest := s.ingest.(retried := false))
    requires ClassifySeverity(s.ingest.line.dstPort).Some?
    ensures OpenAndPublish(s, ok) == OpenAndPublish(s', ok)
  {
  }

  /** Recovery from a stale entry is an ingest of the same line without that entry. */
  lemma RetryEffect(s: State, f: Faults, retry: Faults)
    requires s.ingest.Stored? && ClassifySeverity(s.ingest.line.dstPort).Some? && KeyOf(s.ingest.line) in s.index
    requires FetchCase(s, f.getCase).ingest.Retrying?
    ensures PlaceEffect(s, f, retry) == IngestEffect(FetchCase(s, f.getCase).(ingest := Waiting), s.ingest.line, retry, retry)
  {
    var line, s1 := s.ingest.line, FetchCase(s, f.getCase);
    var s2, s3 := Accept(s1, line, true, retry.insertEvent), Accept(s1.(ingest := Waiting), line, false, retry.insertEvent);
    if retry.insertEvent {
      assert KeyOf(line) !in s3.index;
      assert s3 == s2.(ingest := s2.ingest.(retried := false));
      OpenIgnoresRetried(s2, s3, retry.insertCase);
    } else {
      assert s2 == s3;
    }
  }

  lemma OpenAndPublishSteps(s: State, ok: bool)
    requires s.ingest.Stored? && KeyOf(s.ingest.line) !in s.index && ClassifySeverity(s.ingest.line.dstPort).Some?
    ensures Next(Next(s, Step.Open(ok)), Publish) == OpenAndPublish(s, ok)
    ensures OpenAndPublish(s, ok).ingest.Waiting?
  {
    if ok {
      assert Next(s, Step.Open(ok)).ingest.Opened?;
    }
  }

  lemma IdleSteps(s: State, step: Step)
    requires s.ingest.Waiting? && (step.Fetch? || step.Update? || step.Retry? || step.Open? || step.Publish?)
    ensures Next(s, step) == s
  {
  }

  lemma IndexedIngest(s1: State, f: Faults, retry: Faults)
    requires s1.ingest.Stored? && !s1.ingest.retried && KeyOf(s1.ingest.line) in s1.index
    requires ClassifySeverity(s1.ingest.line.dstPort).Some?
    ensures var s2, line := FetchCase(s1, f.getCase), s1.ingest.line;
      var s' := Next(Next(Next(Next(Next(s1, Fetch(f.getCase)), Update(f.updateCase)), Retry(retry.insertEvent)),
                     Step.Open(retry.insertCase)), Publish);
      && s'.ingest.Waiting?
      && s' == if s2.ingest.Fetched? then UpdateRow(s2, f.updateCase)
               else
                 var s3 := Accept(s2, line, true, retry.insertEvent);
                 if s3.ingest.Waiting? then s3 else OpenAndPublish(s3, retry.insertCase)
  {
    var s2, again, open := Next(s1, Fetch(f.getCase)), Retry(retry.insertEvent), Step.Open(retry.insertCase);
    if s2.ingest.Fetched? {
      var s3 := Next(s2, Update(f.updateCase));
      IdleSteps(s3, again);
      IdleSteps(s3, open);
      IdleSteps(s3, Publish);
    } else {
      assert Next(s2, Update(f.updateCase)) == s2;
      var s3 := Next(s2, again);
      if s3.ingest.Waiting? {
        IdleSteps(s3, open);
        IdleSteps(s3, Publish);
      } else {
        OpenAndPublishSteps(s3, retry.insertCase);
      }
    }
  }

  lemma IngestIsSchedule(s: State, line: Line, f: Faults, retry: Faults)
    requires s.ingest.Waiting?
    ensures Run(s, IngestSteps(s, line, f, retry)) == IngestEffect(s, line, f, retry)
    ensures IngestEffect(s, line, f, retry).ingest.Waiting?
  {
    var fetch, update, again, open :=
      Fetch(f.getCase), Update(f.updateCase), Retry(retry.insertEvent),
      Step.Open(if KeyOf(line) in s.index then retry.insertCase else f.insertCase);
    RunSix(s, Receive(line, f.insertEvent), fetch, update, again, open, Publish);
    var s1 := Next(s, Receive(line, f.insertEvent));
    if s1.ingest.Waiting? {
      IdleSteps(s1, fetch);
      IdleSteps(s1, update);
      IdleSteps(s1, again);
      IdleSteps(s1, open);
      IdleSteps(s1, Publish);
    } else if KeyOf(line) !in s.index {
      assert Next(s1, fetch) == Next(s1, update) == Next(s1, again) == s1;
      OpenAndPublishSteps(s1, open.ok);
    } else {
      IndexedIngest(s1, f, retry);
    }
  }

  // ----- what one flush does

  function AlertsFor(stubs: seq<Stub>, reason: Reason): seq<Alert> {
    if stubs == [] then []
    else
      var b := stubs[|stubs| - 1];
      AlertsFor(stubs[..|stubs| - 1], reason) + [Alert(b.id, b.severity, reason)]
  }

  lemma OneMoreStub(stubs: seq<Stub>, i: nat)
    requires i < |stubs|
    ensures var seen, more, b := stubs[..i], stubs[..i + 1], stubs[i];
      && Flatten(more) == Flatten(seen) + b.events
      && PortsOf(more) == PortsOf(seen) + (if b.dstPort > 0 then {b.dstPort} else {})
      && Highest(more) == if Rank(b.severity) > Rank(Highest(seen)) then b.severity else Highest(seen)
  {
    assert stubs[..i + 1] == stubs[..i] + [stubs[i]];
    assert stubs[..i + 1][..i] == stubs[..i];
  }

  /** The rows left when each of the first `n` stubs is deleted or, if its statement fails, kept. */
  function Remaining(cases: map<Id, Row>, stubs: seq<Stub>, deleted: nat -> bool, n: nat): map<Id, Row>
    requires n <= |stubs|
  {
    if n == 0 then cases
    else
      var rest := Remaining(cases, stubs, deleted, n - 1);
      if deleted(n - 1) then rest - {stubs[n - 1].id} else rest
  }

  /** The rows after a flush of `batch`, `burst` being the id of the case it may insert. */
  function FlushedCases(cases: map<Id, Row>, burst: Id, batch: seq<Stub>, inserted: bool, deleted: nat -> bool): map<Id, Row> {
    if |batch| < BURST_THRESHOLD || !inserted then cases
    else
      var row := Row(MergedSeverity(batch), Status.Open, Flatten(batch), Burst(|batch|));
      Remaining(cases[burst := row], batch, deleted, |batch|)
  }

  /** What the flush hands to the alerter. */
  function FlushAlerts(burst: Id, batch: seq<Stub>, inserted: bool): seq<Alert> {
    if |batch| < BURST_THRESHOLD then AlertsFor(batch, Individual)
    else if !inserted then AlertsFor(batch, Fallback)
    else if MergedSeverity(batch) == Info then []
    else [Alert(burst, MergedSeverity(batch), Rollup)]
  }

  function FlushEffect(s: State, inserted: bool, deleted: nat -> bool): State {
    s.(buffer := [],
       cases := FlushedCases(s.cases, s.nextId, s.buffer, inserted, deleted),
       alerts := s.alerts + FlushAlerts(s.nextId, s.buffer, inserted),
       nextId := if |s.buffer| < BURST_THRESHOLD then s.nextId else s.nextId + 1)
  }

  function MidDelete(s: State, batch: seq<Stub>, deleted: nat -> bool, n: nat): State
    requires s.flush.Deleting? && n <= |batch|
  {
    s.(cases := Remaining(s.cases, batch, deleted, n), flush := Deleting(batch[n..], s.flush.burst, s.flush.severity))
  }

  lemma FlushFrame(s: State, inserted: bool, deleted: nat -> bool)
    ensures var s' := FlushEffect(s, inserted, deleted);
      s' == State(s.events, s'.cases, s.index, [], s'.alerts, s'.nextId, s.ingest, s.flush)
  {
  }

  lemma DeleteStep(s: State, batch: seq<Stub>, deleted: nat -> bool, n: nat)
    requires s.flush.Deleting? && n < |batch|
    ensures Next(MidDelete(s, batch, deleted, n), Delete(deleted(n))) == MidDelete(s, batch, deleted, n + 1)
  {
    var mid := MidDelete(s, batch, deleted, n);
    assert mid.flush.rest[0] == batch[n] && mid.flush.rest[1..] == batch[n + 1..];
    assert Next(mid, Delete(deleted(n))) == DeleteStub(mid, deleted(n));
    assert DeleteStub(mid, deleted(n)).cases == Remaining(s.cases, batch, deleted, n + 1);
  }

  lemma LastDelete(deleted: nat -> bool, n: nat)
    requires n > 0
    ensures var steps := Deletes(n, deleted);
      |steps| == n && steps[..n - 1] == Deletes(n - 1, deleted) && steps[n - 1] == Delete(deleted(n - 1))
  {
  }

  lemma {:induction false} RunDeletes(s: State, batch: seq<Stub>, deleted: nat -> bool, n: nat)
    requires s.flush.Deleting? && s.flush.rest == batch && n <= |batch|
    ensures Run(s, Deletes(n, deleted)) == MidDelete(s, batch, deleted, n)
  {
    if n == 0 {
      assert batch[0..] == batch;
    } else {
      RunDeletes(s, batch, deleted, n - 1);
      DeleteStep(s, batch, deleted, n - 1);
      LastDelete(deleted, n);
    }
  }

  lemma {:induction false} RunAlerts(s: State, n: nat)
    requires s.flush.Alerting? && n < |s.flush.rest|
    ensures Run(s, AlertNexts(n))
         == s.(alerts := s.alerts + AlertsFor(s.flush.rest[..n], s.flush.reason),
               flush := Alerting(s.flush.rest[n..], s.flush.reason))
  {
    var steps := AlertNexts(n);
    if n == 0 {
      assert steps == [] && s.flush.rest[0..] == s.flush.rest && s.alerts + [] == s.alerts;
    } else {
      var m, rest := n - 1, s.flush.rest;
      RunAlerts(s, m);
      assert steps[..m] == AlertNexts(m);
      assert rest[m..][0] == rest[m] && rest[m..][1..] == rest[n..] && rest[..n][..m] == rest[..m];
      var a := Alert(rest[m].id, rest[m].severity, s.flush.reason);
      assert s.alerts + (AlertsFor(rest[..m], s.flush.reason) + [a]) == s.alerts + AlertsFor(rest[..m], s.flush.reason) + [a];
    }
  }

  lemma RunAllAlerts(s: State)
    requires s.flush.Alerting? && s.flush.rest != []
    ensures Run(s, AlertNexts(|s.flush.rest|))
         == s.(alerts := s.alerts + AlertsFor(s.flush.rest, s.flush.reason), flush := Asleep)
  {
    var rest, m := s.flush.rest, |s.flush.rest| - 1;
    RunAlerts(s, m);
    assert AlertNexts(m + 1)[..m] == AlertNexts(m);
    assert rest[m..] == [rest[m]] && rest[..m] + [rest[m]] == rest;
    var a := Alert(rest[m].id, rest[m].severity, s.flush.reason);
    assert s.alerts + (AlertsFor(rest[..m], s.flush.reason) + [a]) == s.alerts + AlertsFor(rest[..m], s.flush.reason) + [a];
  }

  lemma {:induction false} IdleDeletes(s: State, deleted: nat -> bool, n: nat)
    requires !s.flush.Deleting?
    ensures Run(s, Deletes(n, deleted)) == s
  {
    if n > 0 {
      IdleDeletes(s, deleted, n - 1);
      assert Deletes(n, deleted)[..n - 1] == Deletes(n - 1, deleted);
    }
  }

  lemma {:induction false} IdleAlerts(s: State, n: nat)
    requires !s.flush.Alerting?
    ensures Run(s, AlertNexts(n)) == s
  {
    if n > 0 {
      IdleAlerts(s, n - 1);
      assert AlertNexts(n)[..n - 1] == AlertNexts(n - 1);
    }
  }

  lemma DrainSmall(s: State, inserted: bool)
    requires s.flush.Asleep? && |s.buffer| < BURST_THRESHOLD
    ensures Next(Next(s, Drain), Merge(inserted))
         == s.(buffer := [], flush := if s.buffer == [] then Asleep else Alerting(s.buffer, Individual))
  {
  }

  lemma DrainFailed(s: State)
    requires s.flush.Asleep? && |s.buffer| >= BURST_THRESHOLD
    ensures Next(Next(s, Drain), Merge(false))
         == s.(buffer := [], flush := Alerting(s.buffer, Fallback), nextId := s.nextId + 1)
  {
  }

  /** A flush that has stubs to alert one by one does just that. */
  lemma AlertOut(s1: State, deleted: nat -> bool)
    requires s1.flush.Alerting? && s1.flush.rest != []
    ensures var n := |s1.flush.rest|;
      Run(Next(Run(s1, Deletes(n, deleted)), Announce), AlertNexts(n))
      == s1.(alerts := s1.alerts + AlertsFor(s1.flush.rest, s1.flush.reason), flush := Asleep)
  {
    IdleDeletes(s1, deleted, |s1.flush.rest|);
    RunAllAlerts(s1);
  }

  lemma EmptyFlush(s: State, inserted: bool, deleted: nat -> bool)
    requires s.flush.Asleep? && s.buffer == []
    ensures var s1 := Next(Next(s, Drain), Merge(inserted));
      Run(Next(Run(s1, Deletes(0, deleted)), Announce), AlertNexts(0)) == FlushEffect(s, inserted, deleted)
  {
    DrainSmall(s, inserted);
    IdleDeletes(s, deleted, 0);
    IdleAlerts(s, 0);
    assert AlertsFor([], Individual) == [] && s.alerts + [] == s.alerts;
    assert s.(buffer := []) == s;
  }

  lemma SmallFlush(s: State, inserted: bool, deleted: nat -> bool)
    requires s.flush.Asleep? && 0 < |s.buffer| < BURST_THRESHOLD
    ensures var n, s1 := |s.buffer|, Next(Next(s, Drain), Merge(inserted));
      Run(Next(Run(s1, Deletes(n, deleted)), Announce), AlertNexts(n)) == FlushEffect(s, inserted, deleted)
  {
    DrainSmall(s, inserted);
    AlertOut(Next(Next(s, Drain), Merge(inserted)), deleted);
  }

  lemma FailedFlush(s: State, deleted: nat -> bool)
    requires s.flush.Asleep? && |s.buffer| >= BURST_THRESHOLD
    ensures var n, s1 := |s.buffer|, Next(Next(s, Drain), Merge(false));
      Run(Next(Run(s1, Deletes(n, deleted)), Announce), AlertNexts(n)) == FlushEffect(s, false, deleted)
  {
    DrainFailed(s);
    AlertOut(Next(Next(s, Drain), Merge(false)), deleted);
  }

  lemma MergedFlush(s: State, deleted: nat -> bool)
    requires s.flush.Asleep? && |s.buffer| >= BURST_THRESHOLD
    ensures var n, s1 := |s.buffer|, Next(Next(s, Drain), Merge(true));
      Run(Next(Run(s1, Deletes(n, deleted)), Announce), AlertNexts(n)) == FlushEffect(s, true, deleted)
  {
    var n, s1 := |s.buffer|, Next(Next(s, Drain), Merge(true));
    RunDeletes(s1, s.buffer, deleted, n);
    var s2 := MidDelete(s1, s.buffer, deleted, n);
    assert s2.flush.rest == [];
    IdleAlerts(Next(s2, Announce), n);
  }

  /** An uninterrupted flush is a schedule. */
  lemma FlushIsSchedule(s: State, inserted: bool, deleted: nat -> bool)
    requires s.flush.Asleep?
    ensures Run(s, FlushSteps(|s.buffer|, inserted, deleted)) == FlushEffect(s, inserted, deleted)
  {
    var n := |s.buffer|;
    var head, d, a := [Drain, Merge(inserted)], Deletes(n, deleted), AlertNexts(n);
    RunAppend(s, head + d + [Announce], a);
    RunAppend(s, head + d, [Announce]);
    RunAppend(s, head, d);
    assert head == [Drain] + [Merge(inserted)];
    RunFirst(s, Drain, [Merge(inserted)]);
    RunOne(Next(s, Drain), Merge(inserted));
    RunOne(Run(Run(s, head), d), Announce);
    if n == 0 {
      EmptyFlush(s, inserted, deleted);
    } else if n < BURST_THRESHOLD {
      SmallFlush(s, inserted, deleted);
    } else if inserted {
      MergedFlush(s, deleted);
    } else {
      FailedFlush(s, deleted);
    }
  }

  // ----- whole runs of calls, one at a time

  datatype Call =
    | Packet(line: Line, f: Faults, retry: Faults)
    | Tick(inserted: bool, deleted: nat -> bool)

  function CallSteps(s: State, call: Call): seq<Step> {
    match call
    case Packet(line, f, retry) => IngestSteps(s, line, f, retry)
    case Tick(inserted, deleted) => FlushSteps(|s.buffer|, inserted, deleted)
  }

  /** The schedule of calls made one after the other. */
  function Schedule(calls: seq<Call>): seq<Step> {
    if calls == [] then []
    else
      var before := Schedule(calls[..|calls| - 1]);
      before + CallSteps(After(before), calls[|calls| - 1])
  }

  /** One more call continues the schedule from the state reached. */
  lemma ScheduleMore(calls: seq<Call>, call: Call)
    ensures Schedule(calls + [call]) == Schedule(calls) + CallSteps(After(Schedule(calls)), call)
    ensures After(Schedule(calls + [call])) == Run(After(Schedule(calls)), CallSteps(After(Schedule(calls)), call))
  {
    assert (calls + [call])[..|calls|] == calls;
    RunAppend(INIT, Schedule(calls), CallSteps(After(Schedule(calls)), call));
  }

  predicate IngestStep(step: Step) {
    step.Receive? || step.Open? || step.Publish? || step.Fetch? || step.Retry? || step.Update?
  }

  lemma NextFrame(s: State, step: Step)
    ensures IngestStep(step) ==> Next(s, step).flush == s.flush
    ensures !IngestStep(step) ==> Next(s, step).ingest == s.ingest
  {
  }

  /** While only one goroutine moves, and the other is between calls, the schedule stays atomic. */
  lemma {:induction false} AtomicExtends(steps: seq<Step>, more: seq<Step>, s: State)
    requires Atomic(steps) && s == After(steps)
    requires || (s.flush.Asleep? && forall step <- more :: IngestStep(step))
             || (s.ingest.Waiting? && forall step <- more :: !IngestStep(step))
    ensures Atomic(steps + more)
    ensures (forall step <- more :: IngestStep(step)) ==> After(steps + more).flush == s.flush
    ensures (forall step <- more :: !IngestStep(step)) ==> After(steps + more).ingest == s.ingest
    decreases |more|
  {
    if more == [] {
      assert steps + more == steps;
    } else {
      var n := |more| - 1;
      var before, all, last := steps + more[..n], steps + more, more[n];
      AtomicExtends(steps, more[..n], s);
      assert Before(all) == before && Last(all) == last;
      NextFrame(After(before), last);
    }
  }

  lemma IngestFrame(s: State, line: Line, f: Faults, retry: Faults)
    requires s.ingest.Waiting?
    ensures IngestEffect(s, line, f, retry).flush == s.flush
  {
  }

  lemma PacketEnds(s: State, line: Line, f: Faults, retry: Faults)
    requires s.ingest.Waiting? && s.flush.Asleep?
    ensures var s' := Run(s, IngestSteps(s, line, f, retry)); s'.ingest.Waiting? && s'.flush.Asleep?
    ensures forall step <- IngestSteps(s, line, f, retry) :: IngestStep(step)
  {
    IngestIsSchedule(s, line, f, retry);
    IngestFrame(s, line, f, retry);
  }

  lemma TickEnds(s: State, inserted: bool, deleted: nat -> bool)
    requires s.ingest.Waiting? && s.flush.Asleep?
    ensures var s' := Run(s, FlushSteps(|s.buffer|, inserted, deleted)); s'.ingest.Waiting? && s'.flush.Asleep?
    ensures forall step <- FlushSteps(|s.buffer|, inserted, deleted) :: !IngestStep(step)
  {
    FlushIsSchedule(s, inserted, deleted);
    FlushFrame(s, inserted, deleted);
  }

  /** Calls made one at a time form an atomic schedule that ends between calls. */
  lemma {:induction false} ScheduleIsAtomic(calls: seq<Call>)
    ensures Atomic(Schedule(calls))
    ensures After(Schedule(calls)).ingest.Waiting? && After(Schedule(calls)).flush.Asleep?
  {
    if calls != [] {
      var before, call := Schedule(calls[..|calls| - 1]), calls[|calls| - 1];
      ScheduleIsAtomic(calls[..|calls| - 1]);
      match call {
        case Packet(line, f, retry) => PacketEnds(After(before), line, f, retry);
        case Tick(inserted, deleted) => TickEnds(After(before), inserted, deleted);
      }
      AtomicExtends(before, CallSteps(After(before), call), After(before));
      RunAppend(INIT, before, CallSteps(After(before), call));
    }
  }

  /** What a call does, whatever the state it is made in. */
  function CallEffect(s: State, call: Call): State
    requires s.ingest.Waiting?
  {
    match call
    case Packet(line, f, retry) => IngestEffect(s, line, f, retry)
    case Tick(inserted, deleted) => FlushEffect(s, inserted, deleted)
  }

  lemma CallIsSchedule(s: State, call: Call)
    requires s.ingest.Waiting? && s.flush.Asleep?
    ensures Run(s, CallSteps(s, call)) == CallEffect(s, call)
  {
    match call {
      case Packet(line, f, retry) => IngestIsSchedule(s, line, f, retry);
      case Tick(inserted, deleted) => FlushIsSchedule(s, inserted, deleted);
    }
  }

  lemma SameSteps(s: State, call: Call, events: Events, cases: Cases)
    ensures CallSteps(With(s, events, cases), call) == CallSteps(s, call)
  {
  }

  /** Over old rows, one more call takes the state where the longer schedule takes it. */
  lemma NextCall(calls: seq<Call>, call: Call, s: State, events: Events, cases: Cases) returns (s': State)
    requires OldTables(events, cases) && s == After(Schedule(calls))
    ensures s' == After(Schedule(calls + [call]))
    ensures var w := With(s, events, cases);
      && w.ingest.Waiting? && CallEffect(w, call) == With(s', events, cases)
      && (forall e <- w.events :: e < w.nextId) && (forall c <- w.cases :: c < w.nextId)
  {
    var steps, more, w := Schedule(calls), CallSteps(s, call), With(s, events, cases);
    s' := After(Schedule(calls + [call]));
    ScheduleIsAtomic(calls);
    ScheduleMore(calls, call);
    SameSteps(s, call, events, cases);
    OldRowsAside(steps, events, cases);
    OldRowsAside(steps + more, events, cases);
    RunAppend(With(INIT, events, cases), steps, more);
    CallIsSchedule(w, call);
    AlwaysInv(steps);
    AlwaysOwn(steps);
  }

  /** No statement of the call fails. */
  ghost predicate Faultless(call: Call) {
    match call
    case Packet(_, f, retry) => f == retry == Faults(true, true, true, true)
    case Tick(inserted, deleted) => inserted && forall i: nat :: deleted(i)
  }

  lemma FaultlessSteps(s: State, call: Call)
    requires Faultless(call)
    ensures FaultFree(CallSteps(s, call))
  {
  }

  lemma {:induction false} FaultlessSchedule(calls: seq<Call>)
    requires forall call <- calls :: Faultless(call)
    ensures FaultFree(Schedule(calls))
  {
    if calls != [] {
      var n := |calls| - 1;
      FaultlessSchedule(calls[..n]);
      FaultlessSteps(After(Schedule(calls[..n])), calls[n]);
    }
  }

  /**
   The event accounting of whole runs: after any sequence of calls that do not fail, no event has two
   owners, and one without an owner was overtaken by a merge or belongs to a line ingested again.
   */
  lemma CallAccounting(calls: seq<Call>, e: Id)
    requires forall call <- calls :: Faultless(call)
    ensures var steps := Schedule(calls);
      && !Shared(After(steps).cases, e)
      && (e in After(steps).events && !Owned(After(steps).cases, e) <==> e in Recovered(steps) || e in Overtaken(steps))
  {
    FaultlessSchedule(calls);
    ScheduleIsAtomic(calls);
    OneOwner(Schedule(calls), e);
    AtomicOrphans(Schedule(calls), e);
  }
}
