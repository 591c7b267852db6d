/**
 The listener with its mutex and its alert channel spelled out. Adding to the burst buffer and draining
 it are the five steps of `BurstLock`, and an alert sent through the channel is a goroutine of
 `AlertSemaphore`; everything interleaves. Each such run is simulated by a schedule of `SyslogMachine`,
 whose `Publish` and `Drain` are atomic.
 */
module SyslogConcurrency {
  import opened Ports
  import opened Text
  import opened Store
  import opened SyslogMachine
  import opened SyslogPreservation
  import opened SyslogCalls
  import BurstLock
  import AlertSemaphore

  const INGEST: nat := 0
  const FLUSH: nat := 1

  /** The machine's state without its buffer, the mutex with the buffer it guards, and the channel. */
  datatype Product = Product(m: State, lock: BurstLock.State<Stub>, channel: AlertSemaphore.State<Id>)

  datatype Move =
    | Do(step: Step)  // a statement that does not touch the buffer
    | AddBegin
    | DrainBegin
    | Hold(held: BurstLock.Step<Stub>)  // take the mutex, read or write the slice
    | AddEnd
    | DrainEnd
    | Post(post: AlertSemaphore.Step<Id>)  // acquire or release the channel

  const START := Product(INIT, BurstLock.Init(), AlertSemaphore.Init())

  function PcOf(p: Product, t: nat): BurstLock.Pc<Stub> {
    BurstLock.PcOf(p.lock, t)
  }

  /** A new case that its ingest has to buffer. */
  predicate HasStub(m: State) {
    m.ingest.Opened? && ClassifySeverity(m.ingest.line.dstPort).Some? && ClassifySeverity(m.ingest.line.dstPort) != Some(High)
  }

  function NewStub(m: State): Stub
    requires HasStub(m)
  {
    StubOf(m.ingest.line, m.ingest.event, m.ingest.id, ClassifySeverity(m.ingest.line.dstPort).value)
  }

  /** What the flush goroutine does with what it drained. */
  function Drained(items: seq<Stub>): FlushPc {
    if items == [] then Asleep
    else if |items| < BURST_THRESHOLD then Alerting(items, Individual)
    else Merging(items)
  }

  /** Whether a goroutine that is not inside a buffer operation can execute `step`. */
  predicate CanDo(p: Product, step: Step) {
    && (if IngestStep(step) then PcOf(p, INGEST).Idle? else PcOf(p, FLUSH).Idle?)
    && !step.Drain?
    && (step.Publish? ==> !HasStub(p.m))
  }

  predicate IsGuarded(a: Alert) {
    a.reason in {Individual, Rollup}
  }

  /** The channel after alerts have grown from `before` to `after`: a guarded alert spawns a goroutine. */
  function Spawned(channel: AlertSemaphore.State<Id>, before: seq<Alert>, after: seq<Alert>): AlertSemaphore.State<Id> {
    if |after| > |before| && IsGuarded(after[|before|])
    then AlertSemaphore.Next(channel, AlertSemaphore.Spawn(after[|before|].id)) else channel
  }

  predicate Holds(step: BurstLock.Step<Stub>) {
    step.Lock? || step.ReadSlice? || step.WriteSlice?
  }

  function Move1(p: Product, move: Move): Product {
    match move
    case Do(step) =>
      if !CanDo(p, step) then p
      else
        var m := Next(p.m, step);
        p.(m := m, channel := Spawned(p.channel, p.m.alerts, m.alerts))
    case AddBegin =>
      if HasStub(p.m) && PcOf(p, INGEST).Idle?
      then p.(lock := BurstLock.Next(p.lock, BurstLock.Request(INGEST, BurstLock.Add(NewStub(p.m))))) else p
    case DrainBegin =>
      if p.m.flush.Asleep? && PcOf(p, FLUSH).Idle?
      then p.(lock := BurstLock.Next(p.lock, BurstLock.Request(FLUSH, BurstLock.Drain))) else p
    case Hold(step) =>
      if Holds(step) then p.(lock := BurstLock.Next(p.lock, step)) else p
    case AddEnd =>
      if PcOf(p, INGEST).Written?
      then p.(lock := BurstLock.Next(p.lock, BurstLock.Unlock(INGEST)), m := p.m.(ingest := Waiting)) else p
    case DrainEnd =>
      if PcOf(p, FLUSH).Written?
      then p.(lock := BurstLock.Next(p.lock, BurstLock.Unlock(FLUSH)), m := p.m.(flush := Drained(PcOf(p, FLUSH).out)))
      else p
    case Post(step) => if step.Spawn? then p else p.(channel := AlertSemaphore.Next(p.channel, step))
  }

  function Reached(moves: seq<Move>): Product {
    if moves == [] then START else Move1(Reached(moves[..|moves| - 1]), moves[|moves| - 1])
  }

  // ----- the simulation

  /** The state of the machine: an operation has taken effect once it has written the slice. */
  function View(m: State, lock: BurstLock.State<Stub>): State {
    var adding, draining := BurstLock.PcOf(lock, INGEST), BurstLock.PcOf(lock, FLUSH);
    m.(buffer := lock.items,
       ingest := if adding.Written? then Waiting else m.ingest,
       flush := if draining.Written? then Drained(draining.out) else m.flush)
  }

  /** The machine's step that a move amounts to, if any. */
  function TraceAt(p: Product, move: Move): seq<Step> {
    match move
    case Do(step) => if CanDo(p, step) then [step] else []
    case Hold(step) =>
      if !step.WriteSlice? || !PcOf(p, step.t).Read? then []
      else if step.t == INGEST then [Publish]
      else [Drain]
    case _ => []
  }

  function Trace(moves: seq<Move>): seq<Step> {
    if moves == [] then []
    else Trace(moves[..|moves| - 1]) + TraceAt(Reached(moves[..|moves| - 1]), moves[|moves| - 1])
  }

  /** Only two goroutines use the mutex, each where its program counter says. */
  ghost predicate LockOk(m: State, lock: BurstLock.State<Stub>) {
    var adding, draining := BurstLock.PcOf(lock, INGEST), BurstLock.PcOf(lock, FLUSH);
    && BurstLock.Inv(lock)
    && (forall t: nat :: t != INGEST && t != FLUSH ==> BurstLock.PcOf(lock, t).Idle?)
    && (!adding.Idle? ==> HasStub(m) && adding.op == BurstLock.Add(NewStub(m)))
    && (!draining.Idle? ==> m.flush.Asleep? && draining.op.Drain?)
  }

  // Statements of one goroutine that do not touch the buffer neither see nor change the other's state.

  lemma AcceptSideways(s: State, line: Line, retried: bool, ok: bool, buffer: seq<Stub>, flush: FlushPc)
    ensures Accept(s.(buffer := buffer, flush := flush), line, retried, ok)
         == Accept(s, line, retried, ok).(buffer := buffer, flush := flush)
  {
  }

  lemma OpenSideways(s: State, ok: bool, buffer: seq<Stub>, flush: FlushPc)
    requires s.ingest.Stored?
    ensures OpenCase(s.(buffer := buffer, flush := flush), ok) == OpenCase(s, ok).(buffer := buffer, flush := flush)
  {
  }

  lemma PublishSideways(s: State, buffer: seq<Stub>, flush: FlushPc)
    requires s.ingest.Opened? && !HasStub(s)
    ensures PublishCase(s.(buffer := buffer, flush := flush)) == PublishCase(s).(buffer := buffer, flush := flush)
  {
  }

  lemma FetchSideways(s: State, ok: bool, buffer: seq<Stub>, flush: FlushPc)
    requires s.ingest.Stored? && KeyOf(s.ingest.line) in s.index
    ensures FetchCase(s.(buffer := buffer, flush := flush), ok) == FetchCase(s, ok).(buffer := buffer, flush := flush)
  {
  }

  lemma UpdateSideways(s: State, ok: bool, buffer: seq<Stub>, flush: FlushPc)
    requires s.ingest.Fetched?
    ensures UpdateRow(s.(buffer := buffer, flush := flush), ok) == UpdateRow(s, ok).(buffer := buffer, flush := flush)
  {
  }

  lemma IngestSideways(s: State, step: Step, buffer: seq<Stub>, flush: FlushPc)
    requires IngestStep(step) && (step.Publish? ==> !HasStub(s))
    ensures Next(s.(buffer := buffer, flush := flush), step) == Next(s, step).(buffer := buffer, flush := flush)
  {
    match step
    case Receive(line, ok) => AcceptSideways(s, line, false, ok, buffer, flush);
    case Retry(ok) => if s.ingest.Retrying? { AcceptSideways(s, s.ingest.line, true, ok, buffer, flush); }
    case Open(ok) => if s.ingest.Stored? { OpenSideways(s, ok, buffer, flush); }
    case Publish => if s.ingest.Opened? { PublishSideways(s, buffer, flush); }
    case Fetch(ok) => if s.ingest.Stored? && KeyOf(s.ingest.line) in s.index { FetchSideways(s, ok, buffer, flush); }
    case Update(ok) => if s.ingest.Fetched? { UpdateSideways(s, ok, buffer, flush); }
  }

  lemma MergeSideways(s: State, ok: bool, buffer: seq<Stub>, ingest: IngestPc)
    requires s.flush.Merging?
    ensures MergeBatch(s.(buffer := buffer, ingest := ingest), ok) == MergeBatch(s, ok).(buffer := buffer, ingest := ingest)
  {
  }

  lemma DeleteSideways(s: State, ok: bool, buffer: seq<Stub>, ingest: IngestPc)
    requires s.flush.Deleting? && s.flush.rest != []
    ensures DeleteStub(s.(buffer := buffer, ingest := ingest), ok) == DeleteStub(s, ok).(buffer := buffer, ingest := ingest)
  {
  }

  lemma AlertSideways(s: State, step: Step, buffer: seq<Stub>, ingest: IngestPc)
    requires step.AlertNext? || step.Announce?
    ensures Next(s.(buffer := buffer, ingest := ingest), step) == Next(s, step).(buffer := buffer, ingest := ingest)
  {
  }

  lemma FlushSideways(s: State, step: Step, buffer: seq<Stub>, ingest: IngestPc)
    requires !IngestStep(step) && !step.Drain?
    ensures Next(s.(buffer := buffer, ingest := ingest), step) == Next(s, step).(buffer := buffer, ingest := ingest)
  {
    match step
    case Merge(ok) => if s.flush.Merging? { MergeSideways(s, ok, buffer, ingest); }
    case Delete(ok) => if s.flush.Deleting? && s.flush.rest != [] { DeleteSideways(s, ok, buffer, ingest); }
    case _ => AlertSideways(s, step, buffer, ingest);
  }

  lemma DoSimulates(m: State, lock: BurstLock.State<Stub>, step: Step)
    requires LockOk(m, lock) && !step.Drain? && (step.Publish? ==> !HasStub(m))
    requires BurstLock.PcOf(lock, if IngestStep(step) then INGEST else FLUSH).Idle?
    ensures LockOk(Next(m, step), lock)
    ensures View(Next(m, step), lock) == Next(View(m, lock), step)
  {
    var v := View(m, lock);
    NextFrame(m, step);
    if IngestStep(step) {
      IngestSideways(m, step, v.buffer, v.flush);
      assert v == m.(buffer := v.buffer, flush := v.flush);
    } else {
      FlushSideways(m, step, v.buffer, v.ingest);
      assert v == m.(buffer := v.buffer, ingest := v.ingest);
    }
  }

  lemma AddTakesEffect(m: State, lock: BurstLock.State<Stub>)
    requires LockOk(m, lock) && BurstLock.PcOf(lock, INGEST).Read?
    ensures View(m, BurstLock.Next(lock, BurstLock.WriteSlice(INGEST))) == Next(View(m, lock), Publish)
  {
    assert BurstLock.PcOk(lock, INGEST) && BurstLock.PcOk(lock, FLUSH);
    BurstLock.Sideways(lock, BurstLock.WriteSlice(INGEST));
  }

  lemma DrainTakesEffect(m: State, lock: BurstLock.State<Stub>)
    requires LockOk(m, lock) && BurstLock.PcOf(lock, FLUSH).Read?
    ensures View(m, BurstLock.Next(lock, BurstLock.WriteSlice(FLUSH))) == Next(View(m, lock), Drain)
  {
    assert BurstLock.PcOk(lock, INGEST) && BurstLock.PcOk(lock, FLUSH);
    BurstLock.Sideways(lock, BurstLock.WriteSlice(FLUSH));
  }

  lemma HoldKeeps(m: State, lock: BurstLock.State<Stub>, step: BurstLock.Step<Stub>)
    requires LockOk(m, lock) && Holds(step)
    ensures LockOk(m, BurstLock.Next(lock, step))
    ensures !(step.WriteSlice? && BurstLock.PcOf(lock, step.t).Read?) ==> View(m, BurstLock.Next(lock, step)) == View(m, lock)
  {
    BurstLock.NextKeeps(lock, step);
    BurstLock.Sideways(lock, step);
  }

  lemma AddBegins(m: State, lock: BurstLock.State<Stub>)
    requires LockOk(m, lock) && HasStub(m) && BurstLock.PcOf(lock, INGEST).Idle?
    ensures var lock' := BurstLock.Next(lock, BurstLock.Request(INGEST, BurstLock.Add(NewStub(m))));
      LockOk(m, lock') && View(m, lock') == View(m, lock)
  {
    BurstLock.NextKeeps(lock, BurstLock.Request(INGEST, BurstLock.Add(NewStub(m))));
    BurstLock.Sideways(lock, BurstLock.Request(INGEST, BurstLock.Add(NewStub(m))));
  }

  lemma DrainBegins(m: State, lock: BurstLock.State<Stub>)
    requires LockOk(m, lock) && m.flush.Asleep? && BurstLock.PcOf(lock, FLUSH).Idle?
    ensures var lock' := BurstLock.Next(lock, BurstLock.Request(FLUSH, BurstLock.Drain));
      LockOk(m, lock') && View(m, lock') == View(m, lock)
  {
    BurstLock.NextKeeps(lock, BurstLock.Request(FLUSH, BurstLock.Drain));
    BurstLock.Sideways(lock, BurstLock.Request(FLUSH, BurstLock.Drain));
  }

  lemma AddEnds(m: State, lock: BurstLock.State<Stub>)
    requires LockOk(m, lock) && BurstLock.PcOf(lock, INGEST).Written?
    ensures var m', lock' := m.(ingest := Waiting), BurstLock.Next(lock, BurstLock.Unlock(INGEST));
      LockOk(m', lock') && View(m', lock') == View(m, lock)
  {
    BurstLock.NextKeeps(lock, BurstLock.Unlock(INGEST));
    BurstLock.Sideways(lock, BurstLock.Unlock(INGEST));
  }

  lemma DrainEnds(m: State, lock: BurstLock.State<Stub>)
    requires LockOk(m, lock) && BurstLock.PcOf(lock, FLUSH).Written?
    ensures var m', lock' := m.(flush := Drained(BurstLock.PcOf(lock, FLUSH).out)), BurstLock.Next(lock, BurstLock.Unlock(FLUSH));
      LockOk(m', lock') && View(m', lock') == View(m, lock)
  {
    BurstLock.NextKeeps(lock, BurstLock.Unlock(FLUSH));
    BurstLock.Sideways(lock, BurstLock.Unlock(FLUSH));
  }

  lemma HoldSimulates(p: Product, step: BurstLock.Step<Stub>)
    requires LockOk(p.m, p.lock) && Holds(step)
    ensures var lock := BurstLock.Next(p.lock, step);
      LockOk(p.m, lock) && View(p.m, lock) == Run(View(p.m, p.lock), TraceAt(p, Hold(step)))
  {
    HoldKeeps(p.m, p.lock, step);
    if step.WriteSlice? && PcOf(p, step.t).Read? {
      if step.t == INGEST {
        AddTakesEffect(p.m, p.lock);
        RunOne(View(p.m, p.lock), Publish);
      } else {
        DrainTakesEffect(p.m, p.lock);
        RunOne(View(p.m, p.lock), Drain);
      }
    }
  }

  lemma MoveSimulates(p: Product, move: Move)
    requires LockOk(p.m, p.lock)
    ensures var p' := Move1(p, move);
      LockOk(p'.m, p'.lock) && View(p'.m, p'.lock) == Run(View(p.m, p.lock), TraceAt(p, move))
  {
    match move
    case Do(step) => if CanDo(p, step) { DoSimulates(p.m, p.lock, step); RunOne(View(p.m, p.lock), step); }
    case AddBegin => if HasStub(p.m) && PcOf(p, INGEST).Idle? { AddBegins(p.m, p.lock); }
    case DrainBegin => if p.m.flush.Asleep? && PcOf(p, FLUSH).Idle? { DrainBegins(p.m, p.lock); }
    case AddEnd => if PcOf(p, INGEST).Written? { AddEnds(p.m, p.lock); }
    case DrainEnd => if PcOf(p, FLUSH).Written? { DrainEnds(p.m, p.lock); }
    case Post(_) =>
    case Hold(step) => if Holds(step) { HoldSimulates(p, step); }
  }

  /**
   Whatever the interleaving of statements, mutex steps and posts, the listener is in the state that
   the machine reaches by a schedule: every theorem about schedules holds of it.
   */
  lemma {:induction false} Simulated(moves: seq<Move>)
    ensures LockOk(Reached(moves).m, Reached(moves).lock)
    ensures View(Reached(moves).m, Reached(moves).lock) == After(Trace(moves))
  {
    if moves == [] {
      assert View(INIT, START.lock) == INIT;
    } else {
      var before, move := moves[..|moves| - 1], moves[|moves| - 1];
      Simulated(before);
      MoveSimulates(Reached(before), move);
      RunAppend(INIT, Trace(before), TraceAt(Reached(before), move));
    }
  }

  // ----- the alert channel

  /** The cases that goroutines post through the channel. */
  function Guarded(alerts: seq<Alert>): set<Id> {
    set a <- alerts | IsGuarded(a) :: a.id
  }

  ghost predicate ChannelOk(p: Product) {
    AlertSemaphore.Inv(p.channel) && p.channel.pcs.Keys == Guarded(p.m.alerts)
  }

  ghost predicate DistinctAlerts(alerts: seq<Alert>) {
    forall i, j :: 0 <= i < j < |alerts| ==> alerts[i].id != alerts[j].id
  }

  lemma OneAlert(s: State, step: Step)
    ensures var alerts := Next(s, step).alerts;
      alerts == s.alerts || (|alerts| == |s.alerts| + 1 && alerts == s.alerts + [alerts[|s.alerts|]])
  {
  }

  lemma GuardedMore(alerts: seq<Alert>, a: Alert)
    requires forall b <- alerts :: b.id != a.id
    ensures Guarded(alerts + [a]) == Guarded(alerts) + (if IsGuarded(a) then {a.id} else {})
    ensures a.id !in Guarded(alerts)
  {
  }

  lemma DoSpawns(p: Product, step: Step)
    requires ChannelOk(p) && CanDo(p, step)
    requires DistinctAlerts(Next(p.m, step).alerts)
    ensures ChannelOk(Move1(p, Do(step)))
  {
    var before, after := p.m.alerts, Next(p.m, step).alerts;
    OneAlert(p.m, step);
    if after != before {
      var a := after[|before|];
      assert forall i :: 0 <= i < |before| ==> before[i] == after[i];
      GuardedMore(before, a);
      if IsGuarded(a) {
        AlertSemaphore.SpawnKeeps(p.channel, a.id);
      }
    }
  }

  lemma PostKeeps(channel: AlertSemaphore.State<Id>, step: AlertSemaphore.Step<Id>)
    requires AlertSemaphore.Inv(channel) && !step.Spawn?
    ensures var channel' := AlertSemaphore.Next(channel, step);
      AlertSemaphore.Inv(channel') && channel'.pcs.Keys == channel.pcs.Keys
  {
    AlertSemaphore.NextKeeps(channel, step);
  }

  lemma DistinctAfter(moves: seq<Move>)
    ensures var alerts := Reached(moves).m.alerts;
      alerts == After(Trace(moves)).alerts && DistinctAlerts(alerts)
  {
    Simulated(moves);
    AlwaysInv(Trace(moves));
  }

  lemma MoveKeepsChannel(p: Product, move: Move)
    requires ChannelOk(p) && DistinctAlerts(Move1(p, move).m.alerts)
    ensures ChannelOk(Move1(p, move))
  {
    if move.Do? && CanDo(p, move.step) {
      DoSpawns(p, move.step);
    } else if move.Post? && !move.post.Spawn? {
      PostKeeps(p.channel, move.post);
    }
  }

  lemma {:induction false} AlwaysChannelOk(moves: seq<Move>)
    ensures ChannelOk(Reached(moves))
  {
    if moves == [] {
      assert AlertSemaphore.Running(START.channel) == {};
    } else {
      var before, move := moves[..|moves| - 1], moves[|moves| - 1];
      AlwaysChannelOk(before);
      DistinctAfter(moves);
      MoveKeepsChannel(Reached(before), move);
    }
  }

  lemma UnguardedId(alerts: seq<Alert>, a: Alert)
    requires a in alerts && !IsGuarded(a) && DistinctAlerts(alerts)
    ensures a.id !in Guarded(alerts)
  {
    forall b <- alerts | b.id == a.id ensures b == a {
      var i :| 0 <= i < |alerts| && alerts[i] == a;
      var j :| 0 <= j < |alerts| && alerts[j] == b;
    }
  }

  /**
   In every run at most ten posts go through the channel at once; the cases posted are those alerted
   individually or as a burst, each once, and all of them, with no token left, when every goroutine is done.
   */
  lemma Delivered(moves: seq<Move>)
    ensures var channel, alerts := Reached(moves).channel, After(Trace(moves)).alerts;
      && channel.tokens == |AlertSemaphore.Running(channel)| <= 10
      && (forall i, j :: 0 <= i < j < |channel.posted| ==> channel.posted[i] != channel.posted[j])
      && (forall id <- channel.posted :: exists a :: a in alerts && a.id == id)
      && (forall a <- alerts :: a.id in channel.posted ==> a.reason == Individual || a.reason == Rollup)
      && ((forall g <- channel.pcs :: channel.pcs[g].Done?) ==>
            channel.tokens == 0 && forall a <- alerts :: a.reason == Individual || a.reason == Rollup ==> a.id in channel.posted)
  {
    AlwaysChannelOk(moves);
    DistinctAfter(moves);
    var channel, alerts := Reached(moves).channel, After(Trace(moves)).alerts;
    if forall g <- channel.pcs :: channel.pcs[g].Done? {
      assert AlertSemaphore.Running(channel) == {};
    }
    forall a <- alerts | !IsGuarded(a) ensures a.id !in Guarded(alerts) {
      UnguardedId(alerts, a);
    }
  }
}
