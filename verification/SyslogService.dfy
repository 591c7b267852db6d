/** The listener's objects: ingest and flush as they change the database, the case index and the buffer. */
module SyslogService {
  import opened Text
  import opened Ports
  import opened Store
  import opened SyslogMachine
  import opened SyslogInvariant
  import opened SyslogPreservation
  import opened SyslogCalls
  import opened SyslogRestart

  /** A case held in the burst buffer pending flush. */
  class BufferedCase {
    const c: Case
    const proto: string
    const srcIP: string
    const dstPort: int

    constructor (c: Case, proto: string, srcIP: string, dstPort: int)
      ensures this.c == c && this.proto == proto && this.srcIP == srcIP && this.dstPort == dstPort
    {
      this.c, this.proto, this.srcIP, this.dstPort := c, proto, srcIP, dstPort;
    }

    function Frozen(): Stub
      reads this, c
    {
      Stub(c.id, c.severity, c.relatedEventIDs, proto, srcIP, dstPort)
    }
  }

  function CasesOf(items: seq<BufferedCase>): set<Case> {
    set b <- items :: b.c
  }

  /** What the buffered objects hold at this moment. */
  function Stubs(items: seq<BufferedCase>): (stubs: seq<Stub>)
    reads items, CasesOf(items)
    ensures |stubs| == |items|
    ensures forall i :: 0 <= i < |items| ==> stubs[i] == items[i].Frozen()
  {
    seq(|items|, i requires 0 <= i < |items| reads items, CasesOf(items) => items[i].Frozen())
  }

  class BurstBuffer {
    var items: seq<BufferedCase>

    constructor ()
      ensures items == []
    {
      items := [];
    }

    method Add(bc: BufferedCase)
      modifies this
      ensures items == old(items) + [bc]
    {
      items := items + [bc];
    }

    method Drain() returns (out: seq<BufferedCase>)
      modifies this
      ensures out == old(items) && items == []
    {
      out := items;
      items := [];
    }
  }

  class Listener {
    const store: DB
    const buf: BurstBuffer
    var caseIndex: map<Key, Id>
    var alerts: seq<Alert>  // the cases handed to the alerter so far
    var nextId: Id

    /** Listens over whatever `store` holds. */
    constructor (store: DB)
      ensures this.store == store && fresh(buf)
      ensures View() == With(INIT, store.events, store.cases)
    {
      this.store := store;
      buf := new BurstBuffer();
      caseIndex, alerts, nextId := map[], [], 0;
    }

    /** The state of the machine between calls. */
    ghost function View(): State
      reads this, store, buf, buf.items, CasesOf(buf.items)
    {
      State(store.events, store.cases, caseIndex, Stubs(buf.items), alerts, nextId, Waiting, Asleep)
    }

    method NewId() returns (id: Id)
      modifies this`nextId
      ensures id == old(nextId) && nextId == id + 1
    {
      id := nextId;
      nextId := nextId + 1;
    }

    method Alert(c: Case, reason: Reason)
      modifies this`alerts
      ensures alerts == old(alerts) + [SyslogMachine.Alert.Alert(c.id, c.severity, reason)]
    {
      alerts := alerts + [SyslogMachine.Alert.Alert(c.id, c.severity, reason)];
    }

    /** Ids still to be handed out are in use nowhere. */
    ghost predicate FreshIds()
      reads this, store
    {
      && (forall e <- store.events :: e < nextId)
      && (forall c <- store.cases :: c < nextId)
    }

    /** Opens a case for a key that has none, and alerts or buffers it. */
    method OpenNew(line: Line, severity: Severity, eventId: Id, ok: bool)
      requires FreshIds()
      modifies this, store`cases, buf
      ensures nextId == old(nextId) + 1 && caseIndex == old(caseIndex)[KeyOf(line) := old(nextId)]
      ensures store.cases == if ok then old(store.cases)[old(nextId) := Row(severity, Status.Open, [eventId], Drop)]
                             else old(store.cases)
      ensures alerts == if ok && severity == High
                        then old(alerts) + [SyslogMachine.Alert.Alert(old(nextId), severity, Immediate)] else old(alerts)
      ensures Stubs(buf.items) == if ok && severity != High
                                  then old(Stubs(buf.items)) + [StubOf(line, eventId, old(nextId), severity)]
                                  else old(Stubs(buf.items))
    {
      ghost var stubs := Stubs(buf.items);
      var id := NewId();
      caseIndex := caseIndex[KeyOf(line) := id];
      var c := new Case(id, severity, [eventId], Drop);
      var err := store.InsertCase(c, ok);
      assert Stubs(buf.items) == stubs;
      if !err {
        Publish(c, line, eventId);
      }
    }

    /** Alerts a new case at once if it is high; otherwise buffers it for the next flush. */
    method Publish(c: Case, line: Line, eventId: Id)
      requires c.relatedEventIDs == [eventId]
      modifies this`alerts, buf
      ensures alerts == if c.severity == High
                        then old(alerts) + [SyslogMachine.Alert.Alert(c.id, c.severity, Immediate)] else old(alerts)
      ensures Stubs(buf.items) == if c.severity == High then old(Stubs(buf.items))
                                  else old(Stubs(buf.items)) + [StubOf(line, eventId, c.id, c.severity)]
    {
      if c.severity == High {
        Alert(c, Immediate);
      } else {
        var bc := new BufferedCase(c, line.proto, line.srcIP, line.dstPort);
        assert bc.Frozen() == StubOf(line, eventId, c.id, c.severity);
        buf.Add(bc);
      }
    }

    /** Appends an event to a case read back from the database; a full case is closed and evicted. */
    method Append(c: Case, line: Line, eventId: Id, ok: bool)
      modifies this`caseIndex, store`cases, c
      ensures store.cases == if ok && c.id in old(store.cases)
                             then old(store.cases)[c.id := Appended(old(c.ToRow()), eventId)] else old(store.cases)
      ensures caseIndex == if ok && |Appended(old(c.ToRow()), eventId).events| >= BURST_MAX_EVENTS
                           then old(caseIndex) - {KeyOf(line)} else old(caseIndex)
    {
      c.relatedEventIDs := c.relatedEventIDs + [eventId];
      if |c.relatedEventIDs| >= BURST_MAX_EVENTS {
        c.status := Closed;
        var err := store.UpdateCase(c, ok);
        if !err {
          caseIndex := caseIndex - {KeyOf(line)};
        }
      } else {
        var err := store.UpdateCase(c, ok);
      }
    }

    /** Stores one line's event and creates or extends its case. */
    method Ingest(line: Line, f: Faults, retry: Faults)
      requires FreshIds()
      modifies this, store, buf
      ensures View() == IngestEffect(old(View()), line, f, retry)
      decreases if KeyOf(line) in caseIndex then 1 else 0, 1
    {
      ghost var s := View();
      var severity := ClassifySeverity(line.dstPort);
      if severity.None? {
        return;
      }
      var eventId := NewId();
      var err := store.InsertEvent(eventId, EventOf(line), f.insertEvent);
      if err {
        return;
      }
      assert View().(ingest := Stored(line, eventId, false)) == Accept(s, line, false, f.insertEvent);
      Place(line, severity.value, eventId, f, retry);
    }

    /** The rest of an ingest: the stored event goes to its key's case, or to a new one. */
    method Place(line: Line, severity: Severity, eventId: Id, f: Faults, retry: Faults)
      requires FreshIds() && ClassifySeverity(line.dstPort) == Some(severity)
      modifies this, store, buf
      ensures View() == PlaceEffect(old(View()).(ingest := Stored(line, eventId, false)), f, retry)
      decreases if KeyOf(line) in caseIndex then 1 else 0, 0
    {
      ghost var s := View().(ingest := Stored(line, eventId, false));
      var key := KeyOf(line);
      if key !in caseIndex {
        OpenNew(line, severity, eventId, f.insertCase);
        assert View() == OpenAndPublish(s, f.insertCase);
        return;
      }
      var c := store.GetCase(caseIndex[key], f.getCase);
      if c == null {
        Retry(line, f, retry, s);
      } else {
        Append(c, line, eventId, f.updateCase);
        assert View() == UpdateRow(FetchCase(s, f.getCase), f.updateCase);
      }
    }

    /** Drops a stale index entry and ingests the line again. */
    method Retry(line: Line, f: Faults, retry: Faults, ghost s: State)
      requires FreshIds() && KeyOf(line) in caseIndex && ClassifySeverity(line.dstPort).Some?
      requires s.ingest.Stored? && s.ingest.line == line && s.(ingest := Waiting) == View()
      requires FetchCase(s, f.getCase).ingest.Retrying?
      modifies this, store, buf
      ensures View() == PlaceEffect(s, f, retry)
      decreases 0, 2
    {
      RetryEffect(s, f, retry);
      caseIndex := caseIndex - {KeyOf(line)};
      assert View() == FetchCase(s, f.getCase).(ingest := Waiting);
      Ingest(line, retry, retry);
    }

    /** Hands each buffered case to the alerter. */
    method AlertAll(items: seq<BufferedCase>, reason: Reason, ghost stubs: seq<Stub>)
      requires stubs == Stubs(items)
      modifies this`alerts
      ensures alerts == old(alerts) + AlertsFor(stubs, reason)
    {
      for i := 0 to |items|
        invariant alerts == old(alerts) + AlertsFor(stubs[..i], reason)
      {
        assert stubs[i] == items[i].Frozen();
        Alert(items[i].c, reason);
        assert stubs[..i + 1][..i] == stubs[..i];
      }
      assert stubs[..|items|] == stubs;
    }

    /** Collects what a burst takes over from its stubs. */
    method Collect(items: seq<BufferedCase>, ghost stubs: seq<Stub>)
      returns (allEventIDs: seq<Id>, uniquePorts: set<int>, highest: Severity, oldCaseIDs: seq<Id>)
      requires stubs == Stubs(items)
      ensures allEventIDs == Flatten(stubs)
      ensures uniquePorts == PortsOf(stubs)
      ensures highest == Highest(stubs)
      ensures |oldCaseIDs| == |items| && forall i :: 0 <= i < |items| ==> oldCaseIDs[i] == stubs[i].id
    {
      allEventIDs, uniquePorts, highest, oldCaseIDs := [], {}, Low, [];
      for i := 0 to |items|
        invariant allEventIDs == Flatten(stubs[..i])
        invariant uniquePorts == PortsOf(stubs[..i])
        invariant highest == Highest(stubs[..i])
        invariant |oldCaseIDs| == i && forall j :: 0 <= j < i ==> oldCaseIDs[j] == stubs[j].id
      {
        var b := items[i];
        assert stubs[i] == b.Frozen();
        OneMoreStub(stubs, i);
        allEventIDs := allEventIDs + b.c.relatedEventIDs;
        if b.dstPort > 0 {
          uniquePorts := uniquePorts + {b.dstPort};
        }
        if Rank(b.c.severity) > Rank(highest) {
          highest := b.c.severity;
        }
        oldCaseIDs := oldCaseIDs + [b.c.id];
      }
      assert stubs[..|items|] == stubs;
    }

    /** Deletes the stubs' rows; a failed deletion is skipped over. */
    method DeleteAll(ids: seq<Id>, ghost stubs: seq<Stub>, deleted: nat -> bool)
      requires |ids| == |stubs| && forall i :: 0 <= i < |ids| ==> ids[i] == stubs[i].id
      modifies store`cases
      ensures store.cases == Remaining(old(store.cases), stubs, deleted, |stubs|)
    {
      for i := 0 to |ids|
        invariant store.cases == Remaining(old(store.cases), stubs, deleted, i)
      {
        store.DeleteCase(ids[i], deleted(i));
      }
    }

    /** Inserts the burst case that takes over the events of `items`. */
    method InsertBurst(items: seq<BufferedCase>, inserted: bool, ghost stubs: seq<Stub>)
      returns (burst: Case, oldCaseIDs: seq<Id>, err: bool)
      requires FreshIds() && stubs == Stubs(items)
      modifies this`nextId, store`cases
      ensures fresh(burst) && burst.id == old(nextId) && nextId == old(nextId) + 1 && err == !inserted
      ensures burst.severity == MergedSeverity(stubs)
      ensures var row := Row(burst.severity, Status.Open, Flatten(stubs), Burst(|items|));
        store.cases == if inserted then old(store.cases)[old(nextId) := row] else old(store.cases)
      ensures |oldCaseIDs| == |items| && forall i :: 0 <= i < |items| ==> oldCaseIDs[i] == stubs[i].id
    {
      var allEventIDs, uniquePorts, highest;
      allEventIDs, uniquePorts, highest, oldCaseIDs := Collect(items, stubs);
      var severity := BurstSeverity(uniquePorts, highest);
      assert severity == MergedSeverity(stubs);
      var id := NewId();
      burst := new Case(id, severity, allEventIDs, Burst(|items|));
      err := store.InsertCase(burst, inserted);
    }

    /** Merges three or more cases into one burst, or alerts them one by one if it cannot be inserted. */
    method RollUp(items: seq<BufferedCase>, inserted: bool, deleted: nat -> bool, ghost stubs: seq<Stub>)
      requires FreshIds() && |items| >= BURST_THRESHOLD && stubs == Stubs(items)
      modifies this`nextId, this`alerts, store`cases
      ensures nextId == old(nextId) + 1
      ensures store.cases == FlushedCases(old(store.cases), old(nextId), stubs, inserted, deleted)
      ensures alerts == old(alerts) + FlushAlerts(old(nextId), stubs, inserted)
    {
      var burst, oldCaseIDs, err := InsertBurst(items, inserted, stubs);
      if err {
        assert Stubs(items) == stubs;
        AlertAll(items, Fallback, stubs);
      } else {
        DeleteAll(oldCaseIDs, stubs, deleted);
        Announce(burst);
      }
    }

    /** Alerts a burst case, unless it is only informational. */
    method Announce(burst: Case)
      modifies this`alerts
      ensures alerts == if burst.severity == Info then old(alerts)
                        else old(alerts) + [SyslogMachine.Alert.Alert(burst.id, burst.severity, Rollup)]
    {
      if burst.severity != Info {
        Alert(burst, Rollup);
      }
    }

    /** Alerts fewer than three cases one by one; merges more into one burst. */
    method FlushItems(items: seq<BufferedCase>, inserted: bool, deleted: nat -> bool, ghost stubs: seq<Stub>)
      requires FreshIds() && stubs == Stubs(items)
      modifies this`nextId, this`alerts, store`cases
      ensures nextId == if |stubs| < BURST_THRESHOLD then old(nextId) else old(nextId) + 1
      ensures store.cases == FlushedCases(old(store.cases), old(nextId), stubs, inserted, deleted)
      ensures alerts == old(alerts) + FlushAlerts(old(nextId), stubs, inserted)
    {
      if |items| < BURST_THRESHOLD {
        AlertAll(items, Individual, stubs);
      } else {
        RollUp(items, inserted, deleted, stubs);
      }
    }

    /** Drains the buffer and flushes what it held. */
    method FlushBurst(inserted: bool, deleted: nat -> bool)
      requires FreshIds()
      modifies this, store, buf
      ensures View() == FlushEffect(old(View()), inserted, deleted)
    {
      ghost var s := View();
      var items := buf.Drain();
      assert Stubs(items) == s.buffer;
      FlushItems(items, inserted, deleted, s.buffer);
      assert Stubs(buf.items) == [];
    }

    method Serve(call: Call)
      requires FreshIds()
      modifies this, store, buf
      ensures View() == CallEffect(old(View()), call)
    {
      match call {
        case Packet(line, f, retry) => Ingest(line, f, retry);
        case Tick(inserted, deleted) => FlushBurst(inserted, deleted);
      }
    }

    method ServeNext(call: Call, ghost before: seq<Call>, ghost s: State, ghost events: Events, ghost cases: Cases)
      returns (ghost done: seq<Call>, ghost s': State)
      requires s == After(Schedule(before)) && View() == With(s, events, cases) && OldTables(events, cases)
      modifies this, store, buf
      ensures done == before + [call] && s' == After(Schedule(done)) && View() == With(s', events, cases)
    {
      done := before + [call];
      s' := NextCall(before, call, s, events, cases);
      Serve(call);
    }

    method ServeAll(calls: seq<Call>, ghost events: Events, ghost cases: Cases)
      requires View() == With(INIT, events, cases) && OldTables(events, cases)
      modifies this, store, buf
      ensures View() == With(After(Schedule(calls)), events, cases)
    {
      ghost var done: seq<Call>, reached := [], INIT;
      for i := 0 to |calls|
        invariant done == calls[..i]
        invariant reached == After(Schedule(done)) && View() == With(reached, events, cases)
      {
        Seqs.TakeOneMore(calls, i);
        done, reached := ServeNext(calls[i], done, reached, events, cases);
      }
      assert done == calls;
    }

    /**
     Serves packets and ticks one at a time. The result is the state after their schedule, beside the
     rows that were there before.
     */
    method Listen(calls: seq<Call>)
      requires View() == With(INIT, store.events, store.cases)
      requires OldTables(store.events, store.cases)
      modifies this, store, buf
      ensures View() == With(After(Schedule(calls)), old(store.events), old(store.cases))
      ensures Inv(After(Schedule(calls)))
    {
      AlwaysInv(Schedule(calls));
      ServeAll(calls, store.events, store.cases);
    }
  }
}
