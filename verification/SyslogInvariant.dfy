/** What every state of every schedule satisfies, store failures included. */
module SyslogInvariant {
  import opened Text
  import opened Ports
  import opened Store
  import opened Seqs
  import opened SyslogMachine

  ghost predicate Owns(cases: map<Id, Row>, c: Id, e: Id) {
    c in cases && e in cases[c].events
  }

  ghost predicate Owned(cases: map<Id, Row>, e: Id) {
    exists c :: Owns(cases, c, e)
  }

  /** The stubs the flush goroutine holds. */
  function Held(f: FlushPc): seq<Stub> {
    match f
    case Asleep => []
    case Alerting(rest, _) => rest
    case Merging(batch) => batch
    case Deleting(rest, _, _) => rest
  }

  /** Those of them that no burst owns yet. */
  function Unmerged(f: FlushPc): seq<Stub> {
    if f.Deleting? then [] else Held(f)
  }

  ghost predicate Lists(stubs: seq<Stub>, id: Id) {
    exists b :: b in stubs && b.id == id
  }

  ghost predicate IsAlerted(alerts: seq<Alert>, id: Id) {
    exists a :: a in alerts && a.id == id
  }

  // ----- tables

  ghost predicate DropRowOk(row: Row) {
    && 1 <= |row.events| <= BURST_MAX_EVENTS
    && (row.status == Closed <==> |row.events| == BURST_MAX_EVENTS)
    && row.severity != Info
  }

  ghost predicate BurstRowOk(row: Row) {
    && row.origin.Burst?
    && |row.events| == row.origin.merged >= BURST_THRESHOLD
    && row.severity in {Medium, Info}
    && row.status == Status.Open
  }

  ghost predicate RowOk(events: map<Id, Event>, row: Row) {
    && NoDup(row.events)
    && (forall e <- row.events :: e in events)
    && if row.origin.Drop? then DropRowOk(row) else BurstRowOk(row)
  }

  ghost predicate TablesOk(events: map<Id, Event>, cases: map<Id, Row>, nextId: Id) {
    && (forall e <- events :: e < nextId)
    && (forall c <- cases :: c < nextId)
    && (forall c <- cases :: RowOk(events, cases[c]))
  }

  // ----- case index

  /** A row the index reaches holds 1 to 49 events, all with the index entry's key. */
  ghost predicate ReachedRowOk(events: map<Id, Event>, k: Key, row: Row) {
    && row.origin.Drop?
    && 1 <= |row.events| < BURST_MAX_EVENTS
    && forall e <- row.events :: e in events && EventKey(events[e]) == k
  }

  ghost predicate IndexOk(events: map<Id, Event>, cases: map<Id, Row>, index: map<Key, Id>, nextId: Id) {
    && (forall k <- index :: index[k] < nextId)
    && (forall k, k' :: k in index && k' in index && index[k] == index[k'] ==> k == k')
    && (forall k <- index :: index[k] in cases ==> ReachedRowOk(events, k, cases[index[k]]))
  }

  // ----- stubs

  /** A stub is a frozen low or medium case with one event; its row exists and is not alerted. */
  ghost predicate StubOk(cases: map<Id, Row>, alerts: seq<Alert>, b: Stub) {
    && b.severity in {Low, Medium}
    && ClassifySeverity(b.dstPort) == Some(b.severity)
    && |b.events| == 1
    && b.id in cases
    && cases[b.id].origin.Drop?
    && cases[b.id].severity == b.severity
    && cases[b.id].events != []
    && cases[b.id].events[0] == b.events[0]
    && !IsAlerted(alerts, b.id)
  }

  ghost predicate StubsOk(cases: map<Id, Row>, alerts: seq<Alert>, stubs: seq<Stub>) {
    && (forall b <- stubs :: StubOk(cases, alerts, b))
    && (forall i, j :: 0 <= i < j < |stubs| ==> stubs[i].id != stubs[j].id)
  }

  ghost predicate Disjoint(stubs: seq<Stub>, others: seq<Stub>) {
    forall b <- stubs, b' <- others :: b.id != b'.id
  }

  // ----- ownership

  /** Two rows share an event only when a burst holds a DROP case's first event. */
  ghost predicate MayShare(row: Row, row': Row, e: Id) {
    || (row.origin.Drop? && row'.origin.Burst? && row.events != [] && row.events[0] == e)
    || (row.origin.Burst? && row'.origin.Drop? && row'.events != [] && row'.events[0] == e)
  }

  ghost predicate SharingOk(cases: map<Id, Row>) {
    forall c, c', e :: Owns(cases, c, e) && Owns(cases, c', e) && c != c' ==> MayShare(cases[c], cases[c'], e)
  }

  /** Only a stub's own row owns the stub's event. */
  ghost predicate SoleOwners(cases: map<Id, Row>, stubs: seq<Stub>) {
    forall b <- stubs, c: Id :: b.events != [] && Owns(cases, c, b.events[0]) ==> c == b.id
  }

  // ----- program counters

  ghost predicate FlushOk(cases: map<Id, Row>, alerts: seq<Alert>, f: FlushPc) {
    match f
    case Asleep => true
    case Alerting(rest, reason) => rest != [] && reason in {Individual, Fallback}
    case Merging(batch) => |batch| >= BURST_THRESHOLD
    case Deleting(rest, burst, severity) =>
      && burst in cases
      && cases[burst].origin.Burst?
      && cases[burst].severity == severity
      && !IsAlerted(alerts, burst)
      && forall b <- rest :: b.events != [] && b.events[0] in cases[burst].events
  }

  /** The event of a line being ingested: stored under the line's key and owned by no case. */
  ghost predicate PendingEventOk(events: map<Id, Event>, cases: map<Id, Row>, line: Line, e: Id) {
    && e in events
    && EventKey(events[e]) == KeyOf(line)
    && !Owned(cases, e)
    && ClassifySeverity(line.dstPort).Some?
  }

  ghost predicate OpenedOk(events: map<Id, Event>, cases: map<Id, Row>, alerts: seq<Alert>, line: Line, e: Id, id: Id) {
    && ClassifySeverity(line.dstPort).Some?
    && e in events
    && id in cases
    && cases[id] == Row(ClassifySeverity(line.dstPort).value, Status.Open, [e], Drop)
    && (forall c :: Owns(cases, c, e) ==> c == id)
    && !IsAlerted(alerts, id)
  }

  ghost predicate FetchedOk(events: map<Id, Event>, cases: map<Id, Row>, index: map<Key, Id>,
                            line: Line, id: Id, row: Row) {
    && KeyOf(line) in index
    && index[KeyOf(line)] == id
    && ReachedRowOk(events, KeyOf(line), row)
    && RowOk(events, row)
    && (id in cases ==> cases[id] == row)
  }

  ghost predicate IngestOk(events: map<Id, Event>, cases: map<Id, Row>, index: map<Key, Id>, alerts: seq<Alert>,
                           buffer: seq<Stub>, held: seq<Stub>, pc: IngestPc) {
    match pc
    case Waiting => true
    case Stored(line, e, retried) => PendingEventOk(events, cases, line, e) && (retried ==> KeyOf(line) !in index)
    case Opened(line, e, id) =>
      OpenedOk(events, cases, alerts, line, e, id) && !Lists(buffer, id) && !Lists(held, id)
    case Fetched(line, e, id, row) =>
      PendingEventOk(events, cases, line, e) && FetchedOk(events, cases, index, line, id, row)
    case Retrying(line) => KeyOf(line) !in index && ClassifySeverity(line.dstPort).Some?
  }

  // ----- alerts

  ghost predicate AlertOk(cases: map<Id, Row>, a: Alert) {
    && a.id in cases
    && cases[a.id].severity == a.severity != Info
    && (a.reason == Immediate <==> a.severity == High)
    && (a.reason == Rollup <==> cases[a.id].origin.Burst?)
  }

  function OpenedId(pc: IngestPc): Option<Id> {
    if pc.Opened? then Some(pc.id) else None
  }

  function MergingId(pc: FlushPc): Option<Id> {
    if pc.Deleting? then Some(pc.burst) else None
  }

  /** Which rows have been alerted: every high one, and every burst that is not mere radiation. */
  ghost predicate RowAlertOk(row: Row, alerted: bool, opening: bool, merging: bool) {
    && (row.severity == High ==> alerted || opening)
    && (row.origin.Burst? ==> (alerted <==> row.severity == Medium && !merging))
  }

  ghost predicate AlertsOk(cases: map<Id, Row>, alerts: seq<Alert>, opening: Option<Id>, merging: Option<Id>) {
    && (forall a <- alerts :: AlertOk(cases, a))
    && (forall i, j :: 0 <= i < j < |alerts| ==> alerts[i].id != alerts[j].id)
    && (forall c <- cases :: RowAlertOk(cases[c], IsAlerted(alerts, c), opening == Some(c), merging == Some(c)))
  }

  ghost predicate Inv(s: State) {
    && TablesOk(s.events, s.cases, s.nextId)
    && IndexOk(s.events, s.cases, s.index, s.nextId)
    && StubsOk(s.cases, s.alerts, s.buffer)
    && StubsOk(s.cases, s.alerts, Held(s.flush))
    && Disjoint(s.buffer, Held(s.flush))
    && SharingOk(s.cases)
    && SoleOwners(s.cases, s.buffer)
    && SoleOwners(s.cases, Unmerged(s.flush))
    && FlushOk(s.cases, s.alerts, s.flush)
    && IngestOk(s.events, s.cases, s.index, s.alerts, s.buffer, Held(s.flush), s.ingest)
    && AlertsOk(s.cases, s.alerts, OpenedId(s.ingest), MergingId(s.flush))
  }
}
