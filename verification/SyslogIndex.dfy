/** Which entries the case index has, whatever fails: exactly which are stale, and which open cases it misses. */
module SyslogIndex {
  import opened Store
  import opened SyslogMachine
  import opened SyslogInvariant
  import opened SyslogPreservation
  import opened SyslogConservation

  // ----- stale entries

  /** The case ids that a step leaves without a row: a case that could not be inserted, or a deleted stub. */
  function GoneAt(s: State, step: Step): set<Id> {
    if step == Step.Open(false) && s.ingest.Stored? && KeyOf(s.ingest.line) !in s.index then {s.nextId}
    else if step == Delete(true) && s.flush.Deleting? && s.flush.rest != [] then {s.flush.rest[0].id}
    else {}
  }

  function Gone(steps: seq<Step>): set<Id> {
    if steps == [] then {} else Gone(Before(steps)) + GoneAt(After(Before(steps)), Last(steps))
  }

  ghost predicate GoneOk(s: State, gone: set<Id>) {
    && (forall id <- gone :: id < s.nextId && id !in s.cases)
    && (forall k <- s.index :: s.index[k] !in s.cases ==> s.index[k] in gone)
  }

  lemma OpenGone(s: State, ok: bool, gone: set<Id>)
    requires Inv(s) && GoneOk(s, gone) && s.ingest.Stored? && KeyOf(s.ingest.line) !in s.index
    ensures GoneOk(OpenCase(s, ok), gone + GoneAt(s, Step.Open(ok)))
  {
  }

  lemma DeleteGone(s: State, ok: bool, gone: set<Id>)
    requires Inv(s) && GoneOk(s, gone) && s.flush.Deleting? && s.flush.rest != []
    ensures GoneOk(DeleteStub(s, ok), gone + GoneAt(s, Delete(ok)))
  {
    assert StubOk(s.cases, s.alerts, s.flush.rest[0]);
  }

  lemma UpdateGone(s: State, ok: bool, gone: set<Id>)
    requires Inv(s) && GoneOk(s, gone) && s.ingest.Fetched?
    ensures GoneOk(UpdateRow(s, ok), gone)
  {
  }

  lemma OtherGone(s: State, step: Step, gone: set<Id>)
    requires Inv(s) && GoneOk(s, gone) && !step.Open? && !step.Delete? && !step.Update?
    ensures GoneOk(Next(s, step), gone)
  {
  }

  lemma NextGone(s: State, step: Step, gone: set<Id>)
    requires Inv(s) && GoneOk(s, gone)
    ensures GoneOk(Next(s, step), gone + GoneAt(s, step))
  {
    if step.Open? && s.ingest.Stored? && KeyOf(s.ingest.line) !in s.index {
      OpenGone(s, step.ok, gone);
    } else if step.Delete? && s.flush.Deleting? && s.flush.rest != [] {
      DeleteGone(s, step.ok, gone);
    } else {
      assert gone + GoneAt(s, step) == gone;
      if step.Update? && s.ingest.Fetched? {
        UpdateGone(s, step.ok, gone);
      } else if !step.Open? && !step.Delete? && !step.Update? {
        OtherGone(s, step, gone);
      }
    }
  }

  lemma {:induction false} AlwaysGone(steps: seq<Step>)
    ensures GoneOk(After(steps), Gone(steps))
  {
    if steps != [] {
      AlwaysInv(Before(steps));
      AlwaysGone(Before(steps));
      NextGone(After(Before(steps)), Last(steps), Gone(Before(steps)));
    }
  }

  lemma StaleInGone(s: State, gone: set<Id>, k: Key)
    requires GoneOk(s, gone) && k in s.index
    ensures s.index[k] !in s.cases <==> s.index[k] in gone
  {
    var id := s.index[k];
    assert id in gone ==> id !in s.cases;
    assert id !in s.cases ==> id in gone;
  }

  /** An index entry is stale if and only if its case could not be inserted or was deleted by a flush. */
  lemma StaleExact(steps: seq<Step>, k: Key)
    requires k in After(steps).index
    ensures var s := After(steps); s.index[k] !in s.cases <==> s.index[k] in Gone(steps)
  {
    AlwaysGone(steps);
    StaleInGone(After(steps), Gone(steps), k);
  }

  // ----- open cases without an entry

  ghost predicate OpenDrop(s: State, c: Id) {
    c in s.cases && s.cases[c].origin.Drop? && s.cases[c].status == Status.Open
  }

  /** The case that a step drops from the index because reading it failed. */
  function UnreadAt(s: State, step: Step): set<Id> {
    if step == Fetch(false) && s.ingest.Stored? && KeyOf(s.ingest.line) in s.index
    then {s.index[KeyOf(s.ingest.line)]} else {}
  }

  function Unread(steps: seq<Step>): set<Id> {
    if steps == [] then {} else Unread(Before(steps)) + UnreadAt(After(Before(steps)), Last(steps))
  }

  ghost predicate UnreadOk(s: State, unread: set<Id>) {
    && (forall c <- unread :: c < s.nextId && c !in s.index.Values)
    && (forall c :: OpenDrop(s, c) ==> c in s.index.Values || c in unread)
  }

  lemma OpenUnread(s: State, ok: bool, unread: set<Id>)
    requires Inv(s) && UnreadOk(s, unread) && s.ingest.Stored? && KeyOf(s.ingest.line) !in s.index
    ensures UnreadOk(OpenCase(s, ok), unread)
  {
    var s', key := OpenCase(s, ok), KeyOf(s.ingest.line);
    assert s'.index[key] == s.nextId;
    forall c | OpenDrop(s', c) ensures c in s'.index.Values || c in unread {
      if c != s.nextId {
        assert OpenDrop(s, c);
        if k :| k in s.index && s.index[k] == c {
          assert s'.index[k] == c;
        }
      }
    }
  }

  /** An entry that goes takes only its own case out of the index. */
  lemma WithoutEntry(s: State, key: Key, c: Id)
    requires Inv(s) && key in s.index && c in s.index.Values
    ensures c in (s.index - {key}).Values <==> c != s.index[key]
  {
    var k :| k in s.index && s.index[k] == c;
    if k != key {
      assert k in s.index - {key} && (s.index - {key})[k] == c;
    }
  }

  lemma FetchUnread(s: State, ok: bool, unread: set<Id>)
    requires Inv(s) && UnreadOk(s, unread) && s.ingest.Stored? && KeyOf(s.ingest.line) in s.index
    ensures UnreadOk(FetchCase(s, ok), unread + UnreadAt(s, Fetch(ok)))
  {
    var s', key := FetchCase(s, ok), KeyOf(s.ingest.line);
    forall c | c in s.index.Values ensures c in (s.index - {key}).Values <==> c != s.index[key] {
      WithoutEntry(s, key, c);
    }
    forall c | OpenDrop(s', c) ensures c in s'.index.Values || c in unread + UnreadAt(s, Fetch(ok)) {
      assert OpenDrop(s, c);
    }
  }

  lemma UpdateUnread(s: State, ok: bool, unread: set<Id>)
    requires Inv(s) && UnreadOk(s, unread) && s.ingest.Fetched?
    ensures UnreadOk(UpdateRow(s, ok), unread)
  {
    var s', key := UpdateRow(s, ok), KeyOf(s.ingest.line);
    assert s.index[key] == s.ingest.id;
    forall c | c in s.index.Values ensures c in (s.index - {key}).Values <==> c != s.index[key] {
      WithoutEntry(s, key, c);
    }
    forall c | OpenDrop(s', c) ensures c in s'.index.Values || c in unread {
      if c in s.cases {
        assert RowOk(s.events, s.cases[c]);
        assert OpenDrop(s, c);
      }
    }
  }

  lemma OtherUnread(s: State, step: Step, unread: set<Id>)
    requires UnreadOk(s, unread) && !step.Open? && !step.Fetch? && !step.Update?
    ensures UnreadOk(Next(s, step), unread)
  {
    var s' := Next(s, step);
    assert s'.index == s.index && s.nextId <= s'.nextId;
    forall c | OpenDrop(s', c) ensures c in s'.index.Values || c in unread {
      assert OpenDrop(s, c);
    }
  }

  lemma NextUnread(s: State, step: Step, unread: set<Id>)
    requires Inv(s) && UnreadOk(s, unread)
    ensures UnreadOk(Next(s, step), unread + UnreadAt(s, step))
  {
    if step.Fetch? && s.ingest.Stored? && KeyOf(s.ingest.line) in s.index {
      FetchUnread(s, step.ok, unread);
    } else {
      assert unread + UnreadAt(s, step) == unread;
      if step.Open? && s.ingest.Stored? && KeyOf(s.ingest.line) !in s.index {
        OpenUnread(s, step.ok, unread);
      } else if step.Update? && s.ingest.Fetched? {
        UpdateUnread(s, step.ok, unread);
      } else if !step.Open? && !step.Fetch? && !step.Update? {
        OtherUnread(s, step, unread);
      }
    }
  }

  lemma {:induction false} AlwaysUnread(steps: seq<Step>)
    ensures UnreadOk(After(steps), Unread(steps))
  {
    if steps != [] {
      AlwaysInv(Before(steps));
      AlwaysUnread(Before(steps));
      NextUnread(After(Before(steps)), Last(steps), Unread(Before(steps)));
    }
  }

  /** An open DROP case is in the index if and only if no read of it ever failed. */
  lemma IndexedExact(steps: seq<Step>, c: Id)
    requires OpenDrop(After(steps), c)
    ensures c in After(steps).index.Values <==> c !in Unread(steps)
  {
    AlwaysUnread(steps);
  }

  lemma SameEntry(s: State, c: Id, c': Id, e: Id, e': Id)
    requires Inv(s) && c in s.index.Values && c' in s.index.Values
    requires Owns(s.cases, c, e) && Owns(s.cases, c', e')
    requires e in s.events && e' in s.events && EventKey(s.events[e]) == EventKey(s.events[e'])
    ensures c == c'
  {
    var k :| k in s.index && s.index[k] == c;
    var k' :| k' in s.index && s.index[k'] == c';
    assert ReachedRowOk(s.events, k, s.cases[c]) && ReachedRowOk(s.events, k', s.cases[c']);
  }

  /** Two open DROP cases with events of one key differ only after a failed read of one of them. */
  lemma OneOpenCase(steps: seq<Step>, c: Id, c': Id, e: Id, e': Id)
    requires OpenDrop(After(steps), c) && OpenDrop(After(steps), c')
    requires c !in Unread(steps) && c' !in Unread(steps)
    requires Owns(After(steps).cases, c, e) && Owns(After(steps).cases, c', e')
    requires e in After(steps).events && e' in After(steps).events
    requires EventKey(After(steps).events[e]) == EventKey(After(steps).events[e'])
    ensures c == c'
  {
    AlwaysInv(steps);
    IndexedExact(steps, c);
    IndexedExact(steps, c');
    SameEntry(After(steps), c, c', e, e');
  }
}
