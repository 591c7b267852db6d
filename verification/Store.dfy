/**
 The row-level contract of the event and case tables. Every statement either takes effect
 or, when the database reports an error (`ok` is false), changes nothing.
 */
module Store {
  import opened Ports

  /** Event and case identifiers. A listener draws 0, 1, ... ; ids stored before it started are negative. */
  type Id = int

  datatype Event = Event(srcIP: string, srcPort: int, dstIP: string, dstPort: int,
                         proto: string, eventType: string, rawRef: string)

  datatype Status = Open | Closed

  /** What title and analyst notes record: a DROP case, or a burst merged from so many cases. */
  datatype Origin = Drop | Burst(merged: nat)

  /** A row of the cases table. */
  datatype Row = Row(severity: Severity, status: Status, events: seq<Id>, origin: Origin)

  /** A case held in memory; the tables hold copies of it, never the object. */
  class Case {
    const id: Id
    var severity: Severity
    var status: Status
    var relatedEventIDs: seq<Id>
    var origin: Origin

    constructor (id: Id, severity: Severity, relatedEventIDs: seq<Id>, origin: Origin)
      ensures this.id == id
      ensures ToRow() == Row(severity, Open, relatedEventIDs, origin)
    {
      this.id, this.severity, this.status := id, severity, Open;
      this.relatedEventIDs, this.origin := relatedEventIDs, origin;
    }

    constructor FromRow(id: Id, row: Row)
      ensures this.id == id && ToRow() == row
    {
      this.id, this.severity, this.status := id, row.severity, row.status;
      this.relatedEventIDs, this.origin := row.events, row.origin;
    }

    function ToRow(): Row
      reads this
    {
      Row(severity, status, relatedEventIDs, origin)
    }
  }

  class DB {
    var events: map<Id, Event>
    var cases: map<Id, Row>

    constructor ()
      ensures events == map[] && cases == map[]
    {
      events, cases := map[], map[];
    }

    /** Inserts an event; does nothing when the id is already present. */
    method InsertEvent(id: Id, e: Event, ok: bool) returns (err: bool)
      modifies this`events
      ensures err == !ok
      ensures events == if ok && id !in old(events) then old(events)[id := e] else old(events)
    {
      if ok && id !in events {
        events := events[id := e];
      }
      err := !ok;
    }

    /** Inserts a case; does nothing when the id is already present. */
    method InsertCase(c: Case, ok: bool) returns (err: bool)
      modifies this`cases
      ensures err == !ok
      ensures cases == if ok && c.id !in old(cases) then old(cases)[c.id := c.ToRow()] else old(cases)
    {
      if ok && c.id !in cases {
        cases := cases[c.id := c.ToRow()];
      }
      err := !ok;
    }

    /** Reads a case into a new object; null when the row is absent or the read fails. */
    method GetCase(id: Id, ok: bool) returns (c: Case?)
      ensures c != null <==> ok && id in cases
      ensures c != null ==> fresh(c) && c.id == id && c.ToRow() == cases[id]
    {
      c := null;
      if ok && id in cases {
        c := new Case.FromRow(id, cases[id]);
      }
    }

    /** Overwrites a case's row; an absent row stays absent, and that is no error. */
    method UpdateCase(c: Case, ok: bool) returns (err: bool)
      modifies this`cases
      ensures err == !ok
      ensures cases == if ok && c.id in old(cases) then old(cases)[c.id := c.ToRow()] else old(cases)
    {
      if ok && c.id in cases {
        cases := cases[c.id := c.ToRow()];
      }
      err := !ok;
    }

    /** Removes a case's row and leaves every event in place. */
    method DeleteCase(id: Id, ok: bool)
      modifies this`cases
      ensures cases == if ok then old(cases) - {id} else old(cases)
    {
      if ok {
        cases := cases - {id};
      }
    }
  }
}
