/** Grouping of windowed events by source address. */
module Clusters {
  import opened Seqs

  datatype Event = Event(id: string, timestamp: int, eventType: string, srcIP: string,
                         dstIP: string, dstPort: int, protocol: string)

  // ----- what a cluster is

  function HasKey<K(==)>(key: Event -> K, k: K): Event -> bool {
    (e: Event) => key(e) == k
  }

  const PORT: Event -> int := (e: Event) => e.dstPort
  const PROTOCOL: Event -> string := (e: Event) => e.protocol
  const SOURCE: Event -> string := (e: Event) => e.srcIP

  /** The events of one source, in their order. */
  function Mine(events: seq<Event>, ip: string): seq<Event> {
    Filter(events, HasKey(SOURCE, ip))
  }

  /** Go's `m[k]++`. */
  function Bump<K>(m: map<K, nat>, k: K): map<K, nat> {
    m[k := if k in m then m[k] + 1 else 1]
  }

  /** How often each key occurs. */
  function Tally<K>(keys: seq<K>): map<K, nat> {
    if keys == [] then map[] else Bump(Tally(keys[..|keys| - 1]), keys[|keys| - 1])
  }

  function Keys<K>(es: seq<Event>, key: Event -> K): seq<K> {
    seq(|es|, i requires 0 <= i < |es| => key(es[i]))
  }

  function First(es: seq<Event>): int
    requires es != []
  {
    var n := |es| - 1;
    if n == 0 then es[0].timestamp
    else
      var t := First(es[..n]);
      if es[n].timestamp < t then es[n].timestamp else t
  }

  function Last(es: seq<Event>): int
    requires es != []
  {
    var n := |es| - 1;
    if n == 0 then es[0].timestamp
    else
      var t := Last(es[..n]);
      if es[n].timestamp > t then es[n].timestamp else t
  }

  datatype Profile = Profile(srcIP: string, events: seq<Event>, ports: map<int, nat>, protocols: map<string, nat>,
                       firstSeen: int, lastSeen: int)

  /** The cluster of a non-empty list of events from one source. */
  function Summary(es: seq<Event>): Profile
    requires es != []
  {
    Profile(es[0].srcIP, es, Tally(Keys(es, PORT)), Tally(Keys(es, PROTOCOL)), First(es), Last(es))
  }

  /** One more event changes a summary in each field by that event alone. */
  lemma SummaryStep(es: seq<Event>, e: Event)
    ensures Tally(Keys(es + [e], PORT)) == Bump(Tally(Keys(es, PORT)), e.dstPort)
    ensures Tally(Keys(es + [e], PROTOCOL)) == Bump(Tally(Keys(es, PROTOCOL)), e.protocol)
    ensures First(es + [e]) == if es == [] || e.timestamp < First(es) then e.timestamp else First(es)
    ensures Last(es + [e]) == if es == [] || e.timestamp > Last(es) then e.timestamp else Last(es)
  {
    assert (es + [e])[..|es|] == es;
    assert Keys(es + [e], PORT)[..|es|] == Keys(es, PORT);
    assert Keys(es + [e], PROTOCOL)[..|es|] == Keys(es, PROTOCOL);
  }

  function NewProfile(e: Event): Profile {
    Profile(e.srcIP, [], map[], map[], e.timestamp, e.timestamp)
  }

  function AddTo(c: Profile, e: Event): Profile {
    Profile(c.srcIP, c.events + [e], Bump(c.ports, e.dstPort), Bump(c.protocols, e.protocol),
            if e.timestamp < c.firstSeen then e.timestamp else c.firstSeen,
            if e.timestamp > c.lastSeen then e.timestamp else c.lastSeen)
  }

  /** The clusters built up event by event. */
  function Groups(events: seq<Event>): map<string, Profile> {
    if events == [] then map[]
    else
      var g, e := Groups(events[..|events| - 1]), events[|events| - 1];
      g[e.srcIP := AddTo(if e.srcIP in g then g[e.srcIP] else NewProfile(e), e)]
  }

  lemma SummaryOfOne(e: Event)
    ensures Summary([e]) == AddTo(NewProfile(e), e)
  {
    SummaryStep([], e);
    assert [] + [e] == [e];
    assert Keys([], PORT) == [] && Keys([], PROTOCOL) == [];
  }

  lemma SummaryOfMore(es: seq<Event>, e: Event)
    requires es != [] && es[0].srcIP == e.srcIP
    ensures Summary(es + [e]) == AddTo(Summary(es), e)
  {
    SummaryStep(es, e);
  }

  lemma MineSource(events: seq<Event>, ip: string, e: Event)
    requires e in Mine(events, ip)
    ensures e.srcIP == ip && e in events
  {
    FilterIn(events, HasKey(SOURCE, ip), e);
  }

  /** They are the sources, each with the summary of exactly its own events. */
  lemma {:induction false} GroupsExact(events: seq<Event>, ip: string)
    ensures ip in Groups(events) <==> Mine(events, ip) != []
    ensures ip in Groups(events) ==> Groups(events)[ip] == Summary(Mine(events, ip))
  {
    if events != [] {
      var n := |events| - 1;
      var es, e := Mine(events[..n], ip), events[n];
      GroupsExact(events[..n], ip);
      if e.srcIP == ip {
        assert Mine(events, ip) == es + [e];
        if es == [] {
          SummaryOfOne(e);
          assert es + [e] == [e];
        } else {
          MineSource(events[..n], ip, es[0]);
          SummaryOfMore(es, e);
        }
      } else {
        assert Mine(events, ip) == es;
      }
    }
  }

  // ----- building clusters

  class IPCluster {
    const srcIP: string
    var events: seq<Event>
    var ports: map<int, nat>
    var protocols: map<string, nat>
    var firstSeen: int
    var lastSeen: int

    constructor (e: Event)
      ensures srcIP == e.srcIP && Current() == NewProfile(e)
    {
      srcIP, events, ports, protocols := e.srcIP, [], map[], map[];
      firstSeen, lastSeen := e.timestamp, e.timestamp;
    }

    function Current(): Profile
      reads this
    {
      Profile(srcIP, events, ports, protocols, firstSeen, lastSeen)
    }

    method Add(e: Event)
      modifies this
      ensures Current() == AddTo(old(Current()), e)
    {
      events := events + [e];
      ports := Bump(ports, e.dstPort);
      protocols := Bump(protocols, e.protocol);
      if e.timestamp < firstSeen {
        firstSeen := e.timestamp;
      }
      if e.timestamp > lastSeen {
        lastSeen := e.timestamp;
      }
    }
  }

  /** One cluster per source, each summarising exactly its source's events. */
  ghost predicate Clustered(out: map<string, IPCluster>, events: seq<Event>)
    reads out.Values
  {
    && (forall ip :: ip in out <==> Mine(events, ip) != [])
    && (forall ip <- out :: out[ip].srcIP == ip && out[ip].Current() == Summary(Mine(events, ip)))
  }

  ghost predicate Tracks(out: map<string, IPCluster>, groups: map<string, Profile>)
    reads out.Values
  {
    out.Keys == groups.Keys && forall ip <- out :: out[ip].srcIP == ip && out[ip].Current() == groups[ip]
  }

  /** Puts one event into its source's cluster. */
  method Assign(clusters: map<string, IPCluster>, e: Event, ghost groups: map<string, Profile>)
    returns (out: map<string, IPCluster>)
    requires Tracks(clusters, groups)
    modifies clusters.Values
    ensures Tracks(out, groups[e.srcIP := AddTo(if e.srcIP in groups then groups[e.srcIP] else NewProfile(e), e)])
    ensures forall ip <- out :: (ip in clusters && out[ip] == clusters[ip]) || fresh(out[ip])
  {
    out := clusters;
    var cl;
    if e.srcIP in out {
      cl := out[e.srcIP];
    } else {
      cl := new IPCluster(e);
      out := out[e.srcIP := cl];
    }
    cl.Add(e);
  }

  method Cluster(events: seq<Event>) returns (out: map<string, IPCluster>)
    ensures Clustered(out, events)
    ensures forall ip <- out :: fresh(out[ip])
  {
    out := map[];
    for i := 0 to |events|
      invariant Tracks(out, Groups(events[..i]))
      invariant forall ip <- out :: fresh(out[ip])
    {
      assert events[..i + 1][..i] == events[..i];
      out := Assign(out, events[i], Groups(events[..i]));
    }
    assert events[..|events|] == events;
    forall ip { GroupsExact(events, ip); }
  }
}
