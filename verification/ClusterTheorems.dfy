/** Clustering is a partition, counts are exact, and event order does not matter. */
module ClusterTheorems {
  import opened Seqs
  import opened Clusters

  // ----- partition

  lemma {:induction false} FilterMultiplicity<T>(xs: seq<T>, p: T -> bool, x: T)
    ensures multiset(Filter(xs, p))[x] == if p(x) then multiset(xs)[x] else 0
  {
    if xs != [] {
      var n := |xs| - 1;
      FilterMultiplicity(xs[..n], p, x);
      assert xs == xs[..n] + [xs[n]];
    }
  }

  /** Every event is in its source's cluster as often as it occurs, and in no other cluster. */
  lemma ClusterPartition(events: seq<Event>, e: Event, ip: string)
    ensures multiset(Mine(events, ip))[e] == if e.srcIP == ip then multiset(events)[e] else 0
  {
    FilterMultiplicity(events, HasKey(SOURCE, ip), e);
  }

  // ----- counts

  /** Each count is the number of events with that key. */
  lemma {:induction false} TallyExact<K>(es: seq<Event>, key: Event -> K, k: K)
    ensures var m, n := Tally(Keys(es, key)), |Filter(es, HasKey(key, k))|;
      && (k in m <==> n > 0)
      && (k in m ==> m[k] == n)
  {
    if es != [] {
      var n := |es| - 1;
      TallyExact(es[..n], key, k);
      assert Keys(es, key)[..n] == Keys(es[..n], key);
    }
  }

  ghost function Total<K>(m: map<K, nat>): nat {
    if m == map[] then 0
    else
      var k :| k in m;
      m[k] + Total(m - {k})
  }

  lemma {:induction false} TotalWithout<K>(m: map<K, nat>, k: K)
    requires k in m
    ensures Total(m) == m[k] + Total(m - {k})
    decreases |m|
  {
    var k' :| k' in m && Total(m) == m[k'] + Total(m - {k'});
    if k' != k {
      TotalWithout(m - {k'}, k);
      TotalWithout(m - {k}, k');
      assert m - {k} - {k'} == m - {k'} - {k};
    }
  }

  /** The counts add up to the number of keys counted. */
  lemma {:induction false} TallyTotal<K>(keys: seq<K>)
    ensures Total(Tally(keys)) == |keys|
  {
    if keys != [] {
      var n := |keys| - 1;
      var m, k := Tally(keys[..n]), keys[n];
      TallyTotal(keys[..n]);
      TotalWithout(Bump(m, k), k);
      assert Bump(m, k) - {k} == m - {k};
      if k in m {
        TotalWithout(m, k);
      } else {
        assert m - {k} == m;
      }
    }
  }

  /** Port and protocol counts of a cluster each add up to its number of events. */
  lemma CountsAddUp(es: seq<Event>)
    requires es != []
    ensures Total(Summary(es).ports) == Total(Summary(es).protocols) == |es|
  {
    TallyTotal(Keys(es, PORT));
    TallyTotal(Keys(es, PROTOCOL));
  }

  /** The sizes of all clusters add up to the number of events. */
  lemma SizesAddUp(events: seq<Event>)
    ensures var sizes := Tally(Keys(events, SOURCE));
      && (forall ip :: ip in sizes <==> Mine(events, ip) != [])
      && (forall ip <- sizes :: sizes[ip] == |Mine(events, ip)|)
      && Total(sizes) == |events|
  {
    TallyTotal(Keys(events, SOURCE));
    forall ip ensures var sizes := Tally(Keys(events, SOURCE));
      (ip in sizes <==> Mine(events, ip) != []) && (ip in sizes ==> sizes[ip] == |Mine(events, ip)|)
    {
      TallyExact(events, SOURCE, ip);
    }
  }

  // ----- order of events

  lemma {:induction false} FirstLast(es: seq<Event>)
    requires es != []
    ensures (exists e :: e in es && e.timestamp == First(es)) && forall e <- es :: First(es) <= e.timestamp
    ensures (exists e :: e in es && e.timestamp == Last(es)) && forall e <- es :: e.timestamp <= Last(es)
  {
    var n := |es| - 1;
    if n > 0 {
      FirstLast(es[..n]);
      assert es == es[..n] + [es[n]];
    } else {
      assert es[0] in es;
    }
  }

  /** A cluster's summary, field by field. */
  lemma SummaryExact(es: seq<Event>, port: int, protocol: string)
    requires es != []
    ensures var cl := Summary(es);
      var atPort, byProtocol := |Filter(es, (e: Event) => e.dstPort == port)|, |Filter(es, (e: Event) => e.protocol == protocol)|;
      && cl.srcIP == es[0].srcIP && cl.events == es
      && (port in cl.ports <==> atPort > 0) && (port in cl.ports ==> cl.ports[port] == atPort)
      && (protocol in cl.protocols <==> byProtocol > 0) && (protocol in cl.protocols ==> cl.protocols[protocol] == byProtocol)
      && (exists e :: e in es && e.timestamp == cl.firstSeen) && (exists e :: e in es && e.timestamp == cl.lastSeen)
      && (forall e <- es :: cl.firstSeen <= e.timestamp <= cl.lastSeen)
  {
    TallyExact(es, PORT, port);
    TallyExact(es, PROTOCOL, protocol);
    FilterSame(es, HasKey(PORT, port), (e: Event) => e.dstPort == port);
    FilterSame(es, HasKey(PROTOCOL, protocol), (e: Event) => e.protocol == protocol);
    FirstLast(es);
  }

  lemma FilterHead(x: Event, xs: seq<Event>, p: Event -> bool)
    ensures |Filter([x] + xs, p)| == (if p(x) then 1 else 0) + |Filter(xs, p)|
  {
    FilterAppend([x], xs, p);
    assert [x][..0] == [];
  }

  lemma {:induction false} FilterLength(es: seq<Event>, es': seq<Event>, p: Event -> bool)
    requires multiset(es) == multiset(es')
    ensures |Filter(es, p)| == |Filter(es', p)|
    decreases |es|
  {
    if es == [] {
      assert |es'| == |multiset(es')| == 0;
    } else {
      var x, rest := es[0], es[1..];
      assert es == [x] + rest;
      var a, b := TakeOut(es', x, rest);
      FilterLength(rest, a + b, p);
      FilterHead(x, rest, p);
      FilterHead(x, b, p);
      FilterAppend(a, [x] + b, p);
      FilterAppend(a, b, p);
    }
  }

  lemma SameTally<K(!new)>(es: seq<Event>, es': seq<Event>, key: Event -> K)
    requires multiset(es) == multiset(es')
    ensures Tally(Keys(es, key)) == Tally(Keys(es', key))
  {
    var m, m' := Tally(Keys(es, key)), Tally(Keys(es', key));
    forall k: K ensures (k in m.Keys <==> k in m'.Keys) && (k in m ==> m[k] == m'[k]) {
      TallyExact(es, key, k);
      TallyExact(es', key, k);
      FilterLength(es, es', HasKey(key, k));
    }
    assert m.Keys == m'.Keys;
    assert m == m';
  }

  lemma SameTimes(es: seq<Event>, es': seq<Event>)
    requires es != [] && es' != [] && multiset(es) == multiset(es')
    ensures First(es) == First(es') && Last(es) == Last(es')
  {
    FirstLast(es);
    FirstLast(es');
    assert forall e :: e in es <==> e in multiset(es);
    assert forall e :: e in es' <==> e in multiset(es');
  }

  /** Permuting the events permutes each cluster and changes no count and no time. */
  lemma ClusterOrderIndependent(events: seq<Event>, events': seq<Event>, ip: string)
    requires multiset(events) == multiset(events') && Mine(events, ip) != []
    ensures var es, es' := Mine(events, ip), Mine(events', ip);
      && multiset(es) == multiset(es')
      && es' != []
      && Summary(es') == Summary(es).(events := es')
  {
    var es, es' := Mine(events, ip), Mine(events', ip);
    forall e ensures multiset(es)[e] == multiset(es')[e] {
      ClusterPartition(events, e, ip);
      ClusterPartition(events', e, ip);
    }
    assert multiset(es) == multiset(es');
    assert es[0] in multiset(es');
    SameTally(es, es', PORT);
    SameTally(es, es', PROTOCOL);
    SameTimes(es, es');
    MineSource(events, ip, es[0]);
    MineSource(events', ip, es'[0]);
  }
}
