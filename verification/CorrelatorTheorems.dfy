/** What one correlator run opens, in terms of the stored events, the clock and the recent cases alone. */
module CorrelatorTheorems {
  import opened Text
  import opened Ports
  import opened Seqs
  import opened Clusters
  import opened ClusterTheorems
  import opened Scoring
  import opened Rules
  import opened Correlator

  /** The events of a source that are younger than the window, in their order. */
  function Recent(events: seq<Event>, now: int, window: int, ip: string): seq<Event> {
    Filter(events, (e: Event) => e.timestamp > now - window && e.srcIP == ip)
  }

  lemma MineIsRecent(events: seq<Event>, now: int, window: int, ip: string)
    ensures Mine(Windowed(events, now - window), ip) == Recent(events, now, window, ip)
  {
    FilterFilter(events, (e: Event) => e.timestamp > now - window, HasKey(SOURCE, ip),
                 (e: Event) => e.timestamp > now - window && e.srcIP == ip);
  }

  /** An event counts for its source exactly when it is younger than the window, as often as it is stored. */
  lemma {:induction false} RecentExact(events: seq<Event>, now: int, window: int, ip: string, e: Event)
    ensures e in Recent(events, now, window, ip) <==> e in events && e.timestamp > now - window && e.srcIP == ip
    ensures multiset(Recent(events, now, window, ip))[e] ==
            if e.timestamp > now - window && e.srcIP == ip then multiset(events)[e] else 0
  {
    FilterIn(events, (e: Event) => e.timestamp > now - window && e.srcIP == ip, e);
    if events != [] {
      var n := |events| - 1;
      RecentExact(events[..n], now, window, ip, e);
      assert events == events[..n] + [events[n]];
    }
  }

  lemma {:induction false} IdsExact(es: seq<Event>)
    ensures |IdsOf(es)| == |es| && forall i :: 0 <= i < |es| ==> IdsOf(es)[i] == es[i].id
  {
    if es != [] {
      IdsExact(es[..|es| - 1]);
    }
  }

  /** The real ports of a list of events. */
  function PortsSeen(es: seq<Event>): set<int> {
    set e <- es | e.dstPort != 0 :: e.dstPort
  }

  lemma {:induction false} TallyKeys(es: seq<Event>, p: int)
    ensures p in Tally(Keys(es, PORT)) <==> exists e :: e in es && e.dstPort == p
  {
    if es != [] {
      var n := |es| - 1;
      TallyKeys(es[..n], p);
      SummaryStep(es[..n], es[n]);
      assert es == es[..n] + [es[n]];
    }
  }

  lemma RealPortsSeen(es: seq<Event>)
    requires es != []
    ensures RealPorts(Summary(es).ports) == PortsSeen(es)
  {
    forall p ensures p in RealPorts(Summary(es).ports) <==> p in PortsSeen(es) {
      TallyKeys(es, p);
    }
  }

  lemma CaseFields(i: Inputs, es: seq<Event>, c: NewCase)
    requires IsCase(i, c) && es == Mine(i.windowed, c.srcIP)
    ensures es != [] && |es| >= i.cfg.threshold && c.srcIP !in i.failing
    ensures c.eventIDs == IdsOf(es) && c.createdAt == First(es) && c.ruleType == Verdict(i.rules, Summary(es)) != Suppressed
    ensures c.confidence == Score(|es|, |PortsSeen(es)|) && c.severity == SeverityOf(c.confidence)
    ensures !IsDuplicate(i.recent, c.srcIP, c.ruleType, i.cutoff)
  {
    RealPortsSeen(es);
    MineSource(i.windowed, c.srcIP, es[0]);
  }

  /**
   Every case of a run: it is about a source with enough young events, lists exactly their ids, dates from
   the earliest of them, has the verdict of the first matching rule and the score of their numbers, and
   neither a suppressed verdict nor an open case of the last day stands against it.
   */
  lemma CaseExplained(events: seq<Event>, now: int, cfg: Config, rules: seq<Rule>, recent: seq<RecentCase>,
                      failing: set<string>, cases: seq<NewCase>, c: NewCase)
    requires RunOpens(InputsAt(events, now, cfg, rules, recent, failing), cases) && c in cases
    ensures var es := Recent(events, now, cfg.window, c.srcIP);
      && es != [] && |es| >= cfg.threshold && c.srcIP !in failing
      && |c.eventIDs| == |es| && (forall i :: 0 <= i < |es| ==> c.eventIDs[i] == es[i].id)
      && (exists e :: e in es && e.timestamp == c.createdAt) && (forall e <- es :: c.createdAt <= e.timestamp)
      && Decides(rules, Summary(es), c.ruleType) && c.ruleType != Suppressed
      && c.confidence == Score(|es|, |PortsSeen(es)|)
      && c.severity == (if c.confidence >= 0.75 then High else if c.confidence >= 0.45 then Medium else Low)
      && forall r <- recent :: !(r.isOpen && r.createdAt >= now - 86400 && r.srcIP == c.srcIP && r.ruleType == c.ruleType)
  {
    var i, es := InputsAt(events, now, cfg, rules, recent, failing), Recent(events, now, cfg.window, c.srcIP);
    MineIsRecent(events, now, cfg.window, c.srcIP);
    CaseFields(i, es, c);
    IdsExact(es);
    FirstLast(es);
    VerdictDecides(rules, Summary(es));
  }

  /** And every source that meets those conditions gets a case. */
  lemma SourceExplained(events: seq<Event>, now: int, cfg: Config, rules: seq<Rule>, recent: seq<RecentCase>,
                        failing: set<string>, cases: seq<NewCase>, ip: string, verdict: RuleType)
    requires RunOpens(InputsAt(events, now, cfg, rules, recent, failing), cases)
    requires Recent(events, now, cfg.window, ip) != [] && Decides(rules, Summary(Recent(events, now, cfg.window, ip)), verdict)
    ensures HasCase(cases, ip) <==>
            && |Recent(events, now, cfg.window, ip)| >= cfg.threshold
            && verdict != Suppressed
            && ip !in failing
            && forall r <- recent :: !(r.isOpen && r.createdAt >= now - 86400 && r.srcIP == ip && r.ruleType == verdict)
  {
    var i, es := InputsAt(events, now, cfg, rules, recent, failing), Recent(events, now, cfg.window, ip);
    MineIsRecent(events, now, cfg.window, ip);
    VerdictDecides(rules, Summary(es));
    DecidesOnce(rules, Summary(es), verdict, Verdict(rules, Summary(es)));
    MineSource(i.windowed, ip, es[0]);
    assert HasCase(cases, ip) <==> Opens(i, ip) by {
      if HasCase(cases, ip) {
        var c :| c in cases && c.srcIP == ip;
        assert IsCase(i, c);
      }
    }
  }

  lemma NotLocal(ip: string)
    requires ip != "" && ip[0] == '8'
    ensures IsExternal(ip)
  {
    forall p | p in LOCAL_PREFIXES ensures !HasPrefix(ip, p) {
      assert p[0] != '8';
    }
  }

  /** Three scan events of one address are a case while they are young and nothing afterwards. */
  lemma OnlyYoungEventsCount(e: Event, now: int, cases: seq<NewCase>)
    requires e.srcIP == "8.8.8.8" && e.eventType == "tcp_syn" && e.dstIP == "192.168.1.20" && e.dstPort == 22
    requires RunOpens(InputsAt([e, e, e], now, Config(100, 3), DefaultRules(None), [], {}), cases)
    ensures HasCase(cases, "8.8.8.8") <==> e.timestamp > now - 100
  {
    var i, events := InputsAt([e, e, e], now, Config(100, 3), DefaultRules(None), [], {}), [e, e, e];
    var es := Recent(events, now, 100, "8.8.8.8");
    MineIsRecent(events, now, 100, "8.8.8.8");
    RecentExact(events, now, 100, "8.8.8.8", e);
    if e.timestamp > now - 100 {
      FilterAll(events, (e: Event) => e.timestamp > now - 100 && e.srcIP == "8.8.8.8");
      assert es == events;
      NotLocal("8.8.8.8");
      ExternalVerdict(None, Summary(es));
      VerdictDecides(DefaultRules(None), Summary(es));
      var verdict := Verdict(DefaultRules(None), Summary(es));
      SourceExplained(events, now, Config(100, 3), DefaultRules(None), [], {}, cases, "8.8.8.8", verdict);
    } else if HasCase(cases, "8.8.8.8") {
      var c :| c in cases && c.srcIP == "8.8.8.8";
      CaseExplained(events, now, Config(100, 3), DefaultRules(None), [], {}, cases, c);
      RecentExact(events, now, 100, "8.8.8.8", es[0]);
    }
  }
}
