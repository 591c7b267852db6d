/** One correlator run: window, cluster, score, judge, de-duplicate, open cases. */
module Correlator {
  import opened Text
  import opened Ports
  import opened Seqs
  import opened Clusters
  import opened Scoring
  import opened Rules

  datatype Config = Config(window: nat, threshold: int)

  /** What the de-duplication reads of a recent case. */
  datatype RecentCase = RecentCase(isOpen: bool, createdAt: int, srcIP: string, ruleType: RuleType)

  datatype NewCase = NewCase(srcIP: string, ruleType: RuleType, severity: Severity, confidence: real,
                             createdAt: int, eventIDs: seq<string>)

  const DEDUP_WINDOW: nat := 24 * 3600

  function Windowed(events: seq<Event>, since: int): seq<Event> {
    Filter(events, (e: Event) => e.timestamp > since)
  }

  /** The ports other than 0, which stands for events without one. */
  function RealPorts(ports: map<int, nat>): set<int> {
    set p <- ports | p != 0
  }

  function ScoreOf(cl: Profile): real {
    Score(|cl.events|, |RealPorts(cl.ports)|)
  }

  predicate IsDuplicate(cases: seq<RecentCase>, srcIP: string, ruleType: RuleType, cutoff: int) {
    exists c :: c in cases && c.isOpen && c.createdAt >= cutoff && c.srcIP == srcIP && c.ruleType == ruleType
  }

  function IdsOf(es: seq<Event>): seq<string> {
    if es == [] then [] else IdsOf(es[..|es| - 1]) + [es[|es| - 1].id]
  }

  function CaseFor(rules: seq<Rule>, cl: Profile): NewCase {
    NewCase(cl.srcIP, Verdict(rules, cl), SeverityOf(ScoreOf(cl)), ScoreOf(cl), cl.firstSeen, IdsOf(cl.events))
  }

  /** What one run works with; `failing` are the sources whose insert fails. */
  datatype Inputs = Inputs(cfg: Config, rules: seq<Rule>, windowed: seq<Event>, recent: seq<RecentCase>,
                           cutoff: int, failing: set<string>)

  /** The inputs of a run over the stored events at time `now`. */
  function InputsAt(events: seq<Event>, now: int, cfg: Config, rules: seq<Rule>, recent: seq<RecentCase>,
                    failing: set<string>): Inputs {
    Inputs(cfg, rules, Windowed(events, now - cfg.window), recent, now - DEDUP_WINDOW, failing)
  }

  /** A cluster gets a case: it reaches the threshold and is not suppressed, duplicated or refused. */
  predicate Qualifies(i: Inputs, cl: Profile) {
    && |cl.events| >= i.cfg.threshold
    && Verdict(i.rules, cl) != Suppressed
    && !IsDuplicate(i.recent, cl.srcIP, Verdict(i.rules, cl), i.cutoff)
    && cl.srcIP !in i.failing
  }

  predicate Opens(i: Inputs, ip: string) {
    Mine(i.windowed, ip) != [] && Qualifies(i, Summary(Mine(i.windowed, ip)))
  }

  ghost predicate IsCase(i: Inputs, c: NewCase) {
    Opens(i, c.srcIP) && c == CaseFor(i.rules, Summary(Mine(i.windowed, c.srcIP)))
  }

  ghost predicate HasCase(cases: seq<NewCase>, ip: string) {
    exists c :: c in cases && c.srcIP == ip
  }

  /** The cases of a whole run: one for each source that opens one, and no other. */
  ghost predicate RunOpens(i: Inputs, cases: seq<NewCase>) {
    && (forall j, k :: 0 <= j < k < |cases| ==> cases[j].srcIP != cases[k].srcIP)
    && (forall c <- cases :: IsCase(i, c))
    && (forall ip :: Opens(i, ip) ==> HasCase(cases, ip))
  }

  /** The cases of a run that has visited the sources `done`: one for each that opens one. */
  ghost predicate Opened(i: Inputs, done: set<string>, cases: seq<NewCase>) {
    && (forall j, k :: 0 <= j < k < |cases| ==> cases[j].srcIP != cases[k].srcIP)
    && (forall c <- cases :: c.srcIP in done && IsCase(i, c))
    && (forall ip <- done :: Opens(i, ip) ==> HasCase(cases, ip))
  }

  lemma OpenedStep(i: Inputs, done: set<string>, cases: seq<NewCase>, ip: string, cases': seq<NewCase>)
    requires Opened(i, done, cases) && ip !in done && Mine(i.windowed, ip) != []
    requires var cl := Summary(Mine(i.windowed, ip));
      cases' == if Qualifies(i, cl) then cases + [CaseFor(i.rules, cl)] else cases
    ensures Opened(i, done + {ip}, cases')
  {
    var es := Mine(i.windowed, ip);
    MineSource(i.windowed, ip, es[0]);
    forall ip' <- done + {ip} | Opens(i, ip') ensures HasCase(cases', ip') {
      if ip' == ip {
        assert cases'[|cases|].srcIP == ip;
      } else {
        assert HasCase(cases, ip');
      }
    }
  }

  lemma AllVisited(i: Inputs, done: set<string>, cases: seq<NewCase>)
    requires Opened(i, done, cases) && forall ip :: Mine(i.windowed, ip) != [] ==> ip in done
    ensures RunOpens(i, cases)
  {
  }

  lemma OneLess(all: set<string>, todo: set<string>, ip: string)
    requires ip in todo && todo <= all
    ensures all - (todo - {ip}) == all - todo + {ip}
  {
  }

  // ----- the run

  method FilterWindow(events: seq<Event>, since: int) returns (windowed: seq<Event>)
    ensures windowed == Windowed(events, since)
  {
    windowed := [];
    for i := 0 to |events|
      invariant windowed == Windowed(events[..i], since)
    {
      assert events[..i + 1][..i] == events[..i];
      if events[i].timestamp > since {
        windowed := windowed + [events[i]];
      }
    }
    assert events[..|events|] == events;
  }

  /** Counts the real ports, visiting the ports in some order. */
  method CountRealPorts(ports: map<int, nat>) returns (realPorts: nat)
    ensures realPorts == |RealPorts(ports)|
  {
    realPorts := 0;
    var todo := ports.Keys;
    while todo != {}
      invariant todo <= ports.Keys
      invariant realPorts == |RealPorts(ports) - todo|
    {
      var p :| p in todo;
      if p != 0 {
        assert RealPorts(ports) - (todo - {p}) == (RealPorts(ports) - todo) + {p};
        realPorts := realPorts + 1;
      } else {
        assert RealPorts(ports) - (todo - {p}) == RealPorts(ports) - todo;
      }
      todo := todo - {p};
    }
    assert RealPorts(ports) - {} == RealPorts(ports);
  }

  method ComputeScore(cl: Profile) returns (score: real)
    ensures score == ScoreOf(cl)
  {
    if |cl.events| == 0 {
      return 0.0;
    }
    var n := |cl.events|;
    var realPorts := CountRealPorts(cl.ports);
    if realPorts == 0 {
      var s := n as real / (n + 5) as real;
      if s > 0.80 {
        s := 0.80;
      }
      return s;
    }
    var raw := (n * realPorts) as real / (n + realPorts + 1) as real;
    if raw > 1.0 {
      raw := 1.0;
    }
    return raw;
  }

  method FindDuplicate(cases: seq<RecentCase>, srcIP: string, ruleType: RuleType, cutoff: int) returns (found: bool)
    ensures found == IsDuplicate(cases, srcIP, ruleType, cutoff)
  {
    for i := 0 to |cases|
      invariant !IsDuplicate(cases[..i], srcIP, ruleType, cutoff)
    {
      var c := cases[i];
      assert cases[..i + 1] == cases[..i] + [c];
      if !c.isOpen {
        continue;
      }
      if c.createdAt < cutoff {
        continue;
      }
      if c.srcIP == srcIP && c.ruleType == ruleType {
        return true;
      }
    }
    assert cases[..|cases|] == cases;
    return false;
  }

  /** The verdict of the first matching rule. */
  method Judge(rules: seq<Rule>, cl: Profile) returns (verdict: RuleType)
    ensures verdict == Verdict(rules, cl)
  {
    for i := 0 to |rules|
      invariant Verdict(rules, cl) == Verdict(rules[i..], cl)
    {
      var m := Eval(rules[i], cl);
      assert rules[i..][1..] == rules[i + 1..];
      if m.Some? {
        return m.value;
      }
    }
    return GenericScan;
  }

  method OpenCase(cl: Profile, verdict: RuleType, score: real) returns (c: NewCase)
    ensures c == NewCase(cl.srcIP, verdict, SeverityOf(score), score, cl.firstSeen, IdsOf(cl.events))
  {
    var eventIDs: seq<string> := [];
    for i := 0 to |cl.events|
      invariant eventIDs == IdsOf(cl.events[..i])
    {
      assert cl.events[..i + 1][..i] == cl.events[..i];
      eventIDs := eventIDs + [cl.events[i].id];
    }
    assert cl.events[..|cl.events|] == cl.events;
    c := NewCase(cl.srcIP, verdict, SeverityOf(score), score, cl.firstSeen, eventIDs);
  }

  method RunOne(i: Inputs, cl: Profile) returns (c: Option<NewCase>)
    ensures c == if Qualifies(i, cl) then Some(CaseFor(i.rules, cl)) else None
  {
    if |cl.events| < i.cfg.threshold {
      return None;
    }
    var score := ComputeScore(cl);
    var verdict := Judge(i.rules, cl);
    if verdict == Suppressed {
      return None;
    }
    var duplicate := FindDuplicate(i.recent, cl.srcIP, verdict, i.cutoff);
    if duplicate || cl.srcIP in i.failing {
      return None;
    }
    var cas := OpenCase(cl, verdict, score);
    return Some(cas);
  }

  /** Visits one more source's cluster. */
  method Visit(i: Inputs, cl: Profile, newCases: seq<NewCase>, ghost done: set<string>, ghost ip: string)
    returns (cases: seq<NewCase>)
    requires Opened(i, done, newCases) && ip !in done && Mine(i.windowed, ip) != [] && cl == Summary(Mine(i.windowed, ip))
    ensures Opened(i, done + {ip}, cases)
  {
    var result := RunOne(i, cl);
    cases := if result.Some? then newCases + [result.value] else newCases;
    OpenedStep(i, done, newCases, ip, cases);
  }

  /** Visits the clusters in some order. */
  method VisitClusters(i: Inputs, clusters: map<string, IPCluster>) returns (newCases: seq<NewCase>)
    requires Clustered(clusters, i.windowed)
    ensures Opened(i, clusters.Keys, newCases)
  {
    newCases := [];
    var todo := clusters.Keys;
    while todo != {}
      invariant todo <= clusters.Keys
      invariant Opened(i, clusters.Keys - todo, newCases)
    {
      var ip :| ip in todo;
      newCases := Visit(i, clusters[ip].Current(), newCases, clusters.Keys - todo, ip);
      OneLess(clusters.Keys, todo, ip);
      todo := todo - {ip};
    }
    assert clusters.Keys - {} == clusters.Keys;
  }

  /**
   A run opens one case for each source that reaches the threshold, is not suppressed, not a
   duplicate and not refused by the database, and none for any other.
   */
  method Run(events: seq<Event>, now: int, cfg: Config, rules: seq<Rule>, recent: seq<RecentCase>, failing: set<string>)
    returns (newCases: seq<NewCase>)
    ensures RunOpens(InputsAt(events, now, cfg, rules, recent, failing), newCases)
  {
    var windowed := FilterWindow(events, now - cfg.window);
    var clusters := Cluster(windowed);
    var i := Inputs(cfg, rules, windowed, recent, now - DEDUP_WINDOW, failing);
    newCases := VisitClusters(i, clusters);
    assert i == InputsAt(events, now, cfg, rules, recent, failing);
    AllVisited(i, clusters.Keys, newCases);
  }

  // ----- consequences

  lemma SubsetSize(a: set<int>, b: set<int>)
    requires a <= b
    ensures |a| <= |b|
  {
    assert b == a + (b - a);
  }

  /** Adding an event never lowers a cluster's score or severity. */
  lemma OneMoreEvent(es: seq<Event>, e: Event)
    requires es != []
    ensures var s, s' := ScoreOf(Summary(es)), ScoreOf(Summary(es + [e]));
      && 0.0 <= s <= s' <= 1.0
      && Rank(SeverityOf(s)) <= Rank(SeverityOf(s'))
  {
    var d, d' := RealPorts(Summary(es).ports), RealPorts(Summary(es + [e]).ports);
    SummaryStep(es, e);
    assert d <= d';
    SubsetSize(d, d');
    ScoreInRange(|es|, |d|);
    ScoreInRange(|es| + 1, |d'|);
    ScoreMonotone(|es|, |d|, |es| + 1, |d'|);
    SeverityMonotone(|es|, |d|, |es| + 1, |d'|);
  }

  /** Under the default rules an external source gets an inbound_scan or generic_scan case or none. */
  lemma ExternalCases(i: Inputs, lookup: Option<AsnLookup>, c: NewCase)
    requires i.rules == DefaultRules(lookup) && IsCase(i, c) && IsExternal(c.srcIP)
    ensures c.ruleType == if HasScanEvent(Mine(i.windowed, c.srcIP)) then InboundScan else GenericScan
  {
    var es := Mine(i.windowed, c.srcIP);
    MineSource(i.windowed, c.srcIP, es[0]);
    ExternalVerdict(lookup, Summary(es));
  }
}
