/**
 The review filters. What the handler looks up about a case (its latest event, recency, whether all
 its events are at the WAN edge, its de-duplication key) is a parameter.
 */
module Review {
  import opened Text
  import opened Seqs
  import opened Flags

  datatype Case = Case(id: string, severity: string)

  datatype Lookups = Lookups(latestEvent: Case -> Option<int>, recency: Case -> int,
                             isWANOnly: Case -> bool, dedupeKey: Case -> string)

  const DEFAULT_LIMIT := 50

  // ----- de-duplication

  /** Case `i` beats the first `n` cases of its key: more recent, or as recent and not later in order. */
  ghost predicate Wins(cases: seq<Case>, look: Lookups, n: nat, i: nat)
    requires n <= |cases| && i < |cases|
  {
    forall j :: 0 <= j < n && look.dedupeKey(cases[j]) == look.dedupeKey(cases[i]) ==>
      var t, t' := look.recency(cases[i]), look.recency(cases[j]);
      t' < t || (t' == t && i <= j)
  }

  /** The winners' positions among the first `n` cases, in order. */
  ghost function Winners(cases: seq<Case>, look: Lookups, n: nat): seq<nat>
    requires n <= |cases|
  {
    if n == 0 then [] else Winners(cases, look, n - 1) + if Wins(cases, look, |cases|, n - 1) then [n - 1] else []
  }

  lemma {:induction false} WinnersExact(cases: seq<Case>, look: Lookups, n: nat)
    requires n <= |cases|
    ensures var w := Winners(cases, look, n);
      && (forall i :: i in w <==> 0 <= i < n && Wins(cases, look, |cases|, i))
      && (forall k :: 0 <= k < |w| ==> w[k] < n)
      && (forall k, l :: 0 <= k < l < |w| ==> w[k] < w[l])
  {
    if n > 0 {
      WinnersExact(cases, look, n - 1);
    }
  }

  /** The surviving cases. */
  ghost function Deduped(cases: seq<Case>, look: Lookups): (out: seq<Case>)
    ensures |out| == |Winners(cases, look, |cases|)|
  {
    WinnersExact(cases, look, |cases|);
    var w := Winners(cases, look, |cases|);
    seq(|w|, k requires 0 <= k < |w| => cases[w[k]])
  }

  datatype Rec = Rec(idx: nat, t: int)

  /** `best` holds, for every key among the first `n` cases, the position and time of its winner. */
  ghost predicate BestOf(cases: seq<Case>, look: Lookups, n: nat, best: map<string, Rec>)
    requires n <= |cases|
  {
    && (forall j :: 0 <= j < n ==> look.dedupeKey(cases[j]) in best)
    && (forall k <- best ::
          && best[k].idx < n
          && look.dedupeKey(cases[best[k].idx]) == k
          && best[k].t == look.recency(cases[best[k].idx])
          && Wins(cases, look, n, best[k].idx))
  }

  /** Whether case `i` takes over as the best of its key. */
  predicate TakesOver(cases: seq<Case>, look: Lookups, i: nat, best: map<string, Rec>)
    requires i < |cases|
  {
    var k := look.dedupeKey(cases[i]);
    k !in best || look.recency(cases[i]) > best[k].t
  }

  /** A winner meets one more case, and stays one unless that is more recent. */
  lemma StillWins(cases: seq<Case>, look: Lookups, n: nat, i: nat)
    requires i < n < |cases| && Wins(cases, look, n, i)
    requires look.dedupeKey(cases[n]) == look.dedupeKey(cases[i]) ==> look.recency(cases[n]) <= look.recency(cases[i])
    ensures Wins(cases, look, n + 1, i)
  {
  }

  lemma NewWinner(cases: seq<Case>, look: Lookups, n: nat, best: map<string, Rec>)
    requires n < |cases| && BestOf(cases, look, n, best) && TakesOver(cases, look, n, best)
    ensures Wins(cases, look, n + 1, n)
  {
    var k := look.dedupeKey(cases[n]);
    if k in best {
      assert Wins(cases, look, n, best[k].idx);
    }
  }

  lemma OneMoreCase(cases: seq<Case>, look: Lookups, n: nat, best: map<string, Rec>)
    requires n < |cases| && BestOf(cases, look, n, best)
    ensures var k, t := look.dedupeKey(cases[n]), look.recency(cases[n]);
      BestOf(cases, look, n + 1, if TakesOver(cases, look, n, best) then best[k := Rec(n, t)] else best)
  {
    var key := look.dedupeKey(cases[n]);
    var over := TakesOver(cases, look, n, best);
    forall k <- best | k != key || !over ensures Wins(cases, look, n + 1, best[k].idx) {
      StillWins(cases, look, n, best[k].idx);
    }
    if over {
      NewWinner(cases, look, n, best);
    }
  }

  method FindBest(cases: seq<Case>, look: Lookups) returns (best: map<string, Rec>)
    ensures BestOf(cases, look, |cases|, best)
  {
    best := map[];
    for i := 0 to |cases|
      invariant BestOf(cases, look, i, best)
    {
      OneMoreCase(cases, look, i, best);
      var k, t := look.dedupeKey(cases[i]), look.recency(cases[i]);
      if k !in best || t > best[k].t {
        best := best[k := Rec(i, t)];
      }
    }
  }

  /** The best records point at exactly the winners. */
  lemma BestAreWinners(cases: seq<Case>, look: Lookups, best: map<string, Rec>, i: nat)
    requires BestOf(cases, look, |cases|, best) && i < |cases|
    ensures Wins(cases, look, |cases|, i) <==> exists k :: k in best && best[k].idx == i
  {
    var k := look.dedupeKey(cases[i]);
    if Wins(cases, look, |cases|, i) {
      assert k in best && best[k].idx == i;
    }
  }

  /** Collects the best positions, visiting the keys in some order. */
  method WinnerSet(best: map<string, Rec>) returns (winners: set<nat>)
    ensures winners == set k <- best :: best[k].idx
  {
    winners := {};
    var todo := best.Keys;
    while todo != {}
      invariant todo <= best.Keys
      invariant winners == set k | k in best.Keys - todo :: best[k].idx
    {
      var k :| k in todo;
      winners := winners + {best[k].idx};
      todo := todo - {k};
    }
  }

  /** The cases at the winners' positions among the first `n`. */
  ghost function Selected(cases: seq<Case>, look: Lookups, n: nat): seq<Case>
    requires n <= |cases|
  {
    if n == 0 then []
    else Selected(cases, look, n - 1) + if Wins(cases, look, |cases|, n - 1) then [cases[n - 1]] else []
  }

  lemma {:induction false} SelectedExact(cases: seq<Case>, look: Lookups, n: nat)
    requires n <= |cases|
    ensures var w, out := Winners(cases, look, n), Selected(cases, look, n);
      |out| == |w| && forall k :: 0 <= k < |w| ==> w[k] < |cases| && out[k] == cases[w[k]]
  {
    WinnersExact(cases, look, n);
    if n > 0 {
      SelectedExact(cases, look, n - 1);
    }
  }

  method DedupeCases(cases: seq<Case>, look: Lookups) returns (out: seq<Case>)
    ensures out == Deduped(cases, look)
  {
    var best := FindBest(cases, look);
    var winners := WinnerSet(best);
    out := [];
    for i := 0 to |cases|
      invariant out == Selected(cases, look, i)
    {
      BestAreWinners(cases, look, best, i);
      if i in winners {
        out := out + [cases[i]];
      }
    }
    SelectedExact(cases, look, |cases|);
  }

  // ----- the pipeline

  /** The conjunction of the filters that are on. */
  predicate Passes(o: Opts, look: Lookups, now: int, c: Case) {
    && (o.severitySet ==> ToLower(c.severity) in o.severities)
    && (o.sinceSet ==> look.latestEvent(c).None? || look.latestEvent(c).value >= now - o.since)
    && (o.excludeWANOnly ==> !look.isWANOnly(c))
  }

  function EffectiveLimit(o: Opts): int {
    if o.limitSet then o.limit else DEFAULT_LIMIT
  }

  ghost function Pipeline(cases: seq<Case>, o: Opts, look: Lookups, now: int): seq<Case> {
    var kept := Filter(cases, c => Passes(o, look, now, c));
    Cut(if o.dedupe then Deduped(kept, look) else kept, EffectiveLimit(o))
  }

  method Keep(cases: seq<Case>, p: Case -> bool) returns (kept: seq<Case>)
    ensures kept == Filter(cases, p)
  {
    kept := [];
    for i := 0 to |cases|
      invariant kept == Filter(cases[..i], p)
    {
      assert cases[..i + 1][..i] == cases[..i];
      if p(cases[i]) {
        kept := kept + [cases[i]];
      }
    }
    assert cases[..|cases|] == cases;
  }

  /** Filtering step by step is filtering once by the conjunction. */
  lemma FilterReviewChain(cases: seq<Case>, o: Opts, look: Lookups, now: int,
                          p: Case -> bool, q: Case -> bool, r: Case -> bool, out: seq<Case>)
    requires forall c :: p(c) <==> ToLower(c.severity) in o.severities
    requires forall c :: q(c) <==> look.latestEvent(c).None? || look.latestEvent(c).value >= now - o.since
    requires forall c :: r(c) <==> !look.isWANOnly(c)
    requires var s := if o.severitySet then Filter(cases, p) else cases;
      var t := if o.sinceSet then Filter(s, q) else s;
      out == if o.excludeWANOnly then Filter(t, r) else t
    ensures out == Filter(cases, c => Passes(o, look, now, c))
  {
    var s := if o.severitySet then Filter(cases, p) else cases;
    var t := if o.sinceSet then Filter(s, q) else s;
    var p1 := (c: Case) => o.severitySet ==> p(c);
    var q1 := (c: Case) => o.sinceSet ==> q(c);
    var r1 := (c: Case) => o.excludeWANOnly ==> r(c);
    if !o.severitySet { FilterAll(cases, p1); } else { FilterSame(cases, p, p1); }
    if !o.sinceSet { FilterAll(s, q1); } else { FilterSame(s, q, q1); }
    if !o.excludeWANOnly { FilterAll(t, r1); } else { FilterSame(t, r, r1); }
    var pq := (c: Case) => p1(c) && q1(c);
    FilterFilter(cases, p1, q1, pq);
    FilterFilter(cases, pq, r1, c => Passes(o, look, now, c));
  }

  method FilterReviewCases(cases: seq<Case>, o: Opts, look: Lookups, now: int) returns (out: seq<Case>)
    ensures out == Pipeline(cases, o, look, now)
  {
    var severity := (c: Case) => ToLower(c.severity) in o.severities;
    var recent := (c: Case) => look.latestEvent(c).None? || look.latestEvent(c).value >= now - o.since;
    var inner := (c: Case) => !look.isWANOnly(c);
    out := cases;
    if o.severitySet {
      out := Keep(out, severity);
    }
    if o.sinceSet {
      out := Keep(out, recent);
    }
    if o.excludeWANOnly {
      out := Keep(out, inner);
    }
    FilterReviewChain(cases, o, look, now, severity, recent, inner, out);
    if o.dedupe {
      out := DedupeCases(out, look);
    }
    var limit := DEFAULT_LIMIT;
    if o.limitSet {
      limit := o.limit;
    }
    if limit > 0 && |out| > limit {
      out := out[..limit];
    }
  }

  // ----- consequences

  datatype Stage = BySeverity | BySince | ByEdge

  /** What one stage of the pipeline asks of a case; a stage that is off asks nothing. */
  predicate Asks(stage: Stage, o: Opts, look: Lookups, now: int, c: Case) {
    match stage
    case BySeverity => o.severitySet ==> ToLower(c.severity) in o.severities
    case BySince => o.sinceSet ==> look.latestEvent(c).None? || look.latestEvent(c).value >= now - o.since
    case ByEdge => o.excludeWANOnly ==> !look.isWANOnly(c)
  }

  function Staged(cases: seq<Case>, stages: seq<Stage>, o: Opts, look: Lookups, now: int): seq<Case> {
    if stages == [] then cases
    else
      var n := |stages| - 1;
      Filter(Staged(cases, stages[..n], o, look, now), c => Asks(stages[n], o, look, now, c))
  }

  lemma {:induction false} StagedExact(cases: seq<Case>, stages: seq<Stage>, o: Opts, look: Lookups, now: int)
    ensures Staged(cases, stages, o, look, now)
         == Filter(cases, c => forall stage <- stages :: Asks(stage, o, look, now, c))
  {
    var all := (c: Case) => forall stage <- stages :: Asks(stage, o, look, now, c);
    if stages == [] {
      FilterAll(cases, all);
    } else {
      var n := |stages| - 1;
      var some := (c: Case) => forall stage <- stages[..n] :: Asks(stage, o, look, now, c);
      var last := (c: Case) => Asks(stages[n], o, look, now, c);
      StagedExact(cases, stages[..n], o, look, now);
      assert stages == stages[..n] + [stages[n]];
      FilterFilter(cases, some, last, all);
    }
  }

  /** The pipeline's three filters give the same result in every order. */
  lemma AnyFilterOrder(cases: seq<Case>, stages: seq<Stage>, o: Opts, look: Lookups, now: int)
    requires forall stage: Stage :: stage in stages
    ensures var kept := Staged(cases, stages, o, look, now);
      Cut(if o.dedupe then Deduped(kept, look) else kept, EffectiveLimit(o)) == Pipeline(cases, o, look, now)
  {
    var p := (c: Case) => forall stage <- stages :: Asks(stage, o, look, now, c);
    StagedExact(cases, stages, o, look, now);
    forall c: Case ensures p(c) <==> Passes(o, look, now, c) {
      assert BySeverity in stages && BySince in stages && ByEdge in stages;
    }
    FilterSame(cases, p, c => Passes(o, look, now, c));
  }

  lemma WinsOnce(cases: seq<Case>, look: Lookups, i: nat, i': nat)
    requires i < |cases| && i' < |cases| && look.dedupeKey(cases[i]) == look.dedupeKey(cases[i'])
    requires Wins(cases, look, |cases|, i) && Wins(cases, look, |cases|, i')
    ensures i == i'
  {
  }

  /** The survivors keep their order and are, for each key, its most recent case, the earliest on a tie. */
  lemma Survivors(cases: seq<Case>, look: Lookups)
    ensures var out, w := Deduped(cases, look), Winners(cases, look, |cases|);
      && |out| == |w|
      && (forall k :: 0 <= k < |w| ==> w[k] < |cases| && out[k] == cases[w[k]])
      && (forall k, l :: 0 <= k < l < |w| ==> w[k] < w[l])
      && (forall k, j :: 0 <= k < |w| && 0 <= j < |cases| && look.dedupeKey(cases[j]) == look.dedupeKey(out[k]) ==>
            look.recency(cases[j]) < look.recency(out[k]) || (look.recency(cases[j]) == look.recency(out[k]) && w[k] <= j))
      && (forall k, l :: 0 <= k < l < |out| ==> look.dedupeKey(out[k]) != look.dedupeKey(out[l]))
  {
    WinnersExact(cases, look, |cases|);
    var out, w := Deduped(cases, look), Winners(cases, look, |cases|);
    forall k | 0 <= k < |w| ensures Wins(cases, look, |cases|, w[k]) {
      assert w[k] in w;
    }
    forall k, l | 0 <= k < l < |out| ensures look.dedupeKey(out[k]) != look.dedupeKey(out[l]) {
      if look.dedupeKey(out[k]) == look.dedupeKey(out[l]) {
        WinsOnce(cases, look, w[k], w[l]);
      }
    }
  }

  lemma {:induction false} WinnerOf(cases: seq<Case>, look: Lookups, n: nat, j: nat) returns (i: nat)
    requires j < n <= |cases|
    ensures i < n && look.dedupeKey(cases[i]) == look.dedupeKey(cases[j]) && Wins(cases, look, n, i)
  {
    var key, last := look.dedupeKey(cases[j]), n - 1;
    if exists x :: 0 <= x < last && look.dedupeKey(cases[x]) == key {
      var x :| 0 <= x < last && look.dedupeKey(cases[x]) == key;
      i := WinnerOf(cases, look, last, x);
      if look.dedupeKey(cases[last]) == key && look.recency(cases[last]) > look.recency(cases[i]) {
        i := last;
      }
    } else {
      i := last;
    }
  }

  /** No key is lost. */
  lemma KeysKept(cases: seq<Case>, look: Lookups, c: Case)
    requires c in cases
    ensures exists d :: d in Deduped(cases, look) && look.dedupeKey(d) == look.dedupeKey(c)
  {
    var j :| 0 <= j < |cases| && cases[j] == c;
    var i := WinnerOf(cases, look, |cases|, j);
    var w := Winners(cases, look, |cases|);
    WinnersExact(cases, look, |cases|);
    assert i in w;
    var k :| 0 <= k < |w| && w[k] == i;
    assert Deduped(cases, look)[k] == cases[i];
  }

  lemma {:induction false} AllWin(out: seq<Case>, look: Lookups, n: nat)
    requires n <= |out| && forall k :: 0 <= k < |out| ==> Wins(out, look, |out|, k)
    ensures |Winners(out, look, n)| == n && forall k :: 0 <= k < n ==> Winners(out, look, n)[k] == k
  {
    if n > 0 {
      AllWin(out, look, n - 1);
    }
  }

  /** De-duplicating twice changes nothing more. */
  lemma DedupeIdempotent(cases: seq<Case>, look: Lookups)
    ensures Deduped(Deduped(cases, look), look) == Deduped(cases, look)
  {
    var out, w := Deduped(cases, look), Winners(cases, look, |cases|);
    WinnersExact(cases, look, |cases|);
    forall k | 0 <= k < |out| ensures Wins(out, look, |out|, k) {
      forall l | 0 <= l < |out| && look.dedupeKey(out[l]) == look.dedupeKey(out[k]) ensures l == k {
        assert w[l] in w && w[k] in w;
        assert Wins(cases, look, |cases|, w[l]) && Wins(cases, look, |cases|, w[k]);
      }
    }
    AllWin(out, look, |out|);
  }

  /** The limit cuts the unlimited result; where none is set it is 50. */
  lemma LimitCuts(cases: seq<Case>, o: Opts, look: Lookups, now: int)
    ensures var all, limit := Pipeline(cases, o.(limit := 0, limitSet := true), look, now), if o.limitSet then o.limit else 50;
      Pipeline(cases, o, look, now) == if 0 < limit < |all| then all[..limit] else all
  {
    var o' := o.(limit := 0, limitSet := true);
    FilterSame(cases, c => Passes(o, look, now, c), c => Passes(o', look, now, c));
  }

  /** A larger limit, or none, only extends the result; where no limit is set, 50 counts as set. */
  lemma LimitExtends(cases: seq<Case>, o: Opts, o': Opts, look: Lookups, now: int)
    requires o' == o.(limit := o'.limit, limitSet := o'.limitSet)
    requires EffectiveLimit(o') <= 0 || 0 < EffectiveLimit(o) <= EffectiveLimit(o')
    ensures Pipeline(cases, o, look, now) <= Pipeline(cases, o', look, now)
  {
    FilterSame(cases, c => Passes(o, look, now, c), c => Passes(o', look, now, c));
  }

  lemma ReadLimit(args: seq<string>, duration: Duration)
    requires args != [] && ReadFlag(args, duration).Ok? && ReadFlag(args, duration).value.setting.Limit?
    ensures 1 <= ReadFlag(args, duration).value.setting.n <= MAX_LIMIT
  {
  }

  lemma ApplyLimit(o: Opts, s: Setting)
    ensures EffectiveLimit(Apply(o, s)) == if s.Limit? then s.n else EffectiveLimit(o)
  {
  }

  /** Parsing accepts limits from 1 to 200 only. */
  lemma {:induction false} ParsedLimit(args: seq<string>, o: Opts, duration: Duration)
    requires 1 <= EffectiveLimit(o) <= MAX_LIMIT
    ensures 1 <= EffectiveLimit(ParseFrom(args, o, duration).o) <= MAX_LIMIT
    decreases |args|
  {
    if args != [] && ReadFlag(args, duration).Ok? {
      var t := ReadFlag(args, duration).value;
      ApplyLimit(o, t.setting);
      if t.setting.Limit? {
        ReadLimit(args, duration);
      }
      ParsedLimit(args[t.used..], Apply(o, t.setting), duration);
    }
  }

  /** So every command that parses shows between 1 and 200 cases, unless no case passes its filters. */
  lemma CommandIsBounded(args: seq<string>, duration: Duration, cases: seq<Case>, look: Lookups, now: int)
    requires ParseFrom(args, DEFAULTS, duration).error.None?
    ensures var o := ParseFrom(args, DEFAULTS, duration).o;
      var out := Pipeline(cases, o, look, now);
      && |out| <= 200
      && (out == [] <==> forall c <- cases :: !Passes(o, look, now, c))
  {
    ParsedLimit(args, DEFAULTS, duration);
    var o := ParseFrom(args, DEFAULTS, duration).o;
    var p := (c: Case) => Passes(o, look, now, c);
    var kept := Filter(cases, p);
    forall c ensures c in kept <==> c in cases && p(c) {
      FilterIn(cases, p, c);
    }
    if kept != [] {
      KeysKept(kept, look, kept[0]);
    }
  }
}
