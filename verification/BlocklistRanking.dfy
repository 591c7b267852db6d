/** What the blocklist shows and in which order, in terms of the entries and the fields of the lines alone. */
module BlocklistRanking {
  import opened Text
  import opened Seqs
  import opened BlocklistOrder
  import opened Blocklist
  import opened BlocklistTheorems

  // ----- which lines

  /** The distinct observed addresses with prefix `p`. */
  function WithPrefix(raw: seq<Entry>, prefix: Prefix, p: string): set<string> {
    set e <- raw | e.ip != "" && prefix(e.ip) == Some(p) :: e.ip
  }

  /**
   A CIDR line stands for three or more distinct addresses of its prefix: it counts them and has the
   latest of their times, or the zero time when all are earlier.
   */
  lemma CidrLinesShown(raw: seq<Entry>, groupCIDR: bool, prefix: Prefix, line: BlockLine)
    requires line.isCIDR
    ensures var ips, t := WithPrefix(raw, prefix, line.value), line.lastSeen;
      line in AllLines(raw, groupCIDR, prefix) <==>
        && groupCIDR
        && line.count == |ips| >= 3
        && 0 <= t
        && (forall e <- raw :: e.ip in ips ==> e.time <= t)
        && (t == 0 || exists e :: e in raw && e.ip in ips && e.time == t)
  {
    LinesExact(raw, groupCIDR, prefix);
    assert WithPrefix(raw, prefix, line.value) == Sharing(raw, prefix, line.value);
  }

  /** Any other address has a line of its own, with its latest time. */
  lemma SingleLinesShown(raw: seq<Entry>, groupCIDR: bool, prefix: Prefix, line: BlockLine)
    requires !line.isCIDR
    ensures var ip, t := line.value, line.lastSeen;
      line in AllLines(raw, groupCIDR, prefix) <==>
        && ip != ""
        && line.count == 1
        && (exists e :: e in raw && e.ip == ip && e.time == t)
        && (forall e <- raw :: e.ip == ip ==> e.time <= t)
        && !(groupCIDR && prefix(ip).Some? && |WithPrefix(raw, prefix, prefix(ip).value)| >= 3)
  {
    LinesExact(raw, groupCIDR, prefix);
    if prefix(line.value).Some? {
      var p := prefix(line.value).value;
      assert WithPrefix(raw, prefix, p) == Sharing(raw, prefix, p);
    }
  }

  // ----- build order

  /** Some entry of `ips` comes before every entry of `others`. */
  ghost predicate Precedes(raw: seq<Entry>, ips: set<string>, others: set<string>) {
    exists k :: 0 <= k < |raw| && raw[k].ip in ips && forall l :: 0 <= l <= k ==> raw[l].ip !in others
  }

  ghost predicate SeenBefore(raw: seq<Entry>, ip: string, other: string) {
    Precedes(raw, {ip}, {other})
  }

  lemma PrecedesMore(raw: seq<Entry>, n: nat, ips: set<string>, others: set<string>)
    requires n <= |raw| && Precedes(raw[..n], ips, others)
    ensures Precedes(raw, ips, others)
  {
    var k :| 0 <= k < n && raw[..n][k].ip in ips && forall l :: 0 <= l <= k ==> raw[..n][l].ip !in others;
    assert forall l :: 0 <= l <= k ==> raw[l] == raw[..n][l];
  }

  lemma PrecedesNew(raw: seq<Entry>, ip: string, other: string)
    requires ip in IPs(raw) && other !in IPs(raw) && other != ""
    ensures Precedes(raw, {ip}, {other})
  {
    var k :| 0 <= k < |raw| && raw[k].ip == ip;
    assert forall l :: 0 <= l < |raw| && raw[l].ip == other ==> raw[l] in raw;
  }

  ghost predicate InSeenOrder(raw: seq<Entry>, ips: seq<string>) {
    forall i: nat, j: nat :: i < j < |ips| ==> SeenBefore(raw, ips[i], ips[j])
  }

  /** Addresses are listed in the order of their first entries. */
  lemma {:induction false} OrderPrecedes(raw: seq<Entry>)
    ensures InSeenOrder(raw, Order(raw))
  {
    if raw != [] {
      var n := |raw| - 1;
      var before, ips := Order(raw[..n]), Order(raw);
      OrderPrecedes(raw[..n]);
      OrderFacts(raw[..n]);
      assert ips == before || (raw[n].ip != "" && raw[n].ip !in IPs(raw[..n]) && ips == before + [raw[n].ip]);
      forall i: nat, j: nat | i < j < |ips| ensures SeenBefore(raw, ips[i], ips[j]) {
        assert ips[i] == before[i] && before[i] in before;
        if j == |before| {
          PrecedesNew(raw[..n], ips[i], ips[j]);
        } else {
          assert SeenBefore(raw[..n], before[i], before[j]);
        }
        PrecedesMore(raw, n, {ips[i]}, {ips[j]});
      }
    }
  }

  ghost predicate First(raw: seq<Entry>, ip: string, k: nat) {
    k < |raw| && raw[k].ip == ip && forall l :: 0 <= l < k ==> raw[l].ip != ip
  }

  lemma {:induction false} FirstEntry(raw: seq<Entry>, ip: string) returns (k: nat)
    requires ip in IPs(raw)
    ensures First(raw, ip, k)
  {
    var n := |raw| - 1;
    if ip in IPs(raw[..n]) {
      k := FirstEntry(raw[..n], ip);
      assert forall l :: 0 <= l <= k ==> raw[l] == raw[..n][l];
    } else {
      assert forall l :: 0 <= l < n && raw[l].ip == ip ==> raw[l] in raw[..n];
      k := n;
    }
  }

  lemma AfterFirst(raw: seq<Entry>, ip: string, other: string, k: nat)
    requires First(raw, ip, k) && SeenBefore(raw, ip, other)
    ensures forall l :: 0 <= l <= k ==> raw[l].ip != other
  {
    var k' :| 0 <= k' < |raw| && raw[k'].ip in {ip} && forall l :: 0 <= l <= k' ==> raw[l].ip !in {other};
    assert k <= k';
  }

  /** What comes before a set of addresses among the distinct ones also comes first among the entries. */
  lemma Lift(raw: seq<Entry>, m: nat, others: set<string>)
    requires m < |Order(raw)| && others <= IPs(raw)
    requires forall l :: 0 <= l <= m ==> Order(raw)[l] !in others
    ensures Precedes(raw, {Order(raw)[m]}, others)
  {
    var ips := Order(raw);
    OrderFacts(raw);
    OrderPrecedes(raw);
    assert ips[m] in ips;
    var k := FirstEntry(raw, ips[m]);
    forall other <- others ensures forall l :: 0 <= l <= k ==> raw[l].ip != other {
      var j :| 0 <= j < |ips| && ips[j] == other;
      assert j > m && SeenBefore(raw, ips[m], ips[j]);
      AfterFirst(raw, ips[m], other, k);
    }
  }

  ghost predicate GroupPrecedes(es: seq<Entry>, prefix: Prefix, p: string, q: string) {
    exists m :: 0 <= m < |es| && prefix(es[m].ip) == Some(p) && forall l :: 0 <= l <= m ==> prefix(es[l].ip) != Some(q)
  }

  ghost predicate InGroupOrder(es: seq<Entry>, prefix: Prefix, ps: seq<string>) {
    forall i: nat, j: nat :: i < j < |ps| ==> GroupPrecedes(es, prefix, ps[i], ps[j])
  }

  lemma {:induction false} GroupsPrecede(es: seq<Entry>, prefix: Prefix)
    ensures InGroupOrder(es, prefix, GroupOrder(es, prefix))
  {
    if es != [] {
      var n := |es| - 1;
      var before, ps := GroupOrder(es[..n], prefix), GroupOrder(es, prefix);
      GroupsPrecede(es[..n], prefix);
      GroupOrderFacts(es[..n], prefix);
      forall i: nat, j: nat | i < j < |ps| ensures GroupPrecedes(es, prefix, ps[i], ps[j]) {
        assert ps[i] == before[i];
        if j == |before| {
          assert before[i] in before;
          var e :| e in es[..n] && prefix(e.ip) == Some(ps[i]);
          var m :| 0 <= m < n && es[..n][m] == e;
          assert forall l :: 0 <= l <= m ==> es[l] in es[..n];
        } else {
          assert GroupPrecedes(es[..n], prefix, before[i], before[j]);
          var m :| 0 <= m < n && prefix(es[..n][m].ip) == Some(ps[i])
                   && forall l :: 0 <= l <= m ==> prefix(es[..n][l].ip) != Some(ps[j]);
          assert forall l :: 0 <= l <= m ==> es[l] == es[..n][l];
        }
      }
    }
  }

  lemma LiftGroup(raw: seq<Entry>, prefix: Prefix, p: string, q: string)
    requires GroupPrecedes(Deduped(raw), prefix, p, q)
    ensures Precedes(raw, WithPrefix(raw, prefix, p), WithPrefix(raw, prefix, q))
  {
    var es, ips := Deduped(raw), Order(raw);
    OrderFacts(raw);
    var m :| 0 <= m < |es| && prefix(es[m].ip) == Some(p) && forall l :: 0 <= l <= m ==> prefix(es[l].ip) != Some(q);
    assert ips[m] in ips && ips[m] in WithPrefix(raw, prefix, p);
    assert forall l :: 0 <= l <= m ==> ips[l] == es[l].ip && ips[l] !in WithPrefix(raw, prefix, q);
    Lift(raw, m, WithPrefix(raw, prefix, q));
    var k :| 0 <= k < |raw| && raw[k].ip in {ips[m]} && forall l :: 0 <= l <= k ==> raw[l].ip !in WithPrefix(raw, prefix, q);
  }

  ghost predicate BuiltBefore(raw: seq<Entry>, prefix: Prefix, a: BlockLine, b: BlockLine) {
    Precedes(raw, Covered(raw, prefix, a), Covered(raw, prefix, b))
  }

  lemma {:induction false} CidrLinesFrom(es: seq<Entry>, prefix: Prefix, ps: seq<string>, lines: seq<BlockLine>)
      returns (at: seq<nat>)
    requires lines == CidrLines(es, prefix, ps)
    ensures |at| == |lines| && (forall i, j :: 0 <= i < j < |at| ==> at[i] < at[j])
    ensures forall i :: 0 <= i < |at| ==> at[i] < |ps| && lines[i].value == ps[at[i]] && lines[i].isCIDR
  {
    at := [];
    if ps != [] {
      var n := |ps| - 1;
      at := CidrLinesFrom(es, prefix, ps[..n], CidrLines(es, prefix, ps[..n]));
      if IsLarge(es, prefix, ps[n]) {
        at := at + [n];
      }
    }
  }

  lemma {:induction false} SingleLinesFrom(es: seq<Entry>, used: set<string>, lines: seq<BlockLine>) returns (at: seq<nat>)
    requires lines == SingleLines(es, used)
    ensures |at| == |lines| && (forall i, j :: 0 <= i < j < |at| ==> at[i] < at[j])
    ensures forall i :: 0 <= i < |at| ==> at[i] < |es| && lines[i].value == es[at[i]].ip && !lines[i].isCIDR
  {
    at := [];
    if es != [] {
      var n := |es| - 1;
      at := SingleLinesFrom(es[..n], used, SingleLines(es[..n], used));
      if es[n].ip !in used {
        at := at + [n];
      }
    }
  }

  lemma CidrsBuilt(raw: seq<Entry>, prefix: Prefix, lines: seq<BlockLine>)
    requires lines == CidrLines(Deduped(raw), prefix, GroupOrder(Deduped(raw), prefix))
    ensures forall line <- lines :: line.isCIDR
    ensures forall i, j :: 0 <= i < j < |lines| ==> BuiltBefore(raw, prefix, lines[i], lines[j])
  {
    var es := Deduped(raw);
    var ps := GroupOrder(es, prefix);
    var at := CidrLinesFrom(es, prefix, ps, lines);
    GroupsPrecede(es, prefix);
    forall i, j | 0 <= i < j < |lines| ensures BuiltBefore(raw, prefix, lines[i], lines[j]) {
      LiftGroup(raw, prefix, ps[at[i]], ps[at[j]]);
      assert Covered(raw, prefix, lines[i]) == WithPrefix(raw, prefix, lines[i].value);
      assert Covered(raw, prefix, lines[j]) == WithPrefix(raw, prefix, lines[j].value);
    }
  }

  lemma SinglesBuilt(raw: seq<Entry>, prefix: Prefix, used: set<string>, lines: seq<BlockLine>)
    requires lines == SingleLines(Deduped(raw), used)
    ensures forall line <- lines :: !line.isCIDR
    ensures forall i, j :: 0 <= i < j < |lines| ==> BuiltBefore(raw, prefix, lines[i], lines[j])
  {
    var es, ips := Deduped(raw), Order(raw);
    var at := SingleLinesFrom(es, used, lines);
    OrderPrecedes(raw);
    OrderFacts(raw);
    forall i, j | 0 <= i < j < |lines| ensures BuiltBefore(raw, prefix, lines[i], lines[j]) {
      assert ips[at[i]] in ips && ips[at[j]] in ips;
      assert SeenBefore(raw, ips[at[i]], ips[at[j]]);
      assert Covered(raw, prefix, lines[i]) == {lines[i].value};
      assert Covered(raw, prefix, lines[j]) == {lines[j].value};
    }
  }

  ghost predicate Built(raw: seq<Entry>, prefix: Prefix, lines: seq<BlockLine>) {
    forall i, j :: 0 <= i < j < |lines| && lines[i].isCIDR == lines[j].isCIDR ==> BuiltBefore(raw, prefix, lines[i], lines[j])
  }

  lemma BothKinds(raw: seq<Entry>, prefix: Prefix, cidrs: seq<BlockLine>, singles: seq<BlockLine>)
    requires Built(raw, prefix, cidrs) && Built(raw, prefix, singles)
    requires (forall i :: 0 <= i < |cidrs| ==> cidrs[i].isCIDR) && (forall i :: 0 <= i < |singles| ==> !singles[i].isCIDR)
    ensures Built(raw, prefix, cidrs + singles)
  {
  }

  /** Lines of one kind are built in the order of the first entries they cover. */
  lemma BuildOrder(raw: seq<Entry>, groupCIDR: bool, prefix: Prefix)
    ensures Built(raw, prefix, AllLines(raw, groupCIDR, prefix))
  {
    var es := Deduped(raw);
    var used := UsedBy(es, prefix, groupCIDR);
    var cidrs := if groupCIDR then CidrLines(es, prefix, GroupOrder(es, prefix)) else [];
    if groupCIDR {
      CidrsBuilt(raw, prefix, cidrs);
    }
    SinglesBuilt(raw, prefix, used, SingleLines(es, used));
    BothKinds(raw, prefix, cidrs, SingleLines(es, used));
  }

  // ----- the order of the result

  predicate Alike(a: BlockLine, b: BlockLine) {
    a.isCIDR == b.isCIDR && a.count == b.count && a.lastSeen == b.lastSeen
  }

  /** `a` may stand before `b`: CIDR lines first, then larger, then more recent, then seen first. */
  ghost predicate InOrder(raw: seq<Entry>, prefix: Prefix, a: BlockLine, b: BlockLine) {
    || (a.isCIDR && !b.isCIDR)
    || (a.isCIDR == b.isCIDR && a.count > b.count)
    || (a.isCIDR == b.isCIDR && a.count == b.count && a.lastSeen > b.lastSeen)
    || (Alike(a, b) && BuiltBefore(raw, prefix, a, b))
  }

  lemma {:induction false} FilterPositions(xs: seq<BlockLine>, p: BlockLine -> bool) returns (at: seq<nat>)
    ensures |at| == |Filter(xs, p)| && (forall i, j :: 0 <= i < j < |at| ==> at[i] < at[j])
    ensures forall i :: 0 <= i < |at| ==> at[i] < |xs| && Filter(xs, p)[i] == xs[at[i]]
    ensures forall k :: 0 <= k < |xs| && p(xs[k]) ==> k in at
  {
    at := [];
    if xs != [] {
      var n := |xs| - 1;
      var before := FilterPositions(xs[..n], p);
      assert forall k :: 0 <= k < n ==> xs[..n][k] == xs[k];
      at := before + if p(xs[n]) then [n] else [];
      forall k | 0 <= k < |xs| && p(xs[k]) ensures k in at {
        assert k < n ==> k in before;
      }
    }
  }

  /** Lists with the same elements of one kind have them in the same order. */
  lemma SamePositions(xs: seq<BlockLine>, ys: seq<BlockLine>, p: BlockLine -> bool, i: nat, j: nat) returns (a: nat, b: nat)
    requires Filter(xs, p) == Filter(ys, p)
    requires i < j < |xs| && p(xs[i]) && p(xs[j])
    ensures a < b < |ys| && ys[a] == xs[i] && ys[b] == xs[j]
  {
    var inXs := FilterPositions(xs, p);
    var inYs := FilterPositions(ys, p);
    var k :| 0 <= k < |inXs| && inXs[k] == i;
    var l :| 0 <= l < |inXs| && inXs[l] == j;
    assert k < l;
    a, b := inYs[k], inYs[l];
  }

  /** Two lines that are alike stand in the sorted list as they were built. */
  lemma AlikeKeepOrder(raw: seq<Entry>, groupCIDR: bool, prefix: Prefix, i: nat, j: nat)
    requires var sorted := StableSort(AllLines(raw, groupCIDR, prefix)); i < j < |sorted| && Alike(sorted[i], sorted[j])
    ensures var sorted := StableSort(AllLines(raw, groupCIDR, prefix)); BuiltBefore(raw, prefix, sorted[i], sorted[j])
  {
    var all := AllLines(raw, groupCIDR, prefix);
    var sorted := StableSort(all);
    var c := sorted[i];
    StableSortCorrect(all);
    assert Peers(sorted, c) == Peers(all, c);
    var a, b := SamePositions(sorted, all, y => SameRank(c, y), i, j);
    BuildOrder(raw, groupCIDR, prefix);
  }

  /**
   The order of the result, down to the last tie: any two shown lines, and any shown and any dropped
   line, stand in the order of kind, size, recency and first sight.
   */
  lemma ResultOrder(raw: seq<Entry>, groupCIDR: bool, limit: int, prefix: Prefix)
    ensures var sorted := StableSort(AllLines(raw, groupCIDR, prefix));
      var lines := Cut(sorted, limit);
      && multiset(sorted) == multiset(AllLines(raw, groupCIDR, prefix))
      && lines <= sorted && |lines| == (if 0 < limit < |sorted| then limit else |sorted|)
      && forall i, j :: 0 <= i < j < |sorted| ==> InOrder(raw, prefix, sorted[i], sorted[j])
  {
    var all := AllLines(raw, groupCIDR, prefix);
    var sorted := StableSort(all);
    StableSortCorrect(all);
    forall i, j | 0 <= i < j < |sorted| ensures InOrder(raw, prefix, sorted[i], sorted[j]) {
      if Alike(sorted[i], sorted[j]) {
        AlikeKeepOrder(raw, groupCIDR, prefix, i, j);
      }
    }
  }
}
