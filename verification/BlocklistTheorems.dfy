/** Partition, conservation, order-independence and ranking of the blocklist. */
module BlocklistTheorems {
  import opened Text
  import opened Seqs
  import opened BlocklistOrder
  import opened Blocklist

  function IpSet(es: seq<Entry>): set<string> {
    set e <- es :: e.ip
  }

  lemma {:induction false} CountIPs(es: seq<Entry>)
    requires DistinctIPs(es)
    ensures |IpSet(es)| == |es|
  {
    if es != [] {
      var n := |es| - 1;
      CountIPs(es[..n]);
      assert es == es[..n] + [es[n]];
      assert IpSet(es) == IpSet(es[..n]) + {es[n].ip};
    }
  }

  lemma {:induction false} FilterDistinct(es: seq<Entry>, p: Entry -> bool)
    requires DistinctIPs(es)
    ensures DistinctIPs(Filter(es, p))
  {
    if es != [] {
      var n := |es| - 1;
      FilterDistinct(es[..n], p);
      var kept := Filter(es[..n], p);
      forall i | 0 <= i < |kept| ensures kept[i].ip != es[n].ip {
        FilterIn(es[..n], p, kept[i]);
        var k :| 0 <= k < n && es[k] == kept[i];
      }
    }
  }

  lemma {:induction false} LatestFromRaw(raw: seq<Entry>)
    ensures forall ip <- Latest(raw) :: Latest(raw)[ip] in raw
  {
    if raw != [] {
      LatestFromRaw(raw[..|raw| - 1]);
    }
  }

  /** De-duplication keeps one entry per address: the latest. */
  lemma DedupedFacts(raw: seq<Entry>)
    ensures DistinctIPs(Deduped(raw))
    ensures IpSet(Deduped(raw)) == IPs(raw)
    ensures forall e <- Deduped(raw) :: IsLatest(raw, e.ip, e.time)
    ensures forall e <- Deduped(raw) :: e in raw
  {
    OrderFacts(raw);
    LatestFacts(raw);
    var es := Deduped(raw);
    forall ip <- IPs(raw) ensures ip in IpSet(es) {
      var i :| 0 <= i < |Order(raw)| && Order(raw)[i] == ip;
      assert es[i].ip == ip;
    }
    LatestFromRaw(raw);
  }

  lemma {:induction false} LastOfFacts(es: seq<Entry>)
    ensures ZERO_TIME <= LastOf(es)
    ensures forall e <- es :: e.time <= LastOf(es)
    ensures LastOf(es) == ZERO_TIME || exists e :: e in es && e.time == LastOf(es)
  {
    if es != [] {
      var n := |es| - 1;
      LastOfFacts(es[..n]);
      assert es == es[..n] + [es[n]];
    }
  }

  /** A group's members stand for the distinct raw addresses with its prefix. */
  lemma MembersFacts(raw: seq<Entry>, prefix: Prefix, p: string)
    ensures var ms := Members(Deduped(raw), prefix, p);
      && |ms| == |Sharing(raw, prefix, p)|
      && IsLatestOfAny(raw, Sharing(raw, prefix, p), LastOf(ms))
  {
    var es, ms := Deduped(raw), Members(Deduped(raw), prefix, p);
    var f := (e: Entry) => prefix(e.ip) == Some(p);
    DedupedFacts(raw);
    FilterDistinct(es, f);
    forall e ensures e in ms <==> e in es && prefix(e.ip) == Some(p) { FilterIn(es, f, e); }
    assert IpSet(ms) == Sharing(raw, prefix, p);
    CountIPs(ms);
    LastOfFacts(ms);
    forall e <- raw | e.ip in Sharing(raw, prefix, p) ensures e.time <= LastOf(ms) {
      var m :| m in ms && m.ip == e.ip;
      assert IsLatest(raw, m.ip, m.time);
    }
  }

  lemma {:induction false} InCidrLines(es: seq<Entry>, prefix: Prefix, ps: seq<string>, line: BlockLine)
    ensures line in CidrLines(es, prefix, ps) <==>
            line.value in ps && IsLarge(es, prefix, line.value) && line == CidrLine(es, prefix, line.value)
  {
    if ps != [] {
      InCidrLines(es, prefix, ps[..|ps| - 1], line);
      assert ps == ps[..|ps| - 1] + [ps[|ps| - 1]];
    }
  }

  lemma {:induction false} CidrLinesDistinct(es: seq<Entry>, prefix: Prefix, ps: seq<string>)
    requires NoDup(ps)
    ensures NoDup(CidrLines(es, prefix, ps))
  {
    if ps != [] {
      var n := |ps| - 1;
      CidrLinesDistinct(es, prefix, ps[..n]);
      InCidrLines(es, prefix, ps[..n], CidrLine(es, prefix, ps[n]));
    }
  }

  lemma {:induction false} InSingleLines(es: seq<Entry>, used: set<string>, line: BlockLine)
    ensures line in SingleLines(es, used) <==> exists e :: e in es && e.ip !in used && line == SingleLine(e)
  {
    if es != [] {
      var n := |es| - 1;
      InSingleLines(es[..n], used, line);
      assert es == es[..n] + [es[n]];
    }
  }

  lemma {:induction false} SingleLinesDistinct(es: seq<Entry>, used: set<string>)
    requires DistinctIPs(es)
    ensures NoDup(SingleLines(es, used))
  {
    if es != [] {
      var n := |es| - 1;
      SingleLinesDistinct(es[..n], used);
      InSingleLines(es[..n], used, SingleLine(es[n]));
    }
  }

  /** Grouping after de-duplication is grouping of the raw addresses. */
  lemma UsedIsGrouped(raw: seq<Entry>, groupCIDR: bool, prefix: Prefix, ip: string)
    ensures ip in UsedBy(Deduped(raw), prefix, groupCIDR) <==> ip in IPs(raw) && Grouped(raw, groupCIDR, prefix, ip)
  {
    var es := Deduped(raw);
    DedupedFacts(raw);
    if prefix(ip).Some? {
      MembersFacts(raw, prefix, prefix(ip).value);
    }
    if ip in IPs(raw) {
      assert ip in IpSet(es);
    }
  }

  /** A large group's line is the one that describes it. */
  lemma CidrLineDescribes(raw: seq<Entry>, prefix: Prefix, line: BlockLine)
    requires line.isCIDR
    ensures var es := Deduped(raw);
      IsLarge(es, prefix, line.value) && line == CidrLine(es, prefix, line.value) <==> Describes(raw, true, prefix, line)
  {
    MembersFacts(raw, prefix, line.value);
  }

  lemma CidrExact(raw: seq<Entry>, prefix: Prefix, line: BlockLine)
    requires line.isCIDR
    ensures var es := Deduped(raw);
      line in CidrLines(es, prefix, GroupOrder(es, prefix)) <==> Describes(raw, true, prefix, line)
  {
    var es, p := Deduped(raw), line.value;
    DedupedFacts(raw);
    GroupOrderFacts(es, prefix);
    CidrLineDescribes(raw, prefix, line);
    InCidrLines(es, prefix, GroupOrder(es, prefix), line);
    if |Sharing(raw, prefix, p)| >= CIDR_GROUP_THRESHOLD {
      var ip :| ip in Sharing(raw, prefix, p);
      assert ip in IpSet(es);
    }
  }

  lemma SingleExact(raw: seq<Entry>, groupCIDR: bool, prefix: Prefix, line: BlockLine)
    requires !line.isCIDR
    ensures var es := Deduped(raw);
      line in SingleLines(es, UsedBy(es, prefix, groupCIDR)) <==> Describes(raw, groupCIDR, prefix, line)
  {
    var es := Deduped(raw);
    DedupedFacts(raw);
    InSingleLines(es, UsedBy(es, prefix, groupCIDR), line);
    UsedIsGrouped(raw, groupCIDR, prefix, line.value);
    if line.value in IPs(raw) {
      assert line.value in IpSet(es);
      var e :| e in es && e.ip == line.value;
      assert IsLatest(raw, e.ip, e.time);
    }
  }

  /** Before ranking, the lines are exactly those that the raw entries call for, each once. */
  lemma LinesExact(raw: seq<Entry>, groupCIDR: bool, prefix: Prefix)
    ensures forall line :: line in AllLines(raw, groupCIDR, prefix) <==> Describes(raw, groupCIDR, prefix, line)
    ensures NoDup(AllLines(raw, groupCIDR, prefix))
  {
    var es := Deduped(raw);
    var ps, used := GroupOrder(es, prefix), UsedBy(es, prefix, groupCIDR);
    var cidrs, singles := if groupCIDR then CidrLines(es, prefix, ps) else [], SingleLines(es, used);
    forall line ensures line in cidrs ==> line.isCIDR { InCidrLines(es, prefix, ps, line); }
    forall line ensures line in singles ==> !line.isCIDR { InSingleLines(es, used, line); }
    forall line ensures line in AllLines(raw, groupCIDR, prefix) <==> Describes(raw, groupCIDR, prefix, line) {
      if line.isCIDR {
        CidrExact(raw, prefix, line);
      } else {
        SingleExact(raw, groupCIDR, prefix, line);
      }
    }
    GroupOrderFacts(es, prefix);
    CidrLinesDistinct(es, prefix, ps);
    DedupedFacts(raw);
    SingleLinesDistinct(es, used);
  }

  // ----- partition and conservation

  /** The observed addresses a line stands for. */
  function Covered(raw: seq<Entry>, prefix: Prefix, line: BlockLine): set<string> {
    set ip <- IPs(raw) | if line.isCIDR then prefix(ip) == Some(line.value) else ip == line.value
  }

  /** The kind of line that stands for an address is decided by the address. */
  lemma KindOfLine(raw: seq<Entry>, groupCIDR: bool, prefix: Prefix, line: BlockLine, ip: string)
    requires Describes(raw, groupCIDR, prefix, line) && ip in Covered(raw, prefix, line)
    ensures line.isCIDR <==> Grouped(raw, groupCIDR, prefix, ip)
  {
  }

  lemma DescribesUnique(raw: seq<Entry>, groupCIDR: bool, prefix: Prefix, a: BlockLine, b: BlockLine, ip: string)
    requires Describes(raw, groupCIDR, prefix, a) && Describes(raw, groupCIDR, prefix, b)
    requires ip in Covered(raw, prefix, a) && ip in Covered(raw, prefix, b)
    ensures a == b
  {
    KindOfLine(raw, groupCIDR, prefix, a, ip);
    KindOfLine(raw, groupCIDR, prefix, b, ip);
    assert a.value == b.value;
  }

  lemma {:induction false} LatestExists(raw: seq<Entry>, ips: set<string>) returns (e: Entry)
    requires exists x :: x in raw && x.ip in ips
    ensures e in raw && e.ip in ips && forall x <- raw :: x.ip in ips ==> x.time <= e.time
  {
    var n := |raw| - 1;
    assert raw == raw[..n] + [raw[n]];
    if exists x :: x in raw[..n] && x.ip in ips {
      e := LatestExists(raw[..n], ips);
      if raw[n].ip in ips && raw[n].time > e.time {
        e := raw[n];
      }
    } else {
      e := raw[n];
    }
  }

  /** The line that stands for an observed address. */
  lemma LineOf(raw: seq<Entry>, groupCIDR: bool, prefix: Prefix, ip: string) returns (line: BlockLine)
    requires ip in IPs(raw)
    ensures Describes(raw, groupCIDR, prefix, line) && ip in Covered(raw, prefix, line)
    ensures line.isCIDR <==> Grouped(raw, groupCIDR, prefix, ip)
  {
    if Grouped(raw, groupCIDR, prefix, ip) {
      var ips := Sharing(raw, prefix, prefix(ip).value);
      assert ip in ips;
      var e := LatestExists(raw, ips);
      line := BlockLine(prefix(ip).value, true, |ips|, if e.time > ZERO_TIME then e.time else ZERO_TIME);
    } else {
      var e := LatestExists(raw, {ip});
      line := BlockLine(ip, false, 1, e.time);
    }
  }

  /**
   Before the limit every distinct non-empty address is represented by exactly one line, which is a
   CIDR line exactly when grouping is on and at least three distinct addresses share its prefix.
   */
  lemma Partition(raw: seq<Entry>, groupCIDR: bool, prefix: Prefix, ip: string)
    requires ip in IPs(raw)
    ensures var lines := AllLines(raw, groupCIDR, prefix);
      exists i :: 0 <= i < |lines| && ip in Covered(raw, prefix, lines[i])
                  && (lines[i].isCIDR <==> Grouped(raw, groupCIDR, prefix, ip))
                  && forall j :: 0 <= j < |lines| && ip in Covered(raw, prefix, lines[j]) ==> j == i
  {
    var lines := AllLines(raw, groupCIDR, prefix);
    LinesExact(raw, groupCIDR, prefix);
    var line := LineOf(raw, groupCIDR, prefix, ip);
    var i :| 0 <= i < |lines| && lines[i] == line;
    forall j | 0 <= j < |lines| && ip in Covered(raw, prefix, lines[j]) ensures j == i {
      assert lines[j] in lines;
      DescribesUnique(raw, groupCIDR, prefix, line, lines[j], ip);
    }
  }

  function SumCounts(lines: seq<BlockLine>): nat {
    if lines == [] then 0 else SumCounts(lines[..|lines| - 1]) + lines[|lines| - 1].count
  }

  function AllCovered(raw: seq<Entry>, prefix: Prefix, lines: seq<BlockLine>): set<string> {
    set ip <- IPs(raw) | exists line :: line in lines && ip in Covered(raw, prefix, line)
  }

  lemma CountIsCovered(raw: seq<Entry>, groupCIDR: bool, prefix: Prefix, line: BlockLine)
    requires Describes(raw, groupCIDR, prefix, line)
    ensures line.count == |Covered(raw, prefix, line)|
  {
    if line.isCIDR {
      assert Covered(raw, prefix, line) == Sharing(raw, prefix, line.value);
    } else {
      assert Covered(raw, prefix, line) == {line.value};
    }
  }

  lemma CoveredOnce(raw: seq<Entry>, groupCIDR: bool, prefix: Prefix, before: seq<BlockLine>, last: BlockLine)
    requires last !in before && Describes(raw, groupCIDR, prefix, last)
    requires forall line <- before :: Describes(raw, groupCIDR, prefix, line)
    ensures AllCovered(raw, prefix, before + [last]) == AllCovered(raw, prefix, before) + Covered(raw, prefix, last)
    ensures AllCovered(raw, prefix, before) !! Covered(raw, prefix, last)
  {
    var all := before + [last];
    assert forall line :: line in all <==> line in before || line == last;
    forall line <- before, ip | ip in Covered(raw, prefix, line) ensures ip !in Covered(raw, prefix, last) {
      if ip in Covered(raw, prefix, last) {
        DescribesUnique(raw, groupCIDR, prefix, line, last, ip);
      }
    }
  }

  lemma SumStep(before: seq<BlockLine>, last: BlockLine)
    ensures SumCounts(before + [last]) == SumCounts(before) + last.count
  {
    assert (before + [last])[..|before|] == before;
  }

  lemma {:induction false} SumIsCovered(raw: seq<Entry>, groupCIDR: bool, prefix: Prefix, lines: seq<BlockLine>)
    requires NoDup(lines) && forall line <- lines :: Describes(raw, groupCIDR, prefix, line)
    ensures SumCounts(lines) == |AllCovered(raw, prefix, lines)|
  {
    if lines != [] {
      var n := |lines| - 1;
      var before, last := lines[..n], lines[n];
      assert lines == before + [last];
      SumIsCovered(raw, groupCIDR, prefix, before);
      CountIsCovered(raw, groupCIDR, prefix, last);
      CoveredOnce(raw, groupCIDR, prefix, before, last);
      SumStep(before, last);
    }
  }

  /** The line counts add up to the number of distinct addresses. */
  lemma Conservation(raw: seq<Entry>, groupCIDR: bool, prefix: Prefix)
    ensures SumCounts(AllLines(raw, groupCIDR, prefix)) == |IPs(raw)|
  {
    var lines := AllLines(raw, groupCIDR, prefix);
    LinesExact(raw, groupCIDR, prefix);
    SumIsCovered(raw, groupCIDR, prefix, lines);
    forall ip <- IPs(raw) ensures ip in AllCovered(raw, prefix, lines) {
      Partition(raw, groupCIDR, prefix, ip);
    }
    assert AllCovered(raw, prefix, lines) == IPs(raw);
  }

  // ----- order-independence

  lemma SameDescribes(raw: seq<Entry>, raw': seq<Entry>, groupCIDR: bool, prefix: Prefix, line: BlockLine)
    requires forall e :: e in raw <==> e in raw'
    ensures Describes(raw, groupCIDR, prefix, line) ==> Describes(raw', groupCIDR, prefix, line)
  {
    assert IPs(raw) == IPs(raw');
    assert Sharing(raw, prefix, line.value) == Sharing(raw', prefix, line.value);
    if prefix(line.value).Some? {
      assert Sharing(raw, prefix, prefix(line.value).value) == Sharing(raw', prefix, prefix(line.value).value);
    }
  }

  /** Only which entries occur matters, not in what order or how often. */
  lemma OrderIndependent(raw: seq<Entry>, raw': seq<Entry>, groupCIDR: bool, prefix: Prefix)
    requires forall e :: e in raw <==> e in raw'
    ensures multiset(AllLines(raw, groupCIDR, prefix)) == multiset(AllLines(raw', groupCIDR, prefix))
  {
    LinesExact(raw, groupCIDR, prefix);
    LinesExact(raw', groupCIDR, prefix);
    forall line ensures line in AllLines(raw, groupCIDR, prefix) <==> line in AllLines(raw', groupCIDR, prefix) {
      SameDescribes(raw, raw', groupCIDR, prefix, line);
      SameDescribes(raw', raw, groupCIDR, prefix, line);
    }
    NoDupSameElements(AllLines(raw, groupCIDR, prefix), AllLines(raw', groupCIDR, prefix));
  }

  /**
   A CIDR line's last-seen time is the time of the latest entry it covers exactly when that entry is
   not before the zero time, from which the maximum starts.
   */
  lemma CidrLastSeen(raw: seq<Entry>, prefix: Prefix, line: BlockLine, latest: Entry)
    requires line in AllLines(raw, true, prefix) && line.isCIDR
    requires latest in raw && latest.ip in Covered(raw, prefix, line)
    requires forall e <- raw :: e.ip in Covered(raw, prefix, line) ==> e.time <= latest.time
    ensures line.lastSeen == latest.time <==> latest.time >= ZERO_TIME
  {
    LinesExact(raw, true, prefix);
    assert Covered(raw, prefix, line) == Sharing(raw, prefix, line.value);
  }

  // ----- ranking

  /** By kind, size and recency, `a` may stand before `b`. */
  predicate FieldOrder(a: BlockLine, b: BlockLine) {
    if a.isCIDR != b.isCIDR then a.isCIDR
    else a.count > b.count || (a.count == b.count && a.lastSeen >= b.lastSeen)
  }

  /**
   The result is the first lines, up to the limit, of the one arrangement in which CIDR lines come
   first, then larger ones, then more recent ones, lines of equal rank being in build order.
   */
  lemma Ranking(all: seq<BlockLine>, limit: int)
    ensures var sorted, lines := StableSort(all), Cut(StableSort(all), limit);
      && lines <= sorted
      && |lines| == (if 0 < limit < |all| then limit else |all|)
      && multiset(sorted) == multiset(all)
      && (forall c :: Peers(sorted, c) == Peers(all, c))
      && (forall i, j :: 0 <= i < j < |sorted| ==> FieldOrder(sorted[i], sorted[j]))
      && (forall i, j :: 0 <= i < |lines| <= j < |sorted| ==> FieldOrder(lines[i], sorted[j]) && !Outranks(sorted[j], lines[i]))
  {
    StableSortCorrect(all);
    assert |StableSort(all)| == |multiset(StableSort(all))| == |multiset(all)| == |all|;
    var sorted := StableSort(all);
    forall i, j | 0 <= i < j < |sorted| ensures FieldOrder(sorted[i], sorted[j]) {
      assert !Outranks(sorted[j], sorted[i]);
    }
  }
}
