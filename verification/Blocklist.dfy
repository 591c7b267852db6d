/**
 The blocklist builder. How an address's aggregating prefix is found (/24 for IPv4, /64 for IPv6)
 is a parameter, so what is proved holds for every prefix function.
 */
module Blocklist {
  import opened Text
  import opened Seqs
  import opened BlocklistOrder

  /** One observed source address; times count from Go's zero time. */
  datatype Entry = Entry(ip: string, time: int, severity: string, caseId: string)

  const ZERO_TIME: int := 0
  const CIDR_GROUP_THRESHOLD := 3

  type Prefix = string -> Option<string>

  // ----- de-duplication

  /** The distinct non-empty addresses by first appearance. */
  function Order(raw: seq<Entry>): seq<string> {
    if raw == [] then []
    else
      var ips, e := Order(raw[..|raw| - 1]), raw[|raw| - 1];
      if e.ip == "" || e.ip in ips then ips else ips + [e.ip]
  }

  /** Each address's most recent entry, the earliest of them on a tie. */
  function Latest(raw: seq<Entry>): map<string, Entry> {
    if raw == [] then map[]
    else
      var m, e := Latest(raw[..|raw| - 1]), raw[|raw| - 1];
      if e.ip == "" || (e.ip in m && e.time <= m[e.ip].time) then m else m[e.ip := e]
  }

  ghost predicate DistinctIPs(es: seq<Entry>) {
    forall i, j :: 0 <= i < j < |es| ==> es[i].ip != es[j].ip
  }

  function Pick(m: map<string, Entry>, ips: seq<string>): seq<Entry>
    requires forall ip <- ips :: ip in m
  {
    seq(|ips|, i requires 0 <= i < |ips| => m[ips[i]])
  }

  function IPs(raw: seq<Entry>): set<string> {
    set e <- raw | e.ip != "" :: e.ip
  }

  lemma {:induction false} OrderFacts(raw: seq<Entry>)
    ensures NoDup(Order(raw))
    ensures forall ip :: ip in Order(raw) <==> ip in Latest(raw)
    ensures Latest(raw).Keys == IPs(raw)
  {
    if raw != [] {
      var n := |raw| - 1;
      OrderFacts(raw[..n]);
      assert raw == raw[..n] + [raw[n]];
      assert IPs(raw) == IPs(raw[..n]) + if raw[n].ip == "" then {} else {raw[n].ip};
    }
  }

  /** `t` is the time of the last entry for `ip`. */
  ghost predicate IsLatest(raw: seq<Entry>, ip: string, t: int) {
    && (exists e :: e in raw && e.ip == ip && e.time == t)
    && (forall e <- raw :: e.ip == ip ==> e.time <= t)
  }

  lemma {:induction false} LatestFacts(raw: seq<Entry>)
    ensures forall ip <- Latest(raw) :: Latest(raw)[ip].ip == ip && IsLatest(raw, ip, Latest(raw)[ip].time)
  {
    if raw != [] {
      var n := |raw| - 1;
      var m, m' := Latest(raw[..n]), Latest(raw);
      LatestFacts(raw[..n]);
      OrderFacts(raw[..n]);
      assert raw == raw[..n] + [raw[n]];
      forall ip <- m' ensures IsLatest(raw, ip, m'[ip].time) {
        if ip in m {
          assert IsLatest(raw[..n], ip, m[ip].time);
        }
      }
    }
  }

  function Deduped(raw: seq<Entry>): (es: seq<Entry>)
    ensures |es| == |Order(raw)|
    ensures forall i :: 0 <= i < |es| ==> es[i].ip == Order(raw)[i]
  {
    OrderFacts(raw);
    LatestFacts(raw);
    Pick(Latest(raw), Order(raw))
  }

  // ----- grouping

  function Members(es: seq<Entry>, prefix: Prefix, p: string): seq<Entry> {
    Filter(es, (e: Entry) => prefix(e.ip) == Some(p))
  }

  /** The latest time of a group, which starts from the zero time. */
  function LastOf(es: seq<Entry>): int {
    if es == [] then ZERO_TIME
    else
      var last, t := LastOf(es[..|es| - 1]), es[|es| - 1].time;
      if t > last then t else last
  }

  /** The distinct prefixes by first appearance. */
  function GroupOrder(es: seq<Entry>, prefix: Prefix): seq<string> {
    if es == [] then []
    else
      var ps, p := GroupOrder(es[..|es| - 1], prefix), prefix(es[|es| - 1].ip);
      if p.None? || p.value in ps then ps else ps + [p.value]
  }

  lemma {:induction false} GroupOrderFacts(es: seq<Entry>, prefix: Prefix)
    ensures NoDup(GroupOrder(es, prefix))
    ensures forall p :: p in GroupOrder(es, prefix) <==> exists e :: e in es && prefix(e.ip) == Some(p)
  {
    if es != [] {
      var n := |es| - 1;
      GroupOrderFacts(es[..n], prefix);
      assert es == es[..n] + [es[n]];
    }
  }

  predicate IsLarge(es: seq<Entry>, prefix: Prefix, p: string) {
    |Members(es, prefix, p)| >= CIDR_GROUP_THRESHOLD
  }

  predicate InLargeGroup(es: seq<Entry>, prefix: Prefix, ip: string) {
    prefix(ip).Some? && IsLarge(es, prefix, prefix(ip).value)
  }

  /** The entries whose prefix is among the first groups and large. */
  function UsedSoFar(es: seq<Entry>, prefix: Prefix, ps: seq<string>): set<string> {
    set e <- es | InLargeGroup(es, prefix, e.ip) && prefix(e.ip).value in ps :: e.ip
  }

  /** Taking one more prefix adds the addresses of its group, if that is large. */
  lemma UsedStep(es: seq<Entry>, prefix: Prefix, ps: seq<string>, p: string)
    ensures UsedSoFar(es, prefix, ps + [p])
         == UsedSoFar(es, prefix, ps) + if IsLarge(es, prefix, p) then set e <- Members(es, prefix, p) :: e.ip else {}
  {
    forall e ensures e in Members(es, prefix, p) <==> e in es && prefix(e.ip) == Some(p) {
      FilterIn(es, (e: Entry) => prefix(e.ip) == Some(p), e);
    }
  }

  function CidrLine(es: seq<Entry>, prefix: Prefix, p: string): BlockLine {
    BlockLine(p, true, |Members(es, prefix, p)|, LastOf(Members(es, prefix, p)))
  }

  function SingleLine(e: Entry): BlockLine {
    BlockLine(e.ip, false, 1, e.time)
  }

  function CidrLines(es: seq<Entry>, prefix: Prefix, ps: seq<string>): seq<BlockLine> {
    if ps == [] then []
    else
      var p := ps[|ps| - 1];
      CidrLines(es, prefix, ps[..|ps| - 1]) + if IsLarge(es, prefix, p) then [CidrLine(es, prefix, p)] else []
  }

  /** The lines of those entries that no CIDR line covers. */
  function SingleLines(es: seq<Entry>, used: set<string>): seq<BlockLine> {
    if es == [] then []
    else
      var e := es[|es| - 1];
      SingleLines(es[..|es| - 1], used) + if e.ip in used then [] else [SingleLine(e)]
  }

  function UsedBy(es: seq<Entry>, prefix: Prefix, groupCIDR: bool): set<string> {
    set e <- es | groupCIDR && InLargeGroup(es, prefix, e.ip) :: e.ip
  }

  /** All lines, before ranking and limit. */
  function AllLines(raw: seq<Entry>, groupCIDR: bool, prefix: Prefix): seq<BlockLine> {
    var es := Deduped(raw);
    (if groupCIDR then CidrLines(es, prefix, GroupOrder(es, prefix)) else [])
    + SingleLines(es, UsedBy(es, prefix, groupCIDR))
  }

  // ----- what a line stands for, in terms of the raw entries alone

  /** The distinct observed addresses that share prefix `p`. */
  function Sharing(raw: seq<Entry>, prefix: Prefix, p: string): set<string> {
    set ip <- IPs(raw) | prefix(ip) == Some(p)
  }

  predicate Grouped(raw: seq<Entry>, groupCIDR: bool, prefix: Prefix, ip: string) {
    groupCIDR && prefix(ip).Some? && |Sharing(raw, prefix, prefix(ip).value)| >= CIDR_GROUP_THRESHOLD
  }

  /** `t` is the later of the zero time and the last entry whose address is in `ips`. */
  ghost predicate IsLatestOfAny(raw: seq<Entry>, ips: set<string>, t: int) {
    && (t == ZERO_TIME || exists e :: e in raw && e.ip in ips && e.time == t)
    && ZERO_TIME <= t
    && (forall e <- raw :: e.ip in ips ==> e.time <= t)
  }

  /** `line` is what the raw entries call for under its value. */
  ghost predicate Describes(raw: seq<Entry>, groupCIDR: bool, prefix: Prefix, line: BlockLine) {
    if line.isCIDR then
      var ips := Sharing(raw, prefix, line.value);
      groupCIDR && line.count == |ips| >= CIDR_GROUP_THRESHOLD && IsLatestOfAny(raw, ips, line.lastSeen)
    else
      && line.value in IPs(raw)
      && !Grouped(raw, groupCIDR, prefix, line.value)
      && line.count == 1
      && IsLatest(raw, line.value, line.lastSeen)
  }

  // ----- the builder

  datatype Grp = Grp(ips: seq<Entry>, last: int)

  function GroupOf(es: seq<Entry>, prefix: Prefix, p: string): Grp {
    Grp(Members(es, prefix, p), LastOf(Members(es, prefix, p)))
  }

  lemma GroupStep(es: seq<Entry>, e: Entry, prefix: Prefix, p: string)
    ensures var g := GroupOf(es, prefix, p);
      GroupOf(es + [e], prefix, p) ==
      if prefix(e.ip) == Some(p) then Grp(g.ips + [e], if e.time > g.last then e.time else g.last) else g
  {
    assert (es + [e])[..|es|] == es;
    var ips := Members(es, prefix, p);
    assert (ips + [e])[..|ips|] == ips;
  }

  /** The first loop: each address's latest entry, and the addresses by first appearance. */
  method FindLatest(raw: seq<Entry>) returns (latest: map<string, Entry>, order: seq<string>)
    ensures latest == Latest(raw) && order == Order(raw)
  {
    latest, order := map[], [];
    for i := 0 to |raw|
      invariant latest == Latest(raw[..i]) && order == Order(raw[..i])
    {
      assert raw[..i + 1][..i] == raw[..i];
      OrderFacts(raw[..i]);
      var e := raw[i];
      if e.ip == "" {
        continue;
      }
      if e.ip !in latest {
        order := order + [e.ip];
        latest := latest[e.ip := e];
        continue;
      }
      if e.time > latest[e.ip].time {
        latest := latest[e.ip := e];
      }
    }
    assert raw[..|raw|] == raw;
  }

  method Dedupe(raw: seq<Entry>) returns (deduped: seq<Entry>)
    ensures deduped == Deduped(raw)
  {
    var latest, order := FindLatest(raw);
    OrderFacts(raw);
    deduped := [];
    for i := 0 to |order|
      invariant |deduped| == i && forall j :: 0 <= j < i ==> deduped[j] == latest[order[j]]
    {
      deduped := deduped + [latest[order[i]]];
    }
  }

  method Group(deduped: seq<Entry>, prefix: Prefix) returns (groups: map<string, Grp>, groupOrder: seq<string>)
    ensures groupOrder == GroupOrder(deduped, prefix)
    ensures forall p :: p in groups <==> p in groupOrder
    ensures forall p <- groups :: groups[p] == GroupOf(deduped, prefix, p)
  {
    groups, groupOrder := map[], [];
    for i := 0 to |deduped|
      invariant groupOrder == GroupOrder(deduped[..i], prefix)
      invariant forall p :: p in groups <==> p in groupOrder
      invariant forall p :: (if p in groups then groups[p] else Grp([], ZERO_TIME)) == GroupOf(deduped[..i], prefix, p)
    {
      var e := deduped[i];
      var p := prefix(e.ip);
      assert deduped[..i + 1] == deduped[..i] + [e] && deduped[..i + 1][..i] == deduped[..i];
      forall q { GroupStep(deduped[..i], e, prefix, q); }
      if p.Some? {
        var g := Grp([], ZERO_TIME);
        if p.value in groups {
          g := groups[p.value];
        } else {
          groupOrder := groupOrder + [p.value];
        }
        g := g.(ips := g.ips + [e]);
        if e.time > g.last {
          g := g.(last := e.time);
        }
        groups := groups[p.value := g];
      }
    }
    assert deduped[..|deduped|] == deduped;
  }

  method Mark(used: set<string>, ips: seq<Entry>) returns (marked: set<string>)
    ensures marked == used + set e <- ips :: e.ip
  {
    marked := used;
    for j := 0 to |ips|
      invariant marked == used + set e <- ips[..j] :: e.ip
    {
      assert ips[..j + 1] == ips[..j] + [ips[j]];
      marked := marked + {ips[j].ip};
    }
    assert ips[..|ips|] == ips;
  }

  method AggregateGroups(deduped: seq<Entry>, prefix: Prefix) returns (lines: seq<BlockLine>, used: set<string>)
    ensures lines == CidrLines(deduped, prefix, GroupOrder(deduped, prefix))
    ensures used == UsedBy(deduped, prefix, true)
  {
    var groups, groupOrder := Group(deduped, prefix);
    lines, used := [], {};
    for i := 0 to |groupOrder|
      invariant lines == CidrLines(deduped, prefix, groupOrder[..i])
      invariant used == UsedSoFar(deduped, prefix, groupOrder[..i])
    {
      assert groupOrder[..i + 1][..i] == groupOrder[..i];
      var p := groupOrder[i];
      var g := groups[p];
      UsedStep(deduped, prefix, groupOrder[..i], p);
      assert groupOrder[..i + 1] == groupOrder[..i] + [p];
      if |g.ips| >= CIDR_GROUP_THRESHOLD {
        lines := lines + [BlockLine(p, true, |g.ips|, g.last)];
        used := Mark(used, g.ips);
      }
    }
    assert groupOrder[..|groupOrder|] == groupOrder;
    forall e <- deduped | prefix(e.ip).Some? ensures prefix(e.ip).value in groupOrder {
      GroupOrderFacts(deduped, prefix);
    }
  }

  method BuildBlocklistLines(raw: seq<Entry>, groupCIDR: bool, limit: int, prefix: Prefix)
    returns (lines: seq<BlockLine>)
    ensures lines == Cut(StableSort(AllLines(raw, groupCIDR, prefix)), limit)
  {
    var deduped := Dedupe(raw);
    lines := [];
    var used: set<string> := {};
    if groupCIDR {
      lines, used := AggregateGroups(deduped, prefix);
    }
    ghost var cidrs := lines;
    for i := 0 to |deduped|
      invariant lines == cidrs + SingleLines(deduped[..i], used)
    {
      assert deduped[..i + 1][..i] == deduped[..i];
      if deduped[i].ip !in used {
        lines := lines + [BlockLine(deduped[i].ip, false, 1, deduped[i].time)];
      }
    }
    assert deduped[..|deduped|] == deduped;
    assert !groupCIDR ==> used == UsedBy(deduped, prefix, false) && cidrs == [];
    assert lines == AllLines(raw, groupCIDR, prefix);
    lines := StableSort(lines);
    if limit > 0 && |lines| > limit {
      lines := lines[..limit];
    }
  }
}
