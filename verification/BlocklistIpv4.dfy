/** The blocklist with the prefixes of IPv4 addresses, and a group whose last-seen time is wrong. */
module BlocklistIpv4 {
  import opened Text
  import opened Bits
  import opened Ipv4
  import opened Ipv4Theorems
  import opened BlocklistOrder
  import opened Blocklist
  import opened BlocklistTheorems

  const BY_CIDR: Prefix := (ip: string) => CidrPrefix(ip)

  lemma PrintInjective(q: Quad, q': Quad)
    ensures Print(q) == Print(q') <==> q == q'
  {
    ParseExact(Print(q), q);
    ParseExact(Print(q'), q');
  }

  /** A prefix names a network: two addresses have one prefix if and only if their top 24 bits agree. */
  lemma SamePrefix(s: string, q: Quad, net: Quad)
    requires ParseIPv4(s) == Some(q) && net == Mask(net, 24)
    ensures CidrPrefix(s) == Some(Print(net) + "/24") <==> Mask(q, 24) == net
  {
    PrintInjective(Mask(q, 24), net);
    var a, b := Print(Mask(q, 24)), Print(net);
    if a + "/24" == b + "/24" {
      assert |a| == |b|;
      assert a == (a + "/24")[..|a|] == b;
    }
  }

  lemma MaskTwice(q: Quad)
    ensures Mask(Mask(q, 24), 24) == Mask(q, 24)
  {
    MaskOctets(q);
    MaskOctets(Mask(q, 24));
  }

  /**
   A CIDR line's value is a masked network, and it covers exactly the observed IPv4 addresses whose top
   24 bits are that network's.
   */
  lemma CidrLineCovers(raw: seq<Entry>, line: BlockLine) returns (net: Quad)
    requires line in AllLines(raw, true, BY_CIDR) && line.isCIDR
    ensures net == Mask(net, 24) && line.value == Print(net) + "/24"
    ensures forall ip :: ip in Covered(raw, BY_CIDR, line) <==>
                         ip in IPs(raw) && ParseIPv4(ip).Some? && Mask(ParseIPv4(ip).value, 24) == net
  {
    LinesExact(raw, true, BY_CIDR);
    assert Describes(raw, true, BY_CIDR, line);
    var ips := Sharing(raw, BY_CIDR, line.value);
    var first :| first in ips;
    net := Mask(ParseIPv4(first).value, 24);
    MaskTwice(ParseIPv4(first).value);
    forall ip ensures ip in Covered(raw, BY_CIDR, line) <==>
                      ip in IPs(raw) && ParseIPv4(ip).Some? && Mask(ParseIPv4(ip).value, 24) == net
    {
      if ParseIPv4(ip).Some? {
        SamePrefix(ip, ParseIPv4(ip).value, net);
      }
    }
  }

  // ----- entries before the zero time

  /** Three addresses of one prefix, all seen before the zero time: their line says the zero time. */
  lemma EarlyGroup(x: Entry, y: Entry, z: Entry, prefix: Prefix, p: string) returns (raw: seq<Entry>)
    requires x.ip != "" && y.ip != "" && z.ip != "" && x.ip != y.ip && x.ip != z.ip && y.ip != z.ip
    requires prefix(x.ip) == prefix(y.ip) == prefix(z.ip) == Some(p)
    requires x.time < ZERO_TIME && y.time < ZERO_TIME && z.time < ZERO_TIME
    ensures multiset(raw) == multiset{x, y, z} && forall e <- raw :: e.time < ZERO_TIME
    ensures BlockLine(p, true, 3, ZERO_TIME) in AllLines(raw, true, prefix)
  {
    raw := [x, y, z];
    var line := BlockLine(p, true, 3, ZERO_TIME);
    assert x in raw && y in raw && z in raw;
    assert Sharing(raw, prefix, p) == {x.ip, y.ip, z.ip};
    LinesExact(raw, true, prefix);
    assert Describes(raw, true, prefix, line);
  }

  /** Address `d` of a network, seen before the zero time. */
  function EarlyEntry(net: Quad, d: Octet): Entry {
    Entry(Print(net.(d := d)), -1, "low", "case")
  }

  lemma EarlyPrefix(net: Quad, d: Octet)
    requires net == Mask(net, 24)
    ensures EarlyEntry(net, d).ip != "" && CidrPrefix(EarlyEntry(net, d).ip) == Some(Print(net) + "/24")
  {
    var q := net.(d := d);
    ParseExact(Print(q), q);
    ParseExact("", q);
    MaskOctets(q);
    MaskOctets(net);
    SamePrefix(Print(q), q, net);
  }

  /** Any network can get a CIDR line whose last-seen time is later than every entry. */
  lemma LastSeenTooLate(net: Quad) returns (raw: seq<Entry>, line: BlockLine)
    requires net == Mask(net, 24)
    ensures line in AllLines(raw, true, BY_CIDR) && line.isCIDR && line.value == Print(net) + "/24"
    ensures forall e <- raw :: e.time < line.lastSeen
  {
    var x, y, z, p := EarlyEntry(net, 1), EarlyEntry(net, 2), EarlyEntry(net, 3), Print(net) + "/24";
    EarlyPrefix(net, 1);
    EarlyPrefix(net, 2);
    EarlyPrefix(net, 3);
    PrintInjective(net.(d := 1), net.(d := 2));
    PrintInjective(net.(d := 1), net.(d := 3));
    PrintInjective(net.(d := 2), net.(d := 3));
    raw := EarlyGroup(x, y, z, BY_CIDR, p);
    line := BlockLine(p, true, 3, ZERO_TIME);
  }
}
