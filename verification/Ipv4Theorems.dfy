/** Classifying and aggregating IPv4 addresses by text agrees with doing so by bits. */
module Ipv4Theorems {
  import opened Text
  import opened Bits
  import opened Decimal
  import opened Ipv4
  import opened SyslogMachine
  import Rules

  // ----- /24 by text and by mask

  lemma MaskBytes()
    ensures MaskByte(8, 0) == 0xFF && MaskByte(8, 1) == MaskByte(8, 2) == MaskByte(8, 3) == 0x00
    ensures MaskByte(12, 0) == 0xFF && MaskByte(12, 1) == 0xF0 && MaskByte(12, 2) == MaskByte(12, 3) == 0x00
    ensures MaskByte(16, 0) == MaskByte(16, 1) == 0xFF && MaskByte(16, 2) == MaskByte(16, 3) == 0x00
    ensures MaskByte(24, 0) == MaskByte(24, 1) == MaskByte(24, 2) == 0xFF && MaskByte(24, 3) == 0x00
  {
  }

  lemma AndBytes(x: Octet)
    ensures And(x, 0xFF) == x && And(x, 0x00) == 0 && And(x, 0xF0) == x - x % 16
  {
    AndFull(x);
    AndHigh(x);
  }

  lemma MaskOctets(q: Quad)
    ensures Mask(q, 8) == Quad(q.a, 0, 0, 0)
    ensures Mask(q, 12) == Quad(q.a, q.b - q.b % 16, 0, 0)
    ensures Mask(q, 16) == Quad(q.a, q.b, 0, 0)
    ensures Mask(q, 24) == Quad(q.a, q.b, q.c, 0)
  {
    MaskBytes();
    AndBytes(q.a);
    AndBytes(q.b);
    AndBytes(q.c);
    AndBytes(q.d);
  }

  lemma SubnetOfPrint(q: Quad)
    ensures SubnetPrefix(Print(q)) == Join(Fields(q)[..3], ".")
  {
    SplitJoin(Fields(q), '.');
  }

  lemma JoinFour(w: string, x: string, y: string, z: string)
    ensures Join([w, x, y, z], ".") == Join([w, x, y], ".") + "." + z
  {
    JoinCons(w, [x, y, z], ".");
    JoinCons(x, [y, z], ".");
    JoinCons(y, [z], ".");
    JoinCons(w, [x, y], ".");
    JoinCons(x, [y], ".");
    assert [w, x, y, z] == [w] + [x, y, z] && [x, y, z] == [x] + [y, z] && [y, z] == [y] + [z];
    assert [w, x, y] == [w] + [x, y] && [x, y] == [x] + [y];
  }

  /** The /24 cut out of the text is the /24 of the mask, for every text that is an IPv4 address. */
  lemma SubnetIsCidrPrefix(s: string)
    requires ParseIPv4(s).Some?
    ensures CidrPrefix(s) == Some(SubnetPrefix(s) + ".0/24")
  {
    var q := ParseIPv4(s).value;
    var x, y, z := Dec(q.a), Dec(q.b), Dec(q.c);
    ParseExact(s, q);
    SubnetOfPrint(q);
    assert Fields(q)[..3] == [x, y, z];
    MaskOctets(q);
    JoinFour(x, y, z, "0");
    assert Dec(0) == "0" && Fields(Mask(q, 24)) == [x, y, z, "0"];
    var t := Join([x, y, z], ".");
    assert t + "." + "0" + "/24" == t + ".0/24";
  }

  lemma DecInjective(m: nat, n: nat)
    ensures Dec(m) == Dec(n) <==> m == n
  {
    ValueOfDec(m);
    ValueOfDec(n);
  }

  lemma SameThree(q: Quad, q': Quad)
    ensures Fields(q)[..3] == Fields(q')[..3] <==> q.a == q'.a && q.b == q'.b && q.c == q'.c
  {
    var f, f' := Fields(q)[..3], Fields(q')[..3];
    assert f == f' <==> f[0] == f'[0] && f[1] == f'[1] && f[2] == f'[2];
    DecInjective(q.a, q'.a);
    DecInjective(q.b, q'.b);
    DecInjective(q.c, q'.c);
  }

  lemma SubnetByFields(q: Quad, q': Quad)
    ensures SubnetPrefix(Print(q)) == SubnetPrefix(Print(q')) <==> q.a == q'.a && q.b == q'.b && q.c == q'.c
  {
    SubnetOfPrint(q);
    SubnetOfPrint(q');
    SplitJoin(Fields(q)[..3], '.');
    SplitJoin(Fields(q')[..3], '.');
    SameThree(q, q');
  }

  /** Two sources fall under the same case key subnet if and only if their top 24 bits agree. */
  lemma SameSubnet(s: string, s': string)
    requires ParseIPv4(s).Some? && ParseIPv4(s').Some?
    ensures SubnetPrefix(s) == SubnetPrefix(s') <==> Mask(ParseIPv4(s).value, 24) == Mask(ParseIPv4(s').value, 24)
  {
    var q, q' := ParseIPv4(s).value, ParseIPv4(s').value;
    ParseExact(s, q);
    ParseExact(s', q');
    SubnetByFields(q, q');
    MaskOctets(q);
    MaskOctets(q');
  }

  // ----- private ranges by text and by mask

  /** A dotted prefix matches field by field. */
  lemma PrefixPeel(head: string, rest: string, want: string, wantRest: string)
    requires '.' !in head && '.' !in want
    ensures HasPrefix(head + "." + rest, want + "." + wantRest) <==> head == want && HasPrefix(rest, wantRest)
  {
    var s, p := head + "." + rest, want + "." + wantRest;
    if HasPrefix(s, p) {
      var tail := s[|p|..];
      assert s == want + ['.'] + (wantRest + tail);
      IndexOfHead(head, '.', rest);
      IndexOfHead(want, '.', wantRest + tail);
      assert s[..|head|] == head && s[..|want|] == want;
      assert rest == s[|head| + 1..] == wantRest + tail;
    }
    if head == want && HasPrefix(rest, wantRest) {
      assert s == p + rest[|wantRest|..];
    }
  }

  lemma PrintFields(q: Quad)
    ensures var f := Fields(q); Print(q) == f[0] + "." + (f[1] + "." + (f[2] + "." + f[3]))
  {
    var f := Fields(q);
    JoinCons(f[0], [f[1], f[2], f[3]], ".");
    JoinCons(f[1], [f[2], f[3]], ".");
    JoinCons(f[2], [f[3]], ".");
    assert f == [f[0]] + [f[1], f[2], f[3]] && [f[1], f[2], f[3]] == [f[1]] + [f[2], f[3]] && [f[2], f[3]] == [f[2]] + [f[3]];
  }

  lemma OnePrefix(q: Quad, x: nat)
    ensures HasPrefix(Print(q), Dec(x) + ".") <==> q.a == x
  {
    var f := Fields(q);
    PrintFields(q);
    PrefixPeel(f[0], f[1] + "." + (f[2] + "." + f[3]), Dec(x), "");
    assert Dec(x) + "." + "" == Dec(x) + ".";
    DecInjective(q.a, x);
  }

  lemma TwoPrefix(q: Quad, x: nat, y: nat)
    ensures HasPrefix(Print(q), Dec(x) + "." + Dec(y) + ".") <==> q.a == x && q.b == y
  {
    var f := Fields(q);
    PrintFields(q);
    PrefixPeel(f[0], f[1] + "." + (f[2] + "." + f[3]), Dec(x), Dec(y) + ".");
    PrefixPeel(f[1], f[2] + "." + f[3], Dec(y), "");
    assert Dec(y) + "." + "" == Dec(y) + ".";
    assert Dec(x) + "." + (Dec(y) + ".") == Dec(x) + "." + Dec(y) + ".";
    DecInjective(q.a, x);
    DecInjective(q.b, y);
  }

  lemma ZeroPrefix(q: Quad)
    ensures HasPrefix(Print(q), "0.0.0.0") <==> q == Quad(0, 0, 0, 0)
  {
    var f := Fields(q);
    PrintFields(q);
    PrefixPeel(f[0], f[1] + "." + (f[2] + "." + f[3]), "0", "0.0.0");
    PrefixPeel(f[1], f[2] + "." + f[3], "0", "0.0");
    PrefixPeel(f[2], f[3], "0", "0");
    assert "0.0.0.0" == "0" + "." + "0.0.0" && "0.0.0" == "0" + "." + "0.0" && "0.0" == "0" + "." + "0";
    assert Dec(0) == "0";
    DecInjective(q.a, 0);
    DecInjective(q.b, 0);
    DecInjective(q.c, 0);
    DecLeads(q.d);
    assert HasPrefix(f[3], "0") <==> f[3][0] == '0';
  }

  /** What the prefix table matches among dotted quads. */
  predicate LocalQuad(q: Quad) {
    || q.a == 10
    || (q.a == 172 && 16 <= q.b <= 31)
    || (q.a == 192 && q.b == 168)
    || q.a == 127
    || (q.a == 169 && q.b == 254)
  }

  lemma ContainsExact(q: Quad, network: Quad)
    ensures Contains(Net(network, 8), q) <==> q.a == network.a
    ensures Contains(Net(network, 12), q) <==> q.a == network.a && q.b / 16 == network.b / 16
    ensures Contains(Net(network, 16), q) <==> q.a == network.a && q.b == network.b
  {
    MaskOctets(q);
    MaskOctets(network);
  }

  lemma MaskLocal(q: Quad)
    ensures IsExternalAddress(q) <==> !LocalQuad(q)
  {
    var r := PRIVATE_RANGES;
    ContainsExact(q, r[0].network);
    ContainsExact(q, r[1].network);
    ContainsExact(q, r[2].network);
    ContainsExact(q, r[3].network);
    ContainsExact(q, r[4].network);
    assert forall net :: net in r <==> net == r[0] || net == r[1] || net == r[2] || net == r[3] || net == r[4];
  }

  // ----- the prefix table

  lemma DecTwo(n: nat)
    requires 10 <= n < 100
    ensures Dec(n) == [Digit(n / 10), Digit(n % 10)]
  {
    assert Dec(n / 10) == [Digit(n / 10)];
  }

  lemma DecThree(n: nat)
    requires 100 <= n < 1000
    ensures Dec(n) == [Digit(n / 100), Digit(n / 10 % 10), Digit(n % 10)]
  {
    DecTwo(n / 10);
  }

  lemma TableNumbers()
    ensures Dec(10) == "10" && Dec(127) == "127" && Dec(169) == "169" && Dec(172) == "172" && Dec(192) == "192"
    ensures Dec(168) == "168" && Dec(254) == "254"
  {
    DecTwo(10);
    DecThree(127);
    DecThree(168);
    DecThree(169);
    DecThree(172);
    DecThree(192);
    DecThree(254);
  }

  /** Entries 1 to 16 of the table spell 172.16 to 172.31. */
  lemma TableEntry(i: nat)
    requires 1 <= i <= 16
    ensures Rules.LOCAL_PREFIXES[i] == Dec(172) + "." + Dec(i + 15) + "."
  {
    DecThree(172);
    DecTwo(i + 15);
  }

  predicate In172(ip: string) {
    exists i :: 1 <= i <= 16 && HasPrefix(ip, Rules.LOCAL_PREFIXES[i])
  }

  /** The table is: 10, the sixteen 172 entries, 192.168, 127, 169.254, 0.0.0.0 and ::1. */
  lemma TableMatches(ip: string)
    requires ip != ""
    ensures !Rules.IsExternal(ip) <==>
      || HasPrefix(ip, "10.") || In172(ip) || HasPrefix(ip, "192.168.") || HasPrefix(ip, "127.")
      || HasPrefix(ip, "169.254.") || HasPrefix(ip, "0.0.0.0") || HasPrefix(ip, "::1")
  {
    var t := Rules.LOCAL_PREFIXES;
    assert |t| == 22 && t[0] == "10." && t[17] == "192.168." && t[18] == "127." && t[19] == "169.254."
        && t[20] == "0.0.0.0" && t[21] == "::1";
    assert forall p :: p in t <==> exists i :: 0 <= i < |t| && t[i] == p;
  }

  lemma Quad172(q: Quad)
    ensures In172(Print(q)) <==> q.a == 172 && 16 <= q.b <= 31
  {
    forall i: nat | 1 <= i <= 16
      ensures HasPrefix(Print(q), Rules.LOCAL_PREFIXES[i]) <==> q.a == 172 && q.b == i + 15
    {
      TableEntry(i);
      TwoPrefix(q, 172, i + 15);
    }
    if q.a == 172 && 16 <= q.b <= 31 {
      assert HasPrefix(Print(q), Rules.LOCAL_PREFIXES[q.b - 15]);
    }
  }

  lemma PrefixLocal(q: Quad)
    ensures !Rules.IsExternal(Print(q)) <==> LocalQuad(q) || q == Quad(0, 0, 0, 0)
  {
    var s := Print(q);
    PrintFields(q);
    assert IsDigit(s[0]);
    TableMatches(s);
    TableNumbers();
    OnePrefix(q, 10);
    OnePrefix(q, 127);
    TwoPrefix(q, 192, 168);
    TwoPrefix(q, 169, 254);
    assert "192" + "." + "168" + "." == "192.168." && "169" + "." + "254" + "." == "169.254.";
    ZeroPrefix(q);
    Quad172(q);
    assert !HasPrefix(s, "::1");
  }

  /**
   On every text that is an IPv4 address the correlator's prefix test and the collector's mask test
   give the same answer, except on 0.0.0.0, where only the prefix test calls it local.
   */
  lemma ExternalAgrees(s: string)
    requires ParseIPv4(s).Some?
    ensures var q := ParseIPv4(s).value;
      (Rules.IsExternal(s) <==> IsExternalAddress(q)) <==> q != Quad(0, 0, 0, 0)
  {
    var q := ParseIPv4(s).value;
    ParseExact(s, q);
    PrefixLocal(q);
    MaskLocal(q);
  }
}
