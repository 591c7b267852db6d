/** IPv4 addresses as text and as bits, after the dotted-decimal form that Go's net package reads and writes. */
module Ipv4 {
  import opened Text
  import opened Bits
  import opened Decimal

  datatype Quad = Quad(a: Octet, b: Octet, c: Octet, d: Octet)

  // ----- dotted quads

  /** One field: digits, no leading zero, at most 255. */
  function ParseOctet(s: string): Option<Octet> {
    if s == "" || exists c :: c in s && !IsDigit(c) then None
    else if s[0] == '0' && |s| > 1 then None
    else if Value(s) > 255 then None
    else Some(Value(s))
  }

  function ParseIPv4(s: string): Option<Quad> {
    var p := Split(s, '.');
    if |p| != 4 then None
    else
      match (ParseOctet(p[0]), ParseOctet(p[1]), ParseOctet(p[2]), ParseOctet(p[3]))
      case (Some(a), Some(b), Some(c), Some(d)) => Some(Quad(a, b, c, d))
      case _ => None
  }

  function Fields(q: Quad): seq<string> {
    [Dec(q.a), Dec(q.b), Dec(q.c), Dec(q.d)]
  }

  function Print(q: Quad): string {
    Join(Fields(q), ".")
  }

  lemma OctetExact(s: string, b: Octet)
    ensures ParseOctet(s) == Some(b) <==> s == Dec(b)
  {
    ValueOfDec(b);
    DecLeads(b);
    assert Dec(0) == "0";
    if ParseOctet(s) == Some(b) {
      DecOfValue(s);
    }
  }

  /** Parsing reads back exactly what printing writes: a text parses to `q` if and only if it is `Print(q)`. */
  lemma ParseExact(s: string, q: Quad)
    ensures ParseIPv4(s) == Some(q) <==> s == Print(q)
  {
    var p, f := Split(s, '.'), Fields(q);
    JoinSplit(s, '.');
    SplitJoin(f, '.');
    assert s == Print(q) <==> p == f;
    if |p| == 4 {
      OctetExact(p[0], q.a);
      OctetExact(p[1], q.b);
      OctetExact(p[2], q.c);
      OctetExact(p[3], q.d);
      assert p == f <==> p[0] == f[0] && p[1] == f[1] && p[2] == f[2] && p[3] == f[3];
    }
  }

  // ----- prefixes as masks

  /** Byte `i` of the mask with `ones` leading one bits. */
  function MaskByte(ones: nat, i: nat): bv8 {
    if ones >= 8 * (i + 1) then 0xFF
    else if ones <= 8 * i then 0x00
    else !(0xFF >> (ones - 8 * i) as bv8)
  }

  function Mask(q: Quad, ones: nat): Quad {
    Quad(And(q.a, MaskByte(ones, 0)), And(q.b, MaskByte(ones, 1)), And(q.c, MaskByte(ones, 2)), And(q.d, MaskByte(ones, 3)))
  }

  datatype Net = Net(network: Quad, ones: nat)

  predicate Contains(net: Net, q: Quad) {
    Mask(q, net.ones) == Mask(net.network, net.ones)
  }

  /** RFC 1918 section 3, loopback and link-local; an IPv6 range contains no IPv4 address. */
  const PRIVATE_RANGES: seq<Net> :=
    [Net(Quad(10, 0, 0, 0), 8), Net(Quad(172, 16, 0, 0), 12), Net(Quad(192, 168, 0, 0), 16),
     Net(Quad(127, 0, 0, 0), 8), Net(Quad(169, 254, 0, 0), 16)]

  /** The collector's classification of an address. */
  predicate IsExternalAddress(q: Quad) {
    !exists net :: net in PRIVATE_RANGES && Contains(net, q)
  }

  /** The aggregating prefix of an IPv4 text (RFC 4632 section 3.1). */
  function CidrPrefix(s: string): Option<string> {
    match ParseIPv4(s)
    case None => None
    case Some(q) => Some(Print(Mask(q, 24)) + "/24")
  }
}
