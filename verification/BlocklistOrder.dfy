/** The ranking of blocklist lines and the stable sort by it. */
module BlocklistOrder {
  import opened Seqs

  /** A single IP or an aggregated CIDR; times count from Go's zero time. */
  datatype BlockLine = BlockLine(value: string, isCIDR: bool, count: nat, lastSeen: int)

  /** CIDR lines first, then larger, then more recent. */
  predicate Outranks(a: BlockLine, b: BlockLine) {
    if a.isCIDR != b.isCIDR then a.isCIDR
    else if a.count != b.count then a.count > b.count
    else a.lastSeen > b.lastSeen
  }

  predicate SameRank(a: BlockLine, b: BlockLine) {
    !Outranks(a, b) && !Outranks(b, a)
  }

  ghost predicate Ranked(xs: seq<BlockLine>) {
    forall i, j :: 0 <= i < j < |xs| ==> !Outranks(xs[j], xs[i])
  }

  /** The lines that rank with `x`, in order. */
  function Peers(xs: seq<BlockLine>, x: BlockLine): seq<BlockLine> {
    Filter(xs, y => SameRank(x, y))
  }

  /** The comparator is a strict weak order. */
  lemma StrictWeakOrder(a: BlockLine, b: BlockLine, c: BlockLine)
    ensures !Outranks(a, a)
    ensures Outranks(a, b) ==> !Outranks(b, a)
    ensures Outranks(a, b) && Outranks(b, c) ==> Outranks(a, c)
    ensures SameRank(a, b) && SameRank(b, c) ==> SameRank(a, c)
    ensures Outranks(a, b) ==> Outranks(a, c) || Outranks(c, b)
  {
  }

  /** Moves `x` from the end towards the front past every line it outranks. */
  function Insert(xs: seq<BlockLine>, x: BlockLine): seq<BlockLine> {
    if xs != [] && Outranks(x, xs[|xs| - 1])
    then Insert(xs[..|xs| - 1], x) + [xs[|xs| - 1]]
    else xs + [x]
  }

  function StableSort(xs: seq<BlockLine>): seq<BlockLine> {
    if xs == [] then [] else Insert(StableSort(xs[..|xs| - 1]), xs[|xs| - 1])
  }

  lemma {:induction false} InsertPermutes(xs: seq<BlockLine>, x: BlockLine)
    ensures multiset(Insert(xs, x)) == multiset(xs) + multiset{x}
  {
    if xs != [] && Outranks(x, xs[|xs| - 1]) {
      InsertPermutes(xs[..|xs| - 1], x);
      assert xs == xs[..|xs| - 1] + [xs[|xs| - 1]];
    }
  }

  lemma InsertIn(xs: seq<BlockLine>, x: BlockLine, y: BlockLine)
    requires y in Insert(xs, x)
    ensures y in xs || y == x
  {
    InsertPermutes(xs, x);
    assert y in multiset(Insert(xs, x));
  }

  lemma {:induction false} InsertRanks(xs: seq<BlockLine>, x: BlockLine)
    requires Ranked(xs)
    ensures Ranked(Insert(xs, x))
  {
    if xs != [] {
      var n := |xs| - 1;
      if Outranks(x, xs[n]) {
        InsertRanks(xs[..n], x);
        var ys := Insert(xs[..n], x);
        forall i | 0 <= i < |ys| ensures !Outranks(xs[n], ys[i]) {
          InsertIn(xs[..n], x, ys[i]);
        }
      } else {
        forall i | 0 <= i < n ensures !Outranks(x, xs[i]) {
          assert !Outranks(xs[n], xs[i]);
        }
      }
    }
  }

  lemma {:induction false} InsertKeepsPeers(xs: seq<BlockLine>, x: BlockLine, c: BlockLine)
    ensures Peers(Insert(xs, x), c) == Peers(xs, c) + if SameRank(c, x) then [x] else []
  {
    if xs != [] && Outranks(x, xs[|xs| - 1]) {
      var n := |xs| - 1;
      var ys := Insert(xs[..n], x);
      InsertKeepsPeers(xs[..n], x, c);
      assert (ys + [xs[n]])[..|ys|] == ys;
    } else {
      assert (xs + [x])[..|xs|] == xs;
    }
  }

  lemma {:induction false} SortRanks(xs: seq<BlockLine>)
    ensures Ranked(StableSort(xs))
  {
    if xs != [] {
      SortRanks(xs[..|xs| - 1]);
      InsertRanks(StableSort(xs[..|xs| - 1]), xs[|xs| - 1]);
    }
  }

  lemma BagOfLast(xs: seq<BlockLine>)
    requires xs != []
    ensures multiset(xs) == multiset(xs[..|xs| - 1]) + multiset{xs[|xs| - 1]}
  {
    assert xs == xs[..|xs| - 1] + [xs[|xs| - 1]];
  }

  lemma {:induction false} SortPermutes(xs: seq<BlockLine>)
    ensures multiset(StableSort(xs)) == multiset(xs)
  {
    if xs != [] {
      var n := |xs| - 1;
      SortPermutes(xs[..n]);
      InsertPermutes(StableSort(xs[..n]), xs[n]);
      BagOfLast(xs);
    }
  }

  lemma {:induction false} SortKeepsPeers(xs: seq<BlockLine>, c: BlockLine)
    ensures Peers(StableSort(xs), c) == Peers(xs, c)
  {
    if xs != [] {
      var n := |xs| - 1;
      SortKeepsPeers(xs[..n], c);
      InsertKeepsPeers(StableSort(xs[..n]), xs[n], c);
    }
  }

  /** The sort returns a ranked permutation and leaves lines of equal rank in their order. */
  lemma StableSortCorrect(xs: seq<BlockLine>)
    ensures Ranked(StableSort(xs))
    ensures multiset(StableSort(xs)) == multiset(xs)
    ensures forall c :: Peers(StableSort(xs), c) == Peers(xs, c)
  {
    SortRanks(xs);
    SortPermutes(xs);
    forall c ensures Peers(StableSort(xs), c) == Peers(xs, c) {
      SortKeepsPeers(xs, c);
    }
  }

  lemma PeersHead(xs: seq<BlockLine>, c: BlockLine)
    requires xs != []
    ensures Peers(xs, c) == (if SameRank(c, xs[0]) then [xs[0]] else []) + Peers(xs[1..], c)
  {
    assert xs == [xs[0]] + xs[1..];
    FilterAppend([xs[0]], xs[1..], y => SameRank(c, y));
    assert [xs[0]][..0] == [];
  }

  lemma HeadRank(xs: seq<BlockLine>, ys: seq<BlockLine>)
    requires xs != [] && Ranked(ys) && Peers(xs, xs[0]) == Peers(ys, xs[0])
    ensures ys != [] && !Outranks(xs[0], ys[0])
  {
    PeersHead(xs, xs[0]);
    FilterIn(ys, y => SameRank(xs[0], y), xs[0]);
    var i :| 0 <= i < |ys| && ys[i] == xs[0];
    assert i == 0 || !Outranks(ys[i], ys[0]);
  }

  /** Any ranked sequence with the same peers is that one: a stable sort has only one answer. */
  lemma {:induction false} RankedByPeers(xs: seq<BlockLine>, ys: seq<BlockLine>)
    requires Ranked(xs) && Ranked(ys)
    requires forall c :: Peers(xs, c) == Peers(ys, c)
    ensures xs == ys
  {
    if xs != [] {
      HeadRank(xs, ys);
    }
    if ys != [] {
      HeadRank(ys, xs);
    }
    if xs != [] {
      PeersHead(xs, xs[0]);
      PeersHead(ys, xs[0]);
      assert xs[0] == Peers(xs, xs[0])[0] == Peers(ys, xs[0])[0] == ys[0];
      forall c ensures Peers(xs[1..], c) == Peers(ys[1..], c) {
        PeersHead(xs, c);
        PeersHead(ys, c);
        var k := if SameRank(c, xs[0]) then 1 else 0;
        assert Peers(xs[1..], c) == Peers(xs, c)[k..] == Peers(ys, c)[k..] == Peers(ys[1..], c);
      }
      RankedByPeers(xs[1..], ys[1..]);
      assert xs == [xs[0]] + xs[1..] && ys == [ys[0]] + ys[1..];
    }
  }

  /** So any correct stable sort returns what this one returns. */
  lemma StableSortUnique(xs: seq<BlockLine>, ys: seq<BlockLine>)
    requires Ranked(ys)
    requires forall c :: Peers(ys, c) == Peers(xs, c)
    ensures ys == StableSort(xs)
  {
    StableSortCorrect(xs);
    RankedByPeers(StableSort(xs), ys);
  }
}
