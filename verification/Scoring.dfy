/** The score of a cluster of `n` events on `d` real ports; floats are modelled by reals. */
module Scoring {
  import opened Ports

  function Min(a: real, b: real): real {
    if a > b then b else a
  }

  /** Event count alone when there are no port data, else port diversity. */
  function Score(n: nat, d: nat): real {
    if n == 0 then 0.0
    else if d == 0 then Min(n as real / (n + 5) as real, 0.80)
    else Min((n * d) as real / (n + d + 1) as real, 1.0)
  }

  function SeverityOf(score: real): Severity {
    if score >= 0.75 then High else if score >= 0.45 then Medium else Low
  }

  lemma Scale(x: real, y: real, k: real)
    requires k > 0.0
    ensures x <= y <==> x * k <= y * k
  {
    if x <= y {
      assert (y - x) * k >= 0.0;
    } else {
      assert (x - y) * k > 0.0;
    }
  }

  /** Quotients compare as their cross products. */
  lemma Quotients(a: int, b: int, c: int, d: int)
    requires b > 0 && d > 0
    ensures a as real / b as real <= c as real / d as real <==> a * d <= c * b
  {
    var x, y, k := a as real / b as real, c as real / d as real, (b * d) as real;
    assert k == b as real * d as real;
    Scale(x, y, k);
    assert x * k == (x * b as real) * d as real == a as real * d as real == (a * d) as real;
    assert y * k == (y * d as real) * b as real == c as real * b as real == (c * b) as real;
  }

  lemma MulLe(a: int, b: int, c: nat)
    requires a <= b
    ensures a * c <= b * c
  {
  }

  lemma ScoreInRange(n: nat, d: nat)
    ensures 0.0 <= Score(n, d) <= 1.0
  {
    if n > 0 {
      if d == 0 {
        Quotients(0, 1, n, n + 5);
      } else {
        assert 0 <= n * d;
        Quotients(0, 1, n * d, n + d + 1);
      }
    }
  }

  /** Raising one of two symmetric counts never lowers their quotient. */
  lemma CrossOne(x: nat, x': nat, y: nat)
    requires x <= x'
    ensures (x * y) * (x' + y + 1) <= (x' * y) * (x + y + 1)
  {
    var k := y + 1;
    MulLe(x, x', k);
    assert x * (x' + k) == x * x' + x * k;
    assert x' * (x + k) == x' * x + x' * k;
    MulLe(x * (x' + k), x' * (x + k), y);
    assert (x * y) * (x' + k) == x * (x' + k) * y;
    assert (x' * y) * (x + k) == x' * (x + k) * y;
  }

  lemma MoreEvents(n: nat, n': nat, d: nat)
    requires 1 <= n <= n' && 1 <= d
    ensures Score(n, d) <= Score(n', d)
  {
    CrossOne(n, n', d);
    Quotients(n * d, n + d + 1, n' * d, n' + d + 1);
  }

  lemma MorePorts(n: nat, d: nat, d': nat)
    requires 1 <= n && 1 <= d <= d'
    ensures Score(n, d) <= Score(n, d')
  {
    CrossOne(d, d', n);
    assert d * n == n * d && d' * n == n * d';
    Quotients(n * d, n + d + 1, n * d', n + d' + 1);
  }

  lemma FirstPort(n: nat)
    requires 1 <= n
    ensures Score(n, 0) <= Score(n, 1)
  {
    assert n * 1 == n;
    Quotients(n, n + 5, n, n + 2);
  }

  /** More events or more ports never lower the score. */
  lemma ScoreMonotone(n: nat, d: nat, n': nat, d': nat)
    requires n <= n' && d <= d'
    ensures Score(n, d) <= Score(n', d')
  {
    ScoreInRange(n', d');
    if n > 0 {
      if d == 0 {
        Quotients(n, n + 5, n', n' + 5);
      } else {
        MoreEvents(n, n', d);
      }
      if d == 0 && d' > 0 {
        FirstPort(n');
        MorePorts(n', 1, d');
      } else if d > 0 {
        MorePorts(n', d, d');
      }
    }
  }

  lemma SeverityMonotone(n: nat, d: nat, n': nat, d': nat)
    requires n <= n' && d <= d'
    ensures Rank(SeverityOf(Score(n, d))) <= Rank(SeverityOf(Score(n', d')))
  {
    ScoreMonotone(n, d, n', d');
  }

  /** The rating of every cluster that reaches the default threshold, by its two counts. */
  lemma SeverityClosedForm(n: nat, d: nat)
    requires n >= 3
    ensures d >= 2 ==> Score(n, d) == 1.0
    ensures SeverityOf(Score(n, d)) ==
            if d >= 2 then High
            else if d == 1 then (if n >= 6 then High else Medium)
            else if n >= 15 then High
            else if n >= 5 then Medium
            else Low
  {
    if d >= 2 {
      MulLe(2, d, n - 2);
      assert n * d == (n - 2) * d + 2 * d && d * (n - 2) >= 2 * (n - 2);
      MulLe(3, n, d - 1);
      assert n * d == n * (d - 1) + n;
      Quotients(1, 1, n * d, n + d + 1);
    } else if d == 1 {
      Quotients(3, 4, n, n + 2);
      Quotients(9, 20, n, n + 2);
    } else {
      Quotients(3, 4, n, n + 5);
      Quotients(9, 20, n, n + 5);
    }
  }

  /** The score itself: without ports a share of the events that stops at 4/5, else a quotient that stops at 1. */
  lemma ScoreClosedForm(n: nat, d: nat)
    ensures d == 0 ==> Score(n, d) == if n == 0 then 0.0 else if n < 20 then n as real / (n + 5) as real else 0.8
    ensures d >= 1 ==>
      Score(n, d) == (if n == 0 then 0.0 else if n * d < n + d + 1 then (n * d) as real / (n + d + 1) as real else 1.0)
  {
    if n > 0 && d == 0 {
      Quotients(4, 5, n, n + 5);
      Quotients(n, n + 5, 4, 5);
    } else if n > 0 {
      Quotients(1, 1, n * d, n + d + 1);
      Quotients(n * d, n + d + 1, 1, 1);
    }
  }

  /** The clusters of one or two events, which have at most as many real ports. */
  lemma SmallClusters()
    ensures SeverityOf(Score(0, 0)) == SeverityOf(Score(1, 0)) == SeverityOf(Score(1, 1)) == SeverityOf(Score(2, 0)) == Low
    ensures SeverityOf(Score(2, 1)) == Medium && SeverityOf(Score(2, 2)) == High
  {
  }
}
