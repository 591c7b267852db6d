/** Splitting command text into tokens, with double quotes protecting spaces. */
module SplitArgs {
  import opened Text
  import opened Seqs

  datatype Scan = Scan(tokens: seq<string>, cur: string, inQuote: bool)

  const START := Scan([], "", false)

  /** Ends the current token, if there is one. */
  function Flush(s: Scan): seq<string> {
    if s.cur == "" then s.tokens else s.tokens + [s.cur]
  }

  function Step(s: Scan, c: char): Scan {
    if c == '"' then s.(inQuote := !s.inQuote)
    else if c == ' ' && !s.inQuote then Scan(Flush(s), "", false)
    else s.(cur := s.cur + [c])
  }

  function ScanFrom(start: Scan, s: string): Scan {
    if s == "" then start else Step(ScanFrom(start, s[..|s| - 1]), s[|s| - 1])
  }

  function Tokens(s: string): seq<string> {
    Flush(ScanFrom(START, s))
  }

  method Split(s: string) returns (tokens: seq<string>)
    ensures tokens == Tokens(s)
  {
    tokens := [];
    var cur, inQuote := "", false;
    for i := 0 to |s|
      invariant Scan(tokens, cur, inQuote) == ScanFrom(START, s[..i])
    {
      assert s[..i + 1][..i] == s[..i];
      if s[i] == '"' {
        inQuote := !inQuote;
      } else if s[i] == ' ' && !inQuote {
        if |cur| > 0 {
          tokens := tokens + [cur];
          cur := "";
        }
      } else {
        cur := cur + [s[i]];
      }
    }
    assert s[..|s|] == s;
    if |cur| > 0 {
      tokens := tokens + [cur];
    }
  }

  // ----- what the text means

  function Quotes(s: string): nat {
    if s == "" then 0 else Quotes(s[..|s| - 1]) + if s[|s| - 1] == '"' then 1 else 0
  }

  /** The next character is quoted when an odd number of quotes came before. */
  predicate Open(s: string) {
    Quotes(s) % 2 == 1
  }

  /** The text without its quotes and its unquoted spaces. */
  function Kept(s: string): string {
    if s == "" then ""
    else
      var before, c := s[..|s| - 1], s[|s| - 1];
      Kept(before) + if c == '"' || (c == ' ' && !Open(before)) then "" else [c]
  }

  lemma {:induction false} ScanQuotes(s: string)
    ensures ScanFrom(START, s).inQuote == Open(s)
  {
    if s != "" {
      ScanQuotes(s[..|s| - 1]);
    }
  }

  lemma {:induction false} ScanTokens(s: string)
    ensures var st := ScanFrom(START, s);
      "" !in st.tokens && '"' !in st.cur && forall t <- st.tokens :: '"' !in t
  {
    if s != "" {
      ScanTokens(s[..|s| - 1]);
    }
  }

  lemma ConcatFlush(st: Scan)
    ensures Concat(Flush(st)) == Concat(st.tokens) + st.cur
  {
    assert (st.tokens + [st.cur])[..|st.tokens|] == st.tokens;
  }

  lemma {:induction false} ScanKeeps(s: string)
    ensures var st := ScanFrom(START, s); Concat(st.tokens) + st.cur == Kept(s)
  {
    if s != "" {
      var n := |s| - 1;
      var st := ScanFrom(START, s[..n]);
      ScanKeeps(s[..n]);
      ScanQuotes(s[..n]);
      ConcatFlush(st);
      assert Concat(st.tokens) + (st.cur + [s[n]]) == Concat(st.tokens) + st.cur + [s[n]];
    }
  }

  /** No token is empty or holds a quote, and together they are the text without quotes and unquoted spaces. */
  lemma TokensConserve(s: string)
    ensures "" !in Tokens(s) && forall t <- Tokens(s) :: '"' !in t
    ensures Concat(Tokens(s)) == Kept(s)
  {
    ScanTokens(s);
    ScanKeeps(s);
    ConcatFlush(ScanFrom(START, s));
  }

  lemma {:induction false} ScanOnto(before: seq<string>, s: string)
    ensures var st := ScanFrom(START, s);
      ScanFrom(Scan(before, "", false), s) == st.(tokens := before + st.tokens)
  {
    if s != "" {
      ScanOnto(before, s[..|s| - 1]);
    }
  }

  lemma {:induction false} ScanAppend(start: Scan, a: string, b: string)
    ensures ScanFrom(start, a + b) == ScanFrom(ScanFrom(start, a), b)
  {
    if b == "" {
      assert a + b == a;
    } else {
      var n := |b| - 1;
      ScanAppend(start, a, b[..n]);
      assert (a + b)[..|a + b| - 1] == a + b[..n];
    }
  }

  /** An unquoted space separates: the tokens are those before it and those after it. */
  lemma SplitsAtSpace(a: string, b: string)
    requires !Open(a)
    ensures Tokens(a + " " + b) == Tokens(a) + Tokens(b)
  {
    ScanQuotes(a);
    ScanAppend(START, a + " ", b);
    ScanAppend(START, a, " ");
    assert " "[..0] == "";
    ScanOnto(Tokens(a), b);
  }

  lemma {:induction false} NoSeparator(s: string)
    requires forall i :: 0 <= i < |s| && s[i] == ' ' ==> Open(s[..i])
    ensures ScanFrom(START, s).tokens == []
  {
    if s != "" {
      var n := |s| - 1;
      forall i | 0 <= i < n && s[..n][i] == ' ' ensures Open(s[..n][..i]) {
        assert s[..n][..i] == s[..i];
      }
      NoSeparator(s[..n]);
      ScanQuotes(s[..n]);
    }
  }

  /** Without an unquoted space the whole text is one token, or none when nothing is kept. */
  lemma OneToken(s: string)
    requires forall i :: 0 <= i < |s| && s[i] == ' ' ==> Open(s[..i])
    ensures Tokens(s) == if Kept(s) == "" then [] else [Kept(s)]
  {
    var st := ScanFrom(START, s);
    NoSeparator(s);
    ScanKeeps(s);
    assert Concat([]) + st.cur == st.cur;
  }

  // ----- quoting and splitting

  function Quote(t: string): string {
    if ' ' in t then "\"" + t + "\"" else t
  }

  function QuoteAll(ts: seq<string>): seq<string> {
    if ts == [] then [] else [Quote(ts[0])] + QuoteAll(ts[1..])
  }

  lemma {:induction false} PlainScan(start: Scan, t: string)
    requires '"' !in t && (start.inQuote || ' ' !in t)
    ensures ScanFrom(start, t) == start.(cur := start.cur + t)
  {
    if t == "" {
      assert start.cur + t == start.cur;
    } else {
      var n := |t| - 1;
      PlainScan(start, t[..n]);
      assert start.cur + t == start.cur + t[..n] + [t[n]];
    }
  }

  lemma QuotedScan(t: string)
    requires '"' !in t
    ensures ScanFrom(START, Quote(t)) == Scan([], t, false)
  {
    if ' ' in t {
      ScanAppend(START, "\"" + t, "\"");
      ScanAppend(START, "\"", t);
      assert "\""[..0] == "";
      PlainScan(Scan([], "", true), t);
    } else {
      PlainScan(START, t);
    }
    assert "" + t == t;
  }

  /** Quoting the tokens that need it, joining with spaces and splitting gives the tokens back. */
  lemma {:induction false} RoundTrip(ts: seq<string>)
    requires forall t <- ts :: t != "" && '"' !in t
    ensures Tokens(Join(QuoteAll(ts), " ")) == ts
  {
    if ts != [] {
      var t, rest := ts[0], ts[1..];
      QuotedScan(t);
      assert ts == [t] + rest;
      if rest == [] {
        assert QuoteAll(ts) == [Quote(t)];
      } else {
        RoundTrip(rest);
        JoinCons(Quote(t), QuoteAll(rest), " ");
        ScanQuotes(Quote(t));
        SplitsAtSpace(Quote(t), Join(QuoteAll(rest), " "));
      }
    }
  }
}
