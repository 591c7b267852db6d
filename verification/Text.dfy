/** The few operations of Go's `strings` package that the program relies on. */
module Text {
  datatype Option<+T> = None | Some(value: T)

  /** `strings.HasPrefix`. */
  predicate HasPrefix(s: string, prefix: string) {
    prefix <= s
  }

  /** `strings.HasSuffix`. */
  predicate HasSuffix(s: string, suffix: string) {
    |suffix| <= |s| && s[|s| - |suffix|..] == suffix
  }

  lemma PrefixExact(s: string, prefix: string)
    ensures HasPrefix(s, prefix) <==> exists rest: string :: s == prefix + rest
  {
    if HasPrefix(s, prefix) {
      assert s == prefix + s[|prefix|..];
    }
  }

  lemma SuffixExact(s: string, suffix: string)
    ensures HasSuffix(s, suffix) <==> exists head: string :: s == head + suffix
  {
    if HasSuffix(s, suffix) {
      assert s == s[..|s| - |suffix|] + suffix;
    }
    if head: string :| s == head + suffix {
      assert s[|s| - |suffix|..] == suffix;
    }
  }

  /** `strings.ToLower`, on ASCII letters. */
  function ToLower(s: string): (r: string)
    ensures |r| == |s|
  {
    seq(|s|, i requires 0 <= i < |s| => if 'A' <= s[i] <= 'Z' then (s[i] as int + 32) as char else s[i])
  }

  /** Capital letters become the small letters in their places; everything else stays. */
  lemma LowerExact(s: string)
    ensures forall i :: 0 <= i < |s| ==> !('A' <= ToLower(s)[i] <= 'Z')
    ensures forall i :: 0 <= i < |s| && !('A' <= s[i] <= 'Z') ==> ToLower(s)[i] == s[i]
    ensures forall i :: 0 <= i < |s| && 'A' <= s[i] <= 'Z' ==> ToLower(s)[i] as int - 'a' as int == s[i] as int - 'A' as int
  {
  }

  const SPACES: set<char> := {' ', '\t', '\n', '\r', '\U{0B}', '\U{0C}'}

  /** `strings.TrimSpace`, on ASCII white space. */
  function TrimSpace(s: string): (r: string)
    ensures r != "" ==> r[0] !in SPACES && r[|r| - 1] !in SPACES
  {
    if s != "" && s[0] in SPACES then TrimSpace(s[1..])
    else if s != "" && s[|s| - 1] in SPACES then TrimSpace(s[..|s| - 1])
    else s
  }

  lemma Surround(head: string, s: string, tail: string, c: char)
    ensures [c] + (head + s + tail) == ([c] + head) + s + tail
    ensures (head + s + tail) + [c] == head + s + (tail + [c])
  {
  }

  /** What is trimmed is white space, on both sides. */
  lemma {:induction false} TrimExact(s: string) returns (head: string, tail: string)
    ensures s == head + TrimSpace(s) + tail
    ensures (forall c <- head :: c in SPACES) && (forall c <- tail :: c in SPACES)
  {
    head, tail := "", "";
    if s != "" && s[0] in SPACES {
      head, tail := TrimExact(s[1..]);
      Surround(head, TrimSpace(s), tail, s[0]);
      assert s == [s[0]] + s[1..];
      head := [s[0]] + head;
    } else if s != "" && s[|s| - 1] in SPACES {
      var n := |s| - 1;
      head, tail := TrimExact(s[..n]);
      Surround(head, TrimSpace(s), tail, s[n]);
      assert s == s[..n] + [s[n]];
      tail := tail + [s[n]];
    }
  }

  /** The first position of `c` in `s`, or `|s|` when there is none. */
  function IndexOf(s: string, c: char): (i: nat)
    ensures i <= |s|
    ensures forall k :: 0 <= k < i ==> s[k] != c
    ensures i < |s| ==> s[i] == c
  {
    if s == [] || s[0] == c then 0 else IndexOf(s[1..], c) + 1
  }

  /** `strings.Split` on a one-character separator: never empty. */
  function Split(s: string, sep: char): (parts: seq<string>)
    ensures |parts| >= 1
    ensures forall p <- parts :: sep !in p
  {
    var i := IndexOf(s, sep);
    if i == |s| then [s] else [s[..i]] + Split(s[i + 1..], sep)
  }

  /** `strings.Join`. */
  function Join(parts: seq<string>, sep: string): string {
    if parts == [] then ""
    else if |parts| == 1 then parts[0]
    else parts[0] + sep + Join(parts[1..], sep)
  }

  lemma IndexOfHead(head: string, c: char, rest: string)
    requires c !in head
    ensures IndexOf(head + [c] + rest, c) == |head|
  {
    var s := head + [c] + rest;
    var i := IndexOf(s, c);
    assert s[|head|] == c;
    assert forall k :: 0 <= k < |head| ==> s[k] == head[k] != c;
  }

  /** Splitting after a separator-free head gives that head and the split of the rest. */
  lemma SplitHead(head: string, sep: char, rest: string)
    requires sep !in head
    ensures Split(head + [sep] + rest, sep) == [head] + Split(rest, sep)
  {
    var s := head + [sep] + rest;
    IndexOfHead(head, sep, rest);
    assert s[..|head|] == head && s[|head| + 1..] == rest;
  }

  lemma JoinCons(head: string, tail: seq<string>, sep: string)
    requires tail != []
    ensures Join([head] + tail, sep) == head + sep + Join(tail, sep)
  {
    assert ([head] + tail)[1..] == tail;
  }

  /** Join undoes Split. */
  lemma {:induction false} JoinSplit(s: string, sep: char)
    ensures Join(Split(s, sep), [sep]) == s
  {
    var i := IndexOf(s, sep);
    if i < |s| {
      var head, rest := s[..i], s[i + 1..];
      var parts := Split(rest, sep);
      JoinSplit(rest, sep);
      JoinCons(head, parts, [sep]);
      assert s == head + [sep] + rest;
    }
  }

  /** Split undoes Join on separator-free parts. */
  lemma {:induction false} SplitJoin(parts: seq<string>, sep: char)
    requires |parts| >= 1
    requires forall p <- parts :: sep !in p
    ensures Split(Join(parts, [sep]), sep) == parts
  {
    if |parts| > 1 {
      var head, tail := parts[0], parts[1..];
      assert parts == [head] + tail;
      SplitJoin(tail, sep);
      JoinCons(head, tail, [sep]);
      SplitHead(head, sep, Join(tail, [sep]));
    } else {
      assert parts == [parts[0]] && Join(parts, [sep]) == parts[0];
    }
  }
}
