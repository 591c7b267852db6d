/** What each flag and each word of a review command does, spelled out. */
module FlagsMeaning {
  import opened Text
  import opened Seqs
  import opened Decimal
  import opened Flags
  import opened Review

  // ----- words

  /** Text that trimming and lower-casing leave alone. */
  predicate Plain(s: string) {
    forall c <- s :: c !in SPACES && !('A' <= c <= 'Z')
  }

  lemma PlainStays(s: string)
    requires Plain(s)
    ensures ToLower(s) == s && TrimSpace(s) == s
  {
    forall i | 0 <= i < |s| ensures ToLower(s)[i] == s[i] {
      assert s[i] in s;
    }
    assert s != "" ==> s[0] in s && s[|s| - 1] in s;
  }

  predicate IsWord(s: string) {
    s != "" && Plain(s) && forall c <- s :: !IsSeparator(c)
  }

  lemma CollectOne(f: string)
    ensures Collect([f], {}) == if Canonical(f).Some? then Ok({Canonical(f).value}) else Err(InvalidSeverity(f))
  {
    assert [f][1..] == [];
    if Canonical(f).Some? {
      assert Collect([], {Canonical(f).value}) == Ok({Canonical(f).value});
      assert {} + {Canonical(f).value} == {Canonical(f).value};
    }
  }

  lemma WordNormalizes(w: string)
    requires IsWord(w)
    ensures NormalizeSeverities(w) == if Canonical(w).Some? then Ok({Canonical(w).value}) else Err(InvalidSeverity(w))
    ensures ToLower(TrimSpace(w)) == w
  {
    OneField(w, "");
    assert "" + w == w;
    CollectOne(w);
    PlainStays(w);
  }

  lemma LowerLetters(w: string)
    requires w != "" && forall i :: 0 <= i < |w| ==> 'a' <= w[i] <= 'z'
    ensures IsWord(w)
  {
  }

  lemma HighWord(w: string)
    requires w == "high" || w == "red"
    ensures NormalizeSeverities(w) == Ok({"high"})
  {
    LowerLetters(w);
    WordNormalizes(w);
  }

  lemma MediumWord(w: string)
    requires w == "medium" || w == "med" || w == "amber" || w == "yellow"
    ensures NormalizeSeverities(w) == Ok({"medium"})
  {
    LowerLetters(w);
    WordNormalizes(w);
  }

  lemma LowWord(w: string)
    requires w == "low" || w == "green"
    ensures NormalizeSeverities(w) == Ok({"low"})
  {
    LowerLetters(w);
    WordNormalizes(w);
  }

  /** The three names stand for themselves, each alias for its name, and no other word for anything. */
  lemma SeverityWords(w: string)
    requires IsWord(w)
    ensures w in {"high", "medium", "low"} ==> NormalizeSeverities(w) == Ok({w})
    ensures w == "red" ==> NormalizeSeverities(w) == Ok({"high"})
    ensures w in {"yellow", "amber", "med"} ==> NormalizeSeverities(w) == Ok({"medium"})
    ensures w == "green" ==> NormalizeSeverities(w) == Ok({"low"})
    ensures w !in {"high", "medium", "low", "red", "yellow", "amber", "med", "green"} ==>
              NormalizeSeverities(w) == Err(InvalidSeverity(w))
  {
    if w == "high" || w == "red" {
      HighWord(w);
    } else if w == "medium" || w == "med" || w == "amber" || w == "yellow" {
      MediumWord(w);
    } else if w == "low" || w == "green" {
      LowWord(w);
    } else {
      WordNormalizes(w);
    }
  }

  lemma {:induction false} CollectAppend(a: seq<string>, b: seq<string>, out: set<string>)
    ensures Collect(a + b, out) == if Collect(a, out).Ok? then Collect(b, Collect(a, out).value) else Collect(a, out)
  {
    if a == [] {
      assert a + b == b;
    } else {
      assert (a + b)[1..] == a[1..] + b;
      if Canonical(a[0]).Some? {
        CollectAppend(a[1..], b, out + {Canonical(a[0]).value});
      }
    }
  }

  lemma CollectFrom(fields: seq<string>, out: set<string>)
    requires Collect(fields, {}).Ok?
    ensures Collect(fields, out) == Ok(out + Collect(fields, {}).value)
  {
    CollectExact(fields, out);
    CollectExact(fields, {});
  }

  /** A list joined by a comma, a space or a tab names what its two parts name. */
  lemma ListNormalizes(a: string, b: string, c: char)
    requires c == ',' || c == ' ' || c == '\t'
    requires NormalizeSeverities(a).Ok? && NormalizeSeverities(b).Ok?
    ensures NormalizeSeverities(a + ([c] + b)) == Ok(NormalizeSeverities(a).value + NormalizeSeverities(b).value)
  {
    var x, y := FieldsFrom(a, ""), FieldsFrom(b, "");
    FieldsSplit(a, "", c, b);
    CollectAppend(x, y, {});
    CollectFrom(y, Collect(x, {}).value);
  }

  // ----- numbers

  lemma AtoiDigits(s: string)
    requires s != "" && forall c <- s :: IsDigit(c)
    ensures Atoi(s) == Some(Value(s)) && Plain(s)
  {
    assert s[0] in s;
  }

  lemma AtoiSigned(sign: char, s: string)
    requires s != "" && forall c <- s :: IsDigit(c)
    ensures sign == '-' ==> Atoi([sign] + s) == Some(-(Value(s) as int))
    ensures sign == '+' ==> Atoi([sign] + s) == Some(Value(s))
  {
    assert ([sign] + s)[1..] == s;
  }

  // ----- flags

  /** A flag's name as it is written: lower case, without an equals sign. */
  predicate IsName(key: string) {
    Plain(key) && '=' !in key
  }

  lemma SplitName(key: string, val: string)
    requires IsName(key)
    ensures HasPrefix("--" + key, "--") && FlagKey("--" + key) == key && FlagValue("--" + key) == None
    ensures HasPrefix("--" + key + "=" + val, "--") && FlagKey("--" + key + "=" + val) == key
    ensures FlagValue("--" + key + "=" + val) == Some(val)
  {
    PlainStays(key);
    assert ("--" + key)[2..] == key && key[..|key|] == key;
    var body := ("--" + key + "=" + val)[2..];
    assert body == key + ['='] + val;
    IndexOfHead(key, '=', val);
    assert body[..|key|] == key && body[|key| + 1..] == val;
  }

  lemma ParseValue(key: string, val: string, o: Opts, duration: Duration)
    requires IsName(key) && !IsBoolKey(key)
    ensures var r := ValueSetting(key, val, duration);
      ParseFrom(["--" + key, val], o, duration) == if r.Ok? then Parsed(Apply(o, r.value), None) else Parsed(o, Some(r.error))
  {
    SplitName(key, val);
    var args := ["--" + key, val];
    assert args[2..] == [];
  }

  /** A switch by itself, and with a value. */
  function Switches(key: string, val: string): seq<seq<string>> {
    [["--" + key], ["--" + key + "=" + val]]
  }

  lemma ParseBool(key: string, val: string, o: Opts, duration: Duration)
    requires IsName(key) && IsBoolKey(key)
    ensures ParseFrom(Switches(key, val)[0], o, duration) == Parsed(Apply(o, BoolSetting(key, None)), None)
    ensures ParseFrom(Switches(key, val)[1], o, duration) == Parsed(Apply(o, BoolSetting(key, Some(val))), None)
  {
    SplitName(key, val);
    assert ["--" + key][1..] == [] && ["--" + key + "=" + val][1..] == [];
  }

  /** `--limit n` sets the limit for n from 1 to 200 and is an error for any other number. */
  lemma LimitFlag(key: string, n: nat, o: Opts, duration: Duration)
    requires key == "limit"
    ensures ParseFrom(["--" + key, Dec(n)], o, duration) ==
            if 1 <= n <= 200 then Parsed(o.(limit := n, limitSet := true), None) else Parsed(o, Some(InvalidLimit(Dec(n))))
  {
    AtoiDigits(Dec(n));
    ValueOfDec(n);
    PlainStays(Dec(n));
    ParseValue(key, Dec(n), o, duration);
  }

  /** `--since d` sets the age for a positive duration. */
  lemma SinceFlag(key: string, val: string, o: Opts, duration: Duration)
    requires key == "since"
    ensures ParseFrom(["--" + key, val], o, duration) ==
            if duration(val).Some? && duration(val).value > 0
            then Parsed(o.(since := duration(val).value, sinceSet := true, sinceRaw := val), None)
            else Parsed(o, Some(InvalidSince(val)))
  {
    ParseValue(key, val, o, duration);
  }

  /** `--severity list` sets the severities it names. */
  lemma SeverityFlag(key: string, val: string, o: Opts, duration: Duration)
    requires key == "severity"
    ensures var r := NormalizeSeverities(val);
      ParseFrom(["--" + key, val], o, duration) ==
      if r.Ok? then Parsed(o.(severities := r.value, severitySet := true, severityRaw := val), None)
      else Parsed(o, Some(r.error))
  {
    ParseValue(key, val, o, duration);
  }

  lemma PlainBool(val: string)
    requires Plain(val)
    ensures BoolValue(val) <==> val != "false" && val != "0" && val != "no" && val != "n" && val != "off"
  {
    PlainStays(val);
  }

  lemma LettersAndHyphens(key: string)
    requires forall i :: 0 <= i < |key| ==> 'a' <= key[i] <= 'z' || key[i] == '-'
    ensures IsName(key)
  {
  }

  lemma DedupeSwitch(key: string, val: Option<string>, o: Opts)
    requires key == "dedupe"
    ensures IsName(key) && IsBoolKey(key)
    ensures Apply(o, BoolSetting(key, val)) == o.(dedupe := val.None? || BoolValue(val.value))
  {
    LettersAndHyphens(key);
  }

  lemma ExcludeSwitch(key: string, val: Option<string>, o: Opts)
    requires key == "exclude-wan-only"
    ensures IsName(key) && IsBoolKey(key)
    ensures Apply(o, BoolSetting(key, val)) == o.(excludeWANOnly := val.None? || BoolValue(val.value))
  {
    LettersAndHyphens(key);
  }

  /** `--dedupe` switches on, unless its value is one of five words. */
  lemma DedupeFlag(key: string, val: string, o: Opts, duration: Duration)
    requires key == "dedupe" && Plain(val)
    ensures ParseFrom(Switches(key, val)[0], o, duration) == Parsed(o.(dedupe := true), None)
    ensures var on := val != "false" && val != "0" && val != "no" && val != "n" && val != "off";
      ParseFrom(Switches(key, val)[1], o, duration) == Parsed(o.(dedupe := on), None)
  {
    PlainBool(val);
    DedupeSwitch(key, None, o);
    DedupeSwitch(key, Some(val), o);
    ParseBool(key, val, o, duration);
  }

  /** So does `--exclude-wan-only`. */
  lemma ExcludeFlag(key: string, val: string, o: Opts, duration: Duration)
    requires key == "exclude-wan-only" && Plain(val)
    ensures ParseFrom(Switches(key, val)[0], o, duration) == Parsed(o.(excludeWANOnly := true), None)
    ensures var on := val != "false" && val != "0" && val != "no" && val != "n" && val != "off";
      ParseFrom(Switches(key, val)[1], o, duration) == Parsed(o.(excludeWANOnly := on), None)
  {
    PlainBool(val);
    ExcludeSwitch(key, None, o);
    ExcludeSwitch(key, Some(val), o);
    ParseBool(key, val, o, duration);
  }

  // ----- what makes no difference

  lemma {:induction false} TrimPadded(head: string, s: string, tail: string)
    requires s != "" && s[0] !in SPACES && s[|s| - 1] !in SPACES
    requires (forall c <- head :: c in SPACES) && (forall c <- tail :: c in SPACES)
    ensures TrimSpace(head + s + tail) == s
    decreases |head| + |tail|
  {
    var all := head + s + tail;
    if head != "" {
      assert all[0] == head[0] && head[0] in head && all[1..] == head[1..] + s + tail;
      TrimPadded(head[1..], s, tail);
    } else if tail != "" {
      assert all[0] == s[0] && all[|all| - 1] == tail[|tail| - 1] && tail[|tail| - 1] in tail;
      assert all[..|all| - 1] == head + s + tail[..|tail| - 1];
      TrimPadded(head, s, tail[..|tail| - 1]);
    } else {
      assert all == s;
    }
  }

  lemma SameTrimmed(key: string, val: string, s: string, duration: Duration)
    requires TrimSpace(val) == s == TrimSpace(s)
    ensures Canonical(val) == Canonical(s) && BoolValue(val) == BoolValue(s)
    ensures key == "limit" && ValueSetting(key, s, duration).Ok? ==> ValueSetting(key, val, duration) == ValueSetting(key, s, duration)
  {
  }

  /** White space around a limit, a switch's value or a severity makes no difference. */
  lemma PaddingIgnored(key: string, head: string, s: string, tail: string, duration: Duration) returns (val: string)
    requires s != "" && s[0] !in SPACES && s[|s| - 1] !in SPACES && TrimSpace(s) == s
    requires (forall c <- head :: c in SPACES) && (forall c <- tail :: c in SPACES)
    ensures val == head + s + tail && Canonical(val) == Canonical(s) && BoolValue(val) == BoolValue(s)
    ensures key == "limit" && ValueSetting(key, s, duration).Ok? ==> ValueSetting(key, val, duration) == ValueSetting(key, s, duration)
  {
    val := head + s + tail;
    TrimPadded(head, s, tail);
    SameTrimmed(key, val, s, duration);
  }

  lemma LowerTwice(s: string)
    ensures ToLower(ToLower(s)) == ToLower(s)
  {
    LowerExact(s);
    LowerExact(ToLower(s));
  }

  lemma LowerSpaces(s: string)
    ensures TrimSpace(s) == s ==> TrimSpace(ToLower(s)) == ToLower(s)
  {
    LowerExact(s);
  }

  lemma PlainKey(key: string)
    requires '=' !in key
    ensures HasPrefix("--" + key, "--") && FlagKey("--" + key) == ToLower(key) && FlagValue("--" + key) == None
  {
    assert ("--" + key)[2..] == key && key[..|key|] == key;
  }

  /** Capital letters in a flag's name, a switch's value or a severity. */
  lemma CapitalsIgnored(key: string, val: string, w: string, o: Opts, duration: Duration)
    requires '=' !in key && TrimSpace(w) == w
    ensures Canonical(w) == Canonical(ToLower(w)) && BoolValue(w) == BoolValue(ToLower(w))
    ensures ParseFrom(["--" + key, val], o, duration) == ParseFrom(["--" + ToLower(key), val], o, duration)
  {
    LowerTwice(w);
    LowerSpaces(w);
    LowerTwice(key);
    LowerExact(key);
    PlainKey(key);
    PlainKey(ToLower(key));
    assert ["--" + key, val][1..] == [val] == ["--" + ToLower(key), val][1..];
  }

  /** What is no flag, no known flag, or lacks its value is an error. */
  lemma BadFlags(arg: string, key: string, val: string, rest: seq<string>, o: Opts, duration: Duration)
    requires !HasPrefix(arg, "--")
    requires IsName(key) && key != "dedupe" && key != "exclude-wan-only"
    ensures ParseFrom([arg] + rest, o, duration) == Parsed(o, Some(UnexpectedArgument(arg)))
    ensures ParseFrom(["--" + key], o, duration) == Parsed(o, Some(MissingValue(key)))
    ensures key != "limit" && key != "since" && key != "severity" ==>
              ParseFrom(["--" + key, val] + rest, o, duration) == Parsed(o, Some(UnknownFlag(key)))
  {
    SplitName(key, val);
    assert ([arg] + rest)[0] == arg;
    assert (["--" + key, val] + rest)[0] == "--" + key;
  }

  /** A command without flags shows the first 50 cases. */
  lemma NoFlags(cases: seq<Case>, look: Lookups, now: int, duration: Duration)
    ensures var r := ParseFrom([], DEFAULTS, duration);
      r.error == None && Pipeline(cases, r.o, look, now) == Cut(cases, 50)
  {
    FilterAll(cases, c => Passes(DEFAULTS, look, now, c));
  }

  /** `--severity x` shows the first 50 cases of severity x, whatever the case of its letters. */
  lemma SeverityCommand(key: string, x: string, cases: seq<Case>, look: Lookups, now: int, duration: Duration)
    requires key == "severity" && (x == "high" || x == "medium" || x == "low")
    ensures var r := ParseFrom(["--" + key, x], DEFAULTS, duration);
      && r.error == None
      && Pipeline(cases, r.o, look, now) == Cut(Filter(cases, (c: Case) => ToLower(c.severity) == x), 50)
  {
    LowerLetters(x);
    SeverityWords(x);
    SeverityFlag(key, x, DEFAULTS, duration);
    var o := ParseFrom(["--" + key, x], DEFAULTS, duration).o;
    FilterSame(cases, c => Passes(o, look, now, c), (c: Case) => ToLower(c.severity) == x);
  }
}
