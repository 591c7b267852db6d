/** The order of flags, and how their values are attached, do not matter. */
module FlagsTheorems {
  import opened Text
  import opened Seqs
  import opened Flags

  /** The settings a command makes, in order, up to its first error if there is one. */
  datatype Reading = Reading(settings: seq<Setting>, error: Option<Error>)

  function Read(args: seq<string>, duration: Duration): Reading {
    if args == [] then Reading([], None)
    else
      match ReadFlag(args, duration)
      case Err(e) => Reading([], Some(e))
      case Ok(t) =>
        var rest := Read(args[t.used..], duration);
        rest.(settings := [t.setting] + rest.settings)
  }

  /** A command without errors. */
  predicate Valid(args: seq<string>, duration: Duration) {
    Read(args, duration).error.None?
  }

  function ApplyAll(o: Opts, ss: seq<Setting>): Opts
    decreases |ss|
  {
    if ss == [] then o else ApplyAll(Apply(o, ss[0]), ss[1..])
  }

  /** Parsing applies the settings one after the other and reports the first error. */
  lemma {:induction false} ParseApplies(args: seq<string>, o: Opts, duration: Duration)
    ensures ParseFrom(args, o, duration) == Parsed(ApplyAll(o, Read(args, duration).settings), Read(args, duration).error)
    decreases |args|
  {
    if args != [] && ReadFlag(args, duration).Ok? {
      var t := ReadFlag(args, duration).value;
      var rest := args[t.used..];
      ParseApplies(rest, Apply(o, t.setting), duration);
      var ss := Read(rest, duration).settings;
      assert ([t.setting] + ss)[1..] == ss;
    }
  }

  // ----- the last setting of a kind wins

  function LastOf(ss: seq<Setting>, kind: nat): Option<Setting> {
    if ss == [] then None
    else
      var later := LastOf(ss[1..], kind);
      if later.Some? then later else if Kind(ss[0]) == kind then Some(ss[0]) else None
  }

  function ApplyOption(o: Opts, s: Option<Setting>): Opts {
    if s.Some? then Apply(o, s.value) else o
  }

  lemma {:induction false} LastOfKind(ss: seq<Setting>, kind: nat)
    ensures LastOf(ss, kind).Some? ==> LastOf(ss, kind).value in ss && Kind(LastOf(ss, kind).value) == kind
    ensures LastOf(ss, kind).None? ==> forall s <- ss :: Kind(s) != kind
  {
    if ss != [] {
      LastOfKind(ss[1..], kind);
      assert ss == [ss[0]] + ss[1..];
    }
  }

  /** The options after the last setting of each kind, in a fixed order of kinds. */
  function Build(o: Opts, l0: Option<Setting>, l1: Option<Setting>, l2: Option<Setting>, l3: Option<Setting>,
                 l4: Option<Setting>): Opts {
    ApplyOption(ApplyOption(ApplyOption(ApplyOption(ApplyOption(o, l0), l1), l2), l3), l4)
  }

  predicate OfKind(s: Option<Setting>, kind: nat) {
    s.Some? ==> Kind(s.value) == kind
  }

  function Or(later: Option<Setting>, s: Setting, kind: nat): Option<Setting> {
    if later.Some? then later else if Kind(s) == kind then Some(s) else None
  }

  /** Settings of different kinds commute; of one kind, the later absorbs the earlier. */
  lemma PassOver(o: Opts, s: Setting, later: Option<Setting>, kind: nat)
    requires OfKind(later, kind)
    ensures ApplyOption(Apply(o, s), later) ==
            if later.Some? && Kind(s) == kind then ApplyOption(o, later) else Apply(ApplyOption(o, later), s)
  {
  }

  /** An earlier setting matters only where no later one of its kind follows. */
  lemma BuildStep(o: Opts, s: Setting, l0: Option<Setting>, l1: Option<Setting>, l2: Option<Setting>,
                  l3: Option<Setting>, l4: Option<Setting>)
    requires OfKind(l0, 0) && OfKind(l1, 1) && OfKind(l2, 2) && OfKind(l3, 3) && OfKind(l4, 4)
    ensures Build(Apply(o, s), l0, l1, l2, l3, l4)
         == Build(o, Or(l0, s, 0), Or(l1, s, 1), Or(l2, s, 2), Or(l3, s, 3), Or(l4, s, 4))
  {
    var o1 := ApplyOption(o, l0);
    var o2 := ApplyOption(o1, l1);
    var o3 := ApplyOption(o2, l2);
    var o4 := ApplyOption(o3, l3);
    PassOver(o, s, l0, 0);
    PassOver(o1, s, l1, 1);
    PassOver(o2, s, l2, 2);
    PassOver(o3, s, l3, 3);
    PassOver(o4, s, l4, 4);
  }

  /** Repeated flags resolve to the last one of each kind. */
  lemma {:induction false} LastWins(o: Opts, ss: seq<Setting>)
    ensures ApplyAll(o, ss) == Build(o, LastOf(ss, 0), LastOf(ss, 1), LastOf(ss, 2), LastOf(ss, 3), LastOf(ss, 4))
    decreases |ss|
  {
    if ss != [] {
      var s, rest := ss[0], ss[1..];
      LastWins(Apply(o, s), rest);
      LastOfKind(rest, 0);
      LastOfKind(rest, 1);
      LastOfKind(rest, 2);
      LastOfKind(rest, 3);
      LastOfKind(rest, 4);
      BuildStep(o, s, LastOf(rest, 0), LastOf(rest, 1), LastOf(rest, 2), LastOf(rest, 3), LastOf(rest, 4));
    }
  }

  ghost predicate DistinctKinds(ss: seq<Setting>) {
    forall i, j :: 0 <= i < j < |ss| ==> Kind(ss[i]) != Kind(ss[j])
  }

  lemma LastOfSame(ss: seq<Setting>, ss': seq<Setting>, kind: nat)
    requires DistinctKinds(ss) && multiset(ss) == multiset(ss')
    ensures LastOf(ss, kind) == LastOf(ss', kind)
  {
    LastOfKind(ss, kind);
    LastOfKind(ss', kind);
    assert forall s :: s in ss <==> s in multiset(ss);
    assert forall s :: s in ss' <==> s in multiset(ss');
  }

  /** Settings of distinct kinds can be applied in any order. */
  lemma OrderOfSettings(o: Opts, ss: seq<Setting>, ss': seq<Setting>)
    requires DistinctKinds(ss) && multiset(ss) == multiset(ss')
    ensures ApplyAll(o, ss) == ApplyAll(o, ss')
  {
    LastWins(o, ss);
    LastWins(o, ss');
    LastOfSame(ss, ss', 0);
    LastOfSame(ss, ss', 1);
    LastOfSame(ss, ss', 2);
    LastOfSame(ss, ss', 3);
    LastOfSame(ss, ss', 4);
  }

  // ----- permuting flag groups

  /** The arguments of each flag. */
  function Groups(args: seq<string>, duration: Duration): seq<seq<string>> {
    if args == [] then []
    else
      match ReadFlag(args, duration)
      case Err(_) => [args]
      case Ok(t) => [args[..t.used]] + Groups(args[t.used..], duration)
  }

  /** A group is one complete flag. */
  predicate IsGroup(g: seq<string>, duration: Duration) {
    g != [] && ReadFlag(g, duration).Ok? && ReadFlag(g, duration).value.used == |g|
  }

  function SettingOf(g: seq<string>, duration: Duration): Setting {
    if IsGroup(g, duration) then ReadFlag(g, duration).value.setting else Dedupe(false)
  }

  function SettingsOf(groups: seq<seq<string>>, duration: Duration): seq<Setting> {
    if groups == [] then [] else [SettingOf(groups[0], duration)] + SettingsOf(groups[1..], duration)
  }

  /** A complete flag reads the same whatever follows it. */
  lemma GroupReads(g: seq<string>, rest: seq<string>, duration: Duration)
    requires IsGroup(g, duration)
    ensures ReadFlag(g + rest, duration) == ReadFlag(g, duration)
  {
  }

  lemma GroupPrefix(args: seq<string>, duration: Duration)
    requires args != [] && ReadFlag(args, duration).Ok?
    ensures var t := ReadFlag(args, duration).value;
      IsGroup(args[..t.used], duration) && SettingOf(args[..t.used], duration) == t.setting
  {
  }

  lemma {:induction false} GroupsConcat(args: seq<string>, duration: Duration)
    ensures Concat(Groups(args, duration)) == args
    decreases |args|
  {
    if args != [] {
      match ReadFlag(args, duration)
      case Err(_) =>
        ConcatCons(args, []);
        assert [args] + [] == Groups(args, duration);
      case Ok(t) =>
        GroupsConcat(args[t.used..], duration);
        ConcatCons(args[..t.used], Groups(args[t.used..], duration));
    }
  }

  lemma {:induction false} GroupsSplit(args: seq<string>, duration: Duration)
    requires Valid(args, duration)
    ensures forall g <- Groups(args, duration) :: IsGroup(g, duration)
    ensures SettingsOf(Groups(args, duration), duration) == Read(args, duration).settings
    decreases |args|
  {
    if args != [] {
      var t := ReadFlag(args, duration).value;
      GroupsSplit(args[t.used..], duration);
      GroupPrefix(args, duration);
      var g, gs := args[..t.used], Groups(args[t.used..], duration);
      assert ([g] + gs)[1..] == gs;
      assert SettingsOf([g] + gs, duration) == [t.setting] + SettingsOf(gs, duration);
    }
  }

  lemma ReadGroup(g: seq<string>, rest: seq<string>, duration: Duration)
    requires IsGroup(g, duration)
    ensures Read(g + rest, duration) == Reading([SettingOf(g, duration)] + Read(rest, duration).settings, Read(rest, duration).error)
  {
    GroupReads(g, rest, duration);
    assert (g + rest)[|g|..] == rest;
  }

  lemma {:induction false} GroupsJoin(gs: seq<seq<string>>, duration: Duration)
    requires forall g <- gs :: IsGroup(g, duration)
    ensures Read(Concat(gs), duration) == Reading(SettingsOf(gs, duration), None)
  {
    if gs != [] {
      var g, rest := gs[0], Concat(gs[1..]);
      GroupsJoin(gs[1..], duration);
      ConcatCons(g, gs[1..]);
      assert [g] + gs[1..] == gs;
      ReadGroup(g, rest, duration);
    }
  }

  lemma {:induction false} SettingsOfAppend(a: seq<seq<string>>, b: seq<seq<string>>, duration: Duration)
    ensures SettingsOf(a + b, duration) == SettingsOf(a, duration) + SettingsOf(b, duration)
  {
    if a == [] {
      assert a + b == b;
    } else {
      SettingsOfAppend(a[1..], b, duration);
      assert (a + b)[1..] == a[1..] + b;
    }
  }

  lemma SettingsOfMiddle(a: seq<seq<string>>, g: seq<string>, b: seq<seq<string>>, duration: Duration)
    ensures SettingsOf(a + ([g] + b), duration) == SettingsOf(a, duration) + ([SettingOf(g, duration)] + SettingsOf(b, duration))
  {
    SettingsOfAppend(a, [g] + b, duration);
    assert ([g] + b)[1..] == b;
  }

  lemma {:induction false} SettingsPermute(gs: seq<seq<string>>, gs': seq<seq<string>>, duration: Duration)
    requires multiset(gs) == multiset(gs')
    ensures multiset(SettingsOf(gs, duration)) == multiset(SettingsOf(gs', duration))
    decreases |gs|
  {
    if gs == [] {
      assert |gs'| == |multiset(gs')| == 0;
    } else {
      var g, rest := gs[0], gs[1..];
      assert gs == [g] + rest;
      var a, b := TakeOut(gs', g, rest);
      SettingsPermute(rest, a + b, duration);
      SettingsOfAppend(a, b, duration);
      SettingsOfMiddle(a, g, b, duration);
      SettingsOfMiddle([], g, rest, duration);
      assert [] + ([g] + rest) == gs;
    }
  }

  /** For a valid command with distinct flags, permuting the flags (each with its value) changes nothing. */
  lemma OrderAgnostic(args: seq<string>, gs: seq<seq<string>>, duration: Duration)
    requires Valid(args, duration) && DistinctKinds(Read(args, duration).settings)
    requires multiset(gs) == multiset(Groups(args, duration))
    ensures ParseFrom(Concat(gs), DEFAULTS, duration) == ParseFrom(args, DEFAULTS, duration)
    ensures ParseFrom(args, DEFAULTS, duration).error.None?
  {
    var gs0 := Groups(args, duration);
    GroupsSplit(args, duration);
    forall g <- gs ensures IsGroup(g, duration) {
      assert g in multiset(gs0);
    }
    GroupsJoin(gs, duration);
    SettingsPermute(gs0, gs, duration);
    OrderOfSettings(DEFAULTS, SettingsOf(gs0, duration), SettingsOf(gs, duration));
    ParseApplies(args, DEFAULTS, duration);
    ParseApplies(Concat(gs), DEFAULTS, duration);
  }

  /** `--key=value` and `--key value` read alike for every flag that takes a value. */
  lemma SwapForm(key: string, val: string, rest: seq<string>, duration: Duration)
    requires '=' !in key && !IsBoolKey(ToLower(key))
    ensures var joined, split := ReadFlag(["--" + key + "=" + val] + rest, duration), ReadFlag(["--" + key, val] + rest, duration);
      match joined
      case Err(e) => split == Err(e)
      case Ok(t) => t.used == 1 && split == Ok(Token(t.setting, 2))
  {
    var a, b := "--" + key + "=" + val, "--" + key;
    assert a[2..] == key + ['='] + val && b[2..] == key;
    IndexOfHead(key, '=', val);
    assert (key + ['='] + val)[..|key|] == key && (key + ['='] + val)[|key| + 1..] == val;
    assert IndexOf(key, '=') == |key| by {
      assert forall k :: 0 <= k < |key| ==> key[k] != '=';
    }
    assert FlagKey(a) == FlagKey(b) == ToLower(key) && FlagValue(a) == Some(val) && FlagValue(b) == None;
  }

  /** Parsing a valid command and more is parsing the rest on top of the command's options. */
  lemma {:induction false} ParseAfter(before: seq<string>, rest: seq<string>, o: Opts, duration: Duration)
    requires Valid(before, duration)
    ensures ParseFrom(before + rest, o, duration) == ParseFrom(rest, ApplyAll(o, Read(before, duration).settings), duration)
    decreases |before|
  {
    if before == [] {
      assert before + rest == rest;
    } else {
      var t := ReadFlag(before, duration).value;
      var tail := before[t.used..];
      GroupPrefix(before, duration);
      GroupReads(before[..t.used], tail + rest, duration);
      assert before[..t.used] + (tail + rest) == before + rest;
      assert (before + rest)[t.used..] == tail + rest;
      ParseAfter(tail, rest, Apply(o, t.setting), duration);
      var ss := Read(tail, duration).settings;
      assert ([t.setting] + ss)[1..] == ss;
    }
  }

  /** An error other than a missing value stays, whatever follows. */
  lemma {:induction false} ErrorStays(before: seq<string>, rest: seq<string>, o: Opts, duration: Duration)
    requires !Valid(before, duration) && !Read(before, duration).error.value.MissingValue?
    ensures ParseFrom(before + rest, o, duration) == ParseFrom(before, o, duration)
    decreases |before|
  {
    if ReadFlag(before, duration).Ok? {
      var t := ReadFlag(before, duration).value;
      var tail := before[t.used..];
      GroupPrefix(before, duration);
      GroupReads(before[..t.used], tail + rest, duration);
      assert before[..t.used] + (tail + rest) == before + rest;
      assert (before + rest)[t.used..] == tail + rest;
      ErrorStays(tail, rest, Apply(o, t.setting), duration);
    } else {
      assert (before + rest)[0] == before[0];
      assert |before| > 1 ==> (before + rest)[1] == before[1];
    }
  }

  /**
   The two forms are interchangeable wherever a flag can begin, that is, unless the arguments before
   end in a flag still waiting for its value; errors before and after are the same.
   */
  lemma SwapAnywhere(before: seq<string>, key: string, val: string, rest: seq<string>, duration: Duration)
    requires '=' !in key && !IsBoolKey(ToLower(key))
    requires !Valid(before, duration) ==> !Read(before, duration).error.value.MissingValue?
    ensures ParseFrom(before + (["--" + key + "=" + val] + rest), DEFAULTS, duration)
         == ParseFrom(before + (["--" + key, val] + rest), DEFAULTS, duration)
  {
    var joined, split := ["--" + key + "=" + val] + rest, ["--" + key, val] + rest;
    if Valid(before, duration) {
      ParseAfter(before, joined, DEFAULTS, duration);
      ParseAfter(before, split, DEFAULTS, duration);
      SwapForm(key, val, rest, duration);
      assert joined[1..] == rest && split[2..] == rest;
    } else {
      ErrorStays(before, joined, DEFAULTS, duration);
      ErrorStays(before, split, DEFAULTS, duration);
    }
  }

  // ----- both at once

  /** A value flag with its value attached the other way; any other group as it is. */
  function OtherForm(g: seq<string>): seq<string> {
    if |g| == 2 then [g[0] + "=" + g[1]]
    else if |g| == 1 && HasPrefix(g[0], "--") && FlagValue(g[0]).Some? && !IsBoolKey(FlagKey(g[0])) then
      var body := g[0][2..];
      ["--" + body[..IndexOf(body, '=')], FlagValue(g[0]).value]
    else g
  }

  lemma JoinedReads(g: seq<string>, duration: Duration)
    requires IsGroup(g, duration) && |g| == 2
    ensures IsGroup(OtherForm(g), duration) && SettingOf(OtherForm(g), duration) == SettingOf(g, duration)
  {
    var body := g[0][2..];
    assert g[0] == "--" + body && g == ["--" + body, g[1]] + [];
    assert IndexOf(body, '=') == |body|;
    SwapForm(body, g[1], [], duration);
  }

  lemma SplitReads(g: seq<string>, duration: Duration)
    requires IsGroup(g, duration) && |g| == 1 && OtherForm(g) != g
    ensures IsGroup(OtherForm(g), duration) && SettingOf(OtherForm(g), duration) == SettingOf(g, duration)
  {
    var body := g[0][2..];
    var i := IndexOf(body, '=');
    assert body == body[..i] + "=" + body[i + 1..];
    assert g[0] == "--" + body[..i] + "=" + body[i + 1..] && g == [g[0]] + [];
    SwapForm(body[..i], body[i + 1..], [], duration);
  }

  lemma OtherFormReads(g: seq<string>, duration: Duration)
    requires IsGroup(g, duration)
    ensures IsGroup(OtherForm(g), duration) && SettingOf(OtherForm(g), duration) == SettingOf(g, duration)
  {
    if |g| == 2 {
      JoinedReads(g, duration);
    } else if OtherForm(g) != g {
      SplitReads(g, duration);
    }
  }

  predicate SameFlags(gs: seq<seq<string>>, hs: seq<seq<string>>) {
    |hs| == |gs| && forall i :: 0 <= i < |gs| ==> hs[i] == gs[i] || hs[i] == OtherForm(gs[i])
  }

  lemma {:induction false} SameFlagsRead(gs: seq<seq<string>>, hs: seq<seq<string>>, duration: Duration)
    requires SameFlags(gs, hs) && forall g <- gs :: IsGroup(g, duration)
    ensures forall h <- hs :: IsGroup(h, duration)
    ensures SettingsOf(hs, duration) == SettingsOf(gs, duration)
  {
    if gs != [] {
      OtherFormReads(gs[0], duration);
      assert IsGroup(hs[0], duration);
      SameFlagsRead(gs[1..], hs[1..], duration);
      assert hs == [hs[0]] + hs[1..];
    }
  }

  /**
   For a valid command with distinct flags, any permutation of its flags, with any of the value flags
   in the other form, gives the same options.
   */
  lemma OrderAndFormAgnostic(args: seq<string>, gs: seq<seq<string>>, hs: seq<seq<string>>, duration: Duration)
    requires Valid(args, duration) && DistinctKinds(Read(args, duration).settings)
    requires multiset(gs) == multiset(Groups(args, duration)) && SameFlags(gs, hs)
    ensures ParseFrom(Concat(hs), DEFAULTS, duration) == ParseFrom(args, DEFAULTS, duration)
    ensures ParseFrom(args, DEFAULTS, duration).error.None?
  {
    OrderAgnostic(args, gs, duration);
    GroupsSplit(args, duration);
    forall g <- gs ensures IsGroup(g, duration) {
      assert g in multiset(Groups(args, duration));
    }
    SameFlagsRead(gs, hs, duration);
    GroupsJoin(gs, duration);
    GroupsJoin(hs, duration);
    ParseApplies(Concat(gs), DEFAULTS, duration);
    ParseApplies(Concat(hs), DEFAULTS, duration);
  }
}
