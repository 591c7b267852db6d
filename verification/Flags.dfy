/** Parsing the flags of the review-all command. How a duration is read is a parameter. */
module Flags {
  import opened Text
  import opened Decimal

  datatype Opts = Opts(limit: int, limitSet: bool, since: int, sinceSet: bool, sinceRaw: string,
                       severities: set<string>, severitySet: bool, severityRaw: string,
                       excludeWANOnly: bool, dedupe: bool)

  const DEFAULTS := Opts(0, false, 0, false, "", {}, false, "", false, false)

  const MAX_LIMIT := 200

  datatype Error =
    | UnexpectedArgument(arg: string)
    | MissingValue(key: string)
    | InvalidLimit(val: string)
    | InvalidSince(val: string)
    | InvalidSeverity(val: string)
    | UnknownFlag(key: string)

  datatype Result<+T> = Ok(value: T) | Err(error: Error)

  type Duration = string -> Option<int>

  // ----- values

  /** A decimal integer with an optional sign. */
  function Atoi(s: string): Option<int> {
    var body := if s != "" && s[0] in {'+', '-'} then s[1..] else s;
    if body == "" || exists c :: c in body && !IsDigit(c) then None
    else if s[0] == '-' then Some(-(Value(body) as int))
    else Some(Value(body))
  }

  predicate IsSeparator(c: char) {
    c in {',', ' ', '\t'}
  }

  /** The non-empty fields between separators, `cur` being the field so far. */
  function FieldsFrom(s: string, cur: string): seq<string> {
    var done := if cur == "" then [] else [cur];
    if s == "" then done
    else if IsSeparator(s[0]) then done + FieldsFrom(s[1..], "")
    else FieldsFrom(s[1..], cur + [s[0]])
  }

  /** The canonical severity a field names. */
  function Canonical(field: string): Option<string> {
    var f := ToLower(TrimSpace(field));
    if f in {"red", "high"} then Some("high")
    else if f in {"yellow", "amber", "medium", "med"} then Some("medium")
    else if f in {"green", "low"} then Some("low")
    else None
  }

  /** Adds the fields' severities to `out`, stopping at the first unknown one. */
  function Collect(fields: seq<string>, out: set<string>): Result<set<string>> {
    if fields == [] then Ok(out)
    else
      match Canonical(fields[0])
      case None => Err(InvalidSeverity(fields[0]))
      case Some(c) => Collect(fields[1..], out + {c})
  }

  function NormalizeSeverities(raw: string): Result<set<string>> {
    var fields := FieldsFrom(raw, "");
    if fields == [] then Err(InvalidSeverity(raw)) else Collect(fields, {})
  }

  method Normalize(raw: string) returns (r: Result<set<string>>)
    ensures r == NormalizeSeverities(raw)
  {
    var fields := FieldsFrom(raw, "");
    if |fields| == 0 {
      return Err(InvalidSeverity(raw));
    }
    var out: set<string> := {};
    for i := 0 to |fields|
      invariant Collect(fields[i..], out) == Collect(fields, {})
    {
      assert fields[i..][1..] == fields[i + 1..];
      match Canonical(fields[i]) {
        case Some(c) => out := out + {c};
        case None => return Err(InvalidSeverity(fields[i]));
      }
    }
    return Ok(out);
  }

  /** The result is the set of severities named, whatever their order and repetition. */
  lemma {:induction false} CollectExact(fields: seq<string>, out: set<string>)
    ensures Collect(fields, out).Ok? <==> forall f <- fields :: Canonical(f).Some?
    ensures Collect(fields, out).Ok? ==>
      Collect(fields, out).value == out + set f <- fields | Canonical(f).Some? :: Canonical(f).value
  {
    if fields != [] {
      assert fields == [fields[0]] + fields[1..];
      if Canonical(fields[0]).Some? {
        CollectExact(fields[1..], out + {Canonical(fields[0]).value});
      }
    }
  }

  // ----- the fields of a text

  lemma {:induction false} FieldsOf(s: string, cur: string)
    requires forall c <- cur :: !IsSeparator(c)
    ensures forall f <- FieldsFrom(s, cur) :: f != "" && forall c <- f :: !IsSeparator(c)
  {
    if s != "" {
      FieldsOf(s[1..], if IsSeparator(s[0]) then "" else cur + [s[0]]);
    }
  }

  /** A separator separates: the fields before it do not depend on what follows. */
  lemma {:induction false} FieldsSplit(s: string, cur: string, c: char, rest: string)
    requires IsSeparator(c)
    ensures FieldsFrom(s + ([c] + rest), cur) == FieldsFrom(s, cur) + FieldsFrom(rest, "")
  {
    if s == "" {
      assert s + ([c] + rest) == [c] + rest && ([c] + rest)[1..] == rest;
    } else {
      assert (s + ([c] + rest))[1..] == s[1..] + ([c] + rest);
      FieldsSplit(s[1..], if IsSeparator(s[0]) then "" else cur + [s[0]], c, rest);
    }
  }

  /** Text without separators is one field. */
  lemma {:induction false} OneField(s: string, cur: string)
    requires forall c <- s :: !IsSeparator(c)
    ensures FieldsFrom(s, cur) == if cur + s == "" then [] else [cur + s]
  {
    if s != "" {
      assert s[0] in s && cur + [s[0]] + s[1..] == cur + s;
      OneField(s[1..], cur + [s[0]]);
    } else {
      assert cur + s == cur;
    }
  }

  lemma {:induction false} NoField(s: string, cur: string)
    ensures FieldsFrom(s, cur) == [] <==> cur == "" && forall c <- s :: IsSeparator(c)
  {
    if s != "" {
      assert s == [s[0]] + s[1..];
      NoField(s[1..], if IsSeparator(s[0]) then "" else cur + [s[0]]);
    }
  }

  /** The first field that names no severity, if any. */
  function FirstUnknown(fields: seq<string>): Option<string> {
    if fields == [] then None
    else if Canonical(fields[0]).None? then Some(fields[0])
    else FirstUnknown(fields[1..])
  }

  lemma {:induction false} CollectError(fields: seq<string>, out: set<string>)
    ensures FirstUnknown(fields).Some? ==> Collect(fields, out) == Err(InvalidSeverity(FirstUnknown(fields).value))
    ensures FirstUnknown(fields).None? ==> Collect(fields, out).Ok?
  {
    if fields != [] && Canonical(fields[0]).Some? {
      CollectError(fields[1..], out + {Canonical(fields[0]).value});
    }
  }

  /**
   A severity text is accepted if and only if it is not made of separators only and each of its fields
   names a severity; it then gives the set of those severities. Otherwise the error quotes the first
   unknown field, or the whole text when it has no field.
   */
  lemma NormalizeExact(raw: string)
    ensures var fields, r := FieldsFrom(raw, ""), NormalizeSeverities(raw);
      && (r.Ok? <==> (exists c :: c in raw && !IsSeparator(c)) && forall f <- fields :: Canonical(f).Some?)
      && (r.Ok? ==> r.value == set f <- fields | Canonical(f).Some? :: Canonical(f).value)
      && (r.Err? ==> var u := FirstUnknown(fields); r.error == InvalidSeverity(if u.Some? then u.value else raw))
  {
    var fields := FieldsFrom(raw, "");
    NoField(raw, "");
    CollectExact(fields, {});
    CollectError(fields, {});
  }

  predicate BoolValue(v: string) {
    ToLower(TrimSpace(v)) !in {"false", "0", "no", "n", "off"}
  }

  // ----- settings

  datatype Setting =
    | Limit(n: int)
    | Since(d: int, sinceRaw: string)
    | Severity(severities: set<string>, severityRaw: string)
    | ExcludeWAN(on: bool)
    | Dedupe(on: bool)

  function Kind(s: Setting): nat {
    match s
    case Limit(_) => 0
    case Since(_, _) => 1
    case Severity(_, _) => 2
    case ExcludeWAN(_) => 3
    case Dedupe(_) => 4
  }

  function Apply(o: Opts, s: Setting): Opts {
    match s
    case Limit(n) => o.(limit := n, limitSet := true)
    case Since(d, raw) => o.(since := d, sinceSet := true, sinceRaw := raw)
    case Severity(sevs, raw) => o.(severities := sevs, severitySet := true, severityRaw := raw)
    case ExcludeWAN(on) => o.(excludeWANOnly := on)
    case Dedupe(on) => o.(dedupe := on)
  }

  predicate IsBoolKey(key: string) {
    key == "exclude-wan-only" || key == "dedupe"
  }

  function BoolSetting(key: string, val: Option<string>): Setting {
    var on := val.None? || BoolValue(val.value);
    if key == "dedupe" then Dedupe(on) else ExcludeWAN(on)
  }

  function ValueSetting(key: string, val: string, duration: Duration): Result<Setting> {
    if key == "limit" then
      var n := Atoi(TrimSpace(val));
      if n.None? || n.value < 1 || n.value > MAX_LIMIT then Err(InvalidLimit(val)) else Ok(Limit(n.value))
    else if key == "since" then
      var d := duration(val);
      if d.None? || d.value <= 0 then Err(InvalidSince(val)) else Ok(Since(d.value, val))
    else if key == "severity" then
      match NormalizeSeverities(val)
      case Err(e) => Err(e)
      case Ok(sevs) => Ok(Severity(sevs, val))
    else Err(UnknownFlag(key))
  }

  // ----- one flag

  function FlagKey(a: string): string
    requires HasPrefix(a, "--")
  {
    var body := a[2..];
    ToLower(body[..IndexOf(body, '=')])
  }

  function FlagValue(a: string): Option<string>
    requires HasPrefix(a, "--")
  {
    var body := a[2..];
    var i := IndexOf(body, '=');
    if i < |body| then Some(body[i + 1..]) else None
  }

  datatype Token = Token(setting: Setting, used: nat)

  function Used(r: Result<Setting>, n: nat): Result<Token> {
    match r
    case Err(e) => Err(e)
    case Ok(s) => Ok(Token(s, n))
  }

  /** The first flag with its value, and how many arguments they take. */
  function ReadFlag(args: seq<string>, duration: Duration): (r: Result<Token>)
    requires args != []
    ensures r.Ok? ==> 1 <= r.value.used <= 2 && r.value.used <= |args|
  {
    var a := args[0];
    if !HasPrefix(a, "--") then Err(UnexpectedArgument(a))
    else
      var key, val := FlagKey(a), FlagValue(a);
      if IsBoolKey(key) then Ok(Token(BoolSetting(key, val), 1))
      else if val.Some? then Used(ValueSetting(key, val.value, duration), 1)
      else if |args| < 2 then Err(MissingValue(key))
      else Used(ValueSetting(key, args[1], duration), 2)
  }

  // ----- the whole command

  /** The options read, up to the first error if there is one. */
  datatype Parsed = Parsed(o: Opts, error: Option<Error>)

  function ParseFrom(args: seq<string>, o: Opts, duration: Duration): Parsed {
    if args == [] then Parsed(o, None)
    else
      match ReadFlag(args, duration)
      case Err(e) => Parsed(o, Some(e))
      case Ok(t) => ParseFrom(args[t.used..], Apply(o, t.setting), duration)
  }

  method ParseReviewAllFlags(args: seq<string>, duration: Duration) returns (r: Parsed)
    ensures r == ParseFrom(args, DEFAULTS, duration)
  {
    var o := DEFAULTS;
    var i := 0;
    while i < |args|
      invariant 0 <= i <= |args|
      invariant ParseFrom(args[i..], o, duration) == ParseFrom(args, DEFAULTS, duration)
    {
      var a := args[i];
      ghost var rest := args[i..];
      if !HasPrefix(a, "--") {
        return Parsed(o, Some(UnexpectedArgument(a)));
      }
      var key, val := FlagKey(a), FlagValue(a);
      if IsBoolKey(key) {
        o := Apply(o, BoolSetting(key, val));
        i := i + 1;
        assert args[i..] == rest[1..];
        continue;
      }
      var used := 1;
      if val.None? {
        if i + 1 >= |args| {
          return Parsed(o, Some(MissingValue(key)));
        }
        used := 2;
        val := Some(args[i + 1]);
      }
      var setting := ValueSetting(key, val.value, duration);
      if setting.Err? {
        return Parsed(o, Some(setting.error));
      }
      assert ReadFlag(rest, duration) == Ok(Token(setting.value, used));
      assert args[i + used..] == rest[used..];
      o := Apply(o, setting.value);
      i := i + used;
    }
    return Parsed(o, None);
  }
}
