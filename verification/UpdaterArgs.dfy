/**
 The command line between the service and its updater: one process prints it, the
 other parses it.
 */
module UpdaterArgs {
  import opened Prelude

  datatype Args = Args(zipPath: string, targetPath: string, binaryName: string, pid: nat, restartMode: string)

  datatype ParseError =
    | UnknownArgument(argument: string)
    | MissingValue(flag: string)
    | InvalidPid
    | Required(flag: string)

  const ZIP_PATH := "--zip-path"
  const TARGET_PATH := "--target-path"
  const BINARY_NAME := "--binary-name"
  const PID := "--pid"
  const RESTART_MODE := "--restart-mode"

  // ── Decimal numbers ────────────────────────────────────────────────────────

  function Decimal(n: nat): string {
    if n < 10 then [DigitChar(n)] else Decimal(n / 10) + [DigitChar(n % 10)]
  }

  function DigitChar(d: nat): char
    requires d < 10
  {
    '0' + d as char
  }

  function DigitValue(c: char): Option<nat> {
    if '0' <= c <= '9' then Some((c - '0') as int) else None
  }

  /** The value of a non-empty run of digits. */
  function DecimalValue(s: string): Option<nat> {
    if s == "" then None
    else
      var last := DigitValue(s[|s| - 1]);
      if last.None? then None
      else if |s| == 1 then last
      else
        var high := DecimalValue(s[..|s| - 1]);
        if high.None? then None else Some(10 * high.value + last.value)
  }

  /** `str::parse::<u32>`: an optional plus sign, digits, no overflow. */
  function ParseU32(s: string): Option<nat> {
    var digits := if |s| > 1 && s[0] == '+' then s[1..] else s;
    var value := DecimalValue(digits);
    if value.Some? && value.value > U32_MAX then None else value
  }

  lemma {:induction false} DecimalRoundTrip(n: nat)
    ensures DecimalValue(Decimal(n)) == Some(n)
    ensures Decimal(n) != "" && DigitValue(Decimal(n)[0]).Some?
  {
    if n >= 10 {
      DecimalRoundTrip(n / 10);
      assert Decimal(n)[..|Decimal(n)| - 1] == Decimal(n / 10);
    }
  }

  lemma PidRoundTrip(pid: nat)
    requires pid <= U32_MAX
    ensures ParseU32(Decimal(pid)) == Some(pid)
  {
    DecimalRoundTrip(pid);
  }

  // ── Parsing ────────────────────────────────────────────────────────────────

  datatype Partial = Partial(
    zipPath: Option<string>, targetPath: Option<string>, binaryName: Option<string>, pid: nat, restartMode: string)

  const NOTHING_YET := Partial(None, None, None, 0, "supervisor")

  predicate IsFlag(s: string) {
    s == ZIP_PATH || s == TARGET_PATH || s == BINARY_NAME || s == PID || s == RESTART_MODE
  }

  function Assign(p: Partial, flag: string, value: string): Result<Partial, ParseError> {
    if flag == ZIP_PATH then Ok(p.(zipPath := Some(value)))
    else if flag == TARGET_PATH then Ok(p.(targetPath := Some(value)))
    else if flag == BINARY_NAME then Ok(p.(binaryName := Some(value)))
    else if flag == PID then
      (match ParseU32(value)
       case Some(n) => Ok(p.(pid := n))
       case None => Err(InvalidPid))
    else if flag == RESTART_MODE then Ok(p.(restartMode := value))
    else Err(UnknownArgument(flag))
  }

  /** The arguments from position `i` on, read two by two. */
  function Scan(args: seq<string>, i: nat, p: Partial): Result<Partial, ParseError>
    decreases |args| - i
  {
    if i >= |args| then Ok(p)
    else if !IsFlag(args[i]) then Err(UnknownArgument(args[i]))
    else if i + 1 >= |args| then Err(MissingValue(args[i]))
    else
      match Assign(p, args[i], args[i + 1])
      case Ok(q) => Scan(args, i + 2, q)
      case Err(e) => Err(e)
  }

  function Complete(p: Partial): Result<Args, ParseError> {
    if p.zipPath.None? then Err(Required(ZIP_PATH))
    else if p.targetPath.None? then Err(Required(TARGET_PATH))
    else if p.binaryName.None? then Err(Required(BINARY_NAME))
    else Ok(Args(p.zipPath.value, p.targetPath.value, p.binaryName.value, p.pid, p.restartMode))
  }

  function Parsed(args: seq<string>): Result<Args, ParseError> {
    match Scan(args, 1, NOTHING_YET)
    case Ok(p) => Complete(p)
    case Err(e) => Err(e)
  }

  method ParseArgs(args: seq<string>) returns (r: Result<Args, ParseError>)
    ensures r == Parsed(args)
  {
    var zipPath: Option<string>, targetPath: Option<string>, binaryName: Option<string> := None, None, None;
    var pid: nat, restartMode := 0, "supervisor";
    var i := 1;
    while i < |args|
      invariant i >= 1
      invariant Scan(args, 1, NOTHING_YET) == Scan(args, i, Partial(zipPath, targetPath, binaryName, pid, restartMode))
      decreases |args| - i
    {
      var flag := args[i];
      if !IsFlag(flag) {
        return Err(UnknownArgument(flag));
      }
      i := i + 1;
      if i >= |args| {
        return Err(MissingValue(flag));
      }
      if flag == ZIP_PATH {
        zipPath := Some(args[i]);
      } else if flag == TARGET_PATH {
        targetPath := Some(args[i]);
      } else if flag == BINARY_NAME {
        binaryName := Some(args[i]);
      } else if flag == PID {
        var n := ParseU32(args[i]);
        if n.None? {
          return Err(InvalidPid);
        }
        pid := n.value;
      } else {
        restartMode := args[i];
      }
      i := i + 1;
    }
    if zipPath.None? {
      return Err(Required(ZIP_PATH));
    }
    if targetPath.None? {
      return Err(Required(TARGET_PATH));
    }
    if binaryName.None? {
      return Err(Required(BINARY_NAME));
    }
    r := Ok(Args(zipPath.value, targetPath.value, binaryName.value, pid, restartMode));
  }

  // ── Printing ───────────────────────────────────────────────────────────────

  datatype Pair = Pair(flag: string, value: string)

  function Flatten(pairs: seq<Pair>): seq<string> {
    if pairs == [] then [] else [pairs[0].flag, pairs[0].value] + Flatten(pairs[1..])
  }

  /** The pairs `spawn_updater` puts on the command line. */
  function Printed(a: Args): seq<Pair> {
    [Pair(ZIP_PATH, a.zipPath), Pair(TARGET_PATH, a.targetPath), Pair(BINARY_NAME, a.binaryName),
     Pair(PID, Decimal(a.pid)), Pair(RESTART_MODE, a.restartMode)]
  }

  function CommandLine(exe: string, pairs: seq<Pair>): seq<string> {
    [exe] + Flatten(pairs)
  }

  function AssignAll(p: Partial, pairs: seq<Pair>): Result<Partial, ParseError>
    decreases |pairs|
  {
    if pairs == [] then Ok(p)
    else
      match Assign(p, pairs[0].flag, pairs[0].value)
      case Ok(q) => AssignAll(q, pairs[1..])
      case Err(e) => Err(e)
  }

  ghost predicate AllFlags(pairs: seq<Pair>) {
    forall i :: 0 <= i < |pairs| ==> IsFlag(pairs[i].flag)
  }

  /** Values are never mistaken for flags, whatever they look like, and whatever comes after them. */
  lemma {:induction false} ScanReadsPairs(before: seq<string>, pairs: seq<Pair>, rest: seq<string>, p: Partial)
    requires AllFlags(pairs)
    ensures var args := before + Flatten(pairs) + rest;
            Scan(args, |before|, p) ==
              match AssignAll(p, pairs)
              case Ok(q) => Scan(args, |before + Flatten(pairs)|, q)
              case Err(e) => Err(e)
    decreases |pairs|
  {
    if pairs != [] {
      var args := before + Flatten(pairs) + rest;
      var read := before + [pairs[0].flag, pairs[0].value];
      assert args == read + Flatten(pairs[1..]) + rest && before + Flatten(pairs) == read + Flatten(pairs[1..]);
      assert args[|before|] == pairs[0].flag && args[|before| + 1] == pairs[0].value;
      match Assign(p, pairs[0].flag, pairs[0].value) {
        case Ok(q) => ScanReadsPairs(read, pairs[1..], rest, q);
        case Err(_) =>
      }
    }
  }

  /** The value given last for a flag. */
  function LastValue(pairs: seq<Pair>, flag: string): Option<string> {
    if pairs == [] then None
    else if pairs[|pairs| - 1].flag == flag then Some(pairs[|pairs| - 1].value)
    else LastValue(pairs[..|pairs| - 1], flag)
  }

  ghost predicate PidsParse(pairs: seq<Pair>) {
    forall i :: 0 <= i < |pairs| && pairs[i].flag == PID ==> ParseU32(pairs[i].value).Some?
  }

  function PidOf(text: Option<string>): nat {
    if text.Some? && ParseU32(text.value).Some? then ParseU32(text.value).value else 0
  }

  function ModeOf(text: Option<string>): string {
    if text.Some? then text.value else "supervisor"
  }

  /** What the options given amount to, flag by flag. */
  function Looked(pairs: seq<Pair>): Partial {
    Partial(LastValue(pairs, ZIP_PATH), LastValue(pairs, TARGET_PATH), LastValue(pairs, BINARY_NAME),
            PidOf(LastValue(pairs, PID)), ModeOf(LastValue(pairs, RESTART_MODE)))
  }

  lemma {:induction false} AssignAllAppend(p: Partial, pairs: seq<Pair>, last: Pair)
    ensures AssignAll(p, pairs + [last]) ==
              match AssignAll(p, pairs)
              case Ok(q) => Assign(q, last.flag, last.value)
              case Err(e) => Err(e)
    decreases |pairs|
  {
    if pairs == [] {
      assert (pairs + [last])[1..] == [];
    } else {
      assert (pairs + [last])[1..] == pairs[1..] + [last];
      match Assign(p, pairs[0].flag, pairs[0].value) {
        case Ok(q) => AssignAllAppend(q, pairs[1..], last);
        case Err(_) =>
      }
    }
  }

  /** For each flag the last value given wins; a flag not given keeps its default. */
  lemma {:induction false} LastValueWins(pairs: seq<Pair>)
    requires AllFlags(pairs) && PidsParse(pairs)
    ensures AssignAll(NOTHING_YET, pairs) == Ok(Looked(pairs))
    decreases |pairs|
  {
    if pairs != [] {
      var init, last := pairs[..|pairs| - 1], pairs[|pairs| - 1];
      LastValueWins(init);
      assert pairs == init + [last];
      AssignAllAppend(NOTHING_YET, init, last);
    }
  }

  /** A command line is read up to the first thing wrong with it, which is what is reported. */
  lemma FirstFaultIsReported(exe: string, pairs: seq<Pair>, rest: seq<string>)
    requires AllFlags(pairs) && PidsParse(pairs) && rest != []
    ensures var known := {"--zip-path", "--target-path", "--binary-name", "--pid", "--restart-mode"};
            var parsed := Parsed([exe] + Flatten(pairs) + rest);
            && (rest[0] !in known ==> parsed == Err(UnknownArgument(rest[0])))
            && (rest[0] in known && |rest| == 1 ==> parsed == Err(MissingValue(rest[0])))
            && (rest[0] == "--pid" && |rest| > 1 && ParseU32(rest[1]).None? ==> parsed == Err(InvalidPid))
  {
    ScanReadsPairs([exe], pairs, rest, NOTHING_YET);
    LastValueWins(pairs);
    var n := |[exe] + Flatten(pairs)|;
    var args := [exe] + Flatten(pairs) + rest;
    assert args[n] == rest[0];
    if |rest| > 1 {
      assert args[n + 1] == rest[1];
      if rest[0] == "--pid" {
        FlagsDiffer();
      }
    }
  }

  /** No pair gives this option. */
  ghost predicate Lacks(pairs: seq<Pair>, flag: string) {
    forall i :: 0 <= i < |pairs| ==> pairs[i].flag != flag
  }

  lemma {:induction false} LackedHasNoValue(pairs: seq<Pair>, flag: string)
    ensures LastValue(pairs, flag).None? <==> Lacks(pairs, flag)
    decreases |pairs|
  {
    if pairs != [] {
      LackedHasNoValue(pairs[..|pairs| - 1], flag);
    }
  }

  /** The first of the three paths and names that is not given is asked for; the pid and the mode may be left out. */
  lemma WhatMayBeLeftOut(exe: string, pairs: seq<Pair>)
    requires AllFlags(pairs) && PidsParse(pairs)
    ensures match Parsed([exe] + Flatten(pairs))
            case Err(e) =>
              if Lacks(pairs, "--zip-path") then e == Required("--zip-path")
              else if Lacks(pairs, "--target-path") then e == Required("--target-path")
              else Lacks(pairs, "--binary-name") && e == Required("--binary-name")
            case Ok(a) =>
              && !Lacks(pairs, "--zip-path") && !Lacks(pairs, "--target-path") && !Lacks(pairs, "--binary-name")
              && (Lacks(pairs, "--pid") ==> a.pid == 0)
              && (Lacks(pairs, "--restart-mode") ==> a.restartMode == "supervisor")
  {
    ScanReadsPairs([exe], pairs, [], NOTHING_YET);
    assert [exe] + Flatten(pairs) + [] == [exe] + Flatten(pairs);
    LastValueWins(pairs);
    LackedHasNoValue(pairs, "--zip-path");
    LackedHasNoValue(pairs, "--target-path");
    LackedHasNoValue(pairs, "--binary-name");
    LackedHasNoValue(pairs, "--pid");
    LackedHasNoValue(pairs, "--restart-mode");
  }

  /** A number is a non-empty run of digits, with at most one plus sign before it, and fits in 32 bits. */
  lemma {:induction false} NumbersAreDigits(s: string)
    ensures DecimalValue(s).Some? <==> s != "" && forall i :: 0 <= i < |s| ==> '0' <= s[i] <= '9'
  {
    if |s| > 1 {
      NumbersAreDigits(s[..|s| - 1]);
    }
  }

  lemma {:induction false} OnlyValue(pairs: seq<Pair>, flag: string, i: nat)
    requires i < |pairs| && pairs[i].flag == flag
    requires forall j :: 0 <= j < |pairs| && pairs[j].flag == flag ==> pairs[j].value == pairs[i].value
    ensures LastValue(pairs, flag) == Some(pairs[i].value)
    decreases |pairs|
  {
    if pairs[|pairs| - 1].flag != flag {
      OnlyValue(pairs[..|pairs| - 1], flag, i);
    }
  }

  /** The same five pairs, in any order. */
  ghost predicate Reordered(pairs: seq<Pair>, a: Args) {
    forall x :: x in pairs <==> x in Printed(a)
  }

  lemma ValueFound(pairs: seq<Pair>, a: Args, x: Pair)
    requires Reordered(pairs, a) && x in Printed(a)
    ensures LastValue(pairs, x.flag) == Some(x.value)
  {
    assert x in pairs;
    var i :| 0 <= i < |pairs| && pairs[i] == x;
    forall j | 0 <= j < |pairs| && pairs[j].flag == x.flag
      ensures pairs[j].value == x.value
    {
      assert pairs[j] in Printed(a);
      FlagsDiffer();
    }
    OnlyValue(pairs, x.flag, i);
  }

  lemma FlagsDiffer()
    ensures |ZIP_PATH| == 10 && |TARGET_PATH| == 13 && |BINARY_NAME| == 13 && |PID| == 5 && |RESTART_MODE| == 14
    ensures TARGET_PATH[2] != BINARY_NAME[2]
  {
  }

  /** The updater reads back exactly what the service wrote, for all strings and in whatever order the options come. */
  lemma CommandLineRoundTrip(exe: string, a: Args, pairs: seq<Pair>)
    requires a.pid <= U32_MAX && Reordered(pairs, a)
    ensures Parsed(CommandLine(exe, pairs)) == Ok(a)
  {
    PidRoundTrip(a.pid);
    FlagsDiffer();
    forall i | 0 <= i < |pairs|
      ensures IsFlag(pairs[i].flag)
      ensures pairs[i].flag == PID ==> pairs[i].value == Decimal(a.pid)
    {
      assert pairs[i] in Printed(a);
    }
    ScanReadsPairs([exe], pairs, [], NOTHING_YET);
    assert [exe] + Flatten(pairs) + [] == CommandLine(exe, pairs);
    LastValueWins(pairs);
    ValueFound(pairs, a, Printed(a)[0]);
    ValueFound(pairs, a, Printed(a)[1]);
    ValueFound(pairs, a, Printed(a)[2]);
    ValueFound(pairs, a, Printed(a)[3]);
    ValueFound(pairs, a, Printed(a)[4]);
  }
}
