/**
 * The command line of a batch worker: the launcher builds it
 * (packages/core/src/execution/external-task-execution-strategy.ts:89-103) and the worker parses it
 * (packages/core/src/execution/batch-worker-runner.ts:94-142).  The parameters are printed and parsed by
 * a pair of functions about which only two facts are used: parsing undoes printing, and what is printed
 * begins with a brace.
 */
module WorkerArgs {
  import opened Common
  import opened Text

  /** What parsing a JSON text gives: a record of parameters, or a value that is none. */
  datatype Parsed<P> = Record(params: P) | NotARecord

  datatype Failure = SyntaxError | InvalidJobOperation

  /** The numbers of the partition options are kept as their texts. */
  datatype Options<P> = Options(jobExecutionId: Option<string>, jobId: Option<string>, params: Option<P>,
                                partitionIndex: Option<string>, partitionCount: Option<string>)

  type ParseJson<P> = string -> Result<Parsed<P>, ()>

  const COMMAND := "batch-worker"
  const FLAG := "--"

  // ---------------------------------------------------------------- building

  function LauncherArgs(jobId: string, jobExecutionId: string, json: string): seq<string> {
    ["--job-id", jobId, "--job-execution-id", jobExecutionId, "--params-json", json]
  }

  function BuildWorkerArgs<P>(workerCommand: Option<seq<string>>, jobId: string, jobExecutionId: string,
                              params: P, printJson: P -> string): seq<string>
  {
    (if workerCommand.Some? then workerCommand.value else [COMMAND])
    + LauncherArgs(jobId, jobExecutionId, printJson(params))
  }

  // ---------------------------------------------------------------- parsing

  function FirstIndex(s: string, c: char): (i: Option<nat>)
    ensures i.Some? ==> i.value < |s| && s[i.value] == c && c !in s[..i.value]
    ensures i.None? ==> c !in s
  {
    if s == "" then None
    else if s[0] == c then Some(0)
    else match FirstIndex(s[1..], c) case None => None case Some(i) => Some(i + 1)
  }

  /** The arguments by name, when `out` holds those before. */
  function Named(args: seq<string>, out: map<string, string>): map<string, string>
    decreases |args|
  {
    if args == [] then out
    else if !StartsWith(args[0], FLAG) then Named(args[1..], out)
    else match FirstIndex(args[0], '=')
      case Some(eq) => Named(args[1..], out[args[0][2..Max(2, eq)] := args[0][eq + 1..]])
      case None =>
        if |args| == 1 || StartsWith(args[1], FLAG) then Named(args[1..], out[args[0][2..] := "true"])
        else Named(args[2..], out[args[0][2..] := args[1]])
  }

  function Resolved<P>(out: map<string, string>, parseJson: ParseJson<P>): Result<Options<P>, Failure> {
    var executionId := if "job-execution-id" in out then Lookup(out, "job-execution-id") else Lookup(out, "execution-id");
    var rest := (params: Option<P>) =>
      Options(executionId, Lookup(out, "job-id"), params, Lookup(out, "partition-index"), Lookup(out, "partition-count"));
    if "params-json" !in out then Ok(rest(None))
    else match parseJson(out["params-json"])
      case Thrown(_) => Thrown(SyntaxError)
      case Ok(NotARecord) => Thrown(InvalidJobOperation)
      case Ok(Record(params)) => Ok(rest(Some(params)))
  }

  function WithoutCommand(argv: seq<string>): seq<string> {
    if argv != [] && argv[0] == COMMAND then argv[1..] else argv
  }

  function ParsedArgs<P>(argv: seq<string>, parseJson: ParseJson<P>): Result<Options<P>, Failure> {
    Resolved(Named(WithoutCommand(argv), map[]), parseJson)
  }

  /** The loop of the parser: flags with a value behind `=` or in the next argument, other flags are true. */
  method ParseBatchWorkerArgs<P>(argv: seq<string>, parseJson: ParseJson<P>) returns (options: Result<Options<P>, Failure>)
    ensures options == ParsedArgs(argv, parseJson)
  {
    var args := if |argv| > 0 && argv[0] == COMMAND then argv[1..] else argv;
    var out: map<string, string> := map[];
    var i := 0;
    while i < |args|
      invariant 0 <= i <= |args|
      invariant Named(args[i..], out) == Named(args, map[])
    {
      ghost var rest := args[i..];
      assert rest[0] == args[i] && rest[1..] == args[i + 1..];
      assert i + 1 < |args| ==> rest[1] == args[i + 1] && rest[2..] == args[i + 2..];
      var arg := args[i];
      if !StartsWith(arg, FLAG) {
        i := i + 1;
        continue;
      }
      var eq := FirstIndex(arg, '=');
      if eq.Some? {
        out := out[arg[2..Max(2, eq.value)] := arg[eq.value + 1..]];
        i := i + 1;
        continue;
      }
      var key := arg[2..];
      if i + 1 == |args| || StartsWith(args[i + 1], FLAG) {
        out := out[key := "true"];
        i := i + 1;
        continue;
      }
      out := out[key := args[i + 1]];
      i := i + 2;
    }
    var executionId := Lookup(out, "execution-id");
    if "job-execution-id" in out {
      executionId := Some(out["job-execution-id"]);
    }
    var params: Option<P> := None;
    if "params-json" in out {
      var parsed := parseJson(out["params-json"]);
      match parsed {
        case Thrown(_) => return Thrown(SyntaxError);
        case Ok(NotARecord) => return Thrown(InvalidJobOperation);
        case Ok(Record(p)) => params := Some(p);
      }
    }
    options := Ok(Options(executionId, Lookup(out, "job-id"), params,
                          Lookup(out, "partition-index"), Lookup(out, "partition-count")));
  }

  /** The name a flag with `=` would set, else the whole name. */
  function FlagName(arg: string): string
    requires StartsWith(arg, FLAG)
  {
    match FirstIndex(arg, '=') case Some(eq) => arg[2..Max(2, eq)] case None => arg[2..]
  }

  // ---------------------------------------------------------------- what the options are

  /** The i-th argument sets a name: to the text behind its `=`, else to the next argument if that is no flag, else to true. */
  ghost predicate Sets(args: seq<string>, i: nat, name: string, value: string) {
    && i < |args| && '=' !in name
    && (|| args[i] == "--" + name + "=" + value
        || (args[i] == "--" + name && value == if i + 1 < |args| && !StartsWith(args[i + 1], "--") then args[i + 1] else "true"))
  }

  ghost predicate SetBehind(args: seq<string>, i: int, name: string) {
    exists j: nat, value :: i < j && Sets(args, j, name, value)
  }

  /** The value a name has in the end: the last one it is set to. */
  ghost predicate SetTo(args: seq<string>, name: string, value: string) {
    exists i: nat :: Sets(args, i, name, value) && !SetBehind(args, i, name)
  }

  ghost predicate IsSet(args: seq<string>, name: string) {
    SetBehind(args, -1, name)
  }

  /** The name and value a flag sets. */
  lemma FlagSets(args: seq<string>)
    requires args != [] && StartsWith(args[0], FLAG)
    ensures var eq := FirstIndex(args[0], '=');
            var value := if eq.Some? then args[0][eq.value + 1..] else if |args| == 1 || StartsWith(args[1], FLAG) then "true" else args[1];
            forall name, v :: Sets(args, 0, name, v) <==> name == FlagName(args[0]) && v == value
  {
    var arg, eq := args[0], FirstIndex(args[0], '=');
    assert arg[0] == '-' && arg[1] == '-' by { assert arg[..2][0] == '-' && arg[..2][1] == '-'; }
    var own := FlagName(arg);
    if eq.Some? {
      assert eq.value >= 2;
      assert arg == "--" + own + "=" + arg[eq.value + 1..];
    } else {
      assert arg == "--" + own;
    }
    forall name, v | '=' !in name && arg == "--" + name + "=" + v ensures eq == Some(|name| + 2) && name == own && v == arg[|name| + 3..] {
      EqualsAt(arg, name, v);
    }
    forall name | '=' !in name && arg == "--" + name ensures eq == None && name == own {
    }
  }

  lemma EqualsAt(arg: string, name: string, v: string)
    requires '=' !in name && arg == "--" + name + "=" + v
    ensures FirstIndex(arg, '=') == Some(|name| + 2) && arg[2..|name| + 2] == name && v == arg[|name| + 3..]
  {
    assert arg[|name| + 2] == '=' && '=' in arg;
    assert forall k :: 0 <= k < |name| ==> arg[k + 2] == name[k];
  }

  lemma NoFlagSets(args: seq<string>)
    requires args != [] && !StartsWith(args[0], FLAG)
    ensures forall name, v :: !Sets(args, 0, name, v)
  {
    forall name, v ensures !Sets(args, 0, name, v) {
      assert ("--" + name)[..2] == FLAG && ("--" + name + "=" + v)[..2] == FLAG;
    }
  }

  lemma SetsShifted(args: seq<string>, n: nat, i: nat, name: string, value: string)
    requires n <= |args|
    ensures Sets(args[n..], i, name, value) <==> Sets(args, n + i, name, value)
  {
  }

  /** Nothing is set by the first n arguments, so the rest decides. */
  lemma RestDecides(args: seq<string>, n: nat, name: string, value: string)
    requires n <= |args| && forall i: nat, v :: i < n ==> !Sets(args, i, name, v)
    ensures SetTo(args, name, value) <==> SetTo(args[n..], name, value)
    ensures IsSet(args, name) <==> IsSet(args[n..], name)
  {
    forall i: nat, v ensures Sets(args[n..], i, name, v) <==> Sets(args, n + i, name, v) {
      SetsShifted(args, n, i, name, v);
    }
    hide Sets;
    forall i: nat ensures SetBehind(args[n..], i, name) <==> SetBehind(args, n + i, name) {
      if j: nat, v :| i < j && Sets(args[n..], j, name, v) { assert Sets(args, n + j, name, v); }
      if j: nat, v :| n + i < j && Sets(args, j, name, v) { assert Sets(args[n..], j - n, name, v); }
    }
    if i: nat :| Sets(args, i, name, value) && !SetBehind(args, i, name) {
      assert Sets(args[n..], i - n, name, value);
    }
    if i: nat :| Sets(args[n..], i, name, value) && !SetBehind(args[n..], i, name) {
      assert Sets(args, n + i, name, value) && !SetBehind(args, n + i, name);
    }
    if j: nat, v :| -1 < j && Sets(args, j, name, v) { assert Sets(args[n..], j - n, name, v); }
    if j: nat, v :| -1 < j && Sets(args[n..], j, name, v) { assert Sets(args, n + j, name, v); }
  }

  /** Of the first n arguments only the first sets the name. */
  lemma FirstDecides(args: seq<string>, n: nat, name: string, value: string, first: string)
    requires 0 < n <= |args| && (forall v :: Sets(args, 0, name, v) <==> v == first)
    requires forall i: nat, v :: 0 < i < n ==> !Sets(args, i, name, v)
    ensures SetTo(args, name, value) <==> SetTo(args[n..], name, value) || (!IsSet(args[n..], name) && value == first)
    ensures IsSet(args, name)
  {
    forall i: nat, v ensures Sets(args[n..], i, name, v) <==> Sets(args, n + i, name, v) {
      SetsShifted(args, n, i, name, v);
    }
    hide Sets;
    assert Sets(args, 0, name, first);
    forall i: nat ensures SetBehind(args[n..], i, name) <==> SetBehind(args, n + i, name) {
      if j: nat, v :| i < j && Sets(args[n..], j, name, v) { assert Sets(args, n + j, name, v); }
      if j: nat, v :| n + i < j && Sets(args, j, name, v) { assert Sets(args[n..], j - n, name, v); }
    }
    assert IsSet(args[n..], name) <==> SetBehind(args, 0, name) by {
      if j: nat, v :| -1 < j && Sets(args[n..], j, name, v) { assert Sets(args, n + j, name, v); }
      if j: nat, v :| 0 < j && Sets(args, j, name, v) { assert Sets(args[n..], j - n, name, v); }
    }
    if i: nat :| Sets(args, i, name, value) && !SetBehind(args, i, name) {
      if i > 0 { assert Sets(args[n..], i - n, name, value); }
    }
    if i: nat :| Sets(args[n..], i, name, value) && !SetBehind(args[n..], i, name) {
      assert Sets(args, n + i, name, value) && !SetBehind(args, n + i, name);
    }
  }

  lemma {:induction false} NamedFrom(args: seq<string>, out: map<string, string>, name: string, value: string)
    ensures Lookup(Named(args, out), name) == Some(value)
       <==> SetTo(args, name, value) || (!IsSet(args, name) && Lookup(out, name) == Some(value))
    decreases |args|
  {
    hide Sets, FirstIndex, StartsWith, SetTo, IsSet, SetBehind;
    if args == [] {
      NothingSet(name, value);
    } else if !StartsWith(args[0], FLAG) {
      NoFlagSets(args);
      RestDecides(args, 1, name, value);
      NamedFrom(args[1..], out, name, value);
    } else {
      FlagSets(args);
      var own, eq := FlagName(args[0]), FirstIndex(args[0], '=');
      var two := eq.None? && |args| > 1 && !StartsWith(args[1], FLAG);
      var n := if two then 2 else 1;
      var v := if eq.Some? then args[0][eq.value + 1..] else if two then args[1] else "true";
      if two {
        NoFlagSets(args[1..]);
        forall m, w ensures !Sets(args, 1, m, w) {
          SetsShifted(args, 1, 0, m, w);
        }
      }
      assert Named(args, out) == Named(args[n..], out[own := v]);
      NamedFrom(args[n..], out[own := v], name, value);
      if name == own {
        FirstDecides(args, n, name, value, v);
      } else {
        RestDecides(args, n, name, value);
      }
    }
  }

  lemma NothingSet(name: string, value: string)
    ensures !SetTo([], name, value) && !IsSet([], name)
  {
  }

  ghost function CommandArgs(argv: seq<string>): seq<string> {
    if argv != [] && argv[0] == "batch-worker" then argv[1..] else argv
  }

  /** Every option has the value its name is set to last, and the execution may be named in either of two ways. */
  lemma OptionSet<P>(argv: seq<string>, parseJson: ParseJson<P>, v: string)
    requires ParsedArgs(argv, parseJson).Ok?
    ensures var (args, options) := (CommandArgs(argv), ParsedArgs(argv, parseJson).value);
      && (options.jobId == Some(v) <==> SetTo(args, "job-id", v))
      && (options.partitionIndex == Some(v) <==> SetTo(args, "partition-index", v))
      && (options.partitionCount == Some(v) <==> SetTo(args, "partition-count", v))
      && (options.jobExecutionId == Some(v) <==>
            SetTo(args, "job-execution-id", v) || (!IsSet(args, "job-execution-id") && SetTo(args, "execution-id", v)))
  {
    var args := WithoutCommand(argv);
    var out := Named(args, map[]);
    NamedFrom(args, map[], "job-id", v);
    NamedFrom(args, map[], "partition-index", v);
    NamedFrom(args, map[], "partition-count", v);
    NamedFrom(args, map[], "job-execution-id", v);
    NamedFrom(args, map[], "execution-id", v);
    NamedIffSet(args, "job-execution-id");
    hide SetTo, IsSet, Named;
  }

  /** Parameters are read from the last text given for them, and only a text that is no record of them is an error. */
  lemma ParamsSet<P>(argv: seq<string>, parseJson: ParseJson<P>, json: string)
    ensures var (args, options) := (CommandArgs(argv), ParsedArgs(argv, parseJson));
      && (SetTo(args, "params-json", json) ==>
            match parseJson(json)
            case Thrown(_) => options == Thrown(SyntaxError)
            case Ok(NotARecord) => options == Thrown(InvalidJobOperation)
            case Ok(Record(params)) => options.Ok? && options.value.params == Some(params))
      && (!IsSet(args, "params-json") ==> options.Ok? && options.value.params == None)
  {
    var args := WithoutCommand(argv);
    NamedFrom(args, map[], "params-json", json);
    NamedIffSet(args, "params-json");
    hide SetTo, IsSet, Named;
  }

  lemma NamedIffSet(args: seq<string>, name: string)
    ensures name in Named(args, map[]) <==> IsSet(args, name)
  {
    LastIsSet(args, name);
    hide SetTo, IsSet, Named;
    var out := Named(args, map[]);
    if name in out { NamedFrom(args, map[], name, out[name]); }
    if v :| SetTo(args, name, v) { NamedFrom(args, map[], name, v); }
  }

  lemma LastIsSet(args: seq<string>, name: string)
    ensures IsSet(args, name) <==> exists v :: SetTo(args, name, v)
  {
    if j: nat, v :| -1 < j && Sets(args, j, name, v) {
      LastSetting(args, name, j, v);
    }
    if v :| SetTo(args, name, v) {
      var i: nat :| Sets(args, i, name, v) && !SetBehind(args, i, name);
      assert SetBehind(args, -1, name);
    }
  }

  lemma {:induction false} LastSetting(args: seq<string>, name: string, i: nat, v: string)
    requires Sets(args, i, name, v)
    ensures exists w :: SetTo(args, name, w)
    decreases |args| - i
  {
    if SetBehind(args, i, name) {
      var j: nat, w :| i < j && Sets(args, j, name, w);
      LastSetting(args, name, j, w);
    } else {
      assert SetTo(args, name, v);
    }
  }

  // ---------------------------------------------------------------- the round trip

  ghost predicate InversePair<P(!new)>(printJson: P -> string, parseJson: ParseJson<P>) {
    forall p :: parseJson(printJson(p)) == Ok(Record(p)) && printJson(p) != "" && printJson(p)[0] == '{'
  }

  function FlagValue(arg: string): string {
    match FirstIndex(arg, '=') case Some(eq) => arg[eq + 1..] case None => "true"
  }

  /** A text that begins like a flag, taken as a flag before another one, never sets itself as a value. */
  lemma FlagTaken(arg: string, next: seq<string>, out: map<string, string>)
    requires StartsWith(arg, FLAG) && next != [] && StartsWith(next[0], FLAG)
    ensures FlagValue(arg) != arg
    ensures Named([arg] + next, out) == Named(next, out[FlagName(arg) := FlagValue(arg)])
  {
    var args := [arg] + next;
    assert args[1..] == next && args[1] == next[0];
    hide StartsWith, FirstIndex;
    if FlagValue(arg) == "true" { TrueIsNoFlag(); }
  }

  lemma TrueIsNoFlag()
    ensures !StartsWith("true", FLAG)
  {
    assert "true"[..2][0] == 't';
  }

  /** Whatever the worker command is, its arguments do not reach into those that follow it. */
  lemma {:induction false} CommandPassed(command: seq<string>, tail: seq<string>, out: map<string, string>)
    returns (before: map<string, string>)
    requires tail != [] && StartsWith(tail[0], FLAG)
    ensures Named(command + tail, out) == Named(tail, before)
    ensures (forall i :: 0 <= i < |command| ==> !StartsWith(command[i], FLAG)) ==> before == out
    decreases |command|
  {
    hide FirstIndex;
    if command == [] {
      assert command + tail == tail;
      before := out;
    } else {
      var args := command + tail;
      assert args[0] == command[0] && args[1..] == command[1..] + tail;
      if !StartsWith(args[0], FLAG) {
        before := CommandPassed(command[1..], tail, out);
      } else if FirstIndex(args[0], '=').Some? {
        var eq := FirstIndex(args[0], '=').value;
        before := CommandPassed(command[1..], tail, out[args[0][2..Max(2, eq)] := args[0][eq + 1..]]);
      } else if StartsWith(args[1], FLAG) {
        before := CommandPassed(command[1..], tail, out[args[0][2..] := "true"]);
      } else {
        assert args[2..] == command[2..] + tail && args[1] == command[1];
        before := CommandPassed(command[2..], tail, out[args[0][2..] := args[1]]);
      }
    }
  }

  /** A flag of the launcher with a value that does not look like a flag. */
  lemma ValueTaken(name: string, value: string, rest: seq<string>, out: map<string, string>)
    requires '=' !in name && !StartsWith(value, FLAG)
    ensures Named([FLAG + name, value] + rest, out) == Named(rest, out[name := value])
  {
    var args := [FLAG + name, value] + rest;
    assert args[0] == FLAG + name && args[1] == value && args[2..] == rest;
    assert args[0][..2] == FLAG && args[0][2..] == name;
    assert FirstIndex(args[0], '=').None?;
  }

  /** A flag of the launcher before something that looks like a flag. */
  lemma TrueTaken(name: string, rest: seq<string>, out: map<string, string>)
    requires '=' !in name && rest != [] && StartsWith(rest[0], FLAG)
    ensures Named([FLAG + name] + rest, out) == Named(rest, out[name := "true"])
  {
    var args := [FLAG + name] + rest;
    assert args[0] == FLAG + name && args[1] == rest[0] && args[1..] == rest;
    assert args[0][..2] == FLAG && args[0][2..] == name;
    assert FirstIndex(args[0], '=').None?;
  }

  /** One id of the launcher, before another flag: it is recovered exactly when it does not begin like a flag. */
  lemma IdTaken(name: string, id: string, rest: seq<string>, out: map<string, string>) returns (after: map<string, string>)
    requires '=' !in name && rest != [] && StartsWith(rest[0], FLAG) && !StartsWith("true", FLAG)
    ensures Named([FLAG + name, id] + rest, out) == Named(rest, after)
    ensures name in after && (after[name] == id <==> !StartsWith(id, FLAG))
    ensures !StartsWith(id, FLAG) ==> after == out[name := id]
    ensures out.Keys <= after.Keys
  {
    hide Named, StartsWith;
    if StartsWith(id, FLAG) {
      var next := [id] + rest;
      assert [FLAG + name, id] + rest == [FLAG + name] + next;
      TrueTaken(name, next, out);
      FlagTaken(id, rest, out[name := "true"]);
      after := out[name := "true"][FlagName(id) := FlagValue(id)];
    } else {
      ValueTaken(name, id, rest, out);
      after := out[name := id];
    }
  }

  /** The launcher's own arguments, after any others. */
  lemma IdsTaken(jobId: string, jobExecutionId: string, json: string, out: map<string, string>)
    requires !StartsWith(json, FLAG)
    ensures var named := Named(LauncherArgs(jobId, jobExecutionId, json), out);
      && "job-id" in named && "job-execution-id" in named && Lookup(named, "params-json") == Some(json)
      && (named["job-execution-id"] == jobExecutionId <==> !StartsWith(jobExecutionId, FLAG))
      && (!StartsWith(jobExecutionId, FLAG) ==> (named["job-id"] == jobId <==> !StartsWith(jobId, FLAG)))
      && (!StartsWith(jobExecutionId, FLAG) && !StartsWith(jobId, FLAG) ==>
            named == out["job-id" := jobId]["job-execution-id" := jobExecutionId]["params-json" := json])
  {
    hide Named, StartsWith, FlagName, FlagValue;
    var last := ["--params-json", json];
    var second := ["--job-execution-id", jobExecutionId] + last;
    FlagsLookLikeFlags();
    TrueIsNoFlag();
    assert ["--job-id", jobId] + second == LauncherArgs(jobId, jobExecutionId, json);
    var first := IdTaken("job-id", jobId, second, out);
    var ids := IdTaken("job-execution-id", jobExecutionId, last, first);
    ParamsTaken(json, ids);
  }

  lemma FlagsLookLikeFlags()
    ensures StartsWith("--job-id", FLAG) && StartsWith("--job-execution-id", FLAG) && StartsWith("--params-json", FLAG)
    ensures FLAG + "job-id" == "--job-id" && FLAG + "job-execution-id" == "--job-execution-id"
  {
  }

  lemma ParamsTaken(json: string, out: map<string, string>)
    requires !StartsWith(json, FLAG)
    ensures Named(["--params-json", json], out) == out["params-json" := json]
  {
    ValueTaken("params-json", json, [], out);
    assert FLAG + "params-json" == "--params-json";
    assert ["--params-json", json] + [] == ["--params-json", json];
  }

  /** What the worker runs is what the launcher asked for. */
  predicate Recovered<P(==)>(result: Result<Options<P>, Failure>, jobId: string, jobExecutionId: string, params: P) {
    result.Ok? && result.value.jobId == Some(jobId) && result.value.jobExecutionId == Some(jobExecutionId)
    && result.value.params == Some(params)
  }

  /**
   * The round trip, exactly: whatever the worker command is, flags of its own included, the worker recovers
   * the job, the execution and the parameters if and only if neither id begins with two dashes.
   */
  lemma ArgsRoundTripIff<P(!new)>(workerCommand: Option<seq<string>>, jobId: string, jobExecutionId: string, params: P,
                                  printJson: P -> string, parseJson: ParseJson<P>)
    requires InversePair(printJson, parseJson)
    ensures Recovered(ParsedArgs(BuildWorkerArgs(workerCommand, jobId, jobExecutionId, params, printJson), parseJson),
                      jobId, jobExecutionId, params)
       <==> !StartsWith(jobId, FLAG) && !StartsWith(jobExecutionId, FLAG)
  {
    var json := printJson(params);
    assert parseJson(json) == Ok(Record(params)) && json[0] == '{';
    assert !StartsWith(json, FLAG) by { BraceIsNoFlag(json); }
    hide Named, StartsWith;
    var before := NamedArgs(workerCommand, jobId, jobExecutionId, json);
    IdsTaken(jobId, jobExecutionId, json, before);
  }

  lemma BraceIsNoFlag(json: string)
    requires json != "" && json[0] == '{'
    ensures !StartsWith(json, FLAG)
  {
    assert |json| >= 2 ==> json[..2][0] == '{';
  }

  /** The arguments by name, with `before` standing for what the worker command left behind. */
  lemma NamedArgs(workerCommand: Option<seq<string>>, jobId: string, jobExecutionId: string, json: string)
    returns (before: map<string, string>)
    ensures Named(WithoutCommand((if workerCommand.Some? then workerCommand.value else [COMMAND])
                                 + LauncherArgs(jobId, jobExecutionId, json)), map[])
         == Named(LauncherArgs(jobId, jobExecutionId, json), before)
    ensures (workerCommand.Some? ==> forall i :: 0 <= i < |workerCommand.value| ==> !StartsWith(workerCommand.value[i], FLAG))
        ==> before == map[]
  {
    var command := if workerCommand.Some? then workerCommand.value else [COMMAND];
    var tail := LauncherArgs(jobId, jobExecutionId, json);
    var argv := command + tail;
    var left := if command != [] && command[0] == COMMAND then command[1..] else command;
    FlagsLookLikeFlags();
    assert WithoutCommand(argv) == left + tail;
    before := CommandPassed(left, tail, map[]);
  }

  /** With a command that has no flags of its own the worker gets exactly these options. */
  lemma ArgsRoundTrip<P(!new)>(workerCommand: Option<seq<string>>, jobId: string, jobExecutionId: string, params: P,
                               printJson: P -> string, parseJson: ParseJson<P>)
    requires InversePair(printJson, parseJson)
    requires workerCommand.Some? ==> forall i :: 0 <= i < |workerCommand.value| ==> !StartsWith(workerCommand.value[i], FLAG)
    requires !StartsWith(jobId, FLAG) && !StartsWith(jobExecutionId, FLAG)
    ensures ParsedArgs(BuildWorkerArgs(workerCommand, jobId, jobExecutionId, params, printJson), parseJson)
         == Ok(Options(Some(jobExecutionId), Some(jobId), Some(params), None, None))
  {
    var json := printJson(params);
    assert parseJson(json) == Ok(Record(params)) && json[0] == '{';
    assert !StartsWith(json, FLAG) by { BraceIsNoFlag(json); }
    hide Named, StartsWith, Resolved, LauncherArgs;
    var before := NamedArgs(workerCommand, jobId, jobExecutionId, json);
    IdsTaken(jobId, jobExecutionId, json, before);
    IdsResolved(jobId, jobExecutionId, json, params, parseJson);
  }

  lemma IdsResolved<P>(jobId: string, jobExecutionId: string, json: string, params: P, parseJson: ParseJson<P>)
    requires parseJson(json) == Ok(Record(params))
    ensures Resolved(map["job-id" := jobId]["job-execution-id" := jobExecutionId]["params-json" := json], parseJson)
         == Ok(Options(Some(jobExecutionId), Some(jobId), Some(params), None, None))
  {
    assert |"job-id"| == 6 && |"job-execution-id"| == 16 && |"params-json"| == 11 && |"partition-index"| == 15 && |"partition-count"| == 15;
  }
}
