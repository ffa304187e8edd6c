/**
  The `Helm` facade: one operation per helm subcommand. Each operation
  validates its arguments against its schema, serializes them in a fixed
  token order, builds `helm <subcommand> <args>`, runs it, and shapes the
  output. The `helm` binary itself is a parameter (`Binary`): what it prints
  or fails with for each command line.
*/
module Helm {
  import opened Wrappers
  import opened JsValues
  import opened Errors
  import Schemas
  import opened Helper

  /** What a child process gives back: its stdout, or a failure with the captured stderr, if any. */
  datatype ExecResult = Completed(stdout: string) | Failed(stderr: Option<string>)

  /** The external `helm` executable, seen through the command lines it is given. */
  type Binary = string -> ExecResult

  /** The three result shapes: `JSON.parse(output)`, `{ message: output }`, the raw output. */
  datatype Reply = Json(source: string) | Wrapped(message: string) | Text(output: string)

  datatype Shape = AsJson | AsMessage | AsText

  const OUTPUT_JSON: string := "-o json"

  // =====================================================================
  // buildCommand and exec
  // =====================================================================

  /** buildCommand: the executable, the subcommand and the arguments, one space apart. */
  function BuildCommand(command: string, args: string): (r: string)
    ensures |r| == |command| + |args| + 6
    ensures r[..5] == "helm " && r[5..5 + |command|] == command
    ensures r[5 + |command|] == ' ' && r[6 + |command|..] == args
  {
    "helm " + command + " " + args
  }

  /**
    exec: runs a command line. Every failure, including the InvalidParamError
    of its own empty-command guard, is rethrown as a CommandError carrying
    the failure's `stderr`; the guard's error has none.
  */
  function Exec(command: string, helm: Binary): (r: Result<string>)
    ensures r.Err? ==> r.error.CommandError?
    ensures command == "" ==> r == Err(CommandError(None))
    ensures command != "" && helm(command).Completed? ==> r == Ok(helm(command).stdout)
    ensures command != "" && helm(command).Failed? ==> r == Err(CommandError(helm(command).stderr))
  {
    // the try block: an empty command throws InvalidParamError('command'), which has no stderr
    var attempt := if command == "" then Failed(None) else helm(command);
    // the catch block
    match attempt
    case Completed(stdout) => Ok(stdout)
    case Failed(stderr) => Err(CommandError(stderr))
  }

  /** The guarded command error reads "undefined". */
  lemma EmptyCommandMessage(helm: Binary)
    ensures Exec("", helm).Err? && Message(Exec("", helm).error) == "undefined"
  {
  }

  function Shaped(shape: Shape, output: string): Reply {
    match shape
    case AsJson => Json(output)
    case AsMessage => Wrapped(output)
    case AsText => Text(output)
  }

  /** The last two steps of every operation: run the command line, if there is one, and shape the output. */
  function Run(plan: Result<string>, shape: Shape, helm: Binary): Result<Reply> {
    match plan
    case Err(e) => Err(e)
    case Ok(command) =>
      match Exec(command, helm)
      case Err(e) => Err(e)
      case Ok(output) => Ok(Shaped(shape, output))
  }

  /** What the binary's answer to `command` becomes: the shaped output, or a CommandError with its stderr. */
  function Response(command: string, shape: Shape, helm: Binary): Result<Reply> {
    match helm(command)
    case Completed(output) => Ok(Shaped(shape, output))
    case Failed(stderr) => Err(CommandError(stderr))
  }

  /** A built command line is never empty, so exec's guard never fires for it. */
  lemma RunBuilt(command: string, args: string, shape: Shape, helm: Binary)
    ensures Run(Ok(BuildCommand(command, args)), shape, helm) == Response(BuildCommand(command, args), shape, helm)
  {
  }

  // =====================================================================
  // The common pipeline
  // =====================================================================

  /** `...flags || []`: the elements of the flags array, none when it is absent. */
  function Spread(flags: JsValue): seq<JsValue> {
    if flags.Arr? then flags.elems else []
  }

  /** An array of flag strings. */
  function Flags(fs: seq<string>): JsValue {
    Arr(StrTokens(fs))
  }

  /** The error the flags check throws for unacceptable flags. */
  function FlagsError(flags: JsValue): Error {
    InvalidParamError(if flags.Arr? then "[flag]" else "[flags]")
  }

  /** validateParameters, then the command line built from the serialized tokens. */
  function Prepare(command: string, schema: Schemas.Schema, params: JsValue, tokens: seq<JsValue>): Result<string>
    requires params.Obj?
  {
    match Validate(params, Some(schema))
    case Fail(e) => Err(e)
    case Pass => Ok(BuildCommand(command, SerializeArgs(tokens)))
  }

  /** The first schema entry that does not hold decides the error, and nothing is run. */
  lemma PrepareMissing(command: string, schema: Schemas.Schema, params: JsValue, tokens: seq<JsValue>, k: nat)
    requires params.Obj?
    requires k < |schema| && !FieldHolds(params, schema[k])
    requires forall j :: 0 <= j < k ==> FieldHolds(params, schema[j])
    ensures Prepare(command, schema, params, tokens) == Err(MissingParamError(Bracketed(schema[k].key)))
  {
    FirstFailureWins(params, schema, k);
  }

  /** With every schema entry holding, the flags decide. */
  lemma PrepareFlags(command: string, schema: Schemas.Schema, params: JsValue, tokens: seq<JsValue>)
    requires params.Obj? && FieldsHold(params, schema)
    ensures !FlagsOk(Prop(params, "flags")) ==>
              Prepare(command, schema, params, tokens) == Err(FlagsError(Prop(params, "flags")))
    ensures FlagsOk(Prop(params, "flags")) ==>
              Prepare(command, schema, params, tokens) == Ok(BuildCommand(command, SerializeArgs(tokens)))
  {
  }

  /** A two-entry schema: the first entry, then the second, then the flags decide. */
  lemma PrepareTwo(command: string, schema: Schemas.Schema, params: JsValue, tokens: seq<JsValue>,
                   first: bool, second: bool)
    requires params.Obj? && |schema| == 2
    requires FieldHolds(params, schema[0]) <==> first
    requires FieldHolds(params, schema[1]) <==> second
    ensures !first ==> Prepare(command, schema, params, tokens) == Err(MissingParamError(Bracketed(schema[0].key)))
    ensures first && !second ==>
              Prepare(command, schema, params, tokens) == Err(MissingParamError(Bracketed(schema[1].key)))
    ensures first && second && !FlagsOk(Prop(params, "flags")) ==>
              Prepare(command, schema, params, tokens) == Err(FlagsError(Prop(params, "flags")))
    ensures first && second && FlagsOk(Prop(params, "flags")) ==>
              Prepare(command, schema, params, tokens) == Ok(BuildCommand(command, SerializeArgs(tokens)))
  {
    if !first {
      PrepareMissing(command, schema, params, tokens, 0);
    } else if !second {
      PrepareMissing(command, schema, params, tokens, 1);
    } else {
      assert FieldsHold(params, schema);
      PrepareFlags(command, schema, params, tokens);
    }
  }

  /** A one-entry schema: the entry, then the flags decide. */
  lemma PrepareOne(command: string, schema: Schemas.Schema, params: JsValue, tokens: seq<JsValue>, first: bool)
    requires params.Obj? && |schema| == 1
    requires FieldHolds(params, schema[0]) <==> first
    ensures !first ==> Prepare(command, schema, params, tokens) == Err(MissingParamError(Bracketed(schema[0].key)))
    ensures first && !FlagsOk(Prop(params, "flags")) ==>
              Prepare(command, schema, params, tokens) == Err(FlagsError(Prop(params, "flags")))
    ensures first && FlagsOk(Prop(params, "flags")) ==>
              Prepare(command, schema, params, tokens) == Ok(BuildCommand(command, SerializeArgs(tokens)))
  {
    if !first {
      PrepareMissing(command, schema, params, tokens, 0);
    } else {
      assert FieldsHold(params, schema);
      PrepareFlags(command, schema, params, tokens);
    }
  }

  // =====================================================================
  // The operations
  // =====================================================================

  /** The errors an operation with the given required keys can throw. */
  predicate OperationError(e: Error, keys: set<string>) {
    (e.MissingParamError? && exists k :: k in keys && e.param == Bracketed(k))
    || e == InvalidParamError("[flags]") || e == InvalidParamError("[flag]") || e.CommandError?
  }

  /**
    What running a prepared command gives: output of the operation's shape,
    a missing-parameter error for one of the schema's keys, a flags error, or
    the CommandError of the run.
  */
  lemma RunOutcome(command: string, schema: Schemas.Schema, params: JsValue, tokens: seq<JsValue>,
                   shape: Shape, helm: Binary, keys: set<string>)
    requires params.Obj?
    requires forall i :: 0 <= i < |schema| ==> schema[i].key in keys
    ensures var r := Run(Prepare(command, schema, params, tokens), shape, helm);
      (r.Ok? ==> r.value.Json? == (shape == AsJson) && r.value.Wrapped? == (shape == AsMessage)) &&
      (r.Err? ==> OperationError(r.error, keys))
  {
    var v := Validate(params, Some(schema));
    if v.Fail? && v.error.MissingParamError? {
      var i :| 0 <= i < |schema| && !FieldHolds(params, schema[i]) &&
               v.error == MissingParamError(Bracketed(schema[i].key));
      assert schema[i].key in keys;
    }
  }

  /** install: `helm install <release> <chart> -o json <flags...>`, JSON-parsed. */
  function Install(release: JsValue, chart: JsValue, flags: JsValue, helm: Binary): (r: Result<Reply>)
    ensures r.Ok? ==> r.value.Json?
    ensures r.Err? ==> OperationError(r.error, {"release", "chart"})
  {
    var params := Obj(map["release" := release, "chart" := chart, "flags" := flags]);
    var tokens := [release, chart, Str(OUTPUT_JSON)] + Spread(flags);
    RunOutcome("install", Schemas.INSTALL, params, tokens, AsJson, helm, {"release", "chart"});
    Run(Prepare("install", Schemas.INSTALL, params, tokens), AsJson, helm)
  }

  /** uninstall: `helm uninstall <release> <flags...>`, wrapped as a message. */
  function Uninstall(release: JsValue, flags: JsValue, helm: Binary): (r: Result<Reply>)
    ensures r.Ok? ==> r.value.Wrapped?
    ensures r.Err? ==> OperationError(r.error, {"release"})
  {
    var params := Obj(map["release" := release, "flags" := flags]);
    var tokens := [release] + Spread(flags);
    RunOutcome("uninstall", Schemas.UNINSTALL, params, tokens, AsMessage, helm, {"release"});
    Run(Prepare("uninstall", Schemas.UNINSTALL, params, tokens), AsMessage, helm)
  }

  /** upgrade: `helm upgrade <release> <chart> -o json <flags...>`, JSON-parsed. */
  function Upgrade(release: JsValue, chart: JsValue, flags: JsValue, helm: Binary): (r: Result<Reply>)
    ensures r.Ok? ==> r.value.Json?
    ensures r.Err? ==> OperationError(r.error, {"release", "chart"})
  {
    var params := Obj(map["release" := release, "chart" := chart, "flags" := flags]);
    var tokens := [release, chart, Str(OUTPUT_JSON)] + Spread(flags);
    RunOutcome("upgrade", Schemas.UPGRADE, params, tokens, AsJson, helm, {"release", "chart"});
    Run(Prepare("upgrade", Schemas.UPGRADE, params, tokens), AsJson, helm)
  }

  /**
    list: no validation; pushes "-o json" onto the caller's array (a fresh
    one when none is given) and joins all its elements with single spaces,
    empty ones included.
  */
  method List(flags: JsArray?, helm: Binary) returns (r: Result<Reply>)
    modifies flags
    ensures flags != null ==> flags.elems == old(flags.elems) + [Str(OUTPUT_JSON)]
    ensures r == Response(BuildCommand("list", ArrayJoin(
                   (if flags == null then [] else old(flags.elems)) + [Str(OUTPUT_JSON)], " ")), AsJson, helm)
  {
    var list := flags;
    if list == null {
      list := new JsArray([]);   // the default parameter `flags = []`
    }
    list.Push(Str(OUTPUT_JSON));
    var command := BuildCommand("list", ArrayJoin(list.elems, " "));
    r := Run(Ok(command), AsJson, helm);
  }

  /** history: `helm history <release> -o json <flags...>`, JSON-parsed. */
  function History(release: JsValue, flags: JsValue, helm: Binary): (r: Result<Reply>)
    ensures r.Ok? ==> r.value.Json?
    ensures r.Err? ==> OperationError(r.error, {"release"})
  {
    var params := Obj(map["release" := release, "flags" := flags]);
    var tokens := [release, Str(OUTPUT_JSON)] + Spread(flags);
    RunOutcome("history", Schemas.HISTORY, params, tokens, AsJson, helm, {"release"});
    Run(Prepare("history", Schemas.HISTORY, params, tokens), AsJson, helm)
  }

  /** rollback: `helm rollback <release> <revision> <flags...>`, wrapped as a message. */
  function Rollback(release: JsValue, revision: JsValue, flags: JsValue, helm: Binary): (r: Result<Reply>)
    ensures r.Ok? ==> r.value.Wrapped?
    ensures r.Err? ==> OperationError(r.error, {"release", "revision"})
  {
    var params := Obj(map["release" := release, "revision" := revision, "flags" := flags]);
    var tokens := [release, revision] + Spread(flags);
    RunOutcome("rollback", Schemas.ROLLBACK, params, tokens, AsMessage, helm, {"release", "revision"});
    Run(Prepare("rollback", Schemas.ROLLBACK, params, tokens), AsMessage, helm)
  }

  /** addRepository: `helm repo add <repositoryName> <url> <flags...>`, wrapped as a message. */
  function AddRepository(repositoryName: JsValue, url: JsValue, flags: JsValue, helm: Binary): (r: Result<Reply>)
    ensures r.Ok? ==> r.value.Wrapped?
    ensures r.Err? ==> OperationError(r.error, {"repositoryName", "url"})
  {
    var params := Obj(map["repositoryName" := repositoryName, "url" := url, "flags" := flags]);
    var tokens := [repositoryName, url] + Spread(flags);
    RunOutcome("repo add", Schemas.REPO_ADD, params, tokens, AsMessage, helm, {"repositoryName", "url"});
    Run(Prepare("repo add", Schemas.REPO_ADD, params, tokens), AsMessage, helm)
  }

  /** custom: `helm <name> <flags...>`, the raw output. */
  function Custom(name: JsValue, flags: JsValue, helm: Binary): (r: Result<Reply>)
    ensures r.Ok? ==> r.value.Text?
    ensures r.Err? ==> OperationError(r.error, {"name"})
  {
    var params := Obj(map["name" := name, "flags" := flags]);
    var tokens := Spread(flags);
    RunOutcome(ToString(name), Schemas.CUSTOM, params, tokens, AsText, helm, {"name"});
    Run(Prepare(ToString(name), Schemas.CUSTOM, params, tokens), AsText, helm)
  }

  // =====================================================================
  // What the operations do, stated on their inputs
  // =====================================================================

  /** The tokens `ts` are words that render as the strings `ss`. */
  predicate RendersAs(ts: seq<JsValue>, ss: seq<string>) {
    |ts| == |ss| && forall i :: 0 <= i < |ts| ==> Word(ts[i]) && ToString(ts[i]) == ss[i]
  }

  lemma RendersOne(t: JsValue, s: string)
    requires Word(t) && ToString(t) == s
    ensures RendersAs([t], [s])
  {
  }

  lemma RendersTwo(t: JsValue, s: string, u: JsValue, v: string)
    requires Word(t) && ToString(t) == s && Word(u) && ToString(u) == v
    ensures RendersAs([t, u], [s, v])
  {
  }

  lemma RendersThree(t: JsValue, s: string, u: JsValue, v: string, w: JsValue, x: string)
    requires Word(t) && ToString(t) == s && Word(u) && ToString(u) == v && Word(w) && ToString(w) == x
    ensures RendersAs([t, u, w], [s, v, x])
  {
  }

  /** parseArgs on words gives the words one space apart (the serializer's lemma, by rendering). */
  lemma SerializeWordsTo(ts: seq<JsValue>, ss: seq<string>)
    requires RendersAs(ts, ss)
    ensures SerializeArgs(ts) == Join(" ", ss)
  {
    SerializeWords(ts);
    assert Rendered(ts) == ss;
  }

  /** Fixed word arguments followed by clean flags serialize to all of them one space apart. */
  lemma ArgumentLine(ts: seq<JsValue>, ss: seq<string>, fs: seq<string>)
    requires RendersAs(ts, ss)
    requires forall i :: 0 <= i < |fs| ==> Clean(fs[i])
    ensures SerializeArgs(ts + Spread(Flags(fs))) == Join(" ", ss + fs)
  {
    var all, words := ts + StrTokens(fs), ss + fs;
    forall i | 0 <= i < |all|
      ensures Word(all[i]) && ToString(all[i]) == words[i]
    {
      if i < |ts| {
        assert all[i] == ts[i] && words[i] == ss[i];
      } else {
        assert all[i] == Str(fs[i - |ts|]) && words[i] == fs[i - |ts|];
      }
    }
    assert Spread(Flags(fs)) == StrTokens(fs);
    SerializeWordsTo(all, words);
  }

  /** Flags given as an array of strings always pass the flags check. */
  lemma FlagStringsOk(fs: seq<string>)
    ensures FlagsOk(Flags(fs)) && Spread(Flags(fs)) == StrTokens(fs)
  {
  }

  // Validation comes before the subprocess: an error that is not a
  // CommandError is the same whatever the binary would have answered, so no
  // command was run for it.

  lemma InstallValidatesFirst(release: JsValue, chart: JsValue, flags: JsValue, h1: Binary, h2: Binary)
    ensures Install(release, chart, flags, h1).Err? && !Install(release, chart, flags, h1).error.CommandError? ==>
              Install(release, chart, flags, h2) == Install(release, chart, flags, h1)
  {
  }

  lemma UpgradeValidatesFirst(release: JsValue, chart: JsValue, flags: JsValue, h1: Binary, h2: Binary)
    ensures Upgrade(release, chart, flags, h1).Err? && !Upgrade(release, chart, flags, h1).error.CommandError? ==>
              Upgrade(release, chart, flags, h2) == Upgrade(release, chart, flags, h1)
  {
  }

  lemma UninstallValidatesFirst(release: JsValue, flags: JsValue, h1: Binary, h2: Binary)
    ensures Uninstall(release, flags, h1).Err? && !Uninstall(release, flags, h1).error.CommandError? ==>
              Uninstall(release, flags, h2) == Uninstall(release, flags, h1)
  {
  }

  lemma HistoryValidatesFirst(release: JsValue, flags: JsValue, h1: Binary, h2: Binary)
    ensures History(release, flags, h1).Err? && !History(release, flags, h1).error.CommandError? ==>
              History(release, flags, h2) == History(release, flags, h1)
  {
  }

  lemma RollbackValidatesFirst(release: JsValue, revision: JsValue, flags: JsValue, h1: Binary, h2: Binary)
    ensures Rollback(release, revision, flags, h1).Err? && !Rollback(release, revision, flags, h1).error.CommandError? ==>
              Rollback(release, revision, flags, h2) == Rollback(release, revision, flags, h1)
  {
  }

  lemma AddRepositoryValidatesFirst(repositoryName: JsValue, url: JsValue, flags: JsValue, h1: Binary, h2: Binary)
    ensures AddRepository(repositoryName, url, flags, h1).Err? && !AddRepository(repositoryName, url, flags, h1).error.CommandError? ==>
              AddRepository(repositoryName, url, flags, h2) == AddRepository(repositoryName, url, flags, h1)
  {
  }

  lemma CustomValidatesFirst(name: JsValue, flags: JsValue, h1: Binary, h2: Binary)
    ensures Custom(name, flags, h1).Err? && !Custom(name, flags, h1).error.CommandError? ==>
              Custom(name, flags, h2) == Custom(name, flags, h1)
  {
  }

  // The argument strings of each operation's token shape, for clean words.

  lemma Regroup<T>(a: T, x: T, b: T, rest: seq<T>)
    ensures [a] + [x] + rest == [a, x] + rest
    ensures [] + [a] + [x, b] == [a, x, b] + []
    ensures [] + [x, b] == [x, b]
  {
  }

  lemma JoinTwo(sep: string, x: string, y: string)
    ensures Join(sep, [x, y]) == x + sep + y
  {
    assert [x, y][..1] == [x];
  }

  lemma JoinThree(sep: string, x: string, y: string, z: string)
    ensures Join(sep, [x, y, z]) == x + sep + y + sep + z
  {
    assert [x, y, z][..2] == [x, y];
    JoinTwo(sep, x, y);
  }

  /** "-o json" is one word: it neither starts nor ends with whitespace. */
  lemma OutputJsonClean()
    ensures Clean(OUTPUT_JSON) && Word(Str(OUTPUT_JSON))
  {
  }

  lemma ReleaseChartLine(release: string, chart: string, fs: seq<string>)
    requires Clean(release) && Clean(chart)
    requires forall i :: 0 <= i < |fs| ==> Clean(fs[i])
    ensures SerializeArgs([Str(release), Str(chart), Str(OUTPUT_JSON)] + Spread(Flags(fs)))
         == Join(" ", [release, chart, OUTPUT_JSON] + fs)
  {
    OutputJsonClean();
    RendersThree(Str(release), release, Str(chart), chart, Str(OUTPUT_JSON), OUTPUT_JSON);
    ArgumentLine([Str(release), Str(chart), Str(OUTPUT_JSON)], [release, chart, OUTPUT_JSON], fs);
  }

  lemma ReleaseLine(release: string, fs: seq<string>)
    requires Clean(release)
    requires forall i :: 0 <= i < |fs| ==> Clean(fs[i])
    ensures SerializeArgs([Str(release)] + Spread(Flags(fs))) == Join(" ", [release] + fs)
    ensures SerializeArgs([Str(release), Str(OUTPUT_JSON)] + Spread(Flags(fs))) == Join(" ", [release, OUTPUT_JSON] + fs)
  {
    RendersOne(Str(release), release);
    ArgumentLine([Str(release)], [release], fs);
    OutputJsonClean();
    RendersTwo(Str(release), release, Str(OUTPUT_JSON), OUTPUT_JSON);
    ArgumentLine([Str(release), Str(OUTPUT_JSON)], [release, OUTPUT_JSON], fs);
  }

  lemma PairLine(first: string, second: string, fs: seq<string>)
    requires Clean(first) && Clean(second)
    requires forall i :: 0 <= i < |fs| ==> Clean(fs[i])
    ensures SerializeArgs([Str(first), Str(second)] + Spread(Flags(fs))) == Join(" ", [first, second] + fs)
  {
    RendersTwo(Str(first), first, Str(second), second);
    ArgumentLine([Str(first), Str(second)], [first, second], fs);
  }

  lemma RevisionLine(release: string, revision: int, fs: seq<string>)
    requires Clean(release)
    requires forall i :: 0 <= i < |fs| ==> Clean(fs[i])
    ensures revision != 0 ==> SerializeArgs([Str(release), Num(revision)] + Spread(Flags(fs)))
                              == Join(" ", [release, IntToString(revision)] + fs)
    ensures revision == 0 ==> SerializeArgs([Str(release), Num(revision)] + Spread(Flags(fs)))
                              == Join(" ", [release] + fs)
  {
    if revision == 0 {
      SkipsFalsy([Str(release)], Num(0), Spread(Flags(fs)));
      Regroup(Str(release), Num(0), Num(0), Spread(Flags(fs)));
      RendersOne(Str(release), release);
      ArgumentLine([Str(release)], [release], fs);
    } else {
      RendersTwo(Str(release), release, Num(revision), IntToString(revision));
      ArgumentLine([Str(release), Num(revision)], [release, IntToString(revision)], fs);
    }
  }

  lemma FlagsLine(fs: seq<string>)
    requires forall i :: 0 <= i < |fs| ==> Clean(fs[i])
    ensures SerializeArgs(Spread(Flags(fs))) == Join(" ", fs)
    ensures SerializeArgs(Spread(Undef)) == ""
  {
    assert RendersAs([], []);
    ArgumentLine([], [], fs);
    assert [] + Spread(Flags(fs)) == Spread(Flags(fs)) && [] + fs == fs;
    SerializeEmpty();
  }

  lemma NoFlagsLine()
    ensures SerializeArgs(Spread(Undef)) == ""
  {
    assert Spread(Undef) == [];
    SerializeEmpty();
  }

  lemma EmptyReleaseLine(chart: string)
    requires Clean(chart)
    ensures SerializeArgs([Str(""), Str(chart), Str(OUTPUT_JSON)] + Spread(Undef)) == chart + " " + OUTPUT_JSON
  {
    OutputJsonClean();
    SkipsFalsy([], Str(""), [Str(chart), Str(OUTPUT_JSON)]);
    Regroup(Str(""), Str(chart), Str(OUTPUT_JSON), []);
    RendersTwo(Str(chart), chart, Str(OUTPUT_JSON), OUTPUT_JSON);
    SerializeWordsTo([Str(chart), Str(OUTPUT_JSON)], [chart, OUTPUT_JSON]);
    JoinTwo(" ", chart, OUTPUT_JSON);
  }


  /** What each schema entry asks of install's parameter object, and the error it names. */
  lemma InstallParams(release: JsValue, chart: JsValue, flags: JsValue)
    ensures var p := Obj(map["release" := release, "chart" := chart, "flags" := flags]);
      (FieldHolds(p, Schemas.INSTALL[0]) <==> release.Str?) &&
      (FieldHolds(p, Schemas.INSTALL[1]) <==> chart.Str?) && Prop(p, "flags") == flags &&
      Bracketed(Schemas.INSTALL[0].key) == "[release]" && Bracketed(Schemas.INSTALL[1].key) == "[chart]"
  {
  }

  /**
    install checks `release`, then `chart`, then the flags, and throws the first
    failure without running anything; an omitted argument is `undefined` and
    fails its type check. Otherwise it runs the command built from release,
    chart, "-o json" and the flags, in that order.
  */
  lemma InstallChecks(release: JsValue, chart: JsValue, flags: JsValue, helm: Binary)
    ensures !release.Str? ==> Install(release, chart, flags, helm) == Err(MissingParamError("[release]"))
    ensures release.Str? && !chart.Str? ==> Install(release, chart, flags, helm) == Err(MissingParamError("[chart]"))
    ensures release.Str? && chart.Str? && !FlagsOk(flags) ==>
              Install(release, chart, flags, helm) == Err(FlagsError(flags))
    ensures release.Str? && chart.Str? && FlagsOk(flags) ==>
              Install(release, chart, flags, helm) == Response(BuildCommand("install",
                SerializeArgs([release, chart, Str(OUTPUT_JSON)] + Spread(flags))), AsJson, helm)
  {
    var params := Obj(map["release" := release, "chart" := chart, "flags" := flags]);
    var tokens := [release, chart, Str(OUTPUT_JSON)] + Spread(flags);
    InstallParams(release, chart, flags);
    PrepareTwo("install", Schemas.INSTALL, params, tokens, release.Str?, chart.Str?);
    RunBuilt("install", SerializeArgs(tokens), AsJson, helm);
  }

  /** install with clean arguments: the exact command line, and the JSON of its output. */
  lemma InstallCommandLine(release: string, chart: string, fs: seq<string>, helm: Binary)
    requires Clean(release) && Clean(chart)
    requires forall i :: 0 <= i < |fs| ==> Clean(fs[i])
    ensures Install(Str(release), Str(chart), Flags(fs), helm)
         == Response(BuildCommand("install", Join(" ", [release, chart, OUTPUT_JSON] + fs)), AsJson, helm)
  {
    ReleaseChartLine(release, chart, fs);
    FlagStringsOk(fs);
    InstallChecks(Str(release), Str(chart), Flags(fs), helm);
  }

  lemma UpgradeParams(release: JsValue, chart: JsValue, flags: JsValue)
    ensures var p := Obj(map["release" := release, "chart" := chart, "flags" := flags]);
      (FieldHolds(p, Schemas.UPGRADE[0]) <==> release.Str?) &&
      (FieldHolds(p, Schemas.UPGRADE[1]) <==> chart.Str?) && Prop(p, "flags") == flags &&
      Bracketed(Schemas.UPGRADE[0].key) == "[release]" && Bracketed(Schemas.UPGRADE[1].key) == "[chart]"
  {
  }

  /** upgrade checks and builds exactly as install does, with subcommand "upgrade". */
  lemma UpgradeChecks(release: JsValue, chart: JsValue, flags: JsValue, helm: Binary)
    ensures !release.Str? ==> Upgrade(release, chart, flags, helm) == Err(MissingParamError("[release]"))
    ensures release.Str? && !chart.Str? ==> Upgrade(release, chart, flags, helm) == Err(MissingParamError("[chart]"))
    ensures release.Str? && chart.Str? && !FlagsOk(flags) ==>
              Upgrade(release, chart, flags, helm) == Err(FlagsError(flags))
    ensures release.Str? && chart.Str? && FlagsOk(flags) ==>
              Upgrade(release, chart, flags, helm) == Response(BuildCommand("upgrade",
                SerializeArgs([release, chart, Str(OUTPUT_JSON)] + Spread(flags))), AsJson, helm)
  {
    var params := Obj(map["release" := release, "chart" := chart, "flags" := flags]);
    var tokens := [release, chart, Str(OUTPUT_JSON)] + Spread(flags);
    UpgradeParams(release, chart, flags);
    PrepareTwo("upgrade", Schemas.UPGRADE, params, tokens, release.Str?, chart.Str?);
    RunBuilt("upgrade", SerializeArgs(tokens), AsJson, helm);
  }

  lemma UpgradeCommandLine(release: string, chart: string, fs: seq<string>, helm: Binary)
    requires Clean(release) && Clean(chart)
    requires forall i :: 0 <= i < |fs| ==> Clean(fs[i])
    ensures Upgrade(Str(release), Str(chart), Flags(fs), helm)
         == Response(BuildCommand("upgrade", Join(" ", [release, chart, OUTPUT_JSON] + fs)), AsJson, helm)
  {
    ReleaseChartLine(release, chart, fs);
    FlagStringsOk(fs);
    UpgradeChecks(Str(release), Str(chart), Flags(fs), helm);
  }

  /**
    An empty release name is a string, so it passes validation, and is falsy,
    so parseArgs drops it: the chart takes its place on the command line.
  */
  lemma InstallEmptyRelease(chart: string, helm: Binary)
    requires Clean(chart)
    ensures Install(Str(""), Str(chart), Undef, helm)
         == Response(BuildCommand("install", chart + " " + OUTPUT_JSON), AsJson, helm)
  {
    var tokens := [Str(""), Str(chart), Str(OUTPUT_JSON)] + Spread(Undef);
    InstallChecks(Str(""), Str(chart), Undef, helm);
    assert FlagsOk(Undef);
    assert Install(Str(""), Str(chart), Undef, helm) == Response(BuildCommand("install", SerializeArgs(tokens)), AsJson, helm);
    EmptyReleaseLine(chart);
  }

  lemma UninstallParams(release: JsValue, flags: JsValue)
    ensures var p := Obj(map["release" := release, "flags" := flags]);
      (FieldHolds(p, Schemas.UNINSTALL[0]) <==> release.Str?) && Prop(p, "flags") == flags &&
      Bracketed(Schemas.UNINSTALL[0].key) == "[release]"
  {
  }

  /** uninstall checks `release`, then the flags; it runs `release` and the flags. */
  lemma UninstallChecks(release: JsValue, flags: JsValue, helm: Binary)
    ensures !release.Str? ==> Uninstall(release, flags, helm) == Err(MissingParamError("[release]"))
    ensures release.Str? && !FlagsOk(flags) ==> Uninstall(release, flags, helm) == Err(FlagsError(flags))
    ensures release.Str? && FlagsOk(flags) ==>
              Uninstall(release, flags, helm) == Response(BuildCommand("uninstall",
                SerializeArgs([release] + Spread(flags))), AsMessage, helm)
  {
    var params := Obj(map["release" := release, "flags" := flags]);
    var tokens := [release] + Spread(flags);
    UninstallParams(release, flags);
    PrepareOne("uninstall", Schemas.UNINSTALL, params, tokens, release.Str?);
    RunBuilt("uninstall", SerializeArgs(tokens), AsMessage, helm);
  }

  lemma UninstallCommandLine(release: string, fs: seq<string>, helm: Binary)
    requires Clean(release)
    requires forall i :: 0 <= i < |fs| ==> Clean(fs[i])
    ensures Uninstall(Str(release), Flags(fs), helm)
         == Response(BuildCommand("uninstall", Join(" ", [release] + fs)), AsMessage, helm)
  {
    ReleaseLine(release, fs);
    FlagStringsOk(fs);
    UninstallChecks(Str(release), Flags(fs), helm);
  }

  lemma HistoryParams(release: JsValue, flags: JsValue)
    ensures var p := Obj(map["release" := release, "flags" := flags]);
      (FieldHolds(p, Schemas.HISTORY[0]) <==> release.Str?) && Prop(p, "flags") == flags &&
      Bracketed(Schemas.HISTORY[0].key) == "[release]"
  {
  }

  /** history checks `release`, then the flags; it runs `release`, "-o json" and the flags. */
  lemma HistoryChecks(release: JsValue, flags: JsValue, helm: Binary)
    ensures !release.Str? ==> History(release, flags, helm) == Err(MissingParamError("[release]"))
    ensures release.Str? && !FlagsOk(flags) ==> History(release, flags, helm) == Err(FlagsError(flags))
    ensures release.Str? && FlagsOk(flags) ==>
              History(release, flags, helm) == Response(BuildCommand("history",
                SerializeArgs([release, Str(OUTPUT_JSON)] + Spread(flags))), AsJson, helm)
  {
    var params := Obj(map["release" := release, "flags" := flags]);
    var tokens := [release, Str(OUTPUT_JSON)] + Spread(flags);
    HistoryParams(release, flags);
    PrepareOne("history", Schemas.HISTORY, params, tokens, release.Str?);
    RunBuilt("history", SerializeArgs(tokens), AsJson, helm);
  }

  lemma HistoryCommandLine(release: string, fs: seq<string>, helm: Binary)
    requires Clean(release)
    requires forall i :: 0 <= i < |fs| ==> Clean(fs[i])
    ensures History(Str(release), Flags(fs), helm)
         == Response(BuildCommand("history", Join(" ", [release, OUTPUT_JSON] + fs)), AsJson, helm)
  {
    ReleaseLine(release, fs);
    FlagStringsOk(fs);
    HistoryChecks(Str(release), Flags(fs), helm);
  }

  lemma RollbackParams(release: JsValue, revision: JsValue, flags: JsValue)
    ensures var p := Obj(map["release" := release, "revision" := revision, "flags" := flags]);
      (FieldHolds(p, Schemas.ROLLBACK[0]) <==> release.Str?) &&
      (FieldHolds(p, Schemas.ROLLBACK[1]) <==> revision.Num?) && Prop(p, "flags") == flags &&
      Bracketed(Schemas.ROLLBACK[0].key) == "[release]" && Bracketed(Schemas.ROLLBACK[1].key) == "[revision]"
  {
  }

  /** rollback checks `release`, then that `revision` is a number, then the flags. */
  lemma RollbackChecks(release: JsValue, revision: JsValue, flags: JsValue, helm: Binary)
    ensures !release.Str? ==> Rollback(release, revision, flags, helm) == Err(MissingParamError("[release]"))
    ensures release.Str? && !revision.Num? ==>
              Rollback(release, revision, flags, helm) == Err(MissingParamError("[revision]"))
    ensures release.Str? && revision.Num? && !FlagsOk(flags) ==>
              Rollback(release, revision, flags, helm) == Err(FlagsError(flags))
    ensures release.Str? && revision.Num? && FlagsOk(flags) ==>
              Rollback(release, revision, flags, helm) == Response(BuildCommand("rollback",
                SerializeArgs([release, revision] + Spread(flags))), AsMessage, helm)
  {
    var params := Obj(map["release" := release, "revision" := revision, "flags" := flags]);
    var tokens := [release, revision] + Spread(flags);
    RollbackParams(release, revision, flags);
    PrepareTwo("rollback", Schemas.ROLLBACK, params, tokens, release.Str?, revision.Num?);
    RunBuilt("rollback", SerializeArgs(tokens), AsMessage, helm);
  }

  /**
    rollback with clean arguments: the revision follows the release, except
    revision 0, which is falsy and silently left off the command line.
  */
  lemma RollbackCommandLine(release: string, revision: int, fs: seq<string>, helm: Binary)
    requires Clean(release)
    requires forall i :: 0 <= i < |fs| ==> Clean(fs[i])
    ensures revision != 0 ==>
              Rollback(Str(release), Num(revision), Flags(fs), helm)
              == Response(BuildCommand("rollback", Join(" ", [release, IntToString(revision)] + fs)), AsMessage, helm)
    ensures revision == 0 ==>
              Rollback(Str(release), Num(revision), Flags(fs), helm)
              == Response(BuildCommand("rollback", Join(" ", [release] + fs)), AsMessage, helm)
  {
    RevisionLine(release, revision, fs);
    FlagStringsOk(fs);
    RollbackChecks(Str(release), Num(revision), Flags(fs), helm);
  }

  lemma AddRepositoryParams(repositoryName: JsValue, url: JsValue, flags: JsValue)
    ensures var p := Obj(map["repositoryName" := repositoryName, "url" := url, "flags" := flags]);
      (FieldHolds(p, Schemas.REPO_ADD[0]) <==> repositoryName.Str?) &&
      (FieldHolds(p, Schemas.REPO_ADD[1]) <==> url.Str?) && Prop(p, "flags") == flags &&
      Bracketed(Schemas.REPO_ADD[0].key) == "[repositoryName]" && Bracketed(Schemas.REPO_ADD[1].key) == "[url]"
  {
  }

  /** addRepository checks `repositoryName`, then `url`, then the flags, and runs `helm repo add`. */
  lemma AddRepositoryChecks(repositoryName: JsValue, url: JsValue, flags: JsValue, helm: Binary)
    ensures !repositoryName.Str? ==>
              AddRepository(repositoryName, url, flags, helm) == Err(MissingParamError("[repositoryName]"))
    ensures repositoryName.Str? && !url.Str? ==>
              AddRepository(repositoryName, url, flags, helm) == Err(MissingParamError("[url]"))
    ensures repositoryName.Str? && url.Str? && !FlagsOk(flags) ==>
              AddRepository(repositoryName, url, flags, helm) == Err(FlagsError(flags))
    ensures repositoryName.Str? && url.Str? && FlagsOk(flags) ==>
              AddRepository(repositoryName, url, flags, helm) == Response(BuildCommand("repo add",
                SerializeArgs([repositoryName, url] + Spread(flags))), AsMessage, helm)
  {
    var params := Obj(map["repositoryName" := repositoryName, "url" := url, "flags" := flags]);
    var tokens := [repositoryName, url] + Spread(flags);
    AddRepositoryParams(repositoryName, url, flags);
    PrepareTwo("repo add", Schemas.REPO_ADD, params, tokens, repositoryName.Str?, url.Str?);
    RunBuilt("repo add", SerializeArgs(tokens), AsMessage, helm);
  }

  lemma AddRepositoryCommandLine(repositoryName: string, url: string, fs: seq<string>, helm: Binary)
    requires Clean(repositoryName) && Clean(url)
    requires forall i :: 0 <= i < |fs| ==> Clean(fs[i])
    ensures AddRepository(Str(repositoryName), Str(url), Flags(fs), helm)
         == Response(BuildCommand("repo add", Join(" ", [repositoryName, url] + fs)), AsMessage, helm)
  {
    PairLine(repositoryName, url, fs);
    FlagStringsOk(fs);
    AddRepositoryChecks(Str(repositoryName), Str(url), Flags(fs), helm);
  }

  lemma CustomParams(name: JsValue, flags: JsValue)
    ensures var p := Obj(map["name" := name, "flags" := flags]);
      (FieldHolds(p, Schemas.CUSTOM[0]) <==> name.Str?) && Prop(p, "flags") == flags &&
      Bracketed(Schemas.CUSTOM[0].key) == "[name]"
  {
  }

  /** custom checks `name`, then the flags; the name is the subcommand, the flags its arguments. */
  lemma CustomChecks(name: JsValue, flags: JsValue, helm: Binary)
    ensures !name.Str? ==> Custom(name, flags, helm) == Err(MissingParamError("[name]"))
    ensures name.Str? && !FlagsOk(flags) ==> Custom(name, flags, helm) == Err(FlagsError(flags))
    ensures name.Str? && FlagsOk(flags) ==>
              Custom(name, flags, helm) == Response(BuildCommand(name.s, SerializeArgs(Spread(flags))), AsText, helm)
  {
    var params := Obj(map["name" := name, "flags" := flags]);
    CustomParams(name, flags);
    PrepareOne(ToString(name), Schemas.CUSTOM, params, Spread(flags), name.Str?);
    RunBuilt(ToString(name), SerializeArgs(Spread(flags)), AsText, helm);
  }

  /** custom with clean flags: `helm <name> ` followed by the flags one space apart. */
  lemma CustomCommandLine(name: string, fs: seq<string>, helm: Binary)
    requires forall i :: 0 <= i < |fs| ==> Clean(fs[i])
    ensures Custom(Str(name), Flags(fs), helm) == Response(BuildCommand(name, Join(" ", fs)), AsText, helm)
  {
    FlagsLine(fs);
    FlagStringsOk(fs);
    CustomChecks(Str(name), Flags(fs), helm);
  }

  /** custom without flags: the command line ends in the separating space. */
  lemma CustomWithoutFlags(name: string, helm: Binary)
    ensures Custom(Str(name), Undef, helm) == Response(BuildCommand(name, ""), AsText, helm)
  {
    CustomChecks(Str(name), Undef, helm);
    assert FlagsOk(Undef);
    assert Custom(Str(name), Undef, helm) == Response(BuildCommand(name, SerializeArgs(Spread(Undef))), AsText, helm);
    NoFlagsLine();
  }

  /** The command line list builds from the caller's flags: every element, then "-o json". */
  lemma ListCommandLine(es: seq<JsValue>)
    ensures BuildCommand("list", ArrayJoin(es + [Str(OUTPUT_JSON)], " "))
         == "helm list " + (if es == [] then "" else ArrayJoin(es, " ") + " ") + OUTPUT_JSON
  {
    var all := es + [Str(OUTPUT_JSON)];
    var ss := seq(|all|, i requires 0 <= i < |all| => ElementString(all[i]));
    assert ss[..|es|] == seq(|es|, i requires 0 <= i < |es| => ElementString(es[i]));
    assert ss[|es|] == OUTPUT_JSON;
  }

  /**
    list runs the plain `helm list -o json` exactly when the caller's array
    held nothing before the push: any element adds at least a separator.
  */
  lemma ListPlainExactlyWhenEmpty(es: seq<JsValue>)
    ensures BuildCommand("list", ArrayJoin(es + [Str(OUTPUT_JSON)], " ")) == "helm list -o json" <==> es == []
  {
    ListCommandLine(es);
    if es == [] {
      FirstListLine();
    } else {
      var line := "helm list " + (ArrayJoin(es, " ") + " ") + OUTPUT_JSON;
      assert |line| >= 18 > |"helm list -o json"|;
    }
  }

  /** list does not skip empty flags: an empty string still contributes its separator. */
  lemma ListKeepsEmptyFlags()
    ensures BuildCommand("list", ArrayJoin([Str(""), Str(OUTPUT_JSON)], " ")) == "helm list  " + OUTPUT_JSON
  {
    ListCommandLine([Str("")]);
    assert ArrayJoin([Str("")], " ") == "";
    assert [Str("")] + [Str(OUTPUT_JSON)] == [Str(""), Str(OUTPUT_JSON)];
  }

  /** The command lines list builds from an empty array and from one already holding "-o json". */
  lemma FirstListLine()
    ensures BuildCommand("list", ArrayJoin([] + [Str(OUTPUT_JSON)], " ")) == "helm list -o json"
  {
    ListCommandLine([]);
    assert "helm list " + "" + OUTPUT_JSON == "helm list -o json";
  }

  lemma SecondListLine()
    ensures BuildCommand("list", ArrayJoin([Str(OUTPUT_JSON)] + [Str(OUTPUT_JSON)], " ")) == "helm list -o json -o json"
  {
    ListCommandLine([Str(OUTPUT_JSON)]);
    assert ArrayJoin([Str(OUTPUT_JSON)], " ") == OUTPUT_JSON;
    assert "helm list " + (OUTPUT_JSON + " ") + OUTPUT_JSON == "helm list -o json -o json";
  }

  /** Calling list twice with the same array runs "-o json" twice the second time. */
  method ListTwice(helm: Binary) returns (first: Result<Reply>, second: Result<Reply>)
    ensures first == Response("helm list -o json", AsJson, helm)
    ensures second == Response("helm list -o json -o json", AsJson, helm)
  {
    var flags := new JsArray([]);
    first := List(flags, helm);
    assert flags.elems == [Str(OUTPUT_JSON)];
    second := List(flags, helm);
    FirstListLine();
    SecondListLine();
  }

  // The end-to-end cases, with the binary's answer to each command line given.

  lemma InstallLine()
    ensures BuildCommand("install", Join(" ", ["nginx", "bitnami/nginx", OUTPUT_JSON] + []))
         == "helm install nginx bitnami/nginx -o json"
  {
    var words := ["nginx", "bitnami/nginx", OUTPUT_JSON];
    assert words + [] == words;
    InstallWords();
    InstallPrefix("nginx bitnami/nginx -o json");
    InstallLiteral();
  }

  lemma InstallWords()
    ensures Join(" ", ["nginx", "bitnami/nginx", OUTPUT_JSON]) == "nginx bitnami/nginx -o json"
  {
    JoinThree(" ", "nginx", "bitnami/nginx", OUTPUT_JSON);
    assert "nginx" + " " + "bitnami/nginx" == "nginx bitnami/nginx";
  }

  lemma InstallPrefix(args: string)
    ensures BuildCommand("install", args) == "helm install " + args
  {
    assert "helm " + "install" + " " == "helm install ";
  }

  lemma InstallLiteral()
    ensures "helm install " + "nginx bitnami/nginx -o json" == "helm install nginx bitnami/nginx -o json"
  {
  }

  /** install runs the documented command line and hands back the parsed JSON. */
  lemma InstallExample(helm: Binary)
    requires helm("helm install nginx bitnami/nginx -o json") == Completed("{\"name\":\"nginx\"}")
    ensures Install(Str("nginx"), Str("bitnami/nginx"), Flags([]), helm) == Ok(Json("{\"name\":\"nginx\"}"))
  {
    InstallLine();
    InstallCommandLine("nginx", "bitnami/nginx", [], helm);
  }

  lemma UninstallLine()
    ensures BuildCommand("uninstall", Join(" ", ["nginx"] + [])) == "helm uninstall nginx"
  {
    assert ["nginx"] + [] == ["nginx"];
  }

  /** uninstall wraps the binary's output as a message. */
  lemma UninstallExample(helm: Binary)
    requires helm("helm uninstall nginx") == Completed("release uninstalled")
    ensures Uninstall(Str("nginx"), Flags([]), helm) == Ok(Wrapped("release uninstalled"))
  {
    UninstallLine();
    UninstallCommandLine("nginx", [], helm);
  }

  lemma RollbackLine()
    ensures BuildCommand("rollback", Join(" ", ["app", IntToString(3)] + [])) == "helm rollback app 3"
  {
    assert IntToString(3) == "3";
    assert ["app", "3"] + [] == ["app", "3"];
    JoinTwo(" ", "app", "3");
  }

  /** A failing binary's stderr becomes the message of the CommandError rollback throws. */
  lemma RollbackFailureExample(helm: Binary)
    requires helm("helm rollback app 3") == Failed(Some("release: not found"))
    ensures Rollback(Str("app"), Num(3), Flags([]), helm).Err?
    ensures Message(Rollback(Str("app"), Num(3), Flags([]), helm).error) == "release: not found"
  {
    RollbackLine();
    RollbackCommandLine("app", 3, [], helm);
    assert Rollback(Str("app"), Num(3), Flags([]), helm) == Err(CommandError(Some("release: not found")));
  }
}
