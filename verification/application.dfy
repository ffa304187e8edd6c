/**
  The `Application` facade: the near-duplicate of `Helm`. Its `install`,
  `uninstall`, `upgrade`, `history` and `rollback` follow the same pipeline
  with the same token orders, and its `buildCommand` and `exec` are the same
  as `Helm`'s, so they are shared. It has no `addRepository`. Its `list` and
  `custom` differ: `list` passes its flags as a third argument that
  `buildCommand` ignores, and `custom` interpolates `flags` directly into the
  command line instead of serializing it.
*/
module Application {
  import opened Wrappers
  import opened JsValues
  import opened Errors
  import opened Helper
  import Schemas
  import Helm

  /** install: validated, then `helm install <release> <chart> -o json <flags...>`, exactly as in `Helm`. */
  function Install(release: JsValue, chart: JsValue, flags: JsValue, helm: Helm.Binary): (r: Result<Helm.Reply>)
    ensures r == Helm.Install(release, chart, flags, helm)
  {
    var params := Obj(map["release" := release, "chart" := chart, "flags" := flags]);
    var tokens := [release, chart, Str(Helm.OUTPUT_JSON)] + Helm.Spread(flags);
    Helm.Run(Helm.Prepare("install", Schemas.INSTALL, params, tokens), Helm.AsJson, helm)
  }

  /** uninstall: validated, then `helm uninstall <release> <flags...>`, wrapped as a message. */
  function Uninstall(release: JsValue, flags: JsValue, helm: Helm.Binary): (r: Result<Helm.Reply>)
    ensures r == Helm.Uninstall(release, flags, helm)
  {
    var params := Obj(map["release" := release, "flags" := flags]);
    Helm.Run(Helm.Prepare("uninstall", Schemas.UNINSTALL, params, [release] + Helm.Spread(flags)), Helm.AsMessage, helm)
  }

  /** upgrade: validated, then `helm upgrade <release> <chart> -o json <flags...>`, exactly as in `Helm`. */
  function Upgrade(release: JsValue, chart: JsValue, flags: JsValue, helm: Helm.Binary): (r: Result<Helm.Reply>)
    ensures r == Helm.Upgrade(release, chart, flags, helm)
  {
    var params := Obj(map["release" := release, "chart" := chart, "flags" := flags]);
    var tokens := [release, chart, Str(Helm.OUTPUT_JSON)] + Helm.Spread(flags);
    Helm.Run(Helm.Prepare("upgrade", Schemas.UPGRADE, params, tokens), Helm.AsJson, helm)
  }

  /** history: validated, then `helm history <release> -o json <flags...>`, JSON-parsed. */
  function History(release: JsValue, flags: JsValue, helm: Helm.Binary): (r: Result<Helm.Reply>)
    ensures r == Helm.History(release, flags, helm)
  {
    var params := Obj(map["release" := release, "flags" := flags]);
    var tokens := [release, Str(Helm.OUTPUT_JSON)] + Helm.Spread(flags);
    Helm.Run(Helm.Prepare("history", Schemas.HISTORY, params, tokens), Helm.AsJson, helm)
  }

  /** rollback: validated, then `helm rollback <release> <revision> <flags...>`, wrapped as a message. */
  function Rollback(release: JsValue, revision: JsValue, flags: JsValue, helm: Helm.Binary): (r: Result<Helm.Reply>)
    ensures r == Helm.Rollback(release, revision, flags, helm)
  {
    var params := Obj(map["release" := release, "revision" := revision, "flags" := flags]);
    var tokens := [release, revision] + Helm.Spread(flags);
    Helm.Run(Helm.Prepare("rollback", Schemas.ROLLBACK, params, tokens), Helm.AsMessage, helm)
  }

  /**
    list: no validation; `buildCommand('list', '-o json', flags)` drops its
    third argument, so the flags never reach the command line and are not
    touched. The output is JSON-parsed; the only error is the binary's.
  */
  function List(flags: JsValue, helm: Helm.Binary): (r: Result<Helm.Reply>)
    ensures r.Ok? ==> r.value.Json?
    ensures r.Err? ==> r.error.CommandError?
  {
    Helm.Run(Ok(Helm.BuildCommand("list", Helm.OUTPUT_JSON)), Helm.AsJson, helm)
  }

  lemma ListLiteral()
    ensures Helm.BuildCommand("list", Helm.OUTPUT_JSON) == "helm list -o json"
  {
  }

  /** Whatever flags are given, list runs `helm list -o json`. */
  lemma ListIgnoresFlags(flags: JsValue, helm: Helm.Binary)
    ensures List(flags, helm) == Helm.Response("helm list -o json", Helm.AsJson, helm)
  {
    ListLiteral();
    Helm.RunBuilt("list", Helm.OUTPUT_JSON, Helm.AsJson, helm);
  }

  /**
    The two facades' `list` against the same binary: `Helm.list` runs the
    plain `helm list -o json` that `Application.list` always runs exactly
    when it is given no array or an empty one.
  */
  method ListAgreement(helmFlags: JsArray?, flags: JsValue, helm: Helm.Binary)
    returns (fromHelm: Result<Helm.Reply>, fromApplication: Result<Helm.Reply>)
    modifies helmFlags
    ensures fromApplication == Helm.Response("helm list -o json", Helm.AsJson, helm)
    ensures var es := if helmFlags == null then [] else old(helmFlags.elems);
            var line := Helm.BuildCommand("list", ArrayJoin(es + [Str(Helm.OUTPUT_JSON)], " "));
            fromHelm == Helm.Response(line, Helm.AsJson, helm) && (line == "helm list -o json" <==> es == [])
    ensures helmFlags == null || old(helmFlags.elems) == [] ==> fromHelm == fromApplication
  {
    ghost var es := if helmFlags == null then [] else helmFlags.elems;
    fromHelm := Helm.List(helmFlags, helm);
    Helm.ListPlainExactlyWhenEmpty(es);
    fromApplication := List(flags, helm);
    ListIgnoresFlags(flags, helm);
  }

  /**
    custom: validated like `Helm.custom`, but the command line is
    `helm <name> ${flags}`: the flags value is rendered as a template literal
    renders it, not serialized.
  */
  function Custom(name: JsValue, flags: JsValue, helm: Helm.Binary): (r: Result<Helm.Reply>)
    ensures r.Ok? ==> r.value.Text?
    ensures r.Err? ==> Helm.OperationError(r.error, {"name"})
  {
    var params := Obj(map["name" := name, "flags" := flags]);
    var plan := match Validate(params, Some(Schemas.CUSTOM))
      case Fail(e) => Err(e)
      case Pass => Ok(Helm.BuildCommand(ToString(name), ToString(flags)));
    Helm.Run(plan, Helm.AsText, helm)
  }

  /** custom checks `name`, then the flags, before running anything. */
  lemma CustomChecks(name: JsValue, flags: JsValue, helm: Helm.Binary)
    ensures !name.Str? ==> Custom(name, flags, helm) == Err(MissingParamError("[name]"))
    ensures name.Str? && !FlagsOk(flags) ==> Custom(name, flags, helm) == Err(Helm.FlagsError(flags))
    ensures name.Str? && FlagsOk(flags) ==>
              Custom(name, flags, helm) == Helm.Response(Helm.BuildCommand(name.s, ToString(flags)), Helm.AsText, helm)
  {
    var params := Obj(map["name" := name, "flags" := flags]);
    if !name.Str? {
      FirstFailureWins(params, Schemas.CUSTOM, 0);
    }
  }

  /**
    custom with an array of flag strings puts them on the command line
    comma-joined; with no flags it puts the word "undefined" there.
  */
  lemma CustomInterpolatesFlags(name: string, fs: seq<string>, helm: Helm.Binary)
    ensures Custom(Str(name), Helm.Flags(fs), helm)
         == Helm.Response(Helm.BuildCommand(name, Join(",", fs)), Helm.AsText, helm)
    ensures Custom(Str(name), Undef, helm)
         == Helm.Response(Helm.BuildCommand(name, "undefined"), Helm.AsText, helm)
  {
    Helm.FlagStringsOk(fs);
    assert ToString(Helm.Flags(fs)) == Join(",", fs) by {
      ArrayJoinStrings(fs, ",");
    }
    CustomChecks(Str(name), Helm.Flags(fs), helm);
    CustomChecks(Str(name), Undef, helm);
  }
}
