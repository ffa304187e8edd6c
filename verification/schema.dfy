/**
  The static parameter schemas, one per operation, exported as an object
  keyed by operation name. A schema is an ordered table of fields; the
  order is the order in which the validator visits them.
*/
module Schemas {
  import opened Wrappers
  import opened JsValues

  /** One schema entry: `key: { type, required }`. */
  datatype Field = Field(key: string, ty: JsType, required: bool)

  type Schema = seq<Field>

  const INSTALL: Schema := [Field("release", TString, true), Field("chart", TString, true)]
  const UNINSTALL: Schema := [Field("release", TString, true)]
  const UPGRADE: Schema := [Field("release", TString, true), Field("chart", TString, true)]
  const HISTORY: Schema := [Field("release", TString, true)]
  const ROLLBACK: Schema := [Field("release", TString, true), Field("revision", TNumber, true)]
  const REPO_ADD: Schema := [Field("repositoryName", TString, true), Field("url", TString, true)]
  const CUSTOM: Schema := [Field("name", TString, true)]

  /** The keys of the exported object. There is no `list` schema. */
  const EXPORTED: set<string> :=
    {"install", "uninstall", "upgrade", "history", "rollback", "repoAdd", "custom"}

  /**
    `schema[name]` on the exported object, for own property names: a schema
    for the seven exported names and `undefined` for any other own name.
    Names inherited from `Object.prototype` are not modelled. Every declared field is required, no
    key is declared twice, every type is `string` or `number`, and `revision`
    of `rollback` is the only number-typed field.
  */
  function Lookup(name: string): (r: Option<Schema>)
    ensures r.Some? <==> name in EXPORTED
    ensures r.Some? ==> forall i :: 0 <= i < |r.value| ==> r.value[i].required
    ensures r.Some? ==> forall i, j :: 0 <= i < j < |r.value| ==> r.value[i].key != r.value[j].key
    ensures r.Some? ==> forall i :: 0 <= i < |r.value| ==>
              r.value[i].ty == TString || r.value[i].ty == TNumber
    ensures r.Some? ==> forall i :: 0 <= i < |r.value| ==>
              (r.value[i].ty == TNumber <==> name == "rollback" && r.value[i].key == "revision")
  {
    match name
    case "install" => Some(INSTALL)
    case "uninstall" => Some(UNINSTALL)
    case "upgrade" => Some(UPGRADE)
    case "history" => Some(HISTORY)
    case "rollback" => Some(ROLLBACK)
    case "repoAdd" => Some(REPO_ADD)
    case "custom" => Some(CUSTOM)
    case _ => None
  }

  /** The keys of a schema, in declaration order. */
  function Keys(s: Schema): (ks: seq<string>)
    ensures |ks| == |s|
    ensures forall i :: 0 <= i < |s| ==> ks[i] == s[i].key
  {
    seq(|s|, i requires 0 <= i < |s| => s[i].key)
  }

  /** The fields each operation declares, in order, as the tables spell them out. */
  lemma DeclaredFields()
    ensures Keys(Lookup("install").value) == ["release", "chart"]
    ensures Lookup("upgrade") == Lookup("install")
    ensures Keys(Lookup("uninstall").value) == ["release"]
    ensures Lookup("history") == Lookup("uninstall")
    ensures Keys(Lookup("rollback").value) == ["release", "revision"]
    ensures Keys(Lookup("repoAdd").value) == ["repositoryName", "url"]
    ensures Keys(Lookup("custom").value) == ["name"]
    ensures Lookup("list").None?
  {
    assert Keys(INSTALL) == ["release", "chart"];
    assert Keys(UNINSTALL) == ["release"];
    assert Keys(ROLLBACK) == ["release", "revision"];
    assert Keys(REPO_ADD) == ["repositoryName", "url"];
    assert Keys(CUSTOM) == ["name"];
  }
}
