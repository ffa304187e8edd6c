/**
  The two helpers every operation runs before the child process:
  `parseArgs`, which turns an ordered list of tokens into one argument
  string, and `validateParameters`, which checks a parameter object against
  a schema and throws the first error it finds.
*/
module Helper {
  import opened Wrappers
  import opened JsValues
  import opened Errors
  import opened Schemas

  // =====================================================================
  // parseArgs
  // =====================================================================

  /** What one loop iteration appends: the token and a space, or nothing for a falsy token. */
  function Piece(t: JsValue): string {
    if Truthy(t) then ToString(t) + " " else ""
  }

  /** The accumulator of parseArgs after it has visited the tokens `ts`. */
  function Accum(ts: seq<JsValue>): string
    decreases |ts|
  {
    if ts == [] then "" else Accum(ts[..|ts| - 1]) + Piece(ts[|ts| - 1])
  }

  /** The value parseArgs returns: the accumulator, trimmed. */
  function SerializeArgs(ts: seq<JsValue>): string {
    Trim(Accum(ts))
  }

  /**
    parseArgs: appends every truthy token followed by a space, then trims.
    The result never begins or ends with whitespace.
  */
  method ParseArgs(parameters: seq<JsValue>) returns (command: string)
    ensures command == SerializeArgs(parameters)
    ensures command == "" || Clean(command)
  {
    var acc := "";
    for i := 0 to |parameters|
      invariant acc == Accum(parameters[..i])
    {
      assert parameters[..i + 1][..i] == parameters[..i];
      var parameter := parameters[i];
      if !Truthy(parameter) {
        continue;
      }
      acc := acc + ToString(parameter) + " ";
    }
    assert parameters[..|parameters|] == parameters;
    command := Trim(acc);
  }

  /** The string forms of the truthy tokens of `ts`, in order. */
  function TruthyStrings(ts: seq<JsValue>): seq<string>
    decreases |ts|
  {
    if ts == [] then []
    else
      var last := ts[|ts| - 1];
      TruthyStrings(ts[..|ts| - 1]) + (if Truthy(last) then [ToString(last)] else [])
  }

  /** The accumulator is the truthy tokens joined by single spaces, plus one trailing space. */
  lemma {:induction false} AccumIsJoin(ts: seq<JsValue>)
    ensures Accum(ts) == if TruthyStrings(ts) == [] then "" else Join(" ", TruthyStrings(ts)) + " "
  {
    if ts != [] {
      var init, last := ts[..|ts| - 1], ts[|ts| - 1];
      AccumIsJoin(init);
      var before := TruthyStrings(init);
      assert Accum(ts) == Accum(init) + Piece(last);
      if Truthy(last) {
        var after := before + [ToString(last)];
        assert TruthyStrings(ts) == after;
        if before == [] {
          assert Join(" ", after) == ToString(last);
        } else {
          assert after[..|after| - 1] == before;
          assert Join(" ", after) == Join(" ", before) + " " + ToString(last);
        }
      } else {
        assert TruthyStrings(ts) == before;
      }
    }
  }

  /** Appending a space to a clean string and trimming gives the string back. */
  lemma TrimTrailingSpace(x: string)
    requires Clean(x)
    ensures Trim(x + " ") == x
  {
    var s := x + " ";
    assert LeadingSpace(s) == 0;
    var r := Trim(s);
    assert forall j :: |r| <= j < |s| ==> s[j] == s[|r|..][j - |r|];
    assert s[|x| - 1] == x[|x| - 1];
    assert |r| >= |x|;
    assert s[..|x|] == x;
  }

  /**
    When every truthy token renders as a clean word, parseArgs yields exactly
    those words, in order, separated by single spaces.
  */
  lemma SerializeIsJoin(ts: seq<JsValue>)
    requires forall i :: 0 <= i < |TruthyStrings(ts)| ==> Clean(TruthyStrings(ts)[i])
    ensures SerializeArgs(ts) == Join(" ", TruthyStrings(ts))
  {
    AccumIsJoin(ts);
    var words := TruthyStrings(ts);
    if words == [] {
      assert Trim("") == "";
    } else {
      JoinWordsClean(words);
      TrimTrailingSpace(Join(" ", words));
    }
  }

  /** Dropping the last element of a concatenation with a non-empty tail. */
  lemma InitOfAppend<T>(a: seq<T>, b: seq<T>)
    requires b != []
    ensures (a + b)[..|a + b| - 1] == a + b[..|b| - 1]
    ensures (a + b)[|a + b| - 1] == b[|b| - 1]
  {
  }

  /** The accumulator of a concatenation is the concatenation of the accumulators. */
  lemma {:induction false} AccumAppend(a: seq<JsValue>, b: seq<JsValue>)
    ensures Accum(a + b) == Accum(a) + Accum(b)
    decreases |b|
  {
    if b == [] {
      assert a + b == a;
    } else {
      var init, last := b[..|b| - 1], b[|b| - 1];
      InitOfAppend(a, b);
      AccumAppend(a, init);
      assert Accum(a) + Accum(init) + Piece(last) == Accum(a) + (Accum(init) + Piece(last));
    }
  }

  /** The same holds for the truthy strings. */
  lemma {:induction false} TruthyStringsAppend(a: seq<JsValue>, b: seq<JsValue>)
    ensures TruthyStrings(a + b) == TruthyStrings(a) + TruthyStrings(b)
    decreases |b|
  {
    if b == [] {
      assert a + b == a;
    } else {
      InitOfAppend(a, b);
      TruthyStringsAppend(a, b[..|b| - 1]);
    }
  }

  /** A falsy token adds nothing to the accumulator, wherever it stands. */
  lemma AccumSkipsFalsy(a: seq<JsValue>, x: JsValue, b: seq<JsValue>)
    requires !Truthy(x)
    ensures Accum(a + [x] + b) == Accum(a + b)
  {
    assert Accum([x]) == "" by {
      assert [x][..0] == [];
    }
    AccumAppend(a + [x], b);
    AccumAppend(a, [x]);
    AccumAppend(a, b);
  }

  /**
    A falsy token ("", 0, false, null, undefined) anywhere in the list changes
    nothing: in particular the number 0 never reaches the output.
  */
  lemma SkipsFalsy(a: seq<JsValue>, x: JsValue, b: seq<JsValue>)
    requires !Truthy(x)
    ensures SerializeArgs(a + [x] + b) == SerializeArgs(a + b)
  {
    AccumSkipsFalsy(a, x, b);
  }

  /** A token that renders as one clean word: a trimmed non-empty string or a non-zero number. */
  predicate Word(t: JsValue) {
    (t.Str? && Clean(t.s)) || (t.Num? && t.n != 0)
  }

  /** The string forms of all the tokens. */
  function Rendered(ts: seq<JsValue>): (ss: seq<string>)
    ensures |ss| == |ts|
    ensures forall i :: 0 <= i < |ts| ==> ss[i] == ToString(ts[i])
  {
    seq(|ts|, i requires 0 <= i < |ts| => ToString(ts[i]))
  }

  /** Every word is truthy, so none of them is skipped. */
  lemma {:induction false} WordsAllKept(ts: seq<JsValue>)
    requires forall i :: 0 <= i < |ts| ==> Word(ts[i])
    ensures TruthyStrings(ts) == Rendered(ts)
    decreases |ts|
  {
    if ts != [] {
      var init, last := ts[..|ts| - 1], ts[|ts| - 1];
      WordsAllKept(init);
      assert Word(last) && Truthy(last);
      assert TruthyStrings(ts) == Rendered(init) + [ToString(last)];
      assert Rendered(ts) == Rendered(init) + [ToString(last)];
    }
  }

  /** parseArgs on a list of words keeps every word, in order, one space apart. */
  lemma SerializeWords(ts: seq<JsValue>)
    requires forall i :: 0 <= i < |ts| ==> Word(ts[i])
    ensures SerializeArgs(ts) == Join(" ", Rendered(ts))
  {
    WordsAllKept(ts);
    forall i | 0 <= i < |ts|
      ensures Clean(Rendered(ts)[i])
    {
      assert Word(ts[i]);
    }
    SerializeIsJoin(ts);
  }

  /** The example `parseArgs([])`. */
  lemma SerializeEmpty()
    ensures SerializeArgs([]) == ""
  {
    assert Trim("") == "";
  }

  lemma WordPair(a: JsValue, b: JsValue)
    requires Word(a) && Word(b)
    ensures SerializeArgs([a, b]) == Join(" ", Rendered([a, b]))
  {
    SerializeWords([a, b]);
  }

  /** Falsy tokens between two words vanish, with their separators. */
  lemma SkipsBetween(x: string, y: string)
    requires Clean(x) && Clean(y)
    ensures SerializeArgs([Str(x), Str(""), Null, Str(y)]) == x + " " + y
  {
    var a, b := Str(x), Str(y);
    calc {
      SerializeArgs([a, Str(""), Null, b]);
      { assert [a, Str(""), Null, b] == [a, Str("")] + [Null] + [b]; }
      SerializeArgs([a, Str("")] + [Null] + [b]);
      { SkipsFalsy([a, Str("")], Null, [b]); }
      SerializeArgs([a, Str("")] + [b]);
      { assert [a, Str("")] + [b] == [a] + [Str("")] + [b]; }
      SerializeArgs([a] + [Str("")] + [b]);
      { SkipsFalsy([a], Str(""), [b]); }
      SerializeArgs([a] + [b]);
      { assert [a] + [b] == [a, b]; WordPair(a, b); }
      Join(" ", Rendered([a, b]));
      { assert Rendered([a, b]) == [x, y]; }
      Join(" ", [x, y]);
      { assert [x, y][..1] == [x]; }
      x + " " + y;
    }
  }

  /** The example `parseArgs(["a", "", null, "b"])`. */
  lemma SerializeExample()
    ensures SerializeArgs([Str("a"), Str(""), Null, Str("b")]) == "a b"
  {
    assert Clean("a") && Clean("b");
    SkipsBetween("a", "b");
    assert "a" + " " + "b" == "a b";
  }

  // =====================================================================
  // validateParameters
  // =====================================================================

  /** "[key]", the name a missing-parameter error carries. */
  function Bracketed(key: string): string {
    "[" + key + "]"
  }

  /**
    A parameter object satisfies one schema entry: the entry is optional, or
    the key is an own property whose `typeof` is the declared type.
  */
  predicate FieldHolds(p: JsValue, f: Field)
    requires p.Obj? || p.Arr?
  {
    !f.required || (OwnProp(p, f.key).Some? && TypeOf(OwnProp(p, f.key).value) == f.ty)
  }

  predicate FieldsHold(p: JsValue, s: Schema)
    requires p.Obj? || p.Arr?
  {
    forall i :: 0 <= i < |s| ==> FieldHolds(p, s[i])
  }

  /**
    The loop over the schema keys, in order: the first entry that does not
    hold throws a missing-parameter error naming its key.
  */
  function CheckFields(p: JsValue, s: Schema): (r: Outcome)
    requires p.Obj? || p.Arr?
    ensures r.Pass? <==> FieldsHold(p, s)
    ensures r.Fail? ==> exists i :: 0 <= i < |s| && !FieldHolds(p, s[i]) &&
                                   r.error == MissingParamError(Bracketed(s[i].key))
  {
    if s == [] then Pass
    else if !FieldHolds(p, s[0]) then Fail(MissingParamError(Bracketed(s[0].key)))
    else
      var rest := CheckFields(p, s[1..]);
      assert forall i :: 0 < i < |s| ==> s[i] == s[1..][i - 1];
      rest
  }

  /** The first entry that does not hold decides the error; later entries are never looked at. */
  lemma {:induction false} FirstFailureWins(p: JsValue, s: Schema, k: nat)
    requires p.Obj? || p.Arr?
    requires k < |s| && !FieldHolds(p, s[k])
    requires forall j :: 0 <= j < k ==> FieldHolds(p, s[j])
    ensures CheckFields(p, s) == Fail(MissingParamError(Bracketed(s[k].key)))
  {
    if k > 0 {
      assert FieldHolds(p, s[0]);
      FirstFailureWins(p, s[1..], k - 1);
    }
  }

  /** The required entries of a schema, in order. */
  function Required(s: Schema): (t: Schema)
    ensures forall i :: 0 <= i < |t| ==> t[i].required
    decreases |s|
  {
    if s == [] then []
    else (if s[0].required then [s[0]] else []) + Required(s[1..])
  }

  /** Optional entries never cause a failure: only the required ones matter. */
  lemma {:induction false} OnlyRequiredMatter(p: JsValue, s: Schema)
    requires p.Obj? || p.Arr?
    ensures CheckFields(p, s) == CheckFields(p, Required(s))
    decreases |s|
  {
    if s != [] {
      var rest := Required(s[1..]);
      OnlyRequiredMatter(p, s[1..]);
      if s[0].required {
        var t := [s[0]] + rest;
        assert Required(s) == t;
        assert t[0] == s[0] && t[1..] == rest;
      } else {
        assert Required(s) == rest;
        assert FieldHolds(p, s[0]);
      }
    }
  }

  /** Keys outside the schema never matter: objects that agree on the schema keys check alike. */
  lemma {:induction false} OtherKeysIgnored(p: JsValue, q: JsValue, s: Schema)
    requires p.Obj? && q.Obj?
    requires forall i :: 0 <= i < |s| ==> OwnProp(p, s[i].key) == OwnProp(q, s[i].key)
    ensures CheckFields(p, s) == CheckFields(q, s)
    decreases |s|
  {
    if s != [] {
      OtherKeysIgnored(p, q, s[1..]);
    }
  }

  /** `flags` is acceptable: falsy, or an array of strings. */
  predicate FlagsOk(flags: JsValue) {
    !Truthy(flags) || (flags.Arr? && forall i :: 0 <= i < |flags.elems| ==> flags.elems[i].Str?)
  }

  /** The flags check, run only when `flags` is truthy. */
  function CheckFlags(flags: JsValue): (r: Outcome)
    ensures r.Pass? <==> FlagsOk(flags)
    ensures r.Fail? && !flags.Arr? ==> r.error == InvalidParamError("[flags]")
    ensures r.Fail? && flags.Arr? ==> r.error == InvalidParamError("[flag]")
  {
    if !Truthy(flags) then Pass
    else if !flags.Arr? then Fail(InvalidParamError("[flags]"))
    else if exists i :: 0 <= i < |flags.elems| && !flags.elems[i].Str? then Fail(InvalidParamError("[flag]"))
    else Pass
  }

  /**
    validateParameters: the parameter object and the schema must be objects,
    then every schema entry must hold, then the flags must be acceptable; the
    first failing check throws. The inputs are values, so nothing is modified.
  */
  function Validate(parameters: JsValue, schema: Option<Schema>): (r: Outcome)
    requires !parameters.Null?
    ensures TypeOf(parameters) != TObject ==> r == Fail(InvalidParamError("invalid parameters object"))
    ensures TypeOf(parameters) == TObject && schema.None? ==>
              r == Fail(InvalidParamError("invalid schema object"))
    ensures r.Pass? <==> TypeOf(parameters) == TObject && schema.Some? &&
                         FieldsHold(parameters, schema.value) && FlagsOk(Prop(parameters, "flags"))
    ensures TypeOf(parameters) == TObject && schema.Some? && !FieldsHold(parameters, schema.value) ==>
              r.Fail? && r.error.MissingParamError?
    ensures TypeOf(parameters) == TObject && schema.Some? && r.Fail? ==>
              (exists i :: 0 <= i < |schema.value| && !FieldHolds(parameters, schema.value[i]) &&
                           r.error == MissingParamError(Bracketed(schema.value[i].key)))
              || r.error == InvalidParamError("[flags]") || r.error == InvalidParamError("[flag]")
  {
    if TypeOf(parameters) != TObject then Fail(InvalidParamError("invalid parameters object"))
    else if schema.None? then Fail(InvalidParamError("invalid schema object"))
    else
      match CheckFields(parameters, schema.value)
      case Fail(e) => Fail(e)
      case Pass => CheckFlags(Prop(parameters, "flags"))
  }
}
