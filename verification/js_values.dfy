/**
  The JavaScript values the wrapper handles, with the three pieces of
  language behaviour it relies on: `typeof`, truthiness, and conversion to a
  string (template literals, `String.prototype.trim`, `Array.prototype.join`).
  Numbers are integers; non-integral numbers, NaN and exponent notation are
  not modelled.
*/
module JsValues {
  import opened Wrappers

  datatype JsValue =
    | Str(s: string)
    | Num(n: int)
    | Bool(b: bool)
    | Null
    | Undef
    | Arr(elems: seq<JsValue>)
    | Obj(props: map<string, JsValue>)

  /** The answers of `typeof` for these values. */
  datatype JsType = TString | TNumber | TBoolean | TObject | TUndefined

  function TypeOf(v: JsValue): JsType {
    match v
    case Str(_) => TString
    case Num(_) => TNumber
    case Bool(_) => TBoolean
    case Undef => TUndefined
    case Null => TObject   // the historical `typeof null === 'object'`
    case Arr(_) => TObject
    case Obj(_) => TObject
  }

  /** JavaScript truthiness: "", 0, false, null and undefined are falsy. */
  predicate Truthy(v: JsValue) {
    match v
    case Str(s) => s != ""
    case Num(n) => n != 0
    case Bool(b) => b
    case Null => false
    case Undef => false
    case Arr(_) => true
    case Obj(_) => true
  }

  // ---------------------------------------------------------------------
  // Whitespace and trim
  // ---------------------------------------------------------------------

  /** The WhiteSpace and LineTerminator code points that `trim` removes. */
  predicate IsWhitespace(c: char) {
    var n := c as int;
    n == 0x09 || n == 0x0A || n == 0x0B || n == 0x0C || n == 0x0D || n == 0x20 ||
    n == 0xA0 || n == 0x1680 || (0x2000 <= n <= 0x200A) || n == 0x2028 ||
    n == 0x2029 || n == 0x202F || n == 0x205F || n == 0x3000 || n == 0xFEFF
  }

  /** A non-empty string that neither begins nor ends with whitespace. */
  predicate Clean(s: string) {
    |s| > 0 && !IsWhitespace(s[0]) && !IsWhitespace(s[|s| - 1])
  }

  predicate AllWhitespace(s: string) {
    forall i :: 0 <= i < |s| ==> IsWhitespace(s[i])
  }

  /** Length of the longest whitespace prefix of `s`. */
  function LeadingSpace(s: string): (k: nat)
    ensures k <= |s|
    ensures AllWhitespace(s[..k])
    ensures k < |s| ==> !IsWhitespace(s[k])
  {
    if |s| > 0 && IsWhitespace(s[0]) then
      var k := 1 + LeadingSpace(s[1..]);
      assert s[..k] == [s[0]] + s[1..][..k - 1];
      k
    else
      0
  }

  /** Length of the longest whitespace suffix of `s`. */
  function TrailingSpace(s: string): (k: nat)
    ensures k <= |s|
    ensures AllWhitespace(s[|s| - k..])
    ensures k < |s| ==> !IsWhitespace(s[|s| - 1 - k])
  {
    if |s| > 0 && IsWhitespace(s[|s| - 1]) then
      var init := s[..|s| - 1];
      var j := TrailingSpace(init);
      assert s[|s| - 1 - j..] == init[|init| - j..] + [s[|s| - 1]];
      assert j < |init| ==> s[|s| - 2 - j] == init[|init| - 1 - j];
      1 + j
    else
      0
  }

  /**
    `String.prototype.trim`: `s` with its whitespace prefix and suffix removed.
    The result is a slice of `s` whose surroundings are all whitespace and
    which itself is empty or clean at both ends.
  */
  function Trim(s: string): (r: string)
    ensures LeadingSpace(s) + |r| <= |s|
    ensures r == s[LeadingSpace(s)..LeadingSpace(s) + |r|]
    ensures AllWhitespace(s[LeadingSpace(s) + |r|..])
    ensures r == "" || Clean(r)
    ensures r == "" <==> AllWhitespace(s)
  {
    var i := LeadingSpace(s);
    var k := TrailingSpace(s[i..]);
    TrimmedSlice(s, i, k);
    s[i..][..|s| - i - k]
  }

  /**
    The slice between a whitespace prefix of length `i` and a whitespace
    suffix of length `k`, each as long as it can be, and its ends.
  */
  lemma TrimmedSlice(s: string, i: nat, k: nat)
    requires i <= |s| && AllWhitespace(s[..i]) && (i < |s| ==> !IsWhitespace(s[i]))
    requires k <= |s| - i && AllWhitespace(s[i..][|s| - i - k..])
    requires k < |s| - i ==> !IsWhitespace(s[i..][|s| - i - 1 - k])
    ensures var r := s[i..][..|s| - i - k];
      r == s[i..i + |r|] && AllWhitespace(s[i + |r|..]) &&
      (r == "" || Clean(r)) && (r == "" <==> AllWhitespace(s))
  {
    var t := s[i..];
    var r := t[..|t| - k];
    assert r == s[i..i + |r|];
    assert AllWhitespace(s[i + |r|..]) by {
      assert s[i + |r|..] == t[|t| - k..];
    }
    assert r == "" || Clean(r) by {
      if r != "" {
        assert r[0] == s[i] && r[|r| - 1] == t[|t| - 1 - k];
      }
    }
    assert r == "" ==> AllWhitespace(s) by {
      assert forall j :: |t| - k <= j < |t| ==> t[|t| - k..][j - (|t| - k)] == t[j];
      assert i < |s| ==> !IsWhitespace(t[0]);
      assert i == |s| ==> s[..i] == s;
    }
    assert i < |s| ==> !AllWhitespace(s);
  }

  // ---------------------------------------------------------------------
  // Number to string
  // ---------------------------------------------------------------------

  predicate IsDigit(c: char) {
    '0' <= c <= '9'
  }

  function DigitChar(d: nat): (c: char)
    requires d < 10
    ensures IsDigit(c)
  {
    "0123456789"[d]
  }

  /** Decimal notation of a natural number, without leading zeros. */
  function NatToString(n: nat): (r: string)
    ensures |r| > 0
    ensures forall i :: 0 <= i < |r| ==> IsDigit(r[i])
    ensures r[0] == '0' ==> n == 0
  {
    if n < 10 then [DigitChar(n)] else NatToString(n / 10) + [DigitChar(n % 10)]
  }

  /** `String(n)` for an integer `n`. */
  function IntToString(n: int): (r: string)
    ensures Clean(r)
    ensures r == "0" <==> n == 0
  {
    if n < 0 then "-" + NatToString(-n) else NatToString(n)
  }

  // ---------------------------------------------------------------------
  // Joining and string conversion
  // ---------------------------------------------------------------------

  /** The strings `ss` with `sep` between neighbours. */
  function Join(sep: string, ss: seq<string>): string
    decreases |ss|
  {
    if |ss| == 0 then ""
    else if |ss| == 1 then ss[0]
    else Join(sep, ss[..|ss| - 1]) + sep + ss[|ss| - 1]
  }

  /** Joining clean words with a single space gives a clean string. */
  lemma {:induction false} JoinWordsClean(ss: seq<string>)
    requires |ss| > 0
    requires forall i :: 0 <= i < |ss| ==> Clean(ss[i])
    ensures Clean(Join(" ", ss))
  {
    if |ss| > 1 {
      JoinWordsClean(ss[..|ss| - 1]);
    }
  }

  /** `String(v)`, as a template literal `${v}` renders it; an array renders as `es.join(",")`. */
  function ToString(v: JsValue): string
    decreases v, 2
  {
    match v
    case Str(s) => s
    case Num(n) => IntToString(n)
    case Bool(b) => if b then "true" else "false"
    case Null => "null"
    case Undef => "undefined"
    case Arr(es) => ArrayJoin(es, ",")
    case Obj(_) => "[object Object]"
  }

  /** How `Array.prototype.join` renders one element: null and undefined become "". */
  function ElementString(v: JsValue): string
    decreases v, 3
  {
    if v.Null? || v.Undef? then "" else ToString(v)
  }

  /** `es.join(sep)`. */
  function ArrayJoin(es: seq<JsValue>, sep: string): string
    decreases Arr(es), 1
  {
    Join(sep, seq(|es|, i requires 0 <= i < |es| => ElementString(es[i])))
  }

  /** An array of the given strings. */
  function StrTokens(ss: seq<string>): (r: seq<JsValue>)
    ensures |r| == |ss|
    ensures forall i :: 0 <= i < |ss| ==> r[i] == Str(ss[i])
  {
    seq(|ss|, i requires 0 <= i < |ss| => Str(ss[i]))
  }

  /** Joining an array of strings joins the strings themselves. */
  lemma ArrayJoinStrings(ss: seq<string>, sep: string)
    ensures ArrayJoin(StrTokens(ss), sep) == Join(sep, ss)
  {
    var es := StrTokens(ss);
    var rendered := seq(|es|, i requires 0 <= i < |es| => ElementString(es[i]));
    forall i | 0 <= i < |es|
      ensures rendered[i] == ss[i]
    {
      assert es[i] == Str(ss[i]);
      assert ElementString(es[i]) == ToString(Str(ss[i])) == ss[i];
    }
    assert rendered == ss;
  }

  // ---------------------------------------------------------------------
  // Property access
  // ---------------------------------------------------------------------

  /** The index `i` with `NatToString(i) == key` among `from..|es|`, if any. */
  function IndexOfKey(es: seq<JsValue>, key: string, from: nat): (r: Option<nat>)
    decreases |es| - from
    ensures r.Some? ==> from <= r.value < |es| && NatToString(r.value) == key
    ensures r.None? ==> forall i :: from <= i < |es| ==> NatToString(i) != key
  {
    if from >= |es| then None
    else if NatToString(from) == key then Some(from)
    else IndexOfKey(es, key, from + 1)
  }

  /**
    The own property `key` of an object or array (`hasOwnProperty` and the
    value it guards). An array owns "length" and its canonical indices.
  */
  function OwnProp(v: JsValue, key: string): Option<JsValue>
    requires v.Obj? || v.Arr?
  {
    match v
    case Obj(props) => if key in props then Some(props[key]) else None
    case Arr(es) =>
      if key == "length" then Some(Num(|es|))
      else
        match IndexOfKey(es, key, 0)
        case Some(i) => Some(es[i])
        case None => None
  }

  /** `v[key]` for an object or array; no prototype property is consulted. */
  function Prop(v: JsValue, key: string): JsValue
    requires v.Obj? || v.Arr?
  {
    match OwnProp(v, key)
    case Some(x) => x
    case None => Undef
  }

  /** A JavaScript array as a mutable object, as callers hand it over by reference. */
  class JsArray {
    var elems: seq<JsValue>

    constructor (es: seq<JsValue>)
      ensures elems == es
    {
      elems := es;
    }

    /** `push`: appends one element in place. */
    method Push(v: JsValue)
      modifies this
      ensures elems == old(elems) + [v]
    {
      elems := elems + [v];
    }
  }
}
