/** Parsed JSON request bodies, and the JavaScript tests the request handlers
    apply to their fields. A body is a map from key to value; a key that is
    absent is `undefined`. Numbers are exact reals (floating-point rounding
    is not modelled). */
module Json {
  import opened Common

  datatype Json =
    | JNull
    | JBool(b: bool)
    | JNum(n: real)
    | JStr(s: string)
    | JArr(items: seq<Json>)
    | JObj(members: map<string, Json>)

  type Body = map<string, Json>

  /** JavaScript truthiness (`if (v)`) of a JSON value. */
  predicate Truthy(v: Json)
  {
    match v
    case JNull => false
    case JBool(b) => b
    case JNum(n) => n != 0.0
    case JStr(s) => s != ""
    case JArr(_) => true
    case JObj(_) => true
  }

  /** `if (body[key])`: present and truthy. */
  predicate FieldTruthy(body: Body, key: string)
  {
    key in body && Truthy(body[key])
  }

  /** `Number.isInteger(v)`. */
  predicate IsInteger(v: Json)
  {
    v.JNum? && v.n == v.n.Floor as real
  }

  /** A string-valued field, or `None` when the field is absent or not a string. */
  function StringField(body: Body, key: string): (r: Option<string>)
    ensures r.Some? <==> key in body && body[key].JStr?
  {
    if key in body && body[key].JStr? then Some(body[key].s) else None
  }

  /** A boolean-valued field, or `None` when absent or not a boolean. */
  function BoolField(body: Body, key: string): (r: Option<bool>)
    ensures r.Some? <==> key in body && body[key].JBool?
  {
    if key in body && body[key].JBool? then Some(body[key].b) else None
  }

  /** An integer-valued field, or `None` when absent or not an integer. */
  function IntField(body: Body, key: string): (r: Option<int>)
    ensures r.Some? <==> key in body && IsInteger(body[key])
    ensures r.Some? ==> r.value as real == body[key].n
  {
    if key in body && IsInteger(body[key]) then Some(body[key].n.Floor) else None
  }

  /** The integers of an array whose every element is an integer; `None`
      otherwise. */
  function IntItems(items: seq<Json>): (r: Option<seq<int>>)
    ensures r.Some? <==> forall i :: 0 <= i < |items| ==> IsInteger(items[i])
    ensures r.Some? ==> |r.value| == |items|
    ensures r.Some? ==> forall i :: 0 <= i < |items| ==> r.value[i] as real == items[i].n
  {
    if items == [] then Some([])
    else
      match IntItems(items[1..])
      case None => None
      case Some(rest) =>
        if IsInteger(items[0]) then Some([items[0].n.Floor] + rest) else None
  }

  /** The elements of an integer list in decimal, separated by commas. */
  function JoinInts(xs: seq<int>): string
  {
    if xs == [] then ""
    else if |xs| == 1 then IntToString(xs[0])
    else IntToString(xs[0]) + "," + JoinInts(xs[1..])
  }

  /** `JSON.stringify` of an array of integers, such as "[1,2,5]". */
  function StringifyInts(xs: seq<int>): (s: string)
    ensures |s| >= 2 && s[0] == '[' && s[|s| - 1] == ']'
  {
    "[" + JoinInts(xs) + "]"
  }

  /** Distinct lists have distinct encodings. */
  lemma StringifyIntsInjective(xs: seq<int>, ys: seq<int>)
    requires StringifyInts(xs) == StringifyInts(ys)
    ensures xs == ys
  {
    var s := StringifyInts(xs);
    assert JoinInts(xs) == s[1..|s| - 1] == JoinInts(ys);
    JoinIntsInjective(xs, ys);
  }

  /** A rendering has no comma, so the first element of a joined list ends
      where that text ends or at its first comma. */
  lemma {:induction false} JoinIntsInjective(xs: seq<int>, ys: seq<int>)
    requires JoinInts(xs) == JoinInts(ys)
    ensures xs == ys
    decreases |xs|
  {
    var s := JoinInts(xs);
    if xs == [] || ys == [] {
      return;
    }
    var a, b := IntToString(xs[0]), IntToString(ys[0]);
    JoinedHead(xs);
    JoinedHead(ys);
    assert |a| == |b|;
    assert a == s[..|a|] == b;
    IntToStringInjective(xs[0], ys[0]);
    if |xs| == 1 || |ys| == 1 {
      assert |xs| == 1 && |ys| == 1;
    } else {
      assert JoinInts(xs[1..]) == s[|a| + 1..] == JoinInts(ys[1..]);
      JoinIntsInjective(xs[1..], ys[1..]);
      assert xs == [xs[0]] + xs[1..] && ys == [ys[0]] + ys[1..];
    }
  }

  /** A joined list starts with the first element's rendering, followed by
      the end of the text or a comma and the rest. */
  lemma JoinedHead(xs: seq<int>)
    requires xs != []
    ensures var a := IntToString(xs[0]);
      var s := JoinInts(xs);
      && |a| <= |s| && s[..|a|] == a
      && (|xs| == 1 <==> |s| == |a|)
      && (|xs| > 1 ==> s[|a|] == ',' && s[|a| + 1..] == JoinInts(xs[1..]))
  {
  }
}
