/**
 * The href builder of `link/href.ts`: `resolveHref` turns an href (a string,
 * or an object with a `pathname` and `params`) into a relative URL. Each
 * param, in entry order, fills the first `[key]` placeholder of the pathname,
 * or else the first `[...key]`; the params that filled nothing, apart from
 * null and undefined ones, become the query string.
 */
module Href {
  import opened Wrappers
  import opened JsStrings
  import opened Records
  import opened UriComponent

  /** A param value: `undefined`, `null`, any other non-array value (by its string form), or an array. */
  datatype ParamValue = Undefined | Null | Scalar(text: string) | List(items: seq<ParamValue>)

  datatype Href = PathString(path: string) | HrefObject(pathname: Option<string>, params: Option<Record<ParamValue>>)

  // ---------------------------------------------------------------------------
  // encodeParam
  // ---------------------------------------------------------------------------

  /** `${param}` for a value that is not an array. */
  function TemplateText(v: ParamValue): string
    requires !v.List?
  {
    match v
    case Undefined => "undefined"
    case Null => "null"
    case Scalar(t) => t
  }

  /** `encodeParam(param)`: array items encoded one by one and joined with `/`; anything else percent-encoded. */
  function EncodeParam(v: ParamValue): string
  {
    match v
    case List(items) => Join(EncodeItems(items), "/")
    case _ => Encode(TemplateText(v))
  }

  /** `items.map((p) => encodeParam(p))`. */
  function EncodeItems(items: seq<ParamValue>): (r: seq<string>)
    ensures |r| == |items|
  {
    seq(|items|, i requires 0 <= i < |items| => EncodeParam(items[i]))
  }

  /** `value = ''`: an undefined value is substituted as the empty string. */
  function DefaultEmpty(v: ParamValue): ParamValue
  {
    if v.Undefined? then Scalar("") else v
  }

  predicate IsPathChar(c: char) { IsEncodedChar(c) || c == '/' }

  predicate AllPathChars(s: string) { forall i :: 0 <= i < |s| ==> IsPathChar(s[i]) }

  /** An encoded param is made of encoded characters and `/`: no brackets, no `?`, no `$`. */
  lemma {:induction false} EncodeParamAlphabet(v: ParamValue)
    ensures AllPathChars(EncodeParam(v))
  {
    match v
    case List(items) =>
      var parts := EncodeItems(items);
      forall k | 0 <= k < |parts| ensures AllPathChars(parts[k]) {
        EncodeParamAlphabet(items[k]);
      }
      JoinAlphabet(parts);
    case _ =>
      EncodedChars(TemplateText(v));
  }

  lemma {:induction false} JoinAlphabet(parts: seq<string>)
    requires forall k :: 0 <= k < |parts| ==> AllPathChars(parts[k])
    ensures AllPathChars(Join(parts, "/"))
    decreases |parts|
  {
    if |parts| > 1 {
      JoinAlphabet(parts[1..]);
      var rest := Join(parts[1..], "/");
      var whole := parts[0] + "/" + rest;
      forall i | 0 <= i < |whole| ensures IsPathChar(whole[i]) {
        if i < |parts[0]| {
          assert whole[i] == parts[0][i];
        } else if i > |parts[0]| {
          assert whole[i] == rest[i - |parts[0]| - 1];
        }
      }
    }
  }

  /** Array items are encoded one by one and joined with `/`. */
  lemma EncodeTwoItems(a: ParamValue, b: ParamValue)
    ensures EncodeParam(List([a, b])) == EncodeParam(a) + "/" + EncodeParam(b)
  {
    var parts := EncodeItems([a, b]);
    assert EncodeParam(List([a, b])) == Join(parts, "/");
    JoinOfTwo(parts, "/");
    assert parts[0] == EncodeParam(a) && parts[1] == EncodeParam(b);
  }

  lemma JoinOfTwo(parts: seq<string>, sep: string)
    requires |parts| == 2
    ensures Join(parts, sep) == parts[0] + sep + parts[1]
  {
    assert parts[1..] == [parts[1]];
  }

  /** A top-level `undefined` is substituted as the empty string. */
  lemma UndefinedParamEmpty()
    ensures EncodeParam(DefaultEmpty(Undefined)) == ""
  {
  }

  /** A top-level `null` is written out as `null`. */
  lemma NullParamText()
    ensures EncodeParam(DefaultEmpty(Null)) == "null"
  {
    NullUnreserved();
    UnreservedUnchanged("null");
  }

  /** Inside an array, `undefined` is written out as `undefined`. */
  lemma UndefinedItemText()
    ensures EncodeParam(List([Undefined])) == "undefined"
  {
    EncodeOneItem(Undefined);
    UndefinedText();
  }

  /** An array of one item is encoded as that item. */
  lemma EncodeOneItem(a: ParamValue)
    ensures EncodeParam(List([a])) == EncodeParam(a)
  {
    assert EncodeItems([a]) == [EncodeParam(a)];
  }

  lemma UndefinedText()
    ensures EncodeParam(Undefined) == "undefined"
  {
    UndefinedUnreserved();
    UnreservedUnchanged("undefined");
  }

  lemma UndefinedUnreserved()
    ensures AllUnreserved("undefined")
  {
    LowerCaseUnreserved("undefined");
  }

  lemma NullUnreserved()
    ensures AllUnreserved("null")
  {
    LowerCaseUnreserved("null");
  }

  lemma LowerCaseUnreserved(w: string)
    requires forall i :: 0 <= i < |w| ==> 'a' <= w[i] <= 'z'
    ensures AllUnreserved(w)
  {
  }

  // ---------------------------------------------------------------------------
  // createQualifiedPathname
  // ---------------------------------------------------------------------------

  function Placeholder(key: string): string { "[" + key + "]" }
  function DeepPlaceholder(key: string): string { "[..." + key + "]" }

  /** The pathname holds a placeholder `[key]` or `[...key]` for this param. */
  predicate Fills(pathname: string, key: string)
  {
    Includes(pathname, Placeholder(key)) || Includes(pathname, DeepPlaceholder(key))
  }

  /** One iteration on the pathname: the first `[key]`, or else the first `[...key]`, becomes the encoded value. */
  function StepPath(pathname: string, key: string, value: ParamValue): string
  {
    if Includes(pathname, Placeholder(key)) then ReplaceFirst(pathname, Placeholder(key), EncodeParam(DefaultEmpty(value)))
    else if Includes(pathname, DeepPlaceholder(key)) then ReplaceFirst(pathname, DeepPlaceholder(key), EncodeParam(DefaultEmpty(value)))
    else pathname
  }

  /**
   * The loop of `createQualifiedPathname` from entry `i` of the original
   * params on: a param that fills a placeholder is deleted from `params`.
   */
  function SubstituteFrom(pathname: string, entries: Record<ParamValue>, i: nat, params: Record<ParamValue>): (string, Record<ParamValue>)
    requires i <= |entries|
    decreases |entries| - i
  {
    if i == |entries| then (pathname, params)
    else
      var (key, value) := entries[i];
      SubstituteFrom(StepPath(pathname, key, value), entries, i + 1, if Fills(pathname, key) then Delete(params, key) else params)
  }

  /** The pathname once the loop, started on `path` at entry `from`, has handled entries `from` to `to - 1`. */
  function PathBetween(path: string, entries: Record<ParamValue>, from: nat, to: nat): string
    requires from <= to <= |entries|
    decreases |entries| - from
  {
    if from == to then path else PathBetween(StepPath(path, entries[from].0, entries[from].1), entries, from + 1, to)
  }

  /** The pathname once the loop has handled entries `0` to `i - 1`. */
  function PathAt(pathname: string, entries: Record<ParamValue>, i: nat): string
    requires i <= |entries|
  {
    PathBetween(pathname, entries, 0, i)
  }

  /** `createQualifiedPathname(pathname, { ...params })`. */
  function QualifiedPathname(pathname: string, params: Record<ParamValue>): (string, Record<ParamValue>)
  {
    SubstituteFrom(pathname, params, 0, params)
  }

  /** `createQualifiedPathname`: `pathname` reassigned and `params` deleted from, entry by entry. */
  method CreateQualifiedPathname(pathname: string, params: Record<ParamValue>) returns (path: string, rest: Record<ParamValue>)
    ensures (path, rest) == QualifiedPathname(pathname, params)
  {
    path, rest := pathname, params;
    var entries := params;
    for i := 0 to |entries|
      invariant SubstituteFrom(path, entries, i, rest) == QualifiedPathname(pathname, params)
    {
      var (key, value) := entries[i];
      var dynamicKey := Placeholder(key);
      var deepDynamicKey := DeepPlaceholder(key);
      if Includes(path, dynamicKey) {
        path := ReplaceFirst(path, dynamicKey, EncodeParam(DefaultEmpty(value)));
      } else if Includes(path, deepDynamicKey) {
        path := ReplaceFirst(path, deepDynamicKey, EncodeParam(DefaultEmpty(value)));
      } else {
        continue;
      }
      rest := Delete(rest, key);
    }
  }

  /** The number of times `c` occurs in `s`. */
  function CountChar(s: string, c: char): nat
  {
    if s == [] then 0 else (if s[0] == c then 1 else 0) + CountChar(s[1..], c)
  }

  lemma {:induction false} CountConcat(a: string, b: string, c: char)
    ensures CountChar(a + b, c) == CountChar(a, c) + CountChar(b, c)
  {
    if a != [] {
      assert (a + b)[1..] == a[1..] + b;
      CountConcat(a[1..], b, c);
    } else {
      assert a + b == b;
    }
  }

  lemma {:induction false} CountAbsent(s: string, c: char)
    requires forall i :: 0 <= i < |s| ==> s[i] != c
    ensures CountChar(s, c) == 0
  {
    if s != [] {
      CountAbsent(s[1..], c);
    }
  }

  lemma PathTextHasNoBracket(t: string)
    requires AllPathChars(t)
    ensures CountChar(t, '[') == 0
  {
    CountAbsent(t, '[');
  }

  /** An encoded param holds no `[`. */
  lemma EncodedHasNoBracket(v: ParamValue)
    ensures CountChar(EncodeParam(v), '[') == 0
  {
    EncodeParamAlphabet(v);
    PathTextHasNoBracket(EncodeParam(v));
  }

  /** Replacing a placeholder by a text without `[` removes at least the placeholder's own `[`. */
  lemma ReplaceCount(s: string, p: string, r: string)
    requires Includes(s, p) && p != [] && p[0] == '[' && CountChar(r, '[') == 0
    ensures CountChar(ReplaceFirst(s, p, r), '[') + 1 <= CountChar(s, '[')
  {
    var i := IndexOf(s, p);
    var pre, post := s[..i], s[i + |p|..];
    assert s == pre + p + post;
    assert ReplaceFirst(s, p, r) == pre + r + post;
    CountConcat(pre + p, post, '[');
    CountConcat(pre, p, '[');
    CountConcat(pre + r, post, '[');
    CountConcat(pre, r, '[');
    assert CountChar(p, '[') >= 1;
  }

  /** What substitution does to a pathname and its params: see `SubstituteFromCount`. */
  predicate Shrinks(pathname: string, params: Record<ParamValue>, result: (string, Record<ParamValue>))
  {
    && CountChar(result.0, '[') + (|Keys(params)| - |Keys(result.1)|) <= CountChar(pathname, '[')
    && Keys(result.1) <= Keys(params)
    && (forall k :: k in Keys(result.1) ==> Get(result.1, k) == Get(params, k))
  }

  /**
   * Every param that fills a placeholder uses up at least one `[` of the
   * pathname and encoded values bring none, so the number of `[` never grows.
   * The params left are some of the original ones, unchanged.
   */
  lemma {:induction false} SubstituteFromCount(pathname: string, entries: Record<ParamValue>, i: nat, params: Record<ParamValue>)
    requires i <= |entries|
    ensures Shrinks(pathname, params, SubstituteFrom(pathname, entries, i, params))
    decreases |entries| - i
  {
    if i < |entries| {
      var key, value := entries[i].0, entries[i].1;
      var encoded := EncodeParam(DefaultEmpty(value));
      EncodedHasNoBracket(DefaultEmpty(value));
      if Fills(pathname, key) {
        var p := if Includes(pathname, Placeholder(key)) then Placeholder(key) else DeepPlaceholder(key);
        assert StepPath(pathname, key, value) == ReplaceFirst(pathname, p, encoded);
        assert SubstituteFrom(pathname, entries, i, params)
            == SubstituteFrom(ReplaceFirst(pathname, p, encoded), entries, i + 1, Delete(params, key));
        SubstitutedStep(pathname, p, encoded, entries, i, params);
      } else {
        SubstituteFromCount(pathname, entries, i + 1, params);
      }
    }
  }

  /**
   * Starting from `path` at entry `i`, no entry named `k` finds its
   * placeholder in the pathname it meets.
   */
  predicate KeptFrom(path: string, entries: Record<ParamValue>, i: nat, k: string)
    requires i <= |entries|
    decreases |entries| - i
  {
    i == |entries|
    || ((entries[i].0 == k ==> !Fills(path, k)) && KeptFrom(StepPath(path, entries[i].0, entries[i].1), entries, i + 1, k))
  }

  /** The params after one iteration: the param is deleted when its placeholder is found. */
  function NextParams(path: string, key: string, params: Record<ParamValue>): Record<ParamValue>
  {
    if Fills(path, key) then Delete(params, key) else params
  }

  /** One iteration of the loop. */
  lemma SubstituteStep(path: string, entries: Record<ParamValue>, i: nat, params: Record<ParamValue>)
    requires i < |entries|
    ensures SubstituteFrom(path, entries, i, params)
         == SubstituteFrom(StepPath(path, entries[i].0, entries[i].1), entries, i + 1, NextParams(path, entries[i].0, params))
  {
  }

  /** From entry `i` on, the loop ends on the pathname reached after every entry. */
  lemma {:induction false} SubstituteFromPath(path: string, entries: Record<ParamValue>, i: nat, params: Record<ParamValue>)
    requires i <= |entries|
    ensures SubstituteFrom(path, entries, i, params).0 == PathBetween(path, entries, i, |entries|)
    decreases |entries| - i
  {
    if i < |entries| {
      SubstituteStep(path, entries, i, params);
      SubstituteFromPath(StepPath(path, entries[i].0, entries[i].1), entries, i + 1, NextParams(path, entries[i].0, params));
    }
  }

  /**
   * From entry `i` on, a param is left exactly when it was there and no entry
   * of its name found a placeholder in the pathname it met.
   */
  lemma {:induction false} SubstituteFromKeys(path: string, entries: Record<ParamValue>, i: nat, params: Record<ParamValue>, k: string)
    requires i <= |entries|
    ensures k in Keys(SubstituteFrom(path, entries, i, params).1) <==> k in Keys(params) && KeptFrom(path, entries, i, k)
    decreases |entries| - i
  {
    if i < |entries| {
      SubstituteStep(path, entries, i, params);
      SubstituteFromKeys(StepPath(path, entries[i].0, entries[i].1), entries, i + 1, NextParams(path, entries[i].0, params), k);
    }
  }

  /** When only entry `i` is named `k`, `k` is kept from `from` on exactly when entry `i` finds no placeholder. */
  lemma {:induction false} KeptFromOnly(path: string, entries: Record<ParamValue>, from: nat, i: nat, k: string)
    requires from <= i < |entries| && entries[i].0 == k
    requires forall j :: 0 <= j < |entries| && j != i ==> entries[j].0 != k
    ensures KeptFrom(path, entries, from, k) <==> !Fills(PathBetween(path, entries, from, i), k)
    decreases |entries| - from
  {
    var next := StepPath(path, entries[from].0, entries[from].1);
    if from < i {
      KeptFromOnly(next, entries, from + 1, i, k);
    } else {
      KeptFromNone(next, entries, i + 1, k);
    }
  }

  lemma {:induction false} KeptFromNone(path: string, entries: Record<ParamValue>, from: nat, k: string)
    requires from <= |entries|
    requires forall j :: from <= j < |entries| ==> entries[j].0 != k
    ensures KeptFrom(path, entries, from, k)
    decreases |entries| - from
  {
    if from < |entries| {
      KeptFromNone(StepPath(path, entries[from].0, entries[from].1), entries, from + 1, k);
    }
  }

  /**
   * `createQualifiedPathname` on params with distinct names: the pathname is
   * the one reached after every param, and param `i` leaves the params
   * exactly when the pathname it meets holds `[name]` or `[...name]`.
   */
  lemma ConsumedExactlyWhenFilled(pathname: string, params: Record<ParamValue>)
    requires DistinctKeys(params)
    ensures QualifiedPathname(pathname, params).0 == PathAt(pathname, params, |params|)
    ensures forall i :: 0 <= i < |params| ==>
              (params[i].0 in Keys(QualifiedPathname(pathname, params).1) <==> !Fills(PathAt(pathname, params, i), params[i].0))
  {
    SubstituteFromPath(pathname, params, 0, params);
    forall i | 0 <= i < |params|
      ensures params[i].0 in Keys(QualifiedPathname(pathname, params).1) <==> !Fills(PathAt(pathname, params, i), params[i].0)
    {
      var k := params[i].0;
      SubstituteFromKeys(pathname, params, 0, params, k);
      KeysHas(params, i);
      forall j | 0 <= j < |params| && j != i ensures params[j].0 != k {
        if j < i { DistinctAt(params, j, i); } else { DistinctAt(params, i, j); }
      }
      KeptFromOnly(pathname, params, 0, i, k);
    }
  }

  /**
   * A replacement can still complete a placeholder that a later param then
   * fills: in `[[a]b]`, `a = x` leaves `[xb]`, which `xb = y` replaces.
   */
  lemma ReplacementCompletesPlaceholder()
    ensures var params := [("a", Scalar("x")), ("xb", Scalar("y"))];
            SubstituteFrom("[[a]b]", params, 0, params).0 == "y"
  {
    var params := [("a", Scalar("x")), ("xb", Scalar("y"))];
    assert EncodeParam(Scalar("x")) == "x";
    assert EncodeParam(Scalar("y")) == "y";
    assert "[[a]b]"[0..3][1] == '[' != "[a]"[1];
    assert "[[a]b]"[1..4] == "[a]";
    assert IndexOf("[[a]b]", Placeholder("a")) == 1;
    assert ReplaceFirst("[[a]b]", Placeholder("a"), "x") == "[xb]";
    assert "[xb]"[0..4] == "[xb]";
    assert IndexOf("[xb]", Placeholder("xb")) == 0;
    assert ReplaceFirst("[xb]", Placeholder("xb"), "y") == "y";
  }

  lemma {:induction false} SubstitutedStep(pathname: string, p: string, encoded: string, entries: Record<ParamValue>, i: nat, params: Record<ParamValue>)
    requires i < |entries| && Includes(pathname, p) && p != [] && p[0] == '[' && CountChar(encoded, '[') == 0
    ensures Shrinks(pathname, params, SubstituteFrom(ReplaceFirst(pathname, p, encoded), entries, i + 1, Delete(params, entries[i].0)))
    decreases |entries| - i, 0
  {
    var key := entries[i].0;
    var path' := ReplaceFirst(pathname, p, encoded);
    var params' := Delete(params, key);
    ReplaceCount(pathname, p, encoded);
    SubstituteFromCount(path', entries, i + 1, params');
    DeleteShrinks(params, key);
  }

  lemma DeleteShrinks(params: Record<ParamValue>, key: string)
    ensures |Keys(Delete(params, key))| <= |Keys(params)| <= |Keys(Delete(params, key))| + 1
  {
    var d := Keys(Delete(params, key));
    if key in Keys(params) {
      assert Keys(params) == d + {key};
    } else {
      assert Keys(params) == d;
    }
  }

  /** A pathname without `[` takes no param: it comes back as it is, with every param left for the query. */
  lemma {:induction false} NoPlaceholderNoChange(pathname: string, entries: Record<ParamValue>, i: nat, params: Record<ParamValue>)
    requires i <= |entries| && forall j :: 0 <= j < |pathname| ==> pathname[j] != '['
    ensures SubstituteFrom(pathname, entries, i, params) == (pathname, params)
    decreases |entries| - i
  {
    if i < |entries| {
      var key := entries[i].0;
      NotIncluded(pathname, Placeholder(key));
      NotIncluded(pathname, DeepPlaceholder(key));
      NoPlaceholderNoChange(pathname, entries, i + 1, params);
    }
  }

  /** A lone param fills the first placeholder of its name and is consumed; the rest of the pathname is kept. */
  lemma SingleParamFills(before: string, key: string, after: string, v: ParamValue)
    requires forall j :: 0 <= j < |before| ==> before[j] != '['
    ensures QualifiedPathname(before + Placeholder(key) + after, [(key, v)]) == (before + EncodeParam(DefaultEmpty(v)) + after, [])
  {
    var p := Placeholder(key);
    var s := before + p + after;
    assert s[|before|..|before| + |p|] == p;
    assert OccursAt(s, p, |before|);
    forall j | 0 <= j < |before| ensures !OccursAt(s, p, j) {
      assert s[j] == before[j];
    }
    assert IndexOf(s, p) == |before|;
    assert s[..|before|] == before;
    assert s[|before| + |p|..] == after;
    var entries := [(key, v)];
    var filled := before + EncodeParam(DefaultEmpty(v)) + after;
    assert ReplaceFirst(s, p, EncodeParam(DefaultEmpty(v))) == filled;
    assert Delete(entries, key) == [];
    assert SubstituteFrom(filled, entries, 1, []) == (filled, []);
  }

  lemma NotIncluded(s: string, p: string)
    requires p != [] && p[0] == '[' && forall j :: 0 <= j < |s| ==> s[j] != '['
    ensures !Includes(s, p)
  {
    var i := IndexOf(s, p);
    if i != -1 {
      assert false;
    }
  }

  // ---------------------------------------------------------------------------
  // createQueryParams and resolveHref
  // ---------------------------------------------------------------------------

  predicate IsNullish(v: ParamValue) { v.Undefined? || v.Null? }

  /** `value.toString()`: an array is its items' texts joined with `,`, null and undefined items giving nothing. */
  function ValueText(v: ParamValue): string
    requires !IsNullish(v)
    decreases v, 1
  {
    match v
    case Scalar(t) => t
    case List(_) => Join(ItemTexts(v, 0), ",")
  }

  function ItemTexts(v: ParamValue, i: nat): (r: seq<string>)
    requires v.List? && i <= |v.items|
    ensures |r| == |v.items| - i
    decreases v, 0, |v.items| - i
  {
    if i == |v.items| then []
    else [if IsNullish(v.items[i]) then "" else ValueText(v.items[i])] + ItemTexts(v, i + 1)
  }

  /** The `key=value` parts of the query: nullish params dropped, values encoded, keys not. */
  function QueryParts(params: Record<ParamValue>): (parts: seq<string>)
  {
    if params == [] then []
    else
      var (key, value) := params[0];
      (if IsNullish(value) then [] else [key + "=" + Encode(ValueText(value))]) + QueryParts(params[1..])
  }

  /** `createQueryParams(params)`. */
  function CreateQueryParams(params: Record<ParamValue>): string
  {
    Join(QueryParts(params), "&")
  }

  /** `resolveHref(href)`: a string href is read as `{ pathname: href }`, which has no params. */
  function ResolveHref(href: Href): string
  {
    match href
    case PathString(p) => p
    case HrefObject(pathname, params) =>
      var path := if pathname.Some? then pathname.value else "";
      if params.None? then path
      else
        var (qualified, rest) := QualifiedPathname(path, params.value);
        var query := CreateQueryParams(rest);
        qualified + (if query != "" then "?" + query else "")
  }

  /** The query string is empty exactly when every param is null or undefined. */
  lemma {:induction false} QueryEmptyIffAllNullish(params: Record<ParamValue>)
    ensures CreateQueryParams(params) == "" <==> forall i :: 0 <= i < |params| ==> IsNullish(params[i].1)
  {
    QueryPartsNonEmpty(params);
    if params != [] {
      QueryEmptyIffAllNullish(params[1..]);
      var parts := QueryParts(params);
      if |parts| > 0 {
        JoinNonEmpty(parts, "&");
      }
    }
  }

  /** Every part has an `=`, so is not empty; there are no parts exactly when every param is nullish. */
  lemma {:induction false} QueryPartsNonEmpty(params: Record<ParamValue>)
    ensures forall k :: 0 <= k < |QueryParts(params)| ==> |QueryParts(params)[k]| > 0
    ensures |QueryParts(params)| == 0 <==> forall i :: 0 <= i < |params| ==> IsNullish(params[i].1)
  {
    if params != [] {
      QueryPartsNonEmpty(params[1..]);
      assert forall i :: 1 <= i < |params| ==> params[i] == params[1..][i - 1];
    }
  }

  /** The parts follow the entry order of the params: the parts of a concatenation are the parts of each half. */
  lemma {:induction false} QueryPartsAppend(a: Record<ParamValue>, b: Record<ParamValue>)
    ensures QueryParts(a + b) == QueryParts(a) + QueryParts(b)
  {
    if a == [] {
      assert a + b == b;
    } else {
      assert (a + b)[0] == a[0] && (a + b)[1..] == a[1..] + b;
      QueryPartsAppend(a[1..], b);
      var (key, value) := a[0];
      var head := if IsNullish(value) then [] else [key + "=" + Encode(ValueText(value))];
      assert QueryParts(a + b) == head + (QueryParts(a[1..]) + QueryParts(b));
      assert QueryParts(a) == head + QueryParts(a[1..]);
    }
  }

  /** Two params that are not nullish give `k1=v1&k2=v2`, values encoded and keys as they are. */
  lemma QueryOfTwoParams(k1: string, v1: ParamValue, k2: string, v2: ParamValue)
    requires !IsNullish(v1) && !IsNullish(v2)
    ensures CreateQueryParams([(k1, v1), (k2, v2)])
         == k1 + "=" + Encode(ValueText(v1)) + "&" + k2 + "=" + Encode(ValueText(v2))
  {
    QueryPartsAppend([(k1, v1)], [(k2, v2)]);
    assert [(k1, v1)] + [(k2, v2)] == [(k1, v1), (k2, v2)];
    assert [(k1, v1)][1..] == [] && [(k2, v2)][1..] == [];
    var parts := QueryParts([(k1, v1), (k2, v2)]);
    assert parts == [k1 + "=" + Encode(ValueText(v1)), k2 + "=" + Encode(ValueText(v2))];
    JoinOfTwo(parts, "&");
  }

  lemma {:induction false} JoinNonEmpty(parts: seq<string>, sep: string)
    requires |parts| > 0 && |parts[0]| > 0
    ensures Join(parts, sep) != ""
  {
  }

  /** A string href is the object href with that pathname; without params the pathname comes back as it is, or "". */
  lemma ResolveWithoutParams(p: string, pathname: Option<string>)
    ensures ResolveHref(PathString(p)) == p
    ensures ResolveHref(HrefObject(pathname, None)) == if pathname.Some? then pathname.value else ""
  {
  }

  /** A `?` is added exactly when some param is neither substituted nor nullish. */
  lemma ResolveQueryMark(pathname: string, params: Record<ParamValue>)
    ensures var (qualified, rest) := QualifiedPathname(pathname, params);
            && (ResolveHref(HrefObject(Some(pathname), Some(params))) == qualified
                <==> forall i :: 0 <= i < |rest| ==> IsNullish(rest[i].1))
  {
    var (qualified, rest) := QualifiedPathname(pathname, params);
    QueryEmptyIffAllNullish(rest);
    var query := CreateQueryParams(rest);
    if query != "" {
      assert |qualified + "?" + query| > |qualified|;
    }
  }
}
