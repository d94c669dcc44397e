/**
 * The route pattern compiler of `getServerManifest.ts` (`getNamedRegex` and
 * its helpers): a normalised route path such as `/blog/[slug]` becomes the
 * source text of a named regular expression plus the `routeKeys` table that
 * maps each group name back to the parameter name it stands for. The regular
 * expression is produced as a string and is not interpreted here.
 */
module NamedRegex {
  import opened Wrappers
  import opened JsStrings
  import opened Records
  import opened RouteKeys

  /** A final segment with this text is compiled as the catch-all `NotFoundParam`. */
  const NotFoundSegment: string := "+not-found"
  const NotFoundParam: string := "[...not-found]"
  /** Longest cleaned parameter name used as a group name as it is. */
  const MaxKeyLength: nat := 30
  /** What every compiled pattern ends with: an optional trailing slash, then the end. */
  const PatternSuffix: string := "(?:/)?$"

  /**
   * The names a plain JavaScript object answers `true` for with the `in`
   * operator before any property is set: those of `Object.prototype`.
   */
  function ObjectPrototypeNames(): set<string>
  {
    {
      "constructor", "__defineGetter__", "__defineSetter__", "hasOwnProperty",
      "__lookupGetter__", "__lookupSetter__", "isPrototypeOf", "propertyIsEnumerable",
      "toString", "valueOf", "__proto__", "toLocaleString"
    }
  }

  /** `key in routeKeys` on a plain object. */
  predicate JsIn<V>(key: string, r: Record<V>)
  {
    key in Keys(r) || key in ObjectPrototypeNames()
  }

  /** Every property of `Object.prototype` starts with one of `_chiptv`. */
  lemma NotAPrototypeName(key: string)
    requires |key| > 0
    requires key[0] != '_' && key[0] != 'c' && key[0] != 'h' && key[0] != 'i'
    requires key[0] != 'p' && key[0] != 't' && key[0] != 'v'
    ensures key !in ObjectPrototypeNames()
  {
    forall name | name in ObjectPrototypeNames() ensures |name| > 0 && name[0] in "_chiptv" {
    }
  }

  // ---------------------------------------------------------------------------
  // escapeStringRegexp
  // ---------------------------------------------------------------------------

  /** A character of the class `[|\\{}()[\]^$+*?.-]`. */
  predicate IsRegexMeta(c: char)
  {
    c in "|\\{}()[]^$+*?.-"
  }

  predicate HasRegexMeta(s: string) { exists i :: 0 <= i < |s| && IsRegexMeta(s[i]) }

  /** `str.replace(replaceRegex, '\\$&')`: a backslash before every metacharacter. */
  function EscapeAll(s: string): string
  {
    if s == [] then []
    else (if IsRegexMeta(s[0]) then ['\\', s[0]] else [s[0]]) + EscapeAll(s[1..])
  }

  /** `escapeStringRegexp`: strings without a metacharacter are returned as they are. */
  function EscapeStringRegexp(s: string): (t: string)
    ensures !HasRegexMeta(s) ==> t == s
  {
    if HasRegexMeta(s) then EscapeAll(s) else s
  }

  /** Text in which every metacharacter is preceded by a backslash and every backslash starts such a pair. */
  predicate WellEscaped(t: string)
  {
    if t == [] then true
    else if t[0] == '\\' then |t| >= 2 && IsRegexMeta(t[1]) && WellEscaped(t[2..])
    else !IsRegexMeta(t[0]) && WellEscaped(t[1..])
  }

  /** Reading escaped text back: drop the backslash of every pair. */
  function Unescape(t: string): string
    requires WellEscaped(t)
  {
    if t == [] then []
    else if t[0] == '\\' then [t[1]] + Unescape(t[2..])
    else [t[0]] + Unescape(t[1..])
  }

  lemma {:induction false} EscapeAllWellEscaped(s: string)
    ensures WellEscaped(EscapeAll(s)) && Unescape(EscapeAll(s)) == s
  {
    if s != [] {
      EscapeAllWellEscaped(s[1..]);
      var t := EscapeAll(s);
      if IsRegexMeta(s[0]) {
        assert t[2..] == EscapeAll(s[1..]);
      } else {
        assert s[0] != '\\';
        assert t[1..] == EscapeAll(s[1..]);
      }
    }
  }

  /** Escaping protects every metacharacter and loses nothing: unescaping gives the input back. */
  lemma EscapeRoundTrip(s: string)
    ensures WellEscaped(EscapeStringRegexp(s))
    ensures Unescape(EscapeStringRegexp(s)) == s
  {
    EscapeAllWellEscaped(s);
    if !HasRegexMeta(s) {
      NoMetaUnchanged(s);
    }
  }

  lemma {:induction false} NoMetaUnchanged(s: string)
    requires !HasRegexMeta(s)
    ensures EscapeAll(s) == s
  {
    if s != [] {
      assert !IsRegexMeta(s[0]);
      assert !HasRegexMeta(s[1..]) by {
        forall i | 0 <= i < |s[1..]| ensures !IsRegexMeta(s[1..][i]) { assert s[1..][i] == s[i + 1]; }
      }
      NoMetaUnchanged(s[1..]);
    }
  }

  // ---------------------------------------------------------------------------
  // Segments
  // ---------------------------------------------------------------------------

  /** `route.replace(/\/$/, '') || '/'`: drop one trailing slash; the empty result becomes "/". */
  function RemoveTrailingSlash(route: string): (r: string)
    ensures r != []
    ensures route != [] && route != "/" && route[|route| - 1] == '/' ==> r == route[..|route| - 1]
    ensures (route == [] || route[|route| - 1] != '/') && route != [] ==> r == route
    ensures route == [] || route == "/" ==> r == "/"
  {
    var stripped := if route != [] && route[|route| - 1] == '/' then route[..|route| - 1] else route;
    if stripped == [] then "/" else stripped
  }

  /** `removeTrailingSlash(route).slice(1).split('/')`. */
  function Segments(route: string): (segs: seq<string>)
    ensures |segs| >= 1
  {
    Split(RemoveTrailingSlash(route)[1..], '/')
  }

  /** `^\[.*\]$` (the `.` matches no line terminator). */
  predicate IsBracketed(seg: string)
  {
    |seg| >= 2 && seg[0] == '[' && seg[|seg| - 1] == ']' && NoLineTerminator(seg[1..|seg| - 1])
  }

  /** `^\(.*\)$`. */
  predicate IsParenthesized(seg: string)
  {
    |seg| >= 2 && seg[0] == '(' && seg[|seg| - 1] == ')' && NoLineTerminator(seg[1..|seg| - 1])
  }

  /** Segment `index`, with a final `+not-found` rewritten to the not-found catch-all. */
  function SegmentAt(segs: seq<string>, index: nat): string
    requires index < |segs|
  {
    if segs[index] == NotFoundSegment && index == |segs| - 1 then NotFoundParam else segs[index]
  }

  // ---------------------------------------------------------------------------
  // parseParam
  // ---------------------------------------------------------------------------

  datatype Param = Param(name: string, repeat: bool, optional: bool)

  /**
   * `parseParam`: one bracket layer off sets `optional`, then a leading `...`
   * off sets `repeat`.
   */
  function ParseParam(param: string): (p: Param)
    ensures p.optional <==> IsBracketed(param)
    ensures var inner := if IsBracketed(param) then param[1..|param| - 1] else param;
            && (p.repeat <==> StartsWith(inner, "..."))
            && p.name == (if p.repeat then inner[3..] else inner)
  {
    var optional := IsBracketed(param);
    var name := if optional then param[1..|param| - 1] else param;
    if StartsWith(name, "...") then Param(name[3..], true, optional)
    else Param(name, false, optional)
  }

  /**
   * Because the compiler hands `parseParam` the whole bracketed segment, every
   * parameter it sees is `optional`: `[id]` and `[...slug]` parse as shown.
   */
  lemma ParseParamExamples()
    ensures ParseParam("[id]") == Param("id", false, true)
    ensures ParseParam("[...slug]") == Param("slug", true, true)
  {
    ParseParamId();
    ParseParamSlug();
  }

  lemma ParseParamId()
    ensures ParseParam("[id]") == Param("id", false, true)
  {
    assert "[id]"[1..3] == "id";
  }

  lemma ParseParamSlug()
    ensures ParseParam("[...slug]") == Param("slug", true, true)
  {
    assert "[...slug]"[1..8] == "...slug";
    assert StartsWith("...slug", "...");
  }

  /** Double brackets lose only one layer: `[[...x]]` is named `[...x]` and does not repeat. */
  lemma ParseParamDoubleBrackets()
    ensures ParseParam("[[...x]]") == Param("[...x]", false, true)
  {
    assert "[[...x]]"[1..7] == "[...x]";
    assert "[...x]"[..3][0] == '[';
  }

  // ---------------------------------------------------------------------------
  // Key sanitising
  // ---------------------------------------------------------------------------

  /** The cleaned key cannot serve as a group name of this route. */
  predicate InvalidKey(cleaned: string, routeKeys: Record<string>)
  {
    |cleaned| == 0 || |cleaned| > MaxKeyLength || IsDigit(cleaned[0]) || JsIn(cleaned, routeKeys)
  }

  /** What a group name of a compiled pattern looks like. */
  predicate WellFormedKey(key: string)
  {
    |key| >= 1 && AllWordChars(key) && !IsDigit(key[0])
  }

  predicate WellFormedKeys(routeKeys: Record<string>)
  {
    forall k :: k in Keys(routeKeys) ==> WellFormedKey(k)
  }

  /**
   * The group name for a parameter: its cleaned name when that is valid,
   * otherwise the generator's next key (which advances the generator).
   */
  function ChooseKey(cleaned: string, routeKeys: Record<string>, gen: KeyGenState): (r: (string, KeyGenState))
    requires ValidState(gen)
    requires AllWordChars(cleaned)
    ensures !InvalidKey(cleaned, routeKeys) ==> r == (cleaned, gen)
    ensures InvalidKey(cleaned, routeKeys) ==> r == NextKey(gen)
    ensures WellFormedKey(r.0) && ValidState(r.1)
  {
    if InvalidKey(cleaned, routeKeys) then
      NextKeyShape(gen);
      NextKey(gen)
    else (cleaned, gen)
  }

  // ---------------------------------------------------------------------------
  // Fragments
  // ---------------------------------------------------------------------------

  /** The fragment of a dynamic segment whose group name is `key`. */
  function ParamFragment(key: string, p: Param): string
  {
    if p.repeat then
      if p.optional then "(?:/(?<" + key + ">.+?))?" else "/(?<" + key + ">.+?)"
    else "/(?<" + key + ">[^/]+?)"
  }

  /**
   * The fragment of a route group `(a)` or `(a,b)`: an optional segment
   * matching the parenthesised text; `groupName` stands for `matchGroupName`.
   */
  function GroupFragment(seg: string, groupName: string -> string): string
  {
    var names := NonEmpty(TrimAll(Split(groupName(seg), ',')));
    if |names| > 1 then "(?:/\\((?:" + Join(EscapeAllNames(names), "|") + ")\\))?"
    else "(?:/" + EscapeStringRegexp(seg) + ")?"
  }

  function TrimAll(parts: seq<string>): (r: seq<string>)
    ensures |r| == |parts|
  {
    if parts == [] then [] else [Trim(parts[0])] + TrimAll(parts[1..])
  }

  function NonEmpty(parts: seq<string>): seq<string>
  {
    if parts == [] then [] else (if parts[0] != "" then [parts[0]] else []) + NonEmpty(parts[1..])
  }

  function EscapeAllNames(names: seq<string>): (r: seq<string>)
    ensures |r| == |names|
  {
    if names == [] then [] else [EscapeStringRegexp(names[0])] + EscapeAllNames(names[1..])
  }


  /**
   * What the callback of `segments.map` returns for `segment`; `key` is the
   * group name it chose, used only when the segment is dynamic.
   */
  function SegmentFragment(segment: string, key: string, groupName: string -> string): string
  {
    if IsBracketed(segment) then ParamFragment(key, ParseParam(segment))
    else if IsParenthesized(segment) then GroupFragment(segment, groupName)
    else "/" + EscapeStringRegexp(segment)
  }

  // ---------------------------------------------------------------------------
  // The compiler as two folds over the segments
  // ---------------------------------------------------------------------------

  /** What a compiled route pattern consists of. */
  datatype Compiled = Compiled(namedRegex: string, routeKeys: Record<string>)

  /**
   * What the callback of `segments.map` carries from one segment to the next:
   * the `routeKeys` object and the counters of the key generator. The
   * fragments depend on it; it does not depend on the fragments.
   */
  datatype Keying = Keying(routeKeys: Record<string>, gen: KeyGenState)

  const InitialKeying: Keying := Keying([], Initial)

  predicate ValidKeying(k: Keying)
  {
    ValidState(k.gen) && DistinctKeys(k.routeKeys)
  }

  lemma InitialValid()
    ensures ValidKeying(InitialKeying)
  {
  }

  /** The group name of the dynamic segment `seg`, and the generator's state after choosing it. */
  function SegmentKey(seg: string, k: Keying): (r: (string, KeyGenState))
    requires IsBracketed(seg) && ValidKeying(k)
  {
    ChooseKey(RemoveNonWord(ParseParam(seg).name), k.routeKeys, k.gen)
  }

  /** After segment `index`: a dynamic segment records its group name, any other changes nothing. */
  function KeyStep(segs: seq<string>, index: nat, k: Keying): (r: Keying)
    requires index < |segs| && ValidKeying(k)
    ensures ValidKeying(r)
  {
    var segment := SegmentAt(segs, index);
    if IsBracketed(segment) then
      var (key, gen') := SegmentKey(segment, k);
      Keying(Put(k.routeKeys, key, ParseParam(segment).name), gen')
    else k
  }

  /** After the segments from `index` on. */
  function KeyFold(segs: seq<string>, index: nat, k: Keying): (r: Keying)
    requires index <= |segs| && ValidKeying(k)
    ensures ValidKeying(r)
    decreases |segs| - index
  {
    if index == |segs| then k else KeyFold(segs, index + 1, KeyStep(segs, index, k))
  }

  /** The fragment of segment `index`, reached with `k`. */
  function Fragment(segs: seq<string>, index: nat, k: Keying, groupName: string -> string): string
    requires index < |segs| && ValidKeying(k)
  {
    var segment := SegmentAt(segs, index);
    SegmentFragment(segment, if IsBracketed(segment) then SegmentKey(segment, k).0 else "", groupName)
  }

  /** `fragments` followed by the fragments of the segments from `index` on: the `join('')`. */
  function Fragments(segs: seq<string>, index: nat, k: Keying, fragments: string, groupName: string -> string): string
    requires index <= |segs| && ValidKeying(k)
    decreases |segs| - index
  {
    if index == |segs| then fragments
    else Fragments(segs, index + 1, KeyStep(segs, index, k), fragments + Fragment(segs, index, k, groupName), groupName)
  }

  /** `getNamedRegex(route)`, as a value. */
  function Compile(route: string, groupName: string -> string): Compiled
  {
    var segs := Segments(route);
    Compiled("^" + Fragments(segs, 0, InitialKeying, "", groupName) + PatternSuffix,
             KeyFold(segs, 0, InitialKeying).routeKeys)
  }

  /**
   * The group name of a parameter called `name`: the name without its
   * non-word characters, unless that is empty, too long, starts with a digit
   * or is already a property of `routeKeys`; then the generator's next key.
   */
  method SanitizedKey(name: string, routeKeys: Record<string>, getSafeRouteKey: SafeRouteKeyGenerator)
      returns (cleanedKey: string)
    requires getSafeRouteKey.Valid()
    modifies getSafeRouteKey
    ensures getSafeRouteKey.Valid()
    ensures (cleanedKey, getSafeRouteKey.State()) == ChooseKey(RemoveNonWord(name), routeKeys, old(getSafeRouteKey.State()))
  {
    cleanedKey := RemoveNonWord(name);
    var invalidKey := false;
    if |cleanedKey| == 0 || |cleanedKey| > MaxKeyLength {
      invalidKey := true;
    }
    if |cleanedKey| > 0 && IsDigit(cleanedKey[0]) {
      invalidKey := true;
    }
    if JsIn(cleanedKey, routeKeys) {
      invalidKey := true;
    }
    if invalidKey {
      cleanedKey := getSafeRouteKey.Next();
    }
  }

  /**
   * The dynamic-segment branch of the callback of `segments.map`: the
   * fragment of a bracketed segment, with `routeKeys` and the generator
   * updated.
   */
  method CompileParamSegment(segment: string, routeKeys: Record<string>, getSafeRouteKey: SafeRouteKeyGenerator)
      returns (fragment: string, routeKeys': Record<string>)
    requires IsBracketed(segment)
    requires getSafeRouteKey.Valid() && DistinctKeys(routeKeys)
    modifies getSafeRouteKey
    ensures getSafeRouteKey.Valid()
    ensures var (key, gen') := SegmentKey(segment, Keying(routeKeys, old(getSafeRouteKey.State())));
            && fragment == ParamFragment(key, ParseParam(segment))
            && routeKeys' == Put(routeKeys, key, ParseParam(segment).name)
            && getSafeRouteKey.State() == gen'
  {
    var param := ParseParam(segment);
    var cleanedKey := SanitizedKey(param.name, routeKeys, getSafeRouteKey);
    routeKeys' := Put(routeKeys, cleanedKey, param.name);
    fragment := ParamFragment(cleanedKey, param);
  }

  /** `getNamedRegex`: one fresh key generator per call, `routeKeys` filled while the segments are mapped. */
  method GetNamedRegex(route: string, groupName: string -> string) returns (c: Compiled)
    ensures c == Compile(route, groupName)
  {
    var segments := Segments(route);
    var getSafeRouteKey := new SafeRouteKeyGenerator();
    var routeKeys: Record<string> := [];
    var routeSegments := "";
    var index: nat := 0;
    ghost var k := InitialKeying;
    while index < |segments|
      invariant index <= |segments|
      invariant getSafeRouteKey.Valid() && ValidKeying(k)
      invariant k == Keying(routeKeys, getSafeRouteKey.State())
      invariant KeyFold(segments, index, k) == KeyFold(segments, 0, InitialKeying)
      invariant Fragments(segments, index, k, routeSegments, groupName) == Fragments(segments, 0, InitialKeying, "", groupName)
    {
      var segment := segments[index];
      if segment == NotFoundSegment && index == |segments| - 1 {
        segment := NotFoundParam;
      }
      assert segment == SegmentAt(segments, index);
      var fragment;
      if IsBracketed(segment) {
        fragment, routeKeys := CompileParamSegment(segment, routeKeys, getSafeRouteKey);
        StepParam(segments, index, k, groupName);
      } else if IsParenthesized(segment) {
        fragment := GroupFragment(segment, groupName);
        StepGroup(segments, index, k, groupName);
      } else {
        fragment := "/" + EscapeStringRegexp(segment);
        StepLiteral(segments, index, k, groupName);
      }
      FragmentsStep(segments, index, k, routeSegments, groupName);
      ghost var k' := KeyStep(segments, index, k);
      assert KeyFold(segments, index + 1, k') == KeyFold(segments, 0, InitialKeying);
      assert Fragments(segments, index + 1, k', routeSegments + fragment, groupName)
          == Fragments(segments, 0, InitialKeying, "", groupName);
      routeSegments := routeSegments + fragment;
      k := k';
      index := index + 1;
    }
    c := Compiled("^" + routeSegments + PatternSuffix, routeKeys);
  }

  lemma StepParam(segs: seq<string>, index: nat, k: Keying, groupName: string -> string)
    requires index < |segs| && ValidKeying(k)
    requires IsBracketed(SegmentAt(segs, index))
    ensures var seg := SegmentAt(segs, index);
            var (key, gen') := SegmentKey(seg, k);
            && Fragment(segs, index, k, groupName) == ParamFragment(key, ParseParam(seg))
            && KeyStep(segs, index, k) == Keying(Put(k.routeKeys, key, ParseParam(seg).name), gen')
  {
  }

  lemma StepGroup(segs: seq<string>, index: nat, k: Keying, groupName: string -> string)
    requires index < |segs| && ValidKeying(k)
    requires !IsBracketed(SegmentAt(segs, index)) && IsParenthesized(SegmentAt(segs, index))
    ensures Fragment(segs, index, k, groupName) == GroupFragment(SegmentAt(segs, index), groupName)
    ensures KeyStep(segs, index, k) == k
  {
  }

  lemma StepLiteral(segs: seq<string>, index: nat, k: Keying, groupName: string -> string)
    requires index < |segs| && ValidKeying(k)
    requires !IsBracketed(SegmentAt(segs, index)) && !IsParenthesized(SegmentAt(segs, index))
    ensures Fragment(segs, index, k, groupName) == "/" + EscapeStringRegexp(SegmentAt(segs, index))
    ensures KeyStep(segs, index, k) == k
  {
  }

  lemma FragmentsStep(segs: seq<string>, index: nat, k: Keying, fragments: string, groupName: string -> string)
    requires index < |segs| && ValidKeying(k)
    ensures Fragments(segs, index, k, fragments, groupName)
         == Fragments(segs, index + 1, KeyStep(segs, index, k), fragments + Fragment(segs, index, k, groupName), groupName)
    ensures KeyFold(segs, index, k) == KeyFold(segs, index + 1, KeyStep(segs, index, k))
  {
  }

  // ---------------------------------------------------------------------------
  // Properties of the compiled pattern
  // ---------------------------------------------------------------------------

  /** The number of dynamic segments from `index` on. */
  function BracketCount(segs: seq<string>, index: nat): nat
    requires index <= |segs|
    decreases |segs| - index
  {
    if index == |segs| then 0
    else (if IsBracketed(SegmentAt(segs, index)) then 1 else 0) + BracketCount(segs, index + 1)
  }

  /** The parameter names of the dynamic segments from `index` on. */
  function ParamNames(segs: seq<string>, index: nat): set<string>
    requires index <= |segs|
    decreases |segs| - index
  {
    if index == |segs| then {} else OwnName(segs, index) + ParamNames(segs, index + 1)
  }

  /** The parameter name of segment `index`, if it is dynamic. */
  function OwnName(segs: seq<string>, index: nat): set<string>
    requires index < |segs|
  {
    var seg := SegmentAt(segs, index);
    if IsBracketed(seg) then {ParseParam(seg).name} else {}
  }

  /** One step adds only well-formed group names. */
  lemma StepWellFormed(segs: seq<string>, index: nat, k: Keying)
    requires index < |segs| && ValidKeying(k) && WellFormedKeys(k.routeKeys)
    ensures WellFormedKeys(KeyStep(segs, index, k).routeKeys)
  {
  }

  /** One step loses no group name. */
  lemma StepKeeps(segs: seq<string>, index: nat, k: Keying)
    requires index < |segs| && ValidKeying(k)
    ensures Keys(k.routeKeys) <= Keys(KeyStep(segs, index, k).routeKeys)
  {
  }

  /** One step adds at most one entry for a dynamic segment, and none otherwise. */
  lemma StepKeyCount(segs: seq<string>, index: nat, k: Keying)
    requires index < |segs| && ValidKeying(k)
    ensures var r := KeyStep(segs, index, k);
            && |r.routeKeys| <= |k.routeKeys| + (if IsBracketed(SegmentAt(segs, index)) then 1 else 0)
            && (!IsBracketed(SegmentAt(segs, index)) ==> r.routeKeys == k.routeKeys)
  {
  }

  /** One step records only the name of its own dynamic segment. */
  lemma StepValues(segs: seq<string>, index: nat, k: Keying)
    requires index < |segs| && ValidKeying(k)
    ensures Values(KeyStep(segs, index, k).routeKeys) <= Values(k.routeKeys) + OwnName(segs, index)
  {
  }

  /** Every group name is well formed. */
  lemma {:induction false} FoldWellFormed(segs: seq<string>, index: nat, k: Keying)
    requires index <= |segs| && ValidKeying(k) && WellFormedKeys(k.routeKeys)
    ensures WellFormedKeys(KeyFold(segs, index, k).routeKeys)
    decreases |segs| - index, 1
  {
    if index < |segs| {
      WellFormedStep(segs, index, k);
    }
  }

  /** The inductive step of `FoldWellFormed`. */
  lemma {:induction false} WellFormedStep(segs: seq<string>, index: nat, k: Keying)
    requires index < |segs| && ValidKeying(k) && WellFormedKeys(k.routeKeys)
    ensures WellFormedKeys(KeyFold(segs, index, k).routeKeys)
    decreases |segs| - index, 0
  {
    StepWellFormed(segs, index, k);
    FoldWellFormed(segs, index + 1, KeyStep(segs, index, k));
    FoldUnfolds(segs, index, k);
  }

  /** No group name is lost. */
  lemma {:induction false} FoldKeeps(segs: seq<string>, index: nat, k: Keying)
    requires index <= |segs| && ValidKeying(k)
    ensures Keys(k.routeKeys) <= Keys(KeyFold(segs, index, k).routeKeys)
    decreases |segs| - index, 1
  {
    if index < |segs| {
      KeepsStep(segs, index, k);
    }
  }

  /** The inductive step of `FoldKeeps`. */
  lemma {:induction false} KeepsStep(segs: seq<string>, index: nat, k: Keying)
    requires index < |segs| && ValidKeying(k)
    ensures Keys(k.routeKeys) <= Keys(KeyFold(segs, index, k).routeKeys)
    decreases |segs| - index, 0
  {
    var k' := KeyStep(segs, index, k);
    var r := KeyFold(segs, index + 1, k');
    FoldKeeps(segs, index + 1, k');
    StepKeeps(segs, index, k);
    FoldUnfolds(segs, index, k);
    assert Keys(k.routeKeys) <= Keys(k'.routeKeys) <= Keys(r.routeKeys);
  }

  /** Group and literal segments add no `routeKeys` entry and a dynamic segment at most one. */
  lemma {:induction false} FoldKeyCount(segs: seq<string>, index: nat, k: Keying)
    requires index <= |segs| && ValidKeying(k)
    ensures var r := KeyFold(segs, index, k);
            && |r.routeKeys| <= |k.routeKeys| + BracketCount(segs, index)
            && (BracketCount(segs, index) == 0 ==> r.routeKeys == k.routeKeys)
    decreases |segs| - index, 1
  {
    if index < |segs| {
      KeyCountStep(segs, index, k);
    }
  }

  /** The inductive step of `FoldKeyCount`. */
  lemma {:induction false} KeyCountStep(segs: seq<string>, index: nat, k: Keying)
    requires index < |segs| && ValidKeying(k)
    ensures var r := KeyFold(segs, index, k);
            && |r.routeKeys| <= |k.routeKeys| + BracketCount(segs, index)
            && (BracketCount(segs, index) == 0 ==> r.routeKeys == k.routeKeys)
    decreases |segs| - index, 0
  {
    StepKeyCount(segs, index, k);
    FoldKeyCount(segs, index + 1, KeyStep(segs, index, k));
    FoldUnfolds(segs, index, k);
  }

  /** `KeyFold` takes one step and continues from the next segment. */
  lemma FoldUnfolds(segs: seq<string>, index: nat, k: Keying)
    requires index < |segs| && ValidKeying(k)
    ensures KeyFold(segs, index, k) == KeyFold(segs, index + 1, KeyStep(segs, index, k))
  {
  }

  /** Every recorded name is the name of one of the dynamic segments. */
  lemma {:induction false} FoldValues(segs: seq<string>, index: nat, k: Keying)
    requires index <= |segs| && ValidKeying(k)
    ensures Values(KeyFold(segs, index, k).routeKeys) <= Values(k.routeKeys) + ParamNames(segs, index)
    decreases |segs| - index, 1
  {
    if index < |segs| {
      ValuesStep(segs, index, k);
    }
  }

  /** The inductive step of `FoldValues`. */
  lemma {:induction false} ValuesStep(segs: seq<string>, index: nat, k: Keying)
    requires index < |segs| && ValidKeying(k)
    ensures Values(KeyFold(segs, index, k).routeKeys) <= Values(k.routeKeys) + ParamNames(segs, index)
    decreases |segs| - index, 0
  {
    var own := OwnName(segs, index);
    var k' := KeyStep(segs, index, k);
    var r := KeyFold(segs, index + 1, k');
    FoldValues(segs, index + 1, k');
    StepValues(segs, index, k);
    FoldUnfolds(segs, index, k);
    assert ParamNames(segs, index) == own + ParamNames(segs, index + 1);
    SubsetThrough(Values(r.routeKeys), Values(k'.routeKeys), ParamNames(segs, index + 1), Values(k.routeKeys), own);
  }

  lemma SubsetThrough<T>(a: set<T>, b: set<T>, c: set<T>, d: set<T>, e: set<T>)
    requires a <= b + c && b <= d + e
    ensures a <= d + (e + c)
  {
  }

  /**
   * The compiled pattern is anchored and ends with an optional trailing
   * slash; its `routeKeys` has distinct, well-formed group names, at most one
   * per dynamic segment, none at all without dynamic segments, and maps them
   * only to the segments' parameter names.
   */
  lemma CompiledPatternShape(route: string, groupName: string -> string)
    ensures var c := Compile(route, groupName);
            var segs := Segments(route);
            && StartsWith(c.namedRegex, "^") && EndsWith(c.namedRegex, PatternSuffix)
            && DistinctKeys(c.routeKeys) && WellFormedKeys(c.routeKeys)
            && |c.routeKeys| <= BracketCount(segs, 0)
            && (BracketCount(segs, 0) == 0 ==> c.routeKeys == [])
            && Values(c.routeKeys) <= ParamNames(segs, 0)
  {
    InitialValid();
    FoldWellFormed(Segments(route), 0, InitialKeying);
    FoldKeyCount(Segments(route), 0, InitialKeying);
    FoldValues(Segments(route), 0, InitialKeying);
  }

  /** Compiling a route of one segment. */
  lemma FoldOne(segs: seq<string>, groupName: string -> string)
    requires |segs| == 1
    ensures KeyFold(segs, 0, InitialKeying) == KeyStep(segs, 0, InitialKeying)
    ensures Fragments(segs, 0, InitialKeying, "", groupName) == "" + Fragment(segs, 0, InitialKeying, groupName)
  {
    InitialValid();
  }

  /** Compiling a route of two segments. */
  lemma FoldTwo(segs: seq<string>, groupName: string -> string)
    requires |segs| == 2
    ensures var k1 := KeyStep(segs, 0, InitialKeying);
            && KeyFold(segs, 0, InitialKeying) == KeyStep(segs, 1, k1)
            && Fragments(segs, 0, InitialKeying, "", groupName)
               == "" + Fragment(segs, 0, InitialKeying, groupName) + Fragment(segs, 1, k1, groupName)
  {
    InitialValid();
    var k1 := KeyStep(segs, 0, InitialKeying);
    FragmentsStep(segs, 0, InitialKeying, "", groupName);
    var k2 := KeyStep(segs, 1, k1);
    FragmentsStep(segs, 1, k1, "" + Fragment(segs, 0, InitialKeying, groupName), groupName);
  }

  /** The root path compiles to a pattern that matches "/" and "//" only, with no keys. */
  lemma RootPattern(groupName: string -> string)
    ensures Compile("/", groupName) == Compiled("^/(?:/)?$", [])
    ensures Compile("", groupName) == Compiled("^/(?:/)?$", [])
  {
    assert Segments("/") == [""];
    assert Segments("") == [""];
    RootFragment(groupName);
    FoldOne([""], groupName);
  }

  lemma RootFragment(groupName: string -> string)
    ensures "^" + ("" + Fragment([""], 0, InitialKeying, groupName)) + PatternSuffix == "^/(?:/)?$"
  {
    InitialValid();
    assert !HasRegexMeta("");
    assert Fragment([""], 0, InitialKeying, groupName) == "/";
  }

  /** One trailing slash makes no difference to the compiled pattern. */
  lemma TrailingSlashIgnored(route: string, groupName: string -> string)
    requires route != [] && route[|route| - 1] != '/'
    ensures Compile(route + "/", groupName) == Compile(route, groupName)
  {
    assert (route + "/")[..|route|] == route;
    assert Segments(route + "/") == Segments(route);
  }

  /**
   * Every dynamic segment reaches `parseParam` with its brackets, so it is
   * always `optional`: a catch-all gets the optional fragment
   * `(?:/(?<k>.+?))?`, any other parameter `/(?<k>[^/]+?)`, and the
   * non-optional `/(?<k>.+?)` form is never produced.
   */
  lemma DynamicFragmentShape(segs: seq<string>, index: nat, k: Keying, groupName: string -> string)
    requires index < |segs| && ValidKeying(k)
    requires IsBracketed(SegmentAt(segs, index))
    ensures var seg := SegmentAt(segs, index);
            exists key :: WellFormedKey(key) &&
              Fragment(segs, index, k, groupName)
                == (if StartsWith(seg[1..|seg| - 1], "...") then "(?:/(?<" + key + ">.+?))?" else "/(?<" + key + ">[^/]+?)")
  {
    var key := SegmentKey(SegmentAt(segs, index), k).0;
    assert WellFormedKey(key);
  }

  /** A segment `[name]` that is not a catch-all: its group name comes from `name` without its non-word characters. */
  lemma StepPlainParam(segs: seq<string>, index: nat, k: Keying, groupName: string -> string, name: string)
    requires index < |segs| && ValidKeying(k)
    requires SegmentAt(segs, index) == "[" + name + "]"
    requires NoLineTerminator(name) && !StartsWith(name, "...")
    ensures var (key, gen') := ChooseKey(RemoveNonWord(name), k.routeKeys, k.gen);
            && KeyStep(segs, index, k) == Keying(Put(k.routeKeys, key, name), gen')
            && Fragment(segs, index, k, groupName) == ParamFragment(key, Param(name, false, true))
  {
    var seg := SegmentAt(segs, index);
    assert seg[1..|seg| - 1] == name;
    assert ParseParam(seg) == Param(name, false, true);
  }

  /**
   * As written, a generated key is not checked against the keys already
   * taken: in `/[a]/[$]` the second parameter (cleaned to nothing) gets the
   * generator's "a", so both groups are named `a` and `routeKeys` keeps a
   * single entry, for `$`.
   */
  lemma GeneratedKeyCollides(groupName: string -> string)
    ensures var c := Compile("/[a]/[$]", groupName);
            && c.routeKeys == [("a", "$")]
            && c.namedRegex == "^" + ParamFragment("a", Param("a", false, true))
                                   + ParamFragment("a", Param("$", false, true)) + PatternSuffix
  {
    CollidingSegments();
    CollidingFold(groupName);
    TwoFragmentPattern(ParamFragment("a", Param("a", false, true)), ParamFragment("a", Param("$", false, true)));
  }

  lemma TwoFragmentPattern(f1: string, f2: string)
    ensures "^" + ("" + f1 + f2) + PatternSuffix == "^" + f1 + f2 + PatternSuffix
  {
    assert "" + f1 == f1;
  }

  lemma CollidingFold(groupName: string -> string)
    ensures KeyFold(["[a]", "[$]"], 0, InitialKeying) == Keying([("a", "$")], NextKey(Initial).1)
    ensures Fragments(["[a]", "[$]"], 0, InitialKeying, "", groupName)
         == "" + ParamFragment("a", Param("a", false, true)) + ParamFragment("a", Param("$", false, true))
  {
    var k1 := CollidingFirstStep(groupName);
    CollidingSecondStep(k1, groupName);
    FoldTwo(["[a]", "[$]"], groupName);
  }

  lemma CollidingSegments()
    ensures Segments("/[a]/[$]") == ["[a]", "[$]"]
  {
    var route := "/[a]/[$]";
    assert route[|route| - 1] == ']';
    assert route[1..] == "[a]" + ['/'] + "[$]";
    SplitAtFirst("[a]", "[$]", '/');
    SplitWithoutSeparator("[$]", '/');
  }

  /** `[a]` keeps its own name. */
  lemma CollidingFirstStep(groupName: string -> string) returns (k1: Keying)
    ensures k1 == Keying([("a", "a")], Initial)
    ensures KeyStep(["[a]", "[$]"], 0, InitialKeying) == k1
    ensures Fragment(["[a]", "[$]"], 0, InitialKeying, groupName) == ParamFragment("a", Param("a", false, true))
  {
    var segs := ["[a]", "[$]"];
    InitialValid();
    assert SegmentAt(segs, 0) == "[" + "a" + "]";
    assert AllWordChars("a") && "a"[0] == 'a';
    NotAPrototypeName("a");
    assert ChooseKey("a", [], Initial) == ("a", Initial);
    StepPlainParam(segs, 0, InitialKeying, groupName, "a");
    k1 := Keying([("a", "a")], Initial);
  }

  /** `[$]` cleans to nothing and gets the generator's first key, `a`, which overwrites the entry of `[a]`. */
  lemma CollidingSecondStep(k1: Keying, groupName: string -> string)
    requires k1 == Keying([("a", "a")], Initial)
    ensures KeyStep(["[a]", "[$]"], 1, k1) == Keying([("a", "$")], NextKey(Initial).1)
    ensures Fragment(["[a]", "[$]"], 1, k1, groupName) == ParamFragment("a", Param("$", false, true))
  {
    var segs := ["[a]", "[$]"];
    assert SegmentAt(segs, 1) == "[" + "$" + "]";
    assert RemoveNonWord("$") == "";
    FirstKeysAreLetters(0);
    assert ChooseKey("", k1.routeKeys, Initial) == NextKey(Initial);
    StepPlainParam(segs, 1, k1, groupName, "$");
  }

  /** A route of one dynamic segment whose name is made of word characters. */
  lemma OneParamSegments(name: string)
    requires AllWordChars(name)
    ensures Segments("/[" + name + "]") == ["[" + name + "]"]
    ensures SegmentAt(["[" + name + "]"], 0) == "[" + name + "]"
  {
    var seg := "[" + name + "]";
    var route := "/[" + name + "]";
    assert route == "/" + seg && route[|route| - 1] == ']';
    assert RemoveTrailingSlash(route) == route;
    assert route[1..] == seg;
    assert '/' !in seg by {
      forall i | 0 <= i < |seg| ensures seg[i] != '/' {
        if 0 < i < |seg| - 1 {
          assert seg[i] == name[i - 1];
        }
      }
    }
    SplitWithoutSeparator(seg, '/');
    assert seg[0] != NotFoundSegment[0];
  }

  lemma PrototypeNamesNonEmpty()
    ensures forall name :: name in ObjectPrototypeNames() ==> |name| > 0
  {
  }

  /**
   * A parameter named like a property of `Object.prototype` is found "in" the
   * empty `routeKeys` and gets the generator's first key.
   */
  lemma PrototypeNameGetsGeneratedKey(name: string, groupName: string -> string)
    requires name in ObjectPrototypeNames() && AllWordChars(name)
    ensures Compile("/[" + name + "]", groupName).routeKeys == [("a", name)]
  {
    var segs := ["[" + name + "]"];
    OneParamSegments(name);
    PlainWordName(name);
    InitialValid();
    StepPlainParam(segs, 0, InitialKeying, groupName, name);
    PrototypeKey(name);
    FoldOne(segs, groupName);
  }

  /** A name of word characters is no catch-all and holds no line terminator. */
  lemma PlainWordName(name: string)
    requires AllWordChars(name)
    ensures NoLineTerminator(name) && !StartsWith(name, "...")
  {
    if |name| >= 3 {
      assert name[..3][0] == name[0];
    }
    forall i | 0 <= i < |name| ensures !IsLineTerminator(name[i]) {
      assert IsWordChar(name[i]);
    }
  }

  lemma PrototypeKey(name: string)
    requires name in ObjectPrototypeNames() && AllWordChars(name)
    ensures ChooseKey(RemoveNonWord(name), [], Initial) == ("a", NextKey(Initial).1)
  {
    PrototypeNamesNonEmpty();
    assert InvalidKey(name, []);
    FirstKeysAreLetters(0);
  }

  /** A final `+not-found` is compiled as the catch-all `[...not-found]`, whose key loses its dash. */
  lemma NotFoundSegmentIsCatchAll(groupName: string -> string)
    ensures var c := Compile("/+not-found", groupName);
            && c.routeKeys == [("notfound", "not-found")]
            && c.namedRegex == "^" + ParamFragment("notfound", Param("not-found", true, true)) + PatternSuffix
  {
    var segs := [NotFoundSegment];
    NotFoundSegments();
    NotFoundStep(groupName);
    FoldOne(segs, groupName);
    var fragment := ParamFragment("notfound", Param("not-found", true, true));
    assert "" + fragment == fragment;
    assert Put([], "notfound", "not-found") == [("notfound", "not-found")];
  }

  lemma NotFoundSegments()
    ensures Segments("/+not-found") == [NotFoundSegment]
  {
    SplitWithoutSeparator(NotFoundSegment, '/');
    assert "/+not-found"[1..] == NotFoundSegment;
  }

  lemma NotFoundStep(groupName: string -> string)
    ensures KeyStep([NotFoundSegment], 0, InitialKeying) == Keying(Put([], "notfound", "not-found"), Initial)
    ensures Fragment([NotFoundSegment], 0, InitialKeying, groupName)
         == ParamFragment("notfound", Param("not-found", true, true))
  {
    NotFoundSegmentAt();
    NotFoundParamParses();
    NotFoundKeyKept();
    InitialValid();
  }

  lemma NotFoundSegmentAt()
    ensures SegmentAt([NotFoundSegment], 0) == NotFoundParam && IsBracketed(NotFoundParam)
  {
  }

  /** `not-found` cleans to the valid key `notfound`. */
  lemma NotFoundKey()
    ensures RemoveNonWord("not-found") == "notfound"
  {
    assert "not-found" == "not" + ['-'] + "found";
    assert AllWordChars("not") && AllWordChars("found");
    RemoveNonWordJoins("not", '-', "found");
    assert "not" + "found" == "notfound";
  }

  lemma NotFoundKeyKept()
    ensures ChooseKey(RemoveNonWord("not-found"), [], Initial) == ("notfound", Initial)
  {
    NotFoundKey();
    var key := "notfound";
    assert key[0] == 'n';
    NotAPrototypeName(key);
    assert !InvalidKey(key, []);
  }

  /** A catch-all `[...name]` parses to a repeated, optional parameter called `name`. */
  lemma CatchAllParses(name: string)
    requires NoLineTerminator(name)
    ensures ParseParam("[..." + name + "]") == Param(name, true, true)
  {
    var seg := "[..." + name + "]";
    assert seg[1..|seg| - 1] == "..." + name;
    assert ("..." + name)[..3] == "...";
    assert ("..." + name)[3..] == name;
  }

  lemma NotFoundParamParses()
    ensures ParseParam(NotFoundParam) == Param("not-found", true, true)
  {
    assert NotFoundParam == "[..." + "not-found" + "]";
    CatchAllParses("not-found");
  }

  /** An unbalanced `[name` is no parameter: it is compiled as escaped literal text and adds no key. */
  lemma UnbalancedBracketIsLiteral(name: string, groupName: string -> string)
    requires AllWordChars(name)
    ensures var c := Compile("/[" + name, groupName);
            c.routeKeys == [] && c.namedRegex == "^/" + EscapeAll("[" + name) + PatternSuffix
  {
    var seg := "[" + name;
    UnbalancedSegments(name);
    UnbalancedStep(seg, groupName);
    FoldOne([seg], groupName);
    LiteralPattern(EscapeAll(seg));
  }

  lemma LiteralPattern(e: string)
    ensures "^" + ("" + ("/" + e)) + PatternSuffix == "^/" + e + PatternSuffix
  {
    assert "" + ("/" + e) == "/" + e;
    assert "^" + ("/" + e) == "^/" + e;
  }

  lemma UnbalancedSegments(name: string)
    requires AllWordChars(name)
    ensures Segments("/[" + name) == ["[" + name]
  {
    var seg := "[" + name;
    var route := "/" + seg;
    assert route == "/[" + name;
    assert route[|route| - 1] == seg[|seg| - 1];
    assert route[1..] == seg;
    assert '/' !in seg by {
      forall i | 0 <= i < |seg| ensures seg[i] != '/' {
        if i > 0 {
          assert seg[i] == name[i - 1];
        }
      }
    }
    SplitWithoutSeparator(seg, '/');
  }

  lemma UnbalancedStep(seg: string, groupName: string -> string)
    requires |seg| >= 1 && seg[0] == '[' && seg[|seg| - 1] != ']'
    ensures KeyStep([seg], 0, InitialKeying) == InitialKeying
    ensures Fragment([seg], 0, InitialKeying, groupName) == "/" + EscapeAll(seg)
  {
    UnbalancedSegmentAt(seg);
    InitialValid();
    UnbalancedEscaped(seg);
  }

  lemma UnbalancedSegmentAt(seg: string)
    requires |seg| >= 1 && seg[0] == '[' && seg[|seg| - 1] != ']'
    ensures SegmentAt([seg], 0) == seg && !IsBracketed(seg) && !IsParenthesized(seg)
  {
    assert seg[0] != NotFoundSegment[0];
  }

  lemma UnbalancedEscaped(seg: string)
    requires |seg| >= 1 && seg[0] == '['
    ensures EscapeStringRegexp(seg) == EscapeAll(seg)
  {
    assert IsRegexMeta(seg[0]);
  }
}
