/**
 * The route compiler with the group-name choice it evidently intends: a
 * parameter whose cleaned name cannot be used gets the next key of the
 * sequence a, ..., z, aa, ab, ... that no property of `routeKeys` (and no
 * property of `Object.prototype`) already has. With that choice every
 * dynamic segment gets a group of its own, which the compiler as written
 * does not guarantee (see `NamedRegex.GeneratedKeyCollides`).
 */
module FreshKeys {
  import opened JsStrings
  import opened Records
  import opened RouteKeys
  import opened NamedRegex

  /** The taken keys that are still ahead of position `n` of the key sequence. */
  function TakenFrom(taken: set<string>, n: nat): set<string>
  {
    set k | k in taken && |k| >= 1 && IsLowerKey(k) && IntendedIndex(k) >= n
  }

  lemma TakenShrinks(taken: set<string>, n: nat)
    requires IntendedKey(n) in taken
    ensures TakenFrom(taken, n + 1) < TakenFrom(taken, n)
  {
    IntendedIndexOfKey(n);
    assert IntendedKey(n) in TakenFrom(taken, n) - TakenFrom(taken, n + 1);
  }

  /** Lower-case keys are usable group names. */
  lemma LowerKeyWellFormed(key: string)
    requires |key| >= 1 && IsLowerKey(key)
    ensures WellFormedKey(key)
  {
    assert forall i :: 0 <= i < |key| ==> IsWordChar(key[i]);
  }

  /**
   * The first key from position `n` of the sequence on that is not in
   * `taken`, and the position after it.
   */
  function FreshKey(taken: set<string>, n: nat): (r: (string, nat))
    ensures r.0 !in taken && WellFormedKey(r.0)
    ensures n < r.1 && r.0 == IntendedKey(r.1 - 1)
    decreases TakenFrom(taken, n)
  {
    var key := IntendedKey(n);
    if key in taken then
      TakenShrinks(taken, n);
      FreshKey(taken, n + 1)
    else
      LowerKeyWellFormed(key);
      (key, n + 1)
  }

  /** The group name of a parameter: its cleaned name when valid, else a fresh key. */
  function SafeChooseKey(cleaned: string, routeKeys: Record<string>, next: nat): (r: (string, nat))
    requires AllWordChars(cleaned)
    ensures !JsIn(r.0, routeKeys) && WellFormedKey(r.0)
    ensures !InvalidKey(cleaned, routeKeys) ==> r == (cleaned, next)
  {
    if InvalidKey(cleaned, routeKeys) then FreshKey(Keys(routeKeys) + ObjectPrototypeNames(), next) else (cleaned, next)
  }

  /** What is carried from segment to segment: `routeKeys` and the position in the key sequence. */
  datatype SafeKeying = SafeKeying(routeKeys: Record<string>, next: nat)

  predicate ValidSafeKeying(k: SafeKeying)
  {
    DistinctKeys(k.routeKeys) && WellFormedKeys(k.routeKeys)
  }

  /** The group name of the dynamic segment `seg`, and the position after it. */
  function SafeSegmentKey(seg: string, k: SafeKeying): (string, nat)
    requires IsBracketed(seg)
  {
    SafeChooseKey(RemoveNonWord(ParseParam(seg).name), k.routeKeys, k.next)
  }

  function SafeKeyStep(segs: seq<string>, index: nat, k: SafeKeying): (r: SafeKeying)
    requires index < |segs| && ValidSafeKeying(k)
    ensures ValidSafeKeying(r)
    ensures |r.routeKeys| == |k.routeKeys| + (if IsBracketed(SegmentAt(segs, index)) then 1 else 0)
  {
    var segment := SegmentAt(segs, index);
    if IsBracketed(segment) then
      var (key, next') := SafeSegmentKey(segment, k);
      SafeKeying(Put(k.routeKeys, key, ParseParam(segment).name), next')
    else k
  }

  function SafeKeyFold(segs: seq<string>, index: nat, k: SafeKeying): (r: SafeKeying)
    requires index <= |segs| && ValidSafeKeying(k)
    ensures ValidSafeKeying(r)
    decreases |segs| - index
  {
    if index == |segs| then k else SafeKeyFold(segs, index + 1, SafeKeyStep(segs, index, k))
  }

  function SafeFragments(segs: seq<string>, index: nat, k: SafeKeying, fragments: string, groupName: string -> string): string
    requires index <= |segs| && ValidSafeKeying(k)
    decreases |segs| - index
  {
    if index == |segs| then fragments
    else
      var segment := SegmentAt(segs, index);
      var key := if IsBracketed(segment) then SafeSegmentKey(segment, k).0 else "";
      SafeFragments(segs, index + 1, SafeKeyStep(segs, index, k), fragments + SegmentFragment(segment, key, groupName), groupName)
  }

  /** `getNamedRegex` with fresh generated keys. */
  function CompileWithFreshKeys(route: string, groupName: string -> string): Compiled
  {
    var segs := Segments(route);
    Compiled("^" + SafeFragments(segs, 0, SafeKeying([], 0), "", groupName) + PatternSuffix,
             SafeKeyFold(segs, 0, SafeKeying([], 0)).routeKeys)
  }

  /** Each dynamic segment from `index` on adds exactly one entry. */
  lemma {:induction false} SafeFoldCount(segs: seq<string>, index: nat, k: SafeKeying)
    requires index <= |segs| && ValidSafeKeying(k)
    ensures |SafeKeyFold(segs, index, k).routeKeys| == |k.routeKeys| + BracketCount(segs, index)
    decreases |segs| - index
  {
    if index < |segs| {
      SafeFoldCount(segs, index + 1, SafeKeyStep(segs, index, k));
    }
  }

  /**
   * With fresh keys, `routeKeys` has one distinct, well-formed group name per
   * dynamic segment of the route: no two parameters share a group.
   */
  lemma OneGroupPerParam(route: string, groupName: string -> string)
    ensures var c := CompileWithFreshKeys(route, groupName);
            && DistinctKeys(c.routeKeys) && WellFormedKeys(c.routeKeys)
            && |Keys(c.routeKeys)| == |c.routeKeys| == BracketCount(Segments(route), 0)
  {
    var c := CompileWithFreshKeys(route, groupName);
    SafeFoldCount(Segments(route), 0, SafeKeying([], 0));
    DistinctKeysCount(c.routeKeys);
  }
}
