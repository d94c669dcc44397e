/**
 * `getServerManifest` of `getServerManifest.ts`: the flattened leaves are
 * sorted with `sortRoutes` (arguments swapped), reversed, split into API and
 * page routes, deduplicated by key (first occurrence wins), the page routes
 * split again into ssg, spa and not-found routes, and every kept entry
 * compiled by `getNamedRegex`.
 */
module Manifest {
  import opened Wrappers
  import opened JsStrings
  import opened Records
  import opened NamedRegex
  import opened Flatten
  import opened Sorting
  import Unique

  /** One route of the manifest (`generated` is absent, i.e. false, unless the node is generated). */
  datatype ManifestRoute = ManifestRoute(
    file: string,
    page: string,
    routeKeys: Record<string>,
    namedRegex: string,
    generated: bool,
    layouts: Option<seq<RouteNode>>)

  datatype ServerManifest = ServerManifest(
    apiRoutes: seq<ManifestRoute>,
    spaRoutes: seq<ManifestRoute>,
    ssgRoutes: seq<ManifestRoute>,
    notFoundRoutes: seq<ManifestRoute>)

  /** The error `isNotFoundRoute` throws on an empty `dynamic` array. */
  const ReadNotFoundOfUndefined: string := "TypeError: Cannot read properties of undefined (reading 'notFound')"

  /**
   * `isNotFoundRoute(route)`: `route.dynamic && route.dynamic[length - 1].notFound`.
   * An empty array is truthy and its element `-1` is `undefined`, so reading
   * `notFound` from it throws.
   */
  function IsNotFoundRoute(node: RouteNode): (r: Result<bool>)
    ensures r.Err? <==> node.dynamic == Some([])
    ensures r == Ok(true) <==> node.dynamic.Some? && |node.dynamic.value| > 0 && node.dynamic.value[|node.dynamic.value| - 1].notFound
  {
    match node.dynamic
    case None => Ok(false)
    case Some(d) => if |d| == 0 then Err(ReadNotFoundOfUndefined) else Ok(d[|d| - 1].notFound)
  }

  // ---------------------------------------------------------------------------
  // Filters
  // ---------------------------------------------------------------------------

  /** `s.filter(keep)`. */
  function Filter<T>(s: seq<T>, keep: T -> bool): (r: seq<T>)
    ensures |r| <= |s|
    ensures forall i :: 0 <= i < |r| ==> r[i] in s && keep(r[i])
    ensures forall i :: 0 <= i < |s| && keep(s[i]) ==> s[i] in r
  {
    if s == [] then []
    else (if keep(s[0]) then [s[0]] else []) + Filter(s[1..], keep)
  }

  function EntryKey(e: FlatEntry): string { e.key }
  predicate IsApiEntry(e: FlatEntry) { e.node.kind == "api" }
  predicate IsPageEntry(e: FlatEntry) { e.node.kind == "route" }
  predicate IsSsgEntry(e: FlatEntry) { e.node.routeType == "ssg" }
  predicate IsSpaEntry(e: FlatEntry) { e.node.routeType == "spa" }

  /** `otherRoutes.filter(([, route]) => !isNotFoundRoute(route))`: the first throwing entry ends the filter. */
  function StandardRoutes(s: seq<FlatEntry>): (r: Result<seq<FlatEntry>>)
    ensures r.Err? <==> exists e :: e in s && e.node.dynamic == Some([])
    ensures r.Ok? ==> forall e :: e in r.value <==> e in s && IsNotFoundRoute(e.node) == Ok(false)
  {
    if s == [] then Ok([])
    else match IsNotFoundRoute(s[0].node)
      case Err(msg) => Err(msg)
      case Ok(notFound) =>
        match StandardRoutes(s[1..])
        case Err(msg) => Err(msg)
        case Ok(rest) => Ok((if notFound then [] else [s[0]]) + rest)
  }

  /** `otherRoutes.filter(([, route]) => isNotFoundRoute(route))`, on entries none of which throws. */
  function NotFoundRoutes(s: seq<FlatEntry>): (r: seq<FlatEntry>)
    requires forall e :: e in s ==> IsNotFoundRoute(e.node).Ok?
    ensures forall e :: e in r <==> e in s && IsNotFoundRoute(e.node) == Ok(true)
  {
    if s == [] then []
    else (if IsNotFoundRoute(s[0].node).value then [s[0]] else []) + NotFoundRoutes(s[1..])
  }

  // ---------------------------------------------------------------------------
  // The manifest as a value
  // ---------------------------------------------------------------------------

  /** The comparator handed to `sort`: `([, a], [, b]) => sortRoutes(b, a)`. */
  function Swapped(sortRoutes: (FlatEntry, FlatEntry) -> int): (FlatEntry, FlatEntry) -> int
  {
    (x: FlatEntry, y: FlatEntry) => sortRoutes(y, x)
  }

  /** `getFlatNodes(route).sort(...).reverse()`. */
  function OrderedEntries(root: RouteNode, contextKey: string -> string, sortRoutes: (FlatEntry, FlatEntry) -> int): seq<FlatEntry>
  {
    Reversed(InsertionSort(FlatNodes(root, None, contextKey), Swapped(sortRoutes)))
  }

  /** The four lists of entries before they are compiled. */
  datatype Partition = Partition(api: seq<FlatEntry>, spa: seq<FlatEntry>, ssg: seq<FlatEntry>, notFound: seq<FlatEntry>)

  function ApiEntries(flat: seq<FlatEntry>): seq<FlatEntry>
  {
    Unique.UniqueFrom(Filter(flat, IsApiEntry), EntryKey, {})
  }

  function PageEntries(flat: seq<FlatEntry>): seq<FlatEntry>
  {
    Unique.UniqueFrom(Filter(flat, IsPageEntry), EntryKey, {})
  }

  /** The deduplicated API and page entries, the page entries split by rendering mode and not-found flag. */
  function PartitionEntries(flat: seq<FlatEntry>): Result<Partition>
  {
    var other := PageEntries(flat);
    match StandardRoutes(other)
    case Err(msg) => Err(msg)
    case Ok(standard) =>
      Ok(Partition(ApiEntries(flat), Filter(standard, IsSpaEntry), Filter(standard, IsSsgEntry), NotFoundRoutes(other)))
  }

  /** `getNamedRouteRegex(normalizedRoute, page, file, layouts)`: the compiled pattern with the route's file names; not generated. */
  function NamedRouteRegex(normalizedRoute: string, page: string, file: string, layouts: Option<seq<RouteNode>>,
                           groupName: string -> string): ManifestRoute
  {
    var c := Compile(normalizedRoute, groupName);
    ManifestRoute(file, page, c.routeKeys, c.namedRegex, false, layouts)
  }

  /** The callback of `getMatchableManifestForPaths`: `getNamedRouteRegex` for the entry, marked when generated. */
  function MatchableRoute(e: FlatEntry, contextKey: string -> string, groupName: string -> string): ManifestRoute
  {
    var matcher := NamedRouteRegex(e.key, contextKey(e.node.route), e.node.contextKey, e.layouts, groupName);
    if e.node.generated then matcher.(generated := true) else matcher
  }

  /** `getMatchableManifestForPaths(paths)`. */
  function MatchableRoutes(s: seq<FlatEntry>, contextKey: string -> string, groupName: string -> string): (r: seq<ManifestRoute>)
    ensures |r| == |s|
    ensures forall i :: 0 <= i < |s| ==> r[i] == MatchableRoute(s[i], contextKey, groupName)
  {
    if s == [] then [] else [MatchableRoute(s[0], contextKey, groupName)] + MatchableRoutes(s[1..], contextKey, groupName)
  }

  /** `getServerManifest(route)`, or the error it throws. */
  function ServerManifestOf(root: RouteNode, contextKey: string -> string, groupName: string -> string,
                            sortRoutes: (FlatEntry, FlatEntry) -> int): Result<ServerManifest>
  {
    match PartitionEntries(OrderedEntries(root, contextKey, sortRoutes))
    case Err(msg) => Err(msg)
    case Ok(p) =>
      Ok(ServerManifest(
        MatchableRoutes(p.api, contextKey, groupName),
        MatchableRoutes(p.spa, contextKey, groupName),
        MatchableRoutes(p.ssg, contextKey, groupName),
        MatchableRoutes(p.notFound, contextKey, groupName)))
  }

  // ---------------------------------------------------------------------------
  // The manifest, step by step
  // ---------------------------------------------------------------------------

  /** `getMatchableManifestForPaths`: one `getNamedRegex` call per entry. */
  method MatchableManifestForPaths(paths: seq<FlatEntry>, contextKey: string -> string, groupName: string -> string)
      returns (routes: seq<ManifestRoute>)
    ensures routes == MatchableRoutes(paths, contextKey, groupName)
  {
    routes := [];
    var i := 0;
    while i < |paths|
      invariant 0 <= i <= |paths|
      invariant routes == MatchableRoutes(paths[..i], contextKey, groupName)
    {
      var matcher := MatchableRouteFor(paths[i], contextKey, groupName);
      MatchableRoutesStep(paths, i, contextKey, groupName);
      routes := routes + [matcher];
      i := i + 1;
    }
    assert paths[..i] == paths;
  }

  /** The callback of `paths.map`: the entry's pattern, marked when the route is generated. */
  method MatchableRouteFor(e: FlatEntry, contextKey: string -> string, groupName: string -> string)
      returns (matcher: ManifestRoute)
    ensures matcher == MatchableRoute(e, contextKey, groupName)
  {
    matcher := GetNamedRouteRegex(e.key, contextKey(e.node.route), e.node.contextKey, e.layouts, groupName);
    if e.node.generated {
      matcher := matcher.(generated := true);
    }
  }

  lemma MatchableRoutesStep(paths: seq<FlatEntry>, i: nat, contextKey: string -> string, groupName: string -> string)
    requires i < |paths|
    ensures MatchableRoutes(paths[..i + 1], contextKey, groupName)
         == MatchableRoutes(paths[..i], contextKey, groupName) + [MatchableRoute(paths[i], contextKey, groupName)]
  {
    assert paths[..i + 1] == paths[..i] + [paths[i]];
    MatchableRoutesAppend(paths[..i], paths[i], contextKey, groupName);
  }

  lemma {:induction false} MatchableRoutesAppend(s: seq<FlatEntry>, e: FlatEntry, contextKey: string -> string, groupName: string -> string)
    ensures MatchableRoutes(s + [e], contextKey, groupName)
         == MatchableRoutes(s, contextKey, groupName) + [MatchableRoute(e, contextKey, groupName)]
  {
    if s != [] {
      assert (s + [e])[1..] == s[1..] + [e];
      MatchableRoutesAppend(s[1..], e, contextKey, groupName);
    }
  }

  /** `getNamedRouteRegex`: one `getNamedRegex` call. */
  method GetNamedRouteRegex(normalizedRoute: string, page: string, file: string, layouts: Option<seq<RouteNode>>,
                            groupName: string -> string) returns (route: ManifestRoute)
    ensures route == NamedRouteRegex(normalizedRoute, page, file, layouts, groupName)
  {
    var result := GetNamedRegex(normalizedRoute, groupName);
    route := ManifestRoute(file, page, result.routeKeys, result.namedRegex, false, layouts);
  }

  /** `getServerManifest(route)`: the flat list is sorted and reversed in place, then filtered and deduplicated. */
  method GetServerManifest(root: RouteNode, contextKey: string -> string, groupName: string -> string,
                           sortRoutes: (FlatEntry, FlatEntry) -> int)
      returns (r: Result<ServerManifest>)
    ensures r == ServerManifestOf(root, contextKey, groupName, sortRoutes)
  {
    var nodes := FlatNodes(root, None, contextKey);
    var flat := new FlatEntry[|nodes|](i requires 0 <= i < |nodes| => nodes[i]);
    assert flat[..] == nodes;
    SortInPlace(flat, Swapped(sortRoutes));
    ReverseInPlace(flat);
    var ordered := flat[..];
    assert ordered == OrderedEntries(root, contextKey, sortRoutes);

    var apiRoutes := Unique.UniqueBy(Filter(ordered, IsApiEntry), EntryKey);
    var otherRoutes := Unique.UniqueBy(Filter(ordered, IsPageEntry), EntryKey);
    var standardRoutes := StandardRoutes(otherRoutes);
    if standardRoutes.Err? {
      return Err(standardRoutes.error);
    }
    var ssgRoutes := Filter(standardRoutes.value, IsSsgEntry);
    var spaRoutes := Filter(standardRoutes.value, IsSpaEntry);
    var notFoundRoutes := NotFoundRoutes(otherRoutes);

    var api := MatchableManifestForPaths(apiRoutes, contextKey, groupName);
    var spa := MatchableManifestForPaths(spaRoutes, contextKey, groupName);
    var ssg := MatchableManifestForPaths(ssgRoutes, contextKey, groupName);
    var notFound := MatchableManifestForPaths(notFoundRoutes, contextKey, groupName);
    r := Ok(ServerManifest(api, spa, ssg, notFound));
  }

  // ---------------------------------------------------------------------------
  // Properties
  // ---------------------------------------------------------------------------

  /** Sorting and reversing only reorder the leaves. */
  lemma OrderedEntriesPermute(root: RouteNode, contextKey: string -> string, sortRoutes: (FlatEntry, FlatEntry) -> int)
    ensures multiset(OrderedEntries(root, contextKey, sortRoutes)) == multiset(FlatNodes(root, None, contextKey))
  {
    var sorted := InsertionSort(FlatNodes(root, None, contextKey), Swapped(sortRoutes));
    SortPermutes(FlatNodes(root, None, contextKey), Swapped(sortRoutes));
    ReversedPermutes(sorted);
  }

  lemma {:induction false} ReversedPermutes<T>(s: seq<T>)
    ensures multiset(Reversed(s)) == multiset(s)
  {
    if s != [] {
      ReversedPermutes(s[1..]);
      assert s == [s[0]] + s[1..];
    }
  }

  /**
   * The manifest is built exactly when no deduplicated page entry has an
   * empty `dynamic` array. Then the API and page lists keep one entry per key
   * and lose no key; each list holds the entries of its type, mode and
   * not-found flag, and every kept page entry lands in the list of its flag
   * and mode.
   */
  lemma PartitionProperties(flat: seq<FlatEntry>)
    ensures PartitionEntries(flat).Err? <==> exists e :: e in PageEntries(flat) && e.node.dynamic == Some([])
    ensures PartitionEntries(flat).Ok? ==>
              var p := PartitionEntries(flat).value;
              && Unique.DistinctKeys(p.api, EntryKey)
              && Unique.DistinctKeys(PageEntries(flat), EntryKey)
              && Unique.DistinctKeys(p.ssg, EntryKey)
              && Unique.DistinctKeys(p.spa, EntryKey)
              && Unique.DistinctKeys(p.notFound, EntryKey)
              && Unique.KeysOf(p.api, EntryKey) == Unique.KeysOf(Filter(flat, IsApiEntry), EntryKey)
              && Unique.KeysOf(PageEntries(flat), EntryKey) == Unique.KeysOf(Filter(flat, IsPageEntry), EntryKey)
              && (forall e :: e in p.api ==> e in flat && IsApiEntry(e))
              && (forall e :: e in p.ssg ==> e in flat && IsPageEntry(e) && IsSsgEntry(e) && IsNotFoundRoute(e.node) == Ok(false))
              && (forall e :: e in p.spa ==> e in flat && IsPageEntry(e) && IsSpaEntry(e) && IsNotFoundRoute(e.node) == Ok(false))
              && (forall e :: e in p.notFound ==> e in flat && IsPageEntry(e) && IsNotFoundRoute(e.node) == Ok(true))
              && (forall e :: e in PageEntries(flat) ==> e in p.notFound || IsNotFoundRoute(e.node) == Ok(false))
              && (forall e :: e in PageEntries(flat) && IsNotFoundRoute(e.node) == Ok(false) ==>
                    (IsSsgEntry(e) ==> e in p.ssg) && (IsSpaEntry(e) ==> e in p.spa))
  {
    PartitionKeys(flat);
    PartitionClasses(flat);
  }

  /** Every list keeps one entry per key; the API and page lists lose no key. */
  lemma PartitionKeys(flat: seq<FlatEntry>)
    ensures PartitionEntries(flat).Ok? ==>
              var p := PartitionEntries(flat).value;
              && Unique.DistinctKeys(p.api, EntryKey)
              && Unique.DistinctKeys(PageEntries(flat), EntryKey)
              && Unique.DistinctKeys(p.ssg, EntryKey)
              && Unique.DistinctKeys(p.spa, EntryKey)
              && Unique.DistinctKeys(p.notFound, EntryKey)
              && Unique.KeysOf(p.api, EntryKey) == Unique.KeysOf(Filter(flat, IsApiEntry), EntryKey)
              && Unique.KeysOf(PageEntries(flat), EntryKey) == Unique.KeysOf(Filter(flat, IsPageEntry), EntryKey)
  {
    Unique.UniqueByProperties(Filter(flat, IsApiEntry), EntryKey);
    Unique.UniqueByProperties(Filter(flat, IsPageEntry), EntryKey);
    var other := PageEntries(flat);
    if PartitionEntries(flat).Ok? {
      var standard := StandardRoutes(other).value;
      StandardSubsequence(other);
      Unique.SubsequenceDistinct(standard, other, EntryKey);
      FilterSubsequence(standard, IsSsgEntry);
      Unique.SubsequenceDistinct(Filter(standard, IsSsgEntry), standard, EntryKey);
      FilterSubsequence(standard, IsSpaEntry);
      Unique.SubsequenceDistinct(Filter(standard, IsSpaEntry), standard, EntryKey);
      NotFoundSubsequence(other);
      Unique.SubsequenceDistinct(NotFoundRoutes(other), other, EntryKey);
    }
  }

  /** Where each entry goes, and when partitioning fails. */
  lemma PartitionClasses(flat: seq<FlatEntry>)
    ensures PartitionEntries(flat).Err? <==> exists e :: e in PageEntries(flat) && e.node.dynamic == Some([])
    ensures PartitionEntries(flat).Ok? ==>
              var p := PartitionEntries(flat).value;
              && (forall e :: e in p.api ==> e in flat && IsApiEntry(e))
              && (forall e :: e in p.ssg ==> e in flat && IsPageEntry(e) && IsSsgEntry(e) && IsNotFoundRoute(e.node) == Ok(false))
              && (forall e :: e in p.spa ==> e in flat && IsPageEntry(e) && IsSpaEntry(e) && IsNotFoundRoute(e.node) == Ok(false))
              && (forall e :: e in p.notFound ==> e in flat && IsPageEntry(e) && IsNotFoundRoute(e.node) == Ok(true))
              && (forall e :: e in PageEntries(flat) ==> e in p.notFound || IsNotFoundRoute(e.node) == Ok(false))
              && (forall e :: e in PageEntries(flat) && IsNotFoundRoute(e.node) == Ok(false) ==>
                    (IsSsgEntry(e) ==> e in p.ssg) && (IsSpaEntry(e) ==> e in p.spa))
  {
    UniqueFromMembers(Filter(flat, IsApiEntry));
    UniqueFromMembers(Filter(flat, IsPageEntry));
  }

  lemma UniqueFromMembers(s: seq<FlatEntry>)
    ensures forall e :: e in Unique.UniqueFrom(s, EntryKey, {}) ==> e in s
  {
    Unique.UniqueByProperties(s, EntryKey);
    Unique.SubsequenceMembers(Unique.UniqueFrom(s, EntryKey, {}), s);
  }

  /** `filter` keeps items in their order. */
  lemma {:induction false} FilterSubsequence<T>(s: seq<T>, keep: T -> bool)
    ensures Unique.Subsequence(Filter(s, keep), s)
  {
    if s != [] {
      FilterSubsequence(s[1..], keep);
      if !keep(s[0]) {
        assert Filter(s, keep) == [] + Filter(s[1..], keep) == Filter(s[1..], keep);
        Unique.SubsequenceSkip(Filter(s[1..], keep), s);
      } else {
        assert ([s[0]] + Filter(s[1..], keep))[1..] == Filter(s[1..], keep);
      }
    }
  }

  lemma {:induction false} StandardSubsequence(s: seq<FlatEntry>)
    ensures StandardRoutes(s).Ok? ==> Unique.Subsequence(StandardRoutes(s).value, s)
  {
    if s != [] && StandardRoutes(s).Ok? {
      StandardSubsequence(s[1..]);
      var rest := StandardRoutes(s[1..]).value;
      if IsNotFoundRoute(s[0].node).value {
        assert StandardRoutes(s).value == [] + rest == rest;
        Unique.SubsequenceSkip(rest, s);
      } else {
        assert ([s[0]] + rest)[1..] == rest;
      }
    }
  }

  lemma {:induction false} NotFoundSubsequence(s: seq<FlatEntry>)
    requires forall e :: e in s ==> IsNotFoundRoute(e.node).Ok?
    ensures Unique.Subsequence(NotFoundRoutes(s), s)
  {
    if s != [] {
      NotFoundSubsequence(s[1..]);
      var rest := NotFoundRoutes(s[1..]);
      if !IsNotFoundRoute(s[0].node).value {
        assert NotFoundRoutes(s) == [] + rest == rest;
        Unique.SubsequenceSkip(rest, s);
      } else {
        assert ([s[0]] + rest)[1..] == rest;
      }
    }
  }

  /** A compiled route pattern: anchored, ending in the optional trailing slash, with a `routeKeys` table whose keys are distinct and well formed. */
  predicate WellFormedRoutes(routes: seq<ManifestRoute>)
  {
    forall i :: 0 <= i < |routes| ==>
      && StartsWith(routes[i].namedRegex, "^") && EndsWith(routes[i].namedRegex, PatternSuffix)
      && DistinctKeys(routes[i].routeKeys) && WellFormedKeys(routes[i].routeKeys)
  }

  lemma RoutesWellFormed(s: seq<FlatEntry>, contextKey: string -> string, groupName: string -> string)
    ensures WellFormedRoutes(MatchableRoutes(s, contextKey, groupName))
  {
    forall i | 0 <= i < |s| {
      CompiledPatternShape(s[i].key, groupName);
    }
  }

  /**
   * Every route of the manifest carries a well-formed pattern, and there is
   * one API route per distinct key of the API leaves.
   */
  lemma ManifestShape(root: RouteNode, contextKey: string -> string, groupName: string -> string,
                      sortRoutes: (FlatEntry, FlatEntry) -> int)
    ensures var m := ServerManifestOf(root, contextKey, groupName, sortRoutes);
            m.Ok? ==>
              && WellFormedRoutes(m.value.apiRoutes) && WellFormedRoutes(m.value.spaRoutes)
              && WellFormedRoutes(m.value.ssgRoutes) && WellFormedRoutes(m.value.notFoundRoutes)
              && |m.value.apiRoutes| == |Unique.KeysOf(Filter(OrderedEntries(root, contextKey, sortRoutes), IsApiEntry), EntryKey)|
  {
    var flat := OrderedEntries(root, contextKey, sortRoutes);
    if PartitionEntries(flat).Ok? {
      var p := PartitionEntries(flat).value;
      Unique.UniqueByProperties(Filter(flat, IsApiEntry), EntryKey);
      Unique.DistinctKeysCount(p.api, EntryKey);
      RoutesWellFormed(p.api, contextKey, groupName);
      RoutesWellFormed(p.spa, contextKey, groupName);
      RoutesWellFormed(p.ssg, contextKey, groupName);
      RoutesWellFormed(p.notFound, contextKey, groupName);
    }
  }
}
