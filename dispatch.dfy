/**
 * `createHandleRequest` / `handleRequest` of `handleRequest.ts`: the request
 * dispatcher over a server manifest. A request is ignored, answered from an
 * in-flight request, handed to the first matching API route, refused by the
 * method and path guards, answered by a route loader, or rendered by the
 * first matching ssg/spa route, in that order.
 *
 * The regular-expression engine is a parameter (`Exec`): `exec(pattern, path)`
 * is `new RegExp(pattern).exec(path)`, with the named groups of a match. The
 * handlers are parameters too, each giving the settled value of its promise.
 */
module Dispatch {
  import opened Wrappers
  import opened JsStrings
  import opened Records
  import opened Manifest

  /** The named groups of a match, in group order; `None` for a group that did not take part. */
  type Groups = Record<Option<string>>

  /** `new RegExp(pattern).exec(path)`: `None` when there is no match. */
  type Exec = (string, string) -> Option<Groups>

  /** The parts of a request the dispatcher reads: its method and its URL's pathname and search. */
  datatype Request = Request(httpMethod: string, pathname: string, search: string)

  /** An ssg or spa route with its rendering mode. */
  datatype TypedRoute = TypedRoute(route: ManifestRoute, routeType: string)

  datatype LoaderProps = LoaderProps(path: string, params: Record<Option<string>>)

  /** What a handler is given: the request, the route (with its mode unless it is an API route) and `loaderProps`. */
  datatype HandlerProps = HandlerProps(request: Request, route: ManifestRoute, routeType: Option<string>, loaderProps: LoaderProps)

  /** How a handler's promise settles. */
  datatype Settled = Resolved(value: string) | Rejected(error: string)

  datatype Handlers = Handlers(
    handleSSR: Option<HandlerProps -> Settled>,
    handleLoader: Option<HandlerProps -> Settled>,
    handleAPI: Option<HandlerProps -> Settled>)

  /** What `handleRequest` resolves to, or throws. */
  datatype Outcome =
    | Null
    | Value(value: string)         // a handler's value, returned as it is
    | AwaitInFlight(promise: nat)  // `await activeRequests[pathname]`
    | LoaderScript(body: string)   // a `text/javascript` response around the loader's value
    | ErrorResponse                // `Response.error()`
    | Thrown(error: string)

  /** The state of a promise stored in `activeRequests`. */
  datatype PromiseState = Pending | Fulfilled(value: string) | RejectedWith(error: string)

  /** What `createHandleRequest` fixes once: the options, the handlers, and the route tables built from the manifest. */
  datatype Setup = Setup(
    production: bool,
    shouldIgnore: Option<Request -> bool>,
    handlers: Handlers,
    exec: Exec,
    apiRoutesMap: Record<ManifestRoute>,
    routesWithRegex: seq<TypedRoute>)

  const LoaderSuffix: string := "_vxrn_loader.js"
  const HmrPath: string := "/__vxrnhmr"

  // ---------------------------------------------------------------------------
  // Route tables
  // ---------------------------------------------------------------------------

  /**
   * `apiRoutes.reduce((acc, cur) => { acc[cur.page] = cur; ... }, {})`, from route `i` on.
   * A page `__proto__` replaces the table's prototype instead of adding an entry.
   */
  function ApiRoutesFrom(routes: seq<ManifestRoute>, i: nat, acc: Record<ManifestRoute>): Record<ManifestRoute>
    requires i <= |routes|
    decreases |routes| - i
  {
    if i == |routes| then acc else ApiRoutesFrom(routes, i + 1, Assign(acc, routes[i].page, routes[i]))
  }

  function ApiRoutesMap(routes: seq<ManifestRoute>): Record<ManifestRoute>
  {
    ApiRoutesFrom(routes, 0, [])
  }

  /** The reduce of `createHandleRequest`, its accumulator updated in place. */
  method BuildApiRoutesMap(apiRoutes: seq<ManifestRoute>) returns (acc: Record<ManifestRoute>)
    ensures acc == ApiRoutesMap(apiRoutes)
  {
    acc := [];
    for i := 0 to |apiRoutes|
      invariant ApiRoutesFrom(apiRoutes, i, acc) == ApiRoutesMap(apiRoutes)
    {
      var cur := apiRoutes[i];
      acc := Assign(acc, cur.page, cur);
    }
  }

  /** Route `i` is the last one with its page. */
  predicate LastOfPage(routes: seq<ManifestRoute>, i: nat)
    requires i < |routes|
  {
    forall j :: i < j < |routes| ==> routes[j].page != routes[i].page
  }

  /**
   * One entry per page other than `__proto__`, which gets none; for each page
   * the table holds the last route with that page, the later overwriting the
   * earlier.
   */
  lemma ApiRoutesMapLastWins(routes: seq<ManifestRoute>)
    ensures var m := ApiRoutesMap(routes);
            && DistinctKeys(m)
            && ProtoName !in Keys(m)
            && (forall i :: 0 <= i < |routes| && routes[i].page != ProtoName ==> routes[i].page in Keys(m))
            && (forall i :: 0 <= i < |routes| && routes[i].page != ProtoName && LastOfPage(routes, i) ==>
                  Get(m, routes[i].page) == Some(routes[i]))
  {
    ApiRoutesFromLastWins(routes, 0, []);
  }

  lemma {:induction false} ApiRoutesFromLastWins(routes: seq<ManifestRoute>, i: nat, acc: Record<ManifestRoute>)
    requires i <= |routes| && DistinctKeys(acc) && ProtoName !in Keys(acc)
    ensures var m := ApiRoutesFrom(routes, i, acc);
            && DistinctKeys(m)
            && ProtoName !in Keys(m)
            && Keys(acc) <= Keys(m)
            && (forall k :: i <= k < |routes| && routes[k].page != ProtoName ==> routes[k].page in Keys(m))
            && (forall k :: i <= k < |routes| && routes[k].page != ProtoName && LastOfPage(routes, k) ==>
                  Get(m, routes[k].page) == Some(routes[k]))
    decreases |routes| - i
  {
    if i < |routes| {
      var acc' := Assign(acc, routes[i].page, routes[i]);
      ApiRoutesFromLastWins(routes, i + 1, acc');
      var m := ApiRoutesFrom(routes, i, acc);
      if LastOfPage(routes, i) && routes[i].page != ProtoName {
        AssignGet(acc, routes[i].page, routes[i], routes[i].page);
        PageUntouched(routes, i + 1, acc', routes[i].page);
      }
    }
  }

  /** A page no later route has keeps the entry it had. */
  lemma {:induction false} PageUntouched(routes: seq<ManifestRoute>, i: nat, acc: Record<ManifestRoute>, page: string)
    requires i <= |routes|
    requires forall j :: i <= j < |routes| ==> routes[j].page != page
    ensures Get(ApiRoutesFrom(routes, i, acc), page) == Get(acc, page)
    decreases |routes| - i
  {
    if i < |routes| {
      var acc' := Assign(acc, routes[i].page, routes[i]);
      AssignGet(acc, routes[i].page, routes[i], page);
      assert ApiRoutesFrom(routes, i, acc) == ApiRoutesFrom(routes, i + 1, acc');
      PageUntouched(routes, i + 1, acc', page);
    }
  }

  /** `Object.values(record)`. */
  function ValueSeq<V>(r: Record<V>): (vs: seq<V>)
    ensures |vs| == |r|
    ensures forall i :: 0 <= i < |r| ==> vs[i] == r[i].1
  {
    if r == [] then [] else [r[0].1] + ValueSeq(r[1..])
  }

  /** `routes.map((route) => ({ ...route, routeType }))`. */
  function WithType(routes: seq<ManifestRoute>, routeType: string): (r: seq<TypedRoute>)
    ensures |r| == |routes|
    ensures forall i :: 0 <= i < |routes| ==> r[i] == TypedRoute(routes[i], routeType)
  {
    if routes == [] then [] else [TypedRoute(routes[0], routeType)] + WithType(routes[1..], routeType)
  }

  /** The setup `createHandleRequest` builds: API routes keyed by page, then ssg routes before spa routes. */
  function SetupOf(manifest: ServerManifest, production: bool, shouldIgnore: Option<Request -> bool>,
                   handlers: Handlers, exec: Exec): Setup
  {
    Setup(production, shouldIgnore, handlers, exec, ApiRoutesMap(manifest.apiRoutes),
          WithType(manifest.ssgRoutes, "ssg") + WithType(manifest.spaRoutes, "spa"))
  }

  // ---------------------------------------------------------------------------
  // Matching
  // ---------------------------------------------------------------------------

  function ApiPattern(r: ManifestRoute): string { r.namedRegex }
  function TypedPattern(r: TypedRoute): string { r.route.namedRegex }

  /** The index of the first route from `from` on whose pattern matches `path`. */
  function FirstMatch<T>(routes: seq<T>, pattern: T -> string, path: string, exec: Exec, from: nat): (r: Option<nat>)
    requires from <= |routes|
    ensures r.Some? ==> from <= r.value < |routes| && exec(pattern(routes[r.value]), path).Some?
    ensures forall j :: from <= j < (if r.Some? then r.value else |routes|) ==> exec(pattern(routes[j]), path).None?
    decreases |routes| - from
  {
    if from == |routes| then None
    else if exec(pattern(routes[from]), path).Some? then Some(from)
    else FirstMatch(routes, pattern, path, exec, from + 1)
  }

  /** `routes.find(...)`, or a `for ... of` loop that skips the routes that do not match. */
  method FindFirst<T>(routes: seq<T>, pattern: T -> string, path: string, exec: Exec) returns (r: Option<nat>)
    ensures r == FirstMatch(routes, pattern, path, exec, 0)
  {
    for i := 0 to |routes|
      invariant FirstMatch(routes, pattern, path, exec, 0) == FirstMatch(routes, pattern, path, exec, i)
    {
      if exec(pattern(routes[i]), path).None? {
        continue;
      }
      return Some(i);
    }
    return None;
  }

  // ---------------------------------------------------------------------------
  // Parameters
  // ---------------------------------------------------------------------------

  /** `config.routeKeys[key]` as a property name: an absent key reads as "undefined". */
  function NamedKey(routeKeys: Record<string>, key: string): string
  {
    match Get(routeKeys, key)
    case Some(name) => name
    case None => "undefined"
  }

  /** The loop of `getLoaderParams` over `Object.entries(match.groups)` from entry `i` on. */
  function LoaderParamsFrom(groups: Groups, routeKeys: Record<string>, i: nat, params: Record<Option<string>>): Record<Option<string>>
    requires i <= |groups|
    decreases |groups| - i
  {
    if i == |groups| then params
    else LoaderParamsFrom(groups, routeKeys, i + 1, Assign(params, NamedKey(routeKeys, groups[i].0), groups[i].1))
  }

  /**
   * `getLoaderParams(url, route)`: every captured group under the name
   * `routeKeys` gives it, except that `params.__proto__ = value` stores
   * nothing (a string or `undefined` is not an object).
   */
  function LoaderParams(path: string, route: ManifestRoute, exec: Exec): Record<Option<string>>
  {
    match exec(route.namedRegex, path)
    case None => []
    case Some(groups) => LoaderParamsFrom(groups, route.routeKeys, 0, [])
  }

  method GetLoaderParams(path: string, route: ManifestRoute, exec: Exec) returns (params: Record<Option<string>>)
    ensures params == LoaderParams(path, route, exec)
  {
    params := [];
    var m := exec(route.namedRegex, path);
    if m.Some? {
      var groups := m.value;
      for i := 0 to |groups|
        invariant LoaderParamsFrom(groups, route.routeKeys, i, params) == LoaderParamsFrom(groups, route.routeKeys, 0, [])
      {
        var (key, value) := groups[i];
        var namedKey := NamedKey(route.routeKeys, key);
        params := Assign(params, namedKey, value);
      }
    }
  }

  /** `match.groups?.[key]`: `None` for a group that is absent or did not take part. */
  function Capture(groups: Groups, key: string): Option<string>
  {
    match Get(groups, key)
    case Some(v) => v
    case None => None
  }

  /**
   * `Object.fromEntries(Object.entries(routeKeys).map(([key, value]) => [value, groups?.[key]]))`
   * from entry `i` on. `fromEntries` defines own properties, so `__proto__` is stored like any name.
   */
  function RemapFrom(routeKeys: Record<string>, groups: Groups, i: nat, params: Record<Option<string>>): Record<Option<string>>
    requires i <= |routeKeys|
    decreases |routeKeys| - i
  {
    if i == |routeKeys| then params
    else RemapFrom(routeKeys, groups, i + 1, Put(params, routeKeys[i].1, Capture(groups, routeKeys[i].0)))
  }

  /** `getRouteParams(pathname, route)`: `{}` without a match, else every original name with its capture. */
  function RouteParams(path: string, route: ManifestRoute, exec: Exec): (params: Record<Option<string>>)
    ensures exec(route.namedRegex, path).None? ==> params == []
  {
    match exec(route.namedRegex, path)
    case None => []
    case Some(groups) => RemapFrom(route.routeKeys, groups, 0, [])
  }

  /** The group names of a record, in order. */
  function KeySeq<V>(r: Record<V>): (ks: seq<string>)
    ensures |ks| == |r|
    ensures forall i :: 0 <= i < |r| ==> ks[i] == r[i].0
  {
    if r == [] then [] else [r[0].0] + KeySeq(r[1..])
  }

  /**
   * On a match whose groups are exactly the route's keys, in order (as for a
   * pattern compiled from that route), both extractions give each original
   * name with its capture, except that `getLoaderParams` drops the name
   * `__proto__`; without that name they give the same parameters.
   */
  lemma ExtractionsAgree(path: string, route: ManifestRoute, exec: Exec)
    requires exec(route.namedRegex, path).Some?
    requires KeySeq(exec(route.namedRegex, path).value) == KeySeq(route.routeKeys)
    requires DistinctKeys(route.routeKeys)
    ensures LoaderParams(path, route, exec) == Delete(RouteParams(path, route, exec), ProtoName)
    ensures ProtoName !in Values(route.routeKeys) ==> LoaderParams(path, route, exec) == RouteParams(path, route, exec)
  {
    var groups := exec(route.namedRegex, path).value;
    DistinctKeysFromKeySeq(groups, route.routeKeys);
    assert Delete<Option<string>>([], ProtoName) == [];
    ExtractionsAgreeFrom(groups, route.routeKeys, 0, []);
    if ProtoName !in Values(route.routeKeys) {
      RemapKeys(route.routeKeys, groups, 0, []);
      DeleteAbsent(RouteParams(path, route, exec), ProtoName);
    }
  }

  /** The route `/[__proto__]`: its one group, keyed `a`, is dropped by `getLoaderParams` and kept by `getRouteParams`. */
  lemma ProtoCaptureDropped(path: string, route: ManifestRoute, exec: Exec)
    requires route.routeKeys == [("a", ProtoName)]
    requires exec(route.namedRegex, path) == Some([("a", Some("x"))])
    ensures LoaderParams(path, route, exec) == []
    ensures RouteParams(path, route, exec) == [(ProtoName, Some("x"))]
  {
    assert NamedKey(route.routeKeys, "a") == ProtoName;
    var groups := [("a", Some("x"))];
    assert Capture(groups, "a") == Some("x");
    assert RemapFrom(route.routeKeys, groups, 0, []) == RemapFrom(route.routeKeys, groups, 1, [(ProtoName, Some("x"))]);
  }

  lemma {:induction false} ExtractionsAgreeFrom(groups: Groups, routeKeys: Record<string>, i: nat, params: Record<Option<string>>)
    requires KeySeq(groups) == KeySeq(routeKeys) && DistinctKeys(routeKeys) && DistinctKeys(groups)
    requires i <= |groups|
    ensures LoaderParamsFrom(groups, routeKeys, i, Delete(params, ProtoName)) == Delete(RemapFrom(routeKeys, groups, i, params), ProtoName)
    decreases |groups| - i
  {
    if i < |groups| {
      var name := routeKeys[i].1;
      var params' := Put(params, name, groups[i].1);
      EntryAgrees(groups, routeKeys, i);
      if name == ProtoName {
        DeletePutSame(params, name, groups[i].1);
      } else {
        DeletePutOther(params, name, groups[i].1, ProtoName);
      }
      assert LoaderParamsFrom(groups, routeKeys, i, Delete(params, ProtoName))
          == LoaderParamsFrom(groups, routeKeys, i + 1, Delete(params', ProtoName));
      assert RemapFrom(routeKeys, groups, i, params) == RemapFrom(routeKeys, groups, i + 1, params');
      ExtractionsAgreeFrom(groups, routeKeys, i + 1, params');
    }
  }

  /** `getRouteParams` stores only original names. */
  lemma {:induction false} RemapKeys(routeKeys: Record<string>, groups: Groups, i: nat, params: Record<Option<string>>)
    requires i <= |routeKeys|
    ensures Keys(RemapFrom(routeKeys, groups, i, params)) <= Keys(params) + Values(routeKeys)
    decreases |routeKeys| - i
  {
    if i < |routeKeys| {
      ValuesHas(routeKeys, i);
      RemapKeys(routeKeys, groups, i + 1, Put(params, routeKeys[i].1, Capture(groups, routeKeys[i].0)));
    }
  }

  /** Entry `i` is stored under the same name, with the same value, by both extractions. */
  lemma EntryAgrees(groups: Groups, routeKeys: Record<string>, i: nat)
    requires KeySeq(groups) == KeySeq(routeKeys) && DistinctKeys(routeKeys) && DistinctKeys(groups)
    requires i < |groups|
    ensures NamedKey(routeKeys, groups[i].0) == routeKeys[i].1
    ensures Capture(groups, routeKeys[i].0) == groups[i].1
  {
    assert groups[i].0 == routeKeys[i].0 by {
      assert KeySeq(groups)[i] == KeySeq(routeKeys)[i];
    }
    GetAt(routeKeys, i);
    GetAt(groups, i);
  }

  /** Records with the same key sequence are both free of repeated keys, or neither is. */
  lemma {:induction false} DistinctKeysFromKeySeq<U, V>(a: Record<U>, b: Record<V>)
    requires KeySeq(a) == KeySeq(b) && DistinctKeys(b)
    ensures DistinctKeys(a)
  {
    if a != [] {
      assert KeySeq(a[1..]) == KeySeq(a)[1..] && KeySeq(b[1..]) == KeySeq(b)[1..];
      DistinctKeysFromKeySeq(a[1..], b[1..]);
      SameKeys(a[1..], b[1..]);
    }
  }

  lemma {:induction false} SameKeys<U, V>(a: Record<U>, b: Record<V>)
    requires KeySeq(a) == KeySeq(b)
    ensures Keys(a) == Keys(b)
  {
    if a != [] {
      assert KeySeq(a[1..]) == KeySeq(a)[1..] && KeySeq(b[1..]) == KeySeq(b)[1..];
      SameKeys(a[1..], b[1..]);
    }
  }

  /** The names `getLoaderParams` writes to, one per group. */
  function StoredNames(groups: Groups, routeKeys: Record<string>): set<string>
  {
    set j | 0 <= j < |groups| :: NamedKey(routeKeys, groups[j].0)
  }

  /**
   * When each group name maps to a different original name, every captured
   * group is found under its original name, except a `__proto__` name, which
   * stores nothing; no other name is stored, and none twice.
   */
  lemma LoaderParamsByName(groups: Groups, routeKeys: Record<string>)
    requires DistinctKeys(groups)
    requires DistinctNames(groups, routeKeys)
    ensures var params := LoaderParamsFrom(groups, routeKeys, 0, []);
            && DistinctKeys(params)
            && Keys(params) == StoredNames(groups, routeKeys) - {ProtoName}
            && forall i :: 0 <= i < |groups| && NamedKey(routeKeys, groups[i].0) != ProtoName ==>
                 Get(params, NamedKey(routeKeys, groups[i].0)) == Some(groups[i].1)
  {
    var params := LoaderParamsFrom(groups, routeKeys, 0, []);
    LoaderParamsKeys(groups, routeKeys, 0, []);
    LoaderParamsFound(groups, routeKeys, 0, []);
    forall k | k in StoredNames(groups, routeKeys) - {ProtoName} ensures k in Keys(params) {
      var j :| 0 <= j < |groups| && NamedKey(routeKeys, groups[j].0) == k;
    }
  }

  /** No two groups are stored under the same name. */
  predicate DistinctNames(groups: Groups, routeKeys: Record<string>)
  {
    forall i, j :: 0 <= i < j < |groups| ==> NamedKey(routeKeys, groups[i].0) != NamedKey(routeKeys, groups[j].0)
  }

  /** The groups from `i` on are stored under names `params` does not have yet. */
  predicate FreshNames(groups: Groups, routeKeys: Record<string>, i: nat, params: Record<Option<string>>)
  {
    forall j :: i <= j < |groups| ==> NamedKey(routeKeys, groups[j].0) !in Keys(params)
  }

  lemma FreshAfterAssign(groups: Groups, routeKeys: Record<string>, i: nat, params: Record<Option<string>>)
    requires i < |groups| && DistinctNames(groups, routeKeys) && FreshNames(groups, routeKeys, i, params)
    ensures FreshNames(groups, routeKeys, i + 1, Assign(params, NamedKey(routeKeys, groups[i].0), groups[i].1))
  {
  }

  /** The stored names are the names of the groups, never `__proto__`, each once. */
  lemma {:induction false} LoaderParamsKeys(groups: Groups, routeKeys: Record<string>, i: nat, params: Record<Option<string>>)
    requires i <= |groups| && DistinctKeys(params) && ProtoName !in Keys(params)
    ensures var r := LoaderParamsFrom(groups, routeKeys, i, params);
            && DistinctKeys(r)
            && ProtoName !in Keys(r)
            && forall k :: k in Keys(r) ==> k in Keys(params) || exists j :: i <= j < |groups| && NamedKey(routeKeys, groups[j].0) == k
    decreases |groups| - i
  {
    if i < |groups| {
      var params' := Assign(params, NamedKey(routeKeys, groups[i].0), groups[i].1);
      LoaderParamsKeys(groups, routeKeys, i + 1, params');
    }
  }

  /** The entries already present are left as they are. */
  lemma {:induction false} LoaderParamsKeep(groups: Groups, routeKeys: Record<string>, i: nat, params: Record<Option<string>>, k: string)
    requires i <= |groups| && DistinctNames(groups, routeKeys) && FreshNames(groups, routeKeys, i, params)
    requires k in Keys(params)
    ensures Get(LoaderParamsFrom(groups, routeKeys, i, params), k) == Get(params, k)
    decreases |groups| - i
  {
    if i < |groups| {
      var params' := Assign(params, NamedKey(routeKeys, groups[i].0), groups[i].1);
      FreshAfterAssign(groups, routeKeys, i, params);
      AssignGet(params, NamedKey(routeKeys, groups[i].0), groups[i].1, k);
      LoaderParamsKeep(groups, routeKeys, i + 1, params', k);
    }
  }

  /** Every remaining group not named `__proto__` is found under its name. */
  lemma {:induction false} LoaderParamsFound(groups: Groups, routeKeys: Record<string>, i: nat, params: Record<Option<string>>)
    requires i <= |groups| && DistinctNames(groups, routeKeys) && FreshNames(groups, routeKeys, i, params)
    ensures var r := LoaderParamsFrom(groups, routeKeys, i, params);
            forall j :: i <= j < |groups| && NamedKey(routeKeys, groups[j].0) != ProtoName ==>
              Get(r, NamedKey(routeKeys, groups[j].0)) == Some(groups[j].1)
    decreases |groups| - i
  {
    if i < |groups| {
      var name := NamedKey(routeKeys, groups[i].0);
      var params' := Assign(params, name, groups[i].1);
      FreshAfterAssign(groups, routeKeys, i, params);
      LoaderParamsFound(groups, routeKeys, i + 1, params');
      if name != ProtoName {
        AssignGet(params, name, groups[i].1, name);
        LoaderParamsKeep(groups, routeKeys, i + 1, params', name);
      }
    }
  }

  // ---------------------------------------------------------------------------
  // The dispatch order
  // ---------------------------------------------------------------------------

  /** `shouldIgnore?.(request)`. */
  predicate Ignored(s: Setup, req: Request)
  {
    s.shouldIgnore.Some? && s.shouldIgnore.value(req)
  }

  /** The first API route, in table order, whose pattern matches the pathname (none without `handleAPI`). */
  function ApiMatch(s: Setup, req: Request): Option<nat>
  {
    if s.handlers.handleAPI.None? then None
    else FirstMatch(ValueSeq(s.apiRoutesMap), ApiPattern, req.pathname, s.exec, 0)
  }

  /** `request.method !== 'GET' || pathname === '/__vxrnhmr' || pathname.startsWith('/@')`. */
  predicate Refused(req: Request)
  {
    req.httpMethod != "GET" || req.pathname == HmrPath || StartsWith(req.pathname, "/@")
  }

  predicate IsLoaderRequest(s: Setup, req: Request)
  {
    s.handlers.handleLoader.Some? && EndsWith(req.pathname, LoaderSuffix)
  }

  /** The page a loader request is for: the first `_vxrn_loader.js` removed. */
  function LoaderPath(pathname: string): string
  {
    ReplaceFirst(pathname, LoaderSuffix, "")
  }

  function AsValue(r: Settled): Outcome
  {
    match r
    case Resolved(v) => Value(v)
    case Rejected(e) => Thrown(e)
  }

  function ApiOutcome(s: Setup, req: Request, i: nat): Outcome
    requires s.handlers.handleAPI.Some? && i < |s.apiRoutesMap|
  {
    var route := ValueSeq(s.apiRoutesMap)[i];
    AsValue(s.handlers.handleAPI.value(
      HandlerProps(req, route, None, LoaderProps(req.pathname, RouteParams(req.pathname, route, s.exec)))))
  }

  function LoaderOutcome(s: Setup, req: Request): Outcome
    requires s.handlers.handleLoader.Some?
  {
    var path := LoaderPath(req.pathname);
    match FirstMatch(s.routesWithRegex, TypedPattern, path, s.exec, 0)
    case None => ErrorResponse
    case Some(i) =>
      var route := s.routesWithRegex[i];
      match s.handlers.handleLoader.value(
              HandlerProps(req, route.route, Some(route.routeType), LoaderProps(path, LoaderParams(path, route.route, s.exec))))
      case Resolved(v) => LoaderScript(v)
      case Rejected(e) => Thrown(e)
  }

  function SsrOutcome(s: Setup, req: Request): Outcome
    requires s.handlers.handleSSR.Some?
  {
    match FirstMatch(s.routesWithRegex, TypedPattern, req.pathname, s.exec, 0)
    case None => Null
    case Some(i) =>
      var route := s.routesWithRegex[i];
      AsValue(s.handlers.handleSSR.value(
        HandlerProps(req, route.route, Some(route.routeType),
                     LoaderProps(req.pathname + req.search, LoaderParams(req.pathname, route.route, s.exec)))))
  }

  /** The request gets as far as server rendering. */
  predicate ReachesSsr(s: Setup, active: map<string, nat>, req: Request)
  {
    && !Ignored(s, req)
    && (s.production || req.pathname !in active)
    && ApiMatch(s, req).None?
    && !Refused(req)
    && !IsLoaderRequest(s, req)
    && s.handlers.handleSSR.Some?
  }

  /** What `handleRequest(request)` resolves to, or throws, given the in-flight table. */
  function Dispatch(s: Setup, active: map<string, nat>, req: Request): Outcome
  {
    if Ignored(s, req) then Null
    else if !s.production && req.pathname in active then AwaitInFlight(active[req.pathname])
    else if ApiMatch(s, req).Some? then ApiOutcome(s, req, ApiMatch(s, req).value)
    else if Refused(req) then Null
    else if IsLoaderRequest(s, req) then LoaderOutcome(s, req)
    else if s.handlers.handleSSR.Some? then SsrOutcome(s, req)
    else Null
  }

  /**
   * The order of the checks. An ignored request gets `null`. Outside
   * production, an in-flight pathname gets its stored promise before any
   * route is matched. An API match is answered by the API handler whatever
   * the method. A refused request that no API route matches gets `null`,
   * even when a loader or renderer would match it. A loader request that no
   * page route matches gets `Response.error()`. A request that gets as far as
   * rendering and matches no page route gets `null`.
   */
  lemma DispatchOrder(s: Setup, active: map<string, nat>, req: Request)
    ensures Ignored(s, req) ==> Dispatch(s, active, req) == Null
    ensures !Ignored(s, req) && !s.production && req.pathname in active ==>
              Dispatch(s, active, req) == AwaitInFlight(active[req.pathname])
    ensures !Ignored(s, req) && (s.production || req.pathname !in active) && ApiMatch(s, req).Some? ==>
              Dispatch(s, active, req).Value? || Dispatch(s, active, req).Thrown?
    ensures !Ignored(s, req) && (s.production || req.pathname !in active) && ApiMatch(s, req).None? && Refused(req) ==>
              Dispatch(s, active, req) == Null
    ensures !Ignored(s, req) && (s.production || req.pathname !in active) && ApiMatch(s, req).None? && !Refused(req)
            && IsLoaderRequest(s, req)
            && FirstMatch(s.routesWithRegex, TypedPattern, LoaderPath(req.pathname), s.exec, 0).None? ==>
              Dispatch(s, active, req) == ErrorResponse
    ensures ReachesSsr(s, active, req) && FirstMatch(s.routesWithRegex, TypedPattern, req.pathname, s.exec, 0).None? ==>
              Dispatch(s, active, req) == Null
    ensures !Ignored(s, req) && (s.production || req.pathname !in active) && ApiMatch(s, req).None? && !Refused(req)
            && !IsLoaderRequest(s, req) && s.handlers.handleSSR.None? ==>
              Dispatch(s, active, req) == Null
  {
  }

  /** How the promise stored for a server-rendered request settles. */
  function SettledAs(out: Outcome): PromiseState
  {
    match out
    case Value(v) => Fulfilled(v)
    case Thrown(e) => RejectedWith(e)
    case _ => Pending
  }

  // ---------------------------------------------------------------------------
  // The handler
  // ---------------------------------------------------------------------------

  /** Storing an entry and then deleting it leaves the map as deleting alone would. */
  lemma RemoveAfterUpdate<K, V>(m: map<K, V>, k: K, v: V)
    ensures m[k := v] - {k} == m - {k}
  {
  }

  class RequestHandler {
    const setup: Setup
    /** `activeRequests`: the promise of each pathname being rendered, by number. */
    var activeRequests: map<string, nat>
    /** The promises created so far and how they settled. */
    var promises: map<nat, PromiseState>
    var nextPromise: nat

    /** `createHandleRequest(options, handlers)` over a loaded manifest. */
    constructor (manifest: ServerManifest, production: bool, shouldIgnore: Option<Request -> bool>,
                 handlers: Handlers, exec: Exec)
      ensures setup == SetupOf(manifest, production, shouldIgnore, handlers, exec)
      ensures activeRequests == map[] && promises == map[] && nextPromise == 0
    {
      var apiRoutesMap := BuildApiRoutesMap(manifest.apiRoutes);
      var ssgRoutes := WithType(manifest.ssgRoutes, "ssg");
      var spaRoutes := WithType(manifest.spaRoutes, "spa");
      setup := Setup(production, shouldIgnore, handlers, exec, apiRoutesMap, ssgRoutes + spaRoutes);
      activeRequests := map[];
      promises := map[];
      nextPromise := 0;
    }

    /** The API branch: the matched route's handler is called with the route's parameters. */
    method ServeApi(req: Request, apiRoutes: seq<ManifestRoute>, i: nat) returns (out: Outcome)
      requires setup.handlers.handleAPI.Some? && apiRoutes == ValueSeq(setup.apiRoutesMap) && i < |apiRoutes|
      ensures out == ApiOutcome(setup, req, i)
    {
      var apiRoute := apiRoutes[i];
      var params := RouteParams(req.pathname, apiRoute, setup.exec);
      var r := setup.handlers.handleAPI.value(HandlerProps(req, apiRoute, None, LoaderProps(req.pathname, params)));
      return AsValue(r);
    }

    /** The loader branch: the page path is matched against ssg, then spa routes. */
    method ServeLoader(req: Request) returns (out: Outcome)
      requires setup.handlers.handleLoader.Some?
      ensures out == LoaderOutcome(setup, req)
    {
      var originalUrl := ReplaceFirst(req.pathname, LoaderSuffix, "");
      var found := FindFirst(setup.routesWithRegex, TypedPattern, originalUrl, setup.exec);
      if found.None? {
        return ErrorResponse;
      }
      var route := setup.routesWithRegex[found.value];
      var params := GetLoaderParams(originalUrl, route.route, setup.exec);
      var r := setup.handlers.handleLoader.value(
        HandlerProps(req, route.route, Some(route.routeType), LoaderProps(originalUrl, params)));
      if r.Rejected? {
        return Thrown(r.error);
      }
      return LoaderScript(r.value);
    }

    /** The scan of the server-rendering branch: the first matching route is rendered. */
    method RenderFirstMatch(req: Request) returns (out: Outcome)
      requires setup.handlers.handleSSR.Some?
      ensures out == SsrOutcome(setup, req)
    {
      var found := FindFirst(setup.routesWithRegex, TypedPattern, req.pathname, setup.exec);
      if found.None? {
        return Null;
      }
      var route := setup.routesWithRegex[found.value];
      var params := GetLoaderParams(req.pathname, route.route, setup.exec);
      var r := setup.handlers.handleSSR.value(
        HandlerProps(req, route.route, Some(route.routeType), LoaderProps(req.pathname + req.search, params)));
      return AsValue(r);
    }

    /**
     * The server-rendering branch: a new pending promise is stored under the
     * pathname while the routes are scanned, settled by the handler, and the
     * entry is removed on every exit (`finally`).
     */
    method RenderSsr(req: Request) returns (out: Outcome)
      requires setup.handlers.handleSSR.Some?
      modifies this
      ensures out == SsrOutcome(setup, req)
      ensures activeRequests == old(activeRequests) - {req.pathname}
      ensures nextPromise == old(nextPromise) + 1
      ensures promises == old(promises)[old(nextPromise) := SettledAs(out)]
    {
      var pathname := req.pathname;
      var promise := nextPromise;
      ghost var before := activeRequests;
      nextPromise := nextPromise + 1;
      promises := promises[promise := Pending];
      activeRequests := activeRequests[pathname := promise];

      out := RenderFirstMatch(req);
      if out.Value? {
        promises := promises[promise := Fulfilled(out.value)];   // resolve(ssrResponse)
      } else if out.Thrown? {
        promises := promises[promise := RejectedWith(out.error)];  // reject(err)
      }
      // finally
      activeRequests := activeRequests - {pathname};
      RemoveAfterUpdate(before, pathname, promise);
    }

    /**
     * `handleRequest(request)`. A request that reaches server rendering
     * stores a new promise under its pathname, settles it with the
     * handler's value or error, and removes the entry on every exit;
     * no other request changes the table.
     */
    method HandleRequest(req: Request) returns (out: Outcome)
      modifies this
      ensures out == Dispatch(setup, old(activeRequests), req)
      ensures ReachesSsr(setup, old(activeRequests), req) ==>
                && activeRequests == old(activeRequests) - {req.pathname}
                && nextPromise == old(nextPromise) + 1
                && promises == old(promises)[old(nextPromise) := SettledAs(out)]
      ensures !ReachesSsr(setup, old(activeRequests), req) ==>
                && activeRequests == old(activeRequests)
                && nextPromise == old(nextPromise)
                && promises == old(promises)
    {
      var s := setup;
      if s.shouldIgnore.Some? && s.shouldIgnore.value(req) {
        return Null;
      }
      var pathname := req.pathname;

      if !s.production {
        if pathname in activeRequests {
          return AwaitInFlight(activeRequests[pathname]);
        }
      }

      if s.handlers.handleAPI.Some? {
        var apiRoutes := ValueSeq(s.apiRoutesMap);
        var found := FindFirst(apiRoutes, ApiPattern, pathname, s.exec);
        if found.Some? {
          out := ServeApi(req, apiRoutes, found.value);
          return;
        }
      }

      if req.httpMethod != "GET" || pathname == HmrPath || StartsWith(pathname, "/@") {
        return Null;
      }

      if s.handlers.handleLoader.Some? {
        if EndsWith(pathname, LoaderSuffix) {
          out := ServeLoader(req);
          return;
        }
      }

      if s.handlers.handleSSR.Some? {
        out := RenderSsr(req);
        return;
      }

      return Null;
    }
  }
}
