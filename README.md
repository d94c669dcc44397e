# A verified model of the vxs file-system router core

This project models four parts of the vxs router:

- **The route compiler** of `packages/vxs/src/server/getServerManifest.ts`.
  - It flattens the route tree into leaf entries with their ancestor `layouts`.
  - It sorts the entries with the external `sortRoutes` comparator (arguments swapped) and reverses them in place.
  - It splits them into API and page routes, keeping the first entry of each key (`uniqueBy`).
  - It splits the page routes into ssg, spa and not-found routes.
  - It compiles every key into a named-regex string and its `routeKeys` table (`getNamedRegex`, with `parseParam`, `escapeStringRegexp`, `removeTrailingSlash` and the key generator of `buildGetSafeRouteKey`).
- **The request dispatcher** of `packages/vxs/src/handleRequest.ts`.
  - A `RequestHandler` class holds the `activeRequests` table.
  - `HandleRequest` follows the source's order of checks: ignore predicate, in-flight lookup, API match, method and path guards, loader requests, server rendering.
  - The two parameter extractions `getLoaderParams` and `getRouteParams` are modelled as well.
- **The href builder** of `packages/vxs/src/link/href.ts`.
  - `resolveHref` substitutes `[key]` / `[...key]` placeholders with encoded params, entry by entry.
  - The params that filled nothing become the query string.
- **The BigInt JSON replacer and reviver** of `packages/vxrn/src/utils/getReactNativeBundle.ts`.

Files and modules:

| file | module | contents |
|---|---|---|
| `wrappers.dfy` | `Wrappers` | `Option`, `Result` |
| `js_strings.dfy` | `JsStrings` | the JavaScript string operations the core uses: `indexOf`, first-occurrence `replace`, `split`, `join`, `trim`, `\W` deletion, decimal numerals |
| `records.dfy` | `Records` | a plain JavaScript object as an insertion-ordered list of properties (`r[k]`, `r[k] = v`, `delete r[k]`) |
| `uri_component.dfy` | `UriComponent` | `encodeURIComponent` (the unreserved characters of section 2.3 of RFC 3986 plus `! * ' ( )` are kept; every other character is UTF-8 percent-encoded) |
| `flatten.dfy` | `Flatten` | `getFlatNodes` |
| `unique.dfy` | `Unique` | `uniqueBy`, as a method with a `Set` and as a reference definition |
| `sorting.dfy` | `Sorting` | the in-place `sort` (an insertion sort, for any comparator) and `reverse` |
| `route_keys.dfy` | `RouteKeys` | `buildGetSafeRouteKey` as a class with the closure's two variables |
| `named_regex.dfy` | `NamedRegex` | `getNamedRegex` as a method and as a specification function, with its helpers |
| `fresh_keys.dfy` | `FreshKeys` | the corrected compiler of the findings below |
| `manifest.dfy` | `Manifest` | `getServerManifest`, `getMatchableManifestForPaths`, `getNamedRouteRegex`, `isNotFoundRoute` |
| `dispatch.dfy` | `Dispatch` | `createHandleRequest`, `handleRequest`, `getLoaderParams`, `getRouteParams` |
| `href.dfy` | `Href` | `resolveHref`, `createQualifiedPathname`, `encodeParam`, `createQueryParams` |
| `bigint_json.dfy` | `BigIntJson` | `bigIntReplacer`, `bigIntReviver` |

Functions defined in files that are not part of this model are parameters of the model. They are never given a meaning:

- `getContextKey` is a `string -> string`.
- `matchGroupName` is a `string -> string`.
- `sortRoutes` is a comparator.
- The regular-expression engine is `Exec`: `exec(pattern, path)` gives the named groups of a match, or `None`.
- Each handler is a function from its props to how its promise settles.

The compiler builds the exact pattern string; its meaning as a regular expression is not modelled.

Three points of the code's behaviour that a reader might not expect, all modelled as written:

- **Root pattern.** The root route `/` compiles to `^/(?:/)?$`. The empty segment left by the split becomes a literal fragment `/`, so the pattern is not `^(?:/)?$`.
- **Deduplication key.** Entries are deduplicated by the normalised route key (`([path]) => path`), not by `page`.
- **Fresh group names.** Two dynamic segments of one route are not guaranteed distinct group names (see "## Findings").

## Model

| member | source | states |
|---|---|---|
| Manifest.IsNotFoundRoute | packages/vxs/src/server/getServerManifest.ts:43-45 | true exactly when the last `dynamic` descriptor is flagged not-found; an empty `dynamic` array throws (reading `notFound` of `undefined`) |
| Manifest.StandardRoutes | packages/vxs/src/server/getServerManifest.ts:104 | fails exactly when some entry has an empty `dynamic`; otherwise keeps exactly the entries that are not not-found routes |
| Manifest.NotFoundRoutes | packages/vxs/src/server/getServerManifest.ts:107 | keeps exactly the entries that are not-found routes |
| Manifest.Filter | packages/vxs/src/server/getServerManifest.ts:95-107 | the result holds only members of the input that pass the predicate, and every member that passes |
| Flatten.StripIndex | packages/vxs/src/server/getServerManifest.ts:73 | removes a final `/index` when there is one, otherwise changes nothing |
| Flatten.OrSlash | packages/vxs/src/server/getServerManifest.ts:73 | never empty; a non-empty key is kept |
| Flatten.ParentSegments | packages/vxs/src/server/getServerManifest.ts:75-81 | at most one path per ancestor, and none of them `/` or a route group |
| Flatten.FlatNodesShape | packages/vxs/src/server/getServerManifest.ts:61-87 | the entries' nodes are exactly the leaves below the start node, in depth-first order (one entry per leaf); each entry is keyed by its `LeafKey` and its `layouts` extend the given ones by the leaf's ancestors, outermost first |
| Flatten.FlattenedFromRoot | packages/vxs/src/server/getServerManifest.ts:61-90 | from the root: the entries' nodes are the leaves in depth-first order, each keyed by its `LeafKey`; a childless root is its own entry without `layouts`; otherwise every entry's `layouts` starts at the root and descends to the leaf's parent |
| Flatten.ApiKeyIgnoresLayouts | packages/vxs/src/server/getServerManifest.ts:72-73 | an API route's key is its own normalised file key, whatever its ancestors |
| Flatten.GroupAncestorsAddNothing | packages/vxs/src/server/getServerManifest.ts:75-83 | ancestors that are `/` or groups add nothing to a page route's key |
| Flatten.ChildlessRootKey | packages/vxs/src/server/getServerManifest.ts:83 | a childless root page gets the key `"undefined"` followed by its path: the absent `layouts` array is stringified |
| Sorting.SortInPlace | packages/vxs/src/server/getServerManifest.ts:91 | the array afterwards holds the insertion sort of its old contents |
| Sorting.SortPermutes | packages/vxs/src/server/getServerManifest.ts:91 | sorting keeps the same multiset of entries |
| Sorting.SortSorts | packages/vxs/src/server/getServerManifest.ts:91 | with a total, transitive comparator the result is sorted |
| Sorting.ReverseInPlace | packages/vxs/src/server/getServerManifest.ts:92 | the array afterwards holds its old contents reversed |
| Sorting.Reversed | packages/vxs/src/server/getServerManifest.ts:92 | element `i` of the result is element `n - 1 - i` of the input |
| Sorting.ReversedTwice | packages/vxs/src/server/getServerManifest.ts:92 | reversing twice gives the input back |
| Manifest.OrderedEntriesPermute | packages/vxs/src/server/getServerManifest.ts:90-92 | sorting and reversing only reorder the flattened leaves |
| Unique.UniqueBy | packages/vxs/src/server/getServerManifest.ts:47-57 | the filter with its `seen` set computes the reference filter |
| Unique.UniqueIsFirstOccurrences | packages/vxs/src/server/getServerManifest.ts:47-57 | the filter equals the independent definition "keep an item when no earlier item has its key" |
| Unique.UniqueFromKeys | packages/vxs/src/server/getServerManifest.ts:47-57 | kept items have distinct keys; the kept keys are exactly the input's keys not yet seen |
| Unique.UniqueFromSubsequence | packages/vxs/src/server/getServerManifest.ts:47-57 | the kept items are a subsequence of the input, in order |
| Unique.UniqueByProperties | packages/vxs/src/server/getServerManifest.ts:47-57 | distinct keys, no key lost, input order kept, first occurrence of each key |
| Manifest.PartitionProperties | packages/vxs/src/server/getServerManifest.ts:94-107 | fails exactly when a kept page entry has an empty `dynamic`; otherwise every list (and the deduplicated page list) has distinct keys, the API and page lists lose no key, each list holds only entries of its type, mode and not-found flag, and every kept page entry is in not-found or, when not a not-found route, in ssg or spa according to its mode |
| Manifest.PartitionKeys | packages/vxs/src/server/getServerManifest.ts:94-107 | the API, page, ssg, spa and not-found lists each hold one entry per key; the API and page lists lose no key |
| Manifest.PartitionClasses | packages/vxs/src/server/getServerManifest.ts:99-107 | fails exactly when a kept page entry has an empty `dynamic`; each list holds only entries of its type, mode and not-found flag; every kept page entry is in not-found, or is a standard route and then in ssg when its mode is ssg and in spa when its mode is spa |
| Manifest.GetServerManifest | packages/vxs/src/server/getServerManifest.ts:60-123 | the in-place sort, reverse, filters and compilation compute the manifest function |
| Manifest.ManifestShape | packages/vxs/src/server/getServerManifest.ts:109-122 | every route of the four lists is anchored, ends in `(?:/)?$` and has a `routeKeys` table with distinct, well-formed keys; there is one API route per distinct API key |
| Manifest.MatchableManifestForPaths | packages/vxs/src/server/getServerManifest.ts:125-140 | one compiled route per entry, in order |
| Manifest.MatchableRouteFor | packages/vxs/src/server/getServerManifest.ts:128-139 | an entry's route is compiled from its normalised key, with `page` from `getContextKey`, and marked when generated |
| Manifest.MatchableRoutes | packages/vxs/src/server/getServerManifest.ts:125-140 | as many routes as entries, route `i` compiled from entry `i` |
| Manifest.MatchableRoutesAppend | packages/vxs/src/server/getServerManifest.ts:128 | the map works entry by entry |
| Manifest.RoutesWellFormed | packages/vxs/src/server/getServerManifest.ts:125-140 | every compiled route is anchored, ends in the optional trailing slash, and has a `routeKeys` table with distinct, well-formed keys |
| Manifest.GetNamedRouteRegex | packages/vxs/src/server/getServerManifest.ts:142-156 | one `getNamedRegex` call; file, page and layouts are copied |
| RouteKeys.SafeRouteKeyGenerator.constructor | packages/vxs/src/server/getServerManifest.ts:162-164 | the generator starts one before `a`, with length 1 |
| RouteKeys.SafeRouteKeyGenerator.Next | packages/vxs/src/server/getServerManifest.ts:166-191 | one call of the closure: the key and the new state are those of the step function |
| RouteKeys.KeyLoop | packages/vxs/src/server/getServerManifest.ts:171-182 | the loop prepends one lower-case letter per iteration and keeps the character code in range |
| RouteKeys.NextKeyShape | packages/vxs/src/server/getServerManifest.ts:166-191 | every key is non-empty, of lower-case letters, as long as the current length; the state stays valid |
| RouteKeys.StateAfterFirstCalls | packages/vxs/src/server/getServerManifest.ts:171-179 | after `n <= 26` calls the length is still 1 and the code stands `n` above its start |
| RouteKeys.FirstKeysAreLetters | packages/vxs/src/server/getServerManifest.ts:162-191 | the first 26 calls return `a` to `z`, in order |
| RouteKeys.KeysAfterRollover | packages/vxs/src/server/getServerManifest.ts:184-188 | call 27 returns `a` again and the length becomes 2; calls 28 and 29 return `aa` and `bb` |
| RouteKeys.GeneratorRepeatsKey | packages/vxs/src/server/getServerManifest.ts:174-188 | calls 1 and 27 return the same key, `a` |
| RouteKeys.IntendedKeysDistinct | packages/vxs/src/server/getServerManifest.ts:158-161 | the minimal-key sequence the generator is documented to produce never repeats a key |
| RouteKeys.IntendedIndexOfKey | packages/vxs/src/server/getServerManifest.ts:158-161 | the position of key `n` of that sequence is `n`: the sequence is injective |
| RouteKeys.IntendedKeysStart | packages/vxs/src/server/getServerManifest.ts:158-161 | that sequence starts `a` to `z`, then `aa`, `ab` |
| NamedRegex.EscapeStringRegexp | packages/vxs/src/server/getServerManifest.ts:269-275 | a string without metacharacters is returned unchanged |
| NamedRegex.EscapeRoundTrip | packages/vxs/src/server/getServerManifest.ts:265-275 | every metacharacter of the result is preceded by a backslash, and removing those backslashes gives the input back |
| NamedRegex.EscapeAllWellEscaped | packages/vxs/src/server/getServerManifest.ts:265-272 | the global replacement escapes every metacharacter and loses nothing |
| NamedRegex.NoMetaUnchanged | packages/vxs/src/server/getServerManifest.ts:267-274 | the replacement changes nothing in a string without metacharacters, so the `test` shortcut agrees with it |
| NamedRegex.RemoveTrailingSlash | packages/vxs/src/server/getServerManifest.ts:194-196 | at most one final `/` is removed; an empty result becomes `/` |
| NamedRegex.Segments | packages/vxs/src/server/getServerManifest.ts:199 | there is always at least one segment |
| NamedRegex.ParseParam | packages/vxs/src/server/getServerManifest.ts:277-293 | optional exactly when bracketed, with one bracket layer removed; repeat exactly when the rest starts with `...`, which is then removed |
| NamedRegex.ParseParamExamples | packages/vxs/src/server/getServerManifest.ts:208 | `[id]` is `id`, optional, not repeated; `[...slug]` is `slug`, optional, repeated |
| NamedRegex.ParseParamDoubleBrackets | packages/vxs/src/server/getServerManifest.ts:282-290 | `[[...x]]` is named `[...x]` and does not repeat |
| NamedRegex.CatchAllParses | packages/vxs/src/server/getServerManifest.ts:277-293 | `[...name]` parses to `name`, repeated and optional |
| NamedRegex.ChooseKey | packages/vxs/src/server/getServerManifest.ts:210-228 | the cleaned key is kept unless it is empty, longer than 30, starts with a digit or is already `in` the table; otherwise the generator's next key is used; the result is always a well-formed group name |
| NamedRegex.SanitizedKey | packages/vxs/src/server/getServerManifest.ts:210-228 | removing non-word characters and the validity checks compute the key choice, and advance the generator only for an invalid key |
| NamedRegex.CompileParamSegment | packages/vxs/src/server/getServerManifest.ts:207-236 | a dynamic segment records its key and parsed name in `routeKeys` and gives the fragment of its kind |
| NamedRegex.GetNamedRegex | packages/vxs/src/server/getServerManifest.ts:198-260 | the method with a fresh generator and an updated `routeKeys` computes the compiler function |
| NamedRegex.StepParam | packages/vxs/src/server/getServerManifest.ts:207-236 | a bracketed segment gives its parameter fragment and adds one entry |
| NamedRegex.StepGroup | packages/vxs/src/server/getServerManifest.ts:238-250 | a parenthesised segment gives the optional group fragment and adds no key |
| NamedRegex.StepLiteral | packages/vxs/src/server/getServerManifest.ts:252 | any other segment gives `/` and its escaped text and adds no key |
| NamedRegex.DynamicFragmentShape | packages/vxs/src/server/getServerManifest.ts:231-235 | a catch-all gives `(?:/(?<k>.+?))?`; any other parameter gives `/(?<k>[^/]+?)`; `k` is well formed |
| NamedRegex.StepPlainParam | packages/vxs/src/server/getServerManifest.ts:207-235 | `[name]` is keyed by `name` without its non-word characters when that key is valid, and records `name` |
| NamedRegex.FoldKeyCount | packages/vxs/src/server/getServerManifest.ts:202-254 | group and literal segments add no entry; each dynamic segment adds at most one |
| NamedRegex.FoldValues | packages/vxs/src/server/getServerManifest.ts:230 | every recorded name is the parsed name of a dynamic segment |
| NamedRegex.FoldWellFormed | packages/vxs/src/server/getServerManifest.ts:210-230 | every group name is a well-formed key |
| NamedRegex.FoldKeeps | packages/vxs/src/server/getServerManifest.ts:230 | no group name is lost |
| NamedRegex.CompiledPatternShape | packages/vxs/src/server/getServerManifest.ts:198-260 | the pattern is `^`, then the fragments, then `(?:/)?$`; the keys are distinct and well formed, at most one per dynamic segment and none without one; the values are parameter names |
| NamedRegex.RootPattern | packages/vxs/src/server/getServerManifest.ts:194-257 | `/` and the empty route compile to `^/(?:/)?$` with no keys |
| NamedRegex.TrailingSlashIgnored | packages/vxs/src/server/getServerManifest.ts:194-199 | one trailing slash makes no difference |
| NamedRegex.NotFoundSegmentIsCatchAll | packages/vxs/src/server/getServerManifest.ts:204-206 | a final `+not-found` compiles as the catch-all `[...not-found]`, keyed `notfound` |
| NamedRegex.UnbalancedBracketIsLiteral | packages/vxs/src/server/getServerManifest.ts:207-252 | an unbalanced `[name` is escaped literal text and adds no key |
| NamedRegex.PrototypeNameGetsGeneratedKey | packages/vxs/src/server/getServerManifest.ts:222-227 | a parameter named like an `Object.prototype` property (`constructor`, ...) is `in` the empty table and gets a generated key |
| NamedRegex.GeneratedKeyCollides | packages/vxs/src/server/getServerManifest.ts:222-230 | `/[a]/[$]` compiles to a pattern with two groups named `a` and a table with one entry |
| FreshKeys.FreshKey | packages/vxs/src/server/getServerManifest.ts:226-228 | the corrected generator returns a well-formed key that is not taken |
| FreshKeys.SafeChooseKey | packages/vxs/src/server/getServerManifest.ts:210-228 | the corrected choice keeps a valid cleaned key and never returns a key already in the table |
| FreshKeys.OneGroupPerParam | packages/vxs/src/server/getServerManifest.ts:202-236 | with the correction, group names are distinct and well formed, and there is exactly one per dynamic segment |
| JsStrings.RemoveNonWord | packages/vxs/src/server/getServerManifest.ts:210 | the result is made of word characters only; a word is unchanged |
| JsStrings.RemoveNonWordJoins | packages/vxs/src/server/getServerManifest.ts:210 | removing the one non-word character between two words joins them |
| JsStrings.JoinSplit | packages/vxs/src/server/getServerManifest.ts:199 | splitting on a character and joining with it gives the string back |
| JsStrings.SplitAtFirst | packages/vxs/src/server/getServerManifest.ts:199 | the text before the first separator is the first segment |
| JsStrings.TrimStart | packages/vxs/src/server/getServerManifest.ts:241 | removes a prefix; the result starts with no white space |
| JsStrings.TrimEnd | packages/vxs/src/server/getServerManifest.ts:241 | removes a suffix; the result ends with no white space |
| Records.PutGet | packages/vxs/src/server/getServerManifest.ts:230 | after `r[k] = v`, `k` reads `v` and every other property reads as before |
| Records.Assign | packages/vxs/src/handleRequest.ts:36 | `r[k] = v` on a plain object: adds `k` unless it is `__proto__`, whose inherited setter creates no own property; distinct keys stay distinct |
| Records.AssignGet | packages/vxs/src/handleRequest.ts:199-204 | after `r[k] = v`, `k` reads `v` unless it is `__proto__`, and every other property reads as before |
| Records.Put | packages/vxs/src/server/getServerManifest.ts:230 | `r[k] = v` for an own property: adds the key if it is new; the size grows only for a new key; distinct keys stay distinct |
| Dispatch.BuildApiRoutesMap | packages/vxs/src/handleRequest.ts:34-38 | the reduce with its mutated accumulator computes the table function |
| Dispatch.ApiRoutesMapLastWins | packages/vxs/src/handleRequest.ts:34-38 | one entry per page, every page other than `__proto__` present and `__proto__` absent, and each such page holds the last route with that page |
| Dispatch.WithType | packages/vxs/src/handleRequest.ts:46-56 | each route is tagged with its rendering mode, in order |
| Dispatch.FirstMatch | packages/vxs/src/handleRequest.ts:79-82 | the index found matches, and no earlier route matches; with no index, no route matches |
| Dispatch.FindFirst | packages/vxs/src/handleRequest.ts:108-111 | the loop that skips routes that do not match finds the first match |
| Dispatch.GetLoaderParams | packages/vxs/src/handleRequest.ts:195-208 | the loop over the groups computes the parameter function, in which `params[namedKey] = value` stores nothing for the name `__proto__` |
| Dispatch.LoaderParamsByName | packages/vxs/src/handleRequest.ts:199-205 | when each group maps to a different original name, every capture is found under its original name unless that name is `__proto__`; the stored names are exactly the original names other than `__proto__`, each once |
| Dispatch.RouteParams | packages/vxs/src/handleRequest.ts:211-218 | `{}` when the pattern does not match |
| Dispatch.ExtractionsAgree | packages/vxs/src/handleRequest.ts:195-218 | on a match whose groups are the route's keys, in order, `getLoaderParams` gives `getRouteParams` without its `__proto__` entry; with no original name `__proto__` the two are equal |
| Dispatch.ProtoCaptureDropped | packages/vxs/src/handleRequest.ts:195-218 | for the route `/[__proto__]` (group `a`), `getLoaderParams` gives `{}` and `getRouteParams` gives `{__proto__: "x"}` |
| Dispatch.DispatchOrder | packages/vxs/src/handleRequest.ts:60-191 | ignored requests get `null`; in-flight pathnames are answered first outside production; API matches come before the method and path guards; refused requests get `null`; an unmatched loader request gets the error response; an unmatched render gets `null` |
| Dispatch.RequestHandler.constructor | packages/vxs/src/handleRequest.ts:15-58 | the API table is keyed by page; ssg routes come before spa routes; the in-flight table is empty |
| Dispatch.RequestHandler.ServeApi | packages/vxs/src/handleRequest.ts:83-94 | the matched API route's handler gets the pathname and the route parameters; its value or error is passed on unchanged |
| Dispatch.RequestHandler.ServeLoader | packages/vxs/src/handleRequest.ts:101-157 | the page path (first `_vxrn_loader.js` removed) is matched against ssg, then spa routes; the loader value is wrapped as a script; no match gives the error response |
| Dispatch.RequestHandler.RenderFirstMatch | packages/vxs/src/handleRequest.ts:165-182 | the first matching page route is rendered with path and search; no match gives `null` |
| Dispatch.RequestHandler.RenderSsr | packages/vxs/src/handleRequest.ts:160-189 | a new promise is stored under the pathname, settled with the handler's value or error, and the entry is removed on every exit |
| Dispatch.RequestHandler.HandleRequest | packages/vxs/src/handleRequest.ts:60-192 | the result is the dispatch function's; only a request that reaches rendering adds a promise, and its table entry is gone afterwards; other requests change nothing |
| Records.Delete | packages/vxs/src/link/href.ts:34 | `delete params[key]` removes that key and leaves every other property as it was |
| Href.CreateQualifiedPathname | packages/vxs/src/link/href.ts:19-37 | the loop that reassigns `pathname` and deletes from `params` computes the substitution function |
| Href.SubstituteFromCount | packages/vxs/src/link/href.ts:19-37 | each consumed param uses up a `[` of the pathname and values bring none; the params left are original ones, unchanged |
| Href.SubstituteFromPath | packages/vxs/src/link/href.ts:19-37 | the loop ends on the pathname reached by replacing, entry after entry, the first `[name]` or else the first `[...name]` of the current pathname |
| Href.SubstituteFromKeys | packages/vxs/src/link/href.ts:19-37 | a param is left exactly when it was given and no entry of its name found `[name]` or `[...name]` in the pathname that entry met |
| Href.ConsumedExactlyWhenFilled | packages/vxs/src/link/href.ts:19-37 | for params with distinct names, param `i` is removed from the query params exactly when the pathname it meets holds its placeholder; every other param stays |
| Href.ReplacementCompletesPlaceholder | packages/vxs/src/link/href.ts:19-37 | a replacement can complete a new placeholder that a later param fills: `[[a]b]` with `a = x` and `xb = y` becomes `y` |
| Href.NoPlaceholderNoChange | packages/vxs/src/link/href.ts:19-37 | a pathname without `[` is returned unchanged and every param is left for the query |
| Href.SingleParamFills | packages/vxs/src/link/href.ts:23-34 | a lone param fills the first placeholder of its name with its encoded value and is consumed |
| Href.UndefinedParamEmpty | packages/vxs/src/link/href.ts:23 | an `undefined` param is substituted as the empty string |
| Href.NullParamText | packages/vxs/src/link/href.ts:23 | a `null` param is not defaulted and is written `null` |
| Href.EncodeParamAlphabet | packages/vxs/src/link/href.ts:39-43 | an encoded param holds only encoded characters and `/` |
| Href.EncodeTwoItems | packages/vxs/src/link/href.ts:39-43 | array items are encoded one by one and joined with `/` |
| Href.EncodeOneItem | packages/vxs/src/link/href.ts:39-43 | an array of one item is encoded as that item |
| Href.UndefinedItemText | packages/vxs/src/link/href.ts:39-43 | inside an array `undefined` is written out as `undefined` |
| Href.EncodedHasNoBracket | packages/vxs/src/link/href.ts:39-43 | an encoded param holds no `[`, so a substitution never adds a `[` to the pathname |
| Href.ItemTexts | packages/vxs/src/link/href.ts:50 | one text per array item |
| Href.QueryEmptyIffAllNullish | packages/vxs/src/link/href.ts:45-53 | the query string is empty exactly when every param left is `null` or `undefined` |
| Href.QueryPartsNonEmpty | packages/vxs/src/link/href.ts:45-53 | every part is non-empty; there are no parts exactly when every param is nullish |
| Href.QueryPartsAppend | packages/vxs/src/link/href.ts:47-51 | the parts follow the entry order of the params |
| Href.QueryOfTwoParams | packages/vxs/src/link/href.ts:45-53 | two params give `k1=v1&k2=v2`, values encoded and keys as they are |
| Href.ResolveWithoutParams | packages/vxs/src/link/href.ts:4-11 | a string href is its own result; without params the pathname (or `''`) is returned |
| Href.ResolveQueryMark | packages/vxs/src/link/href.ts:4-17 | a `?` and query are appended exactly when some remaining param is not nullish |
| UriComponent.EncodeChar | packages/vxs/src/link/href.ts:42 | an unreserved character is kept; any other becomes `%XY` triples |
| UriComponent.EncodedChars | packages/vxs/src/link/href.ts:42 | an encoding holds only unreserved characters, `%` and upper-case hexadecimal digits |
| UriComponent.UnreservedUnchanged | packages/vxs/src/link/href.ts:42 | a string of unreserved characters is its own encoding |
| UriComponent.EncodeConcat | packages/vxs/src/link/href.ts:50 | the encoding of a concatenation is the concatenation of the encodings |
| UriComponent.EncodedHasNoDelimiters | packages/vxs/src/link/href.ts:42 | no `[`, `]`, `/`, `?`, `&`, `=`, `$` or `,` survives encoding |
| BigIntJson.BigIntToString | packages/vxrn/src/utils/getReactNativeBundle.ts:198 | a bigint's text is its decimal numeral, with a minus sign when negative |
| BigIntJson.BigIntReplacer | packages/vxrn/src/utils/getReactNativeBundle.ts:196-201 | a bigint becomes `__BigInt__:` + its text + `n`; any other value is unchanged |
| BigIntJson.BigIntReviver | packages/vxrn/src/utils/getReactNativeBundle.ts:203-208 | a string of the encoded form becomes a non-negative bigint; any other value is unchanged |
| BigIntJson.NonNegativeRoundTrip | packages/vxrn/src/utils/getReactNativeBundle.ts:196-208 | a non-negative bigint survives replacer then reviver |
| BigIntJson.OtherValuesRoundTrip | packages/vxrn/src/utils/getReactNativeBundle.ts:196-208 | a value that is neither a bigint nor a string passes both unchanged |
| BigIntJson.NegativeStaysString | packages/vxrn/src/utils/getReactNativeBundle.ts:196-208 | a negative bigint comes back as the encoded string, not as a bigint |
| BigIntJson.LookalikeStringRevived | packages/vxrn/src/utils/getReactNativeBundle.ts:203-208 | an ordinary string `__BigInt__:<digits>n` is revived as a bigint |
| JsStrings.DecimalRoundTrip | packages/vxrn/src/utils/getReactNativeBundle.ts:198-205 | reading back the decimal numeral of a natural number gives the number |

## Left out

- **Concurrency.** `await activeRequests[pathname]` is modelled as the outcome `AwaitInFlight` naming the stored promise. The waiting itself, and the interleaving of concurrent requests, are not modelled. Handlers are pure functions from their props to how their promise settles.
- **URL parsing.** Parsing a `URL` against the `host` header is not modelled. A request is its method, pathname and search. In the loader branch, `new URL(originalUrl, url.origin).pathname` is taken to be `originalUrl`.
- **Response objects.** `Response`, `Headers` and `Response.error()` are not built. They are outcomes: `LoaderScript(body)` and `ErrorResponse`.
- **Manifest loading.** `getManifest` is not modelled: the constructor takes the manifest. The `No routes manifest` error and the `import.meta.env` guard are not modelled.
- **Diagnostics.** The development-only `console.error` is not modelled.
- **Production flag.** `process.env.NODE_ENV` is the `production` flag of the setup. The `console.error` branch that reads `'development'` is left out with its output.
- **Regular expressions.** `compiledRegex` and `workingRegex` are replaced by the `Exec` parameter on the pattern string. `regex.test` is `exec(...).Some?`. A pattern with two groups of the same name makes `new RegExp` throw a `SyntaxError`; the model does not, and the findings show where such patterns arise.
- **External helpers.** `getContextKey`, `matchGroupName` and `sortRoutes` are parameters, as described above. `matchGroupName` is total in the model: the `TypeError` that `matchGroupName(segment)!` (packages/vxs/src/server/getServerManifest.ts:239) would lead to when it returns `undefined` is not modelled.
- **Sort algorithm.** The engine's `Array.prototype.sort` algorithm is not known. The model sorts stably by insertion. With a comparator that is not a consistent total order, the engine's order may differ.
- **Property order.** `Object.entries` order is insertion order in the model. JavaScript lists integer-like keys first, in numeric order; that is not modelled.
- **`$` patterns.** The `$` patterns of a replacement string in `pathname.replace(dynamicKey, ...)` are not interpreted. An encoded param never holds `$` (`UriComponent.EncodedHasNoDelimiters`), so this changes nothing.
- **`encodeURIComponent`.** It is modelled concretely over Unicode scalar values, so it never throws `URIError`. Lone surrogates do not exist in Dafny strings.
- **`toString` and template strings.** A non-array param value is given by its string form (`Scalar(text)`). Objects with their own `toString` are not modelled.
- **Group fragments.** The fragment of a parenthesised segment uses `matchGroupName` as a parameter. Its exact text is modelled; which paths it matches is not.
- **Order of `routeKeys`.** It is an ordered record. `Records.Put` keeps the position of an existing key, as JavaScript does.
- **`Manifest.ManifestShape`** counts API routes by distinct keys only. The spa, ssg and not-found lists are stated to be well formed but not counted.
- **`NamedRegex.FoldKeyCount`** states at most one entry per dynamic segment, not exactly one. The code as written can overwrite an entry (see the findings); `FreshKeys.SafeFoldCount` states exactly one for the corrected compiler.
- **`Dispatch.RouteParams`** states only the no-match case in its own contract. The matched case is stated by `Dispatch.ExtractionsAgree`, for matches whose groups are the route's keys.
- **`Dispatch.LoaderParamsByName`** assumes the original names are distinct. With a duplicate name, the later capture overwrites the earlier, which the model computes but no lemma states.
- **Prototype of the API table.** A page `__proto__` makes its route the prototype of `apiRoutesMap` rather than an entry. The model leaves it out of the table, as `Object.values` does; the inherited properties it adds are never read by the router, and are not modelled.
- **`activeRequests` keys.** The in-flight table is a map from pathname. A URL pathname begins with `/`, so it is never `__proto__`, and the prototype setter does not arise.
- **Corrected compiler.** `Manifest` compiles routes with the compiler as written (`NamedRegex.Compile`), so that the manifest is the one the code builds. The corrected compiler `FreshKeys.CompileWithFreshKeys` stands beside it with its own proof, and is not wired into the manifest.
- **The rest of `getReactNativeBundle.ts`.** Only the two JSON helpers are modelled. The build, file cache, shared promise and template generation are out of scope.

## Findings

| source | as written | input that shows it | evidently intended | confidence | as-written member | corrected member |
|---|---|---|---|---|---|---|
| packages/vxs/src/server/getServerManifest.ts:184-188 | after `z` the generator resets to one before `a` but has already built `a` in this call: call 27 returns `a` again, then `aa`, `bb`, ... | 27 calls of one generator | the minimal-key sequence `a`...`z`, `aa`, `ab`, ... with no repeats | not executed | RouteKeys.GeneratorRepeatsKey | RouteKeys.IntendedKeysDistinct |
| packages/vxs/src/server/getServerManifest.ts:222-230 | a generated key is never checked against `routeKeys`, so it can equal a cleaned key already used | route `/[a]/[$]`: `[a]` keeps key `a`; `[$]` cleans to nothing and gets generated `a`; the pattern has two groups named `a` and the table one entry | each dynamic segment gets its own group name | not executed | NamedRegex.GeneratedKeyCollides | FreshKeys.OneGroupPerParam |
