/**
 * `getFlatNodes` of `getServerManifest.ts`: the route tree is flattened into
 * one entry per leaf, keyed by the leaf's normalised path, with the chain of
 * its ancestors (`layouts`, outermost first). `getContextKey` is a function
 * of another file and is a parameter here.
 */
module Flatten {
  import opened Wrappers
  import opened JsStrings

  /** One `dynamic` descriptor of a route node; only its `notFound` flag is read here. */
  datatype DynamicSegment = DynamicSegment(name: string, deep: bool, notFound: bool)

  /**
   * A node of the route tree. `kind` is the node's `type` ("api", "route",
   * ...), `routeType` its rendering mode ("ssg", "spa", ...), `dynamic` its
   * descriptor array when it has one.
   */
  datatype RouteNode = RouteNode(
    route: string,
    contextKey: string,
    children: seq<RouteNode>,
    kind: string,
    routeType: string,
    dynamic: Option<seq<DynamicSegment>>,
    generated: bool)

  /** A flattened leaf: `[key, { ...node, layouts }]`. */
  datatype FlatEntry = FlatEntry(key: string, node: RouteNode, layouts: Option<seq<RouteNode>>)

  const IndexSuffix: string := "/index"

  /** `s.replace(/\/index$/, '')`. */
  function StripIndex(s: string): (r: string)
    ensures EndsWith(s, IndexSuffix) ==> r + IndexSuffix == s
    ensures !EndsWith(s, IndexSuffix) ==> r == s
  {
    if EndsWith(s, IndexSuffix) then s[..|s| - |IndexSuffix|] else s
  }

  /** `s || '/'`. */
  function OrSlash(s: string): (r: string)
    ensures r != []
    ensures s != [] ==> r == s
  {
    if s == [] then "/" else s
  }

  /** The normalised path of a node: `getContextKey(...).replace(/\/index$/, '') || '/'`. */
  function NormalisedPath(path: string, contextKey: string -> string): string
  {
    OrSlash(StripIndex(contextKey(path)))
  }

  /** An ancestor's path contributes to a route key unless it is `/` or a route group `/(...`. */
  predicate Contributes(key: string)
  {
    key != "/" && !StartsWith(key, "/(")
  }

  /** `layouts.flatMap(...)`: the contributing paths of the ancestors, in order. */
  function ParentSegments(layouts: seq<RouteNode>, contextKey: string -> string): (r: seq<string>)
    ensures |r| <= |layouts|
    ensures forall k :: k in r ==> Contributes(k)
  {
    if layouts == [] then []
    else
      var key := NormalisedPath(layouts[0].route, contextKey);
      (if Contributes(key) then [key] else []) + ParentSegments(layouts[1..], contextKey)
  }

  /**
   * `parentSegments + path`: JavaScript turns the array into its comma-joined
   * text, and an absent array into "undefined".
   */
  function ParentText(layouts: Option<seq<RouteNode>>, contextKey: string -> string): string
  {
    match layouts
    case None => "undefined"
    case Some(ls) => Join(ParentSegments(ls, contextKey), ",")
  }

  /** The key of a leaf: API routes by their own file, other routes by their ancestors' paths and their own. */
  function LeafKey(node: RouteNode, layouts: Option<seq<RouteNode>>, contextKey: string -> string): string
  {
    if node.kind == "api" then NormalisedPath(node.contextKey, contextKey)
    else OrSlash(ParentText(layouts, contextKey) + StripIndex(contextKey(node.route)))
  }

  function OrEmpty(layouts: Option<seq<RouteNode>>): seq<RouteNode>
  {
    match layouts
    case None => []
    case Some(ls) => ls
  }

  /** `getFlatNodes(node, layouts)`. */
  function FlatNodes(node: RouteNode, layouts: Option<seq<RouteNode>>, contextKey: string -> string): seq<FlatEntry>
    decreases node, |node.children| + 1
  {
    if |node.children| > 0 then FlatChildren(node, 0, Some(OrEmpty(layouts) + [node]), contextKey)
    else [FlatEntry(LeafKey(node, layouts, contextKey), node, layouts)]
  }

  /** `node.children.flatMap(...)`, from child `i` on. */
  function FlatChildren(node: RouteNode, i: nat, layouts: Option<seq<RouteNode>>, contextKey: string -> string): seq<FlatEntry>
    requires i <= |node.children|
    decreases node, |node.children| - i
  {
    if i == |node.children| then []
    else FlatNodes(node.children[i], layouts, contextKey) + FlatChildren(node, i + 1, layouts, contextKey)
  }

  // ---------------------------------------------------------------------------
  // Properties
  // ---------------------------------------------------------------------------

  /** The leaves below a node, depth first and left to right (the node itself when it has no children). */
  function Leaves(node: RouteNode): seq<RouteNode>
    decreases node, |node.children| + 1
  {
    if |node.children| > 0 then ChildLeaves(node, 0) else [node]
  }

  /** The leaves below the children of `node` from child `i` on. */
  function ChildLeaves(node: RouteNode, i: nat): seq<RouteNode>
    requires i <= |node.children|
    decreases node, |node.children| - i
  {
    if i == |node.children| then [] else Leaves(node.children[i]) + ChildLeaves(node, i + 1)
  }

  /** The nodes of a list of entries, in order. */
  function NodesOf(es: seq<FlatEntry>): (ns: seq<RouteNode>)
    ensures |ns| == |es|
    ensures forall i :: 0 <= i < |es| ==> ns[i] == es[i].node
  {
    if es == [] then [] else [es[0].node] + NodesOf(es[1..])
  }

  lemma NodesOfAppend(a: seq<FlatEntry>, b: seq<FlatEntry>)
    ensures NodesOf(a + b) == NodesOf(a) + NodesOf(b)
  {
  }

  /** `chain` descends from parent to child and ends at a parent of `leaf`. */
  predicate DescendsTo(chain: seq<RouteNode>, leaf: RouteNode)
  {
    && |chain| >= 1
    && (forall i :: 0 <= i < |chain| - 1 ==> chain[i + 1] in chain[i].children)
    && leaf in chain[|chain| - 1].children
  }

  /**
   * What every entry below `node` looks like: a leaf below `node`, keyed by
   * its `LeafKey`, with `layouts` extended by its ancestors from `node` down.
   */
  predicate EntryBelow(e: FlatEntry, node: RouteNode, layouts: Option<seq<RouteNode>>, contextKey: string -> string)
  {
    && |e.node.children| == 0
    && e.key == LeafKey(e.node, e.layouts, contextKey)
    && if |node.children| == 0 then e.node == node && e.layouts == layouts
       else ExtendedBy(e, OrEmpty(layouts), node)
  }

  /** `e.layouts` is `prefix` followed by a chain from `node` down to the parent of `e.node`. */
  predicate ExtendedBy(e: FlatEntry, prefix: seq<RouteNode>, node: RouteNode)
  {
    && e.layouts.Some?
    && |prefix| < |e.layouts.value|
    && e.layouts.value[..|prefix|] == prefix
    && e.layouts.value[|prefix|] == node
    && DescendsTo(e.layouts.value[|prefix|..], e.node)
  }

  /**
   * Flattening yields one entry per leaf, in depth-first order: the entries'
   * nodes are exactly the leaves. Each entry is keyed by its `LeafKey` and
   * carries its ancestors as `layouts`.
   */
  lemma {:induction false} FlatNodesShape(node: RouteNode, layouts: Option<seq<RouteNode>>, contextKey: string -> string)
    ensures NodesOf(FlatNodes(node, layouts, contextKey)) == Leaves(node)
    ensures forall e :: e in FlatNodes(node, layouts, contextKey) ==> EntryBelow(e, node, layouts, contextKey)
    decreases node, |node.children| + 1
  {
    if |node.children| > 0 {
      FlatChildrenShape(node, 0, layouts, contextKey);
    }
  }

  lemma {:induction false} FlatChildrenShape(node: RouteNode, i: nat, layouts: Option<seq<RouteNode>>, contextKey: string -> string)
    requires 0 < |node.children| && i <= |node.children|
    ensures var inner := Some(OrEmpty(layouts) + [node]);
            && NodesOf(FlatChildren(node, i, inner, contextKey)) == ChildLeaves(node, i)
            && forall e :: e in FlatChildren(node, i, inner, contextKey) ==> EntryBelow(e, node, layouts, contextKey)
    decreases node, |node.children| - i
  {
    var inner := Some(OrEmpty(layouts) + [node]);
    if i < |node.children| {
      var child := node.children[i];
      FlatNodesShape(child, inner, contextKey);
      FlatChildrenShape(node, i + 1, layouts, contextKey);
      NodesOfAppend(FlatNodes(child, inner, contextKey), FlatChildren(node, i + 1, inner, contextKey));
      forall e | e in FlatNodes(child, inner, contextKey) ensures EntryBelow(e, node, layouts, contextKey) {
        ChildEntryBelow(e, node, i, layouts, contextKey);
      }
    }
  }

  /** An entry below child `i` of `node`, reached with `node` appended to `layouts`, is an entry below `node`. */
  lemma ChildEntryBelow(e: FlatEntry, node: RouteNode, i: nat, layouts: Option<seq<RouteNode>>, contextKey: string -> string)
    requires i < |node.children|
    requires EntryBelow(e, node.children[i], Some(OrEmpty(layouts) + [node]), contextKey)
    ensures EntryBelow(e, node, layouts, contextKey)
  {
    var child := node.children[i];
    if |child.children| == 0 {
      LeafChildEntry(e, node, i, OrEmpty(layouts));
    } else {
      InnerChildEntry(e, node, i, OrEmpty(layouts));
    }
  }

  lemma LeafChildEntry(e: FlatEntry, node: RouteNode, i: nat, prefix: seq<RouteNode>)
    requires i < |node.children| && |node.children[i].children| == 0
    requires e.node == node.children[i] && e.layouts == Some(prefix + [node])
    ensures ExtendedBy(e, prefix, node)
  {
    var full := e.layouts.value;
    assert full[|prefix|..] == [node];
  }

  lemma InnerChildEntry(e: FlatEntry, node: RouteNode, i: nat, prefix: seq<RouteNode>)
    requires i < |node.children|
    requires ExtendedBy(e, prefix + [node], node.children[i])
    ensures ExtendedBy(e, prefix, node)
  {
    var child := node.children[i];
    var full := e.layouts.value;
    var chain := full[|prefix|..];
    assert full[..|prefix|] == prefix by {
      assert full[..|prefix| + 1][..|prefix|] == full[..|prefix|];
    }
    assert chain[1..] == full[|prefix| + 1..];
    assert DescendsTo(chain, e.node) by {
      forall j | 0 <= j < |chain| - 1 ensures chain[j + 1] in chain[j].children {
        if j > 0 {
          assert chain[j] == chain[1..][j - 1] && chain[j + 1] == chain[1..][j];
        } else {
          assert chain[1] == child;
        }
      }
    }
  }

  /**
   * From the root: the entries' nodes are the leaves, in depth-first order,
   * each entry keyed by its `LeafKey`. A childless root is its own entry,
   * without `layouts`; otherwise every entry's `layouts` starts at the root
   * and descends to the leaf's parent.
   */
  lemma FlattenedFromRoot(root: RouteNode, contextKey: string -> string)
    ensures NodesOf(FlatNodes(root, None, contextKey)) == Leaves(root)
    ensures forall e :: e in FlatNodes(root, None, contextKey) ==>
              && |e.node.children| == 0
              && e.key == LeafKey(e.node, e.layouts, contextKey)
              && (|root.children| == 0 ==> e.node == root && e.layouts == None)
              && (|root.children| > 0 ==> e.layouts.Some? && |e.layouts.value| > 0 && e.layouts.value[0] == root && DescendsTo(e.layouts.value, e.node))
  {
    FlatNodesShape(root, None, contextKey);
    forall e | e in FlatNodes(root, None, contextKey)
      ensures |root.children| > 0 ==> e.layouts.Some? && |e.layouts.value| > 0 && e.layouts.value[0] == root && DescendsTo(e.layouts.value, e.node)
    {
      assert EntryBelow(e, root, None, contextKey);
      if |root.children| > 0 {
        assert e.layouts.value[0..] == e.layouts.value;
      }
    }
  }

  // ---------------------------------------------------------------------------
  // Keys
  // ---------------------------------------------------------------------------

  /** An API route's key is its own normalised file path, whatever its ancestors. */
  lemma ApiKeyIgnoresLayouts(node: RouteNode, l1: Option<seq<RouteNode>>, l2: Option<seq<RouteNode>>, contextKey: string -> string)
    requires node.kind == "api"
    ensures LeafKey(node, l1, contextKey) == LeafKey(node, l2, contextKey) == NormalisedPath(node.contextKey, contextKey)
  {
  }

  /** Ancestors that are `/` or route groups add nothing: the key is the node's own path, or `/`. */
  lemma {:induction false} GroupAncestorsAddNothing(node: RouteNode, layouts: seq<RouteNode>, contextKey: string -> string)
    requires node.kind != "api"
    requires forall l :: l in layouts ==> !Contributes(NormalisedPath(l.route, contextKey))
    ensures LeafKey(node, Some(layouts), contextKey) == NormalisedPath(node.route, contextKey)
  {
    NoContributingParents(layouts, contextKey);
    assert Join([], ",") == "";
    assert "" + StripIndex(contextKey(node.route)) == StripIndex(contextKey(node.route));
  }

  lemma {:induction false} NoContributingParents(layouts: seq<RouteNode>, contextKey: string -> string)
    requires forall l :: l in layouts ==> !Contributes(NormalisedPath(l.route, contextKey))
    ensures ParentSegments(layouts, contextKey) == []
  {
    if layouts != [] {
      assert layouts[0] in layouts;
      NoContributingParents(layouts[1..], contextKey);
    }
  }

  /**
   * A route leaf flattened without `layouts` (a childless root) gets a key
   * starting with "undefined": `undefined + path` in JavaScript.
   */
  lemma ChildlessRootKey(node: RouteNode, contextKey: string -> string)
    requires node.kind != "api" && |node.children| == 0
    ensures FlatNodes(node, None, contextKey) == [FlatEntry("undefined" + StripIndex(contextKey(node.route)), node, None)]
  {
  }
}
