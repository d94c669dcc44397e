/**
 * A JavaScript plain object with string keys, as the router uses it for
 * `routeKeys`, `params` and the API route table: an association list in
 * property-creation order. Assigning to an existing property keeps its
 * position; assigning to a new one appends it. JavaScript enumerates
 * integer-like keys (a parameter named `123`, say) first, in numeric order;
 * the model keeps creation order for every key.
 */
module Records {
  import opened Wrappers

  type Record<V> = seq<(string, V)>

  function Keys<V>(r: Record<V>): set<string>
  {
    if r == [] then {} else {r[0].0} + Keys(r[1..])
  }

  function Values<V>(r: Record<V>): set<V>
  {
    if r == [] then {} else {r[0].1} + Values(r[1..])
  }

  /** No property name occurs twice. */
  predicate DistinctKeys<V>(r: Record<V>)
  {
    r == [] || (r[0].0 !in Keys(r[1..]) && DistinctKeys(r[1..]))
  }

  /** `r[k]`, or `None` for `undefined`. */
  function Get<V>(r: Record<V>, k: string): (v: Option<V>)
    ensures v.Some? <==> k in Keys(r)
  {
    if r == [] then None else if r[0].0 == k then Some(r[0].1) else Get(r[1..], k)
  }

  /** `r[k] = v`. */
  function Put<V>(r: Record<V>, k: string, v: V): (r': Record<V>)
    ensures Keys(r') == Keys(r) + {k}
    ensures v in Values(r') && Values(r') <= Values(r) + {v}
    ensures DistinctKeys(r) ==> DistinctKeys(r')
    ensures |r'| == if k in Keys(r) then |r| else |r| + 1
  {
    if r == [] then [(k, v)]
    else if r[0].0 == k then [(k, v)] + r[1..]
    else [r[0]] + Put(r[1..], k, v)
  }

  /** The property name whose assignment reaches the `Object.prototype.__proto__` setter. */
  const ProtoName: string := "__proto__"

  /**
   * `r[k] = v` on a plain object. For `__proto__` the inherited setter runs
   * instead: it ignores a value that is not an object and makes an object the
   * new prototype. Either way no own property is created, and `Object.entries`
   * and `Object.values` list own properties only.
   */
  function Assign<V>(r: Record<V>, k: string, v: V): (r': Record<V>)
    ensures Keys(r') == if k == ProtoName then Keys(r) else Keys(r) + {k}
    ensures DistinctKeys(r) ==> DistinctKeys(r')
  {
    if k == ProtoName then r else Put(r, k, v)
  }

  /** After `r[k] = v`, `k` reads `v` unless it is `__proto__`, and any other property is unaffected. */
  lemma AssignGet<V>(r: Record<V>, k: string, v: V, k': string)
    ensures Get(Assign(r, k, v), k') == if k' == k && k != ProtoName then Some(v) else Get(r, k')
  {
    if k != ProtoName {
      PutGet(r, k, v, k');
    }
  }

  /** After `r[k] = v`, reading `k` gives `v` and reading any other property is unaffected. */
  lemma {:induction false} PutGet<V>(r: Record<V>, k: string, v: V, k': string)
    ensures Get(Put(r, k, v), k') == if k' == k then Some(v) else Get(r, k')
  {
    if r != [] && r[0].0 != k {
      PutGet(r[1..], k, v, k');
    }
  }

  /** `delete r[k]`: the property goes, every other one keeps its value and position. */
  function Delete<V>(r: Record<V>, k: string): (r': Record<V>)
    ensures Keys(r') == Keys(r) - {k}
    ensures Get(r', k) == None
    ensures forall k' :: k' != k ==> Get(r', k') == Get(r, k')
    ensures DistinctKeys(r) ==> DistinctKeys(r')
  {
    if r == [] then []
    else if r[0].0 == k then Delete(r[1..], k)
    else [r[0]] + Delete(r[1..], k)
  }

  /** Deleting a key that is absent changes nothing. */
  lemma {:induction false} DeleteAbsent<V>(r: Record<V>, k: string)
    requires k !in Keys(r)
    ensures Delete(r, k) == r
  {
    if r != [] {
      DeleteAbsent(r[1..], k);
    }
  }

  /** Deleting `k` undoes a write to `k`. */
  lemma {:induction false} DeletePutSame<V>(r: Record<V>, k: string, v: V)
    ensures Delete(Put(r, k, v), k) == Delete(r, k)
  {
    if r != [] && r[0].0 != k {
      DeletePutSame(r[1..], k, v);
    }
  }

  /** Deleting one key and writing another commute. */
  lemma {:induction false} DeletePutOther<V>(r: Record<V>, k: string, v: V, d: string)
    requires k != d
    ensures Delete(Put(r, k, v), d) == Put(Delete(r, d), k, v)
  {
    if r != [] && r[0].0 != k {
      DeletePutOther(r[1..], k, v, d);
    }
  }

  /** A record with distinct keys has exactly as many entries as keys. */
  lemma {:induction false} DistinctKeysCount<V>(r: Record<V>)
    requires DistinctKeys(r)
    ensures |Keys(r)| == |r|
  {
    if r != [] {
      DistinctKeysCount(r[1..]);
    }
  }

  /** With distinct keys, looking up the key of entry `i` finds entry `i`'s value. */
  lemma {:induction false} GetAt<V>(r: Record<V>, i: nat)
    requires DistinctKeys(r) && i < |r|
    ensures Get(r, r[i].0) == Some(r[i].1)
  {
    if i > 0 {
      GetAt(r[1..], i - 1);
      assert r[i].0 in Keys(r[1..]) by { KeysHas(r[1..], i - 1); }
    }
  }

  /** With distinct keys, two different entries have different keys. */
  lemma {:induction false} DistinctAt<V>(r: Record<V>, i: nat, j: nat)
    requires DistinctKeys(r) && i < j < |r|
    ensures r[i].0 != r[j].0
  {
    if i == 0 {
      KeysHas(r[1..], j - 1);
    } else {
      DistinctAt(r[1..], i - 1, j - 1);
    }
  }

  lemma {:induction false} ValuesHas<V>(r: Record<V>, i: nat)
    requires i < |r|
    ensures r[i].1 in Values(r)
  {
    if i > 0 {
      ValuesHas(r[1..], i - 1);
    }
  }

  lemma {:induction false} KeysHas<V>(r: Record<V>, i: nat)
    requires i < |r|
    ensures r[i].0 in Keys(r)
  {
    if i > 0 {
      KeysHas(r[1..], i - 1);
    }
  }
}
