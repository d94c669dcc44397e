/**
 * `uniqueBy(arr, key)` of `getServerManifest.ts`: a filter that keeps an
 * item when its key has not been seen yet, recording keys in a `Set`.
 */
module Unique {

  /** The keys of the items of `s`. */
  function KeysOf<T>(s: seq<T>, key: T -> string): (ks: set<string>)
    ensures forall i :: 0 <= i < |s| ==> key(s[i]) in ks
  {
    if s == [] then {} else {key(s[0])} + KeysOf(s[1..], key)
  }

  /** The filter with the `seen` set it starts from: front to back, a new key is kept and recorded. */
  function UniqueFrom<T>(s: seq<T>, key: T -> string, seen: set<string>): seq<T>
  {
    if s == [] then []
    else if key(s[0]) in seen then UniqueFrom(s[1..], key, seen)
    else [s[0]] + UniqueFrom(s[1..], key, seen + {key(s[0])})
  }

  /** The items of `s` whose key no earlier item has, defined from the back. */
  function FirstOccurrences<T>(s: seq<T>, key: T -> string): seq<T>
  {
    if s == [] then []
    else
      var init, last := s[..|s| - 1], s[|s| - 1];
      FirstOccurrences(init, key) + (if key(last) in KeysOf(init, key) then [] else [last])
  }

  predicate DistinctKeys<T>(s: seq<T>, key: T -> string)
  {
    forall i, j :: 0 <= i < j < |s| ==> key(s[i]) != key(s[j])
  }

  /** `t` is `s` with some items left out, the rest in their order. */
  predicate Subsequence<T(==)>(t: seq<T>, s: seq<T>)
  {
    if t == [] then true
    else if s == [] then false
    else if t[0] == s[0] then Subsequence(t[1..], s[1..])
    else Subsequence(t, s[1..])
  }

  /** `uniqueBy(arr, key)`, with its `seen` set. */
  method UniqueBy<T>(arr: seq<T>, key: T -> string) returns (r: seq<T>)
    ensures r == UniqueFrom(arr, key, {})
  {
    var seen: set<string> := {};
    r := [];
    var i := 0;
    while i < |arr|
      invariant 0 <= i <= |arr|
      invariant r + UniqueFrom(arr[i..], key, seen) == UniqueFrom(arr, key, {})
    {
      var id := key(arr[i]);
      assert arr[i..][1..] == arr[i + 1..];
      if id !in seen {
        seen := seen + {id};
        r := r + [arr[i]];
      }
      i := i + 1;
    }
  }

  lemma {:induction false} KeysOfAppend<T>(s: seq<T>, x: T, key: T -> string)
    ensures KeysOf(s + [x], key) == KeysOf(s, key) + {key(x)}
  {
    if s != [] {
      assert (s + [x])[1..] == s[1..] + [x];
      KeysOfAppend(s[1..], x, key);
    }
  }

  /** Appending one item to the input appends it to the output exactly when its key is new. */
  lemma {:induction false} UniqueFromAppend<T>(s: seq<T>, x: T, key: T -> string, seen: set<string>)
    ensures UniqueFrom(s + [x], key, seen)
         == UniqueFrom(s, key, seen) + (if key(x) in seen + KeysOf(s, key) then [] else [x])
  {
    if s == [] {
      assert [x][1..] == [];
    } else {
      assert (s + [x])[0] == s[0] && (s + [x])[1..] == s[1..] + [x];
      if key(s[0]) in seen {
        UniqueFromAppend(s[1..], x, key, seen);
      } else {
        UniqueFromAppend(s[1..], x, key, seen + {key(s[0])});
      }
    }
  }

  /** The filter keeps exactly the first item of each key, in order: it agrees with the reference definition. */
  lemma {:induction false} UniqueIsFirstOccurrences<T>(s: seq<T>, key: T -> string)
    ensures UniqueFrom(s, key, {}) == FirstOccurrences(s, key)
  {
    if s != [] {
      var init, last := s[..|s| - 1], s[|s| - 1];
      assert s == init + [last];
      UniqueIsFirstOccurrences(init, key);
      UniqueFromAppend(init, last, key, {});
      assert {} + KeysOf(init, key) == KeysOf(init, key);
    }
  }

  /** The kept items have distinct keys, none of them already seen, and every key not seen is kept. */
  lemma {:induction false} UniqueFromKeys<T>(s: seq<T>, key: T -> string, seen: set<string>)
    ensures var r := UniqueFrom(s, key, seen);
            && DistinctKeys(r, key)
            && KeysOf(r, key) == KeysOf(s, key) - seen
  {
    if s != [] {
      var seen' := if key(s[0]) in seen then seen else seen + {key(s[0])};
      UniqueFromKeys(s[1..], key, seen');
      var rest := UniqueFrom(s[1..], key, seen');
      if key(s[0]) !in seen {
        var r := [s[0]] + rest;
        assert r[1..] == rest;
        forall j | 0 < j < |r| ensures key(r[0]) != key(r[j]) {
          assert key(rest[j - 1]) in KeysOf(rest, key);
        }
        assert DistinctKeys(r, key) by {
          forall i, j | 0 <= i < j < |r| ensures key(r[i]) != key(r[j]) {
            if i > 0 {
              assert r[i] == rest[i - 1] && r[j] == rest[j - 1];
            }
          }
        }
      }
    }
  }

  /** The kept items, in order, are a selection of the input. */
  lemma {:induction false} UniqueFromSubsequence<T>(s: seq<T>, key: T -> string, seen: set<string>)
    ensures Subsequence(UniqueFrom(s, key, seen), s)
  {
    if s != [] {
      if key(s[0]) in seen {
        UniqueFromSubsequence(s[1..], key, seen);
        SubsequenceSkip(UniqueFrom(s[1..], key, seen), s);
      } else {
        UniqueFromSubsequence(s[1..], key, seen + {key(s[0])});
      }
    }
  }

  lemma {:induction false} SubsequenceSkip<T>(t: seq<T>, s: seq<T>)
    requires s != [] && Subsequence(t, s[1..])
    ensures Subsequence(t, s)
    decreases |s|
  {
    if t != [] && t[0] == s[0] {
      SubsequenceDrop(t, s[1..]);
      SubsequenceSkip(t[1..], s[1..]);
    }
  }

  lemma {:induction false} SubsequenceDrop<T>(t: seq<T>, s: seq<T>)
    requires t != [] && Subsequence(t, s)
    ensures s != [] && Subsequence(t[1..], s[1..])
    decreases |s|
  {
    if t[0] != s[0] {
      SubsequenceDrop(t, s[1..]);
      SubsequenceSkip(t[1..], s[1..]);
    }
  }

  /** The items of a selection are items of the whole. */
  lemma {:induction false} SubsequenceMembers<T>(t: seq<T>, s: seq<T>)
    requires Subsequence(t, s)
    ensures forall x :: x in t ==> x in s
    decreases |s|
  {
    if t != [] {
      if t[0] == s[0] {
        SubsequenceMembers(t[1..], s[1..]);
        assert t == [t[0]] + t[1..];
      } else {
        SubsequenceMembers(t, s[1..]);
      }
    }
  }

  /** A selection of items with distinct keys has distinct keys. */
  lemma {:induction false} SubsequenceDistinct<T>(t: seq<T>, s: seq<T>, key: T -> string)
    requires Subsequence(t, s) && DistinctKeys(s, key)
    ensures DistinctKeys(t, key)
    decreases |s|
  {
    if t != [] {
      assert DistinctKeys(s[1..], key) by {
        forall i, j | 0 <= i < j < |s[1..]| ensures key(s[1..][i]) != key(s[1..][j]) {
          assert s[1..][i] == s[i + 1] && s[1..][j] == s[j + 1];
        }
      }
      if t[0] == s[0] {
        SubsequenceDistinct(t[1..], s[1..], key);
        SubsequenceMembers(t[1..], s[1..]);
        forall i, j | 0 <= i < j < |t| ensures key(t[i]) != key(t[j]) {
          if i == 0 {
            assert t[j] == t[1..][j - 1];
            assert t[j] in t[1..];
            assert t[j] in s[1..];
            var k :| 0 <= k < |s[1..]| && s[1..][k] == t[j];
            assert s[k + 1] == t[j];
          } else {
            assert t[i] == t[1..][i - 1] && t[j] == t[1..][j - 1];
          }
        }
      } else {
        SubsequenceDistinct(t, s[1..], key);
      }
    }
  }

  /** `uniqueBy` with an empty `seen` set: distinct keys, every key of the input, first occurrences in order. */
  lemma UniqueByProperties<T>(arr: seq<T>, key: T -> string)
    ensures var r := UniqueFrom(arr, key, {});
            && DistinctKeys(r, key)
            && KeysOf(r, key) == KeysOf(arr, key)
            && Subsequence(r, arr)
            && r == FirstOccurrences(arr, key)
  {
    UniqueFromKeys(arr, key, {});
    UniqueFromSubsequence(arr, key, {});
    UniqueIsFirstOccurrences(arr, key);
  }

  /** Items with distinct keys have as many keys as items. */
  lemma {:induction false} DistinctKeysCount<T>(s: seq<T>, key: T -> string)
    requires DistinctKeys(s, key)
    ensures |KeysOf(s, key)| == |s|
  {
    if s != [] {
      DistinctKeysCount(s[1..], key);
      if key(s[0]) in KeysOf(s[1..], key) {
        var j :| 0 <= j < |s[1..]| && key(s[1..][j]) == key(s[0]) by {
          KeysOfMembers(s[1..], key, key(s[0]));
        }
      }
    }
  }

  lemma {:induction false} KeysOfMembers<T>(s: seq<T>, key: T -> string, k: string)
    requires k in KeysOf(s, key)
    ensures exists j :: 0 <= j < |s| && key(s[j]) == k
  {
    if key(s[0]) != k {
      KeysOfMembers(s[1..], key, k);
      var j :| 0 <= j < |s[1..]| && key(s[1..][j]) == k;
      assert key(s[j + 1]) == k;
    }
  }
}
