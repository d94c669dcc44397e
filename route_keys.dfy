/**
 * The synthetic route-key generator of `buildGetSafeRouteKey`: a closure over
 * two counters (`currentCharCode`, `currentLength`) that hands out short
 * lower-case keys for parameters whose own names cannot serve as regular
 * expression group names. One generator is created per compiled route.
 */
module RouteKeys {

  /** Code unit of 'a'; the generator starts one below it. */
  const CharCodeA: int := 97
  /** Code unit of 'z'. */
  const CharCodeZ: int := 122

  /** The closure's two captured variables. */
  datatype KeyGenState = KeyGenState(currentCharCode: int, currentLength: int)

  /** The state `buildGetSafeRouteKey()` starts from. */
  const Initial: KeyGenState := KeyGenState(CharCodeA - 1, 1)

  /** The states the generator can be in between calls. */
  predicate ValidState(st: KeyGenState)
  {
    CharCodeA - 1 <= st.currentCharCode <= CharCodeZ && st.currentLength >= 1
  }

  predicate IsLowerKey(s: string) { forall i :: 0 <= i < |s| ==> 'a' <= s[i] <= 'z' }

  /**
   * The `for` loop of one call, from iteration `i` on: `code` and
   * `incrementNext` are the loop-carried variables, `result` the key built so
   * far (characters are prepended). Returns the final key, code and flag.
   */
  function KeyLoop(code: int, incrementNext: bool, i: int, len: int, result: string): (r: (string, int, bool))
    requires incrementNext ==> CharCodeA - 1 <= code <= CharCodeZ
    requires !incrementNext ==> CharCodeA <= code <= CharCodeZ
    requires 0 <= i <= len
    decreases len - i
    ensures |r.0| == |result| + len - i
    ensures IsLowerKey(result) ==> IsLowerKey(r.0)
    ensures CharCodeA - 1 <= r.1 <= CharCodeZ
    ensures i < len ==> CharCodeA <= r.1 <= CharCodeZ
    ensures i == len ==> r == (result, code, incrementNext)
  {
    if i == len then (result, code, incrementNext)
    else
      var code', next' :=
        if incrementNext then
          (if code + 1 > CharCodeZ then CharCodeA else code + 1)
        else code,
        if incrementNext then code + 1 > CharCodeZ else false;
      KeyLoop(code', next', i + 1, len, [code' as char] + result)
  }

  /**
   * One call of the generator: the key it returns and the state it leaves.
   * When the loop ends still wanting to increment, the length grows and the
   * code is reset to one below 'a'.
   */
  function NextKey(st: KeyGenState): (r: (string, KeyGenState))
    requires ValidState(st)
  {
    var (key, code, incrementNext) := KeyLoop(st.currentCharCode, true, 0, st.currentLength, "");
    if incrementNext then (key, KeyGenState(CharCodeA - 1, st.currentLength + 1))
    else (key, KeyGenState(code, st.currentLength))
  }

  /** Every call returns a non-empty key of lower-case letters, as long as the current length, and keeps the state valid. */
  lemma NextKeyShape(st: KeyGenState)
    requires ValidState(st)
    ensures |NextKey(st).0| == st.currentLength >= 1
    ensures IsLowerKey(NextKey(st).0)
    ensures ValidState(NextKey(st).1)
  {
  }

  /** The state after `n` calls of a fresh generator. */
  function StateAfter(n: nat): (st: KeyGenState)
    ensures ValidState(st)
  {
    if n == 0 then Initial else NextKey(StateAfter(n - 1)).1
  }

  /** The key returned by call number `n` (from 0) of a fresh generator. */
  function GeneratedKey(n: nat): (key: string)
  {
    NextKey(StateAfter(n)).0
  }

  /** After `n <= 26` calls the length is still 1 and the code stands `n` above its start. */
  lemma {:induction false} StateAfterFirstCalls(n: nat)
    requires n <= 26
    ensures StateAfter(n) == KeyGenState(CharCodeA - 1 + n, 1)
  {
    if n > 0 {
      StateAfterFirstCalls(n - 1);
    }
  }

  /** The first 26 calls return "a", "b", ..., "z" in order. */
  lemma FirstKeysAreLetters(n: nat)
    requires n < 26
    ensures GeneratedKey(n) == [(CharCodeA + n) as char]
  {
    StateAfterFirstCalls(n);
  }

  /**
   * Call 27 returns "a" once more (the carry resets the code but the key of
   * length 1 is already built), and only then does the length grow: calls 28
   * and 29 return "aa" and "bb".
   */
  lemma KeysAfterRollover()
    ensures GeneratedKey(26) == "a"
    ensures StateAfter(27) == KeyGenState(CharCodeA - 1, 2)
    ensures GeneratedKey(27) == "aa"
    ensures GeneratedKey(28) == "bb"
  {
    StateAfterFirstCalls(26);
    RolloverCall();
    assert StateAfter(27) == NextKey(StateAfter(26)).1;
    FirstCallOfLengthTwo();
    assert StateAfter(28) == NextKey(StateAfter(27)).1;
    SecondCallOfLengthTwo();
  }

  /** The call after "z": the key is "a" and the length grows to 2. */
  lemma RolloverCall()
    ensures NextKey(KeyGenState(CharCodeZ, 1)) == ("a", KeyGenState(CharCodeA - 1, 2))
  {
    assert [CharCodeA as char] + "" == "a";
    assert KeyLoop(CharCodeZ, true, 0, 1, "") == KeyLoop(CharCodeA, true, 1, 1, "a");
  }

  lemma FirstCallOfLengthTwo()
    ensures NextKey(KeyGenState(CharCodeA - 1, 2)) == ("aa", KeyGenState(CharCodeA, 2))
  {
    assert [CharCodeA as char] + "" == "a";
    assert KeyLoop(CharCodeA - 1, true, 0, 2, "") == KeyLoop(CharCodeA, false, 1, 2, "a");
    assert [CharCodeA as char] + "a" == "aa";
    assert KeyLoop(CharCodeA, false, 1, 2, "a") == KeyLoop(CharCodeA, false, 2, 2, "aa");
  }

  lemma SecondCallOfLengthTwo()
    ensures NextKey(KeyGenState(CharCodeA, 2)).0 == "bb"
  {
    assert [(CharCodeA + 1) as char] + "" == "b";
    assert KeyLoop(CharCodeA, true, 0, 2, "") == KeyLoop(CharCodeA + 1, false, 1, 2, "b");
    assert [(CharCodeA + 1) as char] + "b" == "bb";
    assert KeyLoop(CharCodeA + 1, false, 1, 2, "b") == KeyLoop(CharCodeA + 1, false, 2, 2, "bb");
  }

  /** The generator does not hand out distinct keys: calls 1 and 27 both return "a". */
  lemma GeneratorRepeatsKey()
    ensures GeneratedKey(0) == GeneratedKey(26) == "a"
  {
    FirstKeysAreLetters(0);
    KeysAfterRollover();
  }

  /** `buildGetSafeRouteKey()` and the closure it returns. */
  class SafeRouteKeyGenerator {
    var currentCharCode: int
    var currentLength: int

    ghost predicate Valid()
      reads this
    {
      ValidState(State())
    }

    function State(): KeyGenState
      reads this
    {
      KeyGenState(currentCharCode, currentLength)
    }

    constructor ()
      ensures Valid() && State() == Initial
    {
      currentCharCode := CharCodeA - 1;
      currentLength := 1;
    }

    /** One call of the closure. */
    method Next() returns (key: string)
      requires Valid()
      modifies this
      ensures Valid()
      ensures (key, State()) == NextKey(old(State()))
    {
      ghost var st := State();
      var result := "";
      var incrementNext := true;
      var i := 0;
      while i < currentLength
        invariant 0 <= i <= currentLength == st.currentLength
        invariant incrementNext ==> CharCodeA - 1 <= currentCharCode <= CharCodeZ
        invariant !incrementNext ==> CharCodeA <= currentCharCode <= CharCodeZ
        invariant KeyLoop(currentCharCode, incrementNext, i, currentLength, result)
               == KeyLoop(st.currentCharCode, true, 0, st.currentLength, "")
      {
        if incrementNext {
          currentCharCode := currentCharCode + 1;
          if currentCharCode > CharCodeZ {
            currentCharCode := CharCodeA;
            incrementNext := true;
          } else {
            incrementNext := false;
          }
        }
        result := [currentCharCode as char] + result;
        i := i + 1;
      }
      if incrementNext {
        currentLength := currentLength + 1;
        currentCharCode := CharCodeA - 1;
      }
      key := result;
    }
  }

  // ---------------------------------------------------------------------------
  // The intended sequence a, ..., z, aa, ab, ...: a bijective base-26 numeral.
  // ---------------------------------------------------------------------------

  /** Key number `n` of the sequence a, b, ..., z, aa, ab, ..., az, ba, .... */
  function IntendedKey(n: nat): (key: string)
    ensures |key| >= 1 && IsLowerKey(key)
    decreases n
  {
    if n < 26 then [(CharCodeA + n) as char]
    else IntendedKey(n / 26 - 1) + [(CharCodeA + n % 26) as char]
  }

  /** The position of a lower-case key in that sequence. */
  function IntendedIndex(key: string): nat
    requires |key| >= 1 && IsLowerKey(key)
    decreases |key|
  {
    var last := (key[|key| - 1] as int) - CharCodeA;
    if |key| == 1 then last else (IntendedIndex(key[..|key| - 1]) + 1) * 26 + last
  }

  lemma {:induction false} IntendedIndexOfKey(n: nat)
    ensures IntendedIndex(IntendedKey(n)) == n
    decreases n
  {
    if n >= 26 {
      IntendedIndexOfKey(n / 26 - 1);
      var key := IntendedKey(n);
      assert key[..|key| - 1] == IntendedKey(n / 26 - 1);
    }
  }

  /** The intended sequence never repeats a key. */
  lemma IntendedKeysDistinct(n: nat, m: nat)
    requires n != m
    ensures IntendedKey(n) != IntendedKey(m)
  {
    IntendedIndexOfKey(n);
    IntendedIndexOfKey(m);
  }

  /** It starts a, ..., z and continues aa, ab. */
  lemma IntendedKeysStart(n: nat)
    requires n < 26
    ensures IntendedKey(n) == [(CharCodeA + n) as char]
    ensures IntendedKey(26) == "aa" && IntendedKey(27) == "ab"
  {
  }
}
