/** The two pure array operations the screens apply to their lists:
    `list.filter(x => key(x) !== k)` and `list.map(x => key(x) === k ? v : x)`. */
module Collections {

  /** The elements of `s` whose key differs from `k`, in their original order. */
  function Without<T, K(==)>(s: seq<T>, key: T -> K, k: K): (r: seq<T>)
    ensures |r| <= |s|
    ensures forall i :: 0 <= i < |r| ==> r[i] in s && key(r[i]) != k
    ensures forall i :: 0 <= i < |s| && key(s[i]) != k ==> s[i] in r
  {
    if s == [] then []
    else if key(s[0]) == k then Without(s[1..], key, k)
    else [s[0]] + Without(s[1..], key, k)
  }

  /** `s` with every element whose key is `k` replaced by `v`. */
  function ReplaceWhere<T, K(==)>(s: seq<T>, key: T -> K, k: K, v: T): (r: seq<T>)
    ensures |r| == |s|
    ensures forall i :: 0 <= i < |s| ==> r[i] == if key(s[i]) == k then v else s[i]
  {
    if s == [] then []
    else [if key(s[0]) == k then v else s[0]] + ReplaceWhere(s[1..], key, k, v)
  }

  /** Filtering distributes over concatenation: what survives keeps its relative order. */
  lemma {:induction false} WithoutAppend<T, K>(a: seq<T>, b: seq<T>, key: T -> K, k: K)
    ensures Without(a + b, key, k) == Without(a, key, k) + Without(b, key, k)
  {
    if a == [] {
      assert a + b == b;
    } else {
      assert (a + b)[1..] == a[1..] + b;
      WithoutAppend(a[1..], b, key, k);
    }
  }

  /** Nothing is removed when no element carries the key. */
  lemma {:induction false} WithoutNoMatch<T, K>(s: seq<T>, key: T -> K, k: K)
    requires forall i :: 0 <= i < |s| ==> key(s[i]) != k
    ensures Without(s, key, k) == s
  {
    if s != [] {
      WithoutNoMatch(s[1..], key, k);
    }
  }

  /** Everything is removed when every element carries the key. */
  lemma WithoutAllMatch<T, K>(s: seq<T>, key: T -> K, k: K)
    requires forall i :: 0 <= i < |s| ==> key(s[i]) == k
    ensures Without(s, key, k) == []
  {
  }

  /** A second filter with the same key removes nothing more. */
  lemma WithoutIdempotent<T, K>(s: seq<T>, key: T -> K, k: K)
    ensures Without(Without(s, key, k), key, k) == Without(s, key, k)
  {
    var r := Without(s, key, k);
    WithoutNoMatch(r, key, k);
  }

  /** Nothing is replaced when no element carries the key. */
  lemma ReplaceWhereNoMatch<T, K>(s: seq<T>, key: T -> K, k: K, v: T)
    requires forall i :: 0 <= i < |s| ==> key(s[i]) != k
    ensures ReplaceWhere(s, key, k, v) == s
  {
  }

  /** Replacing a second time with the same key and value changes nothing more. */
  lemma ReplaceWhereIdempotent<T, K>(s: seq<T>, key: T -> K, k: K, v: T)
    ensures ReplaceWhere(ReplaceWhere(s, key, k, v), key, k, v) == ReplaceWhere(s, key, k, v)
  {
  }

  /** When the replacement carries the key it replaces, the entries with other keys are
      exactly those of the original list, in the same order: only the matching entries
      are touched. */
  lemma {:induction false} ReplaceWhereKeepsOthers<T, K>(s: seq<T>, key: T -> K, k: K, v: T)
    requires key(v) == k
    ensures Without(ReplaceWhere(s, key, k, v), key, k) == Without(s, key, k)
  {
    if s != [] {
      var r := ReplaceWhere(s, key, k, v);
      assert r[1..] == ReplaceWhere(s[1..], key, k, v);
      ReplaceWhereKeepsOthers(s[1..], key, k, v);
    }
  }
}
