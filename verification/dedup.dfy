/** First-occurrence de-duplication: the `filter` over a `Set` of seen keys
    that both news pipelines use, and `[...new Set(xs)]`. */
module Dedup {

  /** The keys of all elements of `xs`. */
  function KeysOf<T, K>(xs: seq<T>, key: T -> K): set<K> {
    set i | 0 <= i < |xs| :: key(xs[i])
  }

  /** No two elements of `xs` share a key. */
  predicate DistinctKeys<T, K(==)>(xs: seq<T>, key: T -> K) {
    forall i, j :: 0 <= i < j < |xs| ==> key(xs[i]) != key(xs[j])
  }

  /** `a` is `b` with some elements dropped and the rest in their original order. */
  predicate IsSubsequence<T(==)>(a: seq<T>, b: seq<T>)
    decreases |b|
  {
    |a| == 0 || (|b| > 0 && ((a[0] == b[0] && IsSubsequence(a[1..], b[1..])) || IsSubsequence(a, b[1..])))
  }

  /** The filter run with the set `seen` of keys already met: an element is kept
      when its key is new, and its key is then remembered. */
  function DedupFrom<T(==), K(==)>(xs: seq<T>, key: T -> K, seen: set<K>): (r: seq<T>)
    ensures IsSubsequence(r, xs)
    ensures DistinctKeys(r, key)
    ensures KeysOf(r, key) == KeysOf(xs, key) - seen
  {
    if |xs| == 0 then []
    else
      var rest := xs[1..];
      assert KeysOf(xs, key) == {key(xs[0])} + KeysOf(rest, key) by {
        assert forall i :: 1 <= i < |xs| ==> xs[i] == rest[i - 1];
      }
      if key(xs[0]) in seen then
        var r := DedupFrom(rest, key, seen);
        r
      else
        var r' := DedupFrom(rest, key, seen + {key(xs[0])});
        var r := [xs[0]] + r';
        assert r[1..] == r';
        assert KeysOf(r, key) == {key(xs[0])} + KeysOf(r', key) by {
          assert forall i :: 1 <= i < |r| ==> r[i] == r'[i - 1];
          assert forall i :: 0 <= i < |r'| ==> r'[i] == r[i + 1];
          assert r[0] == xs[0];
        }
        assert forall j :: 0 < j < |r| ==> key(r[j]) in KeysOf(r', key) by {
          forall j | 0 < j < |r| ensures key(r[j]) in KeysOf(r', key) {
            assert r[j] == r'[j - 1];
          }
        }
        r
  }

  /** `xs` with every element dropped whose key an earlier element already had. */
  function FirstByKey<T(==), K(==)>(xs: seq<T>, key: T -> K): (r: seq<T>)
    ensures IsSubsequence(r, xs)
    ensures DistinctKeys(r, key)
    ensures KeysOf(r, key) == KeysOf(xs, key)
  {
    DedupFrom(xs, key, {})
  }

  /** Reference definition, read from the right: the last element survives
      exactly when no element before it has its key. */
  ghost function FirstOccurrences<T, K>(xs: seq<T>, key: T -> K): seq<T>
    decreases |xs|
  {
    if |xs| == 0 then []
    else
      var init := xs[..|xs| - 1];
      var last := xs[|xs| - 1];
      FirstOccurrences(init, key) + (if key(last) in KeysOf(init, key) then [] else [last])
  }

  /** Appending one element to the input appends it to the output exactly
      when its key is new. */
  lemma {:induction false} DedupSnoc<T, K>(xs: seq<T>, x: T, key: T -> K, seen: set<K>)
    ensures DedupFrom(xs + [x], key, seen)
         == DedupFrom(xs, key, seen) + (if key(x) in seen + KeysOf(xs, key) then [] else [x])
    decreases |xs|
  {
    if |xs| == 0 {
      assert xs + [x] == [x];
      assert KeysOf(xs, key) == {};
      assert [x][1..] == [];
    } else {
      var rest := xs[1..];
      assert (xs + [x])[0] == xs[0];
      assert (xs + [x])[1..] == rest + [x];
      assert KeysOf(xs, key) == {key(xs[0])} + KeysOf(rest, key) by {
        assert forall i :: 1 <= i < |xs| ==> xs[i] == rest[i - 1];
      }
      if key(xs[0]) in seen {
        DedupSnoc(rest, x, key, seen);
      } else {
        DedupSnoc(rest, x, key, seen + {key(xs[0])});
      }
    }
  }

  /** The filter keeps exactly the first occurrence of every key. */
  lemma {:induction false} FirstByKeyIsFirstOccurrences<T, K>(xs: seq<T>, key: T -> K)
    ensures FirstByKey(xs, key) == FirstOccurrences(xs, key)
    decreases |xs|
  {
    if |xs| > 0 {
      var init := xs[..|xs| - 1];
      assert xs == init + [xs[|xs| - 1]];
      FirstByKeyIsFirstOccurrences(init, key);
      DedupSnoc(init, xs[|xs| - 1], key, {});
    }
  }

  /** Input already free of duplicates (and of seen keys) passes unchanged. */
  lemma {:induction false} DedupFromDistinct<T, K>(xs: seq<T>, key: T -> K, seen: set<K>)
    requires DistinctKeys(xs, key)
    requires KeysOf(xs, key) !! seen
    ensures DedupFrom(xs, key, seen) == xs
    decreases |xs|
  {
    if |xs| > 0 {
      var rest := xs[1..];
      assert key(xs[0]) in KeysOf(xs, key);
      assert KeysOf(rest, key) <= KeysOf(xs, key) by {
        assert forall i :: 0 <= i < |rest| ==> rest[i] == xs[i + 1];
      }
      assert key(xs[0]) !in KeysOf(rest, key) by {
        assert forall i :: 0 <= i < |rest| ==> rest[i] == xs[i + 1];
      }
      DedupFromDistinct(rest, key, seen + {key(xs[0])});
    }
  }

  /** De-duplicating twice is the same as de-duplicating once. */
  lemma FirstByKeyIdempotent<T, K>(xs: seq<T>, key: T -> K)
    ensures FirstByKey(FirstByKey(xs, key), key) == FirstByKey(xs, key)
  {
    DedupFromDistinct(FirstByKey(xs, key), key, {});
  }

  /** A subsequence is no longer than the sequence it comes from. */
  lemma {:induction false} SubsequenceLength<T>(a: seq<T>, b: seq<T>)
    requires IsSubsequence(a, b)
    ensures |a| <= |b|
    decreases |b|
  {
    if |a| > 0 {
      if a[0] == b[0] && IsSubsequence(a[1..], b[1..]) {
        SubsequenceLength(a[1..], b[1..]);
      } else {
        SubsequenceLength(a, b[1..]);
      }
    }
  }

  /** Every element of a subsequence is an element of the sequence. */
  lemma {:induction false} SubsequenceMembers<T>(a: seq<T>, b: seq<T>, x: T)
    requires IsSubsequence(a, b) && x in a
    ensures x in b
    decreases |b|
  {
    if a[0] == b[0] && IsSubsequence(a[1..], b[1..]) {
      if x != a[0] {
        SubsequenceMembers(a[1..], b[1..], x);
      }
    } else {
      SubsequenceMembers(a, b[1..], x);
    }
  }
}
