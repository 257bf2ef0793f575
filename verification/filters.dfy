/** `forEach` with a condition and a `push`: the elements that pass a test,
    each turned into an output element, in their original order. */
module Filters {
  import opened Dedup

  /** Every element turned into an output element. */
  function MapAll<A, B>(xs: seq<A>, f: A -> B): (r: seq<B>)
    ensures |r| == |xs|
    ensures forall i :: 0 <= i < |xs| ==> r[i] == f(xs[i])
  {
    seq(|xs|, i requires 0 <= i < |xs| => f(xs[i]))
  }

  /** The outputs of exactly the elements that pass `keep`, in order: every
      output comes from a passing element and every passing element gives
      its output. */
  function FilterMap<A, B(==)>(xs: seq<A>, keep: A -> bool, f: A -> B): (r: seq<B>)
    ensures IsSubsequence(r, MapAll(xs, f))
    ensures forall i :: 0 <= i < |r| ==> exists x :: x in xs && keep(x) && r[i] == f(x)
    ensures forall x :: x in xs && keep(x) ==> f(x) in r
  {
    if |xs| == 0 then []
    else
      var rest := FilterMap(xs[1..], keep, f);
      assert MapAll(xs, f)[1..] == MapAll(xs[1..], f);
      var r := if keep(xs[0]) then [f(xs[0])] + rest else rest;
      assert forall i :: 0 <= i < |r| ==> exists x :: x in xs && keep(x) && r[i] == f(x) by {
        forall i | 0 <= i < |r| ensures exists x :: x in xs && keep(x) && r[i] == f(x) {
          if keep(xs[0]) && i == 0 {
            assert xs[0] in xs;
          } else {
            var j := if keep(xs[0]) then i - 1 else i;
            assert r[i] == rest[j];
            var x :| x in xs[1..] && keep(x) && rest[j] == f(x);
            assert x in xs;
          }
        }
      }
      assert forall x :: x in xs && keep(x) ==> f(x) in r by {
        forall x | x in xs && keep(x) ensures f(x) in r {
          if x != xs[0] {
            assert x in xs[1..];
          }
        }
      }
      assert keep(xs[0]) ==> r[1..] == rest;
      r
  }

  /** A one-element list gives its element's output iff the element passes. */
  lemma FilterMapSingle<A, B>(x: A, keep: A -> bool, f: A -> B)
    ensures FilterMap([x], keep, f) == if keep(x) then [f(x)] else []
  {
    assert [x][1..] == [];
  }

  /** Filtering a concatenation filters each part: with `FilterMapSingle` this fixes the result, one output per passing element,
      duplicates included, in input order. */
  lemma {:induction false} FilterMapAppend<A, B>(a: seq<A>, b: seq<A>, keep: A -> bool, f: A -> B)
    ensures FilterMap(a + b, keep, f) == FilterMap(a, keep, f) + FilterMap(b, keep, f)
    decreases |a|
  {
    if |a| > 0 {
      assert a + b == [a[0]] + (a[1..] + b);
      assert a == [a[0]] + a[1..];
      FilterMapCons(a[0], a[1..] + b, keep, f);
      FilterMapCons(a[0], a[1..], keep, f);
      FilterMapAppend(a[1..], b, keep, f);
    } else {
      assert a + b == b;
    }
  }

  /** The first element's output, if it passes, followed by the rest's. */
  lemma FilterMapCons<A, B>(x: A, t: seq<A>, keep: A -> bool, f: A -> B)
    ensures FilterMap([x] + t, keep, f) == (if keep(x) then [f(x)] else []) + FilterMap(t, keep, f)
  {
    assert ([x] + t)[0] == x;
    assert ([x] + t)[1..] == t;
  }

  /** A passing element that occurs twice gives its output twice. */
  lemma DuplicatesKept<A, B>(x: A, keep: A -> bool, f: A -> B)
    ensures keep(x) ==> FilterMap([x, x], keep, f) == [f(x), f(x)]
  {
    FilterMapAppend([x], [x], keep, f);
    FilterMapSingle(x, keep, f);
    assert [x] + [x] == [x, x];
  }
}
