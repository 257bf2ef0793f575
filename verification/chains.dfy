/** Ordered fallback chains: every provider is tried in turn and the first one
    that produces something wins. */
module Chains {
  import opened Wrappers

  /** True when no option before index `i` holds a value. */
  predicate NoneBefore<T>(options: seq<Option<T>>, i: int)
    requires 0 <= i <= |options|
  {
    forall j :: 0 <= j < i ==> options[j].None?
  }

  /** The value of the first option that has one, or `None` when all are empty. */
  function FirstSome<T>(options: seq<Option<T>>): (r: Option<T>)
    ensures r.None? <==> NoneBefore(options, |options|)
    ensures r.Some? ==> exists i :: 0 <= i < |options| && options[i] == r && NoneBefore(options, i)
  {
    if |options| == 0 then None
    else if options[0].Some? then
      assert NoneBefore(options, 0);
      options[0]
    else
      var rest := FirstSome(options[1..]);
      assert forall j :: 1 <= j <= |options| ==> (NoneBefore(options, j) <==> NoneBefore(options[1..], j - 1));
      rest
  }

  /** A chain whose last step always produces a value: it never comes back empty. */
  function FirstSomeOr<T>(options: seq<Option<T>>, last: T): (r: T)
    ensures NoneBefore(options, |options|) ==> r == last
    ensures !NoneBefore(options, |options|) ==>
      exists i :: 0 <= i < |options| && options[i] == Some(r) && NoneBefore(options, i)
  {
    FirstSome(options).GetOr(last)
  }
}
