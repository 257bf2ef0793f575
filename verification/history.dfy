/** The 24-hour window both server histories keep: entries whose timestamp
    is strictly after a cutoff survive, in their original order. */
module History {
  import opened Dedup

  const DayMs: int := 24 * 60 * 60 * 1000

  /** The entries of `entries` stamped strictly after `cutoff`. */
  function KeepAfter<T(==)>(entries: seq<T>, time: T -> int, cutoff: int): (r: seq<T>)
    ensures IsSubsequence(r, entries)
    ensures forall i :: 0 <= i < |r| ==> time(r[i]) > cutoff
    ensures forall x :: x in entries && time(x) > cutoff ==> x in r
  {
    if |entries| == 0 then []
    else
      var rest := KeepAfter(entries[1..], time, cutoff);
      assert forall x :: x in entries ==> x == entries[0] || x in entries[1..];
      if time(entries[0]) > cutoff then
        var r := [entries[0]] + rest;
        assert r[1..] == rest;
        r
      else rest
  }

  /** Filtering an appended history is filtering each part. */
  lemma {:induction false} KeepAfterAppend<T>(a: seq<T>, b: seq<T>, time: T -> int, cutoff: int)
    ensures KeepAfter(a + b, time, cutoff) == KeepAfter(a, time, cutoff) + KeepAfter(b, time, cutoff)
    decreases |a|
  {
    if |a| > 0 {
      assert (a + b)[1..] == a[1..] + b;
      KeepAfterAppend(a[1..], b, time, cutoff);
    } else {
      assert a + b == b;
    }
  }

  /** Appending one entry adds it to the filtered list exactly when it is
      newer than the cutoff. */
  lemma KeepAfterAppendOne<T>(entries: seq<T>, x: T, time: T -> int, cutoff: int)
    ensures KeepAfter(entries + [x], time, cutoff)
         == KeepAfter(entries, time, cutoff) + (if time(x) > cutoff then [x] else [])
  {
    KeepAfterAppend(entries, [x], time, cutoff);
    assert [x][1..] == [];
  }

  /** A new entry stamped after the cutoff ends the filtered history. */
  lemma NewestEntryKept<T>(history: seq<T>, entry: T, time: T -> int, cutoff: int)
    requires time(entry) > cutoff
    ensures var r := KeepAfter(history + [entry], time, cutoff);
            |r| > 0 && r[|r| - 1] == entry && r[..|r| - 1] == KeepAfter(history, time, cutoff)
  {
    KeepAfterAppend(history, [entry], time, cutoff);
    assert KeepAfter([entry], time, cutoff) == [entry];
  }

  /** Filtering twice with the same cutoff changes nothing more. */
  lemma {:induction false} KeepAfterIdempotent<T>(entries: seq<T>, time: T -> int, cutoff: int)
    ensures KeepAfter(KeepAfter(entries, time, cutoff), time, cutoff) == KeepAfter(entries, time, cutoff)
    decreases |entries|
  {
    if |entries| > 0 {
      KeepAfterIdempotent(entries[1..], time, cutoff);
      var rest := KeepAfter(entries[1..], time, cutoff);
      if time(entries[0]) > cutoff {
        assert ([entries[0]] + rest)[1..] == rest;
      }
    }
  }
}
