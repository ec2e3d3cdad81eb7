/** The two array operations of JavaScript that the CLI leans on:
    `Array.prototype.filter` and `Array.prototype.slice(0, end)`. */
module Seqs {

  /** `s.filter(keep)`: the elements that pass, in their original order. */
  function Filter<T(==,!new)>(s: seq<T>, keep: T -> bool): (r: seq<T>)
    ensures |r| <= |s|
    ensures forall x :: x in r <==> x in s && keep(x)
    decreases |s|
  {
    if |s| == 0 then []
    else (if keep(s[0]) then [s[0]] else []) + Filter(s[1..], keep)
  }

  /** Filtering distributes over concatenation, so the kept elements stay in
      the order they had in the input. */
  lemma {:induction false} FilterConcat<T(!new)>(a: seq<T>, b: seq<T>, keep: T -> bool)
    ensures Filter(a + b, keep) == Filter(a, keep) + Filter(b, keep)
    decreases |a|
  {
    if |a| == 0 {
      assert a + b == b;
    } else {
      assert (a + b)[1..] == a[1..] + b;
      FilterConcat(a[1..], b, keep);
    }
  }

  /** The first element of a filtered sequence is the first element that
      passes. */
  lemma {:induction false} FilterFirst<T(!new)>(s: seq<T>, keep: T -> bool, k: nat)
    requires k < |s| && keep(s[k])
    requires forall j :: 0 <= j < k ==> !keep(s[j])
    ensures |Filter(s, keep)| > 0 && Filter(s, keep)[0] == s[k]
    decreases k
  {
    if k > 0 {
      FilterFirst(s[1..], keep, k - 1);
    }
  }

  /** The end index that `slice(0, end)` uses on an array of length `len`:
      a negative end counts back from the end of the array, and both ends are
      clamped to the array. */
  function SliceEnd(len: nat, end: int): (k: nat)
    ensures k <= len
  {
    if end < 0 then (if len + end < 0 then 0 else len + end)
    else if end > len then len
    else end
  }

  /** `s.slice(0, limit)`. */
  function TakeLimit<T>(s: seq<T>, limit: int): seq<T>
  {
    s[..SliceEnd(|s|, limit)]
  }

  /** A non-negative limit keeps exactly the first `min(limit, |s|)` elements;
      a negative one drops `-limit` elements from the end. */
  lemma TakeLimitSpec<T>(s: seq<T>, limit: int)
    ensures TakeLimit(s, limit) == s[..|TakeLimit(s, limit)|]
    ensures 0 <= limit <= |s| ==> |TakeLimit(s, limit)| == limit
    ensures limit > |s| ==> TakeLimit(s, limit) == s
    ensures limit < 0 ==> |TakeLimit(s, limit)| == if |s| + limit < 0 then 0 else |s| + limit
  {
  }

}
