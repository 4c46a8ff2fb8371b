/** `Array.prototype.map`, `filter` and `find` on sequences, with the laws the screens rely on. */
module Seqs {
  import opened Wrappers

  /** `s.map(f)`. */
  function Map<A, B>(s: seq<A>, f: A -> B): (r: seq<B>)
    ensures |r| == |s|
    ensures forall i :: 0 <= i < |s| ==> r[i] == f(s[i])
  {
    seq(|s|, i requires 0 <= i < |s| => f(s[i]))
  }

  /** `s.filter(f)`: the elements that satisfy `f`, in the order of `s`. */
  function Filter<T>(s: seq<T>, f: T -> bool): (r: seq<T>)
    ensures |r| <= |s|
    ensures forall i :: 0 <= i < |r| ==> f(r[i])
  {
    if |s| == 0 then []
    else (if f(s[0]) then [s[0]] else []) + Filter(s[1..], f)
  }

  /** An element is in the filtered sequence exactly when it is in `s` and passes. */
  lemma {:induction false} FilterMembers<T>(s: seq<T>, f: T -> bool)
    ensures forall i :: 0 <= i < |Filter(s, f)| ==> Filter(s, f)[i] in s
    ensures forall i :: 0 <= i < |s| && f(s[i]) ==> s[i] in Filter(s, f)
  {
    if |s| > 0 {
      var tail := s[1..];
      FilterMembers(tail, f);
      assert forall i :: 1 <= i < |s| ==> s[i] == tail[i - 1];
    }
  }

  /** The index of the element `s.find(f)` returns: the first element that passes, `None` when none does. */
  function Find<T>(s: seq<T>, f: T -> bool): (r: Option<nat>)
    ensures r.None? <==> forall i :: 0 <= i < |s| ==> !f(s[i])
    ensures r.Some? ==> r.value < |s| && f(s[r.value])
    ensures r.Some? ==> forall i :: 0 <= i < r.value ==> !f(s[i])
  {
    if |s| == 0 then None
    else if f(s[0]) then Some(0)
    else
      var tail := s[1..];
      assert forall i :: 1 <= i < |s| ==> s[i] == tail[i - 1];
      match Find(tail, f)
      case None => None
      case Some(k) => Some(k + 1)
  }

  /** Filtering distributes over concatenation: the order of the kept elements is that of `s`. */
  lemma {:induction false} FilterConcat<T>(a: seq<T>, b: seq<T>, f: T -> bool)
    ensures Filter(a + b, f) == Filter(a, f) + Filter(b, f)
  {
    if |a| > 0 {
      assert (a + b)[0] == a[0];
      assert (a + b)[1..] == a[1..] + b;
      FilterConcat(a[1..], b, f);
    } else {
      assert a + b == b;
    }
  }

  /** A filter that keeps every element leaves the sequence as it is. */
  lemma {:induction false} FilterKeepsAll<T>(s: seq<T>, f: T -> bool)
    requires forall i :: 0 <= i < |s| ==> f(s[i])
    ensures Filter(s, f) == s
  {
    if |s| > 0 {
      assert f(s[0]);
      FilterKeepsAll(s[1..], f);
    }
  }

  /** Two tests that agree on every element of `s` keep the same elements. */
  lemma {:induction false} FilterAgree<T>(s: seq<T>, f: T -> bool, g: T -> bool)
    requires forall i :: 0 <= i < |s| ==> f(s[i]) == g(s[i])
    ensures Filter(s, f) == Filter(s, g)
  {
    if |s| > 0 {
      var tail := s[1..];
      forall i | 0 <= i < |tail| ensures f(tail[i]) == g(tail[i]) {
        assert tail[i] == s[i + 1];
      }
      FilterAgree(tail, f, g);
    }
  }

  /** Filtering a sequence with a known first element. */
  lemma FilterCons<T>(x: T, t: seq<T>, f: T -> bool)
    ensures Filter([x] + t, f) == (if f(x) then [x] else []) + Filter(t, f)
  {
    var s := [x] + t;
    assert s[0] == x && s[1..] == t;
  }

  /** A filter that keeps everything around a rejected element `x` deletes just `x`. */
  lemma {:induction false} FilterAround<T>(before: seq<T>, x: T, after: seq<T>, f: T -> bool)
    requires !f(x)
    requires forall k :: 0 <= k < |before| ==> f(before[k])
    requires forall k :: 0 <= k < |after| ==> f(after[k])
    ensures Filter(before + ([x] + after), f) == before + after
  {
    var rest := [x] + after;
    if |before| == 0 {
      assert before + rest == rest && before + after == after;
      FilterCons(x, after, f);
      FilterKeepsAll(after, f);
    } else {
      var tail := before[1..];
      assert before + rest == [before[0]] + (tail + rest);
      assert f(before[0]);
      FilterCons(before[0], tail + rest, f);
      FilterAround(tail, x, after, f);
      assert [before[0]] + (tail + after) == before + after;
    }
  }

  /** A filter that rejects exactly the element at `i` deletes that element and keeps the order of the rest. */
  lemma FilterRejectsOne<T>(s: seq<T>, i: nat, f: T -> bool)
    requires i < |s| && !f(s[i])
    requires forall k :: 0 <= k < |s| && k != i ==> f(s[k])
    ensures Filter(s, f) == s[..i] + s[i + 1..]
  {
    var before, after := s[..i], s[i + 1..];
    assert s == before + ([s[i]] + after);
    forall k | 0 <= k < |before| ensures f(before[k]) {
      assert before[k] == s[k];
    }
    forall k | 0 <= k < |after| ensures f(after[k]) {
      assert after[k] == s[i + 1 + k];
    }
    FilterAround(before, s[i], after, f);
  }

  /** A sequence split around the element at `i`, as it is and with that element replaced. */
  lemma SplitAt<T>(s: seq<T>, i: nat, x: T)
    requires i < |s|
    ensures s == s[..i] + [s[i]] + s[i + 1..]
    ensures s[i := x] == s[..i] + [x] + s[i + 1..]
  {
  }

  /** Filtering twice with the same test is filtering once. */
  lemma {:induction false} FilterIdempotent<T>(s: seq<T>, f: T -> bool)
    ensures Filter(Filter(s, f), f) == Filter(s, f)
  {
    var r := Filter(s, f);
    FilterKeepsAll(r, f);
  }
}
