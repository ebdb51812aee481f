/**
 Shared vocabulary: an optional value (JavaScript's `null`/`undefined` versus a
 value) and the sequence operations the pages perform on lists
 (`Array.prototype.filter`, `includes`, `find`).
 */
module Base {

  datatype Option<+T> = None | Some(value: T)

  /** `xs.filter(p)`: the elements of `xs` that satisfy `p`, in their original order. */
  function Keep<T(==,!new)>(xs: seq<T>, p: T -> bool): (r: seq<T>)
    ensures |r| <= |xs|
    ensures forall x :: x in r <==> x in xs && p(x)
  {
    if |xs| == 0 then []
    else
      var rest := Keep(xs[1..], p);
      assert forall x :: x in xs <==> x == xs[0] || x in xs[1..];
      if p(xs[0]) then [xs[0]] + rest else rest
  }

  /**
   `Keep` is the order-preserving selection of exactly the satisfying
   elements: a subsequence that keeps every satisfying value as often as it
   occurs and no other value.
   */
  lemma {:induction false} KeepIsSelection<T(!new)>(xs: seq<T>, p: T -> bool)
    ensures IsSubsequence(Keep(xs, p), xs)
    ensures forall x :: p(x) ==> multiset(Keep(xs, p))[x] == multiset(xs)[x]
    ensures forall x :: !p(x) ==> multiset(Keep(xs, p))[x] == 0
  {
    if |xs| > 0 {
      KeepIsSelection(xs[1..], p);
      assert xs == [xs[0]] + xs[1..];
      assert multiset(xs) == multiset{xs[0]} + multiset(xs[1..]);
      if p(xs[0]) {
        var r := Keep(xs, p);
        assert r[1..] == Keep(xs[1..], p);
      } else {
        SubsequenceOfTail(Keep(xs[1..], p), xs);
      }
    }
  }

  /** Adding an element in front of a list keeps every subsequence of it a subsequence. */
  lemma {:induction false} SubsequenceOfTail<T>(sub: seq<T>, xs: seq<T>)
    requires |xs| > 0 && IsSubsequence(sub, xs[1..])
    ensures IsSubsequence(sub, xs)
    decreases |sub| + |xs|, 1
  {
    if |sub| > 0 && sub[0] == xs[0] {
      DropHead(sub, xs[1..]);
    }
  }

  /** Dropping the first element of a subsequence leaves a subsequence. */
  lemma {:induction false} DropHead<T>(sub: seq<T>, ys: seq<T>)
    requires |sub| > 0 && IsSubsequence(sub, ys)
    ensures IsSubsequence(sub[1..], ys)
    decreases |sub| + |ys|, 0
  {
    if sub[0] == ys[0] {
      if |sub[1..]| > 0 {
        SubsequenceOfTail(sub[1..], ys);
      }
    } else {
      DropHead(sub, ys[1..]);
      if |sub[1..]| > 0 {
        SubsequenceOfTail(sub[1..], ys);
      }
    }
  }

  /** `sub` can be obtained from `xs` by deleting elements: it keeps their relative order. */
  predicate IsSubsequence<T(==)>(sub: seq<T>, xs: seq<T>)
    decreases |xs|
  {
    if |sub| == 0 then true
    else if |xs| == 0 then false
    else if sub[0] == xs[0] then IsSubsequence(sub[1..], xs[1..])
    else IsSubsequence(sub, xs[1..])
  }

  /** No value occurs twice. */
  predicate NoDup<T(==)>(xs: seq<T>)
  {
    forall i, j :: 0 <= i < j < |xs| ==> xs[i] != xs[j]
  }

  /** `xs.find(p)`: the first element satisfying `p`, if any. */
  function Find<T(==,!new)>(xs: seq<T>, p: T -> bool): (r: Option<T>)
    ensures r.None? <==> forall x :: x in xs ==> !p(x)
    ensures r.Some? ==> r.value in xs && p(r.value)
    ensures r.Some? ==> exists i :: 0 <= i < |xs| && xs[i] == r.value && forall j :: 0 <= j < i ==> !p(xs[j])
  {
    if |xs| == 0 then None
    else if p(xs[0]) then Some(xs[0])
    else
      var r := Find(xs[1..], p);
      assert forall x :: x in xs[1..] ==> x in xs;
      assert xs == [xs[0]] + xs[1..];
      if r.Some? then
        var i :| 0 <= i < |xs[1..]| && xs[1..][i] == r.value && forall j :: 0 <= j < i ==> !p(xs[1..][j]);
        assert xs[i + 1] == r.value;
        assert forall j :: 0 <= j < i + 1 ==> !p(xs[j]) by {
          forall j | 0 <= j < i + 1 ensures !p(xs[j]) {
            if j > 0 { assert xs[j] == xs[1..][j - 1]; }
          }
        }
        r
      else r
  }

  /** Looking one element further: an earlier match stays, otherwise the new element is tried. */
  lemma {:induction false} FindAppend<T(!new)>(xs: seq<T>, x: T, p: T -> bool)
    ensures Find(xs + [x], p) == if Find(xs, p).Some? then Find(xs, p) else if p(x) then Some(x) else None
  {
    if |xs| > 0 {
      assert (xs + [x])[1..] == xs[1..] + [x];
      FindAppend(xs[1..], x, p);
    } else {
      assert xs + [x] == [x];
    }
  }

  /** Filtering by `q` and then by a stronger `p` is filtering by `p`. */
  lemma {:induction false} KeepTwice<T(!new)>(xs: seq<T>, p: T -> bool, q: T -> bool)
    requires forall x :: p(x) ==> q(x)
    ensures Keep(Keep(xs, q), p) == Keep(xs, p)
  {
    if |xs| > 0 {
      KeepTwice(xs[1..], p, q);
      if q(xs[0]) {
        assert ([xs[0]] + Keep(xs[1..], q))[1..] == Keep(xs[1..], q);
      }
    }
  }
}
