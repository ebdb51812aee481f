/**
 The multi-select lists of the channel and event pickers: clicking an item
 removes it when it is selected and appends it otherwise.
 */
module Selection {
  import opened Base

  /** `xs.filter(e => e !== x)`: the list with every occurrence of `x` removed. */
  function Without(xs: seq<string>, x: string): seq<string>
  {
    Keep(xs, y => y != x)
  }

  /** `prev.includes(x) ? prev.filter(e => e !== x) : [...prev, x]` */
  function Toggle(xs: seq<string>, x: string): (r: seq<string>)
    ensures (x in r) <==> (x !in xs)
    ensures forall y :: y != x ==> (y in r <==> y in xs)
    ensures x !in xs ==> r == xs + [x]
    ensures x in xs ==> r == Without(xs, x)
  {
    if x in xs then Without(xs, x) else xs + [x]
  }

  /**
   Deselecting removes every occurrence of the item and nothing else: the
   rest of the list keeps its order and its repeats.
   */
  lemma ToggleRemovesOnlyItem(xs: seq<string>, x: string)
    requires x in xs
    ensures IsSubsequence(Toggle(xs, x), xs)
    ensures multiset(Toggle(xs, x))[x] == 0
    ensures forall y :: y != x ==> multiset(Toggle(xs, x))[y] == multiset(xs)[y]
  {
    KeepIsSelection(xs, y => y != x);
  }

  /** Filtering with a predicate every element already satisfies gives the list back. */
  lemma {:induction false} KeepAll(xs: seq<string>, p: string -> bool)
    requires forall y :: y in xs ==> p(y)
    ensures Keep(xs, p) == xs
  {
    if |xs| > 0 {
      KeepAll(xs[1..], p);
      assert xs == [xs[0]] + xs[1..];
    }
  }

  /** Selecting an item that was not selected and then deselecting it restores the list. */
  lemma ToggleTwiceRestores(xs: seq<string>, x: string)
    requires x !in xs
    ensures Toggle(Toggle(xs, x), x) == xs
  {
    var ys := xs + [x];
    assert Toggle(ys, x) == Keep(ys, y => y != x);
    KeepAll(xs, y => y != x);
    KeepAppend(xs, [x], y => y != x);
    assert Keep([x], y => y != x) == [];
  }

  lemma {:induction false} KeepAppend(a: seq<string>, b: seq<string>, p: string -> bool)
    ensures Keep(a + b, p) == Keep(a, p) + Keep(b, p)
  {
    if |a| > 0 {
      var ab := a + b;
      assert ab[0] == a[0];
      assert ab[1..] == a[1..] + b;
      KeepAppend(a[1..], b, p);
      if p(a[0]) {
        assert Keep(ab, p) == [a[0]] + Keep(ab[1..], p);
        assert Keep(a, p) == [a[0]] + Keep(a[1..], p);
        assert ([a[0]] + Keep(a[1..], p)) + Keep(b, p) == [a[0]] + (Keep(a[1..], p) + Keep(b, p));
      } else {
        assert Keep(ab, p) == Keep(ab[1..], p);
        assert Keep(a, p) == Keep(a[1..], p);
      }
    } else {
      assert a + b == b;
    }
  }

  lemma {:induction false} KeepNoDup(xs: seq<string>, p: string -> bool)
    requires NoDup(xs)
    ensures NoDup(Keep(xs, p))
  {
    if |xs| > 0 {
      var tail := xs[1..];
      assert NoDup(tail) by {
        forall i, j | 0 <= i < j < |tail| ensures tail[i] != tail[j] {
          assert tail[i] == xs[i + 1] && tail[j] == xs[j + 1];
        }
      }
      KeepNoDup(tail, p);
      if p(xs[0]) {
        assert xs[0] !in tail by {
          forall k | 0 <= k < |tail| ensures tail[k] != xs[0] {
            assert tail[k] == xs[k + 1];
          }
        }
        NoDupCons(xs[0], Keep(tail, p));
      }
    }
  }

  lemma NoDupCons(x: string, s: seq<string>)
    requires NoDup(s) && x !in s
    ensures NoDup([x] + s)
  {
    var t := [x] + s;
    forall i, j | 0 <= i < j < |t| ensures t[i] != t[j] {
      assert t[j] == s[j - 1];
      if i > 0 { assert t[i] == s[i - 1]; }
    }
  }

  /**
   A selection without repeats stays without repeats, and each click changes
   its length by exactly one.
   */
  lemma ToggleKeepsNoDup(xs: seq<string>, x: string)
    requires NoDup(xs)
    ensures NoDup(Toggle(xs, x))
    ensures x in xs ==> |Toggle(xs, x)| == |xs| - 1
    ensures x !in xs ==> |Toggle(xs, x)| == |xs| + 1
  {
    if x in xs {
      KeepNoDup(xs, y => y != x);
      KeepIsSelection(xs, y => y != x);
      var r := Toggle(xs, x);
      assert multiset(xs)[x] == 1 by {
        NoDupCountsOne(xs, x);
      }
      assert multiset(r)[x] == 0;
      assert multiset(r) == multiset(xs) - multiset{x} by {
        forall y ensures multiset(r)[y] == (multiset(xs) - multiset{x})[y] {
        }
      }
    } else {
      var r := xs + [x];
      forall i, j | 0 <= i < j < |r| ensures r[i] != r[j] {
        if j == |xs| { assert r[i] == xs[i]; } else { assert r[i] == xs[i] && r[j] == xs[j]; }
      }
    }
  }

  lemma {:induction false} NoDupCountsOne(xs: seq<string>, x: string)
    requires NoDup(xs) && x in xs
    ensures multiset(xs)[x] == 1
  {
    var k :| 0 <= k < |xs| && xs[k] == x;
    assert xs == xs[..k] + [x] + xs[k + 1..];
    assert x !in xs[..k] by {
      forall i | 0 <= i < k ensures xs[..k][i] != x { assert xs[..k][i] == xs[i]; }
    }
    var suffix := xs[k + 1..];
    assert x !in suffix by {
      forall i | 0 <= i < |suffix| ensures suffix[i] != x { assert suffix[i] == xs[k + 1 + i]; }
    }
    assert multiset(xs) == multiset(xs[..k]) + multiset{x} + multiset(xs[k + 1..]);
  }
}
