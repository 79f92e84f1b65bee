/** Sums over the slots of a sequence: how a total changes when one slot changes. */
module Sums {

  function Sum<T>(weight: T -> int, s: seq<T>): int
  {
    if s == [] then 0 else Sum(weight, s[..|s| - 1]) + weight(s[|s| - 1])
  }

  lemma {:induction false} SumAppend<T>(weight: T -> int, s: seq<T>, x: T)
    ensures Sum(weight, s + [x]) == Sum(weight, s) + weight(x)
  {
    assert (s + [x])[..|s|] == s;
  }

  lemma {:induction false} SumUpdate<T>(weight: T -> int, s: seq<T>, i: nat, x: T)
    requires i < |s|
    ensures Sum(weight, s[i := x]) == Sum(weight, s) - weight(s[i]) + weight(x)
  {
    var n := |s| - 1;
    if i == n {
      assert s[i := x][..n] == s[..n];
    } else {
      assert s[i := x][..n] == s[..n][i := x];
      SumUpdate(weight, s[..n], i, x);
    }
  }

  /** A sum of non-negative weights is at least each of them, and zero only if they all are. */
  lemma {:induction false} SumBounds<T(!new)>(weight: T -> int, s: seq<T>)
    requires forall x :: weight(x) >= 0
    ensures forall i :: 0 <= i < |s| ==> weight(s[i]) <= Sum(weight, s)
    ensures Sum(weight, s) >= 0
    ensures Sum(weight, s) > 0 ==> exists i :: 0 <= i < |s| && weight(s[i]) > 0
  {
    if s != [] {
      var n := |s| - 1;
      SumBounds(weight, s[..n]);
      forall i | 0 <= i < |s| ensures weight(s[i]) <= Sum(weight, s) {
        if i < n {
          assert s[i] == s[..n][i];
        }
      }
      if weight(s[n]) == 0 && Sum(weight, s) > 0 {
        var i :| 0 <= i < |s[..n]| && weight(s[..n][i]) > 0;
        assert s[i] == s[..n][i];
      }
    }
  }

  lemma {:induction false} SumTail<T>(weight: T -> int, s: seq<T>)
    requires s != []
    ensures Sum(weight, s) == weight(s[0]) + Sum(weight, s[1..])
  {
    var n := |s| - 1;
    if n > 0 {
      SumTail(weight, s[..n]);
      assert s[..n][1..] == s[1..][..n - 1];
    }
  }

  lemma {:induction false} SumOfSame<T>(weight: T -> int, s: seq<T>, w: int)
    requires forall i :: 0 <= i < |s| ==> weight(s[i]) == w
    ensures Sum(weight, s) == |s| * w
  {
    if s != [] {
      SumOfSame(weight, s[..|s| - 1], w);
    }
  }

  /** Counts a condition as a weight. */
  function One(b: bool): int
  {
    if b then 1 else 0
  }
}
