/** Sums of a natural-number weight over a sequence, used to count threads by what they are doing. */
module Sums {

  ghost function Sum<T>(s: seq<T>, f: T -> nat): nat {
    if s == [] then 0 else f(s[0]) + Sum(s[1..], f)
  }

  lemma {:induction false} SumUpdate<T>(s: seq<T>, i: nat, x: T, f: T -> nat)
    requires i < |s|
    ensures Sum(s[i := x], f) + f(s[i]) == Sum(s, f) + f(x)
  {
    if i == 0 {
      assert s[0 := x][1..] == s[1..];
    } else {
      assert s[i := x][1..] == s[1..][i - 1 := x];
      SumUpdate(s[1..], i - 1, x, f);
    }
  }

  lemma {:induction false} SumAtLeast<T>(s: seq<T>, i: nat, f: T -> nat)
    requires i < |s|
    ensures Sum(s, f) >= f(s[i])
  {
    if i > 0 {
      SumAtLeast(s[1..], i - 1, f);
    }
  }

  lemma {:induction false} SumAtLeastTwo<T>(s: seq<T>, i: nat, j: nat, f: T -> nat)
    requires i < j < |s|
    ensures Sum(s, f) >= f(s[i]) + f(s[j])
  {
    if i == 0 {
      SumAtLeast(s[1..], j - 1, f);
    } else {
      SumAtLeastTwo(s[1..], i - 1, j - 1, f);
    }
  }

  /** A positive sum has a positive term; a zero sum has none. */
  lemma {:induction false} SumPositive<T>(s: seq<T>, f: T -> nat)
    ensures Sum(s, f) > 0 <==> exists i :: 0 <= i < |s| && f(s[i]) > 0
  {
    if s != [] {
      SumPositive(s[1..], f);
      if f(s[0]) == 0 && Sum(s[1..], f) > 0 {
        var i :| 0 <= i < |s[1..]| && f(s[1..][i]) > 0;
        assert f(s[i + 1]) > 0;
      }
      if i :| 0 < i < |s| && f(s[i]) > 0 {
        assert f(s[1..][i - 1]) > 0;
      }
    }
  }

  lemma {:induction false} SumReplicate<T>(n: nat, x: T, f: T -> nat)
    ensures Sum(seq(n, _ => x), f) == n * f(x)
  {
    if n > 0 {
      assert seq(n, _ => x)[1..] == seq(n - 1, _ => x);
      SumReplicate(n - 1, x, f);
      assert (n - 1) * f(x) + f(x) == n * f(x);
    }
  }

  lemma {:induction false} SumCongruent<T>(s: seq<T>, t: seq<T>, f: T -> nat)
    requires |s| == |t| && forall i :: 0 <= i < |s| ==> f(s[i]) == f(t[i])
    ensures Sum(s, f) == Sum(t, f)
  {
    if s != [] {
      assert f(s[0]) == f(t[0]);
      assert forall i :: 0 <= i < |s[1..]| ==> s[1..][i] == s[i + 1] && t[1..][i] == t[i + 1];
      SumCongruent(s[1..], t[1..], f);
    }
  }
}
