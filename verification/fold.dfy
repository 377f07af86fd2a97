/** The `+`-fold from zero that `std::accumulate(first, last, 0)` computes,
    shared by every vector-sum task. */
module Fold {

  /** The sum of `s`, folded from the left: ((0 + s[0]) + s[1]) + ... */
  function Sum(s: seq<int>): int
  {
    if |s| == 0 then 0 else Sum(s[..|s| - 1]) + s[|s| - 1]
  }

  /** Summing a concatenation is adding the sums of its parts. */
  lemma {:induction false} SumAppend(a: seq<int>, b: seq<int>)
    ensures Sum(a + b) == Sum(a) + Sum(b)
    decreases |b|
  {
    if |b| == 0 {
      assert a + b == a;
    } else {
      assert (a + b)[..|a + b| - 1] == a + b[..|b| - 1];
      SumAppend(a, b[..|b| - 1]);
    }
  }

  /** `n` copies of `c` sum to `n * c`. */
  lemma {:induction false} SumOfConstant(n: nat, c: int)
    ensures Sum(seq(n, _ => c)) == n * c
  {
    if n > 0 {
      assert seq(n, _ => c)[..n - 1] == seq(n - 1, _ => c);
      SumOfConstant(n - 1, c);
    }
  }

  /** `std::accumulate(s.begin(), s.end(), 0)`: one pass, adding each element in order. */
  method Accumulate(s: seq<int>) returns (total: int)
    ensures total == Sum(s)
  {
    total := 0;
    var i := 0;
    while i < |s|
      invariant 0 <= i <= |s|
      invariant total == Sum(s[..i])
    {
      assert s[..i + 1][..i] == s[..i];
      total := total + s[i];
      i := i + 1;
    }
    assert s[..|s|] == s;
  }
}
