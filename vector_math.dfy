/** Element-wise vector helpers of the health app, over unbounded integers.
    Each one builds its result step by step in a loop, as the Rust code does;
    `zip` stops at the shorter input. */
module VectorMath {

  function Min(x: int, y: int): int {
    if x <= y then x else y
  }

  /** Left-to-right sum: the value `result += x` reaches after visiting every element. */
  function Sum(s: seq<int>): int {
    if s == [] then 0 else Sum(s[..|s| - 1]) + s[|s| - 1]
  }

  method VecAdd(a: seq<int>, b: seq<int>) returns (result: seq<int>)
    ensures |result| == Min(|a|, |b|)
    ensures forall i :: 0 <= i < |result| ==> result[i] == a[i] + b[i]
  {
    result := [];
    var n := Min(|a|, |b|);
    for i := 0 to n
      invariant |result| == i
      invariant forall k :: 0 <= k < i ==> result[k] == a[k] + b[k]
    {
      result := result + [a[i] + b[i]];
    }
  }

  method VecSub(a: seq<int>, b: seq<int>) returns (result: seq<int>)
    ensures |result| == Min(|a|, |b|)
    ensures forall i :: 0 <= i < |result| ==> result[i] == a[i] - b[i]
  {
    result := [];
    var n := Min(|a|, |b|);
    for i := 0 to n
      invariant |result| == i
      invariant forall k :: 0 <= k < i ==> result[k] == a[k] - b[k]
    {
      result := result + [a[i] - b[i]];
    }
  }

  method VecSum(a: seq<int>) returns (result: int)
    ensures result == Sum(a)
    ensures a == [] ==> result == 0
  {
    result := 0;
    for i := 0 to |a|
      invariant result == Sum(a[..i])
    {
      assert a[..i + 1][..i] == a[..i];
      result := result + a[i];
    }
    assert a[..|a|] == a;
  }

  /** Summing a concatenation sums the parts. */
  lemma {:induction false} SumAppend(a: seq<int>, b: seq<int>)
    ensures Sum(a + b) == Sum(a) + Sum(b)
  {
    if b == [] {
      assert a + b == a;
    } else {
      var b' := b[..|b| - 1];
      assert (a + b)[..|a + b| - 1] == a + b';
      SumAppend(a, b');
    }
  }

  /** The sum of an element-wise sum (what VecAdd returns for equal lengths) is the sum of the sums. */
  lemma {:induction false} SumOfPointwiseAdd(a: seq<int>, b: seq<int>, c: seq<int>)
    requires |a| == |b| == |c|
    requires forall i :: 0 <= i < |c| ==> c[i] == a[i] + b[i]
    ensures Sum(c) == Sum(a) + Sum(b)
  {
    if c != [] {
      var n := |c| - 1;
      SumOfPointwiseAdd(a[..n], b[..n], c[..n]);
    }
  }

  /** Likewise for VecSub: the sum of an element-wise difference is the difference of the sums. */
  lemma {:induction false} SumOfPointwiseSub(a: seq<int>, b: seq<int>, c: seq<int>)
    requires |a| == |b| == |c|
    requires forall i :: 0 <= i < |c| ==> c[i] == a[i] - b[i]
    ensures Sum(c) == Sum(a) - Sum(b)
  {
    if c != [] {
      var n := |c| - 1;
      SumOfPointwiseSub(a[..n], b[..n], c[..n]);
    }
  }
}
