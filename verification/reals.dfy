/** Sums over sequences of reals: the reductions `torch.sum(…, dim=…)`
    performs, taken over exact reals instead of float32. */
module Reals {
  import opened Tensors

  /** Sum of the entries, first entry first. */
  function Sum(xs: seq<real>): real
    decreases |xs|
  {
    if |xs| == 0 then 0.0 else xs[0] + Sum(xs[1..])
  }

  /** A vector of `n` zeros: what summing over an empty dimension gives. */
  function Zeros(n: nat): (z: seq<real>)
    ensures |z| == n
    ensures forall i :: 0 <= i < n ==> z[i] == 0.0
  {
    seq(n, i => 0.0)
  }

  /** Entry `f` of every row of `m`: the values one factor takes across fields. */
  function Column(m: seq<seq<real>>, f: nat): (c: seq<real>)
    requires forall i :: 0 <= i < |m| ==> f < |m[i]|
    ensures |c| == |m|
    ensures forall i :: 0 <= i < |m| ==> c[i] == m[i][f]
  {
    seq(|m|, i requires 0 <= i < |m| => m[i][f])
  }

  /** Entrywise squares, `x ** 2`. */
  function Squares(c: seq<real>): (s: seq<real>)
    ensures |s| == |c|
    ensures forall i :: 0 <= i < |c| ==> s[i] == c[i] * c[i]
  {
    seq(|c|, i requires 0 <= i < |c| => c[i] * c[i])
  }

  /** Inner product of two vectors of the same width. */
  function Dot(a: seq<real>, b: seq<real>): real
    requires |a| == |b|
  {
    Sum(seq(|a|, f requires 0 <= f < |a| => a[f] * b[f]))
  }

  /** Entrywise sum of two vectors of the same width. */
  function Add(a: seq<real>, b: seq<real>): (c: seq<real>)
    requires |a| == |b|
    ensures |c| == |a|
    ensures forall i :: 0 <= i < |a| ==> c[i] == a[i] + b[i]
  {
    seq(|a|, i requires 0 <= i < |a| => a[i] + b[i])
  }

  /** Sum over the field dimension of a (fields, w) matrix, one total per
      column; `torch.sum(m, dim=0)` for a single example. */
  function SumRows(m: seq<seq<real>>, w: nat): (s: seq<real>)
    requires Rect(m, w)
    ensures |s| == w
    ensures forall f :: 0 <= f < w ==> s[f] == Sum(Column(m, f))
  {
    seq(w, f requires 0 <= f < w => Sum(Column(m, f)))
  }

  lemma {:induction false} SumOfZeros(c: seq<real>)
    requires forall i :: 0 <= i < |c| ==> c[i] == 0.0
    ensures Sum(c) == 0.0
    decreases |c|
  {
    if |c| > 0 {
      SumOfZeros(c[1..]);
    }
  }

  /** Summation is additive: summing an entrywise sum sums the parts. */
  lemma {:induction false} SumPointwise(a: seq<real>, b: seq<real>, c: seq<real>)
    requires |a| == |b| == |c|
    requires forall i :: 0 <= i < |c| ==> c[i] == a[i] + b[i]
    ensures Sum(c) == Sum(a) + Sum(b)
    decreases |c|
  {
    if |c| > 0 {
      SumPointwise(a[1..], b[1..], c[1..]);
    }
  }

  /** Summation is homogeneous: a common factor comes out of the sum. */
  lemma {:induction false} SumScale(k: real, a: seq<real>, c: seq<real>)
    requires |a| == |c|
    requires forall i :: 0 <= i < |c| ==> c[i] == k * a[i]
    ensures Sum(c) == k * Sum(a)
    decreases |c|
  {
    if |c| > 0 {
      SumScale(k, a[1..], c[1..]);
    }
  }

  /** A sum of `|c|` copies of `v` is `|c| * v`. */
  lemma {:induction false} SumOfConstant(c: seq<real>, v: real)
    requires forall i :: 0 <= i < |c| ==> c[i] == v
    ensures Sum(c) == (|c| as real) * v
    decreases |c|
  {
    if |c| > 0 {
      SumOfConstant(c[1..], v);
    }
  }
}
