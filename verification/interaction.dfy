/** `FactorizationMachine`: the second-order interaction of per-field
    embeddings, computed in O(fields * factors) as half of "square of sum
    minus sum of squares" (Rendle's rewrite), and proved equal to the direct
    sum over field pairs `i < j` of `<x_i, x_j>`. */
module Interaction {
  import opened Tensors
  import opened Reals

  datatype FactorizationMachine = FactorizationMachine(reduceSum: bool)

  /** Reference definition: the sum over index pairs `i < j` of `c[i] * c[j]`. */
  function PairSum(c: seq<real>): real
    decreases |c|
  {
    if |c| == 0 then 0.0 else c[0] * Sum(c[1..]) + PairSum(c[1..])
  }

  /** `Σ_j <a, ys[j]>`: the inner products of `a` with each of `ys`. */
  function CrossDot(a: seq<real>, ys: seq<seq<real>>): real
    requires Rect(ys, |a|)
    decreases |ys|
  {
    if |ys| == 0 then 0.0 else Dot(a, ys[0]) + CrossDot(a, ys[1..])
  }

  /** Reference definition: the sum over field pairs `i < j` of `<x_i, x_j>`. */
  function PairDot(x: seq<seq<real>>, k: nat): real
    requires Rect(x, k)
    decreases |x|
  {
    if |x| == 0 then 0.0 else CrossDot(x[0], x[1..]) + PairDot(x[1..], k)
  }

  /** `p` is half of "square of sum minus sum of squares", for a sum `s`
      and a sum of squares `q`. Stated over plain reals so that the
      identity's induction never multiplies two sums in the open. */
  predicate Halved(s: real, q: real, p: real) {
    0.5 * (s * s - q) == p
  }

  /** A sum of squares `q'` is the square of the first entry `a` plus the
      sum of squares `q` of the remaining entries. */
  predicate SquareStep(q': real, a: real, q: real) {
    q' == a * a + q
  }

  /** A pair sum `p'` is the first entry `a` times the sum `s` of the
      remaining entries, plus their pair sum `p`. */
  predicate PairStep(p': real, a: real, s: real, p: real) {
    p' == a * s + p
  }

  /** The O(n) identity for one factor:
      `0.5 * ((Σ c)^2 - Σ c^2) == Σ_{i<j} c_i c_j`. */
  lemma SquareOfSumIdentity(c: seq<real>)
    ensures 0.5 * (Sum(c) * Sum(c) - Sum(Squares(c))) == PairSum(c)
  {
    HalvedIdentity(c);
  }

  /** The identity by induction on the number of entries, one entry
      peeled off per step. */
  lemma {:induction false} HalvedIdentity(c: seq<real>)
    ensures Halved(Sum(c), Sum(Squares(c)), PairSum(c))
    decreases |c|
  {
    if |c| > 0 {
      HalvedIdentity(c[1..]);
      SumOfSquaresStep(c);
      PairSumStep(c);
      PeelFirst(c[0], Sum(c[1..]), Sum(Squares(c[1..])), PairSum(c[1..]), Sum(c), Sum(Squares(c)), PairSum(c));
    }
  }

  /** Peeling the first entry off a sum of squares. */
  lemma SumOfSquaresStep(c: seq<real>)
    requires |c| > 0
    ensures SquareStep(Sum(Squares(c)), c[0], Sum(Squares(c[1..])))
  {
    var t := c[1..];
    forall i | 0 <= i < |t|
      ensures Squares(c)[1..][i] == Squares(t)[i]
    {
    }
    assert Squares(c)[1..] == Squares(t);
  }

  /** Peeling the first entry off a sum and off a pair sum. */
  lemma PairSumStep(c: seq<real>)
    requires |c| > 0
    ensures Sum(c) == c[0] + Sum(c[1..])
    ensures PairStep(PairSum(c), c[0], Sum(c[1..]), PairSum(c[1..]))
  {
  }

  /** The algebra of one induction step of `HalvedIdentity`. */
  lemma PeelFirst(a: real, s: real, q: real, p: real, s': real, q': real, p': real)
    requires Halved(s, q, p)
    requires s' == a + s && SquareStep(q', a, q) && PairStep(p', a, s, p)
    ensures Halved(s', q', p')
  {
    assert s' * s' == a * a + 2.0 * (a * s) + s * s;
  }

  /** Peeling the first field off one factor's column: its sum and its
      pair sum, in terms of the remaining fields. */
  lemma ColumnStep(x: seq<seq<real>>, k: nat, f: nat)
    requires Rect(x, k) && |x| > 0 && f < k
    ensures Sum(Column(x, f)) == x[0][f] + Sum(Column(x[1..], f))
    ensures PairSum(Column(x, f)) == x[0][f] * Sum(Column(x[1..], f)) + PairSum(Column(x[1..], f))
  {
    assert Column(x, f)[1..] == Column(x[1..], f);
  }

  /** Peeling the first field off `Σ_f a[f] * (Σ_j ys[j][f])`. */
  lemma CrossSplit(a: seq<real>, ys: seq<seq<real>>, k: nat)
    requires |a| == k && Rect(ys, k) && |ys| > 0
    ensures Sum(seq(k, f requires 0 <= f < k => a[f] * Sum(Column(ys, f))))
              == Sum(seq(k, f requires 0 <= f < k => a[f] * ys[0][f]))
                 + Sum(seq(k, f requires 0 <= f < k => a[f] * Sum(Column(ys[1..], f))))
  {
    var lhs := seq(k, f requires 0 <= f < k => a[f] * Sum(Column(ys, f)));
    var head := seq(k, f requires 0 <= f < k => a[f] * ys[0][f]);
    var tail := seq(k, f requires 0 <= f < k => a[f] * Sum(Column(ys[1..], f)));
    forall f | 0 <= f < k
      ensures lhs[f] == head[f] + tail[f]
    {
      assert lhs[f] == a[f] * Sum(Column(ys, f));
      assert head[f] == a[f] * ys[0][f];
      assert tail[f] == a[f] * Sum(Column(ys[1..], f));
      ColumnStep(ys, k, f);
    }
    SumPointwise(head, tail, lhs);
  }

  /** `Σ_f a[f] * (Σ_j ys[j][f]) == Σ_j <a, ys[j]>`: exchanging the sum over
      factors with the sum over fields. */
  lemma {:induction false} CrossTerm(a: seq<real>, ys: seq<seq<real>>, k: nat)
    requires |a| == k && Rect(ys, k)
    ensures Sum(seq(k, f requires 0 <= f < k => a[f] * Sum(Column(ys, f)))) == CrossDot(a, ys)
    decreases |ys|
  {
    if |ys| == 0 {
      SumOfZeros(seq(k, f requires 0 <= f < k => a[f] * Sum(Column(ys, f))));
    } else {
      CrossTerm(a, ys[1..], k);
      CrossSplit(a, ys, k);
      assert Dot(a, ys[0]) == Sum(seq(k, f requires 0 <= f < k => a[f] * ys[0][f]));
    }
  }

  /** Peeling the first field off every factor's pair sum, summed over the
      factors. */
  lemma FactorSplit(x: seq<seq<real>>, k: nat)
    requires Rect(x, k) && |x| > 0
    ensures Sum(seq(k, f requires 0 <= f < k => PairSum(Column(x, f))))
              == Sum(seq(k, f requires 0 <= f < k => x[0][f] * Sum(Column(x[1..], f))))
                 + Sum(seq(k, f requires 0 <= f < k => PairSum(Column(x[1..], f))))
  {
    var lhs := seq(k, f requires 0 <= f < k => PairSum(Column(x, f)));
    var head := seq(k, f requires 0 <= f < k => x[0][f] * Sum(Column(x[1..], f)));
    var tail := seq(k, f requires 0 <= f < k => PairSum(Column(x[1..], f)));
    forall f | 0 <= f < k
      ensures lhs[f] == head[f] + tail[f]
    {
      assert lhs[f] == PairSum(Column(x, f));
      assert head[f] == x[0][f] * Sum(Column(x[1..], f));
      assert tail[f] == PairSum(Column(x[1..], f));
      ColumnStep(x, k, f);
    }
    SumPointwise(head, tail, lhs);
  }

  /** Per-factor pair sums, summed over factors, are the pairwise inner
      products of the fields. */
  lemma {:induction false} FactorPairSums(x: seq<seq<real>>, k: nat)
    requires Rect(x, k)
    ensures Sum(seq(k, f requires 0 <= f < k => PairSum(Column(x, f)))) == PairDot(x, k)
    decreases |x|
  {
    if |x| == 0 {
      SumOfZeros(seq(k, f requires 0 <= f < k => PairSum(Column(x, f))));
    } else {
      FactorPairSums(x[1..], k);
      CrossTerm(x[0], x[1..], k);
      FactorSplit(x, k);
    }
  }

  /** `square_of_sum - sum_of_square` for one example `x` of shape
      (fields, k), one entry per factor; half of each entry is that factor's
      pairwise interaction. */
  function Interactions(x: seq<seq<real>>, k: nat): (ix: seq<real>)
    requires Rect(x, k)
    ensures |ix| == k
    ensures forall f :: 0 <= f < k ==> 0.5 * ix[f] == PairSum(Column(x, f))
  {
    var squareOfSum := seq(k, f requires 0 <= f < k => Sum(Column(x, f)) * Sum(Column(x, f)));
    var sumOfSquare := seq(k, f requires 0 <= f < k => Sum(Squares(Column(x, f))));
    var ix := seq(k, f requires 0 <= f < k => squareOfSum[f] - sumOfSquare[f]);
    assert forall f :: 0 <= f < k ==> 0.5 * ix[f] == PairSum(Column(x, f)) by {
      forall f | 0 <= f < k
        ensures 0.5 * ix[f] == PairSum(Column(x, f))
      {
        SquareOfSumIdentity(Column(x, f));
      }
    }
    ix
  }

  /** Half the sum of the interactions over all factors is the pairwise
      interaction of the fields. */
  lemma HalfSumOfInteractions(x: seq<seq<real>>, k: nat)
    requires Rect(x, k)
    ensures 0.5 * Sum(Interactions(x, k)) == PairDot(x, k)
  {
    SumScale(0.5, Interactions(x, k), seq(k, f requires 0 <= f < k => PairSum(Column(x, f))));
    FactorPairSums(x, k);
  }

  /** `0.5 * v`. */
  function Halve(v: seq<real>): (h: seq<real>)
    ensures |h| == |v|
    ensures forall i :: 0 <= i < |v| ==> h[i] == 0.5 * v[i]
  {
    seq(|v|, i requires 0 <= i < |v| => 0.5 * v[i])
  }

  /** `FactorizationMachine.forward` on one example `x` of shape
      (fields, k): half of square-of-sum minus sum-of-squares per factor,
      summed over the factors into a single entry when `reduceSum` holds.
      Each entry is the pairwise interaction it stands for. */
  function Reduce(m: FactorizationMachine, x: seq<seq<real>>, k: nat): (r: seq<real>)
    requires Rect(x, k)
    ensures |r| == if m.reduceSum then 1 else k
    ensures !m.reduceSum ==> forall f :: 0 <= f < k ==> r[f] == PairSum(Column(x, f))
    ensures m.reduceSum ==> r[0] == PairDot(x, k)
  {
    var ix := Interactions(x, k);
    if m.reduceSum then
      HalfSumOfInteractions(x, k);
      Halve([Sum(ix)])
    else
      Halve(ix)
  }

  /** `FactorizationMachine.forward` on a batch of shape (batch, fields, k):
      per example, the single pairwise interaction when `reduceSum` holds,
      else one pairwise interaction per factor. */
  function Forward(m: FactorizationMachine, xs: seq<seq<seq<real>>>, n: nat, k: nat): (r: seq<seq<real>>)
    requires Cube(xs, n, k)
    ensures |r| == |xs| && Rect(r, if m.reduceSum then 1 else k)
    ensures m.reduceSum ==> forall b :: 0 <= b < |xs| ==> r[b] == [PairDot(xs[b], k)]
    ensures !m.reduceSum ==> forall b, f :: 0 <= b < |xs| && 0 <= f < k ==> r[b][f] == PairSum(Column(xs[b], f))
  {
    seq(|xs|, b requires 0 <= b < |xs| => Reduce(m, xs[b], k))
  }

  /** Without `reduceSum` the per-factor outputs add up to the single
      output of the summed form. */
  lemma ReduceSumOfFactors(x: seq<seq<real>>, k: nat)
    requires Rect(x, k)
    ensures Sum(Reduce(FactorizationMachine(false), x, k)) == Reduce(FactorizationMachine(true), x, k)[0]
  {
    var perFactor := Reduce(FactorizationMachine(false), x, k);
    assert perFactor == seq(k, f requires 0 <= f < k => PairSum(Column(x, f)));
    FactorPairSums(x, k);
  }

  /** With two fields the interaction is the inner product of the two
      embeddings. */
  lemma TwoFieldInteraction(u: seq<real>, v: seq<real>)
    requires |u| == |v|
    ensures PairDot([u, v], |u|) == Dot(u, v)
  {
    var k := |u|;
    assert [u, v][1..] == [v];
    assert [v][1..] == [];
    assert CrossDot(v, []) == 0.0;
    assert PairDot([v], k) == 0.0;
    assert CrossDot(u, [v]) == Dot(u, v);
  }
}
