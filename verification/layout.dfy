/** The offset layout shared by `FeaturesLinear` and `FeaturesEmbedding`.

    Field `i` has `dims[i]` distinct values. All fields share one table of
    `Total(dims)` rows: field `i` owns the rows starting at `Offsets(dims)[i]`,
    and local index `v` of field `i` is global row `Offsets(dims)[i] + v`.
 */
module Layout {
  import opened Tensors

  /** `sum(field_dims)`: the number of rows of the shared table. */
  function Total(xs: seq<int>): int
    decreases |xs|
  {
    if |xs| == 0 then 0 else xs[0] + Total(xs[1..])
  }

  predicate NonNegative(dims: seq<int>) {
    forall i :: 0 <= i < |dims| ==> 0 <= dims[i]
  }

  /** Local index `v` is a value of field `i`. */
  predicate InField(dims: seq<int>, i: int, v: int) {
    0 <= i < |dims| && 0 <= v < dims[i]
  }

  lemma {:induction false} TotalAppend(a: seq<int>, b: seq<int>)
    ensures Total(a + b) == Total(a) + Total(b)
    decreases |a|
  {
    if |a| > 0 {
      assert (a + b)[1..] == a[1..] + b;
      TotalAppend(a[1..], b);
    } else {
      assert a + b == b;
    }
  }

  /** Extending a prefix by one field adds that field's size. */
  lemma TotalPrefixStep(xs: seq<int>, i: int)
    requires 0 <= i < |xs|
    ensures Total(xs[..i + 1]) == Total(xs[..i]) + xs[i]
  {
    assert xs[..i + 1] == xs[..i] + [xs[i]];
    TotalAppend(xs[..i], [xs[i]]);
  }

  /** With non-negative sizes, a longer prefix never has a smaller sum. */
  lemma {:induction false} TotalPrefixMonotone(dims: seq<int>, i: int, j: int)
    requires NonNegative(dims)
    requires 0 <= i <= j <= |dims|
    ensures Total(dims[..i]) <= Total(dims[..j])
    decreases j - i
  {
    if i < j {
      TotalPrefixMonotone(dims, i, j - 1);
      TotalPrefixStep(dims, j - 1);
    }
  }

  /** Running totals seeded with `acc`: entry `i` adds the first `i + 1`
      sizes to `acc`. */
  function Scan(xs: seq<int>, acc: int): (c: seq<int>)
    ensures |c| == |xs|
    ensures forall i :: 0 <= i < |xs| ==> c[i] == acc + Total(xs[..i + 1])
    decreases |xs|
  {
    if |xs| == 0 then []
    else
      var c := [acc + xs[0]] + Scan(xs[1..], acc + xs[0]);
      assert forall i :: 0 <= i < |xs| ==> c[i] == acc + Total(xs[..i + 1]) by {
        forall i | 0 <= i < |xs|
          ensures c[i] == acc + Total(xs[..i + 1])
        {
          if i == 0 {
            assert xs[..1][1..] == [];
          } else {
            assert xs[..i + 1][1..] == xs[1..][..i];
          }
        }
      }
      c
  }

  /** `np.cumsum`: inclusive prefix sums. */
  function CumSum(xs: seq<int>): (c: seq<int>)
    ensures |c| == |xs|
    ensures forall i :: 0 <= i < |xs| ==> c[i] == Total(xs[..i + 1])
  {
    Scan(xs, 0)
  }

  /** `(0, *np.cumsum(field_dims)[:-1])`. Entry `i` is the total size of the
      fields before field `i`. An empty `dims` still yields the single
      entry 0, because the leading 0 is written out. */
  function Offsets(dims: seq<int>): (o: seq<int>)
    ensures |o| == if |dims| == 0 then 1 else |dims|
    ensures o[0] == 0
    ensures forall i :: 0 <= i < |dims| ==> o[i] == Total(dims[..i])
  {
    var c := CumSum(dims);
    assert dims[..0] == [];
    [0] + (if |c| == 0 then [] else c[..|c| - 1])
  }

  /** Field ranges are contiguous: each field starts where the previous one
      ends, and the last one ends at the table size. */
  lemma OffsetsContiguous(dims: seq<int>, i: int)
    requires 0 <= i < |dims|
    ensures i + 1 < |dims| ==> Offsets(dims)[i + 1] == Offsets(dims)[i] + dims[i]
    ensures i + 1 == |dims| ==> Offsets(dims)[i] + dims[i] == Total(dims)
  {
    TotalPrefixStep(dims, i);
    assert dims[..|dims|] == dims;
  }

  /** With non-negative sizes, field `i` owns `[Offsets[i], Offsets[i] + dims[i])`
      and that range lies inside the table `[0, Total(dims))`. */
  lemma FieldRangeInTable(dims: seq<int>, i: int)
    requires NonNegative(dims)
    requires 0 <= i < |dims|
    ensures 0 <= Offsets(dims)[i]
    ensures Offsets(dims)[i] + dims[i] <= Total(dims)
  {
    TotalPrefixMonotone(dims, 0, i);
    TotalPrefixMonotone(dims, i + 1, |dims|);
    TotalPrefixStep(dims, i);
    assert dims[..0] == [];
    assert dims[..|dims|] == dims;
  }

  /** Every in-range local index lands on a row of the table. */
  lemma GlobalIndexInBounds(dims: seq<int>, i: int, v: int)
    requires NonNegative(dims)
    requires InField(dims, i, v)
    ensures 0 <= Offsets(dims)[i] + v < Total(dims)
  {
    FieldRangeInTable(dims, i);
  }

  /** Distinct (field, local index) pairs land on distinct rows. */
  lemma GlobalIndexInjective(dims: seq<int>, i: int, v: int, j: int, w: int)
    requires NonNegative(dims)
    requires InField(dims, i, v) && InField(dims, j, w)
    requires Offsets(dims)[i] + v == Offsets(dims)[j] + w
    ensures i == j && v == w
  {
    if i < j {
      TotalPrefixStep(dims, i);
      TotalPrefixMonotone(dims, i + 1, j);
    } else if j < i {
      TotalPrefixStep(dims, j);
      TotalPrefixMonotone(dims, j + 1, i);
    }
  }

  /** The inverse of the layout: the field and local index that own a row. */
  function Locate(dims: seq<int>, g: int): (p: (int, int))
    requires NonNegative(dims)
    requires 0 <= g < Total(dims)
    ensures InField(dims, p.0, p.1)
    ensures Offsets(dims)[p.0] + p.1 == g
    decreases |dims|
  {
    if g < dims[0] then
      assert dims[..0] == [];
      (0, g)
    else
      var q := Locate(dims[1..], g - dims[0]);
      assert dims[..q.0 + 1][1..] == dims[1..][..q.0];
      (q.0 + 1, q.1)
  }

  /** Translating and then locating gives back the field and local index,
      so the layout is a bijection between (field, value) pairs and rows. */
  lemma LocateTranslate(dims: seq<int>, i: int, v: int)
    requires NonNegative(dims)
    requires InField(dims, i, v)
    ensures 0 <= Offsets(dims)[i] + v < Total(dims)
    ensures Locate(dims, Offsets(dims)[i] + v) == (i, v)
  {
    GlobalIndexInBounds(dims, i, v);
    var p := Locate(dims, Offsets(dims)[i] + v);
    GlobalIndexInjective(dims, i, v, p.0, p.1);
  }

  /** Broadcasting one dimension of size `a` against one of size `b`. */
  function BroadcastSize(a: nat, b: nat): Option<nat> {
    if a == b || b == 1 then Some(a)
    else if a == 1 then Some(b)
    else None
  }

  /** `x + x.new_tensor(offsets).unsqueeze(0)` for `x` of shape
      (|x|, width): the offsets row is added to every row, with a size-1
      side repeated along the other, and unequal sizes neither of which is 1
      do not broadcast. */
  function AddOffsets(x: seq<seq<int>>, width: nat, offsets: seq<int>): (r: Option<seq<seq<int>>>)
    requires Rect(x, width)
    requires |offsets| > 0
    ensures r.Some? <==> width == |offsets| || width == 1 || |offsets| == 1
    ensures r.Some? ==> |r.value| == |x|
    ensures r.Some? ==> Rect(r.value, if width == 1 then |offsets| else width)
    ensures r.Some? && width == |offsets| ==>
              forall b, j :: 0 <= b < |x| && 0 <= j < width ==> r.value[b][j] == x[b][j] + offsets[j]
  {
    match BroadcastSize(width, |offsets|)
    case None => None
    case Some(w) =>
      Some(seq(|x|, b requires 0 <= b < |x| =>
        seq(w, j requires 0 <= j < w =>
          (if width == 1 then x[b][0] else x[b][j]) + (if |offsets| == 1 then offsets[0] else offsets[j]))))
  }

  /** A batch of rows with one in-range local index per field. */
  predicate LocalBatch(dims: seq<int>, x: seq<seq<int>>) {
    forall b :: 0 <= b < |x| ==>
      |x[b]| == |dims| && forall j :: 0 <= j < |dims| ==> InField(dims, j, x[b][j])
  }

  /** A well-formed batch translates without a shape error, entry by entry,
      and every translated index is a row of the `Total(dims)`-row table. */
  lemma TranslateInBounds(dims: seq<int>, x: seq<seq<int>>)
    requires NonNegative(dims) && |dims| > 0
    requires LocalBatch(dims, x)
    ensures AddOffsets(x, |dims|, Offsets(dims)).Some?
    ensures forall b, j :: 0 <= b < |x| && 0 <= j < |dims| ==>
              AddOffsets(x, |dims|, Offsets(dims)).value[b][j] == Offsets(dims)[j] + x[b][j]
    ensures forall b, j :: 0 <= b < |x| && 0 <= j < |dims| ==>
              0 <= Offsets(dims)[j] + x[b][j] < Total(dims)
  {
    forall b, j | 0 <= b < |x| && 0 <= j < |dims|
      ensures 0 <= Offsets(dims)[j] + x[b][j] < Total(dims)
    {
      GlobalIndexInBounds(dims, j, x[b][j]);
    }
  }
}
