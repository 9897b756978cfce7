/** `FeaturesLinear` and `FeaturesEmbedding`: both translate per-field local
    indices into rows of one shared table through the offsets of `Layout`,
    then look the rows up. The linear layer sums the rows over the fields
    and adds a bias; the embedding layer keeps one row per field. */
module Features {
  import opened Tensors
  import opened Reals
  import opened Layout
  import opened Lookup

  /** A linear layer: a table `fc` of `sum(field_dims)` rows of width
      `output_dim`, a bias of width `output_dim`, and the field offsets. */
  datatype FeaturesLinear = FeaturesLinear(fc: seq<seq<real>>, bias: seq<real>, offsets: seq<int>) {
    predicate Valid() {
      |offsets| > 0 && Rect(fc, |bias|)
    }
  }

  /** An embedding layer: a table of `sum(field_dims)` rows of width
      `nFactors`, and the field offsets. */
  datatype FeaturesEmbedding = FeaturesEmbedding(embedding: seq<seq<real>>, nFactors: nat, offsets: seq<int>) {
    predicate Valid() {
      |offsets| > 0 && Rect(embedding, nFactors)
    }
  }

  /** The layer `FeaturesLinear(field_dims, output_dim)` builds. `weight`
      stands for the table's initial values; the bias starts at zero. */
  function NewFeaturesLinear(dims: seq<int>, outputDim: nat, weight: seq<seq<real>>): (l: FeaturesLinear)
    requires |weight| == Total(dims) && Rect(weight, outputDim)
    ensures l.Valid()
    ensures l.fc == weight && |l.bias| == outputDim
    ensures forall d :: 0 <= d < outputDim ==> l.bias[d] == 0.0
    ensures l.offsets == Offsets(dims)
    ensures forall i :: 0 <= i < |dims| ==> l.offsets[i] == Total(dims[..i])
  {
    FeaturesLinear(weight, Zeros(outputDim), Offsets(dims))
  }

  /** The layer `FeaturesEmbedding(field_dims, n_factors)` builds. `weight`
      stands for the table's initial values. */
  function NewFeaturesEmbedding(dims: seq<int>, nFactors: nat, weight: seq<seq<real>>): (e: FeaturesEmbedding)
    requires |weight| == Total(dims) && Rect(weight, nFactors)
    ensures e.Valid()
    ensures e.embedding == weight && e.nFactors == nFactors
    ensures e.offsets == Offsets(dims)
    ensures forall i :: 0 <= i < |dims| ==> e.offsets[i] == Total(dims[..i])
  {
    FeaturesEmbedding(weight, nFactors, Offsets(dims))
  }

  /** The translated indices of a batch are all rows of a table with
      `size` rows. */
  predicate Translates(x: seq<seq<int>>, width: nat, offsets: seq<int>, size: nat)
    requires Rect(x, width) && |offsets| > 0
  {
    AddOffsets(x, width, offsets).Some? && InTable(AddOffsets(x, width, offsets).value, size)
  }

  /** Column `d` of the looked-up rows summed over the fields:
      `Σ_j table[idx[j]][d]`. */
  function FieldSum(table: seq<seq<real>>, idx: seq<int>, d: nat): real
    requires forall j :: 0 <= j < |idx| ==> 0 <= idx[j] < |table| && d < |table[idx[j]]|
  {
    Sum(seq(|idx|, j requires 0 <= j < |idx| => table[idx[j]][d]))
  }

  /** Column `d` of the rows looked up for `idx` sums to `FieldSum`. */
  lemma LookedUpColumn(table: seq<seq<real>>, idx: seq<int>, rows: seq<seq<real>>, d: nat)
    requires |rows| == |idx|
    requires forall j :: 0 <= j < |idx| ==> 0 <= idx[j] < |table| && rows[j] == table[idx[j]] && d < |rows[j]|
    ensures Sum(Column(rows, d)) == FieldSum(table, idx, d)
  {
    assert Column(rows, d) == seq(|idx|, j requires 0 <= j < |idx| => table[idx[j]][d]);
  }

  /** `torch.sum(rows, dim=1) + bias`, where `rows[b][j]` is the row of
      `fc` at index `g[b][j]`. */
  function SumFields(fc: seq<seq<real>>, bias: seq<real>, g: seq<seq<int>>, rows: seq<seq<seq<real>>>): (out: seq<seq<real>>)
    requires Rect(fc, |bias|)
    requires |rows| == |g| && forall b :: 0 <= b < |g| ==> |rows[b]| == |g[b]|
    requires forall b, j :: 0 <= b < |g| && 0 <= j < |g[b]| ==> 0 <= g[b][j] < |fc| && rows[b][j] == fc[g[b][j]]
    ensures |out| == |g| && Rect(out, |bias|)
    ensures forall b, d :: 0 <= b < |g| && 0 <= d < |bias| ==> out[b][d] == FieldSum(fc, g[b], d) + bias[d]
  {
    var out := seq(|rows|, b requires 0 <= b < |rows| => Add(SumRows(rows[b], |bias|), bias));
    assert forall b, d :: 0 <= b < |g| && 0 <= d < |bias| ==> out[b][d] == FieldSum(fc, g[b], d) + bias[d] by {
      forall b, d | 0 <= b < |g| && 0 <= d < |bias|
        ensures out[b][d] == FieldSum(fc, g[b], d) + bias[d]
      {
        LookedUpColumn(fc, g[b], rows[b], d);
      }
    }
    out
  }

  /** `FeaturesLinear.forward`: for each row of `x`, the sum over fields of
      the looked-up `fc` rows, plus the bias. */
  function LinearForward(l: FeaturesLinear, x: seq<seq<int>>, width: nat): (r: Option<seq<seq<real>>>)
    requires l.Valid() && Rect(x, width)
    ensures r.Some? <==> Translates(x, width, l.offsets, |l.fc|)
    ensures r.Some? ==> |r.value| == |x| && Rect(r.value, |l.bias|)
    ensures r.Some? ==>
              var g := AddOffsets(x, width, l.offsets).value;
              forall b, d :: 0 <= b < |x| && 0 <= d < |l.bias| ==>
                r.value[b][d] == FieldSum(l.fc, g[b], d) + l.bias[d]
  {
    match AddOffsets(x, width, l.offsets)
    case None => None
    case Some(g) =>
      match Gather(l.fc, g)
      case None => None
      case Some(rows) =>
        Some(SumFields(l.fc, l.bias, g, rows))
  }

  /** `FeaturesEmbedding.forward`: for each row of `x`, the looked-up table
      row of every field, kept per field. */
  function EmbeddingForward(e: FeaturesEmbedding, x: seq<seq<int>>, width: nat): (r: Option<seq<seq<seq<real>>>>)
    requires e.Valid() && Rect(x, width)
    ensures r.Some? <==> Translates(x, width, e.offsets, |e.embedding|)
    ensures r.Some? ==>
              var g := AddOffsets(x, width, e.offsets).value;
              && |r.value| == |x|
              && Cube(r.value, if width == 1 then |e.offsets| else width, e.nFactors)
              && forall b, j :: 0 <= b < |x| && 0 <= j < |g[b]| ==> r.value[b][j] == e.embedding[g[b][j]]
  {
    match AddOffsets(x, width, e.offsets)
    case None => None
    case Some(g) => Gather(e.embedding, g)
  }

  /** A linear layer built for field sizes `dims`, whatever its current
      weights. */
  predicate LinearLayout(l: FeaturesLinear, dims: seq<int>) {
    l.Valid() && NonNegative(dims) && |dims| > 0 && l.offsets == Offsets(dims) && |l.fc| == Total(dims)
  }

  /** An embedding layer built for field sizes `dims`, whatever its current
      weights. */
  predicate EmbeddingLayout(e: FeaturesEmbedding, dims: seq<int>) {
    e.Valid() && NonNegative(dims) && |dims| > 0 && e.offsets == Offsets(dims) && |e.embedding| == Total(dims)
  }

  /** On in-range local indices the linear layer never fails, and each
      output is the bias plus the sum over fields of the `fc` entry at
      field offset plus local index. */
  lemma LinearForwardLocal(l: FeaturesLinear, dims: seq<int>, x: seq<seq<int>>)
    requires LinearLayout(l, dims) && LocalBatch(dims, x)
    ensures LinearForward(l, x, |dims|).Some?
    ensures forall b, d :: 0 <= b < |x| && 0 <= d < |l.bias| ==>
              LinearForward(l, x, |dims|).value[b][d]
                == Sum(seq(|dims|, j requires 0 <= j < |dims| => l.fc[Offsets(dims)[j] + x[b][j]][d])) + l.bias[d]
  {
    TranslateInBounds(dims, x);
    forall b, d | 0 <= b < |x| && 0 <= d < |l.bias|
      ensures LinearForward(l, x, |dims|).value[b][d]
                == Sum(seq(|dims|, j requires 0 <= j < |dims| => l.fc[Offsets(dims)[j] + x[b][j]][d])) + l.bias[d]
    {
      LinearEntryLocal(l, dims, x, b, d);
    }
  }

  /** Entry `(b, d)` of the linear output on in-range local indices. */
  lemma LinearEntryLocal(l: FeaturesLinear, dims: seq<int>, x: seq<seq<int>>, b: int, d: int)
    requires LinearLayout(l, dims) && LocalBatch(dims, x)
    requires 0 <= b < |x| && 0 <= d < |l.bias|
    ensures LinearForward(l, x, |dims|).Some?
    ensures LinearForward(l, x, |dims|).value[b][d]
              == Sum(seq(|dims|, j requires 0 <= j < |dims| => l.fc[Offsets(dims)[j] + x[b][j]][d])) + l.bias[d]
  {
    TranslateInBounds(dims, x);
    var o := Offsets(dims);
    var g := AddOffsets(x, |dims|, o).value;
    assert seq(|g[b]|, j requires 0 <= j < |g[b]| => l.fc[g[b][j]][d])
             == seq(|dims|, j requires 0 <= j < |dims| => l.fc[o[j] + x[b][j]][d]);
  }

  /** With an all-zero table the linear layer returns the bias for every
      row; the bias of a new layer is itself zero. */
  lemma LinearZeroTable(l: FeaturesLinear, dims: seq<int>, x: seq<seq<int>>)
    requires LinearLayout(l, dims) && LocalBatch(dims, x)
    requires forall g, d :: 0 <= g < |l.fc| && 0 <= d < |l.bias| ==> l.fc[g][d] == 0.0
    ensures LinearForward(l, x, |dims|).Some?
    ensures forall b :: 0 <= b < |x| ==> LinearForward(l, x, |dims|).value[b] == l.bias
  {
    LinearForwardLocal(l, dims, x);
    var r := LinearForward(l, x, |dims|).value;
    forall b | 0 <= b < |x|
      ensures r[b] == l.bias
    {
      forall d | 0 <= d < |l.bias|
        ensures r[b][d] == l.bias[d]
      {
        var terms := seq(|dims|, j requires 0 <= j < |dims| => l.fc[Offsets(dims)[j] + x[b][j]][d]);
        forall j | 0 <= j < |dims|
          ensures terms[j] == 0.0
        {
          GlobalIndexInBounds(dims, j, x[b][j]);
        }
        SumOfZeros(terms);
      }
    }
  }

  /** On in-range local indices the embedding layer never fails and returns,
      for every row and field, the table row at field offset plus local
      index: one `nFactors`-wide vector per field, nothing summed. */
  lemma EmbeddingForwardLocal(e: FeaturesEmbedding, dims: seq<int>, x: seq<seq<int>>)
    requires EmbeddingLayout(e, dims) && LocalBatch(dims, x)
    ensures EmbeddingForward(e, x, |dims|).Some?
    ensures Cube(EmbeddingForward(e, x, |dims|).value, |dims|, e.nFactors)
    ensures |EmbeddingForward(e, x, |dims|).value| == |x|
    ensures forall b, j :: 0 <= b < |x| && 0 <= j < |dims| ==>
              EmbeddingForward(e, x, |dims|).value[b][j] == e.embedding[Offsets(dims)[j] + x[b][j]]
  {
    TranslateInBounds(dims, x);
  }
}
