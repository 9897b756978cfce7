# Factorization Machine scoring, modelled in Dafny

This project models the scoring path of the Factorization Machine (FM)
recommender in `models/fm.py`. The model predicts a score for a (user, item)
pair. The score is a learned linear term plus the second-order pairwise
interaction of the user and item embeddings. Tensors are sequences of
mathematical reals, weights are given inputs, and every operation is a pure
function.

Modules, leaves first:

- `Tensors` (`tensors.dfy`): `Option` for an operation the tensor runtime
  would abort, and the rectangular-shape predicates `Rect` and `Cube`.
- `Reals` (`reals.dfy`): sums, columns, squares, inner products, and the
  linearity lemmas for sums.
- `Layout` (`layout.dfy`): the offset layout. `CumSum` and `Offsets` model
  `(0, *np.cumsum(field_dims)[:-1])`. `AddOffsets` models the broadcast add
  `x + offsets`. The lemmas show that field ranges are contiguous, lie
  inside the table, and are disjoint. `Locate` is the inverse map from a
  table row back to its (field, local index) pair.
- `Lookup` (`lookup.dfy`): `torch.nn.Embedding` lookup. An index outside the
  table, including a negative one, is an error.
- `Features` (`features.dfy`): `FeaturesLinear` and `FeaturesEmbedding`, with
  their constructors and `forward`s.
- `Interaction` (`interaction.dfy`): `FactorizationMachine.forward`. It
  computes half of "square of sum minus sum of squares" per factor, then sums
  over the factors when `reduce_sum` holds. This is proved equal to the
  direct pairwise sum `Σ_{i<j} <x_i, x_j>`.
- `Model` (`model.dfy`): `FM`. The constructor uses field sizes
  `[n_users, n_items]`. `Forward` and `Predict` return one score per pair.

Two behaviours of the code at its edges are stated as they are:

- For an empty `field_dims` the offsets are `[0]`, because the leading 0
  is written out (models/fm.py:13). `Layout.Offsets` states this.
- An index outside the whole table raises in `nn.Embedding` and is `None`
  here. An id outside its own field but inside the table is not detected:
  a user id `n_users + t` reads item `t`'s row
  (`Model.UserIdAliasesItemRow`).

Evaluation is deterministic because every operation is a function of its
inputs.

## Model

| member | source | states |
|---|---|---|
| Layout.CumSum | models/fm.py:13 | `np.cumsum`: one entry per field, entry `i` is the sum of the first `i + 1` sizes |
| Layout.Offsets | models/fm.py:13 | the offset vector has one entry per field (one entry `[0]` when there are none), starts at 0, and entry `i` is the total size of the fields before `i` |
| Layout.OffsetsContiguous | models/fm.py:13 | each field's range starts where the previous one ends, and the last ends at `sum(field_dims)` |
| Layout.FieldRangeInTable | models/fm.py:11-13 | with non-negative sizes, field `i`'s range `[offsets[i], offsets[i] + dims[i])` lies inside the `sum(field_dims)`-row table |
| Layout.GlobalIndexInBounds | models/fm.py:19 | a local index in `[0, dims[i])` translates to a row in `[0, sum(field_dims))`, so every lookup is in range |
| Layout.GlobalIndexInjective | models/fm.py:13 | distinct (field, local index) pairs translate to distinct rows: field ranges are disjoint |
| Layout.Locate | models/fm.py:13 | every table row belongs to some field and local index in range that translates back to it |
| Layout.LocateTranslate | models/fm.py:19 | locating a translated index returns the original (field, local index); with `Locate` this makes the layout a bijection onto the table |
| Layout.AddOffsets | models/fm.py:19 | the broadcast add of the offsets succeeds exactly when the widths match or one of them is 1; for matching widths, entry `j` of every row gains `offsets[j]` |
| Layout.TranslateInBounds | models/fm.py:19 | a batch with one in-range local index per field translates without a shape error, entry `(b, j)` to `offsets[j] + x[b][j]`, and that row is inside the table |
| Lookup.GatherRow | models/fm.py:35 | looking up one row of indices succeeds exactly when every index is in `[0, rows)`, and returns the table row of each index |
| Lookup.Gather | models/fm.py:35 | looking up a batch keeps its shape, fails exactly when some index is outside the table, and otherwise returns `table[idx[b][j]]` at position `(b, j)` |
| Features.NewFeaturesLinear | models/fm.py:9-13 | a new linear layer has a zero bias of width `output_dim`, the given table, and exactly the offsets `Layout.Offsets` gives: entry `i` is the size of the fields before `i`, and `[0]` for no fields |
| Features.NewFeaturesEmbedding | models/fm.py:24-27 | a new embedding layer has the given `n_factors`-wide table and exactly the offsets `Layout.Offsets` gives: entry `i` is the size of the fields before `i`, and `[0]` for no fields |
| Features.LinearForward | models/fm.py:15-20 | the linear layer fails exactly when translation or lookup fails; otherwise output `(b, d)` is the sum over fields of `fc[g[b][j]][d]` plus `bias[d]` |
| Features.EmbeddingForward | models/fm.py:30-35 | the embedding layer fails exactly when translation or lookup fails; otherwise it returns one `n_factors` vector per field per row, the table row of that field's translated index |
| Features.LinearForwardLocal | models/fm.py:19-20 | on in-range local indices the linear layer succeeds, and each output is the bias plus the sum over fields of `fc[offsets[j] + x[b][j]]` |
| Features.LinearZeroTable | models/fm.py:12-20 | with an all-zero table the linear output of every row equals the bias |
| Features.EmbeddingForwardLocal | models/fm.py:34-35 | on in-range local indices the embedding layer succeeds, with shape (batch, fields, n_factors) and per-field rows `embedding[offsets[j] + x[b][j]]`, nothing summed across fields |
| Interaction.SquareOfSumIdentity | models/fm.py:47-49 | for one factor, `0.5 * ((Σ_i c_i)^2 − Σ_i c_i^2)` equals the pairwise sum `Σ_{i<j} c_i c_j` |
| Interaction.Interactions | models/fm.py:47-49 | for one example, `ix` has one entry per factor, and half of entry `f` is the pairwise sum `Σ_{i<j} x_if x_jf` of that factor |
| Interaction.CrossTerm | models/fm.py:51 | summing over factors commutes with summing over fields: `Σ_f a_f Σ_j y_jf = Σ_j <a, y_j>` |
| Interaction.FactorPairSums | models/fm.py:50-52 | the per-factor pairwise sums, summed over factors, equal `Σ_{i<j} <x_i, x_j>` |
| Interaction.HalfSumOfInteractions | models/fm.py:50-52 | with `reduce_sum`, half the sum of `ix` over the factors is `Σ_{i<j} <x_i, x_j>` |
| Interaction.Reduce | models/fm.py:43-52 | on one example, output has width 1 with `reduce_sum` and equals `Σ_{i<j} <x_i, x_j>`; without it, width `n_factors` with entry `f` the pairwise sum of factor `f` |
| Interaction.Forward | models/fm.py:43-52 | on a batch, one output row per example, holding the pairwise interaction (summed) or the per-factor pairwise interactions |
| Interaction.ReduceSumOfFactors | models/fm.py:50-51 | the per-factor outputs without `reduce_sum` add up to the single output with it |
| Interaction.TwoFieldInteraction | models/fm.py:79 | with two fields the pairwise interaction is the inner product of the two embeddings |
| Model.NewFM | models/fm.py:58-67 | a new FM has offsets `[0, n_users]` in both layers, tables of `n_users + n_items` rows, a zero one-wide bias, and a summed interaction |
| Model.Pairs | models/fm.py:78 | concatenating the id columns gives one row `[user, item]` per example |
| Model.PairsTranslate | models/fm.py:78-79 | every pair translates to rows `[user + offsets[0], item + offsets[1]]`, and the lookup succeeds exactly when both are table rows |
| Model.RowScore | models/fm.py:79 | for one pair, the linear output plus the interaction output is two table scalars plus the bias plus the user–item inner product |
| Model.BatchScores | models/fm.py:79 | when every pair is scorable both layers succeed, and each row's linear plus FM output is its pair score |
| Model.Forward | models/fm.py:76-80 | `forward` fails exactly when the id sequences differ in length or some id addresses no table row; otherwise it returns one score per pair: linear term plus user–item inner product |
| Model.Predict | models/fm.py:82-83 | `predict` returns the same result as `forward`, one score per pair |
| Model.LocalIdsScore | models/fm.py:63 | with `field_dims = [n_users, n_items]`, in-range ids always score, and user `u` reads row `u` while item `k` reads row `n_users + k` |
| Model.UserIdAliasesItemRow | models/fm.py:78-79 | a user id `n_users + t` is read as item `t`'s row without error; only an id past the whole table fails |
| Model.UniformPairScore | models/fm.py:79 | when every linear weight is `w` and every embedding entry is `e`, a pair scores `2w + bias + n_factors * e^2` |
| Model.HandComputedScores | models/fm.py:76-80 | with 3 users, 2 items, 4 factors, every weight 0.1 and the zero bias, each of the pairs (0,0), (1,1), (2,0) scores 0.24 |

## Left out

- Weight initialisation is left out (models/fm.py:28, 70-74). The model
  does not include the Xavier-uniform draw or the Xavier-normal redraw that
  `_init_weights` applies to every `nn.Embedding`, including the linear
  layer's `fc`. Both are random. The tables are inputs to `NewFM`,
  `NewFeaturesLinear` and `NewFeaturesEmbedding`.
- `Features.NewFeaturesLinear` and `Features.NewFeaturesEmbedding`
  require the table to have `sum(field_dims)` rows. When that sum is
  negative, `nn.Embedding` raises at models/fm.py:11 and :26; the
  precondition excludes this case instead of modelling the error.
- Autograd, `nn.Module` and `nn.Parameter` bookkeeping, devices, dtypes and
  training are left out. Weights only change between calls, and always
  outside this code.
- Floating point is left out. Values are Dafny `real`. The FM identity holds
  exactly over the reals, not bit-for-bit in float32.
- Index arithmetic uses unbounded integers. It does not model 64-bit
  wrap-around of `np.long` offsets or indices.
- Reading the `config` mapping (models/fm.py:61-63) is left out. `n_users`,
  `n_items` and `n_factors` are parameters.
- `view(-1, 1)` flattening is left out (models/fm.py:78). The user and item
  ids are one-dimensional sequences.
- `Model.Forward`: `squeeze(1)` is modelled only for the shape `FM`
  constructs. `Model.FM.Valid` fixes that shape: a one-wide linear output
  and `reduce_sum` on. The other shapes, where `squeeze(1)` leaves a
  dimension in place, are not modelled.
- `Layout.FieldRangeInTable`, `Layout.GlobalIndexInBounds`,
  `Layout.GlobalIndexInjective` and `Layout.Locate` assume non-negative
  field sizes. `nn.Embedding` accepts a negative size when the total is
  non-negative. With such a size the field ranges overlap.
- `Layout.AddOffsets` models broadcasting only for the two-dimensional index
  tensors these layers receive.
