/** `FM`: the factorization machine over two fields, user id and item id.
    The score of a (user, item) pair is the linear term (two looked-up
    scalars plus the bias) plus the factorization-machine term, which for
    two fields is the inner product of the user and item embeddings. */
module Model {
  import opened Tensors
  import opened Reals
  import opened Layout
  import opened Features
  import Interaction

  datatype FM = FM(embedding: FeaturesEmbedding, linear: FeaturesLinear, fm: Interaction.FactorizationMachine) {
    /** The shape a constructed model keeps while its weights change: both
        layers translate the same two fields into tables of the same number
        of rows, the linear term is one wide, and the interaction is summed
        over the factors. */
    predicate Valid() {
      && embedding.Valid() && linear.Valid()
      && |linear.offsets| == 2 && embedding.offsets == linear.offsets
      && |linear.fc| == |embedding.embedding|
      && |linear.bias| == 1
      && fm.reduceSum
    }

    /** The model was built for `nUsers` users and `nItems` items. */
    predicate Built(nUsers: nat, nItems: nat) {
      && Valid()
      && linear.offsets == [0, nUsers]
      && |linear.fc| == nUsers + nItems
    }

    /** Global table row of a user id and of an item id. */
    function UserRow(u: int): int
      requires Valid()
    {
      u + linear.offsets[0]
    }

    function ItemRow(i: int): int
      requires Valid()
    {
      i + linear.offsets[1]
    }

    /** Both ids of a pair address rows of the tables. */
    predicate Scorable(u: int, i: int)
      requires Valid()
    {
      0 <= UserRow(u) < |linear.fc| && 0 <= ItemRow(i) < |linear.fc|
    }

    /** The score of a pair whose rows are `gu` and `gi`: linear term plus
        the inner product of the two embeddings. */
    function PairScore(gu: int, gi: int): real
      requires Valid()
      requires 0 <= gu < |linear.fc| && 0 <= gi < |linear.fc|
    {
      linear.fc[gu][0] + linear.fc[gi][0] + linear.bias[0]
        + Dot(embedding.embedding[gu], embedding.embedding[gi])
    }
  }

  /** `FM(config)` with `field_dims = [n_users, n_items]`: both layers get
      offsets `[0, nUsers]`, so user `u` is row `u` and item `k` is row
      `nUsers + k`; the bias starts at zero and the interaction is summed.
      The two tables stand for the weights left by initialisation. */
  function NewFM(nFactors: nat, nUsers: nat, nItems: nat,
                 embeddingWeight: seq<seq<real>>, linearWeight: seq<seq<real>>): (m: FM)
    requires |embeddingWeight| == nUsers + nItems && Rect(embeddingWeight, nFactors)
    requires |linearWeight| == nUsers + nItems && Rect(linearWeight, 1)
    ensures m.Valid() && m.Built(nUsers, nItems)
    ensures m.linear.offsets == [0, nUsers] && m.embedding.offsets == [0, nUsers]
    ensures m.linear.bias == [0.0]
    ensures m.embedding.embedding == embeddingWeight && m.embedding.nFactors == nFactors
    ensures m.linear.fc == linearWeight
  {
    var dims := [nUsers, nItems];
    assert dims[..1] == [nUsers];
    assert Total([nItems]) == nItems;
    FM(NewFeaturesEmbedding(dims, nFactors, embeddingWeight),
       NewFeaturesLinear(dims, 1, linearWeight),
       Interaction.FactorizationMachine(true))
  }

  /** `torch.cat([users.view(-1, 1), items.view(-1, 1)], dim=1)`. */
  function Pairs(users: seq<int>, items: seq<int>): (x: seq<seq<int>>)
    requires |users| == |items|
    ensures |x| == |users| && Rect(x, 2)
    ensures forall b :: 0 <= b < |x| ==> x[b] == [users[b], items[b]]
  {
    seq(|users|, b requires 0 <= b < |users| => [users[b], items[b]])
  }

  /** The two translated ids of every pair: user `u` becomes `UserRow(u)`,
      item `i` becomes `ItemRow(i)`, and both must be rows of the tables. */
  lemma PairsTranslate(m: FM, users: seq<int>, items: seq<int>)
    requires m.Valid() && |users| == |items|
    ensures AddOffsets(Pairs(users, items), 2, m.linear.offsets).Some?
    ensures forall b :: 0 <= b < |users| ==>
              AddOffsets(Pairs(users, items), 2, m.linear.offsets).value[b] == [m.UserRow(users[b]), m.ItemRow(items[b])]
    ensures Translates(Pairs(users, items), 2, m.linear.offsets, |m.linear.fc|) <==>
              forall b :: 0 <= b < |users| ==> m.Scorable(users[b], items[b])
  {
    var x := Pairs(users, items);
    var g := AddOffsets(x, 2, m.linear.offsets).value;
    forall b | 0 <= b < |users|
      ensures g[b] == [m.UserRow(users[b]), m.ItemRow(items[b])]
    {
      assert |g[b]| == 2;
    }
  }

  /** One pair: its linear output and its interaction output add up to its
      `PairScore`. */
  lemma RowScore(m: FM, gu: int, gi: int, lin: seq<real>, emb: seq<seq<real>>)
    requires m.Valid()
    requires 0 <= gu < |m.linear.fc| && 0 <= gi < |m.linear.fc|
    requires |lin| == 1 && lin[0] == FieldSum(m.linear.fc, [gu, gi], 0) + m.linear.bias[0]
    requires emb == [m.embedding.embedding[gu], m.embedding.embedding[gi]]
    ensures lin[0] + Interaction.Reduce(m.fm, emb, m.embedding.nFactors)[0] == m.PairScore(gu, gi)
  {
    var terms := seq(2, j requires 0 <= j < 2 => m.linear.fc[[gu, gi][j]][0]);
    assert terms[1..][1..] == [];
    assert Sum(terms[1..]) == terms[1];
    Interaction.TwoFieldInteraction(emb[0], emb[1]);
  }

  /** When every pair is scorable, both layers succeed and every row's
      linear plus interaction output is its `PairScore`. */
  lemma BatchScores(m: FM, users: seq<int>, items: seq<int>)
    requires m.Valid() && |users| == |items|
    requires forall b :: 0 <= b < |users| ==> m.Scorable(users[b], items[b])
    ensures LinearForward(m.linear, Pairs(users, items), 2).Some?
    ensures EmbeddingForward(m.embedding, Pairs(users, items), 2).Some?
    ensures forall b :: 0 <= b < |users| ==>
              LinearForward(m.linear, Pairs(users, items), 2).value[b][0]
                + Interaction.Reduce(m.fm, EmbeddingForward(m.embedding, Pairs(users, items), 2).value[b], m.embedding.nFactors)[0]
              == m.PairScore(m.UserRow(users[b]), m.ItemRow(items[b]))
  {
    var x := Pairs(users, items);
    PairsTranslate(m, users, items);
    var g := AddOffsets(x, 2, m.linear.offsets).value;
    var lin := LinearForward(m.linear, x, 2).value;
    var emb := EmbeddingForward(m.embedding, x, 2).value;
    forall b | 0 <= b < |users|
      ensures lin[b][0] + Interaction.Reduce(m.fm, emb[b], m.embedding.nFactors)[0]
                == m.PairScore(m.UserRow(users[b]), m.ItemRow(items[b]))
    {
      var gu, gi := m.UserRow(users[b]), m.ItemRow(items[b]);
      assert g[b] == [gu, gi];
      assert emb[b] == [m.embedding.embedding[gu], m.embedding.embedding[gi]] by {
        assert |emb[b]| == 2;
      }
      RowScore(m, gu, gi, lin[b], emb[b]);
    }
  }

  /** `FM.forward(users_feat, items_feat)`: one score per pair. It fails
      exactly when the two id sequences differ in length or some id
      addresses no table row; otherwise score `b` is the linear term of the
      pair plus the inner product of its user and item embeddings. */
  function Forward(m: FM, users: seq<int>, items: seq<int>): (r: Option<seq<real>>)
    requires m.Valid()
    ensures r.Some? <==> |users| == |items| && forall b :: 0 <= b < |users| ==> m.Scorable(users[b], items[b])
    ensures r.Some? ==> |r.value| == |users|
    ensures r.Some? ==> forall b :: 0 <= b < |users| ==>
              r.value[b] == m.PairScore(m.UserRow(users[b]), m.ItemRow(items[b]))
  {
    if |users| != |items| then None
    else
      var x := Pairs(users, items);
      PairsTranslate(m, users, items);
      var linear := LinearForward(m.linear, x, 2);
      var embedded := EmbeddingForward(m.embedding, x, 2);
      if linear.None? || embedded.None? then None
      else
        BatchScores(m, users, items);
        var inter := Interaction.Forward(m.fm, embedded.value, 2, m.embedding.nFactors);
        Some(seq(|x|, b requires 0 <= b < |x| => linear.value[b][0] + inter[b][0]))
  }

  /** `FM.predict`: the same scores as `Forward`, one per pair. */
  function Predict(m: FM, users: seq<int>, items: seq<int>): (r: Option<seq<real>>)
    requires m.Valid()
    ensures r == Forward(m, users, items)
    ensures r.Some? ==> |r.value| == |users|
  {
    Forward(m, users, items)
  }

  /** For ids inside their own ranges the model always scores: user `u`
      reads row `u`, item `k` reads row `nUsers + k`. */
  lemma LocalIdsScore(m: FM, nUsers: nat, nItems: nat, users: seq<int>, items: seq<int>)
    requires m.Built(nUsers, nItems)
    requires |users| == |items|
    requires forall b :: 0 <= b < |users| ==> 0 <= users[b] < nUsers && 0 <= items[b] < nItems
    ensures Forward(m, users, items).Some?
    ensures forall b :: 0 <= b < |users| ==>
              Forward(m, users, items).value[b] == m.PairScore(users[b], nUsers + items[b])
  {
    LocalIdRows(m, nUsers, nItems, users, items);
    var r := Forward(m, users, items);
    assert r.Some?;
    forall b | 0 <= b < |users|
      ensures r.value[b] == m.PairScore(users[b], nUsers + items[b])
    {
      assert r.value[b] == m.PairScore(m.UserRow(users[b]), m.ItemRow(items[b]));
    }
  }

  /** With offsets `[0, nUsers]`, in-range ids are scorable and land on rows
      `u` and `nUsers + k`. */
  lemma LocalIdRows(m: FM, nUsers: nat, nItems: nat, users: seq<int>, items: seq<int>)
    requires m.Built(nUsers, nItems)
    requires |users| == |items|
    requires forall b :: 0 <= b < |users| ==> 0 <= users[b] < nUsers && 0 <= items[b] < nItems
    ensures forall b :: 0 <= b < |users| ==>
              && m.Scorable(users[b], items[b])
              && m.UserRow(users[b]) == users[b] && m.ItemRow(items[b]) == nUsers + items[b]
  {
  }

  /** Ids are not checked against their own field: a user id `nUsers + t`
      is silently read as item `t`'s row, and only an id beyond the whole
      table fails. */
  lemma UserIdAliasesItemRow(m: FM, nUsers: nat, nItems: nat, t: int, i: int)
    requires m.Built(nUsers, nItems)
    requires 0 <= t < nItems && 0 <= i < nItems
    ensures Forward(m, [nUsers + t], [i]) == Some([m.PairScore(nUsers + t, nUsers + i)])
    ensures Forward(m, [nUsers + nItems], [i]).None?
  {
    var r := Forward(m, [nUsers + t], [i]);
    assert m.UserRow(nUsers + t) == nUsers + t && m.ItemRow(i) == nUsers + i;
    assert m.Scorable(nUsers + t, i);
    assert |r.value| == 1;
    assert r.value == [m.PairScore(nUsers + t, nUsers + i)];
    assert !m.Scorable(nUsers + nItems, i);
  }

  /** With every linear weight `w` and every embedding entry `e`, a pair
      scores its two linear weights, the bias, and one `e * e` per factor. */
  lemma UniformPairScore(m: FM, gu: int, gi: int, w: real, e: real)
    requires m.Valid()
    requires 0 <= gu < |m.linear.fc| && 0 <= gi < |m.linear.fc|
    requires m.linear.fc[gu][0] == w && m.linear.fc[gi][0] == w
    requires forall f :: 0 <= f < m.embedding.nFactors ==> m.embedding.embedding[gu][f] == e
    requires forall f :: 0 <= f < m.embedding.nFactors ==> m.embedding.embedding[gi][f] == e
    ensures m.PairScore(gu, gi) == w + w + m.linear.bias[0] + (m.embedding.nFactors as real) * (e * e)
  {
    var u, v := m.embedding.embedding[gu], m.embedding.embedding[gi];
    SumOfConstant(seq(|u|, f requires 0 <= f < |u| => u[f] * v[f]), e * e);
  }

  /** Three users, two items, four factors, every weight 0.1 and the zero
      bias a new model starts with: each pair scores
      0.1 + 0.1 + 4 * 0.1 * 0.1 = 0.24. */
  lemma HandComputedScores(m: FM)
    requires m.Built(3, 2) && m.embedding.nFactors == 4 && m.linear.bias == [0.0]
    requires forall g :: 0 <= g < 5 ==> m.linear.fc[g] == [0.1] && m.embedding.embedding[g] == [0.1, 0.1, 0.1, 0.1]
    ensures Forward(m, [0, 1, 2], [0, 1, 0]) == Some([0.24, 0.24, 0.24])
  {
    UniformPairScore(m, 0, 3, 0.1, 0.1);
    UniformPairScore(m, 1, 4, 0.1, 0.1);
    UniformPairScore(m, 2, 3, 0.1, 0.1);
    assert m.PairScore(0, 3) == 0.24 && m.PairScore(1, 4) == 0.24 && m.PairScore(2, 3) == 0.24;
    assert m.Scorable(0, 0) && m.Scorable(1, 1) && m.Scorable(2, 0);
    var r := Forward(m, [0, 1, 2], [0, 1, 0]).value;
    assert |r| == 3 && r[0] == 0.24 && r[1] == 0.24 && r[2] == 0.24;
    ThreeEntries(r, 0.24);
  }

  /** A sequence of three entries equal to `v` is `[v, v, v]`. */
  lemma ThreeEntries(r: seq<real>, v: real)
    requires |r| == 3 && r[0] == v && r[1] == v && r[2] == v
    ensures r == [v, v, v]
  {
  }
}
