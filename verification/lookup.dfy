/** `torch.nn.Embedding` lookup: every index of a (batch, fields) index
    tensor selects one row of the weight table. An index outside
    `[0, |table|)`, negative ones included, raises, and then nothing is
    returned. */
module Lookup {
  import opened Tensors

  /** The row at index `g`, or the index error. */
  function Row<T>(table: seq<T>, g: int): Option<T> {
    if 0 <= g < |table| then Some(table[g]) else None
  }

  /** Every index of the batch is a row of a table with `size` rows. */
  predicate InTable(idx: seq<seq<int>>, size: nat) {
    forall b, j :: 0 <= b < |idx| && 0 <= j < |idx[b]| ==> 0 <= idx[b][j] < size
  }

  /** Looks up one row of indices. */
  function GatherRow<T>(table: seq<T>, idx: seq<int>): (r: Option<seq<T>>)
    ensures r.Some? <==> forall j :: 0 <= j < |idx| ==> 0 <= idx[j] < |table|
    ensures r.Some? ==> |r.value| == |idx|
    ensures r.Some? ==> forall j :: 0 <= j < |idx| ==> r.value[j] == table[idx[j]]
    decreases |idx|
  {
    if |idx| == 0 then Some([])
    else
      match (Row(table, idx[0]), GatherRow(table, idx[1..]))
      case (Some(v), Some(vs)) => Some([v] + vs)
      case _ => None
  }

  /** `embedding(x)` for an index tensor `x`: the result keeps the shape of
      `x`, with a table row in place of each index. */
  function Gather<T>(table: seq<T>, idx: seq<seq<int>>): (r: Option<seq<seq<T>>>)
    ensures r.Some? <==> InTable(idx, |table|)
    ensures r.Some? ==> |r.value| == |idx|
    ensures r.Some? ==> forall b :: 0 <= b < |idx| ==> |r.value[b]| == |idx[b]|
    ensures r.Some? ==> forall b, j :: 0 <= b < |idx| && 0 <= j < |idx[b]| ==> r.value[b][j] == table[idx[b][j]]
    decreases |idx|
  {
    if |idx| == 0 then Some([])
    else
      match (GatherRow(table, idx[0]), Gather(table, idx[1..]))
      case (Some(v), Some(vs)) => Some([v] + vs)
      case _ => None
  }
}
