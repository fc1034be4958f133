/** The row collector both merges share: surviving rows are kept as coordinates into the distinct
source batches they came from and materialized once per output batch. A batch is recognised by a
key: its address in the query merge, `(source, load count)` in the compaction merge. */
module MergeChunks {
  import opened Rows

  datatype MergeChunk = MergeChunk(
    indices: seq<(nat, nat)>,
    sources: seq<Batch>,
    sourceIndex: map<nat, nat>)
  {
    predicate Valid() {
      && (forall k :: k in sourceIndex ==> sourceIndex[k] < |sources|)
      && (forall i :: 0 <= i < |indices| ==>
            indices[i].0 < |sources| && indices[i].1 < |sources[indices[i].0]|)
    }

    /** Every key still names the batch that `memory` holds under it: no key has been recycled. */
    predicate Agrees(memory: map<nat, Batch>)
      requires Valid()
    {
      forall k :: k in sourceIndex ==> k in memory && memory[k] == sources[sourceIndex[k]]
    }

    function Build(): (rows: Batch)
      requires Valid()
      ensures |rows| == |indices|
    {
      seq(|indices|, i requires 0 <= i < |indices| => sources[indices[i].0][indices[i].1])
    }

    /** Pushing appends exactly the row meant, as long as keys and batches agree. */
    function Push(key: nat, batch: Batch, row: nat, ghost memory: map<nat, Batch>): (c: MergeChunk)
      requires Valid() && row < |batch| && Agrees(memory)
      requires key in memory && memory[key] == batch
      ensures c.Valid() && c.Agrees(memory) && c.Build() == Build() + [batch[row]]
      ensures c.sourceIndex.Keys == sourceIndex.Keys + {key}
    {
      if key in sourceIndex then
        MergeChunk(indices + [(sourceIndex[key], row)], sources, sourceIndex)
      else
        MergeChunk(indices + [(|sources|, row)], sources + [batch], sourceIndex[key := |sources|])
    }
  }

  const EMPTY := MergeChunk([], [], map[])
}
