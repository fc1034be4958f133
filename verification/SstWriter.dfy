/** Writing an SST from a flush plan (src/storage/src/compaction/sst.rs, write_sst_streaming_try): empty
batches are skipped, and the time bounds are read off the first and last row of each batch. */
module SstWriter {
  import opened Rows
  import opened Sst
  import opened MergeFiles
  import Dedup

  /** Bounds from batch ends are exact on ascending rows; nothing is written for no rows. */
  method WriteSst(batches: seq<Batch>) returns (r: Result<(Stats, Contents)>)
    requires StrictlyAscending(Flatten(batches))
    ensures r.Err? <==> Flatten(batches) == []
    ensures r.Ok? ==> Flatten(r.value.1) == Flatten(batches) && Tight(r.value.0, Flatten(batches))
    ensures r.Ok? && (forall i :: 0 <= i < |batches| ==> batches[i] != []) ==> r.value.1 == batches
  {
    hide Flatten, Tight, StrictlyAscending, WidenBy;
    var written: Contents, stats := [], Stats(0, 0, 0);
    NoRowsTight();
    NoBatches(0);
    for i := 0 to |batches|
      invariant Flatten(written) == Flatten(batches[..i]) && Tight(stats, Flatten(written))
      invariant (forall k :: 0 <= k < i ==> batches[k] != []) ==> written == batches[..i]
    {
      var batch := batches[i];
      FlattenNext(batches, i);
      if batch == [] {
        continue;
      }
      PieceStrict(batches, i);
      EndsTight(stats, Flatten(written), batch);
      FlattenAppend(written, batch);
      stats := WidenBy(stats, batch);
      written := written + [batch];
    }
    assert batches[..|batches|] == batches;
    TightEmpty(stats, Flatten(batches));
    if stats.rows == 0 {
      return Err;
    }
    return Ok((stats, written));
  }

  lemma TightEmpty(s: Stats, rows: Batch)
    requires Tight(s, rows)
    ensures s.rows == 0 <==> rows == []
  {
  }

  function WidenBy(s: Stats, batch: Batch): (s': Stats)
    requires batch != []
  {
    var first, last := batch[0].time, batch[|batch| - 1].time;
    if s.rows == 0 then Stats(|batch|, first, last)
    else Stats(s.rows + |batch|, Min(s.minTs, first), Max(s.maxTs, last))
  }

  lemma EndsTight(s: Stats, done: Batch, batch: Batch)
    requires Tight(s, done) && StrictlyAscending(batch) && batch != []
    ensures Tight(WidenBy(s, batch), done + batch)
  {
    TimesConcat(done, batch);
    assert batch[0].time in Times(batch) && batch[|batch| - 1].time in Times(batch);
    forall k | 0 <= k < |batch|
      ensures batch[0].time <= batch[k].time <= batch[|batch| - 1].time
    {
    }
  }

  lemma PieceStrict(batches: seq<Batch>, i: nat)
    requires i < |batches| && StrictlyAscending(Flatten(batches))
    ensures StrictlyAscending(batches[i])
  {
    hide Flatten, StrictlyAscending;
    Dedup.StrictPrefix(batches, i + 1);
    FlattenNext(batches, i);
    Dedup.StrictConcat(Flatten(batches[..i]), batches[i]);
  }

  const FLUSH_WINDOW_ROWS: nat := 8192

  /** The file a flush or bulk load writes lists the last write of each time of its chunks. */
  method FlushChunks(chunks: seq<Batch>, window: nat) returns (r: Result<(Stats, Contents)>)
    ensures r.Err? <==> Flatten(chunks) == []
    ensures r.Ok? ==> Lists(Flatten(r.value.1), LastWrite(Flatten(chunks))) && Tight(r.value.0, Flatten(r.value.1))
    ensures r.Ok? ==> Flatten(r.value.1) != []
    ensures r.Ok? && !StrictlyAscending(Flatten(chunks)) ==> FullButLast(r.value.1, if window == 0 then 1 else window)
  {
    hide LastWrite, Flatten, Tight;
    var plan := Dedup.PlanFlush(chunks);
    if plan.Err? {
      return Err;
    }
    match plan.value {
      case Streaming(streamed) =>
        SameMeaningSameEmptiness(Flatten(streamed), Flatten(chunks));
        r := WriteSst(streamed);
      case Sorted(sources, coords) =>
        var batches := Dedup.WindowBatches(sources, coords, window);
        SameMeaningSameEmptiness(Flatten(batches), Flatten(chunks));
        r := WriteSst(batches);
    }
  }
}
