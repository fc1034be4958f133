/** Every newest-wins implementation of the repository gives the same rows: the compactor's heap merge,
the reverse scan with a seen-set, sort-and-keep-last, the windowed coordinate sort and the query's
suspendable heap merge. */
module Agreement {
  import opened Rows
  import opened MergeFiles
  import Dedup
  import LayerMerge
  import LsmStream
  import MergeCore

  lemma {:induction false} FlattenTwice(contents: seq<Contents>)
    ensures Flatten(Flatten(contents)) == Flatten(FileRows(contents))
  {
    if contents != [] {
      var n := |contents| - 1;
      FlattenTwice(contents[..n]);
      FlattenConcat(Flatten(contents[..n]), contents[n]);
      assert FileRows(contents)[..n] == FileRows(contents[..n]);
    }
  }

  /** Files of a run as one list of chunks, oldest first: all of them mean the last write per time. */
  lemma RunMeaning(contents: seq<Contents>)
    requires forall i :: 0 <= i < |contents| ==> StrictlyAscending(Flatten(contents[i]))
    ensures LaterWins(FileRows(contents)) == LastWrite(Flatten(Flatten(contents)))
  {
    FlattenTwice(contents);
    LaterWinsIsLastWrite(FileRows(contents));
  }

  method FlushWindows(chunks: seq<Batch>, window: nat) returns (batches: seq<Batch>)
    ensures Lists(Flatten(batches), LastWrite(Flatten(chunks)))
  {
    var coords := Dedup.BuildSorted(chunks);
    batches := Dedup.WindowBatches(chunks, coords, window);
  }

  /** On ascending unique layers, however the query's streams batch and suspend, and for windows of any
      size, all five give the same rows. */
  method AllAgree(contents: seq<Contents>, window: nat, streams: seq<seq<LsmStream.Poll>>, priorities: seq<nat>)
    returns (merged: seq<Batch>, scanned: seq<Batch>, deduped: seq<Batch>, flushed: seq<Batch>, streamed: seq<Batch>)
    requires forall i :: 0 <= i < |contents| ==> |contents[i]| < KEY_SHIFT
    requires forall i :: 0 <= i < |contents| ==> StrictlyAscending(Flatten(contents[i]))
    requires |streams| == |priorities| && LsmStream.Increasing(priorities)
    requires LsmStream.DeliveredAll(streams) == Reverse(FileRows(contents))
    ensures Flatten(merged) == Flatten(scanned) == Flatten(deduped) == Flatten(flushed) == Flatten(streamed)
    ensures Lists(Flatten(merged), LastWrite(Flatten(Flatten(contents))))
  {
    hide LastWrite, LaterWins, Lists, Flatten, LsmStream.Delivered;
    ghost var m := LastWrite(Flatten(Flatten(contents)));
    RunMeaning(contents);
    AscendingLayers(contents, streams);
    var stats;
    merged, stats := MergeBatches(contents);
    scanned := LayerMerge.MergeSstLayers(contents);
    deduped := Dedup.DedupeBatchesNewestWins(Flatten(contents));
    flushed := FlushWindows(Flatten(contents), window);
    streamed := LsmStream.MergeLayers(streams, priorities);
    assert Reverse(Reverse(FileRows(contents))) == FileRows(contents);
    ListsAgree(Flatten(merged), Flatten(scanned), m);
    ListsAgree(Flatten(merged), Flatten(deduped), m);
    ListsAgree(Flatten(merged), Flatten(flushed), m);
    ListsAgree(Flatten(merged), Flatten(streamed), m);
  }

  lemma AscendingLayers(contents: seq<Contents>, streams: seq<seq<LsmStream.Poll>>)
    requires forall i :: 0 <= i < |contents| ==> StrictlyAscending(Flatten(contents[i]))
    requires LsmStream.DeliveredAll(streams) == Reverse(FileRows(contents))
    ensures forall i :: 0 <= i < |contents| ==> Ascending(Flatten(contents[i]))
    ensures MergeCore.AllAscending(LsmStream.DeliveredAll(streams))
  {
    hide Flatten, LsmStream.Delivered;
    forall i | 0 <= i < |streams|
      ensures Ascending(LsmStream.Delivered(streams[i]))
    {
      assert LsmStream.DeliveredAll(streams)[i] == Flatten(contents[|contents| - 1 - i]);
    }
  }
}
