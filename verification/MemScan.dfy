/** The scan of one memtable (src/query/src/mem_exec.rs): chunks that are already strictly ordered are
filtered and handed out one at a time; otherwise one sorted, deduplicated snapshot is built first. */
module MemScan {
  import opened Rows
  import opened Filter
  import opened Pruning
  import opened Dedup

  datatype ScanState =
    | Streaming(chunks: seq<Batch>, next: nat)
    | Buffered(batches: seq<Batch>, next: nat)

  /** The chunks with at least one row in the range, filtered. */
  function FilteredChunks(chunks: seq<Batch>, range: TimeRange): (r: seq<Batch>)
    ensures forall i :: 0 <= i < |r| ==> r[i] != []
  {
    if chunks == [] then [] else
      var n := |chunks| - 1;
      var kept, last := FilteredChunks(chunks[..n], range), InRange(chunks[n], range);
      if last == [] then kept else kept + [last]
  }

  lemma {:induction false} FilteredRows(chunks: seq<Batch>, range: TimeRange)
    ensures Flatten(FilteredChunks(chunks, range)) == InRange(Flatten(chunks), range)
  {
    if chunks != [] {
      var n := |chunks| - 1;
      FilteredRows(chunks[..n], range);
      InRangeConcat(Flatten(chunks[..n]), chunks[n], range);
      var kept, last := FilteredChunks(chunks[..n], range), InRange(chunks[n], range);
      FlattenAppend(kept, last);
    }
  }

  lemma FilteredHead(chunks: seq<Batch>, i: nat, range: TimeRange)
    requires i < |chunks|
    ensures InRange(Flatten(chunks[i..]), range) == InRange(chunks[i], range) + InRange(Flatten(chunks[i + 1..]), range)
  {
    FlattenHead(chunks[i..]);
    assert chunks[i..][1..] == chunks[i + 1..];
    InRangeConcat(chunks[i], Flatten(chunks[i + 1..]), range);
  }

  class MemTableScanStream {
    const range: TimeRange
    var state: ScanState

    ghost predicate Valid()
      reads this
    {
      match state
      case Streaming(chunks, next) => next <= |chunks|
      case Buffered(batches, next) => next <= |batches| && forall i :: 0 <= i < |batches| ==> batches[i] != []
    }

    /** The rows still to be handed out. */
    ghost function Remaining(): (rows: Batch)
      requires Valid()
      reads this
    {
      match state
      case Streaming(chunks, next) => InRange(Flatten(chunks[next..]), range)
      case Buffered(batches, next) => Flatten(batches[next..])
    }

    constructor (range: TimeRange, state: ScanState)
      requires state.next == 0
      requires state.Buffered? ==> forall i :: 0 <= i < |state.batches| ==> state.batches[i] != []
      ensures Valid() && this.state == state && this.range == range
      ensures Remaining() == if state.Streaming? then InRange(Flatten(state.chunks), range) else Flatten(state.batches)
    {
      this.range, this.state := range, state;
      new;
      assert state.Streaming? ==> state.chunks[0..] == state.chunks;
      assert state.Buffered? ==> state.batches[0..] == state.batches;
    }

    /** Hands out the next batch, never an empty one. */
    method PollNext() returns (r: Option<Batch>)
      requires Valid()
      modifies this
      ensures Valid()
      ensures r.None? ==> old(Remaining()) == []
      ensures r.Some? ==> r.value != [] && old(Remaining()) == r.value + Remaining()
    {
      match state
      case Streaming(chunks, _) =>
        while state.next < |chunks|
          invariant Valid() && state.Streaming? && state.chunks == chunks
          invariant old(Remaining()) == Remaining()
          decreases |chunks| - state.next
        {
          FilteredHead(chunks, state.next, range);
          var batch := InRange(chunks[state.next], range);
          state := ScanState.Streaming(chunks, state.next + 1);
          if batch != [] {
            return Some(batch);
          }
        }
        return None;
      case Buffered(batches, next) =>
        if next < |batches| {
          FlattenHead(batches[next..]);
          assert batches[next..][1..] == batches[next + 1..];
          state := Buffered(batches, next + 1);
          return Some(batches[next]);
        }
        return None;
    }
  }

  /** Whether the scan takes a correct path: strictly ordered chunks, or filtered chunks whose ends do
      not merely look ordered. */
  predicate Scannable(chunks: seq<Batch>, range: TimeRange) {
    var filtered := FilteredChunks(chunks, range);
    StrictlyAscending(Flatten(chunks)) || (|filtered| > 1 && EndsInOrder(filtered) ==> Separated(filtered))
  }

  /** The stream lists exactly the memtable's newest rows in the range, if and only if the memtable is
      scannable. */
  method Execute(chunks: seq<Batch>, range: TimeRange) returns (s: MemTableScanStream)
    ensures fresh(s) && s.Valid() && s.range == range
    ensures Lists(s.Remaining(), Restrict(LastWrite(Flatten(chunks)), range)) <==> Scannable(chunks, range)
  {
    hide LastWrite, Flatten, InRange, StrictlyAscending, EndsInOrder, Separated;
    InRangeMeans(Flatten(chunks), range);
    var ordered := ChunksStrictlyOrdered(chunks);
    if ordered {
      InRangeStrict(Flatten(chunks), range);
      s := new MemTableScanStream(range, ScanState.Streaming(chunks, 0));
    } else {
      var filtered := FilteredChunks(chunks, range);
      FilteredRows(chunks, range);
      NonEmptyAlready(filtered);
      var batches := PrepareScanBatches(filtered);
      s := new MemTableScanStream(range, Buffered(batches, 0));
    }
  }

  lemma {:induction false} NonEmptyAlready(chunks: seq<Batch>)
    requires forall i :: 0 <= i < |chunks| ==> chunks[i] != []
    ensures NonEmpty(chunks) == chunks
  {
    if chunks != [] {
      NonEmptyAlready(chunks[..|chunks| - 1]);
    }
  }

  /** Drains the stream: the batches are non-empty, so the merge downstream sees all of them. */
  method Drain(s: MemTableScanStream) returns (batches: seq<Batch>)
    requires s.Valid()
    modifies s
    ensures forall i :: 0 <= i < |batches| ==> batches[i] != []
    ensures Flatten(batches) == old(s.Remaining())
  {
    hide Flatten, InRange;
    batches := [];
    ghost var all := s.Remaining();
    NoBatches(0);
    while true
      invariant s.Valid() && all == Flatten(batches) + s.Remaining()
      invariant forall i :: 0 <= i < |batches| ==> batches[i] != []
      decreases |s.Remaining()|
    {
      var r := s.PollNext();
      if r.None? {
        break;
      }
      FlattenAppend(batches, r.value);
      batches := batches + [r.value];
    }
  }

  /** A whole memtable scan. */
  method ScanMemtable(chunks: seq<Batch>, range: TimeRange) returns (batches: seq<Batch>)
    ensures forall i :: 0 <= i < |batches| ==> batches[i] != []
    ensures Lists(Flatten(batches), Restrict(LastWrite(Flatten(chunks)), range)) <==> Scannable(chunks, range)
  {
    var s := Execute(chunks, range);
    batches := Drain(s);
  }

  /** Time 9 is inserted twice, once in each chunk, and the scan takes the wrong path. */
  lemma UnscannableMemtable()
    ensures !Scannable(OVERLAPPING, EVERYTHING)
  {
    hide Separated, EndsInOrder, FilteredChunks, Flatten;
    WholeChunks(OVERLAPPING);
    OverlappingEndsInOrder();
    FlattenHead(OVERLAPPING);
    assert Flatten(OVERLAPPING)[1].time > Flatten(OVERLAPPING)[2].time;
  }

  lemma {:induction false} WholeRange(rows: Batch)
    ensures InRange(rows, EVERYTHING) == rows
  {
    if rows != [] {
      WholeRange(rows[..|rows| - 1]);
    }
  }

  lemma {:induction false} WholeChunks(chunks: seq<Batch>)
    requires forall i :: 0 <= i < |chunks| ==> chunks[i] != []
    ensures FilteredChunks(chunks, EVERYTHING) == chunks
  {
    if chunks != [] {
      WholeChunks(chunks[..|chunks| - 1]);
      WholeRange(chunks[|chunks| - 1]);
    }
  }
}
