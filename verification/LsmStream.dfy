/** The suspendable k-way merge behind every multi-layer scan (src/query/src/lsm_stream.rs).

An input stream is the script of answers it will give to successive polls: any number of
`Pending` results may stand anywhere, and rows may be cut into batches in any way. An exhausted
script answers "end of stream". Layers are ordered newest first by strictly growing priority. */
module LsmStream {
  import opened Rows
  import opened MergeChunks
  import opened MergeCore

  const OUTPUT_BATCH_SIZE: nat := 8192

  datatype Poll = Pending | Ready(batch: Batch)

  datatype RowStep = Drained | Suspended | Again | Full(batch: Batch)

  datatype PollNext = Waiting | Item(batch: Batch) | Finished

  /** The rows a merge obtains from a script: a zero-row batch ends the stream for good, because the
      merge pushes no cursor for it and so never polls the stream again. */
  function Delivered(script: seq<Poll>): (rows: Batch) {
    if script == [] then []
    else match script[0]
      case Pending => Delivered(script[1..])
      case Ready(b) => if b == [] then [] else b + Delivered(script[1..])
  }

  /** The rows the stream would hand out if it were polled to its end. */
  function AllRows(script: seq<Poll>): (rows: Batch) {
    if script == [] then []
    else match script[0]
      case Pending => AllRows(script[1..])
      case Ready(b) => b + AllRows(script[1..])
  }

  datatype HeapCursor = HeapCursor(
    ts: int, layerPriority: nat, streamIdx: nat, rowIdx: nat, address: nat, batch: Batch)
  {
    predicate Valid() {
      rowIdx < |batch| && ts == batch[rowIdx].time
    }

    function Left(): (rows: Batch) {
      if rowIdx <= |batch| then batch[rowIdx..] else []
    }

    /** This cursor pops before `other`: smaller time first, newer layer first on equal times. */
    predicate Before(other: HeapCursor) {
      ts < other.ts || (ts == other.ts && layerPriority <= other.layerPriority)
    }
  }

  /** For every stream, the rows a merge in this state has still to take from it: the rest of its
      cursor's batch and whatever the script will deliver, or nothing once it is closed. */
  ghost function RestsOf(
    streams: seq<seq<Poll>>, heap: map<nat, HeapCursor>, initIdx: nat, pending: Option<nat>): (rest: seq<Batch>)
    ensures |rest| == |streams|
  {
    seq(|streams|, i requires 0 <= i < |streams| =>
      if i in heap then heap[i].Left() + Delivered(streams[i])
      else if initIdx <= i || pending == Some(i) then Delivered(streams[i])
      else [])
  }

  function DeliveredAll(streams: seq<seq<Poll>>): (layers: seq<Batch>)
    ensures |layers| == |streams|
  {
    seq(|streams|, i requires 0 <= i < |streams| => Delivered(streams[i]))
  }

  lemma PushRests(s: seq<seq<Poll>>, h: map<nat, HeapCursor>, n: nat, p: Option<nat>, i: nat, c: HeapCursor)
    requires i < |s|
    ensures RestsOf(s, h[i := c], n, p) == RestsOf(s, h, n, p)[i := c.Left() + Delivered(s[i])]
  {
  }

  lemma PopRests(s: seq<seq<Poll>>, h: map<nat, HeapCursor>, n: nat, i: nat)
    requires n == |s| && i < |s|
    ensures RestsOf(s, h - {i}, n, None) == RestsOf(s, h, n, None)[i := []]
  {
  }

  /** With every open stream represented in the heap, the popped cursor heads the least row left, in
      the newest layer that has one of its time. */
  lemma HeadsAreLeast(s: seq<seq<Poll>>, h: map<nat, HeapCursor>, n: nat, priorities: seq<nat>, i: nat)
    requires n == |s| == |priorities| && i < n && i in h && Increasing(priorities)
    requires forall j :: j in h ==> j < n && h[j].Valid() && h[j].layerPriority == priorities[j]
    requires forall j :: j in h ==> h[i].Before(h[j])
    ensures var rest := RestsOf(s, h, n, None);
            && rest[i] == h[i].Left() + Delivered(s[i])
            && |h[i].Left()| > 0 && rest[i][0] == h[i].batch[h[i].rowIdx]
            && rest[i][1..] == h[i].Left()[1..] + Delivered(s[i])
            && LeastHead(rest, i)
  {
    var rest: seq<Batch> := RestsOf(s, h, n, None);
    forall j | 0 <= j < |rest| && rest[j] != []
      ensures rest[i][0].time < rest[j][0].time || (rest[i][0].time == rest[j][0].time && i <= j)
    {
      assert j in h;
      assert rest[j][0] == h[j].batch[h[j].rowIdx];
    }
  }

  /** Stream `i`, which had no cursor, was polled; unless the answer was `Pending`, what it was going
      to deliver is now split between its cursor and its script. */
  ghost predicate Fetched(
    s: seq<seq<Poll>>, h: map<nat, HeapCursor>, s': seq<seq<Poll>>, h': map<nat, HeapCursor>, i: nat, ready: bool)
  {
    && i < |s| == |s'| && s' == s[i := s'[i]]
    && i !in h && h' - {i} == h
    && if !ready then h' == h && Delivered(s'[i]) == Delivered(s[i])
       else if i in h' then h'[i].Left() + Delivered(s'[i]) == Delivered(s[i])
       else Delivered(s[i]) == []
  }

  lemma FetchedBatch(s: seq<seq<Poll>>, h: map<nat, HeapCursor>, i: nat, c: HeapCursor)
    requires i < |s| && i !in h && s[i] != [] && s[i][0] == Ready(c.batch) && c.batch != [] && c.rowIdx == 0
    ensures Fetched(s, h, s[i := s[i][1..]], h[i := c], i, true)
  {
    assert h[i := c] - {i} == h;
    assert c.Left() == c.batch;
  }

  lemma FetchedNothing(s: seq<seq<Poll>>, h: map<nat, HeapCursor>, i: nat)
    requires i < |s| && i !in h
    ensures h - {i} == h
    ensures s[i] == [] ==> Fetched(s, h, s, h, i, true)
    ensures s[i] != [] && s[i][0] == Ready([]) ==> Fetched(s, h, s[i := s[i][1..]], h, i, true)
    ensures s[i] != [] && s[i][0] == Pending ==> Fetched(s, h, s[i := s[i][1..]], h, i, false)
  {
  }

  /** Fetching moves rows around without losing any, provided a suspended fetch stays on record. */
  lemma FetchKeepsRests(
    s: seq<seq<Poll>>, h: map<nat, HeapCursor>, n: nat, p: Option<nat>,
    s': seq<seq<Poll>>, h': map<nat, HeapCursor>, n': nat, p': Option<nat>, i: nat, ready: bool)
    requires Fetched(s, h, s', h', i, ready)
    requires n' == n || (n' == n + 1 && i == n)
    requires (p.None? || p == Some(i)) && (p'.None? || p' == Some(i))
    requires if ready then i < n' && p'.None? else n' <= i || p' == Some(i)
    ensures RestsOf(s', h', n', p') == RestsOf(s, h, n, p)[i := Delivered(s[i])]
    ensures n <= i || p == Some(i) ==> RestsOf(s', h', n', p') == RestsOf(s, h, n, p)
  {
    assert forall k :: k != i ==> (k in h' <==> k in h);
  }

  predicate Increasing(priorities: seq<nat>) {
    forall i, j :: 0 <= i < j < |priorities| ==> priorities[i] < priorities[j]
  }

  lemma InitialProgress(streams: seq<seq<Poll>>)
    ensures Tracks(DeliveredAll(streams), RestsOf(streams, map[], 0, None), [], None)
  {
    assert RestsOf(streams, map[], 0, None) == DeliveredAll(streams);
    if AllAscending(DeliveredAll(streams)) {
      StartProgress(DeliveredAll(streams));
    }
  }

  lemma ExhaustedMeansAll(
    layers: seq<Batch>, s: seq<seq<Poll>>, h: map<nat, HeapCursor>, n: nat, out: Batch, last: Option<int>)
    requires n == |s| && h == map[] && Tracks(layers, RestsOf(s, h, n, None), out, last)
    ensures AllAscending(layers) ==> Lists(out, NewestWins(layers))
  {
    if AllAscending(layers) {
      EndProgress(layers, RestsOf(s, h, n, None), out, last);
    }
  }

  lemma {:induction false} FreshAddress(live: set<nat>) returns (bound: nat)
    ensures forall a :: a in live ==> a < bound
    decreases live
  {
    bound := 0;
    if live != {} {
      var x :| x in live;
      var b := FreshAddress(live - {x});
      bound := if b <= x then x + 1 else b;
      assert forall a :: a in live ==> a == x || a in live - {x};
    }
  }

  class LsmPriorityMergeStream {
    var streams: seq<seq<Poll>>
    const priorities: seq<nat>
    /** The heap's cursors by stream; a stream never has two (each push finds its slot free). */
    var heap: map<nat, HeapCursor>
    var initialized: bool
    var streamInitIdx: nat
    var lastEmittedTs: Option<int>
    var chunk: MergeChunk
    var pendingStreamFetch: Option<nat>
    /** What the layers hold, and the rows handed out so far. */
    ghost const layers: seq<Batch>
    ghost var emitted: Batch
    /** All rows kept so far: those handed out and those in the chunk. */
    ghost var out: Batch
    /** Which batch lives at which address. */
    ghost var memory: map<nat, Batch>

    ghost predicate CursorOk(i: nat, c: HeapCursor)
      reads this
    {
      && i < |streams| == |priorities| && c.Valid()
      && c.streamIdx == i && c.layerPriority == priorities[i]
      && c.address in memory && memory[c.address] == c.batch
    }

    ghost predicate CursorsOk()
      reads this
    {
      && |streams| == |priorities| == |layers|
      && chunk.Valid() && chunk.Agrees(memory)
      && (forall i :: i in heap ==> CursorOk(i, heap[i]))
    }

    ghost predicate WellFormed()
      reads this
    {
      && CursorsOk()
      && streamInitIdx <= |streams| && (initialized ==> streamInitIdx == |streams|)
      && (forall i :: i in heap ==> i < streamInitIdx)
      && (pendingStreamFetch.Some? ==>
            initialized && pendingStreamFetch.value < |streams| && pendingStreamFetch.value !in heap)
    }

    /** For every stream, the rows the merge has still to take from it. */
    ghost function Rests(): (rest: seq<Batch>)
      reads this
    {
      RestsOf(streams, heap, streamInitIdx, pendingStreamFetch)
    }

    ghost predicate Valid()
      reads this
    {
      WellFormed() && Increasing(priorities) && |chunk.indices| < OUTPUT_BATCH_SIZE
      && out == emitted + chunk.Build() && Tracks(layers, Rests(), out, lastEmittedTs)
    }

    ghost function Remaining(): (n: nat)
      reads this
    {
      Total(Rests()) + |chunk.indices|
    }

    ghost predicate Exhausted()
      reads this
    {
      initialized && heap == map[] && pendingStreamFetch.None?
    }

    constructor (streams: seq<seq<Poll>>, priorities: seq<nat>)
      requires |streams| == |priorities|
      requires Increasing(priorities)
      ensures Valid() && emitted == [] && this.streams == streams && layers == DeliveredAll(streams)
    {
      hide Tracks, Increasing, RestsOf, DeliveredAll, Delivered;
      this.streams, this.priorities := streams, priorities;
      heap, initialized, streamInitIdx := map[], false, 0;
      lastEmittedTs, chunk, pendingStreamFetch := None, EMPTY, None;
      layers, emitted, out, memory := DeliveredAll(streams), [], [], map[];
      new;
      InitialProgress(streams);
    }

    method PollStream(i: nat) returns (r: PollNext)
      requires i < |streams|
      modifies this`streams
      ensures old(streams[i]) == [] ==> r == Finished && streams == old(streams)
      ensures old(streams[i]) != [] ==>
                && streams == old(streams)[i := old(streams[i])[1..]]
                && r == if old(streams[i])[0].Pending? then Waiting else Item(old(streams[i])[0].batch)
      ensures Total(streams) <= old(Total(streams))
      ensures r == Waiting ==> Total(streams) < old(Total(streams))
    {
      if streams[i] == [] {
        return Finished;
      }
      var head := streams[i][0];
      TotalUpdate(streams, i, streams[i][1..]);
      streams := streams[i := streams[i][1..]];
      r := if head.Pending? then Waiting else Item(head.batch);
    }

    /** A new allocation may get any address that no live batch has, freed ones included. */
    method Allocate() returns (address: nat)
      ensures forall k :: k in heap ==> heap[k].address != address
      ensures address !in chunk.sourceIndex
    {
      var live: set<nat> := (set k | k in heap :: heap[k].address) + chunk.sourceIndex.Keys;
      ghost var bound := FreshAddress(live);
      assert bound !in live;
      address :| address !in live;
    }

    /** Polls stream `i`, which has no cursor, and gives it one if a non-empty batch arrived. */
    method Fetch(i: nat) returns (ready: bool)
      requires CursorsOk() && i < |streams| && i !in heap
      modifies this`streams, this`heap, this`memory
      ensures CursorsOk()
      ensures Fetched(old(streams), old(heap), streams, heap, i, ready)
      ensures Total(streams) <= old(Total(streams))
      ensures !ready ==> Total(streams) < old(Total(streams))
    {
      hide Total, Delivered, Fetched;
      FetchedNothing(streams, heap, i);
      var r := PollStream(i);
      if r.Item? && r.batch != [] {
        var address := Allocate();
        memory := memory[address := r.batch];
        var cursor := HeapCursor(r.batch[0].time, priorities[i], i, 0, address, r.batch);
        FetchedBatch(old(streams), heap, i, cursor);
        heap := heap[i := cursor];
      }
      ready := r != Waiting;
    }

    method Pop() returns (top: Option<HeapCursor>)
      requires WellFormed()
      modifies this`heap
      ensures top.None? <==> old(heap) == map[]
      ensures top.None? ==> heap == old(heap)
      ensures top.Some? ==>
                && top.value.streamIdx in old(heap) && old(heap)[top.value.streamIdx] == top.value
                && heap == old(heap) - {top.value.streamIdx}
                && forall j :: j in old(heap) ==> top.value.Before(old(heap)[j])
    {
      top := None;
      for i := 0 to |streams|
        invariant heap == old(heap)
        invariant top.None? ==> forall j :: j in heap ==> i <= j
        invariant top.Some? ==> top.value.streamIdx in heap && heap[top.value.streamIdx] == top.value
                                && forall j :: j in heap && j < i ==> top.value.Before(heap[j])
      {
        if i in heap && (top.None? || !top.value.Before(heap[i])) {
          top := Some(heap[i]);
        }
      }
      if top.Some? {
        heap := heap - {top.value.streamIdx};
      } else {
        assert forall j :: j !in heap;
      }
    }

    method ContinuePendingFetch() returns (ready: bool)
      requires Valid() && pendingStreamFetch.Some?
      modifies this`streams, this`heap, this`memory, this`pendingStreamFetch
      ensures Valid() && Remaining() == old(Remaining())
      ensures Total(streams) <= old(Total(streams))
      ensures ready ==> pendingStreamFetch.None?
      ensures !ready ==> Total(streams) < old(Total(streams))
    {
      hide Tracks, Total, Delivered, Increasing, RestsOf;
      var i := pendingStreamFetch.value;
      ready := Fetch(i);
      if ready {
        pendingStreamFetch := None;
      }
      FetchKeepsRests(old(streams), old(heap), streamInitIdx, Some(i),
                      streams, heap, streamInitIdx, pendingStreamFetch, i, ready);
    }

    method InitializeNext() returns (ready: bool)
      requires WellFormed() && pendingStreamFetch.None? && streamInitIdx < |streams|
      modifies this`streams, this`heap, this`memory, this`streamInitIdx
      ensures WellFormed() && Rests() == old(Rests())
      ensures |streams| == old(|streams|) && Total(streams) <= old(Total(streams))
      ensures streamInitIdx == old(streamInitIdx) + if ready then 1 else 0
      ensures !ready ==> Total(streams) < old(Total(streams))
    {
      hide Total, Delivered, RestsOf;
      var i := streamInitIdx;
      ready := Fetch(i);
      if ready {
        streamInitIdx := i + 1;
      }
      assert forall k :: k in heap ==> k == i || k in heap - {i};
      FetchKeepsRests(old(streams), old(heap), i, pendingStreamFetch,
                      streams, heap, streamInitIdx, pendingStreamFetch, i, ready);
    }

    method EnsureInitialized() returns (ready: bool)
      requires Valid() && pendingStreamFetch.None?
      modifies this`streams, this`heap, this`memory, this`streamInitIdx, this`initialized
      ensures Valid() && Remaining() == old(Remaining())
      ensures Total(streams) <= old(Total(streams))
      ensures ready ==> initialized
      ensures old(initialized) ==> ready && heap == old(heap)
      ensures !ready ==> Total(streams) < old(Total(streams))
    {
      hide Tracks, Total, Delivered, Increasing, RestsOf;
      if initialized {
        return true;
      }
      while streamInitIdx < |streams|
        invariant WellFormed() && Rests() == old(Rests()) && !initialized
        invariant Total(streams) <= old(Total(streams))
      {
        ready := InitializeNext();
        if !ready {
          return;
        }
      }
      initialized := true;
      ready := true;
    }

    /** Moves a popped cursor to its next row, fetching the next batch when this one is used up. */
    method AdvanceCursor(cursor: HeapCursor) returns (ready: bool)
      requires WellFormed() && initialized && pendingStreamFetch.None?
      requires cursor.streamIdx !in heap && CursorOk(cursor.streamIdx, cursor)
      modifies this`streams, this`heap, this`memory, this`pendingStreamFetch
      ensures WellFormed() && initialized
      ensures Rests() == old(Rests())[cursor.streamIdx := cursor.Left()[1..] + old(Delivered(streams[cursor.streamIdx]))]
      ensures ready ==> pendingStreamFetch.None?
      ensures Total(streams) <= old(Total(streams))
      ensures !ready ==> Total(streams) < old(Total(streams))
    {
      hide Total, Delivered, RestsOf;
      var i := cursor.streamIdx;
      var next := cursor.rowIdx + 1;
      if next < |cursor.batch| {
        heap := heap[i := cursor.(rowIdx := next, ts := cursor.batch[next].time)];
        ready := true;
        PushRests(streams, old(heap), streamInitIdx, None, i, heap[i]);
        assert heap[i].Left() == cursor.Left()[1..];
      } else {
        ready := Fetch(i);
        if !ready {
          pendingStreamFetch := Some(i);
        }
        FetchKeepsRests(old(streams), old(heap), streamInitIdx, None,
                        streams, heap, streamInitIdx, pendingStreamFetch, i, ready);
        assert cursor.Left()[1..] + old(Delivered(streams[i])) == old(Delivered(streams[i]));
      }
    }

    method TakeChunk() returns (batch: Batch)
      requires CursorsOk() && out == emitted + chunk.Build()
      modifies this`chunk, this`emitted
      ensures CursorsOk() && chunk == EMPTY && out == emitted + chunk.Build()
      ensures batch == old(chunk.Build()) && emitted == old(emitted) + batch
    {
      batch := chunk.Build();
      chunk := EMPTY;
      emitted := emitted + batch;
    }

    /** Keeps the popped cursor's row unless it repeats the time just emitted, and hands out the chunk
        when that fills it. `rest` is what was left before the pop. */
    method KeepRow(cursor: HeapCursor, ghost rest: seq<Batch>) returns (step: RowStep)
      requires WellFormed() && CursorOk(cursor.streamIdx, cursor) && |chunk.indices| < OUTPUT_BATCH_SIZE
      requires LeastHead(rest, cursor.streamIdx)
      requires rest[cursor.streamIdx][0] == cursor.batch[cursor.rowIdx]
      requires out == emitted + chunk.Build() && Tracks(layers, rest, out, lastEmittedTs)
      modifies this`chunk, this`emitted, this`lastEmittedTs, this`out
      ensures WellFormed() && CursorOk(cursor.streamIdx, cursor) && |chunk.indices| < OUTPUT_BATCH_SIZE
      ensures out == emitted + chunk.Build()
      ensures Tracks(layers, rest[cursor.streamIdx := rest[cursor.streamIdx][1..]], out, lastEmittedTs)
      ensures var repeats := old(lastEmittedTs) == Some(cursor.ts);
              && out == old(out) + (if repeats then [] else [cursor.batch[cursor.rowIdx]])
              && lastEmittedTs == Some(cursor.ts) && (repeats ==> chunk == old(chunk))
      ensures step.Again? || step.Full?
      ensures emitted == old(emitted) + if step.Full? then step.batch else []
      ensures step.Full? ==> |step.batch| == OUTPUT_BATCH_SIZE && chunk == EMPTY
      ensures |emitted| + |chunk.indices| <= old(|emitted| + |chunk.indices|) + 1
    {
      hide Tracks;
      step := Again;
      ghost var i := cursor.streamIdx;
      if lastEmittedTs == Some(cursor.ts) {
        TrackSkip(layers, rest, out, lastEmittedTs, i);
        return;
      }
      TrackEmit(layers, rest, out, lastEmittedTs, i);
      lastEmittedTs := Some(cursor.ts);
      chunk := chunk.Push(cursor.address, cursor.batch, cursor.rowIdx, memory);
      out := out + [rest[i][0]];
      if |chunk.indices| >= OUTPUT_BATCH_SIZE {
        var batch := TakeChunk();
        step := Full(batch);
      }
    }

    /** What is left once `cursor`, just popped, has moved on by one row. */
    ghost function RestsAfter(cursor: HeapCursor): (rest: seq<Batch>)
      requires CursorOk(cursor.streamIdx, cursor)
      reads this
    {
      Rests()[cursor.streamIdx := cursor.Left()[1..] + Delivered(streams[cursor.streamIdx])]
    }

    /** First half of a turn of the inner loop: pop the least cursor and keep its row. */
    method TakeLeast() returns (top: Option<HeapCursor>, step: RowStep)
      requires Valid() && initialized && pendingStreamFetch.None?
      modifies this`heap, this`chunk, this`emitted, this`lastEmittedTs, this`out
      ensures WellFormed() && |chunk.indices| < OUTPUT_BATCH_SIZE && out == emitted + chunk.Build()
      ensures top.None? <==> old(heap) == map[]
      ensures top.None? <==> step.Drained?
      ensures top.None? ==> Valid() && heap == map[] && chunk == old(chunk) && emitted == old(emitted)
                            && Rests() == old(Rests())
      ensures top.Some? ==>
                && top.value.streamIdx !in heap && CursorOk(top.value.streamIdx, top.value)
                && Tracks(layers, RestsAfter(top.value), out, lastEmittedTs)
                && Total(RestsAfter(top.value)) + 1 == old(Total(Rests()))
                && (step.Again? || step.Full?)
      ensures emitted == old(emitted) + if step.Full? then step.batch else []
      ensures step.Full? ==> |step.batch| == OUTPUT_BATCH_SIZE
      ensures |emitted| + |chunk.indices| <= old(|emitted| + |chunk.indices|) + 1
    {
      hide Tracks, LeastHead, Total, Delivered, Increasing, RestsOf;
      ghost var rest := Rests();
      top := Pop();
      if top.None? {
        return top, Drained;
      }
      ghost var i := top.value.streamIdx;
      HeadsAreLeast(streams, old(heap), streamInitIdx, priorities, i);
      TotalUpdate(rest, i, rest[i][1..]);
      PopRests(streams, old(heap), streamInitIdx, i);
      assert RestsAfter(top.value) == rest[i := rest[i][1..]];
      step := KeepRow(top.value, rest);
    }

    /** A turn of the inner loop. */
    method TakeRow() returns (step: RowStep)
      requires Valid() && initialized && pendingStreamFetch.None?
      modifies this
      ensures Valid() && initialized && |streams| == old(|streams|)
      ensures step.Drained? <==> old(heap) == map[]
      ensures step.Drained? ==> heap == map[] && chunk == old(chunk) && pendingStreamFetch.None?
      ensures emitted == old(emitted) + if step.Full? then step.batch else []
      ensures step.Full? ==> |step.batch| == OUTPUT_BATCH_SIZE
      ensures step.Again? ==> pendingStreamFetch.None?
      ensures Total(streams) <= old(Total(streams))
      ensures step.Suspended? ==> Total(streams) < old(Total(streams))
      ensures Remaining() + |emitted| <= old(Remaining() + |emitted|)
      ensures step.Again? ==> Total(Rests()) < old(Total(Rests()))
    {
      hide Tracks, Total, Delivered, Increasing, RestsOf;
      var top;
      top, step := TakeLeast();
      if top.Some? {
        var ready := AdvanceCursor(top.value);
        if step.Again? && !ready {
          step := Suspended;
        }
      }
    }

    /** The inner loop: take rows until the chunk is full, an input suspends or the heap is empty. */
    method FillChunk() returns (step: RowStep)
      requires Valid() && initialized && pendingStreamFetch.None?
      modifies this
      ensures Valid() && !step.Again?
      ensures step.Drained? ==> Exhausted()
      ensures old(heap) == map[] ==> step.Drained? && chunk == old(chunk)
      ensures emitted == old(emitted) + if step.Full? then step.batch else []
      ensures step.Full? ==> |step.batch| == OUTPUT_BATCH_SIZE
      ensures Total(streams) <= old(Total(streams))
      ensures step.Suspended? ==> Total(streams) < old(Total(streams))
      ensures Remaining() + |emitted| <= old(Remaining() + |emitted|)
    {
      hide Tracks, Total, Delivered, Increasing, RestsOf;
      hide WellFormed;
      step := Again;
      while step.Again?
        invariant Valid() && initialized
        invariant step.Again? ==> pendingStreamFetch.None?
        invariant step.Drained? ==> Exhausted()
        invariant old(heap) == map[] ==> heap == map[] && (step.Again? || step.Drained?) && chunk == old(chunk)
        invariant emitted == old(emitted) + if step.Full? then step.batch else []
        invariant step.Full? ==> |step.batch| == OUTPUT_BATCH_SIZE
        invariant Total(streams) <= old(Total(streams))
        invariant step.Suspended? ==> Total(streams) < old(Total(streams))
        invariant Remaining() + |emitted| <= old(Remaining() + |emitted|)
        decreases step.Again?, Total(Rests())
      {
        step := TakeRow();
      }
    }

    /** The end of a poll with all inputs exhausted: the last chunk, or the end of the stream. The heap
        is empty here, so the outer loop of the source never takes a second turn. */
    method DrainChunk() returns (r: PollNext)
      requires Valid() && Exhausted()
      modifies this`chunk, this`emitted
      ensures r.Item? ==> chunk == EMPTY
      ensures Valid() && Remaining() + |emitted| == old(Remaining() + |emitted|)
      ensures r.Finished? ==> chunk == old(chunk) && (AllAscending(layers) ==> Lists(emitted, NewestWins(layers)))
      ensures !r.Waiting? && (r.Item? ==> 0 < |r.batch| < OUTPUT_BATCH_SIZE)
      ensures old(chunk) == EMPTY ==> r.Finished?
      ensures emitted == old(emitted) + if r.Item? then r.batch else []
    {
      hide Tracks, Total, Delivered, Increasing, RestsOf, Lists;
      if |chunk.indices| > 0 {
        var batch := TakeChunk();
        return Item(batch);
      }
      assert chunk.Build() == [];
      assert emitted == out;
      ExhaustedMeansAll(layers, streams, heap, streamInitIdx, emitted, lastEmittedTs);
      return Finished;
    }

    /** One poll: at most one batch comes out, a suspension loses nothing, and a batch shorter than
        `OUTPUT_BATCH_SIZE` comes only when the inputs are exhausted. */
    method PollNext() returns (r: PollNext)
      requires Valid()
      modifies this
      ensures Valid()
      ensures emitted == old(emitted) + if r.Item? then r.batch else []
      ensures r.Item? ==> 0 < |r.batch| <= OUTPUT_BATCH_SIZE
      ensures r.Item? && |r.batch| < OUTPUT_BATCH_SIZE ==> Exhausted() && chunk == EMPTY
      ensures r.Finished? && AllAscending(layers) ==> Lists(emitted, NewestWins(layers))
      ensures old(Exhausted()) && old(chunk) == EMPTY ==> r.Finished?
      ensures Total(streams) <= old(Total(streams))
      ensures r.Waiting? ==> Total(streams) < old(Total(streams))
      ensures Remaining() + |emitted| <= old(Remaining() + |emitted|)
    {
      hide Valid, Remaining, Total, Lists, NewestWins;
      if pendingStreamFetch.Some? {
        var resumed := ContinuePendingFetch();
        if !resumed {
          return Waiting;
        }
      }
      var ready := EnsureInitialized();
      if !ready {
        return Waiting;
      }
      var step := FillChunk();
      match step {
        case Full(batch) => return Item(batch);
        case Suspended => return Waiting;
        case Drained => r := DrainChunk();
      }
    }
  }

  /** Polls a merge until it reports its end. */
  method Collect(merge: LsmPriorityMergeStream) returns (batches: seq<Batch>)
    requires merge.Valid() && merge.emitted == []
    modifies merge
    ensures AllAscending(merge.layers) ==> Lists(Flatten(batches), NewestWins(merge.layers))
    ensures FullButLast(batches, 8192)
  {
    hide LsmPriorityMergeStream.Valid, LsmPriorityMergeStream.Remaining, Total, Lists, NewestWins, Flatten, FullButLast;
    batches := [];
    NoBatches(OUTPUT_BATCH_SIZE);
    while true
      invariant merge.Valid() && Flatten(batches) == merge.emitted && FullButLast(batches, OUTPUT_BATCH_SIZE)
      invariant batches != [] && |batches[|batches| - 1]| != OUTPUT_BATCH_SIZE ==>
                  merge.Exhausted() && merge.chunk == EMPTY
      decreases merge.Remaining(), Total(merge.streams)
    {
      var r := merge.PollNext();
      if r.Finished? {
        assert merge.emitted == Flatten(batches);
        return;
      }
      if r.Item? {
        AppendBatch(batches, r.batch, OUTPUT_BATCH_SIZE);
        batches := batches + [r.batch];
      }
    }
  }

  /** Runs a merge over the given layers to its end. For any cut into batches and any pattern of
      `Pending`, the output comes in batches of exactly `OUTPUT_BATCH_SIZE` rows but for the last, and if
      each stream delivers its rows in ascending order it is the one ascending newest-wins listing of
      them. */
  method MergeLayers(streams: seq<seq<Poll>>, priorities: seq<nat>) returns (batches: seq<Batch>)
    requires |streams| == |priorities| && Increasing(priorities)
    ensures AllAscending(DeliveredAll(streams)) ==> Lists(Flatten(batches), NewestWins(DeliveredAll(streams)))
    ensures FullButLast(batches, 8192)
  {
    var merge := new LsmPriorityMergeStream(streams, priorities);
    batches := Collect(merge);
  }

  /** A zero-row batch with rows still to come behind it. */
  predicate RowsAfterEmptyBatch(script: seq<Poll>) {
    exists i, j :: 0 <= i < j < |script| && script[i] == Ready([]) && script[j].Ready? && script[j].batch != []
  }

  lemma {:induction false} AllRowsEmpty(script: seq<Poll>)
    ensures AllRows(script) == [] <==> forall j :: 0 <= j < |script| && script[j].Ready? ==> script[j].batch == []
  {
    if script != [] {
      AllRowsEmpty(script[1..]);
      assert forall j :: 0 < j < |script| ==> script[j] == script[1..][j - 1];
    }
  }

  /** The merge sees every row of a stream exactly when no rows follow a zero-row batch. */
  lemma {:induction false} DeliveredExactly(script: seq<Poll>)
    ensures Delivered(script) == AllRows(script) <==> !RowsAfterEmptyBatch(script)
  {
    if script != [] {
      var tail := script[1..];
      DeliveredExactly(tail);
      assert forall j :: 0 <= j < |tail| ==> tail[j] == script[j + 1];
      if script[0] == Ready([]) {
        AllRowsEmpty(tail);
        if AllRows(tail) != [] {
          var j :| 0 <= j < |tail| && tail[j].Ready? && tail[j].batch != [];
          assert script[0] == Ready([]) && script[j + 1].batch != [];
        }
      } else {
        assert RowsAfterEmptyBatch(script) <==> RowsAfterEmptyBatch(tail) by {
          if RowsAfterEmptyBatch(tail) {
            var i, j :| 0 <= i < j < |tail| && tail[i] == Ready([]) && tail[j].Ready? && tail[j].batch != [];
            assert script[i + 1] == Ready([]) && script[j + 1].batch != [];
          }
        }
        if script[0].Ready? {
          var b := script[0].batch;
          assert (b + Delivered(tail))[|b|..] == Delivered(tail);
          assert (b + AllRows(tail))[|b|..] == AllRows(tail);
        }
      }
    }
  }

  /** The smallest loss: one empty batch in front, and the row behind it never shows up. */
  lemma EmptyBatchLosesRows()
    ensures var script := [Ready([]), Ready([Row(1, 10)])];
            AllRows(script) == [Row(1, 10)] && Delivered(script) == []
  {
    var script := [Ready([]), Ready([Row(1, 10)])];
    assert script[1..] == [Ready([Row(1, 10)])];
    assert script[1..][1..] == [];
  }
}
