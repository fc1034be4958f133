/** The compactor's streaming k-way merge of a run of files (src/storage/src/compaction/job.rs): time
ascending, the later file of the run wins, consecutive duplicate times collapsed. A file's contents are
its row groups; empty ones are skipped by the cursor. */
module MergeFiles {
  import opened Rows
  import opened MergeChunks
  import opened MergeCore
  import opened Sst

  const STREAM_MERGE_BATCH_ROWS: nat := 8192
  const KEY_SHIFT: nat := 0x100_0000_0000

  type Contents = seq<Batch>

  datatype Cursor = Cursor(reader: seq<Batch>, current: Option<Batch>, row: nat, loadCount: nat)

  predicate CursorValid(c: Cursor) {
    c.current.Some? ==> c.row < |c.current.value|
  }

  /** The rows the cursor has still to yield. */
  function Left(c: Cursor): (rows: Batch) {
    match c.current
    case None => []
    case Some(b) => (if c.row <= |b| then b[c.row..] else []) + Flatten(c.reader)
  }

  /** Moves to the next non-empty row group. */
  method LoadNextBatch(c: Cursor) returns (c': Cursor)
    ensures CursorValid(c') && Left(c') == Flatten(c.reader)
    ensures c'.current.Some? ==> c'.loadCount == c.loadCount + 1 && c'.row == 0
    ensures c'.current.None? ==> c'.loadCount == c.loadCount
    ensures c'.loadCount + |c'.reader| <= c.loadCount + |c.reader|
  {
    var reader := c.reader;
    while reader != []
      invariant Flatten(reader) == Flatten(c.reader) && |reader| <= |c.reader|
    {
      var batch := reader[0];
      FlattenHead(reader);
      reader := reader[1..];
      if batch != [] {
        return Cursor(reader, Some(batch), 0, c.loadCount + 1);
      }
    }
    return Cursor([], None, 0, c.loadCount);
  }

  method Open(contents: Contents) returns (c: Cursor)
    ensures CursorValid(c) && Left(c) == Flatten(contents)
    ensures c.loadCount + |c.reader| <= |contents| && (c.current.Some? ==> c.loadCount == 1)
  {
    c := LoadNextBatch(Cursor(contents, None, 0, 0));
  }

  function PeekTs(c: Cursor): (ts: Option<int>)
    requires CursorValid(c)
    ensures ts.Some? <==> Left(c) != []
    ensures ts.Some? ==> ts.value == Left(c)[0].time
  {
    if c.current.Some? then Some(c.current.value[c.row].time) else None
  }

  method Advance(c: Cursor) returns (c': Cursor)
    requires CursorValid(c) && c.current.Some?
    ensures CursorValid(c') && Left(c') == Left(c)[1..]
    ensures c'.loadCount + |c'.reader| <= c.loadCount + |c.reader|
    ensures c.loadCount <= c'.loadCount
    ensures c'.current.Some? && c'.loadCount == c.loadCount ==> c'.current == c.current
  {
    var moved := c.(row := c.row + 1);
    if moved.row >= |c.current.value| {
      assert Left(c)[1..] == Flatten(c.reader);
      c' := LoadNextBatch(moved);
    } else {
      c' := moved;
    }
  }

  /** The key under which a loaded batch is remembered: its source and load number packed together. */
  function BatchKey(source: nat, loadCount: nat): (key: nat) {
    source * KEY_SHIFT + loadCount
  }

  lemma BatchKeyInjective(s: nat, l: nat, s': nat, l': nat)
    requires l < KEY_SHIFT && l' < KEY_SHIFT && BatchKey(s, l) == BatchKey(s', l')
    ensures s == s' && l == l'
  {
  }

  function Lefts(cursors: seq<Cursor>): (rests: seq<Batch>)
    ensures |rests| == |cursors|
  {
    seq(|cursors|, i requires 0 <= i < |cursors| => Left(cursors[i]))
  }

  ghost predicate CursorsValid(cursors: seq<Cursor>) {
    forall i :: 0 <= i < |cursors| ==> CursorValid(cursors[i])
  }

  /** Every cursor with rows left has its head time in the heap, and nothing else is there. */
  ghost predicate HeapOk(rests: seq<Batch>, heap: map<nat, int>) {
    && (forall i :: 0 <= i < |rests| ==> (i in heap <==> rests[i] != []))
    && (forall i :: i in heap ==> i < |rests| && rests[i] != [] && heap[i] == rests[i][0].time)
  }

  /** Batch keys are never reused: `memory` knows each cursor's current batch under its key, and no
      key of a load that has not happened yet. */
  ghost predicate KeysOk(cursors: seq<Cursor>, chunk: MergeChunk, memory: map<nat, Batch>) {
    && chunk.Valid() && chunk.Agrees(memory)
    && (forall i :: 0 <= i < |cursors| ==> cursors[i].loadCount + |cursors[i].reader| < KEY_SHIFT)
    && (forall i :: 0 <= i < |cursors| && cursors[i].current.Some? ==>
          var key := BatchKey(i, cursors[i].loadCount);
          key in memory && memory[key] == cursors[i].current.value)
    && (forall i, l :: 0 <= i < |cursors| && 0 <= l < KEY_SHIFT && BatchKey(i, l) in memory ==> l <= cursors[i].loadCount)
  }

  function Remember(memory: map<nat, Batch>, i: nat, c: Cursor): (m: map<nat, Batch>) {
    if c.current.Some? then memory[BatchKey(i, c.loadCount) := c.current.value] else memory
  }

  lemma AdvanceKeys(cursors: seq<Cursor>, chunk: MergeChunk, memory: map<nat, Batch>, i: nat, c: Cursor)
    requires KeysOk(cursors, chunk, memory) && i < |cursors|
    requires c.loadCount + |c.reader| <= cursors[i].loadCount + |cursors[i].reader|
    requires cursors[i].loadCount <= c.loadCount && cursors[i].current.Some?
    requires c.current.Some? && c.loadCount == cursors[i].loadCount ==> c.current == cursors[i].current
    ensures KeysOk(cursors[i := c], chunk, Remember(memory, i, c))
  {
    var memory', cursors' := Remember(memory, i, c), cursors[i := c];
    var key := BatchKey(i, c.loadCount);
    forall k, l | 0 <= k < |cursors| && 0 <= l < KEY_SHIFT && BatchKey(k, l) in memory'
      ensures l <= cursors'[k].loadCount
    {
      if BatchKey(k, l) == key {
        BatchKeyInjective(k, l, i, c.loadCount);
      } else {
        assert BatchKey(k, l) in memory;
      }
    }
    forall k | 0 <= k < |cursors| && cursors'[k].current.Some?
      ensures BatchKey(k, cursors'[k].loadCount) in memory'
              && memory'[BatchKey(k, cursors'[k].loadCount)] == cursors'[k].current.value
    {
      if k != i && BatchKey(k, cursors[k].loadCount) == key {
        BatchKeyInjective(k, cursors[k].loadCount, i, c.loadCount);
      }
    }
    if c.current.Some? && c.loadCount > cursors[i].loadCount {
      assert key !in memory;
    }
  }

  /** Pops the least time, the latest source among equals. */
  method PopTop(heap: map<nat, int>, n: nat) returns (top: nat)
    requires heap != map[] && forall i :: i in heap ==> i < n
    ensures top in heap
    ensures forall j :: j in heap ==> heap[top] < heap[j] || (heap[top] == heap[j] && j <= top)
  {
    var found := false;
    top := 0;
    for i := 0 to n
      invariant !found ==> forall j :: j in heap ==> i <= j
      invariant found ==> top in heap && top < i
                          && forall j :: j in heap && j < i ==> heap[top] < heap[j] || (heap[top] == heap[j] && j <= top)
    {
      if i in heap && (!found || heap[i] <= heap[top]) {
        found, top := true, i;
      }
    }
  }

  /** The popped cursor heads the least row, in the latest file of the run that has its time. */
  lemma TopIsLeast(rests: seq<Batch>, heap: map<nat, int>, top: nat)
    requires HeapOk(rests, heap) && top in heap
    requires forall j :: j in heap ==> heap[top] < heap[j] || (heap[top] == heap[j] && j <= top)
    ensures LeastHead(Reverse(rests), |rests| - 1 - top)
  {
    var back: seq<Batch> := Reverse(rests);
    var i := |rests| - 1 - top;
    assert back[i] == rests[top];
    forall j | 0 <= j < |back| && back[j] != []
      ensures back[i][0].time < back[j][0].time || (back[i][0].time == back[j][0].time && i <= j)
    {
      assert back[j] == rests[|rests| - 1 - j];
    }
  }

  /** Taking the head row of one cursor. */
  lemma AdvanceLefts(cursors: seq<Cursor>, i: nat, c: Cursor)
    requires i < |cursors| && Left(cursors[i]) != [] && Left(c) == Left(cursors[i])[1..]
    ensures Lefts(cursors[i := c]) == Lefts(cursors)[i := Lefts(cursors)[i][1..]]
  {
    hide Left;
  }

  lemma AdvanceHeap(rests: seq<Batch>, heap: map<nat, int>, i: nat, c: Cursor)
    requires HeapOk(rests, heap) && i < |rests| && CursorValid(c)
    ensures HeapOk(rests[i := Left(c)], Reheap(heap, i, c))
  {
    hide Left;
  }

  /** Everything known at the top of the merge loop. */
  ghost predicate Merging(layers: seq<Batch>, rests: seq<Batch>, chunk: MergeChunk,
                          batches: seq<Batch>, out: Batch, last: Option<int>)
    requires chunk.Valid()
  {
    && |chunk.indices| < STREAM_MERGE_BATCH_ROWS
    && (forall k :: 0 <= k < |batches| ==> |batches[k]| == STREAM_MERGE_BATCH_ROWS)
    && out == Flatten(batches) + chunk.Build()
    && Progress(Reverse(layers), Reverse(rests), out, last)
  }

  /** The running row count and least and greatest time. */
  datatype Stats = Stats(rows: nat, minTs: int, maxTs: int)

  function Widen(s: Stats, ts: int): (s': Stats) {
    if s.rows == 0 then Stats(1, ts, ts) else Stats(s.rows + 1, Min(s.minTs, ts), Max(s.maxTs, ts))
  }

  ghost predicate Tight(s: Stats, rows: Batch) {
    && s.rows == |rows|
    && (forall k :: 0 <= k < |rows| ==> s.minTs <= rows[k].time <= s.maxTs)
    && (rows != [] ==> s.minTs in Times(rows) && s.maxTs in Times(rows))
  }

  lemma NoRowsTight()
    ensures Tight(Stats(0, 0, 0), [])
  {
  }

  lemma WidenTight(s: Stats, rows: Batch, r: Row)
    requires Tight(s, rows)
    ensures Tight(Widen(s, r.time), rows + [r])
  {
    TimesConcat(rows, [r]);
    assert [r][0].time in Times([r]);
  }

  /** Keeps the top row unless its time was just emitted, closing the chunk when it is full. */
  method KeepTop(ghost layers: seq<Batch>, ghost rests: seq<Batch>, c: Cursor, chunk: MergeChunk,
                 ghost memory: map<nat, Batch>, batches: seq<Batch>, stats: Stats, ghost out: Batch, last: Option<int>, top: nat)
    returns (chunk': MergeChunk, batches': seq<Batch>, stats': Stats, ghost out': Batch, last': Option<int>)
    requires chunk.Valid() && chunk.Agrees(memory) && Merging(layers, rests, chunk, batches, out, last)
    requires Tight(stats, out)
    requires top < |rests| && LeastHead(Reverse(rests), |rests| - 1 - top)
    requires CursorValid(c) && c.current.Some? && rests[top] != [] && rests[top][0] == c.current.value[c.row]
    requires BatchKey(top, c.loadCount) in memory && memory[BatchKey(top, c.loadCount)] == c.current.value
    ensures chunk'.Valid() && chunk'.Agrees(memory)
    ensures last' == Some(rests[top][0].time)
    ensures out' == if last == Some(rests[top][0].time) then out else out + [rests[top][0]]
    ensures Tight(stats', out')
    ensures Merging(layers, rests[top := rests[top][1..]], chunk', batches', out', last')
  {
    hide Progress, LeastHead, Flatten, BatchKey, Tight, Widen;
    ghost var back: seq<Batch> := Reverse(rests);
    ghost var k := |rests| - 1 - top;
    assert back[k] == rests[top];
    ReverseUpdate(rests, top, rests[top][1..]);
    var row := c.current.value[c.row];
    chunk', batches', stats', out', last' := chunk, batches, stats, out, last;
    if last == Some(row.time) {
      SkipDuplicate(Reverse(layers), back, out, last, k);
      return;
    }
    EmitLeast(Reverse(layers), back, out, last, k);
    chunk' := chunk.Push(BatchKey(top, c.loadCount), c.current.value, c.row, memory);
    WidenTight(stats, out, row);
    stats', out', last' := Widen(stats, row.time), out + [row], Some(row.time);
    if |chunk'.indices| >= STREAM_MERGE_BATCH_ROWS {
      FlattenAppend(batches, chunk'.Build());
      batches' := batches + [chunk'.Build()];
      chunk' := EMPTY;
    }
  }

  function FileRows(contents: seq<Contents>): (layers: seq<Batch>)
    ensures |layers| == |contents|
    ensures forall i :: 0 <= i < |contents| ==> layers[i] == Flatten(contents[i])
  {
    seq(|contents|, i requires 0 <= i < |contents| => Flatten(contents[i]))
  }

  /** No batch of source `n` or later has been loaded. */
  ghost predicate Unused(n: nat, memory: map<nat, Batch>) {
    forall k, l :: n <= k && 0 <= l < KEY_SHIFT ==> BatchKey(k, l) !in memory
  }

  function Reheap(heap: map<nat, int>, i: nat, c: Cursor): (heap': map<nat, int>)
    requires CursorValid(c)
  {
    var ts := PeekTs(c);
    if ts.Some? then heap[i := ts.value] else heap - {i}
  }

  method OpenAll(contents: seq<Contents>)
    returns (cursors: seq<Cursor>, heap: map<nat, int>, ghost memory: map<nat, Batch>)
    requires forall i :: 0 <= i < |contents| ==> |contents[i]| < KEY_SHIFT
    ensures CursorsValid(cursors) && Lefts(cursors) == FileRows(contents) && HeapOk(Lefts(cursors), heap)
    ensures KeysOk(cursors, EMPTY, memory)
  {
    hide Left, Flatten, HeapOk, KeysOk, Unused, Lefts, Reheap, Remember;
    cursors, heap, memory := [], map[], map[];
    NothingOpen();
    for i := 0 to |contents|
      invariant |cursors| == i && CursorsValid(cursors)
      invariant Lefts(cursors) == FileRows(contents)[..i] && HeapOk(Lefts(cursors), heap)
      invariant KeysOk(cursors, EMPTY, memory) && Unused(i, memory)
    {
      var c := Open(contents[i]);
      AppendKeys(cursors, memory, c);
      AppendHeap(Lefts(cursors), heap, c);
      LeftsAppend(cursors, c);
      assert FileRows(contents)[..i + 1] == FileRows(contents)[..i] + [FileRows(contents)[i]];
      memory := Remember(memory, i, c);
      heap := Reheap(heap, i, c);
      cursors := cursors + [c];
    }
    assert FileRows(contents)[..|contents|] == FileRows(contents);
  }

  lemma NothingOpen()
    ensures Lefts([]) == [] && HeapOk(Lefts([]), map[]) && KeysOk([], EMPTY, map[]) && Unused(0, map[])
  {
  }

  lemma AppendHeap(rests: seq<Batch>, heap: map<nat, int>, c: Cursor)
    requires HeapOk(rests, heap) && CursorValid(c)
    ensures HeapOk(rests + [Left(c)], Reheap(heap, |rests|, c))
  {
    hide Left;
  }

  lemma LeftsAppend(cursors: seq<Cursor>, c: Cursor)
    ensures Lefts(cursors + [c]) == Lefts(cursors) + [Left(c)]
  {
    hide Left;
  }

  lemma AppendKeys(cursors: seq<Cursor>, memory: map<nat, Batch>, c: Cursor)
    requires KeysOk(cursors, EMPTY, memory)
    requires c.loadCount + |c.reader| < KEY_SHIFT
    requires Unused(|cursors|, memory)
    ensures KeysOk(cursors + [c], EMPTY, Remember(memory, |cursors|, c))
    ensures Unused(|cursors| + 1, Remember(memory, |cursors|, c))
  {
    var n, memory' := |cursors|, Remember(memory, |cursors|, c);
    forall k, l | 0 <= k && 0 <= l < KEY_SHIFT && BatchKey(k, l) in memory'
      ensures (k == n && l == c.loadCount) || (k < n && BatchKey(k, l) in memory)
    {
      if BatchKey(k, l) == BatchKey(n, c.loadCount) {
        BatchKeyInjective(k, l, n, c.loadCount);
      }
    }
    assert BatchKey(n, c.loadCount) !in memory;
  }

  /** One turn of the loop: pop, keep or skip, advance, push back. */
  method MergeStep(ghost layers: seq<Batch>, cursors: seq<Cursor>, heap: map<nat, int>, chunk: MergeChunk,
                   ghost memory: map<nat, Batch>, batches: seq<Batch>, stats: Stats, ghost out: Batch, last: Option<int>)
    returns (cursors': seq<Cursor>, heap': map<nat, int>, chunk': MergeChunk,
             ghost memory': map<nat, Batch>, batches': seq<Batch>, stats': Stats, ghost out': Batch, last': Option<int>)
    requires heap != map[] && Ready(cursors, heap, chunk, memory)
    requires Merging(layers, Lefts(cursors), chunk, batches, out, last) && Tight(stats, out)
    ensures |cursors'| == |cursors| && Ready(cursors', heap', chunk', memory')
    ensures Merging(layers, Lefts(cursors'), chunk', batches', out', last') && Tight(stats', out')
    ensures Total(Lefts(cursors')) == Total(Lefts(cursors)) - 1 && out <= out' && |out'| <= |out| + 1
  {
    hide Left, Flatten, BatchKey, LeastHead, Total, HeapOk, KeysOk, Lefts, Remember, Reheap, Merging, Tight;
    ghost var rests: seq<Batch> := Lefts(cursors);
    HeapFacts(cursors, heap);
    var top := PopTop(heap, |cursors|);
    TopIsLeast(rests, heap, top);
    LeftHead(cursors[top]);
    KeysAt(cursors, chunk, memory, top);
    chunk', batches', stats', out', last' :=
      KeepTop(layers, rests, cursors[top], chunk, memory, batches, stats, out, last, top);
    KeepKeys(cursors, chunk, chunk', memory);
    var c := Advance(cursors[top]);
    AdvanceLefts(cursors, top, c);
    AdvanceHeap(rests, heap, top, c);
    AdvanceKeys(cursors, chunk', memory, top, c);
    TotalUpdate(rests, top, rests[top][1..]);
    memory', cursors', heap' := Remember(memory, top, c), cursors[top := c], Reheap(heap, top, c);
  }

  /** One merge over all the files: what is written lists what the run means, the later file winning. */
  method MergeBatches(contents: seq<Contents>) returns (batches: seq<Batch>, stats: Stats)
    requires forall i :: 0 <= i < |contents| ==> |contents[i]| < KEY_SHIFT
    requires forall i :: 0 <= i < |contents| ==> Ascending(Flatten(contents[i]))
    ensures Lists(Flatten(batches), LaterWins(FileRows(contents)))
    ensures FullButLast(batches, 8192)
    ensures Tight(stats, Flatten(batches))
  {
    hide Tight, Left, Flatten, BatchKey, Progress, LaterWins, Lists, Total, HeapOk, KeysOk, Lefts, FileRows;
    var cursors, heap, memory := OpenAll(contents);
    ghost var layers: seq<Batch> := FileRows(contents);
    var chunk, last := EMPTY, None;
    ghost var out: Batch := [];
    batches, stats := [], Stats(0, 0, 0);
    NoRowsTight();
    StartReversed(layers);
    FlattenEmpty();
    while heap != map[]
      invariant |cursors| == |contents| && Ready(cursors, heap, chunk, memory)
      invariant Merging(layers, Lefts(cursors), chunk, batches, out, last) && Tight(stats, out)
      decreases Total(Lefts(cursors))
    {
      cursors, heap, chunk, memory, batches, stats, out, last :=
        MergeStep(layers, cursors, heap, chunk, memory, batches, stats, out, last);
    }
    HeapFacts(cursors, heap);
    EndReversed(layers, Lefts(cursors), out, last);
    if |chunk.indices| > 0 {
      FlattenAppend(batches, chunk.Build());
      batches := batches + [chunk.Build()];
    } else {
      assert out == Flatten(batches);
    }
  }

  /** Cursors, heap and chunk are consistent with each other. */
  ghost predicate Ready(cursors: seq<Cursor>, heap: map<nat, int>, chunk: MergeChunk, memory: map<nat, Batch>) {
    CursorsValid(cursors) && HeapOk(Lefts(cursors), heap) && KeysOk(cursors, chunk, memory) && chunk.Valid()
  }

  lemma HeapFacts(cursors: seq<Cursor>, heap: map<nat, int>)
    requires HeapOk(Lefts(cursors), heap)
    ensures forall i :: i in heap ==> i < |cursors| && Left(cursors[i]) != [] && Lefts(cursors)[i] == Left(cursors[i])
    ensures heap == map[] ==> forall i :: 0 <= i < |cursors| ==> Lefts(cursors)[i] == []
  {
    hide Left;
  }

  lemma KeysAt(cursors: seq<Cursor>, chunk: MergeChunk, memory: map<nat, Batch>, i: nat)
    requires KeysOk(cursors, chunk, memory) && i < |cursors| && cursors[i].current.Some?
    ensures chunk.Valid() && chunk.Agrees(memory)
    ensures BatchKey(i, cursors[i].loadCount) in memory
    ensures memory[BatchKey(i, cursors[i].loadCount)] == cursors[i].current.value
  {
    hide BatchKey;
  }

  lemma KeepKeys(cursors: seq<Cursor>, before: MergeChunk, chunk: MergeChunk, memory: map<nat, Batch>)
    requires KeysOk(cursors, before, memory) && chunk.Valid() && chunk.Agrees(memory)
    ensures KeysOk(cursors, chunk, memory)
  {
    hide BatchKey;
  }

  lemma FlattenEmpty()
    ensures Flatten<Row>([]) == []
  {
  }

  lemma LeftHead(c: Cursor)
    requires CursorValid(c) && Left(c) != []
    ensures c.current.Some? && Left(c)[0] == c.current.value[c.row]
  {
  }

  lemma StartReversed(layers: seq<Batch>)
    requires forall i :: 0 <= i < |layers| ==> Ascending(layers[i])
    ensures Progress(Reverse(layers), Reverse(layers), [], None)
  {
    StartProgress(Reverse(layers));
  }

  lemma EndReversed(layers: seq<Batch>, rests: seq<Batch>, out: Batch, last: Option<int>)
    requires Progress(Reverse(layers), Reverse(rests), out, last)
    requires forall i :: 0 <= i < |rests| ==> rests[i] == []
    ensures Lists(out, LaterWins(layers))
  {
    EndProgress(Reverse(layers), Reverse(rests), out, last);
    assert Reverse(Reverse(layers)) == layers;
  }

  lemma NoRowsLeft(contents: seq<Contents>, rows: Batch)
    requires Lists(rows, LaterWins(FileRows(contents)))
    ensures rows == [] <==> forall i :: 0 <= i < |contents| ==> Flatten(contents[i]) == []
  {
    var layers: seq<Batch> := FileRows(contents);
    if i :| 0 <= i < |contents| && Flatten(contents[i]) != [] {
      var t := layers[i][0].time;
      WriteKeys(layers[i]);
      LaterWinsDomain(layers, t);
      assert t in Times(layers[i]) && t in LastWrite(rows);
    } else {
      LaterWinsEmpty(layers);
      if rows != [] {
        OutputCovers(rows);
      }
    }
  }

  /** What one compaction writes: refused for fewer than two files or for no rows, otherwise the merged
      rows under the hull of the run's LSN spans, one generation up. */
  method Merge(files: seq<SstMeta>, contents: seq<Contents>, path: nat, fileSize: u64)
    returns (r: Result<(SstMeta, Contents)>)
    requires |files| == |contents|
    requires forall i :: 0 <= i < |contents| ==> |contents[i]| < KEY_SHIFT
    requires forall i :: 0 <= i < |contents| ==> Ascending(Flatten(contents[i]))
    ensures r.Err? <==> |files| < 2 || forall i :: 0 <= i < |contents| ==> Flatten(contents[i]) == []
    ensures r.Ok? ==>
              && Lists(Flatten(r.value.1), LaterWins(FileRows(contents)))
              && FullButLast(r.value.1, 8192)
              && Tight(Stats(r.value.0.rowCount, r.value.0.minTs, r.value.0.maxTs), Flatten(r.value.1))
              && SpanOf(r.value.0) == MergedSpan(files)
              && r.value.0.innerCount == MergedInner(files) && r.value.0.crossCount == MergedCross(files)
              && r.value.0.path == path && r.value.0.fileSize == fileSize
  {
    if |files| < 2 {
      return Err;
    }
    var batches, stats := MergeBatches(contents);
    NoRowsLeft(contents, Flatten(batches));
    if stats.rows == 0 {
      return Err;
    }
    var span := MergedSpan(files);
    var meta := SstMeta(path, stats.minTs, stats.maxTs, stats.rows, fileSize,
                        MergedInner(files), MergedCross(files), span.base, span.max);
    return Ok((meta, batches));
  }
}
