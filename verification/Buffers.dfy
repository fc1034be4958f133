/** The two rechunking buffers of the memtable (src/storage/src/memtable/builders.rs and
chunk_buffer.rs): rows arrive in batches of any size and leave in chunks of exactly the capacity. */
module Buffers {
  import opened Rows

  /** The full chunks of a stream of rows. */
  function Pieces(rows: Batch, capacity: nat): (pieces: seq<Batch>)
    requires 0 < capacity
    ensures forall i :: 0 <= i < |pieces| ==> |pieces[i]| == capacity
  {
    if |rows| < capacity then [] else [rows[..capacity]] + Pieces(rows[capacity..], capacity)
  }

  /** The rows not yet making a full chunk. */
  function Tail(rows: Batch, capacity: nat): (tail: Batch)
    requires 0 < capacity
    ensures |tail| < capacity
  {
    if |rows| < capacity then rows else Tail(rows[capacity..], capacity)
  }

  /** Everything emitted once the tail is finished. */
  function Cut(rows: Batch, capacity: nat): (chunks: seq<Batch>)
    requires 0 < capacity
  {
    Pieces(rows, capacity) + (if Tail(rows, capacity) == [] then [] else [Tail(rows, capacity)])
  }

  lemma {:induction false} PiecesKeepRows(rows: Batch, capacity: nat)
    requires 0 < capacity
    ensures Flatten(Pieces(rows, capacity)) + Tail(rows, capacity) == rows
  {
    hide Flatten;
    NoBatches(capacity);
    if |rows| >= capacity {
      var rest := rows[capacity..];
      PiecesKeepRows(rest, capacity);
      FlattenHead(Pieces(rows, capacity));
      assert Pieces(rows, capacity)[1..] == Pieces(rest, capacity);
      assert rows == rows[..capacity] + rest;
    }
  }

  /** Rows cut one arrival at a time are cut as if they had all arrived at once. */
  lemma {:induction false} PiecesAppend(rows: Batch, more: Batch, capacity: nat)
    requires 0 < capacity
    ensures Pieces(rows + more, capacity) == Pieces(rows, capacity) + Pieces(Tail(rows, capacity) + more, capacity)
    ensures Tail(rows + more, capacity) == Tail(Tail(rows, capacity) + more, capacity)
  {
    if |rows| >= capacity {
      PiecesAppend(rows[capacity..], more, capacity);
      assert (rows + more)[..capacity] == rows[..capacity];
      assert (rows + more)[capacity..] == rows[capacity..] + more;
    }
  }

  /** The cut keeps every row in order, in chunks of exactly the capacity but perhaps the last. */
  lemma CutKeepsRows(rows: Batch, capacity: nat)
    requires 0 < capacity
    ensures Flatten(Cut(rows, capacity)) == rows && FullButLast(Cut(rows, capacity), capacity)
  {
    PiecesKeepRows(rows, capacity);
    var pieces, tail := Pieces(rows, capacity), Tail(rows, capacity);
    if tail != [] {
      FlattenConcat(pieces, [tail]);
      FlattenSingle(tail);
    } else {
      assert pieces + [] == pieces;
    }
  }

  lemma OnePiece(rows: Batch, capacity: nat)
    requires 0 < capacity && |rows| <= capacity
    ensures Pieces(rows, capacity) == if |rows| == capacity then [rows] else []
    ensures Tail(rows, capacity) == if |rows| == capacity then [] else rows
  {
    if |rows| == capacity {
      assert rows[..capacity] == rows && rows[capacity..] == [];
    }
  }

  class BatchBuffer {
    var buffer: seq<Batch>
    var bufferedRows: nat
    const capacity: nat

    ghost predicate Counted()
      reads this
    {
      0 < capacity && bufferedRows == |Flatten(buffer)|
    }

    ghost predicate Valid()
      reads this
    {
      Counted() && bufferedRows < capacity
    }

    constructor (capacity: nat)
      ensures Valid() && buffer == [] && this.capacity == if capacity == 0 then 1 else capacity
    {
      this.capacity := if capacity == 0 then 1 else capacity;
      buffer, bufferedRows := [], 0;
    }

    method AppendBatch(batch: Batch) returns (completed: seq<Batch>)
      requires Valid()
      modifies this
      ensures Valid() && Flatten(buffer) == Tail(old(Flatten(buffer)) + batch, capacity)
      ensures completed == Pieces(old(Flatten(buffer)) + batch, capacity)
    {
      if batch == [] {
        assert Flatten(buffer) + batch == Flatten(buffer);
        return [];
      }
      FlattenAppend(buffer, batch);
      buffer := buffer + [batch];
      bufferedRows := bufferedRows + |batch|;
      ghost var rows := Flatten(buffer);
      completed := [];
      while bufferedRows >= capacity
        invariant Counted()
        invariant Pieces(rows, capacity) == completed + Pieces(Flatten(buffer), capacity)
        invariant Tail(rows, capacity) == Tail(Flatten(buffer), capacity)
        decreases bufferedRows
      {
        var full := ExtractCapacityBatch();
        completed := completed + [full];
      }
    }

    method Finish() returns (tail: Option<Batch>)
      requires Valid()
      modifies this
      ensures Valid() && Flatten(buffer) == []
      ensures tail == if old(Flatten(buffer)) == [] then None else Some(old(Flatten(buffer)))
    {
      if bufferedRows == 0 {
        return None;
      }
      tail := Some(Flatten(buffer));
      buffer, bufferedRows := [], 0;
    }

    /** Takes exactly `capacity` rows from the front, splitting the batch they end in. */
    method ExtractCapacityBatch() returns (full: Batch)
      requires Counted() && capacity <= bufferedRows
      modifies this
      ensures Counted() && old(Flatten(buffer)) == full + Flatten(buffer) && |full| == capacity
      ensures bufferedRows == old(bufferedRows) - capacity
    {
      hide Flatten;
      NoBatches(capacity);
      var chunks: seq<Batch>, collected := [], 0;
      ghost var rows := Flatten(buffer);
      while collected < capacity
        invariant rows == Flatten(chunks) + Flatten(buffer)
        invariant collected == |Flatten(chunks)| <= capacity && bufferedRows == |rows|
        decreases capacity - collected, |buffer|
      {
        var needed := capacity - collected;
        var front := buffer[0];
        FlattenHead(buffer);
        buffer := buffer[1..];
        if |front| <= needed {
          FlattenAppend(chunks, front);
          chunks, collected := chunks + [front], collected + |front|;
        } else {
          FlattenAppend(chunks, front[..needed]);
          chunks, collected := chunks + [front[..needed]], collected + needed;
          buffer := [front[needed..]] + buffer;
          FlattenHead(buffer);
          assert front == front[..needed] + front[needed..];
        }
      }
      bufferedRows := bufferedRows - capacity;
      full := Flatten(chunks);
    }
  }

  class ChunkBuffer {
    var activeSlices: seq<Batch>
    var activeRows: nat
    const arraySize: nat

    ghost predicate Valid()
      reads this
    {
      0 < arraySize && activeRows == |Flatten(activeSlices)| < arraySize
    }

    constructor (arraySize: nat)
      ensures Valid() && activeSlices == [] && this.arraySize == if arraySize == 0 then 1 else arraySize
    {
      this.arraySize := if arraySize == 0 then 1 else arraySize;
      activeSlices, activeRows := [], 0;
    }

    method Append(batch: Batch) returns (completed: seq<Batch>)
      requires Valid()
      modifies this
      ensures Valid() && Flatten(activeSlices) == Tail(old(Flatten(activeSlices)) + batch, arraySize)
      ensures completed == Pieces(old(Flatten(activeSlices)) + batch, arraySize)
    {
      hide Pieces, Tail, Flatten;
      completed := [];
      var offset := 0;
      ghost var before := Flatten(activeSlices);
      OnePiece(before, arraySize);
      assert before + batch[..0] == before;
      while offset < |batch|
        invariant Valid() && offset <= |batch|
        invariant completed == Pieces(before + batch[..offset], arraySize)
        invariant Flatten(activeSlices) == Tail(before + batch[..offset], arraySize)
      {
        var space := arraySize - activeRows;
        var take := if |batch| - offset <= space then |batch| - offset else space;
        ghost var slice := batch[offset..offset + take];
        PiecesAppend(before + batch[..offset], slice, arraySize);
        OnePiece(Flatten(activeSlices) + slice, arraySize);
        assert before + batch[..offset] + slice == before + batch[..offset + take];
        FlattenAppend(activeSlices, batch[offset..offset + take]);
        activeSlices := activeSlices + [batch[offset..offset + take]];
        activeRows := activeRows + take;
        offset := offset + take;
        if activeRows == arraySize {
          var block := MaterializeActiveBlock();
          completed := completed + [block];
        }
      }
      assert batch[..|batch|] == batch;
    }

    method Finish() returns (tail: seq<Batch>)
      requires Valid()
      modifies this
      ensures Valid() && Flatten(activeSlices) == []
      ensures tail == if old(Flatten(activeSlices)) == [] then [] else [old(Flatten(activeSlices))]
    {
      if activeRows == 0 {
        return [];
      }
      var block := MaterializeActiveBlock();
      tail := [block];
    }

    method MaterializeActiveBlock() returns (block: Batch)
      requires 0 < arraySize && activeRows == |Flatten(activeSlices)| && activeSlices != []
      modifies this
      ensures Valid() && Flatten(activeSlices) == [] && block == old(Flatten(activeSlices))
    {
      if |activeSlices| == 1 {
        FlattenSingle(activeSlices[0]);
        block := activeSlices[0];
      } else {
        block := Flatten(activeSlices);
      }
      activeSlices, activeRows := [], 0;
    }
  }

  method RunBatchBuffer(appends: seq<Batch>, capacity: nat) returns (chunks: seq<Batch>)
    ensures chunks == Cut(Flatten(appends), if capacity == 0 then 1 else capacity)
  {
    var b := new BatchBuffer(capacity);
    chunks := [];
    for i := 0 to |appends|
      invariant b.Valid() && b.capacity == if capacity == 0 then 1 else capacity
      invariant chunks == Pieces(Flatten(appends[..i]), b.capacity)
      invariant Flatten(b.buffer) == Tail(Flatten(appends[..i]), b.capacity)
    {
      PiecesAppend(Flatten(appends[..i]), appends[i], b.capacity);
      assert appends[..i + 1][..i] == appends[..i];
      var completed := b.AppendBatch(appends[i]);
      chunks := chunks + completed;
    }
    assert appends[..|appends|] == appends;
    var tail := b.Finish();
    if tail.Some? {
      chunks := chunks + [tail.value];
    }
  }

  method RunChunkBuffer(appends: seq<Batch>, arraySize: nat) returns (chunks: seq<Batch>)
    ensures chunks == Cut(Flatten(appends), if arraySize == 0 then 1 else arraySize)
  {
    var b := new ChunkBuffer(arraySize);
    chunks := [];
    for i := 0 to |appends|
      invariant b.Valid() && b.arraySize == if arraySize == 0 then 1 else arraySize
      invariant chunks == Pieces(Flatten(appends[..i]), b.arraySize)
      invariant Flatten(b.activeSlices) == Tail(Flatten(appends[..i]), b.arraySize)
    {
      PiecesAppend(Flatten(appends[..i]), appends[i], b.arraySize);
      assert appends[..i + 1][..i] == appends[..i];
      var completed := b.Append(appends[i]);
      chunks := chunks + completed;
    }
    assert appends[..|appends|] == appends;
    var tail := b.Finish();
    chunks := chunks + tail;
  }

  /** However the rows arrive, both buffers emit the same chunks: the arrivals end to end, cut at
      multiples of the capacity. */
  method BuffersAgree(appends: seq<Batch>, capacity: nat) returns (a: seq<Batch>, b: seq<Batch>)
    ensures a == b && Flatten(a) == Flatten(appends)
    ensures FullButLast(a, if capacity == 0 then 1 else capacity)
  {
    CutKeepsRows(Flatten(appends), if capacity == 0 then 1 else capacity);
    a := RunBatchBuffer(appends, capacity);
    b := RunChunkBuffer(appends, capacity);
  }
}
