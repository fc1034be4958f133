/** Flush planning and the sort- and scan-based deduplications of src/storage/src/compaction/dedup.rs.

Chunks are ordered oldest to newest. Every dedup here has the same meaning, the last-write map of the
concatenated chunks, and so emits the same rows (`Rows.ListingUnique`). */
module Dedup {
  import opened Rows

  // ----- strictly ordered chunks -----

  predicate AdjacentlyAscending(rows: Batch) {
    forall i :: 0 <= i < |rows| - 1 ==> rows[i].time < rows[i + 1].time
  }

  /** Comparing neighbours is enough. */
  lemma {:induction false} AdjacentIsStrict(rows: Batch)
    ensures AdjacentlyAscending(rows) <==> StrictlyAscending(rows)
  {
    if |rows| > 1 {
      var init := rows[..|rows| - 1];
      AdjacentIsStrict(init);
      if AdjacentlyAscending(rows) {
        assert AdjacentlyAscending(init);
        assert rows[|rows| - 2].time < rows[|rows| - 1].time;
        assert init[|init| - 1] == rows[|rows| - 2];
      }
    }
  }

  lemma StrictConcat(a: Batch, b: Batch)
    ensures StrictlyAscending(a + b) <==>
            StrictlyAscending(a) && StrictlyAscending(b)
            && (a != [] && b != [] ==> a[|a| - 1].time < b[0].time)
  {
    var c := a + b;
    if StrictlyAscending(c) {
      assert forall i :: 0 <= i < |a| ==> a[i] == c[i];
      assert forall i :: 0 <= i < |b| ==> b[i] == c[|a| + i];
    }
  }

  lemma StrictPrefix(chunks: seq<Batch>, k: nat)
    requires k <= |chunks| && StrictlyAscending(Flatten(chunks))
    ensures StrictlyAscending(Flatten(chunks[..k]))
  {
    FlattenConcat(chunks[..k], chunks[k..]);
    assert chunks[..k] + chunks[k..] == chunks;
    StrictConcat(Flatten(chunks[..k]), Flatten(chunks[k..]));
  }

  lemma NothingOrdered(chunks: seq<Batch>)
    ensures StrictlyAscending([]) && Flatten(chunks[..0]) == []
  {
  }

  /** True exactly when writing the chunks one after another is already a listing. */
  method ChunksStrictlyOrdered(chunks: seq<Batch>) returns (ordered: bool)
    ensures ordered <==> StrictlyAscending(Flatten(chunks))
  {
    hide StrictlyAscending, AdjacentlyAscending, Flatten;
    assert StrictlyAscending([]) && Flatten(chunks[..0]) == [] by { NothingOrdered(chunks); }
    var prevLast: Option<int> := None;
    for k := 0 to |chunks|
      invariant var done := Flatten(chunks[..k]);
                StrictlyAscending(done)
                && prevLast == if done == [] then None else Some(done[|done| - 1].time)
    {
      var batch := chunks[k];
      ghost var done := Flatten(chunks[..k]);
      FlattenNext(chunks, k);
      AdjacentIsStrict(batch);
      StrictConcat(done, batch);
      if batch == [] {
        continue;
      }
      if !AdjacentlyAscending(batch) || (prevLast.Some? && batch[0].time <= prevLast.value) {
        if StrictlyAscending(Flatten(chunks)) {
          StrictPrefix(chunks, k + 1);
        }
        return false;
      }
      prevLast := Some(batch[|batch| - 1].time);
    }
    assert chunks[..|chunks|] == chunks;
    return true;
  }

  function NonEmpty(chunks: seq<Batch>): (r: seq<Batch>)
    ensures Flatten(r) == Flatten(chunks)
    ensures forall i :: 0 <= i < |r| ==> r[i] != []
    ensures r == [] <==> Flatten(chunks) == []
  {
    if chunks == [] then [] else
      var init, last := NonEmpty(chunks[..|chunks| - 1]), chunks[|chunks| - 1];
      if last == [] then init else
        assert (init + [last])[..|init|] == init;
        init + [last]
  }

  // ----- coordinates, sorted by (time, chunk, row) -----

  datatype Entry = Entry(ts: int, chunk: nat, row: nat)

  predicate AtMost(a: Entry, b: Entry) {
    a.ts < b.ts || (a.ts == b.ts && (a.chunk < b.chunk || (a.chunk == b.chunk && a.row <= b.row)))
  }

  predicate SortedEntries(es: seq<Entry>) {
    forall i, j :: 0 <= i < j < |es| ==> AtMost(es[i], es[j])
  }

  predicate Addresses(chunks: seq<Batch>, e: Entry) {
    e.chunk < |chunks| && e.row < |chunks[e.chunk]| && e.ts == chunks[e.chunk][e.row].time
  }

  predicate AllAddress(chunks: seq<Batch>, es: seq<Entry>) {
    forall i :: 0 <= i < |es| ==> Addresses(chunks, es[i])
  }

  /** Every row of every chunk has its coordinate in `es`. */
  ghost predicate Complete(chunks: seq<Batch>, es: seq<Entry>) {
    forall e :: Addresses(chunks, e) ==> e in es
  }

  function RowsAt(chunks: seq<Batch>, es: seq<Entry>): (rows: Batch)
    requires AllAddress(chunks, es)
    ensures |rows| == |es|
  {
    seq(|es|, i requires 0 <= i < |es| => chunks[es[i].chunk][es[i].row])
  }

  predicate Distinct(es: seq<Entry>) {
    forall i, j :: 0 <= i < j < |es| ==> es[i] != es[j]
  }

  function Insert(e: Entry, es: seq<Entry>): (r: seq<Entry>)
    requires SortedEntries(es)
    ensures SortedEntries(r)
    ensures forall x :: x in r <==> x == e || x in es
    ensures Distinct(es) && e !in es ==> Distinct(r)
  {
    if es == [] || AtMost(es[|es| - 1], e) then es + [e]
    else
      var last := es[|es| - 1];
      var rest := es[..|es| - 1];
      var init := Insert(e, rest);
      assert forall x :: x in rest ==> AtMost(x, last);
      assert forall x :: x in init ==> AtMost(x, last);
      assert Distinct(es) ==> Distinct(rest) && last !in rest;
      init + [last]
  }

  /** The library sort, by insertion. */
  method Sort(es: seq<Entry>) returns (sorted: seq<Entry>)
    ensures SortedEntries(sorted)
    ensures forall e :: e in sorted <==> e in es
    ensures Distinct(es) ==> Distinct(sorted)
  {
    sorted := [];
    for i := 0 to |es|
      invariant SortedEntries(sorted)
      invariant Distinct(es) ==> Distinct(sorted)
      invariant forall e :: e in sorted <==> e in es[..i]
    {
      sorted := Insert(es[i], sorted);
      assert es[..i + 1] == es[..i] + [es[i]];
    }
    assert es[..|es|] == es;
  }

  /** Keep the last entry of every run of equal times. */
  function KeepLast(es: seq<Entry>): (r: seq<Entry>)
    ensures forall e :: e in r ==> e in es
  {
    if |es| <= 1 then es
    else if es[0].ts == es[1].ts then KeepLast(es[1..])
    else [es[0]] + KeepLast(es[1..])
  }

  lemma AddressSubset(chunks: seq<Batch>, a: seq<Entry>, b: seq<Entry>)
    requires AllAddress(chunks, b) && forall e :: e in a ==> e in b
    ensures AllAddress(chunks, a)
  {
    forall i | 0 <= i < |a| ensures Addresses(chunks, a[i]) { assert a[i] in b; }
  }

  lemma CompleteSubset(chunks: seq<Batch>, a: seq<Entry>, b: seq<Entry>)
    requires Complete(chunks, a) && forall e :: e in a ==> e in b
    ensures Complete(chunks, b)
  {
  }

  lemma PrependOlder(head: Row, rest: Batch, kept: Batch)
    requires Lists(kept, LastWrite(rest))
    requires forall k :: 0 <= k < |rest| ==> head.time < rest[k].time
    ensures Lists([head] + kept, LastWrite([head] + rest))
  {
    LastWriteConcat([head], rest);
    LastWriteConcat([head], kept);
    LastKeys(rest);
    LastKeys(kept);
    forall k | 0 <= k < |kept|
      ensures head.time < kept[k].time
    {
      assert kept[k].time in Times(kept);
    }
  }

  lemma PrependShadowed(head: Row, rest: Batch)
    requires rest != [] && rest[0].time == head.time
    ensures LastWrite([head] + rest) == LastWrite(rest)
  {
    LastWriteConcat([head], rest);
    LastKeys(rest);
    assert LastWrite([head]) == map[head.time := head.value];
    assert head.time in LastWrite(rest);
  }

  /** Keeping the last of each run of an ascending sequence lists its last-write map. */
  lemma {:induction false} KeepLastLists(chunks: seq<Batch>, es: seq<Entry>)
    requires AllAddress(chunks, es) && SortedEntries(es)
    ensures AllAddress(chunks, KeepLast(es))
    ensures Lists(RowsAt(chunks, KeepLast(es)), LastWrite(RowsAt(chunks, es)))
  {
    AddressSubset(chunks, KeepLast(es), es);
    if |es| <= 1 {
      assert KeepLast(es) == es;
    } else {
      var tail := es[1..];
      KeepLastLists(chunks, tail);
      var head, rest, kept := chunks[es[0].chunk][es[0].row], RowsAt(chunks, tail), RowsAt(chunks, KeepLast(tail));
      assert RowsAt(chunks, es) == [head] + rest;
      if es[0].ts == es[1].ts {
        PrependShadowed(head, rest);
      } else {
        assert RowsAt(chunks, KeepLast(es)) == [head] + kept;
        PrependOlder(head, rest, kept);
      }
    }
  }

  /** The newest write of a time is the one with the greatest coordinate. */
  lemma {:induction false} NewestCoordinate(chunks: seq<Batch>, e: Entry)
    requires Addresses(chunks, e)
    requires forall x :: Addresses(chunks, x) && x.ts == e.ts ==> AtMost(x, e)
    ensures var m := LastWrite(Flatten(chunks)); e.ts in m && m[e.ts] == chunks[e.chunk][e.row].value
  {
    var n := |chunks| - 1;
    var init, last := chunks[..n], chunks[n];
    LastWriteConcat(Flatten(init), last);
    if e.chunk == n {
      forall q | e.row < q < |last|
        ensures last[q].time != e.ts
      {
        assert Addresses(chunks, Entry(last[q].time, n, q));
      }
      LastWriteAt(last, e.row);
    } else {
      forall x | Addresses(init, x) && x.ts == e.ts
        ensures AtMost(x, e)
      {
        assert Addresses(chunks, x);
      }
      NewestCoordinate(init, e);
      LastKeys(last);
      forall q | 0 <= q < |last|
        ensures last[q].time != e.ts
      {
        assert Addresses(chunks, Entry(last[q].time, n, q));
      }
    }
  }

  lemma {:induction false} FlatTimes(chunks: seq<Batch>, t: int)
    ensures t in LastWrite(Flatten(chunks)) <==> exists e :: Addresses(chunks, e) && e.ts == t
  {
    if chunks != [] {
      var n := |chunks| - 1;
      FlatTimes(chunks[..n], t);
      LastWriteConcat(Flatten(chunks[..n]), chunks[n]);
      LastKeys(chunks[n]);
      if t in LastWrite(chunks[n]) {
        var r :| 0 <= r < |chunks[n]| && chunks[n][r].time == t;
        assert Addresses(chunks, Entry(t, n, r));
      }
      forall e | Addresses(chunks[..n], e) ensures Addresses(chunks, e) { }
      forall e | Addresses(chunks, e) && e.chunk < n ensures Addresses(chunks[..n], e) { }
    }
  }

  lemma SortedSameTimes(chunks: seq<Batch>, es: seq<Entry>, t: int)
    requires AllAddress(chunks, es) && Complete(chunks, es)
    ensures t in LastWrite(RowsAt(chunks, es)) <==> t in LastWrite(Flatten(chunks))
  {
    hide LastWrite, Flatten;
    var rows := RowsAt(chunks, es);
    LastKeys(rows);
    FlatTimes(chunks, t);
    if t in Times(rows) {
      var i :| 0 <= i < |rows| && rows[i].time == t;
      assert Addresses(chunks, es[i]);
    }
    if t in LastWrite(Flatten(chunks)) {
      var e :| Addresses(chunks, e) && e.ts == t;
      var i :| 0 <= i < |es| && es[i] == e;
      assert rows[i].time == t;
    }
  }

  lemma SortedSameValue(chunks: seq<Batch>, es: seq<Entry>, t: int)
    requires AllAddress(chunks, es) && Complete(chunks, es) && SortedEntries(es)
    requires t in LastWrite(RowsAt(chunks, es)) && t in LastWrite(Flatten(chunks))
    ensures LastWrite(RowsAt(chunks, es))[t] == LastWrite(Flatten(chunks))[t]
  {
    hide LastWrite, Flatten;
    var rows := RowsAt(chunks, es);
    LastKeys(rows);
    var p := LastIndexOf(rows, t);
    LastWriteAt(rows, p);
    forall x | Addresses(chunks, x) && x.ts == t
      ensures AtMost(x, es[p])
    {
      var q :| 0 <= q < |es| && es[q] == x;
      assert rows[q].time == t;
    }
    NewestCoordinate(chunks, es[p]);
  }

  /** Sorting all coordinates by (time, chunk, row) keeps the meaning of the chunks. */
  lemma SortedMeansSame(chunks: seq<Batch>, es: seq<Entry>)
    requires AllAddress(chunks, es) && Complete(chunks, es) && SortedEntries(es)
    ensures LastWrite(RowsAt(chunks, es)) == LastWrite(Flatten(chunks))
  {
    hide LastWrite, Flatten;
    var a, b := LastWrite(RowsAt(chunks, es)), LastWrite(Flatten(chunks));
    forall t ensures t in a <==> t in b { SortedSameTimes(chunks, es, t); }
    forall t | t in a ensures a[t] == b[t] { SortedSameValue(chunks, es, t); }
  }

  lemma {:induction false} LastIndexOf(rows: Batch, t: int) returns (p: nat)
    requires t in Times(rows)
    ensures p < |rows| && rows[p].time == t
    ensures forall q :: p < q < |rows| ==> rows[q].time != t
  {
    p := |rows| - 1;
    if rows[p].time != t {
      var init := rows[..p];
      var i :| 0 <= i < |rows| && rows[i].time == t;
      assert init[i].time == t;
      p := LastIndexOf(init, t);
      assert forall q :: p < q < |init| ==> init[q] == rows[q];
    }
  }

  // ----- flush planning -----

  datatype FlushPlan =
    | Streaming(chunks: seq<Batch>)
    | Sorted(sources: seq<Batch>, coords: seq<Entry>)

  /** The rows a plan writes, in order. */
  function PlanRows(plan: FlushPlan): (rows: Batch)
    requires plan.Sorted? ==> AllAddress(plan.sources, plan.coords)
  {
    match plan
    case Streaming(chunks) => Flatten(chunks)
    case Sorted(sources, coords) => RowsAt(sources, coords)
  }

  /** The coordinate of every row of every chunk, in chunk and row order. */
  method CollectEntries(chunks: seq<Batch>) returns (entries: seq<Entry>)
    ensures AllAddress(chunks, entries) && Complete(chunks, entries) && Distinct(entries)
  {
    entries := [];
    for c := 0 to |chunks|
      invariant AllAddress(chunks, entries) && Distinct(entries)
      invariant forall i :: 0 <= i < |entries| ==> entries[i].chunk < c
      invariant forall e :: Addresses(chunks, e) && e.chunk < c ==> e in entries
    {
      for r := 0 to |chunks[c]|
        invariant AllAddress(chunks, entries) && Distinct(entries)
        invariant forall i :: 0 <= i < |entries| ==>
                    entries[i].chunk < c || (entries[i].chunk == c && entries[i].row < r)
        invariant forall e :: Addresses(chunks, e) && (e.chunk < c || (e.chunk == c && e.row < r)) ==> e in entries
      {
        entries := entries + [Entry(chunks[c][r].time, c, r)];
      }
    }
  }

  lemma KeepLastNone()
    ensures KeepLast([]) == []
  {
  }

  lemma KeepLastStep(es: seq<Entry>, i: nat)
    requires i < |es|
    ensures i + 1 < |es| && es[i].ts == es[i + 1].ts ==> KeepLast(es[i..]) == KeepLast(es[i + 1..])
    ensures !(i + 1 < |es| && es[i].ts == es[i + 1].ts) ==> KeepLast(es[i..]) == [es[i]] + KeepLast(es[i + 1..])
  {
    assert es[i..][1..] == es[i + 1..];
    if i + 1 == |es| {
      assert es[i..] == [es[i]] + es[i + 1..];
    }
  }

  /** Drops all but the last entry of each run of equal times. */
  method KeepLastOfRuns(entries: seq<Entry>) returns (coords: seq<Entry>)
    ensures coords == KeepLast(entries)
  {
    hide KeepLast;
    coords := [];
    var i := 0;
    assert entries[0..] == entries;
    while i < |entries|
      invariant 0 <= i <= |entries| && KeepLast(entries) == coords + KeepLast(entries[i..])
    {
      var last := i;
      while last + 1 < |entries| && entries[last + 1].ts == entries[i].ts
        invariant i <= last < |entries| && entries[last].ts == entries[i].ts
        invariant KeepLast(entries[i..]) == KeepLast(entries[last..])
      {
        KeepLastStep(entries, last);
        last := last + 1;
      }
      KeepLastStep(entries, last);
      coords := coords + [entries[last]];
      i := last + 1;
    }
    assert entries[i..] == [];
    KeepLastNone();
  }

  /** Builds the index of the disorder path: coordinates of exactly the surviving rows, by time. */
  method BuildSorted(chunks: seq<Batch>) returns (coords: seq<Entry>)
    ensures AllAddress(chunks, coords)
    ensures Lists(RowsAt(chunks, coords), LastWrite(Flatten(chunks)))
  {
    var entries := CollectEntries(chunks);
    var sorted := Sort(entries);
    AddressSubset(chunks, sorted, entries);
    coords := KeepLastOfRuns(sorted);
    KeepLastLists(chunks, sorted);
    SortedMeansSame(chunks, sorted);
  }

  /** Nothing to flush without rows; the chunks themselves exactly when they already are a listing; the
      sorted index otherwise. Either way the rows written are the listing of the memtable's meaning. */
  method PlanFlush(chunks: seq<Batch>) returns (r: Result<FlushPlan>)
    ensures r.Err? <==> Flatten(chunks) == []
    ensures r.Ok? && r.value.Sorted? ==> AllAddress(r.value.sources, r.value.coords)
    ensures r.Ok? ==> Lists(PlanRows(r.value), LastWrite(Flatten(chunks)))
    ensures r.Ok? ==> (r.value.Streaming? <==> StrictlyAscending(Flatten(chunks)))
  {
    hide LastWrite, Flatten;
    var nonEmpty := NonEmpty(chunks);
    if nonEmpty == [] {
      return Err;
    }
    var ordered := ChunksStrictlyOrdered(nonEmpty);
    if ordered {
      return Ok(Streaming(nonEmpty));
    }
    var coords := BuildSorted(nonEmpty);
    return Ok(Sorted(nonEmpty, coords));
  }

  lemma RowsAtConcat(chunks: seq<Batch>, a: seq<Entry>, b: seq<Entry>)
    requires AllAddress(chunks, a) && AllAddress(chunks, b)
    ensures AllAddress(chunks, a + b)
    ensures RowsAt(chunks, a + b) == RowsAt(chunks, a) + RowsAt(chunks, b)
  {
  }

  /** Materializes a sorted plan window by window, `window.max(1)` rows at a time. */
  class SortedFlushBatches {
    const chunks: seq<Batch>
    const coords: seq<Entry>
    const window: nat
    var cursor: nat

    ghost predicate Valid()
      reads this
    {
      AllAddress(chunks, coords) && 0 < window && cursor <= |coords|
    }

    constructor (chunks: seq<Batch>, coords: seq<Entry>, window: nat)
      requires AllAddress(chunks, coords)
      ensures Valid() && cursor == 0 && this.chunks == chunks && this.coords == coords
      ensures this.window == if window == 0 then 1 else window
    {
      this.chunks, this.coords, this.cursor := chunks, coords, 0;
      this.window := if window == 0 then 1 else window;
    }

    method Next() returns (batch: Option<Batch>)
      requires Valid()
      modifies this`cursor
      ensures Valid() && old(cursor) <= cursor
      ensures batch.None? <==> old(cursor) == |coords|
      ensures batch.None? ==> cursor == old(cursor)
      ensures batch.Some? ==>
                && AllAddress(chunks, coords[old(cursor)..cursor])
                && batch.value == RowsAt(chunks, coords[old(cursor)..cursor])
                && cursor == if old(cursor) + window <= |coords| then old(cursor) + window else |coords|
    {
      if cursor >= |coords| {
        return None;
      }
      var end := if cursor + window <= |coords| then cursor + window else |coords|;
      var indices := coords[cursor..end];
      cursor := end;
      return Some(RowsAt(chunks, indices));
    }
  }

  /** The windows of a sorted plan, of any size, cut the surviving rows without changing them. */
  method WindowBatches(chunks: seq<Batch>, coords: seq<Entry>, window: nat) returns (batches: seq<Batch>)
    requires AllAddress(chunks, coords)
    ensures Flatten(batches) == RowsAt(chunks, coords)
    ensures FullButLast(batches, if window == 0 then 1 else window)
  {
    var it := new SortedFlushBatches(chunks, coords, window);
    batches := [];
    while it.cursor < |coords|
      invariant it.Valid() && it.chunks == chunks && it.coords == coords
      invariant it.window == if window == 0 then 1 else window
      invariant AllAddress(chunks, coords[..it.cursor]) && Flatten(batches) == RowsAt(chunks, coords[..it.cursor])
      invariant FullButLast(batches, it.window)
      invariant batches != [] && |batches[|batches| - 1]| != it.window ==> it.cursor == |coords|
      decreases |coords| - it.cursor
    {
      ghost var from := it.cursor;
      var batch := it.Next();
      RowsAtConcat(chunks, coords[..from], coords[from..it.cursor]);
      assert coords[..it.cursor] == coords[..from] + coords[from..it.cursor];
      AppendBatch(batches, batch.value, it.window);
      batches := batches + [batch.value];
    }
    assert coords[..|coords|] == coords;
  }

  // ----- duplicate detection, sorting and deduplication of whole batches -----

  predicate HasDuplicates(rows: Batch) {
    exists i, j :: 0 <= i < j < |rows| && rows[i].time == rows[j].time
  }

  method BatchHasDuplicateTimestamps(batch: Batch) returns (dup: bool)
    ensures dup <==> HasDuplicates(batch)
  {
    if |batch| < 2 {
      return false;
    }
    if AdjacentlyAscending(batch) {
      AdjacentIsStrict(batch);
      return false;
    }
    var seen := {};
    for i := 0 to |batch|
      invariant forall k :: 0 <= k < i ==> batch[k].time in seen
      invariant forall t :: t in seen ==> exists k :: 0 <= k < i && batch[k].time == t
      invariant forall j, k :: 0 <= j < k < i ==> batch[j].time != batch[k].time
    {
      if batch[i].time in seen {
        return true;
      }
      seen := seen + {batch[i].time};
    }
    return false;
  }

  /** Sorts one batch by time; rows of equal time keep their order. */
  method SortBatchByTimestamp(batch: Batch) returns (r: Batch)
    ensures Ascending(r) && LastWrite(r) == LastWrite(batch)
    ensures !HasDuplicates(batch) ==> StrictlyAscending(r)
  {
    hide LastWrite, Flatten, Complete;
    var chunks := [batch];
    var entries := CollectEntries(chunks);
    var sorted := Sort(entries);
    AddressSubset(chunks, sorted, entries);
    r := RowsAt(chunks, sorted);
    CompleteSubset(chunks, entries, sorted);
    SortedMeansSame(chunks, sorted);
    FlattenSingle(batch);
    if !HasDuplicates(batch) {
      forall i, j | 0 <= i < j < |r|
        ensures r[i].time < r[j].time
      {
        assert sorted[i] != sorted[j] && Addresses(chunks, sorted[i]) && Addresses(chunks, sorted[j]);
      }
    }
  }

  /** Sorts one merged batch by (time, original row) and keeps the last row of each run. */
  method DedupeSortedBatch(merged: Batch) returns (out: seq<Batch>)
    ensures |out| <= 1 && Lists(Flatten(out), LastWrite(merged)) && (|out| == 1 ==> out[0] != [])
  {
    FlattenSingle(merged);
    if merged == [] {
      return [];
    }
    if |merged| == 1 {
      return [merged];
    }
    var rows := KeepNewestRows(merged);
    FlattenSingle(rows);
    return if rows == [] then [] else [rows];
  }

  method KeepNewestRows(merged: Batch) returns (rows: Batch)
    ensures Lists(rows, LastWrite(merged))
  {
    hide LastWrite, Flatten, Complete, KeepLast, Lists;
    var chunks := [merged];
    var entries := CollectEntries(chunks);
    var order := Sort(entries);
    AddressSubset(chunks, order, entries);
    CompleteSubset(chunks, entries, order);
    var kept := [];
    assert order[0..] == order;
    for idx := 0 to |order|
      invariant KeepLast(order) == kept + KeepLast(order[idx..])
    {
      KeepLastStep(order, idx);
      if idx + 1 == |order| || order[idx].ts != order[idx + 1].ts {
        kept := kept + [order[idx]];
      }
    }
    assert order[|order|..] == [];
    KeepLastNone();
    assert kept == KeepLast(order);
    KeepLastLists(chunks, order);
    SortedMeansSame(chunks, order);
    FlattenSingle(merged);
    rows := RowsAt(chunks, kept);
  }

  /** Merges batches ordered oldest to newest into at most one batch, the newest row of each time. */
  method DedupeBatchesNewestWins(batches: seq<Batch>) returns (out: seq<Batch>)
    ensures |out| <= 1 && Lists(Flatten(out), LastWrite(Flatten(batches))) && (|out| == 1 ==> out[0] != [])
  {
    var nonEmpty := NonEmpty(batches);
    if nonEmpty == [] {
      return [];
    }
    if |nonEmpty| == 1 {
      FlattenSingle(nonEmpty[0]);
      var dup := BatchHasDuplicateTimestamps(nonEmpty[0]);
      if !dup {
        var sorted := SortBatchByTimestamp(nonEmpty[0]);
        FlattenSingle(sorted);
        SameMeaningSameEmptiness(sorted, nonEmpty[0]);
        return [sorted];
      }
    }
    out := DedupeSortedBatch(Flatten(nonEmpty));
  }

  // ----- memtable scans -----

  /** What the fast-path test of the scan looks at: duplicates inside a chunk, and the first and last
      row of each chunk. */
  predicate EndsInOrder(chunks: seq<Batch>)
    requires forall i :: 0 <= i < |chunks| ==> chunks[i] != []
  {
    && (forall i :: 0 <= i < |chunks| ==>
          !HasDuplicates(chunks[i]) && chunks[i][0].time <= chunks[i][|chunks[i]| - 1].time)
    && (forall i :: 0 <= i < |chunks| - 1 ==> chunks[i][|chunks[i]| - 1].time < chunks[i + 1][0].time)
  }

  /** Every row of a chunk is older than every row of a later chunk. */
  predicate Separated(chunks: seq<Batch>) {
    forall i, j :: 0 <= i < j < |chunks| ==>
      forall p, q :: 0 <= p < |chunks[i]| && 0 <= q < |chunks[j]| ==> chunks[i][p].time < chunks[j][q].time
  }

  method BatchesAreTimeOrdered(chunks: seq<Batch>) returns (ordered: bool)
    requires forall i :: 0 <= i < |chunks| ==> chunks[i] != []
    ensures ordered <==> EndsInOrder(chunks)
  {
    var lastTs: Option<int> := None;
    for i := 0 to |chunks|
      invariant EndsInOrder(chunks[..i])
      invariant lastTs == if i == 0 then None else Some(chunks[i - 1][|chunks[i - 1]| - 1].time)
    {
      var batch := chunks[i];
      var dup := BatchHasDuplicateTimestamps(batch);
      var first, last := batch[0].time, batch[|batch| - 1].time;
      if dup || first > last || (lastTs.Some? && first <= lastTs.value) {
        return false;
      }
      lastTs := Some(last);
    }
    assert chunks[..|chunks|] == chunks;
    return true;
  }

  predicate AllBefore(a: set<int>, b: set<int>) {
    forall t, u :: t in a && u in b ==> t < u
  }

  lemma SeparatedBefore(chunks: seq<Batch>)
    requires chunks != [] && Separated(chunks)
    ensures Separated(chunks[..|chunks| - 1])
    ensures AllBefore(Times(Flatten(chunks[..|chunks| - 1])), Times(chunks[|chunks| - 1]))
  {
    hide LastWrite, Flatten;
    var n := |chunks| - 1;
    var init, last := chunks[..n], chunks[n];
    LastKeys(Flatten(init));
    forall t, u | t in Times(Flatten(init)) && u in Times(last)
      ensures t < u
    {
      FlatTimes(init, t);
      var e :| Addresses(init, e) && e.ts == t;
      var q :| 0 <= q < |last| && last[q].time == u;
      assert chunks[e.chunk][e.row].time < chunks[n][q].time;
    }
  }

  lemma BeforeSeparated(chunks: seq<Batch>)
    requires chunks != [] && Separated(chunks[..|chunks| - 1])
    requires AllBefore(Times(Flatten(chunks[..|chunks| - 1])), Times(chunks[|chunks| - 1]))
    ensures Separated(chunks)
  {
    hide LastWrite, Flatten;
    var n := |chunks| - 1;
    var init, last := chunks[..n], chunks[n];
    LastKeys(Flatten(init));
    forall i, j, p, q | 0 <= i < j < |chunks| && 0 <= p < |chunks[i]| && 0 <= q < |chunks[j]|
      ensures chunks[i][p].time < chunks[j][q].time
    {
      if j == n {
        assert Addresses(init, Entry(chunks[i][p].time, i, p));
        FlatTimes(init, chunks[i][p].time);
        assert last[q].time in Times(last);
      } else {
        assert init[i][p].time < init[j][q].time;
      }
    }
  }

  /** `sorted[i]` is `chunks[i]` put in order. */
  ghost predicate EachSorted(chunks: seq<Batch>, sorted: seq<Batch>) {
    |sorted| == |chunks|
    && forall i :: 0 <= i < |chunks| ==> StrictlyAscending(sorted[i]) && LastWrite(sorted[i]) == LastWrite(chunks[i])
  }

  lemma StrictByTimes(a: Batch, b: Batch)
    ensures StrictlyAscending(a + b) <==>
            StrictlyAscending(a) && StrictlyAscending(b) && AllBefore(Times(a), Times(b))
  {
    StrictConcat(a, b);
    if a != [] && b != [] {
      assert a[|a| - 1].time in Times(a) && b[0].time in Times(b);
    }
  }

  /** Sorting every chunk by itself gives a listing of the whole exactly when the chunks are separated. */
  lemma {:induction false} SortedChunksList(chunks: seq<Batch>, sorted: seq<Batch>)
    requires EachSorted(chunks, sorted)
    ensures LastWrite(Flatten(sorted)) == LastWrite(Flatten(chunks))
    ensures StrictlyAscending(Flatten(sorted)) <==> Separated(chunks)
  {
    hide LastWrite, Separated, AllBefore;
    if chunks != [] {
      var n := |chunks| - 1;
      SortedChunksList(chunks[..n], sorted[..n]);
      LastWriteConcat(Flatten(sorted[..n]), sorted[n]);
      LastWriteConcat(Flatten(chunks[..n]), chunks[n]);
      if Separated(chunks) {
        SeparatedBefore(chunks);
      }
      if Separated(chunks[..n]) && AllBefore(Times(Flatten(chunks[..n])), Times(chunks[n])) {
        BeforeSeparated(chunks);
      }
      StrictByTimes(Flatten(sorted[..n]), sorted[n]);
      LastKeys(Flatten(sorted[..n]));
      LastKeys(Flatten(chunks[..n]));
      LastKeys(sorted[n]);
      LastKeys(chunks[n]);
    } else {
      assert Separated(chunks) by { NoneSeparated(); }
    }
  }

  lemma NoneSeparated()
    ensures Separated([])
  {
  }

  method SortEach(chunks: seq<Batch>) returns (sorted: seq<Batch>)
    requires forall i :: 0 <= i < |chunks| ==> !HasDuplicates(chunks[i])
    ensures EachSorted(chunks, sorted)
    ensures forall i :: 0 <= i < |chunks| && chunks[i] != [] ==> sorted[i] != []
  {
    hide LastWrite;
    sorted := [];
    for i := 0 to |chunks|
      invariant |sorted| == i
      invariant forall k :: 0 <= k < i && chunks[k] != [] ==> sorted[k] != []
      invariant forall k :: 0 <= k < i ==> StrictlyAscending(sorted[k]) && LastWrite(sorted[k]) == LastWrite(chunks[k])
    {
      var b := SortBatchByTimestamp(chunks[i]);
      SameMeaningSameEmptiness(b, chunks[i]);
      sorted := sorted + [b];
    }
  }

  /** A memtable scan hands the merge the listing of its chunks in every case but one: several chunks
      whose ends look ordered although the chunks reach into each other. */
  method PrepareScanBatches(batches: seq<Batch>) returns (out: seq<Batch>)
    ensures LastWrite(Flatten(out)) == LastWrite(Flatten(batches))
    ensures forall i :: 0 <= i < |out| ==> out[i] != []
    ensures var chunks := NonEmpty(batches);
            Lists(Flatten(out), LastWrite(Flatten(batches))) <==>
            (|chunks| > 1 && EndsInOrder(chunks) ==> Separated(chunks))
    ensures var chunks := NonEmpty(batches);
            |chunks| > 1 && EndsInOrder(chunks) ==> EachSorted(chunks, out)
  {
    hide LastWrite, Separated, StrictlyAscending, EndsInOrder, HasDuplicates, Flatten;
    var chunks := NonEmpty(batches);
    if |chunks| > 1 {
      var ordered := BatchesAreTimeOrdered(chunks);
      if ordered {
        NoDuplicatesInOrder(chunks);
        out := SortEach(chunks);
        SortedChunksList(chunks, out);
        return;
      }
    }
    // A single chunk is sorted as it is, or deduplicated first if it repeats a time.
    out := DedupeBatchesNewestWins(chunks);
  }

  lemma NoDuplicatesInOrder(chunks: seq<Batch>)
    requires forall i :: 0 <= i < |chunks| ==> chunks[i] != []
    requires EndsInOrder(chunks)
    ensures forall i :: 0 <= i < |chunks| ==> !HasDuplicates(chunks[i])
  {
  }

  const OVERLAPPING: seq<Batch> := [[Row(1, 0), Row(9, 0), Row(3, 0)], [Row(4, 1), Row(9, 1)]]

  /** Ends in order, but the first chunk reaches past the second, and both write time 9. */
  lemma OverlappingEndsInOrder()
    ensures EndsInOrder(OVERLAPPING) && !Separated(OVERLAPPING)
  {
    assert OVERLAPPING[0][1].time > OVERLAPPING[1][0].time;
  }

  lemma FirstChunkMeans()
    ensures Lists([Row(1, 0), Row(3, 0), Row(9, 0)], LastWrite(OVERLAPPING[0]))
  {
    var a: Batch := [Row(1, 0), Row(9, 0), Row(3, 0)];
    var b: Batch := [Row(1, 0), Row(3, 0), Row(9, 0)];
    assert a[..2] == [Row(1, 0), Row(9, 0)] && a[..2][..1] == [Row(1, 0)];
    assert b[..2] == [Row(1, 0), Row(3, 0)] && b[..2][..1] == [Row(1, 0)];
    assert LastWrite([Row(1, 0)]) == map[1 := 0] by { assert [Row(1, 0)][..0] == []; }
    assert LastWrite(a) == map[1 := 0, 9 := 0, 3 := 0];
    assert LastWrite(b) == map[1 := 0, 3 := 0, 9 := 0];
  }

  lemma OverlappingNonEmpty()
    ensures NonEmpty(OVERLAPPING) == OVERLAPPING
  {
    assert OVERLAPPING[..1] == [OVERLAPPING[0]] && OVERLAPPING[..1][..0] == [];
  }

  /** So the scan of these two chunks comes out unsorted and shows time 9 twice. */
  method OverlappingScan() returns (out: seq<Batch>)
    ensures Flatten(out) == [Row(1, 0), Row(3, 0), Row(9, 0), Row(4, 1), Row(9, 1)]
  {
    hide LastWrite, EndsInOrder, Separated, NonEmpty, HasDuplicates;
    OverlappingNonEmpty();
    OverlappingEndsInOrder();
    out := PrepareScanBatches(OVERLAPPING);
    FirstChunkMeans();
    ListsAgree(out[0], [Row(1, 0), Row(3, 0), Row(9, 0)], LastWrite(OVERLAPPING[0]));
    ListsAgree(out[1], [Row(4, 1), Row(9, 1)], LastWrite(OVERLAPPING[1]));
    assert out == [out[0], out[1]] && out[..1] == [out[0]] && out[..1][..0] == [];
  }
}
