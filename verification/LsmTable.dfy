/** The table itself: the operations of src/storage/src/table.rs over the state of module Table, each
proved to keep the table standing for its log of writes, and the query over it. */
module LsmTable {
  import opened Rows
  import opened Sst
  import opened WriteLog
  import opened MergeFiles
  import opened Filter
  import opened Pruning
  import opened Table
  import Picks
  import Reads
  import SstWriter
  import TableRuns

  const MAX_FLUSH_DRAIN_ATTEMPTS: nat := 1000

  class LsmTable {
    var next: nat
    var nextId: nat
    var nextPath: nat
    var mutable: MemTable
    var immutables: seq<MemTable>
    const index: FileIndex
    var disk: map<nat, Contents>
    const capacity: nat
    ghost var log: seq<Write>

    ghost function Abs(): (s: State)
      reads this, index
    {
      State(next, mutable, immutables, index.files, disk, log)
    }

    /** Well formed whatever steps came before. */
    ghost predicate WellFormed()
      reads this, index
    {
      0 < capacity && index.Valid() && (forall p :: p in disk ==> p < nextPath) && Shaped(Abs())
      && Numbered(mutable, immutables, nextId)
    }

    /** The table also stands for its log. */
    ghost predicate Valid()
      reads this, index
    {
      WellFormed() && StateOk(Abs())
    }

    /** The operation took exactly these steps of the state machine, in this order. */
    twostate predicate Took(moves: seq<TableRuns.Step>)
      reads this, index
    {
      TableRuns.Leads(old(Abs()), moves, Abs())
    }

    constructor (capacity: nat)
      requires 0 < capacity
      ensures Valid() && fresh(index) && Abs() == TableRuns.START && this.capacity == capacity
    {
      hide StateOk, Shaped;
      this.capacity := capacity;
      next, nextId, nextPath := 1, 1, 0;
      mutable, immutables, disk, log := Fresh(0), [], map[], [];
      index := new FileIndex();
      new;
      EmptyStateOk();
      OkIsShaped(Abs());
    }

    /** Another table, or nobody, takes an LSN. */
    method AllocateElsewhere() returns (ghost moves: seq<TableRuns.Step>)
      requires WellFormed() && next < U64_MAX
      modifies this`next
      ensures WellFormed() && next == old(next) + 1
      ensures moves == [TableRuns.ElsewhereStep] && Took(moves)
      ensures TableRuns.AllClean(old(Abs()), moves)
    {
      hide Numbered, Shaped;
      moves := [TableRuns.ElsewhereStep];
      ghost var before := Abs();
      next := next + 1;
      OneMove(before, moves[0]);
    }

    /** A put is one LSN and one entry of the log, whatever its size, empty batches included. */
    method PutBatch(batch: Batch, rotate: bool) returns (ghost moves: seq<TableRuns.Step>)
      requires WellFormed() && next < U64_MAX
      modifies this
      ensures WellFormed() && index.files == old(index.files) && disk == old(disk)
      ensures log == old(log) + [Write(old(next), batch)] && next == old(next) + 1
      ensures moves == [TableRuns.PutStep(batch, capacity)]
                       + if rotate && MemRows(old(mutable)) + batch != [] then [TableRuns.FreezeStep(old(nextId))] else []
      ensures rotate && MemRows(old(mutable)) + batch != [] ==>
                mutable == Fresh(old(nextId)) && |immutables| == |old(immutables)| + 1
      ensures |immutables| <= |old(immutables)| + 1
      ensures Took(moves) && TableRuns.AllClean(old(Abs()), moves)
      ensures Unmarked(old(mutable)) && batch != [] ==> Unmarked(mutable)
    {
      hide Numbered, Shaped, MemRows;
      var put := TableRuns.PutStep(batch, capacity);
      ghost var before := Abs();
      InsertAppends(RecordLsn(mutable, next), batch, capacity);
      RecordKeepsRows(mutable, next);
      PutNumbered(mutable, immutables, nextId, next, batch, capacity);
      mutable := InsertRows(RecordLsn(mutable, next), batch, capacity);
      log := log + [Write(next, batch)];
      next := next + 1;
      OneMove(before, put);
      moves := [put];
      assert [put] + [] == [put];
      if rotate {
        ghost var mid := Abs();
        var frozen, second := FreezeActiveMemtable();
        TableRuns.LeadsThrough(before, [put], mid, second, Abs());
        moves := [put] + second;
      }
    }

    /** Moves the active memtable to the queue, unless it holds no rows. */
    method FreezeActiveMemtable() returns (frozen: bool, ghost moves: seq<TableRuns.Step>)
      requires WellFormed()
      modifies this`mutable, this`immutables, this`nextId
      ensures WellFormed() && frozen == (MemRows(old(mutable)) != []) && nextId == old(nextId) + 1
      ensures moves == if frozen then [TableRuns.FreezeStep(old(nextId))] else []
      ensures Took(moves) && TableRuns.AllClean(old(Abs()), moves)
      ensures frozen ==> mutable == Fresh(old(nextId)) && |immutables| == |old(immutables)| + 1
      ensures !frozen ==> mutable == old(mutable) && immutables == old(immutables)
    {
      hide Numbered, Shaped, MemRows;
      FreezeNumbered(mutable, immutables, nextId);
      var id := nextId;
      nextId := nextId + 1;
      if MemRows(mutable) == [] {
        TableRuns.LeadsNowhere(Abs());
        return false, [];
      }
      ghost var before := Abs();
      mutable, immutables := Fresh(id), immutables + [Seal(mutable)];
      OneMove(before, TableRuns.FreezeStep(id));
      return true, [TableRuns.FreezeStep(id)];
    }

    /** Flushes the oldest queued memtable into an SST stamped with its LSN span. */
    method FlushOneImmutable(fileSize: u64) returns (flushed: Option<SstMeta>, ghost moves: seq<TableRuns.Step>)
      requires WellFormed()
      modifies this`immutables, this`disk, this`nextPath, index
      ensures WellFormed()
      ensures flushed.None? <==> old(immutables) == []
      ensures flushed.None? ==> moves == [] && immutables == []
      ensures flushed.Some? ==>
                && |moves| == 1 && moves[0].FlushStep? && moves[0].meta == flushed.value
                && immutables == old(immutables)[1..]
                && flushed.value.baseLsn == old(immutables)[0].baseLsn
                && flushed.value.maxLsn == old(immutables)[0].maxLsn
                && flushed.value.path == old(nextPath) && flushed.value.fileSize == fileSize
                && flushed.value.innerCount == flushed.value.crossCount == 0
      ensures Took(moves) && TableRuns.AllClean(old(Abs()), moves)
    {
      hide Numbered, Shaped, MemRows, LastWrite, FileLayer, MemLayer, NewFile, Seal, InsertionPoint;
      ghost var before := Abs();
      if immutables == [] {
        TableRuns.LeadsNowhere(before);
        return None, [];
      }
      var mem := Seal(immutables[0]);
      OldestFacts(before);
      FlushNumbered(mutable, immutables, nextId);
      var meta, contents := WriteMemtable(mem, nextPath, fileSize, disk, before);
      var pos := index.Insert(meta);
      disk := disk[meta.path := contents];
      nextPath := nextPath + 1;
      immutables := immutables[1..];
      OneMove(before, TableRuns.FlushStep(meta, contents, pos));
      return Some(meta), [TableRuns.FlushStep(meta, contents, pos)];
    }

    /** How many memtables a drain has to flush. */
    ghost function ToDrain(): (n: nat)
      reads this
    {
      |immutables| + if MemRows(mutable) == [] then 0 else 1
    }

    /** Freezes and drains the queue: afterwards every row is in an SST. */
    method FlushAll() returns (r: Result<nat>, ghost moves: seq<TableRuns.Step>)
      requires WellFormed()
      modifies this, index
      ensures WellFormed() && log == old(log) && next == old(next) && MemRows(mutable) == []
      ensures r.Ok? ==> immutables == [] && r.value == old(ToDrain())
      ensures r.Err? <==> old(ToDrain()) > 1000
      ensures r.Err? ==> |immutables| == old(ToDrain()) - 1000
      ensures mutable.baseLsn == if MemRows(old(mutable)) == [] then old(mutable).baseLsn else 0
      ensures Took(moves) && TableRuns.AllClean(old(Abs()), moves)
    {
      hide Numbered, Shaped, MemRows, TableRuns.Leads, TableRuns.AllClean;
      ghost var before := Abs();
      var frozen;
      frozen, moves := FreezeActiveMemtable();
      FreshIsEmpty(old(nextId));
      var flushed := 0;
      while immutables != []
        invariant WellFormed() && log == old(log) && next == old(next) && MemRows(mutable) == []
        invariant mutable.baseLsn == if MemRows(old(mutable)) == [] then old(mutable).baseLsn else 0
        invariant flushed + |immutables| == old(ToDrain()) && flushed <= MAX_FLUSH_DRAIN_ATTEMPTS
        invariant TableRuns.Leads(before, moves, Abs()) && TableRuns.AllClean(before, moves)
        decreases |immutables|
      {
        if flushed >= MAX_FLUSH_DRAIN_ATTEMPTS {
          r := Err;
          return;
        }
        ghost var mid := Abs();
        var meta, more := FlushOneImmutable(0);
        TableRuns.LeadsThrough(before, moves, mid, more, Abs());
        moves := moves + more;
        flushed := flushed + 1;
      }
      r := Ok(flushed);
    }

    /** A bulk load drains the memtables, then takes the next LSN for its file. A table that stood for its
        log still does afterwards if and only if no empty put had marked the active memtable. */
    method BulkLoadParquet(chunks: seq<Batch>, fileSize: u64) returns (r: Result<SstMeta>, ghost moves: seq<TableRuns.Step>)
      requires WellFormed() && next < U64_MAX
      modifies this, index
      ensures WellFormed() && Took(moves)
      ensures r.Err? <==> Flatten(chunks) == [] || old(ToDrain()) > 1000
      ensures r.Err? ==> log == old(log) && next == old(next) && TableRuns.AllClean(old(Abs()), moves)
      ensures r.Ok? ==> log == old(log) + [Write(old(next), Flatten(chunks))] && immutables == [] && next == old(next) + 1
                        && r.value.baseLsn == r.value.maxLsn == old(next)
                        && r.value.innerCount == r.value.crossCount == 0 && r.value.fileSize == fileSize
                        && moves != [] && moves[|moves| - 1].BulkLoadStep?
                        && moves[|moves| - 1].bulk == r.value && moves[|moves| - 1].rows == Flatten(chunks)
      ensures |immutables| <= |old(immutables)| + 1
      ensures r.Ok? ==> (TableRuns.AllClean(old(Abs()), moves) <==> Unmarked(old(mutable)))
      ensures r.Ok? && old(Valid()) ==> (Valid() <==> Unmarked(old(mutable)))
      ensures Unmarked(old(mutable)) ==> Unmarked(mutable)
    {
      hide Numbered, StateOk, Shaped, MemRows, Tight, LastWrite, Flatten, FileLayer, NewFile, InsertionPoint,
        TableRuns.Leads, TableRuns.AllClean;
      ghost var before := Abs();
      var written := SstWriter.FlushChunks(chunks, SstWriter.FLUSH_WINDOW_ROWS);
      if written.Err? {
        TableRuns.LeadsNowhere(before);
        return Err, [];
      }
      var drained;
      drained, moves := FlushAll();
      if drained.Err? {
        r := Err;
        return;
      }
      ghost var mid := Abs();
      var stats, contents := written.value.0, written.value.1;
      var lsn := AllocateBulkLsn();
      var meta := SstMeta(nextPath, stats.minTs, stats.maxTs, stats.rows, fileSize, 0, 0, lsn, lsn);
      FreshFile(index.files, disk, meta, contents, LastWrite(Flatten(chunks)));
      var pos := index.Insert(meta);
      disk := disk[meta.path := contents];
      nextPath := nextPath + 1;
      log := log + [Write(lsn, Flatten(chunks))];
      BulkMove(before, moves, mid, TableRuns.BulkLoadStep(meta, contents, Flatten(chunks), pos));
      moves := moves + [TableRuns.BulkLoadStep(meta, contents, Flatten(chunks), pos)];
      r := Ok(meta);
    }

    /** The next LSN, which is above every LSN already on disk. */
    method AllocateBulkLsn() returns (lsn: u64)
      requires WellFormed() && next < U64_MAX
      modifies this`next
      ensures lsn == old(next) && next == lsn + 1 && 1 <= lsn
      ensures forall i :: 0 <= i < |index.files| ==> index.files[i].maxLsn < lsn
    {
      hide Numbered, FilesOk;
      lsn := next;
      next := next + 1;
    }

    /** Merges a window, replaces it by its merge and unlinks what nobody pins. */
    method CompactWindow(w: Picks.Window, pinned: set<nat>, fileSize: u64) returns (ghost step: TableRuns.Step)
      requires WellFormed() && Mergeable(index.files, disk) && 2 <= w.len && w.start + w.len <= |index.files|
      requires NoHole(index.files[w.start..w.start + w.len])
      modifies this`disk, this`nextPath, index
      ensures WellFormed() && Compacts(step, old(index.files), w, pinned) && TableRuns.Possible(old(Abs()), step)
      ensures Abs() == TableRuns.After(old(Abs()), step)
      ensures step.merged.path == old(nextPath) && step.merged.fileSize == fileSize
    {
      hide Numbered, StateOk, Shaped, NoHole, MergeOf, MergedInner, MergedCross, Compacts, Unlinkable;
      ghost var before := Abs();
      var files := index.files;
      var run := files[w.start..w.start + w.len];
      var merged, batches := MergeRun(run, disk, nextPath, fileSize, before, w.start);
      index.ReplaceRange(w.start, w.len, merged);
      var unlinked := set i | 0 <= i < w.len && run[i].path !in pinned :: run[i].path;
      disk := (disk - unlinked)[merged.path := batches];
      nextPath := nextPath + 1;
      step := TableRuns.CompactStep(w.start, w.len, merged, batches, unlinked);
      CompactsWindow(files, w, pinned, step);
      TableRuns.StepShaped(before, step);
    }

    /** One compaction: the window the strategy picks is merged. A table that stood for its log still does if
        and only if, at every time, the last file of the window in index order shows what the one with the
        highest LSNs shows. */
    method RunCompactionPass(strategy: Picks.Strategy, threshold: u64, maxMergeFiles: nat,
                             pinned: set<nat>, fileSize: u64)
      returns (window: Option<Picks.Window>, ghost raw: Option<Picks.Window>, ghost moves: seq<TableRuns.Step>)
      requires WellFormed() && Mergeable(index.files, disk)
      modifies this`disk, this`nextPath, index
      ensures WellFormed() && Took(moves)
      ensures Picks.Picked(old(index.files), strategy, threshold, maxMergeFiles, raw, window)
      ensures window.None? ==> moves == [] && TableRuns.AllClean(old(Abs()), moves)
      ensures window.Some? ==>
                var w, files := window.value, old(index.files);
                && 2 <= w.len <= Max(maxMergeFiles, 2) && w.start + w.len <= |files|
                && NoHole(files[w.start..w.start + w.len])
                && |moves| == 1 && Compacts(moves[0], files, w, pinned)
                && moves[0].merged.path == old(nextPath) && moves[0].merged.fileSize == fileSize
                && (TableRuns.AllClean(old(Abs()), moves) <==> RunFaithful(files[w.start..w.start + w.len], old(disk)))
                && (old(Valid()) ==> (Valid() <==> RunFaithful(files[w.start..w.start + w.len], old(disk))))
    {
      hide Numbered, StateOk, Shaped, NoHole, RunFaithful, Picks.Picked, TableRuns.Leads, TableRuns.AllClean, TableRuns.Possible,
        TableRuns.After, Mergeable, MergedInner, MergedCross;
      ghost var before := Abs();
      window, raw := Picks.PickCompaction(index.files, strategy, threshold, maxMergeFiles);
      if window.None? {
        TableRuns.LeadsNowhere(before);
        moves := [];
        return;
      }
      ghost var step := CompactWindow(window.value, pinned, fileSize);
      CompactMove(before, step);
      moves := [step];
    }

    /** A query. With every memtable scannable and the table standing for its log, it returns the rows its
        filters select from the last write per time of the log, but for those a standing NOT BETWEEN
        refuses. */
    method Query(sem: Semantics, filters: seq<Expr>) returns (rows: Batch, ghost moves: seq<TableRuns.Step>)
      requires WellFormed()
      modifies this`mutable, this`immutables
      ensures WellFormed() && Abs() == SealAll(old(Abs()))
      ensures moves == [TableRuns.ScanStep] && Took(moves) && TableRuns.AllClean(old(Abs()), moves)
      ensures old(Valid()) && Reads.AllScannable(old(mutable), old(immutables), Extracted(filters)) ==>
                forall full :: Lists(full, LastWrite(LogRows(log))) ==>
                                 && rows == Admitted(filters, Selected(sem, filters, full))
                                 && (!Lossy(filters) ==> rows == Selected(sem, filters, full))
      ensures old(Valid()) && old(index.files) == [] && Reads.Alone(old(mutable), old(immutables)).Some? && filters == [] ==>
                (Lists(rows, LastWrite(LogRows(log))) <==>
                 Reads.MemScannable(Reads.Alone(old(mutable), old(immutables)).value, EVERYTHING))
    {
      hide Numbered, Seal, StateOk, Shaped, LastWrite, LogRows, Lists, Reads.AllScannable, Restrict, Extracted, Lossy,
        Selected, Admitted, Reads.ReadsAs, Reads.Alone, Reads.MemScannable, MemLayer, Flatten;
      var range := ExtractTimeRange(filters);
      var plans, shown := Reads.Scan(mutable, immutables, index.files, disk, range, Abs());
      var merged := Reads.Merge(plans, Restrict(shown, range));
      rows := Selected(sem, filters, merged);
      if Valid() && Reads.AllScannable(mutable, immutables, range) {
        forall full | Lists(full, shown)
          ensures rows == Admitted(filters, Selected(sem, filters, full))
          ensures !Lossy(filters) ==> rows == Selected(sem, filters, full)
        {
          PruningPreservesAnswer(sem, filters, full, merged, shown);
        }
      }
      if filters == [] {
        NoFilters(sem, merged, shown);
      }
      ghost var before := Abs();
      SealNumbered(mutable, immutables, nextId);
      mutable, immutables := Seal(mutable), SealEach(immutables);
      OneMove(before, TableRuns.ScanStep);
      moves := [TableRuns.ScanStep];
    }
  }

  /** Memtables are numbered in the order they were opened. */
  predicate Numbered(mutable: MemTable, immutables: seq<MemTable>, nextId: nat) {
    && mutable.id < nextId
    && (forall i :: 0 <= i < |immutables| ==> immutables[i].id < mutable.id)
    && (forall i, j :: 0 <= i < j < |immutables| ==> immutables[i].id < immutables[j].id)
  }

  lemma FreezeNumbered(mutable: MemTable, immutables: seq<MemTable>, nextId: nat)
    requires Numbered(mutable, immutables, nextId)
    ensures Numbered(Fresh(nextId), immutables + [Seal(mutable)], nextId + 1)
    ensures Numbered(mutable, immutables, nextId + 1)
  {
  }

  lemma FlushNumbered(mutable: MemTable, immutables: seq<MemTable>, nextId: nat)
    requires Numbered(mutable, immutables, nextId) && immutables != []
    ensures Numbered(mutable, immutables[1..], nextId)
  {
  }

  lemma SealNumbered(mutable: MemTable, immutables: seq<MemTable>, nextId: nat)
    requires Numbered(mutable, immutables, nextId)
    ensures Numbered(Seal(mutable), SealEach(immutables), nextId)
  {
  }

  lemma PutNumbered(mutable: MemTable, immutables: seq<MemTable>, nextId: nat, lsn: nat, batch: Batch, capacity: nat)
    requires Numbered(mutable, immutables, nextId) && 0 < capacity
    ensures Numbered(InsertRows(RecordLsn(mutable, lsn), batch, capacity), immutables, nextId)
  {
  }

  lemma NoFilters(sem: Semantics, rows: Batch, m: map<int, int>)
    ensures Extracted([]) == EVERYTHING && Selected(sem, [], rows) == rows && Restrict(m, EVERYTHING) == m
  {
    SelectAll(sem, rows);
  }

  lemma {:induction false} SelectAll(sem: Semantics, rows: Batch)
    ensures Selected(sem, [], rows) == rows
  {
    if rows != [] {
      SelectAll(sem, rows[..|rows| - 1]);
    }
  }

  lemma OneMove(s: State, step: TableRuns.Step)
    requires Shaped(s) && TableRuns.Possible(s, step)
    ensures Shaped(TableRuns.After(s, step))
    ensures TableRuns.Leads(s, [step], TableRuns.After(s, step))
    ensures TableRuns.AllClean(s, [step]) <==> TableRuns.Clean(s, step)
  {
    hide Shaped, TableRuns.Leads, TableRuns.AllClean, TableRuns.Possible, TableRuns.After, TableRuns.Clean;
    TableRuns.LeadsOne(s, step);
    TableRuns.StepShaped(s, step);
  }

  lemma CompactMove(s: State, step: TableRuns.Step)
    requires Shaped(s) && step.CompactStep? && TableRuns.Possible(s, step)
    ensures var end, run := TableRuns.After(s, step), s.files[step.start..step.start + step.count];
            && Shaped(end) && TableRuns.Leads(s, [step], end)
            && (TableRuns.AllClean(s, [step]) <==> RunFaithful(run, s.disk))
            && (StateOk(s) ==> (StateOk(end) <==> RunFaithful(run, s.disk)))
  {
    hide StateOk, Shaped, TableRuns.Leads, TableRuns.AllClean, MergeOf, NoHole, RunFaithful, Unlinkable;
    OneMove(s, step);
    if StateOk(s) {
      TableRuns.StepKeeps(s, step);
    }
  }

  /** The last step of a bulk load, after the memtables were drained. */
  lemma BulkMove(s: State, moves: seq<TableRuns.Step>, mid: State, step: TableRuns.Step)
    requires Shaped(mid) && TableRuns.Leads(s, moves, mid) && TableRuns.AllClean(s, moves)
    requires step.BulkLoadStep? && TableRuns.Possible(mid, step)
    ensures var end := TableRuns.After(mid, step);
            && Shaped(end) && TableRuns.Leads(s, moves + [step], end)
            && (TableRuns.AllClean(s, moves + [step]) <==> mid.mutable.baseLsn == 0)
            && (StateOk(s) ==> (StateOk(end) <==> mid.mutable.baseLsn == 0))
  {
    hide StateOk, Shaped, TableRuns.Leads, TableRuns.AllClean, FileLayer, LastWrite, NewFile, InsertionPoint, MemRows;
    TableRuns.LeadsOn(s, moves, mid, step);
    TableRuns.StepShaped(mid, step);
    if StateOk(s) {
      TableRuns.RunStands(s, moves, mid);
      BulkLoadExactly(mid, step.bulk, step.loaded, step.rows, step.at);
    }
  }

  /** The step merges window `w`, one generation up, and unlinks those of its files that nobody pins. */
  ghost predicate Compacts(step: TableRuns.Step, files: seq<SstMeta>, w: Picks.Window, pinned: set<nat>) {
    && w.start + w.len <= |files|
    && step.CompactStep? && step.start == w.start && step.count == w.len
    && var run := files[w.start..w.start + w.len];
       && step.merged.innerCount == MergedInner(run) && step.merged.crossCount == MergedCross(run)
       && forall p :: p in step.unlinked <==> p !in pinned && exists i :: 0 <= i < |run| && run[i].path == p
  }

  lemma CompactsWindow(files: seq<SstMeta>, w: Picks.Window, pinned: set<nat>, step: TableRuns.Step)
    requires w.start + w.len <= |files| && step.CompactStep? && step.start == w.start && step.count == w.len
    requires var run := files[w.start..w.start + w.len];
             && step.merged.innerCount == MergedInner(run) && step.merged.crossCount == MergedCross(run)
             && step.unlinked == set i | 0 <= i < w.len && run[i].path !in pinned :: run[i].path
    ensures Compacts(step, files, w, pinned) && Unlinkable(files[w.start..w.start + w.len], step.unlinked)
  {
    hide MergedInner, MergedCross;
  }

  /** No file has so many row groups that the keys of its batches would run into the next file's. */
  predicate Mergeable(files: seq<SstMeta>, disk: map<nat, Contents>) {
    forall i :: 0 <= i < |files| && files[i].path in disk ==> |disk[files[i].path]| < KEY_SHIFT
  }

  // ----- whole runs -----

  datatype Step =
    | PutStep(batch: Batch, rotate: bool)
    | FreezeStep
    | FlushStep
    | BulkLoadStep(chunks: seq<Batch>)
    | CompactStep(strategy: Picks.Strategy, threshold: u64, maxMergeFiles: nat, pinned: set<nat>)
    | ElsewhereStep

  function StepRows(step: Step): (rows: Batch) {
    match step
    case PutStep(batch, _) => batch
    case BulkLoadStep(chunks) => Flatten(chunks)
    case _ => []
  }

  /** The rows of the acknowledged steps, in order. */
  function Acknowledged(steps: seq<Step>, acks: seq<bool>): (rows: Batch)
    requires |steps| == |acks|
  {
    if steps == [] then [] else
      var n := |steps| - 1;
      var before := Acknowledged(steps[..n], acks[..n]);
      if acks[n] then before + StepRows(steps[n]) else before
  }

  /** All rows the steps ask to write, in order. */
  function Requested(steps: seq<Step>): (rows: Batch) {
    if steps == [] then [] else Requested(steps[..|steps| - 1]) + StepRows(steps[|steps| - 1])
  }

  /** Every put, and every bulk load of some rows, was acknowledged. */
  predicate AllServed(steps: seq<Step>, acks: seq<bool>)
    requires |steps| == |acks|
  {
    forall i :: 0 <= i < |steps| ==> (acks[i] || StepRows(steps[i]) == [])
  }

  lemma {:induction false} ServedAll(steps: seq<Step>, acks: seq<bool>)
    requires |steps| == |acks| && AllServed(steps, acks)
    ensures Acknowledged(steps, acks) == Requested(steps)
  {
    if steps != [] {
      ServedAll(steps[..|steps| - 1], acks[..|steps| - 1]);
    }
  }

  /** What a step does, in steps of the state machine: which, and when a write is refused. */
  ghost predicate Performs(s: State, step: Step, ack: bool, moves: seq<TableRuns.Step>) {
    match step
    case PutStep(batch, rotate) =>
      && ack && |moves| == (if rotate && MemRows(s.mutable) + batch != [] then 2 else 1)
      && moves[0].PutStep? && moves[0].batch == batch && (|moves| == 2 ==> moves[1].FreezeStep?)
    case FreezeStep => |moves| == (if MemRows(s.mutable) == [] then 0 else 1) && (moves != [] ==> moves[0].FreezeStep?)
    case FlushStep => |moves| == (if s.immutables == [] then 0 else 1) && (moves != [] ==> moves[0].FlushStep?)
    case BulkLoadStep(chunks) =>
      && (ack <==> Flatten(chunks) != []
                   && |s.immutables| + (if MemRows(s.mutable) == [] then 0 else 1) <= 1000)
      && (ack ==> moves != [] && moves[|moves| - 1].BulkLoadStep? && moves[|moves| - 1].rows == Flatten(chunks))
    case CompactStep(strategy, threshold, maxMergeFiles, pinned) =>
      Mergeable(s.files, s.disk) ==>
        exists raw, w ::
          && Picks.Picked(s.files, strategy, threshold, maxMergeFiles, raw, w)
          && if w.None? then moves == [] else |moves| == 1 && Compacts(moves[0], s.files, w.value, pinned)
    case ElsewhereStep => moves == [TableRuns.ElsewhereStep]
  }

  lemma {:induction false} StepServed(s: State, step: Step, ack: bool, moves: seq<TableRuns.Step>)
    requires Performs(s, step, ack, moves)
    ensures step.PutStep? ==> ack
    ensures |s.immutables| < 1000 ==> ack || StepRows(step) == []
  {
    hide MemRows, Flatten, Mergeable, Picks.Picked, Compacts;
  }

  /** One step of a run; the write is acknowledged if and only if it enters the log. */
  method DoStep(t: LsmTable, step: Step) returns (ack: bool, ghost moves: seq<TableRuns.Step>)
    requires t.WellFormed() && t.next < U64_MAX
    modifies t, t.index
    ensures t.WellFormed() && t.Took(moves) && t.next <= old(t.next) + 1
    ensures Performs(old(t.Abs()), step, ack, moves) && |t.immutables| <= |old(t.immutables)| + 1
    ensures LogRows(t.log) == old(LogRows(t.log)) + (if ack then StepRows(step) else [])
    ensures Unmarked(old(t.mutable)) && !step.CompactStep? ==> TableRuns.AllClean(old(t.Abs()), moves)
    ensures Unmarked(old(t.mutable)) && step != PutStep([], true) && step != PutStep([], false) ==> Unmarked(t.mutable)
  {
    hide Numbered, Shaped, MemRows, Flatten, TableRuns.Leads, TableRuns.AllClean, Mergeable, LogRows, Picks.Picked,
      Compacts;
    ack := true;
    match step
    case PutStep(batch, rotate) =>
      moves := t.PutBatch(batch, rotate);
      LogRowsAppend(old(t.log), Write(old(t.next), batch));
    case FreezeStep =>
      ack, moves := t.FreezeActiveMemtable();
    case FlushStep =>
      var flushed;
      flushed, moves := t.FlushOneImmutable(0);
    case BulkLoadStep(chunks) =>
      var r;
      r, moves := t.BulkLoadParquet(chunks, 0);
      ack := r.Ok?;
      LogRowsAppend(old(t.log), Write(old(t.next), Flatten(chunks)));
    case CompactStep(strategy, threshold, maxMergeFiles, pinned) =>
      if Mergeable(t.index.files, t.disk) {
        var window;
        ghost var raw;
        window, raw, moves := t.RunCompactionPass(strategy, threshold, maxMergeFiles, pinned, 0);
        assert Picks.Picked(old(t.index.files), strategy, threshold, maxMergeFiles, raw, window);
      } else {
        TableRuns.LeadsNowhere(t.Abs());
        moves := [];
      }
    case ElsewhereStep =>
      moves := t.AllocateElsewhere();
  }

  /** Steps that can never be unsafe: puts of at least one row, and anything but a compaction. */
  predicate Tame(steps: seq<Step>) {
    forall i :: 0 <= i < |steps| ==>
      !steps[i].CompactStep? && (steps[i].PutStep? ==> steps[i].batch != [])
  }

  /** Any run of puts, freezes, flushes, bulk loads, compactions and LSNs taken by other tables is a run of
      the state machine. The log holds exactly the acknowledged writes, and the table stands for it if
      the run was clean. */
  method RunSteps(t: LsmTable, steps: seq<Step>) returns (acks: seq<bool>, ghost moves: seq<TableRuns.Step>)
    requires t.Valid() && t.log == [] && t.next + |steps| < U64_MAX
    modifies t, t.index
    ensures |acks| == |steps| && t.WellFormed() && LogRows(t.log) == Acknowledged(steps, acks)
    ensures t.Took(moves) && (TableRuns.AllClean(old(t.Abs()), moves) ==> t.Valid())
    ensures Tame(steps) && Unmarked(old(t.mutable)) ==> TableRuns.AllClean(old(t.Abs()), moves)
    ensures forall i :: 0 <= i < |steps| && steps[i].PutStep? ==> acks[i]
    ensures |old(t.immutables)| + |steps| <= 1000 ==> AllServed(steps, acks)
  {
    hide Numbered, Shaped, StateOk, Unmarked, LogRows, TableRuns.Leads, TableRuns.AllClean, TableRuns.WrittenBy,
      Performs, StepRows;
    acks, moves := [], [];
    ghost var start := t.Abs();
    NothingLogged();
    TableRuns.LeadsNowhere(start);
    for i := 0 to |steps|
      invariant t.WellFormed() && |acks| == i && t.next + |steps| - i < U64_MAX
      invariant LogRows(t.log) == Acknowledged(steps[..i], acks)
      invariant |t.immutables| <= |start.immutables| + i
      invariant forall k :: 0 <= k < i && steps[k].PutStep? ==> acks[k]
      invariant |start.immutables| + |steps| <= 1000 ==> AllServed(steps[..i], acks)
      invariant TableRuns.Leads(start, moves, t.Abs())
      invariant Tame(steps) && Unmarked(start.mutable) ==> Unmarked(t.mutable) && TableRuns.AllClean(start, moves)
    {
      ghost var mid := t.Abs();
      var ack, more := DoStep(t, steps[i]);
      StepServed(mid, steps[i], ack, more);
      TableRuns.LeadsThrough(start, moves, mid, more, t.Abs());
      assert steps[..i + 1][..i] == steps[..i] && (acks + [ack])[..i] == acks;
      acks, moves := acks + [ack], moves + more;
    }
    assert steps[..|steps|] == steps;
    TableRuns.RunStands(start, moves, t.Abs());
  }

  lemma NothingLogged()
    ensures LogRows([]) == []
  {
  }

  lemma {:induction false} SealTwice(m: MemTable)
    ensures Seal(Seal(m)) == Seal(m)
  {
  }

  /** After any clean run, a query over scannable memtables sees exactly the acknowledged writes, the last one
      of each time. */
  method RunThenQuery(t: LsmTable, steps: seq<Step>, sem: Semantics, filters: seq<Expr>)
    returns (acks: seq<bool>, answer: Batch, ghost moves: seq<TableRuns.Step>)
    requires t.Valid() && t.log == [] && t.next + |steps| < U64_MAX
    modifies t, t.index
    ensures |acks| == |steps| && t.WellFormed() && t.Took(moves)
    ensures |old(t.immutables)| + |steps| <= 1000 ==> Acknowledged(steps, acks) == Requested(steps)
    ensures Tame(steps) && Unmarked(old(t.mutable)) ==> TableRuns.AllClean(old(t.Abs()), moves)
    ensures TableRuns.AllClean(old(t.Abs()), moves) && Reads.AllScannable(t.mutable, t.immutables, Extracted(filters)) ==>
              forall full :: Lists(full, LastWrite(Acknowledged(steps, acks))) ==>
                               && answer == Admitted(filters, Selected(sem, filters, full))
                               && (!Lossy(filters) ==> answer == Selected(sem, filters, full))
  {
    hide Numbered, Shaped, StateOk, Unmarked, Lossy, Lists, LastWrite, LogRows, Acknowledged, Selected, Admitted, Extracted,
      Reads.MemScannable, TableRuns.Leads, TableRuns.AllClean, Tame, AllServed, Requested;
    ghost var start := t.Abs();
    acks, moves := RunSteps(t, steps);
    if AllServed(steps, acks) {
      ServedAll(steps, acks);
    }
    ghost var mid, scan := t.Abs(), [TableRuns.ScanStep];
    answer, scan := t.Query(sem, filters);
    TableRuns.LeadsThrough(start, moves, mid, scan, t.Abs());
    SealScannable(mid.mutable, mid.immutables, Extracted(filters));
    moves := moves + scan;
  }

  lemma SealScannable(mutable: MemTable, immutables: seq<MemTable>, range: TimeRange)
    ensures Reads.AllScannable(Seal(mutable), SealEach(immutables), range) <==> Reads.AllScannable(mutable, immutables, range)
  {
    hide Seal;
    SealTwice(mutable);
    forall i | 0 <= i < |immutables| ensures Seal(SealEach(immutables)[i]) == Seal(immutables[i]) {
      SealTwice(immutables[i]);
    }
  }

  /** The SST of a sealed memtable: same span, same meaning. */
  method WriteMemtable(mem: MemTable, path: nat, fileSize: u64, ghost disk: map<nat, Contents>, ghost s: State)
    returns (meta: SstMeta, contents: Contents)
    requires Shaped(s) && s.immutables != [] && mem == Seal(s.immutables[0]) && path !in disk
    ensures NewFile(s.files, disk, meta, contents) && meta.path == path
    ensures FileLayer(meta, disk[meta.path := contents]) == MemLayer(s.immutables[0])
    ensures meta.baseLsn == s.immutables[0].baseLsn <= meta.maxLsn == s.immutables[0].maxLsn
    ensures meta.innerCount == meta.crossCount == 0 && meta.fileSize == fileSize
    ensures !StrictlyAscending(Flatten(mem.frozen)) ==> FullButLast(contents, 8192)
  {
    hide Shaped, MemRows, Tight, LastWrite, Flatten, FileLayer, NewFile, Seal;
    OldestFacts(s);
    var r := SstWriter.FlushChunks(mem.frozen, SstWriter.FLUSH_WINDOW_ROWS);
    var stats := r.value.0;
    contents := r.value.1;
    meta := SstMeta(path, stats.minTs, stats.maxTs, stats.rows, fileSize, 0, 0, mem.baseLsn, mem.maxLsn);
    FreshFile(s.files, disk, meta, contents, LastWrite(Flatten(mem.frozen)));
  }

  /** The merge of a window of the index. */
  method MergeRun(run: seq<SstMeta>, disk: map<nat, Contents>, path: nat, fileSize: u64,
                  ghost s: State, ghost start: nat)
    returns (merged: SstMeta, batches: Contents)
    requires Shaped(s) && s.disk == disk && Mergeable(s.files, disk)
    requires 2 <= |run| && start + |run| <= |s.files| && run == s.files[start..start + |run|]
    ensures MergeOf(run, disk, merged, batches) && merged.path == path && 1 <= merged.baseLsn <= merged.maxLsn
    ensures merged.minTs == run[0].minTs && merged.fileSize == fileSize
    ensures merged.innerCount == MergedInner(run) && merged.crossCount == MergedCross(run)
  {
    hide Shaped, Tight, LastWrite, Flatten, LaterWins, MergedSpan, MergedInner, MergedCross, StrictlyAscending,
      Ascending, FilesOk;
    RunFacts(s, start, |run|);
    var contents := seq(|run|, i requires 0 <= i < |run| => disk[run[i].path]);
    assert FileRows(contents) == RowsOfFiles(run, disk);
    var r := Merge(run, contents, path, fileSize);
    assert Flatten(contents[0]) != [];
    merged, batches := r.value.0, r.value.1;
    MergedSpanIsHull(run);
    MergedStart(s.files, disk, start, |run|, merged, batches);
  }

  lemma RunFacts(s: State, start: nat, count: nat)
    requires Shaped(s) && start + count <= |s.files|
    ensures FilesOk(s.files, s.disk) && ValidSpans(s.files[start..start + count])
    ensures var run := s.files[start..start + count];
            forall i :: 0 <= i < |run| ==> run[i].path in s.disk && Ascending(Flatten(s.disk[run[i].path]))
                                           && Flatten(s.disk[run[i].path]) != [] && 1 <= run[i].baseLsn
  {
    hide Flatten, Tight;
    var run := s.files[start..start + count];
    forall i | 0 <= i < |run|
      ensures FileOk(run[i], s.disk)
    {
      assert run[i] == s.files[start + i];
    }
  }

  lemma OldestFacts(s: State)
    requires Shaped(s) && s.immutables != []
    ensures var m := s.immutables[0];
            && 1 <= m.baseLsn <= m.maxLsn <= U64_MAX && MemRows(m) != []
            && Flatten(Seal(m).frozen) == MemRows(m) && Seal(m).baseLsn == m.baseLsn && Seal(m).maxLsn == m.maxLsn
  {
    hide FilesOk, MemRows, Seal, Flatten;
    SealKeeps(s.immutables[0]);
    SealKeepsSpan(s.immutables[0]);
  }

  /** A file just written is well formed. */
  lemma FreshFile(files: seq<SstMeta>, disk: map<nat, Contents>, meta: SstMeta, contents: Contents, m: map<int, int>)
    requires meta.path !in disk && 1 <= meta.baseLsn <= meta.maxLsn
    requires Lists(Flatten(contents), m) && Tight(Stats(meta.rowCount, meta.minTs, meta.maxTs), Flatten(contents))
    requires Flatten(contents) != []
    ensures NewFile(files, disk, meta, contents)
    ensures FileLayer(meta, disk[meta.path := contents]) == Layer(meta.baseLsn, meta.maxLsn, m)
  {
    hide Flatten, Tight;
  }
}
