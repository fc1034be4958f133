/** Whole runs of a table, compactions included: whatever the order of the steps, the parts stay well formed,
and as long as no step was one of the two unsafe ones a ranked read shows the last write of each time. */
module TableRuns {
  import opened Rows
  import opened Sst
  import opened WriteLog
  import opened MergeFiles
  import opened Table
  import Reads

  datatype Step =
    | PutStep(batch: Batch, capacity: nat)
    | FreezeStep(newId: nat)
    | FlushStep(meta: SstMeta, contents: Contents, pos: nat)
    | BulkLoadStep(bulk: SstMeta, loaded: Contents, rows: Batch, at: nat)
    | CompactStep(start: nat, count: nat, merged: SstMeta, output: Contents, unlinked: set<nat>)
    | ScanStep
    | ElsewhereStep

  /** When a step can be taken. A bulk load has drained the memtables; a compaction merges a run without
      holes. */
  ghost predicate Possible(s: State, step: Step) {
    match step
    case PutStep(_, capacity) => s.next < U64_MAX && 0 < capacity
    case FreezeStep(_) => MemRows(s.mutable) != []
    case FlushStep(meta, contents, pos) =>
      && s.immutables != [] && InsertionPoint(s.files, meta.minTs, pos) && NewFile(s.files, s.disk, meta, contents)
      && FileLayer(meta, s.disk[meta.path := contents]) == MemLayer(s.immutables[0])
    case BulkLoadStep(meta, contents, rows, pos) =>
      && s.next < U64_MAX && s.immutables == [] && MemRows(s.mutable) == []
      && InsertionPoint(s.files, meta.minTs, pos) && NewFile(s.files, s.disk, meta, contents)
      && FileLayer(meta, s.disk[meta.path := contents]) == Layer(s.next, s.next, LastWrite(rows))
    case CompactStep(start, count, merged, contents, unlinked) =>
      && 0 < count && start + count <= |s.files| && merged.path !in s.disk
      && MergeOf(s.files[start..start + count], s.disk, merged, contents)
      && NoHole(s.files[start..start + count]) && Unlinkable(s.files[start..start + count], unlinked)
    case ScanStep => true
    case ElsewhereStep => s.next < U64_MAX
  }

  /** Not one of the two unsafe steps: a bulk load over a memtable marked with an LSN, or a compaction of a
      run in which, at some time, the last file in index order shows another value than the newest. */
  ghost predicate Clean(s: State, step: Step)
    requires Possible(s, step)
  {
    match step
    case BulkLoadStep(_, _, _, _) => s.mutable.baseLsn == 0
    case CompactStep(start, count, _, _, _) => RunFaithful(s.files[start..start + count], s.disk)
    case _ => true
  }

  function After(s: State, step: Step): (s': State)
    requires Possible(s, step)
  {
    match step
    case PutStep(batch, capacity) => Put(s, batch, capacity)
    case FreezeStep(newId) => Freeze(s, newId)
    case FlushStep(meta, contents, pos) => Flush(s, meta, contents, pos)
    case BulkLoadStep(meta, contents, rows, pos) => BulkLoad(s, meta, contents, rows, pos)
    case CompactStep(start, count, merged, contents, unlinked) => Compact(s, start, count, merged, contents, unlinked)
    case ScanStep => SealAll(s)
    case ElsewhereStep => s.(next := s.next + 1)
  }

  function Written(step: Step): (rows: Batch) {
    match step
    case PutStep(batch, _) => batch
    case BulkLoadStep(_, _, rows, _) => rows
    case _ => []
  }

  function WrittenBy(steps: seq<Step>): (rows: Batch) {
    if steps == [] then [] else WrittenBy(steps[..|steps| - 1]) + Written(steps[|steps| - 1])
  }

  const START := State(1, Fresh(0), [], [], map[], [])

  // ----- one step -----

  lemma {:induction false} StepShaped(s: State, step: Step)
    requires Shaped(s) && Possible(s, step)
    ensures Shaped(After(s, step))
  {
    hide Shaped, MemRows, FileLayer, NewFile, MergeOf, NoHole, Unlinkable, LastWrite;
    match step
    case PutStep(batch, capacity) => PutShaped(s, batch, capacity);
    case FreezeStep(newId) => FreezeShaped(s, newId);
    case FlushStep(meta, contents, pos) => FlushShaped(s, meta, contents, pos);
    case BulkLoadStep(meta, contents, rows, pos) => BulkLoadShaped(s, meta, contents, rows, pos);
    case CompactStep(start, count, merged, contents, unlinked) =>
      CompactShaped(s, start, count, merged, contents, unlinked);
    case ScanStep => SealAllShaped(s);
    case ElsewhereStep => ElsewhereShaped(s);
  }

  lemma ElsewhereShaped(s: State)
    requires Shaped(s) && s.next < U64_MAX
    ensures Shaped(s.(next := s.next + 1))
  {
    hide FilesOk, MemsOk;
  }

  lemma {:induction false} StepLogs(s: State, step: Step)
    requires Possible(s, step)
    ensures LogRows(After(s, step).log) == LogRows(s.log) + Written(step)
  {
    hide LogRows, MemRows, FileLayer, NewFile, MergeOf, NoHole, Unlinkable, LastWrite;
    match step
    case PutStep(batch, capacity) => LogRowsAppend(s.log, Write(s.next, batch));
    case BulkLoadStep(meta, contents, rows, pos) => LogRowsAppend(s.log, Write(s.next, rows));
    case _ =>
  }

  /** A table that stands for its log still does after a step exactly when the step is clean. */
  lemma {:induction false} StepKeeps(s: State, step: Step)
    requires StateOk(s) && Possible(s, step)
    ensures StateOk(After(s, step)) <==> Clean(s, step)
  {
    hide StateOk, MemRows, FileLayer, NewFile, MergeOf, NoHole, RunFaithful, Unlinkable, LastWrite;
    match step
    case PutStep(batch, capacity) => PutOk(s, batch, capacity);
    case FreezeStep(newId) => FreezeOk(s, newId);
    case FlushStep(meta, contents, pos) => FlushOk(s, meta, contents, pos);
    case BulkLoadStep(meta, contents, rows, pos) => BulkLoadExactly(s, meta, contents, rows, pos);
    case CompactStep(start, count, merged, contents, unlinked) =>
      CompactOk(s, start, count, merged, contents, unlinked);
    case ScanStep => SealAllOk(s);
    case ElsewhereStep => ElsewhereOk(s);
  }

  lemma ElsewhereOk(s: State)
    requires StateOk(s) && s.next < U64_MAX
    ensures StateOk(s.(next := s.next + 1))
  {
    hide Sound, FilesOk, MemsOk, NewestLast, FileLayers, MemLayers, MutableLayers;
    LaterNextSound(s.log, s.next, s.next + 1, Layers(s));
    assert Layers(s.(next := s.next + 1)) == Layers(s);
  }

  // ----- runs -----

  /** Where the steps lead from `s`, if each is possible in its turn. */
  ghost function Ends(s: State, steps: seq<Step>): (end: Option<State>) {
    if steps == [] then Some(s) else
      var n := |steps| - 1;
      var before := Ends(s, steps[..n]);
      if before.Some? && Possible(before.value, steps[n]) then Some(After(before.value, steps[n])) else None
  }

  ghost predicate Leads(s: State, steps: seq<Step>, end: State) {
    Ends(s, steps) == Some(end)
  }

  /** No step of the run was an unsafe one. */
  ghost predicate AllClean(s: State, steps: seq<Step>) {
    steps != [] ==>
      var n := |steps| - 1;
      var before := Ends(s, steps[..n]);
      AllClean(s, steps[..n]) && before.Some? && Possible(before.value, steps[n]) && Clean(before.value, steps[n])
  }

  lemma LeadsNowhere(s: State)
    ensures Leads(s, [], s) && AllClean(s, [])
  {
  }

  lemma LeadsOne(s: State, step: Step)
    requires Possible(s, step)
    ensures Leads(s, [step], After(s, step)) && (AllClean(s, [step]) <==> Clean(s, step))
  {
    hide Possible, After, Clean;
    LeadsNowhere(s);
    assert [] + [step] == [step];
    LeadsOn(s, [], s, step);
  }

  lemma LeadsOn(s: State, steps: seq<Step>, mid: State, step: Step)
    requires Leads(s, steps, mid) && Possible(mid, step)
    ensures Leads(s, steps + [step], After(mid, step))
    ensures AllClean(s, steps + [step]) <==> AllClean(s, steps) && Clean(mid, step)
  {
    hide Possible, After, Clean;
    assert (steps + [step])[..|steps|] == steps;
  }

  lemma {:induction false} LeadsThrough(s: State, a: seq<Step>, mid: State, b: seq<Step>, end: State)
    requires Leads(s, a, mid) && Leads(mid, b, end)
    ensures Leads(s, a + b, end)
    ensures AllClean(s, a + b) <==> AllClean(s, a) && AllClean(mid, b)
  {
    hide Possible, After, Clean;
    if b == [] {
      assert a + b == a;
    } else {
      var n := |b| - 1;
      var before := Ends(mid, b[..n]).value;
      LeadsThrough(s, a, mid, b[..n], before);
      LeadsOn(s, a + b[..n], before, b[n]);
      assert a + b[..n] + [b[n]] == a + b;
    }
  }

  /** The state before the last step of a run. */
  lemma LastMove(s: State, steps: seq<Step>, end: State) returns (before: State)
    requires Leads(s, steps, end) && steps != []
    ensures Leads(s, steps[..|steps| - 1], before)
    ensures Possible(before, steps[|steps| - 1]) && end == After(before, steps[|steps| - 1])
    ensures AllClean(s, steps) ==> AllClean(s, steps[..|steps| - 1]) && Clean(before, steps[|steps| - 1])
  {
    hide Possible, After, Clean;
    before := Ends(s, steps[..|steps| - 1]).value;
  }

  /** Every run keeps the parts well formed and logs exactly what its steps wrote; if no step was unsafe it
      also keeps the table standing for its log. */
  lemma {:induction false} RunStands(s: State, steps: seq<Step>, end: State)
    requires Leads(s, steps, end)
    ensures Shaped(s) ==> Shaped(end)
    ensures LogRows(end.log) == LogRows(s.log) + WrittenBy(steps)
    ensures StateOk(s) && AllClean(s, steps) ==> StateOk(end)
    decreases |steps|
  {
    hide StateOk, Shaped, Possible, After, LogRows, Clean, Leads, AllClean, Written;
    if steps == [] {
      RunOfNothing(s, end);
      assert LogRows(s.log) + [] == LogRows(s.log);
    } else {
      var n := |steps| - 1;
      var before := LastMove(s, steps, end);
      RunStands(s, steps[..n], before);
      StepLogs(before, steps[n]);
      if Shaped(s) {
        StepShaped(before, steps[n]);
      }
      if StateOk(s) && AllClean(s, steps) {
        StepKeeps(before, steps[n]);
      }
    }
  }

  lemma RunOfNothing(s: State, end: State)
    requires Leads(s, [], end)
    ensures end == s
  {
  }

  lemma NothingWritten()
    ensures LogRows(START.log) == []
  {
  }

  /** So a read over the ranked layers at the end of any clean run from the empty table shows the last write
      of each time. */
  lemma RunReads(steps: seq<Step>, end: State, sorted: seq<SstMeta>, place: seq<nat>)
    requires Leads(START, steps, end) && AllClean(START, steps)
    requires Reads.SortedByLsn(sorted) && Reads.Placed(end.files, sorted, place)
    ensures Stack(Reads.Ranked(end, sorted)) == LastWrite(WrittenBy(steps))
  {
    hide StateOk, Leads, AllClean, LogRows, Stack, LastWrite, Reads.Ranked, Reads.Placed, Reads.SortedByLsn;
    EmptyStateOk();
    NothingWritten();
    RunStands(START, steps, end);
    assert [] + WrittenBy(steps) == WrittenBy(steps);
    Reads.RankedRead(end, sorted, place);
  }

  // ----- compaction and reads -----

  /** One compaction changes no read exactly when, at every time whose newest holder is in the run, merging
      the run in index order shows that holder's value. */
  lemma CompactionReadsExactly(s: State, step: Step, before: seq<SstMeta>, p: seq<nat>, after: seq<SstMeta>, q: seq<nat>)
    requires StateOk(s) && step.CompactStep? && Possible(s, step)
    requires Reads.SortedByLsn(before) && Reads.Placed(s.files, before, p)
    requires Reads.SortedByLsn(after) && Reads.Placed(After(s, step).files, after, q)
    ensures Stack(Reads.Ranked(After(s, step), after)) == Stack(Reads.Ranked(s, before)) <==>
              VisiblyFaithful(Layers(s), step.start, step.count)
  {
    hide StateOk, Spaced, Stack, Reads.Ranked, Reads.Placed, Reads.SortedByLsn, MergeOf, NoHole, Unlinkable, Layers,
      FileLayers, FilesOk, VisiblyFaithful, Hull, Tiled, Rearranged, Ordered, Rankable;
    var s' := After(s, step);
    OkIsSpaced(s);
    OkFiles(s);
    CompactSpaced(s, step.start, step.count, step.merged, step.output, step.unlinked);
    var a, b, m := CompactMerges(s, step.start, step.count, step.merged, step.output, step.unlinked);
    var r := FileLayers(s.files[step.start..step.start + step.count], s.disk);
    var p' := Reads.RankedRearranges(s, before, p);
    var q' := Reads.RankedRearranges(s', after, q);
    SpacedRankable(s);
    MergedReadsExactly(a, r, b, m, Reads.Ranked(s, before), p', Reads.Ranked(s', after), q');
  }

  /** A clean compaction changes no read. */
  lemma CompactionInvisible(s: State, step: Step, before: seq<SstMeta>, p: seq<nat>, after: seq<SstMeta>, q: seq<nat>)
    requires StateOk(s) && step.CompactStep? && Possible(s, step) && Clean(s, step)
    requires Reads.SortedByLsn(before) && Reads.Placed(s.files, before, p)
    requires Reads.SortedByLsn(after) && Reads.Placed(After(s, step).files, after, q)
    ensures Stack(Reads.Ranked(After(s, step), after)) == Stack(Reads.Ranked(s, before))
  {
    hide StateOk, LogRows, Stack, LastWrite, Reads.Ranked, Reads.Placed, Reads.SortedByLsn, MergeOf, NoHole, RunFaithful;
    StepKeeps(s, step);
    Reads.RankedRead(s, before, p);
    Reads.RankedRead(After(s, step), after, q);
  }

  lemma OkFiles(s: State)
    requires StateOk(s)
    ensures FilesOk(s.files, s.disk)
  {
  }

  lemma SpacedRankable(s: State)
    requires Spaced(s)
    ensures Rankable(Layers(s))
  {
  }

  /** Two clean runs that wrote the same rows in the same order read the same, whatever either froze, flushed
      or compacted on the way. */
  lemma SameWritesSameReads(a: seq<Step>, s: State, before: seq<SstMeta>, p: seq<nat>,
                            b: seq<Step>, s': State, after: seq<SstMeta>, q: seq<nat>)
    requires Leads(START, a, s) && AllClean(START, a) && Leads(START, b, s') && AllClean(START, b)
    requires WrittenBy(a) == WrittenBy(b)
    requires Reads.SortedByLsn(before) && Reads.Placed(s.files, before, p)
    requires Reads.SortedByLsn(after) && Reads.Placed(s'.files, after, q)
    ensures Stack(Reads.Ranked(s, before)) == Stack(Reads.Ranked(s', after))
  {
    hide Leads, AllClean, Stack, LastWrite, WrittenBy, Reads.Ranked, Reads.Placed, Reads.SortedByLsn;
    RunReads(a, s, before, p);
    RunReads(b, s', after, q);
  }
}
