/** Runs of the table's own steps after which a read shows an overwritten value: through a bulk load over a
memtable that a write of no rows has marked, in every state where that can happen, and through a compaction
whose run is ordered by start time against its LSNs. */
module StaleReads {
  import opened Rows
  import opened Sst
  import opened Buffers
  import opened WriteLog
  import opened MergeFiles
  import opened Table
  import Reads
  import TableRuns

  const OLD := Row(10, 1)
  const NEW := Row(10, 2)

  lemma LastWriteOne(r: Row)
    ensures LastWrite([r]) == map[r.time := r.value] && Flatten([[r]]) == [r]
  {
    assert [r][..0] == [] && [[r]][..0] == [];
  }

  lemma StackTwo(a: Layer, b: Layer)
    ensures Stack([a, b]) == a.shows + b.shows
  {
    assert [a, b][..1] == [a] && [a][..0] == [];
    assert Stack([a]) == map[] + a.shows;
  }

  lemma TwoWrites(log: seq<Write>)
    requires log == [Write(1, []), Write(2, [OLD]), Write(3, [NEW])]
    ensures LastWrite(LogRows(log)) == map[10 := 2]
  {
    hide LogRows, LastWrite;
    TwoLogged(Write(1, []), Write(2, [OLD]));
    LogRowsAppend([Write(1, []), Write(2, [OLD])], Write(3, [NEW]));
    assert log == [Write(1, []), Write(2, [OLD])] + [Write(3, [NEW])];
    assert [] + [OLD] == [OLD];
    LastWriteOne(OLD);
    LastWriteOne(NEW);
    LastWriteConcat([OLD], [NEW]);
  }

  // ----- a put that is flushed -----

  /** A batch on its way from an empty memtable to a file of its own. */
  function Flushing(rows: Batch, newId: nat, meta: SstMeta, contents: Contents, pos: nat): (steps: seq<TableRuns.Step>) {
    [TableRuns.PutStep(rows, |rows| + 1), TableRuns.FreezeStep(newId), TableRuns.FlushStep(meta, contents, pos)]
  }

  function Flushed(s: State, rows: Batch, newId: nat, meta: SstMeta, contents: Contents, pos: nat): (s': State)
    requires pos <= |s.files|
  {
    State(s.next + 1, Fresh(newId), [], InsertedAt(s.files, pos, meta), s.disk[meta.path := contents],
          s.log + [Write(s.next, rows)])
  }

  lemma PutBuffers(m: MemTable, lsn: nat, rows: Batch)
    requires m.frozen == [] && m.active == [] && m.baseLsn <= m.maxLsn < lsn
    ensures InsertRows(RecordLsn(m, lsn), rows, |rows| + 1)
            == MemTable(m.id, [], rows, if m.baseLsn == 0 then lsn else m.baseLsn, lsn)
  {
    assert m.active + rows == rows;
    assert Pieces(rows, |rows| + 1) == [] && Tail(rows, |rows| + 1) == rows;
  }

  lemma SealedRows(id: nat, rows: Batch, base: nat, lsn: nat)
    requires rows != []
    ensures Seal(MemTable(id, [], rows, base, lsn)) == MemTable(id, [rows], [], base, lsn)
    ensures MemRows(MemTable(id, [], rows, base, lsn)) == rows
    ensures MemLayer(MemTable(id, [rows], [], base, lsn)) == Layer(base, lsn, LastWrite(rows))
  {
    FlattenSingle(rows);
    assert [] + [rows] == [rows] && Flatten<Row>([]) == [];
    assert rows + [] == rows && [] + rows == rows;
  }

  /** The three steps are possible and do just that. */
  lemma FlushingLeads(s: State, rows: Batch, newId: nat, meta: SstMeta, contents: Contents, pos: nat)
    requires s.immutables == [] && s.mutable.frozen == [] && s.mutable.active == [] && rows != []
    requires s.mutable.baseLsn <= s.mutable.maxLsn < s.next < U64_MAX
    requires InsertionPoint(s.files, meta.minTs, pos) && NewFile(s.files, s.disk, meta, contents)
    requires FileLayer(meta, s.disk[meta.path := contents])
             == Layer(if s.mutable.baseLsn == 0 then s.next else s.mutable.baseLsn, s.next, LastWrite(rows))
    ensures TableRuns.Leads(s, Flushing(rows, newId, meta, contents, pos), Flushed(s, rows, newId, meta, contents, pos))
  {
    hide LastWrite, FileLayer, NewFile, InsertionPoint, TableRuns.Leads, Seal, MemRows, MemLayer, Pieces, Tail, InsertedAt,
      InsertRows, RecordLsn;
    var steps := Flushing(rows, newId, meta, contents, pos);
    var base := if s.mutable.baseLsn == 0 then s.next else s.mutable.baseLsn;
    var m, sealed := MemTable(s.mutable.id, [], rows, base, s.next), MemTable(s.mutable.id, [rows], [], base, s.next);
    PutBuffers(s.mutable, s.next, rows);
    SealedRows(s.mutable.id, rows, base, s.next);
    var s1 := s.(next := s.next + 1, mutable := m, log := s.log + [Write(s.next, rows)]);
    var s2 := s1.(immutables := [sealed], mutable := Fresh(newId));
    assert TableRuns.After(s, steps[0]) == s1;
    assert s1.immutables + [sealed] == [sealed];
    assert TableRuns.After(s1, steps[1]) == s2;
    TableRuns.LeadsOne(s, steps[0]);
    TableRuns.LeadsOn(s, [steps[0]], s1, steps[1]);
    TableRuns.LeadsOn(s, [steps[0]] + [steps[1]], s2, steps[2]);
    assert s2.immutables[1..] == [];
    assert [steps[0]] + [steps[1]] + [steps[2]] == steps;
  }

  /** One batch, written as one row group. */
  lemma OneGroup(meta: SstMeta, rows: Batch, files: seq<SstMeta>, disk: map<nat, Contents>)
    requires meta.path !in disk && 1 <= meta.baseLsn <= meta.maxLsn
    requires StrictlyAscending(rows) && rows != [] && Tight(Stats(meta.rowCount, meta.minTs, meta.maxTs), rows)
    ensures NewFile(files, disk, meta, [rows])
    ensures FileLayer(meta, disk[meta.path := [rows]]) == Layer(meta.baseLsn, meta.maxLsn, LastWrite(rows))
  {
    hide StrictlyAscending, Tight, LastWrite;
    FlattenSingle(rows);
  }

  lemma OneRowTight(r: Row)
    ensures StrictlyAscending([r]) && Tight(Stats(1, r.time, r.time), [r])
  {
    assert r.time in Times([r]) by { assert [r][0] == r; }
  }

  // ----- an empty put, then a bulk load -----

  const BULK := SstMeta(0, 10, 10, 1, 1, 0, 0, 2, 2)
  const FLUSHED := SstMeta(1, 10, 10, 1, 1, 0, 0, 1, 3)

  const MARKED := State(2, MemTable(0, [], [], 1, 1), [], [], map[], [Write(1, [])])
  const LOADED := State(3, MemTable(0, [], [], 1, 1), [], [BULK], map[0 := [[OLD]]], [Write(1, []), Write(2, [OLD])])

  /** LSN 1: a put of no rows. LSN 2: a bulk load of time 10. LSN 3: a put of time 10, frozen and flushed. */
  function EmptyPutSteps(): (steps: seq<TableRuns.Step>) {
    [TableRuns.PutStep([], 1)] + [TableRuns.BulkLoadStep(BULK, [[OLD]], [OLD], 0)] + Flushing([NEW], 1, FLUSHED, [[NEW]], 0)
  }

  const EMPTY_PUT_END := State(4, Fresh(1), [], [FLUSHED, BULK], map[0 := [[OLD]], 1 := [[NEW]]],
                               [Write(1, []), Write(2, [OLD]), Write(3, [NEW])])

  lemma MarkingLeads()
    ensures TableRuns.Leads(TableRuns.START, [TableRuns.PutStep([], 1)], MARKED)
  {
    hide TableRuns.Leads, Pieces, Tail;
    PutBuffers(Fresh(0), 1, []);
    assert TableRuns.After(TableRuns.START, TableRuns.PutStep([], 1)) == MARKED;
    TableRuns.LeadsOne(TableRuns.START, TableRuns.PutStep([], 1));
  }

  lemma LoadingLeads()
    ensures TableRuns.Leads(MARKED, [TableRuns.BulkLoadStep(BULK, [[OLD]], [OLD], 0)], LOADED)
  {
    hide TableRuns.Leads, FileLayer, NewFile, LastWrite;
    OneRowTight(OLD);
    OneGroup(BULK, [OLD], [], map[]);
    var step := TableRuns.BulkLoadStep(BULK, [[OLD]], [OLD], 0);
    assert TableRuns.Possible(MARKED, step);
    assert TableRuns.After(MARKED, step) == LOADED;
    TableRuns.LeadsOne(MARKED, step);
  }

  lemma EmptyPutLeads()
    ensures TableRuns.Leads(TableRuns.START, EmptyPutSteps(), EMPTY_PUT_END)
  {
    hide TableRuns.Leads, FileLayer, NewFile, LastWrite, Flushing;
    MarkingLeads();
    LoadingLeads();
    OneRowTight(NEW);
    OneGroup(FLUSHED, [NEW], [BULK], LOADED.disk);
    FlushingLeads(LOADED, [NEW], 1, FLUSHED, [[NEW]], 0);
    assert Flushed(LOADED, [NEW], 1, FLUSHED, [[NEW]], 0) == EMPTY_PUT_END;
    var a, b := [TableRuns.PutStep([], 1)], [TableRuns.BulkLoadStep(BULK, [[OLD]], [OLD], 0)];
    TableRuns.LeadsThrough(TableRuns.START, a, MARKED, b, LOADED);
    TableRuns.LeadsThrough(TableRuns.START, a + b, LOADED, Flushing([NEW], 1, FLUSHED, [[NEW]], 0), EMPTY_PUT_END);
  }

  /** A run the table can take. The flushed memtable spans LSNs 1 to 3 and so ranks below the bulk load at 2:
      the value written last is hidden. */
  lemma EmptyPutThenBulkLoadIsStale()
    ensures TableRuns.Leads(TableRuns.START, EmptyPutSteps(), EMPTY_PUT_END)
    ensures Reads.SortedByLsn(EMPTY_PUT_END.files)
    ensures Stack(Reads.Ranked(EMPTY_PUT_END, EMPTY_PUT_END.files)) == map[10 := 1]
    ensures LastWrite(LogRows(EMPTY_PUT_END.log)) == map[10 := 2]
  {
    hide LogRows, LastWrite, Flatten, Stack, TableRuns.Leads, EmptyPutSteps;
    EmptyPutLeads();
    var s := EMPTY_PUT_END;
    TwoWrites(s.log);
    LastWriteOne(OLD);
    LastWriteOne(NEW);
    var a, b := FileLayer(s.files[0], s.disk), FileLayer(s.files[1], s.disk);
    assert Reads.Ranked(s, s.files) == [a, b];
    assert a.shows == map[10 := 2] && b.shows == map[10 := 1];
    StackTwo(a, b);
  }

  // ----- every bulk load over a marked memtable -----

  /** The four steps: the bulk load, a put of one row, a freeze and a flush of that put. */
  function Loaded(s: State, bulk: SstMeta, contents: Contents, rows: Batch, pos: nat, row: Row, capacity: nat, newId: nat)
    : (s': State)
    requires pos <= |s.files| && 0 < capacity
  {
    Freeze(Put(BulkLoad(s, bulk, contents, rows, pos), [row], capacity), newId)
  }

  /** A marked memtable keeps its early base, so the flushed put ranks below the bulk load. */
  lemma MarkKept(s: State, bulk: SstMeta, contents: Contents, rows: Batch, pos: nat, row: Row, capacity: nat, newId: nat)
    requires pos <= |s.files| && 0 < capacity && s.immutables == [] && 0 < s.mutable.baseLsn < s.next
    ensures var s' := Loaded(s, bulk, contents, rows, pos, row, capacity, newId);
            && |s'.immutables| == 1 && MemLayer(s'.immutables[0]).base == s.mutable.baseLsn
            && s'.files == InsertedAt(s.files, pos, bulk) && s'.disk == s.disk[bulk.path := contents]
            && s'.log == s.log + [Write(s.next, rows)] + [Write(s.next + 1, [row])]
            && s'.mutable == Fresh(newId)
  {
    hide LastWrite, InsertedAt, Pieces, Tail;
  }

  /** The one file with the greatest base comes last in rank order. */
  lemma GreatestLast(files: seq<SstMeta>, sorted: seq<SstMeta>, place: seq<nat>, k: nat)
    requires Reads.SortedByLsn(sorted) && Reads.Placed(files, sorted, place) && k < |files|
    requires forall i :: 0 <= i < |files| && i != k ==> files[i].baseLsn < files[k].baseLsn
    ensures sorted[|sorted| - 1] == files[k]
  {
    var n := |sorted| - 1;
    assert k in place;
    var i :| 0 <= i <= n && place[i] == k;
    assert sorted[i] == files[k] && sorted[n] == files[place[n]];
  }

  lemma LastWriteLast(log: seq<Write>, a: Write, b: Write, row: Row)
    requires b.rows == [row]
    ensures row.time in LastWrite(LogRows(log + [a] + [b])) && LastWrite(LogRows(log + [a] + [b]))[row.time] == row.value
  {
    LogRowsAppend(log + [a], b);
    LastWriteConcat(LogRows(log + [a]), [row]);
    LastWriteOne(row);
  }

  lemma StackEnds(layers: seq<Layer>, t: int)
    requires layers != [] && t in layers[|layers| - 1].shows
    ensures t in Stack(layers) && Stack(layers)[t] == layers[|layers| - 1].shows[t]
  {
    StackLast(layers, t, |layers| - 1);
  }

  lemma FilesBelow(s: State)
    requires StateOk(s)
    ensures forall i :: 0 <= i < |s.files| ==> s.files[i].baseLsn < s.next
  {
    hide LastWrite, Sound, FilesOk, NewestLast;
    SoundBelow(s.log, s.next, Layers(s));
    assert forall i :: 0 <= i < |s.files| ==> Layers(s)[i] == FileLayer(s.files[i], s.disk);
  }

  /** Where the bulk load is among the files; every other has a smaller base. */
  lemma BulkIsNewest(files: seq<SstMeta>, bulk: SstMeta, pos: nat, flushed: SstMeta, pos': nat) returns (k: nat)
    requires pos <= |files| && pos' <= |files| + 1 && flushed.baseLsn < bulk.baseLsn
    requires forall i :: 0 <= i < |files| ==> files[i].baseLsn < bulk.baseLsn
    ensures var all := InsertedAt(InsertedAt(files, pos, bulk), pos', flushed);
            k < |all| && all[k] == bulk && forall i :: 0 <= i < |all| && i != k ==> all[i].baseLsn < bulk.baseLsn
  {
    k := if pos < pos' then pos else pos + 1;
  }

  /** Wherever a bulk load lands over a drained memtable that still carries an LSN, a later put of any
      time it loaded reads, once flushed, as the loaded value and not as the one written last. */
  lemma MarkedBulkLoadReadsStale(
    s: State, bulk: SstMeta, contents: Contents, rows: Batch, pos: nat, row: Row, capacity: nat, newId: nat,
    flushed: SstMeta, contents': Contents, pos': nat, sorted: seq<SstMeta>, place: seq<nat>)
    requires StateOk(s) && s.immutables == [] && MemRows(s.mutable) == [] && s.mutable.baseLsn > 0 && 0 < capacity
    requires InsertionPoint(s.files, bulk.minTs, pos) && NewFile(s.files, s.disk, bulk, contents)
    requires FileLayer(bulk, s.disk[bulk.path := contents]) == Layer(s.next, s.next, LastWrite(rows))
    requires row.time in LastWrite(rows) && row.value != LastWrite(rows)[row.time]
    requires var s' := Loaded(s, bulk, contents, rows, pos, row, capacity, newId);
             && InsertionPoint(s'.files, flushed.minTs, pos') && NewFile(s'.files, s'.disk, flushed, contents')
             && FileLayer(flushed, s'.disk[flushed.path := contents']) == MemLayer(s'.immutables[0])
             && Reads.SortedByLsn(sorted) && Reads.Placed(Flush(s', flushed, contents', pos').files, sorted, place)
    ensures var end := Flush(Loaded(s, bulk, contents, rows, pos, row, capacity, newId), flushed, contents', pos');
            && row.time in Stack(Reads.Ranked(end, sorted))
            && Stack(Reads.Ranked(end, sorted))[row.time] == LastWrite(rows)[row.time]
            && row.time in LastWrite(LogRows(end.log)) && LastWrite(LogRows(end.log))[row.time] == row.value
  {
    hide LastWrite, Sound, FilesOk, FileOk, NewestLast, Stack, Loaded, MemRows, MemLayer, InsertedAt, Flatten;
    var s' := Loaded(s, bulk, contents, rows, pos, row, capacity, newId);
    MarkBelow(s);
    MarkKept(s, bulk, contents, rows, pos, row, capacity, newId);
    InsertedLength(s.files, pos, bulk);
    var end := Flush(s', flushed, contents', pos');
    FilesBelow(s);
    var k := BulkIsNewest(s.files, bulk, pos, flushed, pos');
    GreatestLast(end.files, sorted, place, k);
    var ranked := Reads.Ranked(end, sorted);
    assert MemLayers([]) + MutableLayers(Fresh(newId)) == [];
    assert ranked == FileLayers(sorted, end.disk);
    assert ranked[|ranked| - 1] == FileLayer(bulk, s.disk[bulk.path := contents]);
    StackEnds(ranked, row.time);
    LastWriteLast(s.log, Write(s.next, rows), Write(s.next + 1, [row]), row);
  }

  lemma MarkBelow(s: State)
    requires StateOk(s) && s.immutables == [] && s.mutable.baseLsn > 0
    ensures s.mutable.baseLsn < s.next
  {
    hide LastWrite, Sound, FilesOk, NewestLast;
    SoundBelow(s.log, s.next, Layers(s));
    assert Layers(s)[|s.files|] == MemLayer(s.mutable);
  }

  // ----- compaction -----

  const EARLY := SstMeta(0, 10, 10, 1, 1, 0, 0, 1, 1)
  const LATE := SstMeta(1, 5, 10, 2, 1, 0, 0, 2, 2)
  const MERGED := SstMeta(2, 5, 10, 2, 1, 1, 0, 1, 2)
  const TWO_FILES: map<nat, Contents> := map[0 := [[OLD]], 1 := [[Row(5, 7), NEW]]]

  const ONE_FILE := State(2, Fresh(1), [], [EARLY], map[0 := [[OLD]]], [Write(1, [OLD])])
  const BEFORE := State(3, Fresh(2), [], [LATE, EARLY], TWO_FILES, [Write(1, [OLD]), Write(2, [Row(5, 7), NEW])])
  const COMPACTED := State(3, Fresh(2), [], [MERGED], map[2 := [[Row(5, 7), OLD]]], BEFORE.log)

  function TwoFilesSteps(): (steps: seq<TableRuns.Step>) {
    Flushing([OLD], 1, EARLY, [[OLD]], 0) + Flushing([Row(5, 7), NEW], 2, LATE, [[Row(5, 7), NEW]], 0)
  }

  function Compaction(): (step: TableRuns.Step) {
    TableRuns.CompactStep(0, 2, MERGED, [[Row(5, 7), OLD]], {0, 1})
  }

  lemma TwoRowsTight(a: Row, b: Row)
    requires a.time < b.time
    ensures StrictlyAscending([a, b]) && Tight(Stats(2, a.time, b.time), [a, b])
  {
    assert [a, b][0] == a && [a, b][1] == b;
    assert a.time in Times([a, b]) && b.time in Times([a, b]);
  }

  lemma TwoFilesLead()
    ensures TableRuns.Leads(TableRuns.START, TwoFilesSteps(), BEFORE)
  {
    hide TableRuns.Leads, FileLayer, NewFile, LastWrite, Flushing;
    OneRowTight(OLD);
    OneGroup(EARLY, [OLD], [], map[]);
    FlushingLeads(TableRuns.START, [OLD], 1, EARLY, [[OLD]], 0);
    assert Flushed(TableRuns.START, [OLD], 1, EARLY, [[OLD]], 0) == ONE_FILE;
    TwoRowsTight(Row(5, 7), NEW);
    OneGroup(LATE, [Row(5, 7), NEW], [EARLY], ONE_FILE.disk);
    FlushingLeads(ONE_FILE, [Row(5, 7), NEW], 2, LATE, [[Row(5, 7), NEW]], 0);
    assert Flushed(ONE_FILE, [Row(5, 7), NEW], 2, LATE, [[Row(5, 7), NEW]], 0) == BEFORE;
    TableRuns.LeadsThrough(TableRuns.START, Flushing([OLD], 1, EARLY, [[OLD]], 0), ONE_FILE,
                           Flushing([Row(5, 7), NEW], 2, LATE, [[Row(5, 7), NEW]], 0), BEFORE);
  }

  lemma TwoFilesMean()
    ensures FileLayer(EARLY, TWO_FILES) == Layer(1, 1, map[10 := 1])
    ensures FileLayer(LATE, TWO_FILES) == Layer(2, 2, map[5 := 7, 10 := 2])
    ensures Stack(FileLayers([LATE, EARLY], TWO_FILES)) == map[5 := 7, 10 := 1]
    ensures LaterWins(RowsOfFiles([LATE, EARLY], TWO_FILES)) == map[5 := 7, 10 := 1]
  {
    hide LastWrite, Flatten, Stack, LaterWins;
    LastWriteOne(OLD);
    TwoRows(Row(5, 7), NEW);
    var e, l := FileLayer(EARLY, TWO_FILES), FileLayer(LATE, TWO_FILES);
    assert FileLayers([LATE, EARLY], TWO_FILES) == [l, e];
    StackTwo(l, e);
    TwoRowsTight(Row(5, 7), NEW);
    OneRowTight(OLD);
    StackIsLaterWins([LATE, EARLY], TWO_FILES);
  }

  lemma CompactionPossible()
    ensures TableRuns.Possible(BEFORE, Compaction()) && TableRuns.After(BEFORE, Compaction()) == COMPACTED
  {
    hide LastWrite, Flatten, LaterWins, Tight, StrictlyAscending;
    var run := [LATE, EARLY];
    assert BEFORE.files[0..2] == run && run[..1] == [LATE];
    assert NoHole(run) by { assert CoversLsn(run[0], 2) && CoversLsn(run[1], 1); }
    TwoFilesMean();
    TwoRows(Row(5, 7), OLD);
    TwoRowsTight(Row(5, 7), OLD);
    assert run[0].path == 1 && run[1].path == 0;
    assert Unlinkable(run, {0, 1});
    assert MergedSpan(run) == Span(1, 2);
    assert MergeOf(run, TWO_FILES, MERGED, [[Row(5, 7), OLD]]);
    assert (TWO_FILES - {0, 1})[2 := [[Row(5, 7), OLD]]] == COMPACTED.disk;
    assert Replaced(BEFORE.files, 0, 2, MERGED) == [MERGED];
  }

  lemma TwoLogged(a: Write, b: Write)
    ensures LogRows([a, b]) == a.rows + b.rows
  {
    hide LogRows;
    NothingLogged();
    LogRowsAppend([], a);
    LogRowsAppend([a], b);
    assert [] + [a] == [a] && [a] + [b] == [a, b] && [] + a.rows == a.rows;
  }

  lemma NothingLogged()
    ensures LogRows([]) == []
  {
  }

  lemma CompactedLog()
    ensures LastWrite(LogRows(BEFORE.log)) == map[5 := 7, 10 := 2]
  {
    hide LastWrite, LogRows;
    TwoLogged(Write(1, [OLD]), Write(2, [Row(5, 7), NEW]));
    LastWriteConcat([OLD], [Row(5, 7), NEW]);
    LastWriteOne(OLD);
    TwoRows(Row(5, 7), NEW);
  }

  /** A run the table can take: two puts, each frozen and flushed, and a compaction. Index order puts the later
      write first, because it starts earlier, so the merge of the two files, which have no hole between
      them, keeps the older value of time 10. */
  lemma CompactionCanBeStale()
    ensures TableRuns.Leads(TableRuns.START, TwoFilesSteps() + [Compaction()], COMPACTED)
    ensures !RunFaithful([LATE, EARLY], TWO_FILES)
    ensures Stack(Reads.Ranked(BEFORE, [EARLY, LATE])) == LastWrite(LogRows(BEFORE.log)) == map[5 := 7, 10 := 2]
    ensures Stack(Reads.Ranked(COMPACTED, COMPACTED.files)) == map[5 := 7, 10 := 1] && COMPACTED.log == BEFORE.log
  {
    hide LastWrite, LogRows, Flatten, Stack, LaterWins, TableRuns.Leads, TwoFilesSteps, Compaction, FileLayer;
    TwoFilesLead();
    CompactionPossible();
    TableRuns.LeadsOn(TableRuns.START, TwoFilesSteps(), BEFORE, Compaction());
    CompactedLog();
    TwoFilesMean();
    var e, l, m := FileLayer(EARLY, TWO_FILES), FileLayer(LATE, TWO_FILES), FileLayer(MERGED, COMPACTED.disk);
    assert Reads.Ranked(BEFORE, [EARLY, LATE]) == [e, l];
    StackTwo(e, l);
    TwoRows(Row(5, 7), OLD);
    MergedLayer();
    assert Reads.Ranked(COMPACTED, [MERGED]) == [m];
    StackOne(m);
    assert FileLayers([LATE, EARLY], TWO_FILES) == [l, e];
    assert TopHolder([l, e], 10, 0);
  }

  lemma MergedLayer()
    ensures FileLayer(MERGED, COMPACTED.disk).shows == map[5 := 7, 10 := 1]
  {
    hide LastWrite, Flatten;
    TwoRows(Row(5, 7), OLD);
  }

  lemma StackOne(a: Layer)
    ensures Stack([a]) == a.shows
  {
    assert [a][..0] == [];
    assert map[] + a.shows == a.shows;
  }

  lemma TwoRows(a: Row, b: Row)
    requires a.time < b.time
    ensures Flatten([[a, b]]) == [a, b]
    ensures LastWrite([a, b]) == map[a.time := a.value, b.time := b.value]
  {
    FlattenSingle([a, b]);
    assert [a, b][..1] == [a];
    LastWriteOne(a);
  }
}
