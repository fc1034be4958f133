/** The LSM table as a state machine (src/storage/src/table.rs): puts go to the active memtable, freezing
queues it, flushing turns the oldest queued memtable into an SST, a bulk load adds an SST of its own, and
compaction replaces a run of SSTs by one. Each locked section of the source is one step here. */
module Table {
  import opened Rows
  import opened Sst
  import opened Buffers
  import opened WriteLog
  import opened MergeFiles

  // ----- memtables -----

  datatype MemTable = MemTable(id: nat, frozen: seq<Batch>, active: Batch, baseLsn: nat, maxLsn: nat)

  function MemRows(m: MemTable): (rows: Batch) {
    Flatten(m.frozen) + m.active
  }

  function Fresh(id: nat): (m: MemTable) {
    MemTable(id, [], [], 0, 0)
  }

  function RecordLsn(m: MemTable, lsn: nat): (r: MemTable) {
    if lsn == 0 then m else
      m.(maxLsn := Max(m.maxLsn, lsn), baseLsn := if m.baseLsn == 0 || lsn < m.baseLsn then lsn else m.baseLsn)
  }

  function InsertRows(m: MemTable, batch: Batch, capacity: nat): (r: MemTable)
    requires 0 < capacity
  {
    m.(frozen := m.frozen + Pieces(m.active + batch, capacity), active := Tail(m.active + batch, capacity))
  }

  function Seal(m: MemTable): (r: MemTable) {
    if m.active == [] then m else m.(frozen := m.frozen + [m.active], active := [])
  }

  lemma InsertAppends(m: MemTable, batch: Batch, capacity: nat)
    requires 0 < capacity
    ensures MemRows(InsertRows(m, batch, capacity)) == MemRows(m) + batch
  {
    hide Flatten, Pieces, Tail;
    FlattenConcat(m.frozen, Pieces(m.active + batch, capacity));
    PiecesKeepRows(m.active + batch, capacity);
    var f, p, t := Flatten(m.frozen), Flatten(Pieces(m.active + batch, capacity)), Tail(m.active + batch, capacity);
    assert (f + p) + t == f + (p + t);
    assert f + (m.active + batch) == (f + m.active) + batch;
  }

  lemma SealKeeps(m: MemTable)
    ensures MemRows(Seal(m)) == MemRows(m) && Seal(m).active == [] && Flatten(Seal(m).frozen) == MemRows(m)
  {
    if m.active != [] {
      FlattenAppend(m.frozen, m.active);
    } else {
      assert Flatten(m.frozen) + [] == Flatten(m.frozen);
    }
  }

  lemma SealKeepsSpan(m: MemTable)
    ensures Seal(m).baseLsn == m.baseLsn && Seal(m).maxLsn == m.maxLsn
  {
  }

  lemma FreshIsEmpty(id: nat)
    ensures MemRows(Fresh(id)) == []
  {
  }

  // ----- the state and its layers -----

  datatype State = State(
    next: nat, mutable: MemTable, immutables: seq<MemTable>,
    files: seq<SstMeta>, disk: map<nat, Contents>, log: seq<Write>)

  function FileRowsOf(m: SstMeta, disk: map<nat, Contents>): (rows: Batch) {
    if m.path in disk then Flatten(disk[m.path]) else []
  }

  function FileLayer(m: SstMeta, disk: map<nat, Contents>): (l: Layer) {
    Layer(m.baseLsn, m.maxLsn, LastWrite(FileRowsOf(m, disk)))
  }

  function MemLayer(m: MemTable): (l: Layer) {
    Layer(m.baseLsn, m.maxLsn, LastWrite(MemRows(m)))
  }

  function FileLayers(files: seq<SstMeta>, disk: map<nat, Contents>): (ls: seq<Layer>)
    ensures |ls| == |files|
  {
    seq(|files|, i requires 0 <= i < |files| => FileLayer(files[i], disk))
  }

  function MemLayers(mems: seq<MemTable>): (ls: seq<Layer>)
    ensures |ls| == |mems|
  {
    seq(|mems|, i requires 0 <= i < |mems| => MemLayer(mems[i]))
  }

  /** The active memtable counts as a layer from its first LSN on. */
  function MutableLayers(m: MemTable): (ls: seq<Layer>) {
    if m.baseLsn == 0 then [] else [MemLayer(m)]
  }

  function Layers(s: State): (ls: seq<Layer>) {
    FileLayers(s.files, s.disk) + (MemLayers(s.immutables) + MutableLayers(s.mutable))
  }

  ghost predicate FileOk(m: SstMeta, disk: map<nat, Contents>) {
    && m.path in disk && 1 <= m.baseLsn <= m.maxLsn
    && StrictlyAscending(FileRowsOf(m, disk)) && FileRowsOf(m, disk) != []
    && Tight(Stats(m.rowCount, m.minTs, m.maxTs), FileRowsOf(m, disk))
  }

  ghost predicate FilesOk(files: seq<SstMeta>, disk: map<nat, Contents>) {
    && SortedByMinTs(files)
    && (forall i :: 0 <= i < |files| ==> FileOk(files[i], disk))
    && (forall i, j :: 0 <= i < j < |files| ==> files[i].path != files[j].path)
  }

  ghost predicate MemsOk(mutable: MemTable, immutables: seq<MemTable>) {
    && (mutable.baseLsn == 0 ==> mutable.maxLsn == 0 && MemRows(mutable) == [])
    && (forall i :: 0 <= i < |immutables| ==> immutables[i].baseLsn > 0 && MemRows(immutables[i]) != [])
  }

  /** From position `n` on, every layer is newer than everything before it. */
  predicate NewestLast(layers: seq<Layer>, n: nat) {
    forall i, j :: 0 <= i < j < |layers| && n <= j ==> layers[i].max < layers[j].base
  }

  ghost predicate StateOk(s: State) {
    && 1 <= s.next <= U64_MAX
    && FilesOk(s.files, s.disk) && MemsOk(s.mutable, s.immutables)
    && Sound(s.log, s.next, Layers(s)) && NewestLast(Layers(s), |s.files|)
  }

  /** What every step keeps, whatever came before: the parts are well formed and no span reaches `next`. */
  ghost predicate Shaped(s: State) {
    && 1 <= s.next <= U64_MAX
    && FilesOk(s.files, s.disk) && MemsOk(s.mutable, s.immutables)
    && (forall i :: 0 <= i < |s.files| ==> s.files[i].maxLsn < s.next)
    && (forall i :: 0 <= i < |s.immutables| ==> s.immutables[i].baseLsn <= s.immutables[i].maxLsn < s.next)
    && s.mutable.baseLsn <= s.mutable.maxLsn < s.next
  }

  /** The layers can be ranked, memtables above files. */
  ghost predicate Spaced(s: State) {
    Rankable(Layers(s)) && NewestLast(Layers(s), |s.files|)
  }

  lemma OkIsSpaced(s: State)
    requires StateOk(s)
    ensures Spaced(s)
  {
    hide LastWrite, FilesOk, MemRows, NewestLast, Layers, Stretch;
  }

  lemma OkIsShaped(s: State)
    requires StateOk(s)
    ensures Shaped(s)
  {
    hide LastWrite, Sound, FilesOk, MemRows, NewestLast;
    SoundBelow(s.log, s.next, Layers(s));
    var n, k := |s.files|, |s.immutables|;
    assert forall i :: 0 <= i < n ==> Layers(s)[i] == FileLayer(s.files[i], s.disk);
    assert forall i :: 0 <= i < k ==> Layers(s)[n + i] == MemLayer(s.immutables[i]);
    assert s.mutable.baseLsn != 0 ==> Layers(s)[n + k] == MemLayer(s.mutable);
  }

  /** Not merely stamped with an LSN by a write of no rows. */
  predicate Unmarked(m: MemTable) {
    m.baseLsn > 0 ==> MemRows(m) != []
  }

  lemma EmptyStateOk()
    ensures StateOk(State(1, Fresh(0), [], [], map[], [])) && Layers(State(1, Fresh(0), [], [], map[], [])) == []
  {
  }

  // ----- what each step does to the state -----

  function Put(s: State, batch: Batch, capacity: nat): (s': State)
    requires 0 < capacity
  {
    s.(next := s.next + 1, mutable := InsertRows(RecordLsn(s.mutable, s.next), batch, capacity),
       log := s.log + [Write(s.next, batch)])
  }

  lemma PutOk(s: State, batch: Batch, capacity: nat)
    requires StateOk(s) && s.next < U64_MAX && 0 < capacity
    ensures StateOk(Put(s, batch, capacity))
  {
    hide LastWrite, Sound, MemRows, FilesOk, FileLayers, MemLayers;
    var s', w := Put(s, batch, capacity), Write(s.next, batch);
    var m := RecordLsn(s.mutable, s.next);
    InsertAppends(m, batch, capacity);
    RecordKeepsRows(s.mutable, s.next);
    LastWriteConcat(MemRows(s.mutable), batch);
    var older := FileLayers(s.files, s.disk) + MemLayers(s.immutables);
    var layers, layers' := Layers(s), Layers(s');
    if s.mutable.baseLsn == 0 {
      assert [] + batch == batch;
      assert layers == older;
      assert layers' == layers + [Layer(s.next, s.next, LastWrite(batch))];
      NewLayerSound(s.log, s.next, layers, w);
      SoundBelow(s.log, s.next, layers);
    } else {
      var n := |layers| - 1;
      assert layers == older + [MemLayer(s.mutable)];
      SoundBelow(s.log, s.next, layers);
      assert layers[n].max < s.next;
      assert layers' == layers[n := Layer(layers[n].base, s.next, layers[n].shows + LastWrite(batch))];
      GrowLayerSound(s.log, s.next, layers, w);
    }
  }

  lemma PutShaped(s: State, batch: Batch, capacity: nat)
    requires Shaped(s) && s.next < U64_MAX && 0 < capacity
    ensures Shaped(Put(s, batch, capacity))
  {
    hide FilesOk, MemRows;
  }

  lemma RecordKeepsRows(m: MemTable, lsn: nat)
    ensures MemRows(RecordLsn(m, lsn)) == MemRows(m)
  {
  }

  lemma SoundBelow(log: seq<Write>, next: nat, layers: seq<Layer>)
    requires Sound(log, next, layers)
    ensures forall i :: 0 <= i < |layers| ==> 1 <= layers[i].base <= layers[i].max < next
  {
    hide Stretch;
  }

  function Freeze(s: State, newId: nat): (s': State) {
    s.(immutables := s.immutables + [Seal(s.mutable)], mutable := Fresh(newId))
  }

  /** Freezing moves a layer from one list to the other and nothing else. */
  lemma FreezeOk(s: State, newId: nat)
    requires StateOk(s) && MemRows(s.mutable) != []
    ensures StateOk(Freeze(s, newId)) && Layers(Freeze(s, newId)) == Layers(s)
  {
    hide LastWrite, Sound, FilesOk, FileLayers, NewestLast, MemRows, Seal;
    SealKeeps(s.mutable);
    SealKeepsSpan(s.mutable);
    FreshIsEmpty(newId);
    var s' := Freeze(s, newId);
    assert MemLayers(s'.immutables) == MemLayers(s.immutables) + MutableLayers(s.mutable);
    assert MemLayers(s'.immutables) + [] == MemLayers(s'.immutables);
  }

  lemma FreezeShaped(s: State, newId: nat)
    requires Shaped(s) && MemRows(s.mutable) != []
    ensures Shaped(Freeze(s, newId))
  {
    hide FilesOk, MemRows, Seal;
    SealKeeps(s.mutable);
    SealKeepsSpan(s.mutable);
    FreshIsEmpty(newId);
  }

  function SealEach(mems: seq<MemTable>): (r: seq<MemTable>)
    ensures |r| == |mems|
  {
    seq(|mems|, i requires 0 <= i < |mems| => Seal(mems[i]))
  }

  function SealAll(s: State): (s': State) {
    s.(mutable := Seal(s.mutable), immutables := SealEach(s.immutables))
  }

  /** A scan seals the memtables it reads; their rows stay the same. */
  lemma SealAllOk(s: State)
    requires StateOk(s)
    ensures StateOk(SealAll(s)) && Layers(SealAll(s)) == Layers(s)
    ensures SealAll(s).mutable.active == [] && forall i :: 0 <= i < |s.immutables| ==> SealAll(s).immutables[i].active == []
  {
    hide LastWrite, Sound, FilesOk, FileLayers, NewestLast, MemRows, Seal;
    var s' := SealAll(s);
    SealKeeps(s.mutable);
    SealKeepsSpan(s.mutable);
    forall i | 0 <= i < |s.immutables|
      ensures MemLayer(s'.immutables[i]) == MemLayer(s.immutables[i]) && MemRows(s'.immutables[i]) == MemRows(s.immutables[i])
      ensures s'.immutables[i].active == []
    {
      SealKeeps(s.immutables[i]);
      SealKeepsSpan(s.immutables[i]);
    }
    assert MemLayers(s'.immutables) == MemLayers(s.immutables);
  }

  lemma SealAllShaped(s: State)
    requires Shaped(s)
    ensures Shaped(SealAll(s))
  {
    hide FilesOk, MemRows, Seal;
    SealKeeps(s.mutable);
    SealKeepsSpan(s.mutable);
    forall i | 0 <= i < |s.immutables|
      ensures MemRows(Seal(s.immutables[i])) == MemRows(s.immutables[i])
      ensures Seal(s.immutables[i]).baseLsn == s.immutables[i].baseLsn && Seal(s.immutables[i]).maxLsn == s.immutables[i].maxLsn
    {
      SealKeeps(s.immutables[i]);
      SealKeepsSpan(s.immutables[i]);
    }
  }

  function InsertedAt(files: seq<SstMeta>, pos: nat, meta: SstMeta): (r: seq<SstMeta>)
    requires pos <= |files|
  {
    files[..pos] + [meta] + files[pos..]
  }

  /** A file written under an unused path next to the others. */
  ghost predicate NewFile(files: seq<SstMeta>, disk: map<nat, Contents>, meta: SstMeta, contents: Contents) {
    meta.path !in disk && FileOk(meta, disk[meta.path := contents])
  }

  lemma InsertFileOk(files: seq<SstMeta>, disk: map<nat, Contents>, meta: SstMeta, contents: Contents, pos: nat)
    requires FilesOk(files, disk) && NewFile(files, disk, meta, contents) && InsertionPoint(files, meta.minTs, pos)
    ensures FilesOk(InsertedAt(files, pos, meta), disk[meta.path := contents])
    ensures FileLayers(InsertedAt(files, pos, meta), disk[meta.path := contents])
            == FileLayers(files, disk)[..pos] + [FileLayer(meta, disk[meta.path := contents])] + FileLayers(files, disk)[pos..]
  {
    hide LastWrite, Tight, StrictlyAscending, Flatten;
    var disk', files' := disk[meta.path := contents], InsertedAt(files, pos, meta);
    forall i | 0 <= i < |files|
      ensures FileRowsOf(files[i], disk') == FileRowsOf(files[i], disk) && FileOk(files[i], disk')
    {
    }
  }

  function Flush(s: State, meta: SstMeta, contents: Contents, pos: nat): (s': State)
    requires s.immutables != [] && pos <= |s.files|
  {
    s.(immutables := s.immutables[1..], files := InsertedAt(s.files, pos, meta), disk := s.disk[meta.path := contents])
  }

  /** Flushing the oldest queued memtable: its layer moves among the files, same span, same meaning. */
  lemma FlushOk(s: State, meta: SstMeta, contents: Contents, pos: nat)
    requires StateOk(s) && s.immutables != [] && InsertionPoint(s.files, meta.minTs, pos)
    requires NewFile(s.files, s.disk, meta, contents)
    requires FileLayer(meta, s.disk[meta.path := contents]) == MemLayer(s.immutables[0])
    ensures StateOk(Flush(s, meta, contents, pos))
  {
    hide LastWrite, Sound, FilesOk, FileLayers, NewFile, InsertedAt, MemLayer, FileLayer;
    var s' := Flush(s, meta, contents, pos);
    InsertFileOk(s.files, s.disk, meta, contents, pos);
    var old', x := FileLayers(s.files, s.disk), MemLayer(s.immutables[0]);
    var rest := MemLayers(s.immutables[1..]) + MutableLayers(s.mutable);
    var a, b := old'[..pos], old'[pos..];
    assert MemLayers(s.immutables) == [x] + MemLayers(s.immutables[1..]);
    assert Layers(s) == a + b + [x] + rest;
    assert Layers(s') == a + [x] + b + rest;
    MoveSound(s.log, s.next, a, b, x, rest);
    NewestAfterMove(a, b, x, rest);
    assert |s'.files| == |s.files| + 1 by { InsertedLength(s.files, pos, meta); }
  }

  lemma FlushShaped(s: State, meta: SstMeta, contents: Contents, pos: nat)
    requires Shaped(s) && s.immutables != [] && InsertionPoint(s.files, meta.minTs, pos)
    requires NewFile(s.files, s.disk, meta, contents)
    requires FileLayer(meta, s.disk[meta.path := contents]) == MemLayer(s.immutables[0])
    ensures Shaped(Flush(s, meta, contents, pos))
  {
    hide LastWrite, FilesOk, NewFile, MemRows;
    InsertFileOk(s.files, s.disk, meta, contents, pos);
  }

  lemma InsertedLength(files: seq<SstMeta>, pos: nat, meta: SstMeta)
    requires pos <= |files|
    ensures |InsertedAt(files, pos, meta)| == |files| + 1
  {
  }

  lemma NewestAfterMove(a: seq<Layer>, b: seq<Layer>, x: Layer, c: seq<Layer>)
    requires NewestLast(a + b + [x] + c, |a| + |b|)
    ensures NewestLast(a + [x] + b + c, |a| + |b| + 1)
  {
    var from, to := a + b + [x] + c, a + [x] + b + c;
    forall i, j | 0 <= i < j < |to| && |a| + |b| + 1 <= j
      ensures to[i].max < to[j].base
    {
      var p := if i < |a| || i > |a| + |b| then i else if i == |a| then |a| + |b| else i - 1;
      assert to[i] == from[p] && to[j] == from[j] && p < j;
    }
  }

  function BulkLoad(s: State, meta: SstMeta, contents: Contents, rows: Batch, pos: nat): (s': State)
    requires pos <= |s.files|
  {
    s.(next := s.next + 1, files := InsertedAt(s.files, pos, meta), disk := s.disk[meta.path := contents],
       log := s.log + [Write(s.next, rows)])
  }

  /** A bulk load with nothing buffered: the new file ranks above everything. */
  lemma BulkLoadOk(s: State, meta: SstMeta, contents: Contents, rows: Batch, pos: nat)
    requires StateOk(s) && s.next < U64_MAX && s.immutables == [] && s.mutable.baseLsn == 0
    requires InsertionPoint(s.files, meta.minTs, pos) && NewFile(s.files, s.disk, meta, contents)
    requires FileLayer(meta, s.disk[meta.path := contents]) == Layer(s.next, s.next, LastWrite(rows))
    ensures StateOk(BulkLoad(s, meta, contents, rows, pos))
  {
    hide LastWrite, Sound, FilesOk, FileLayers, NewFile, InsertedAt, FileLayer;
    var s', w := BulkLoad(s, meta, contents, rows, pos), Write(s.next, rows);
    InsertFileOk(s.files, s.disk, meta, contents, pos);
    var old', x := FileLayers(s.files, s.disk), Layer(s.next, s.next, LastWrite(rows));
    var a, b := old'[..pos], old'[pos..];
    assert Layers(s) == a + b;
    NewLayerSound(s.log, s.next, a + b, w);
    assert a + b + [x] + [] == a + b + [x];
    MoveSound(s'.log, s'.next, a, b, x, []);
    assert Layers(s') == a + [x] + b + [];
    InsertedLength(s.files, pos, meta);
  }

  lemma BulkLoadShaped(s: State, meta: SstMeta, contents: Contents, rows: Batch, pos: nat)
    requires Shaped(s) && s.next < U64_MAX
    requires InsertionPoint(s.files, meta.minTs, pos) && NewFile(s.files, s.disk, meta, contents)
    requires FileLayer(meta, s.disk[meta.path := contents]) == Layer(s.next, s.next, LastWrite(rows))
    ensures Shaped(BulkLoad(s, meta, contents, rows, pos))
  {
    hide LastWrite, FilesOk, NewFile, MemRows;
    InsertFileOk(s.files, s.disk, meta, contents, pos);
  }

  /** Exactly when: a write of no rows marks the active memtable with an LSN but leaves it empty, so
      that nothing is frozen before the bulk load; the load then lands above a memtable that can still
      grow past it. */
  lemma BulkLoadExactly(s: State, meta: SstMeta, contents: Contents, rows: Batch, pos: nat)
    requires StateOk(s) && s.next < U64_MAX && s.immutables == [] && MemRows(s.mutable) == []
    requires InsertionPoint(s.files, meta.minTs, pos) && NewFile(s.files, s.disk, meta, contents)
    requires FileLayer(meta, s.disk[meta.path := contents]) == Layer(s.next, s.next, LastWrite(rows))
    ensures StateOk(BulkLoad(s, meta, contents, rows, pos)) <==> s.mutable.baseLsn == 0
  {
    if s.mutable.baseLsn == 0 {
      BulkLoadOk(s, meta, contents, rows, pos);
    } else {
      hide LastWrite, Sound, FilesOk, NewFile, FileLayer, MemLayer, MemRows;
      var s' := BulkLoad(s, meta, contents, rows, pos);
      var n := |s'.files|;
      assert Layers(s)[|s.files|] == MemLayer(s.mutable);
      assert Layers(s')[pos] == FileLayer(meta, s'.disk) && Layers(s')[n] == MemLayer(s.mutable);
      SoundBelow(s.log, s.next, Layers(s));
    }
  }

  // ----- compaction -----

  function RowsOfFiles(files: seq<SstMeta>, disk: map<nat, Contents>): (rows: seq<Batch>)
    ensures |rows| == |files|
  {
    seq(|files|, i requires 0 <= i < |files| => FileRowsOf(files[i], disk))
  }

  /** Merging files in index order is stacking their layers in that order. */
  lemma {:induction false} StackIsLaterWins(files: seq<SstMeta>, disk: map<nat, Contents>)
    requires forall i :: 0 <= i < |files| ==> StrictlyAscending(FileRowsOf(files[i], disk))
    ensures Stack(FileLayers(files, disk)) == LaterWins(RowsOfFiles(files, disk))
  {
    hide LastWrite, FirstWrite, Flatten, StrictlyAscending;
    if files != [] {
      var n := |files| - 1;
      StackIsLaterWins(files[..n], disk);
      assert FileLayers(files, disk)[..n] == FileLayers(files[..n], disk);
      assert RowsOfFiles(files, disk)[..n] == RowsOfFiles(files[..n], disk);
      FirstIsLast(FileRowsOf(files[n], disk));
    }
  }

  function Compact(s: State, start: nat, count: nat, merged: SstMeta, contents: Contents, unlinked: set<nat>): (s': State)
    requires start + count <= |s.files|
  {
    s.(files := Replaced(s.files, start, count, merged), disk := (s.disk - unlinked)[merged.path := contents])
  }

  /** `merged` is what the compactor writes for the run. */
  ghost predicate MergeOf(run: seq<SstMeta>, disk: map<nat, Contents>, merged: SstMeta, contents: Contents) {
    && run != []
    && SpanOf(merged) == MergedSpan(run)
    && Lists(Flatten(contents), LaterWins(RowsOfFiles(run, disk)))
    && Tight(Stats(merged.rowCount, merged.minTs, merged.maxTs), Flatten(contents))
  }

  /** At every time, the file of the run that is last in index order shows what the one with the highest
      LSNs shows. */
  ghost predicate RunFaithful(run: seq<SstMeta>, disk: map<nat, Contents>) {
    Faithful(FileLayers(run, disk))
  }

  lemma RunHull(run: seq<SstMeta>, disk: map<nat, Contents>, merged: SstMeta)
    requires run != [] && SpanOf(merged) == MergedSpan(run) && NoHole(run)
    requires forall i :: 0 <= i < |run| ==> 1 <= run[i].baseLsn <= run[i].maxLsn
    ensures Hull(FileLayers(run, disk), merged.baseLsn, merged.maxLsn)
    ensures Tiled(FileLayers(run, disk), merged.baseLsn, merged.maxLsn)
    ensures 1 <= merged.baseLsn <= merged.maxLsn
  {
    hide LastWrite, MergedSpan, NoHole, FileRowsOf;
    MergedSpanIsHull(run);
    var layers := FileLayers(run, disk);
    forall lsn: nat | merged.baseLsn <= lsn <= merged.maxLsn
      ensures Held(layers, lsn)
    {
      HoleFree(run, merged, lsn);
      var i :| 0 <= i < |run| && CoversLsn(run[i], lsn);
      assert Inside(layers[i], lsn);
    }
    var i :| 0 <= i < |run| && run[i].baseLsn == merged.baseLsn;
    var j :| 0 <= j < |run| && run[j].maxLsn == merged.maxLsn;
    assert layers[i].base == merged.baseLsn && layers[j].max == merged.maxLsn;
  }

  lemma HoleFree(run: seq<SstMeta>, merged: SstMeta, lsn: u64)
    requires run != [] && SpanOf(merged) == MergedSpan(run) && NoHole(run) && merged.baseLsn <= lsn <= merged.maxLsn
    requires forall i :: 0 <= i < |run| ==> 1 <= run[i].baseLsn <= run[i].maxLsn
    ensures Covered(run, lsn)
  {
    hide MergedSpan;
    MergedSpanIsHull(run);
    assert Between(run, lsn);
  }

  /** The merged file starts where the first file of the run started, so the index stays sorted. */
  lemma MergedStart(files: seq<SstMeta>, disk: map<nat, Contents>, start: nat, count: nat,
                    merged: SstMeta, contents: Contents)
    requires FilesOk(files, disk) && 0 < count && start + count <= |files|
    requires MergeOf(files[start..start + count], disk, merged, contents)
    ensures merged.minTs == files[start].minTs && Flatten(contents) != []
  {
    hide Flatten, StrictlyAscending, MergedSpan;
    var run := files[start..start + count];
    var rows := RowsOfFiles(run, disk);
    var first := files[start];
    assert FileOk(files[start], disk) && rows[0] == FileRowsOf(first, disk);
    KeysOfMerge(rows, Flatten(contents), first.minTs, 0);
    assert first.minTs in Times(Flatten(contents));
    var i := SourceOfTime(rows, Flatten(contents), merged.minTs);
    assert FileOk(files[start + i], disk) && rows[i] == FileRowsOf(files[start + i], disk);
  }

  lemma KeysOfMerge(rows: seq<Batch>, merged: Batch, t: int, i: nat)
    requires Lists(merged, LaterWins(rows)) && i < |rows| && t in Times(rows[i])
    ensures t in Times(merged)
  {
    WriteKeys(rows[i]);
    WriteKeys(merged);
    LaterWinsDomain(rows, t);
  }

  lemma SourceOfTime(rows: seq<Batch>, merged: Batch, t: int) returns (i: nat)
    requires Lists(merged, LaterWins(rows)) && t in Times(merged)
    ensures i < |rows| && t in Times(rows[i])
  {
    WriteKeys(merged);
    LaterWinsDomain(rows, t);
    i :| 0 <= i < |rows| && t in FirstWrite(rows[i]);
    WriteKeys(rows[i]);
  }

  /** Only inputs of the merge are unlinked. */
  ghost predicate Unlinkable(run: seq<SstMeta>, unlinked: set<nat>) {
    forall p :: p in unlinked ==> exists i :: 0 <= i < |run| && run[i].path == p
  }

  lemma KeptFile(s: State, start: nat, count: nat, merged: SstMeta, contents: Contents, unlinked: set<nat>, i: nat)
    requires FilesOk(s.files, s.disk) && start + count <= |s.files| && merged.path !in s.disk
    requires Unlinkable(s.files[start..start + count], unlinked)
    requires i < |s.files| && !(start <= i < start + count)
    ensures var disk' := Compact(s, start, count, merged, contents, unlinked).disk;
            && FileRowsOf(s.files[i], disk') == FileRowsOf(s.files[i], s.disk)
            && FileOk(s.files[i], disk') && s.files[i].path != merged.path
  {
    hide Flatten, StrictlyAscending, LastWrite, Tight;
    assert FileOk(s.files[i], s.disk);
    var run := s.files[start..start + count];
    forall j | 0 <= j < |run|
      ensures run[j].path != s.files[i].path
    {
      assert run[j] == s.files[start + j];
    }
  }

  lemma CompactFilesOk(s: State, start: nat, count: nat, merged: SstMeta, contents: Contents, unlinked: set<nat>)
    requires FilesOk(s.files, s.disk) && 0 < count && start + count <= |s.files| && merged.path !in s.disk
    requires MergeOf(s.files[start..start + count], s.disk, merged, contents)
    requires 1 <= merged.baseLsn <= merged.maxLsn
    requires Unlinkable(s.files[start..start + count], unlinked)
    ensures var s' := Compact(s, start, count, merged, contents, unlinked);
            FilesOk(s'.files, s'.disk)
  {
    hide Flatten, StrictlyAscending, LastWrite, LaterWins, Tight, MergedSpan, FileOk, MergeOf;
    var s' := Compact(s, start, count, merged, contents, unlinked);
    MergedStart(s.files, s.disk, start, count, merged, contents);
    MergedFileOk(s, start, count, merged, contents, unlinked);
    forall i | 0 <= i < |s.files| && !(start <= i < start + count)
      ensures FileOk(s.files[i], s'.disk) && s.files[i].path != merged.path
    {
      KeptFile(s, start, count, merged, contents, unlinked, i);
    }
    ReplacedSorted(s.files, start, count, merged);
  }

  lemma MergedFileOk(s: State, start: nat, count: nat, merged: SstMeta, contents: Contents, unlinked: set<nat>)
    requires start + count <= |s.files| && MergeOf(s.files[start..start + count], s.disk, merged, contents)
    requires Flatten(contents) != [] && 1 <= merged.baseLsn <= merged.maxLsn
    ensures FileOk(merged, Compact(s, start, count, merged, contents, unlinked).disk)
  {
    hide MergedSpan, LaterWins, LastWrite;
  }

  lemma ReplacedSorted(files: seq<SstMeta>, start: nat, count: nat, merged: SstMeta)
    requires SortedByMinTs(files) && 0 < count && start + count <= |files| && merged.minTs == files[start].minTs
    ensures SortedByMinTs(Replaced(files, start, count, merged))
  {
  }

  lemma CompactLayers(s: State, start: nat, count: nat, merged: SstMeta, contents: Contents, unlinked: set<nat>)
    requires FilesOk(s.files, s.disk) && 0 < count && start + count <= |s.files| && merged.path !in s.disk
    requires MergeOf(s.files[start..start + count], s.disk, merged, contents)
    requires 1 <= merged.baseLsn <= merged.maxLsn
    requires Unlinkable(s.files[start..start + count], unlinked)
    ensures var s' := Compact(s, start, count, merged, contents, unlinked);
            var fl := FileLayers(s.files, s.disk);
            && FileLayers(s'.files, s'.disk) == fl[..start] + [FileLayer(merged, s'.disk)] + fl[start + count..]
            && FileLayer(merged, s'.disk)
               == Layer(merged.baseLsn, merged.maxLsn, LaterWins(RowsOfFiles(s.files[start..start + count], s.disk)))
  {
    hide Flatten, StrictlyAscending, LastWrite, LaterWins, Tight, MergedSpan, FileOk, FilesOk;
    var s' := Compact(s, start, count, merged, contents, unlinked);
    forall i | 0 <= i < |s.files| && !(start <= i < start + count)
      ensures FileLayer(s.files[i], s'.disk) == FileLayer(s.files[i], s.disk)
    {
      KeptFile(s, start, count, merged, contents, unlinked, i);
    }
  }

  lemma NewestAfterMerge(a: seq<Layer>, run: seq<Layer>, b: seq<Layer>, merged: Layer, n: nat)
    requires NewestLast(a + run + b, n) && |a| + |run| <= n && Hull(run, merged.base, merged.max)
    ensures NewestLast(a + [merged] + b, n - |run| + 1)
  {
    var from, to := a + run + b, a + [merged] + b;
    forall i, j | 0 <= i < j < |to| && n - |run| + 1 <= j
      ensures to[i].max < to[j].base
    {
      var q := j + |run| - 1;
      assert to[j] == from[q];
      if i == |a| {
        var p :| 0 <= p < |run| && run[p].max == merged.max;
        assert from[|a| + p] == run[p];
      } else {
        var p := if i < |a| then i else i + |run| - 1;
        assert to[i] == from[p];
      }
    }
  }

  /** What a compaction does to the layers: a run of them without holes becomes one, their stack under their
      hull. */
  ghost predicate Merges(a: seq<Layer>, run: seq<Layer>, b: seq<Layer>, m: Layer, before: seq<Layer>, after: seq<Layer>) {
    && before == a + run + b && after == a + [m] + b && run != []
    && Hull(run, m.base, m.max) && Tiled(run, m.base, m.max) && m.shows == Stack(run)
  }

  lemma CompactMerges(s: State, start: nat, count: nat, merged: SstMeta, contents: Contents, unlinked: set<nat>)
    returns (a: seq<Layer>, b: seq<Layer>, m: Layer)
    requires FilesOk(s.files, s.disk) && 0 < count && start + count <= |s.files| && merged.path !in s.disk
    requires MergeOf(s.files[start..start + count], s.disk, merged, contents)
    requires NoHole(s.files[start..start + count]) && Unlinkable(s.files[start..start + count], unlinked)
    ensures |a| == start
    ensures Merges(a, FileLayers(s.files[start..start + count], s.disk), b, m,
                   Layers(s), Layers(Compact(s, start, count, merged, contents, unlinked)))
  {
    hide LastWrite, Stack, LaterWins, FileLayer, FileLayers, MergeOf, Hull, Tiled, NoHole, MergedSpan, FilesOk;
    var s' := Compact(s, start, count, merged, contents, unlinked);
    var run := s.files[start..start + count];
    MergeOfFacts(s.files, s.disk, start, count, merged, contents);
    RunHull(run, s.disk, merged);
    CompactLayers(s, start, count, merged, contents, unlinked);
    StackIsLaterWins(run, s.disk);
    SliceLayers(s.files, s.disk, start, count);
    var fl, mems := FileLayers(s.files, s.disk), MemLayers(s.immutables) + MutableLayers(s.mutable);
    a, b, m := fl[..start], fl[start + count..] + mems, FileLayer(merged, s'.disk);
    assert Layers(s) == a + FileLayers(run, s.disk) + b;
    assert Layers(s') == a + [m] + b;
  }

  /** Compaction keeps the table standing for the same log exactly when the merge of the run is faithful. */
  lemma CompactOk(s: State, start: nat, count: nat, merged: SstMeta, contents: Contents, unlinked: set<nat>)
    requires StateOk(s) && 0 < count && start + count <= |s.files| && merged.path !in s.disk
    requires MergeOf(s.files[start..start + count], s.disk, merged, contents)
    requires NoHole(s.files[start..start + count]) && Unlinkable(s.files[start..start + count], unlinked)
    ensures StateOk(Compact(s, start, count, merged, contents, unlinked)) <==>
              RunFaithful(s.files[start..start + count], s.disk)
  {
    hide LastWrite, Sound, FileLayers, MergeOf, Hull, Tiled, Faithful, NoHole, FilesOk, Layers, NewestLast;
    OkIsShaped(s);
    var a, b, m := CompactMerges(s, start, count, merged, contents, unlinked);
    var r := FileLayers(s.files[start..start + count], s.disk);
    CompactShaped(s, start, count, merged, contents, unlinked);
    CompactSound(s.log, s.next, a, r, b, m);
    NewestAfterMerge(a, r, b, m, |s.files|);
  }

  lemma CompactSpaced(s: State, start: nat, count: nat, merged: SstMeta, contents: Contents, unlinked: set<nat>)
    requires Spaced(s) && FilesOk(s.files, s.disk) && 0 < count && start + count <= |s.files| && merged.path !in s.disk
    requires MergeOf(s.files[start..start + count], s.disk, merged, contents)
    requires NoHole(s.files[start..start + count]) && Unlinkable(s.files[start..start + count], unlinked)
    ensures Spaced(Compact(s, start, count, merged, contents, unlinked))
  {
    hide FileLayers, MergeOf, Hull, Tiled, NoHole, FilesOk, Layers, NewestLast, Rankable;
    var a, b, m := CompactMerges(s, start, count, merged, contents, unlinked);
    var r := FileLayers(s.files[start..start + count], s.disk);
    MergedRankable(a, r, b, m);
    NewestAfterMerge(a, r, b, m, |s.files|);
  }

  /** Whether or not reads are preserved, the files stay well formed. */
  lemma CompactShaped(s: State, start: nat, count: nat, merged: SstMeta, contents: Contents, unlinked: set<nat>)
    requires Shaped(s) && 0 < count && start + count <= |s.files| && merged.path !in s.disk
    requires MergeOf(s.files[start..start + count], s.disk, merged, contents)
    requires Unlinkable(s.files[start..start + count], unlinked)
    ensures Shaped(Compact(s, start, count, merged, contents, unlinked))
  {
    hide MergeOf, MergedSpan, FilesOk, MemRows, Unlinkable;
    var run := s.files[start..start + count];
    MergeOfFacts(s.files, s.disk, start, count, merged, contents);
    MergedSpanIsHull(run);
    var j :| 0 <= j < |run| && run[j].maxLsn == merged.maxLsn;
    assert run[j] == s.files[start + j];
    assert exists i :: 0 <= i < |run| && run[i].baseLsn == merged.baseLsn;
    CompactFilesOk(s, start, count, merged, contents, unlinked);
  }

  lemma SliceLayers(files: seq<SstMeta>, disk: map<nat, Contents>, start: nat, count: nat)
    requires start + count <= |files|
    ensures FileLayers(files[start..start + count], disk) == FileLayers(files, disk)[start..start + count]
  {
    hide FileLayer;
  }

  lemma MergeOfFacts(files: seq<SstMeta>, disk: map<nat, Contents>, start: nat, count: nat,
                     merged: SstMeta, contents: Contents)
    requires FilesOk(files, disk) && start + count <= |files|
    requires MergeOf(files[start..start + count], disk, merged, contents)
    ensures var run := files[start..start + count];
            && run != [] && SpanOf(merged) == MergedSpan(run)
            && (forall i :: 0 <= i < |run| ==>
                  1 <= run[i].baseLsn <= run[i].maxLsn && StrictlyAscending(FileRowsOf(run[i], disk)))
  {
    hide LastWrite, Flatten, StrictlyAscending, MergedSpan, Tight;
    var run := files[start..start + count];
    forall i | 0 <= i < |run|
      ensures FileOk(run[i], disk)
    {
      assert run[i] == files[start + i];
    }
  }
}
