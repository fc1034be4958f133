/** Reading a table (src/query/src/provider.rs, scan): the active memtable, the queued ones newest first,
then the SSTs by descending LSN, each pruned to the query's time range, merged newest first. */
module Reads {
  import opened Rows
  import opened Sst
  import opened WriteLog
  import opened MergeFiles
  import opened Filter
  import opened Pruning
  import opened Table
  import MemScan
  import LsmStream

  // ----- stacks and layered rows taken from the front -----

  lemma {:induction false} StackHead(x: Layer, rest: seq<Layer>)
    ensures Stack([x] + rest) == x.shows + Stack(rest)
  {
    if rest == [] {
      assert [x] + rest == [x] && [x][..0] == [];
      assert map[] + x.shows == x.shows && x.shows + map[] == x.shows;
    } else {
      var n := |rest| - 1;
      StackHead(x, rest[..n]);
      assert ([x] + rest)[..n + 1] == [x] + rest[..n];
      SumAssoc(x.shows, Stack(rest[..n]), rest[n].shows);
    }
  }

  lemma {:induction false} LaterWinsHead(x: Batch, rest: seq<Batch>)
    ensures LaterWins([x] + rest) == FirstWrite(x) + LaterWins(rest)
  {
    if rest == [] {
      assert [x] + rest == [x] && [x][..0] == [];
      assert map[] + FirstWrite(x) == FirstWrite(x) && FirstWrite(x) + map[] == FirstWrite(x);
    } else {
      var n := |rest| - 1;
      LaterWinsHead(x, rest[..n]);
      assert ([x] + rest)[..n + 1] == [x] + rest[..n];
      SumAssoc(FirstWrite(x), LaterWins(rest[..n]), FirstWrite(rest[n]));
    }
  }

  lemma NewestWinsAppend(layers: seq<Batch>, oldest: Batch)
    ensures NewestWins(layers + [oldest]) == FirstWrite(oldest) + NewestWins(layers)
  {
    assert Reverse(layers + [oldest]) == [oldest] + Reverse(layers);
    LaterWinsHead(oldest, Reverse(layers));
  }

  // ----- one layer plan after another -----

  /** The plans, newest first, mean `spec`, and the merge may trust them: ascending, no empty batch. */
  ghost predicate ReadsAs(plans: seq<seq<Batch>>, spec: map<int, int>) {
    && NewestWins(FileRows(plans)) == spec
    && (forall i :: 0 <= i < |plans| ==> StrictlyAscending(Flatten(plans[i])))
    && (forall i, k :: 0 <= i < |plans| && 0 <= k < |plans[i]| ==> plans[i][k] != [])
  }

  /** Planned so far: the newest `suffix` of the layers, inside the range. */
  ghost predicate Planned(plans: seq<seq<Batch>>, suffix: seq<Layer>, range: TimeRange) {
    ReadsAs(plans, Restrict(Stack(suffix), range))
  }

  lemma NothingPlanned(range: TimeRange)
    ensures Planned([], [], range)
  {
    assert Reverse(FileRows([])) == [];
  }

  lemma PlanLayer(plans: seq<seq<Batch>>, suffix: seq<Layer>, range: TimeRange, x: Layer, plan: seq<Batch>)
    requires Planned(plans, suffix, range) && Lists(Flatten(plan), Restrict(x.shows, range))
    requires forall k :: 0 <= k < |plan| ==> plan[k] != []
    ensures Planned(plans + [plan], [x] + suffix, range)
  {
    hide LastWrite, FirstWrite, Flatten, StrictlyAscending, NewestWins, Stack;
    StackHead(x, suffix);
    RestrictSum(x.shows, Stack(suffix), range);
    FirstIsLast(Flatten(plan));
    assert FileRows(plans + [plan]) == FileRows(plans) + [Flatten(plan)];
    NewestWinsAppend(FileRows(plans), Flatten(plan));
  }

  /** A layer with nothing in the range can be left out. */
  lemma SkipLayer(plans: seq<seq<Batch>>, suffix: seq<Layer>, range: TimeRange, x: Layer)
    requires Planned(plans, suffix, range) && Restrict(x.shows, range) == map[]
    ensures Planned(plans, [x] + suffix, range)
  {
    hide NewestWins, Stack, StrictlyAscending;
    StackHead(x, suffix);
    RestrictSum(x.shows, Stack(suffix), range);
    assert map[] + Restrict(Stack(suffix), range) == Restrict(Stack(suffix), range);
  }

  // ----- SSTs by LSN -----

  predicate LsnAtMost(a: SstMeta, b: SstMeta) {
    a.baseLsn < b.baseLsn || (a.baseLsn == b.baseLsn && a.maxLsn <= b.maxLsn)
  }

  predicate SortedByLsn(files: seq<SstMeta>) {
    forall i, j :: 0 <= i < j < |files| ==> LsnAtMost(files[i], files[j])
  }

  /** `sorted` is `files` rearranged by `place`. */
  ghost predicate Placed(files: seq<SstMeta>, sorted: seq<SstMeta>, place: seq<nat>) {
    && |place| == |sorted| == |files|
    && (forall i :: 0 <= i < |sorted| ==> place[i] < |files| && sorted[i] == files[place[i]])
    && (forall i, j :: 0 <= i < j < |sorted| ==> place[i] != place[j])
    && (forall k :: 0 <= k < |files| ==> k in place)
  }

  method InsertByLsn(sorted: seq<SstMeta>, m: SstMeta) returns (r: seq<SstMeta>, pos: nat)
    requires SortedByLsn(sorted)
    ensures SortedByLsn(r) && pos <= |sorted| && r == sorted[..pos] + [m] + sorted[pos..]
  {
    pos := |sorted|;
    while pos > 0 && !LsnAtMost(sorted[pos - 1], m)
      invariant pos <= |sorted|
      invariant forall k :: pos <= k < |sorted| ==> !LsnAtMost(sorted[k], m)
    {
      pos := pos - 1;
    }
    r := sorted[..pos] + [m] + sorted[pos..];
  }

  lemma PlaceNext(files: seq<SstMeta>, i: nat, sorted: seq<SstMeta>, place: seq<nat>, pos: nat)
    requires i < |files| && Placed(files[..i], sorted, place) && pos <= i
    ensures Placed(files[..i + 1], sorted[..pos] + [files[i]] + sorted[pos..], place[..pos] + [i] + place[pos..])
  {
    var p, r := place[..pos] + [i] + place[pos..], sorted[..pos] + [files[i]] + sorted[pos..];
    forall k | 0 <= k < |p|
      ensures k < pos ==> p[k] == place[k] && r[k] == sorted[k] == files[p[k]] && p[k] < i
      ensures k == pos ==> p[k] == i && r[k] == files[i]
      ensures k > pos ==> p[k] == place[k - 1] && r[k] == sorted[k - 1] == files[p[k]] && p[k] < i
    {
    }
    PlaceCovers(place, pos, i);
  }

  lemma PlaceCovers(place: seq<nat>, pos: nat, i: nat)
    requires pos <= |place| && forall k :: 0 <= k < i ==> k in place
    ensures forall k :: 0 <= k < i + 1 ==> k in place[..pos] + [i] + place[pos..]
  {
    var p := place[..pos] + [i] + place[pos..];
    forall k | 0 <= k < i
      ensures k in p
    {
      assert k in place;
      var q :| 0 <= q < |place| && place[q] == k;
      assert p[if q < pos then q else q + 1] == k;
    }
    assert p[pos] == i;
  }

  method SortByLsn(files: seq<SstMeta>) returns (sorted: seq<SstMeta>, ghost place: seq<nat>)
    ensures SortedByLsn(sorted) && Placed(files, sorted, place)
  {
    hide Placed;
    sorted, place := [], [];
    assert Placed(files[..0], [], []) by { NothingPlaced(files); }
    for i := 0 to |files|
      invariant SortedByLsn(sorted) && |sorted| == i && Placed(files[..i], sorted, place)
    {
      var r, pos := InsertByLsn(sorted, files[i]);
      PlaceNext(files, i, sorted, place, pos);
      PlacedLength(files[..i], sorted, place);
      sorted, place := r, place[..pos] + [i] + place[pos..];
    }
    assert files[..|files|] == files;
  }

  lemma NothingPlaced(files: seq<SstMeta>)
    ensures Placed(files[..0], [], [])
  {
  }

  lemma PlacedLength(files: seq<SstMeta>, sorted: seq<SstMeta>, place: seq<nat>)
    requires Placed(files, sorted, place)
    ensures |place| == |sorted| == |files|
  {
  }

  /** The layers of a table in rank order, oldest first. */
  function Ranked(s: State, sorted: seq<SstMeta>): (ls: seq<Layer>) {
    FileLayers(sorted, s.disk) + (MemLayers(s.immutables) + MutableLayers(s.mutable))
  }

  /** Ranking the layers of any reachable state orders their spans, so a read over all of them is the
      last write per time of the whole log. */
  lemma RankedRead(s: State, sorted: seq<SstMeta>, place: seq<nat>)
    requires StateOk(s) && SortedByLsn(sorted) && Placed(s.files, sorted, place)
    ensures Stack(Ranked(s, sorted)) == LastWrite(LogRows(s.log))
  {
    hide LastWrite, Stack, Sound, Spaced, FilesOk, Layers, Ranked, NewestLast, Placed, SortedByLsn, Rearranged, Ordered;
    OkIsSpaced(s);
    var place' := RankedRearranges(s, sorted, place);
    RearrangedSound(s.log, s.next, Layers(s), Ranked(s, sorted), place');
    ReadIsLastWrite(s.log, s.next, Ranked(s, sorted));
  }

  /** Ranking is a rearrangement of the layers into span order. */
  lemma RankedRearranges(s: State, sorted: seq<SstMeta>, place: seq<nat>) returns (place': seq<nat>)
    requires Spaced(s) && SortedByLsn(sorted) && Placed(s.files, sorted, place)
    ensures Rearranged(Layers(s), Ranked(s, sorted), place') && Ordered(Ranked(s, sorted))
  {
    hide LastWrite, MemLayers, MutableLayers, NewestLast, Rankable;
    var to, n := Ranked(s, sorted), |s.files|;
    place' := seq(|to|, i requires 0 <= i < |to| => if i < n then place[i] else i);
    RankedPlace(s, sorted, place, place');
    RankedOrdered(s, sorted, place, place');
  }

  lemma RankedPlace(s: State, sorted: seq<SstMeta>, place: seq<nat>, place': seq<nat>)
    requires Placed(s.files, sorted, place)
    requires |place'| == |Ranked(s, sorted)|
    requires forall i :: 0 <= i < |place'| ==> place'[i] == if i < |s.files| then place[i] else i
    ensures Rearranged(Layers(s), Ranked(s, sorted), place')
  {
    hide LastWrite, FileLayer, MemLayers, MutableLayers;
    var from, to, n := Layers(s), Ranked(s, sorted), |s.files|;
    forall k | 0 <= k < |from|
      ensures k in place'
    {
      if k < n {
        assert k in place;
        var q :| 0 <= q < |place| && place[q] == k;
        assert place'[q] == k;
      } else {
        assert place'[k] == k;
      }
    }
  }

  lemma RankedOrdered(s: State, sorted: seq<SstMeta>, place: seq<nat>, place': seq<nat>)
    requires Spaced(s) && SortedByLsn(sorted) && Placed(s.files, sorted, place)
    requires Rearranged(Layers(s), Ranked(s, sorted), place')
    requires forall i :: 0 <= i < |place'| ==> place'[i] == if i < |s.files| then place[i] else i
    ensures Ordered(Ranked(s, sorted))
  {
    hide LastWrite, MemLayers, MutableLayers, FileRowsOf;
    var from, to, n := Layers(s), Ranked(s, sorted), |s.files|;
    forall i, j | 0 <= i < j < |to|
      ensures to[i].max < to[j].base
    {
      var p, q := place'[i], place'[j];
      assert to[i] == from[p] && to[j] == from[q] && p != q;
      if j < n {
        assert Apart(from[p], from[q]);
        assert LsnAtMost(sorted[i], sorted[j]);
      }
    }
  }

  // ----- the scan -----

  predicate MemScannable(m: MemTable, range: TimeRange) {
    MemScan.Scannable(Seal(m).frozen, range)
  }

  predicate AllScannable(mutable: MemTable, immutables: seq<MemTable>, range: TimeRange) {
    MemScannable(mutable, range) && forall i :: 0 <= i < |immutables| ==> MemScannable(immutables[i], range)
  }

  /** The one memtable with rows, if there is just one. */
  function Alone(mutable: MemTable, immutables: seq<MemTable>): (m: Option<MemTable>) {
    if immutables == [] && MemRows(mutable) != [] then Some(mutable)
    else if |immutables| == 1 && MemRows(immutables[0]) != [] && MemRows(mutable) == [] then Some(immutables[0])
    else None
  }

  /** The only plan is that of memtable `m`, and it lists the memtable exactly when that is scannable. */
  ghost predicate PlansOnly(plans: seq<seq<Batch>>, m: MemTable, range: TimeRange) {
    |plans| == 1 && (Lists(Flatten(plans[0]), Restrict(MemLayer(m).shows, range)) <==> MemScannable(m, range))
  }

  method PlanMemtable(m: MemTable, range: TimeRange, plans: seq<seq<Batch>>, ghost suffix: seq<Layer>)
    returns (plans': seq<seq<Batch>>)
    ensures Planned(plans, suffix, range) && MemScannable(m, range) ==> Planned(plans', [MemLayer(m)] + suffix, range)
    ensures MemRows(m) == [] ==> plans' == plans
    ensures MemRows(m) != [] ==>
              && |plans'| == |plans| + 1 && plans'[..|plans|] == plans
              && (Lists(Flatten(plans'[|plans|]), Restrict(MemLayer(m).shows, range)) <==> MemScannable(m, range))
  {
    hide LastWrite, Planned, MemRows, Flatten;
    SealKeeps(m);
    if MemRows(m) == [] {
      NoRowsNothing(range);
      if Planned(plans, suffix, range) {
        SkipLayer(plans, suffix, range, MemLayer(m));
      }
      return plans;
    }
    var plan := MemScan.ScanMemtable(Seal(m).frozen, range);
    if Planned(plans, suffix, range) && MemScannable(m, range) {
      PlanLayer(plans, suffix, range, MemLayer(m), plan);
    }
    plans' := plans + [plan];
  }

  lemma NoRowsNothing(range: TimeRange)
    ensures Restrict(LastWrite([]), range) == map[] && LastWrite([]) == map[]
  {
  }

  method PlanMemtables(mutable: MemTable, immutables: seq<MemTable>, range: TimeRange) returns (plans: seq<seq<Batch>>)
    requires mutable.baseLsn == 0 ==> MemRows(mutable) == []
    ensures AllScannable(mutable, immutables, range) ==> Planned(plans, MemLayers(immutables) + MutableLayers(mutable), range)
    ensures Alone(mutable, immutables).Some? ==> PlansOnly(plans, Alone(mutable, immutables).value, range)
  {
    hide LastWrite, Planned, MemRows, MemScannable, Stack, MemLayer, Lists, Restrict, Flatten;
    NothingPlanned(range);
    plans := [];
    if mutable.baseLsn > 0 {
      plans := PlanMemtable(mutable, range, plans, []);
      assert [MemLayer(mutable)] + [] == MutableLayers(mutable);
    }
    var layers := MemLayers(immutables);
    assert layers[|layers|..] + MutableLayers(mutable) == MutableLayers(mutable);
    for i := |immutables| downto 0
      invariant AllScannable(mutable, immutables, range) ==> Planned(plans, layers[i..] + MutableLayers(mutable), range)
      invariant i == |immutables| && MemRows(mutable) == [] ==> plans == []
      invariant i == |immutables| && MemRows(mutable) != [] ==> PlansOnly(plans, mutable, range)
      invariant i == 0 && Alone(mutable, immutables).Some? ==> PlansOnly(plans, Alone(mutable, immutables).value, range)
    {
      plans := PlanMemtable(immutables[i], range, plans, layers[i + 1..] + MutableLayers(mutable));
      assert [layers[i]] + (layers[i + 1..] + MutableLayers(mutable)) == layers[i..] + MutableLayers(mutable);
    }
    assert layers[0..] == layers;
  }

  /** Plans one SST, or skips it when its time bounds miss the range. */
  method PlanSst(m: SstMeta, disk: map<nat, Contents>, range: TimeRange,
                 plans: seq<seq<Batch>>, ghost suffix: seq<Layer>)
    returns (plans': seq<seq<Batch>>)
    requires FileOk(m, disk)
    ensures Planned(plans, suffix, range) ==> Planned(plans', [FileLayer(m, disk)] + suffix, range)
    ensures if Overlaps(range, m.minTs, m.maxTs) then |plans'| == |plans| + 1 && plans < plans' else plans' == plans
  {
    hide LastWrite, Planned, Flatten, StrictlyAscending, Tight;
    if !Overlaps(range, m.minTs, m.maxTs) {
      PrunedFile(m, disk, range);
      if Planned(plans, suffix, range) {
        SkipLayer(plans, suffix, range, FileLayer(m, disk));
      }
      return plans;
    }
    var plan := MemScan.FilteredChunks(disk[m.path], range);
    MemScan.FilteredRows(disk[m.path], range);
    InRangeMeans(Flatten(disk[m.path]), range);
    InRangeStrict(Flatten(disk[m.path]), range);
    if Planned(plans, suffix, range) {
      PlanLayer(plans, suffix, range, FileLayer(m, disk), plan);
    }
    plans' := plans + [plan];
  }

  lemma PrunedFile(m: SstMeta, disk: map<nat, Contents>, range: TimeRange)
    requires FileOk(m, disk) && !Overlaps(range, m.minTs, m.maxTs)
    ensures Restrict(FileLayer(m, disk).shows, range) == map[]
  {
    var rows := FileRowsOf(m, disk);
    LastKeys(rows);
    forall t | t in LastWrite(rows)
      ensures !Contains(range, t)
    {
      assert t in Times(rows);
    }
  }

  method PlanSsts(sorted: seq<SstMeta>, disk: map<nat, Contents>, range: TimeRange,
                  memPlans: seq<seq<Batch>>, ghost mems: seq<Layer>)
    returns (plans: seq<seq<Batch>>)
    requires forall i :: 0 <= i < |sorted| ==> FileOk(sorted[i], disk)
    ensures Planned(memPlans, mems, range) ==> Planned(plans, FileLayers(sorted, disk) + mems, range)
    ensures sorted == [] ==> plans == memPlans
  {
    hide LastWrite, Planned, FileOk, FileLayer;
    plans := memPlans;
    ghost var layers := FileLayers(sorted, disk);
    assert layers[|layers|..] + mems == mems;
    for i := |sorted| downto 0
      invariant Planned(memPlans, mems, range) ==> Planned(plans, layers[i..] + mems, range)
      invariant i == |sorted| ==> plans == memPlans
    {
      plans := PlanSst(sorted[i], disk, range, plans, layers[i + 1..] + mems);
      assert [layers[i]] + (layers[i + 1..] + mems) == layers[i..] + mems;
    }
    assert layers[0..] == layers;
  }

  /** Plans a scan of the whole table. If every memtable is scannable, the plans mean what the ranked layers
      show in the range, and where the table stands for its log that is the last write of each time. */
  method Scan(mutable: MemTable, immutables: seq<MemTable>, files: seq<SstMeta>, disk: map<nat, Contents>,
              range: TimeRange, ghost s: State)
    returns (plans: seq<seq<Batch>>, ghost shown: map<int, int>)
    requires Shaped(s) && s.mutable == mutable && s.immutables == immutables && s.files == files && s.disk == disk
    ensures exists sorted, place :: SortedByLsn(sorted) && Placed(s.files, sorted, place) && shown == Stack(Ranked(s, sorted))
    ensures AllScannable(mutable, immutables, range) ==> ReadsAs(plans, Restrict(shown, range))
    ensures StateOk(s) ==> shown == LastWrite(LogRows(s.log))
    ensures files == [] && Alone(mutable, immutables).Some? ==>
              var m := Alone(mutable, immutables).value;
              PlansOnly(plans, m, range) && shown == MemLayer(m).shows
  {
    hide LastWrite, AllScannable, Stack, StateOk, MemLayers, MutableLayers, FileLayers, Placed, FileOk, Alone, PlansOnly;
    var sorted, place := SortByLsn(files);
    SortedFilesOk(files, disk, sorted, place);
    var memPlans := PlanMemtables(mutable, immutables, range);
    plans := PlanSsts(sorted, disk, range, memPlans, MemLayers(immutables) + MutableLayers(mutable));
    shown := Stack(Ranked(s, sorted));
    PlacedLength(files, sorted, place);
    if files == [] && Alone(mutable, immutables).Some? {
      AloneShows(s);
    }
    if StateOk(s) {
      RankedRead(s, sorted, place);
    }
  }

  lemma StackSingle(x: Layer)
    ensures Stack([x]) == x.shows
  {
    hide Stack;
    StackHead(x, []);
    StackNone();
    assert [x] + [] == [x] && x.shows + map[] == x.shows;
  }

  lemma StackNone()
    ensures Stack([]) == map[]
  {
  }

  /** An empty layer on top changes nothing. */
  lemma StackBlank(x: Layer, blank: Layer)
    requires blank.shows == map[]
    ensures Stack([x] + [blank]) == x.shows
  {
    hide Stack;
    StackHead(x, [blank]);
    StackSingle(blank);
    assert x.shows + map[] == x.shows;
  }

  lemma AloneShows(s: State)
    requires Shaped(s) && Alone(s.mutable, s.immutables).Some?
    ensures Stack(Ranked(s, [])) == MemLayer(Alone(s.mutable, s.immutables).value).shows
  {
    hide FilesOk, MemRows, LastWrite, Stack;
    var mems := MemLayers(s.immutables) + MutableLayers(s.mutable);
    assert Ranked(s, []) == mems;
    if s.immutables == [] {
      assert mems == [MemLayer(s.mutable)];
      StackSingle(mems[0]);
    } else if s.mutable.baseLsn == 0 {
      assert mems == [MemLayer(s.immutables[0])];
      StackSingle(mems[0]);
    } else {
      NoRowsNothing(EVERYTHING);
      assert mems == [MemLayer(s.immutables[0])] + [MemLayer(s.mutable)];
      StackBlank(mems[0], MemLayer(s.mutable));
    }
  }

  lemma SortedFilesOk(files: seq<SstMeta>, disk: map<nat, Contents>, sorted: seq<SstMeta>, place: seq<nat>)
    requires FilesOk(files, disk) && Placed(files, sorted, place)
    ensures forall i :: 0 <= i < |sorted| ==> FileOk(sorted[i], disk)
  {
    hide FileOk;
  }

  // ----- the query -----

  function Scripts(plans: seq<seq<Batch>>): (streams: seq<seq<LsmStream.Poll>>)
    ensures |streams| == |plans|
  {
    seq(|plans|, i requires 0 <= i < |plans| => Script(plans[i]))
  }

  function Script(plan: seq<Batch>): (script: seq<LsmStream.Poll>)
    ensures |script| == |plan|
  {
    seq(|plan|, k requires 0 <= k < |plan| => LsmStream.Ready(plan[k]))
  }

  lemma {:induction false} ScriptDelivers(plan: seq<Batch>)
    requires forall k :: 0 <= k < |plan| ==> plan[k] != []
    ensures LsmStream.Delivered(Script(plan)) == Flatten(plan)
  {
    if plan != [] {
      ScriptDelivers(plan[1..]);
      assert Script(plan)[1..] == Script(plan[1..]);
      FlattenHead(plan);
    }
  }

  /** One layer is read as it is; several go through the priority merge. */
  method Merge(plans: seq<seq<Batch>>, ghost spec: map<int, int>) returns (rows: Batch)
    ensures ReadsAs(plans, spec) ==> Lists(rows, spec)
    ensures |plans| == 1 ==> rows == Flatten(plans[0])
  {
    hide LastWrite, FirstWrite, Flatten, LsmStream.Delivered, LaterWins, StrictlyAscending;
    if |plans| == 1 {
      rows := Flatten(plans[0]);
      if ReadsAs(plans, spec) {
        OnePlan(plans);
      }
      return;
    }
    forall i | 0 <= i < |plans| && ReadsAs(plans, spec)
      ensures LsmStream.Delivered(Scripts(plans)[i]) == Flatten(plans[i]) && Ascending(Flatten(plans[i]))
    {
      ScriptDelivers(plans[i]);
      StrictIsAscending(Flatten(plans[i]));
    }
    var batches := LsmStream.MergeLayers(Scripts(plans), seq(|plans|, i => i));
    assert ReadsAs(plans, spec) ==> LsmStream.DeliveredAll(Scripts(plans)) == FileRows(plans);
    rows := Flatten(batches);
  }

  lemma StrictIsAscending(rows: Batch)
    requires StrictlyAscending(rows)
    ensures Ascending(rows)
  {
  }

  lemma OnePlan(plans: seq<seq<Batch>>)
    requires |plans| == 1 && StrictlyAscending(Flatten(plans[0]))
    ensures NewestWins(FileRows(plans)) == LastWrite(Flatten(plans[0]))
  {
    hide LastWrite, FirstWrite, Flatten, StrictlyAscending;
    var layers: seq<Batch> := FileRows(plans);
    assert Reverse(layers) == layers && layers[..0] == [];
    FirstIsLast(layers[0]);
    assert LaterWins(layers) == LaterWins(layers[..0]) + FirstWrite(layers[0]);
    assert map[] + FirstWrite(layers[0]) == FirstWrite(layers[0]);
  }
}
