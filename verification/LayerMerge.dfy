/** The layered merge of src/storage/src/compaction/dedup.rs that never concatenates its input: a
reverse scan keeps the first row it meets of every time, then the kept rows are gathered batch by
batch, in whatever order a hash map yields the batches, and sorted once. */
module LayerMerge {
  import opened Rows
  import opened Dedup

  type Layer = seq<Batch>

  datatype Coord = Coord(layer: nat, batch: nat, row: nat)

  predicate Inside(layers: seq<Layer>, c: Coord) {
    c.layer < |layers| && c.batch < |layers[c.layer]| && c.row < |layers[c.layer][c.batch]|
  }

  predicate AllInside(layers: seq<Layer>, kept: seq<Coord>) {
    forall i :: 0 <= i < |kept| ==> Inside(layers, kept[i])
  }

  function RowsOf(layers: seq<Layer>, kept: seq<Coord>): (rows: Batch)
    requires AllInside(layers, kept)
    ensures |rows| == |kept|
  {
    seq(|kept|, i requires 0 <= i < |kept| => layers[kept[i].layer][kept[i].batch][kept[i].row])
  }

  /** In a batch without duplicate times, the meaning is just the set of rows. */
  lemma UniqueMeaning(a: Batch, b: Batch)
    requires !HasDuplicates(a) && !HasDuplicates(b)
    requires forall r :: r in a <==> r in b
    ensures LastWrite(a) == LastWrite(b)
  {
    hide LastWrite;
    LastKeys(a);
    LastKeys(b);
    forall t | t in LastWrite(a)
      ensures t in LastWrite(b) && LastWrite(a)[t] == LastWrite(b)[t]
    {
      var i :| 0 <= i < |a| && a[i].time == t;
      assert a[i] in b;
      var j :| 0 <= j < |b| && b[j] == a[i];
      LastWriteAt(a, i);
      LastWriteAt(b, j);
      assert b[j].time in Times(b);
    }
    forall t | t in LastWrite(b)
      ensures t in LastWrite(a)
    {
      var j :| 0 <= j < |b| && b[j].time == t;
      assert b[j] in a;
      var i :| 0 <= i < |a| && a[i] == b[j];
      assert a[i].time in Times(a);
    }
  }

  /** State of the reverse scan after the rows of `suffix`: one kept row per time seen, the newest. */
  ghost predicate Scanned(layers: seq<Layer>, suffix: Batch, kept: seq<Coord>, seen: set<int>) {
    && AllInside(layers, kept) && !HasDuplicates(RowsOf(layers, kept))
    && seen == Times(suffix) && LastWrite(RowsOf(layers, kept)) == LastWrite(suffix)
  }

  lemma NotAmong(rows: Batch, t: int)
    requires t !in Times(rows)
    ensures forall i :: 0 <= i < |rows| ==> rows[i].time != t
  {
    forall i | 0 <= i < |rows| ensures rows[i].time != t { assert rows[i].time in Times(rows); }
  }

  lemma ScanRow(layers: seq<Layer>, suffix: Batch, kept: seq<Coord>, seen: set<int>, c: Coord)
    requires Scanned(layers, suffix, kept, seen) && Inside(layers, c)
    ensures var r := layers[c.layer][c.batch][c.row];
            if r.time in seen then Scanned(layers, [r] + suffix, kept, seen)
            else Scanned(layers, [r] + suffix, kept + [c], seen + {r.time})
  {
    hide LastWrite, Times;
    var r := layers[c.layer][c.batch][c.row];
    LastWriteConcat([r], suffix);
    TimesConcat([r], suffix);
    LastWriteSingle(r);
    LastKeys(suffix);
    if r.time !in seen {
      var rows := RowsOf(layers, kept);
      LastKeys(rows);
      assert RowsOf(layers, kept + [c]) == rows + [r];
      LastWriteConcat(rows, [r]);
      NotAmong(rows, r.time);
    }
  }

  lemma FlattenFront<T>(part: seq<T>, rest: seq<seq<T>>)
    ensures Flatten([part] + rest) == part + Flatten(rest)
  {
    FlattenConcat([part], rest);
    FlattenSingle(part);
  }

  /** Scans one batch backwards. */
  method ScanBatch(layers: seq<Layer>, l: nat, b: nat, ghost suffix: Batch, kept: seq<Coord>, seen: set<int>)
    returns (kept': seq<Coord>, seen': set<int>)
    requires l < |layers| && b < |layers[l]| && Scanned(layers, suffix, kept, seen)
    ensures Scanned(layers, layers[l][b] + suffix, kept', seen')
  {
    hide Scanned;
    kept', seen' := kept, seen;
    var batch := layers[l][b];
    assert batch[|batch|..] + suffix == suffix;
    var row := |batch|;
    while row > 0
      invariant 0 <= row <= |batch| && Scanned(layers, batch[row..] + suffix, kept', seen')
    {
      row := row - 1;
      ScanRow(layers, batch[row + 1..] + suffix, kept', seen', Coord(l, b, row));
      assert [batch[row]] + (batch[row + 1..] + suffix) == batch[row..] + suffix;
      if batch[row].time !in seen' {
        seen' := seen' + {batch[row].time};
        kept' := kept' + [Coord(l, b, row)];
      }
    }
    assert batch[0..] == batch;
  }

  /** Scans one layer backwards. */
  method ScanLayer(layers: seq<Layer>, l: nat, ghost suffix: Batch, kept: seq<Coord>, seen: set<int>)
    returns (kept': seq<Coord>, seen': set<int>)
    requires l < |layers| && Scanned(layers, suffix, kept, seen)
    ensures Scanned(layers, Flatten(layers[l]) + suffix, kept', seen')
  {
    hide Scanned;
    kept', seen' := kept, seen;
    var layer := layers[l];
    assert Flatten(layer[|layer|..]) + suffix == suffix;
    var b := |layer|;
    while b > 0
      invariant 0 <= b <= |layer| && Scanned(layers, Flatten(layer[b..]) + suffix, kept', seen')
    {
      b := b - 1;
      FlattenFront(layer[b], layer[b + 1..]);
      assert [layer[b]] + layer[b + 1..] == layer[b..];
      assert layer[b] + (Flatten(layer[b + 1..]) + suffix) == Flatten(layer[b..]) + suffix;
      if layer[b] == [] {
        assert layer[b] + Flatten(layer[b + 1..]) == Flatten(layer[b + 1..]);
        continue;
      }
      kept', seen' := ScanBatch(layers, l, b, Flatten(layer[b + 1..]) + suffix, kept', seen');
    }
    assert layer[0..] == layer;
  }

  method ScanLayers(layers: seq<Layer>) returns (kept: seq<Coord>)
    ensures AllInside(layers, kept) && !HasDuplicates(RowsOf(layers, kept))
    ensures LastWrite(RowsOf(layers, kept)) == LastWrite(Flatten(Flatten(layers)))
  {
    var seen: set<int> := {};
    kept := [];
    var l := |layers|;
    assert Scanned(layers, Flatten(Flatten(layers[l..])), kept, seen);
    while l > 0
      invariant 0 <= l <= |layers| && Scanned(layers, Flatten(Flatten(layers[l..])), kept, seen)
    {
      l := l - 1;
      FlattenFront(layers[l], layers[l + 1..]);
      assert [layers[l]] + layers[l + 1..] == layers[l..];
      FlattenConcat(layers[l], Flatten(layers[l + 1..]));
      kept, seen := ScanLayer(layers, l, Flatten(Flatten(layers[l + 1..])), kept, seen);
    }
    assert layers[0..] == layers;
  }

  predicate DistinctCoords(kept: seq<Coord>) {
    forall i, j :: 0 <= i < j < |kept| ==> kept[i] != kept[j]
  }

  /** `groups` holds exactly the kept coordinates, by batch, each once. */
  ghost predicate Grouped(groups: map<(nat, nat), seq<nat>>, kept: seq<Coord>) {
    && (forall c: Coord :: c in kept <==> (c.layer, c.batch) in groups && c.row in groups[(c.layer, c.batch)])
    && (forall k :: k in groups ==> forall i, j :: 0 <= i < j < |groups[k]| ==> groups[k][i] != groups[k][j])
  }

  /** Groups kept rows by the batch they sit in. */
  method GroupKept(kept: seq<Coord>) returns (groups: map<(nat, nat), seq<nat>>)
    requires DistinctCoords(kept)
    ensures Grouped(groups, kept)
  {
    groups := map[];
    for n := 0 to |kept|
      invariant Grouped(groups, kept[..n])
    {
      var c := kept[n];
      var key := (c.layer, c.batch);
      assert c !in kept[..n];
      assert key in groups ==> c.row !in groups[key];
      var rows := if key in groups then groups[key] + [c.row] else [c.row];
      groups := groups[key := rows];
      assert kept[..n + 1] == kept[..n] + [c];
    }
    assert kept[..|kept|] == kept;
  }

  function CoordsOf(key: (nat, nat), rows: seq<nat>): (cs: seq<Coord>)
    ensures |cs| == |rows|
  {
    seq(|rows|, i requires 0 <= i < |rows| => Coord(key.0, key.1, rows[i]))
  }

  /** Takes the groups in any order; the rows gathered are the kept ones, each once. */
  method Gather(layers: seq<Layer>, groups: map<(nat, nat), seq<nat>>, kept: seq<Coord>) returns (coords: seq<Coord>)
    requires Grouped(groups, kept)
    ensures DistinctCoords(coords) && forall c :: c in coords <==> c in kept
  {
    coords := [];
    var keys := groups.Keys;
    while keys != {}
      invariant keys <= groups.Keys && DistinctCoords(coords)
      invariant forall c :: c in coords <==> c in kept && (c.layer, c.batch) !in keys
      decreases |keys|
    {
      var key :| key in keys;
      var piece := CoordsOf(key, groups[key]);
      assert forall c :: c in piece <==> c in kept && (c.layer, c.batch) == key by { PieceMembers(groups, kept, key); }
      assert DistinctCoords(piece);
      assert DistinctCoords(coords + piece);
      coords := coords + piece;
      keys := keys - {key};
    }
  }

  lemma PieceMembers(groups: map<(nat, nat), seq<nat>>, kept: seq<Coord>, key: (nat, nat))
    requires key in groups && Grouped(groups, kept)
    ensures forall c :: c in CoordsOf(key, groups[key]) <==> c in kept && (c.layer, c.batch) == key
  {
    var piece := CoordsOf(key, groups[key]);
    forall c | c in kept && (c.layer, c.batch) == key
      ensures c in piece
    {
      assert (c.layer, c.batch) in groups && c.row in groups[(c.layer, c.batch)];
      var i :| 0 <= i < |groups[key]| && groups[key][i] == c.row;
      assert piece[i] == c;
    }
  }

  /** Gathering reorders the kept rows; since their times differ, the meaning stays. */
  lemma GatheredMeansSame(layers: seq<Layer>, kept: seq<Coord>, coords: seq<Coord>)
    requires AllInside(layers, kept) && !HasDuplicates(RowsOf(layers, kept))
    requires DistinctCoords(coords) && forall c :: c in coords <==> c in kept
    ensures AllInside(layers, coords) && !HasDuplicates(RowsOf(layers, coords))
    ensures LastWrite(RowsOf(layers, coords)) == LastWrite(RowsOf(layers, kept))
  {
    forall i | 0 <= i < |coords| ensures Inside(layers, coords[i]) { assert coords[i] in kept; }
    var a, b := RowsOf(layers, coords), RowsOf(layers, kept);
    forall i, j | 0 <= i < j < |a|
      ensures a[i].time != a[j].time
    {
      assert coords[i] in kept && coords[j] in kept;
      var p :| 0 <= p < |kept| && kept[p] == coords[i];
      var q :| 0 <= q < |kept| && kept[q] == coords[j];
      assert b[p].time != b[q].time;
    }
    SameRows(layers, kept, coords);
    SameRows(layers, coords, kept);
    UniqueMeaning(a, b);
  }

  lemma SameRows(layers: seq<Layer>, a: seq<Coord>, b: seq<Coord>)
    requires AllInside(layers, a) && AllInside(layers, b) && forall c :: c in a ==> c in b
    ensures forall r :: r in RowsOf(layers, a) ==> r in RowsOf(layers, b)
  {
    forall r | r in RowsOf(layers, a)
      ensures r in RowsOf(layers, b)
    {
      var i :| 0 <= i < |a| && RowsOf(layers, a)[i] == r;
      assert a[i] in b;
      var j :| 0 <= j < |b| && b[j] == a[i];
      assert RowsOf(layers, b)[j] == r;
    }
  }

  lemma DistinctByTime(layers: seq<Layer>, kept: seq<Coord>)
    requires AllInside(layers, kept) && !HasDuplicates(RowsOf(layers, kept))
    ensures DistinctCoords(kept)
  {
    var rows := RowsOf(layers, kept);
    forall i, j | 0 <= i < j < |kept| ensures kept[i] != kept[j] { assert rows[i].time != rows[j].time; }
  }

  /** Layers oldest to newest into at most one batch, the newest row of each time. */
  method MergeSstLayers(layers: seq<Layer>) returns (out: seq<Batch>)
    ensures |out| <= 1 && Lists(Flatten(out), LastWrite(Flatten(Flatten(layers))))
  {
    hide LastWrite, HasDuplicates, Flatten, NonEmptyLayers;
    var nonEmpty := NonEmptyLayers(layers);
    NonEmptyLayersSame(layers);
    if |nonEmpty| <= 1 {
      LastLayer(nonEmpty);
      out := DedupeBatchesNewestWins(if nonEmpty == [] then [] else nonEmpty[0]);
      return;
    }
    var kept := ScanLayers(layers);
    DistinctByTime(layers, kept);
    var groups := GroupKept(kept);
    var coords := Gather(layers, groups, kept);
    GatheredMeansSame(layers, kept, coords);
    if coords == [] {
      NothingKept(layers, coords);
      return [];
    }
    var sorted := SortBatchByTimestamp(RowsOf(layers, coords));
    FlattenSingle(sorted);
    return [sorted];
  }

  function NonEmptyLayers(layers: seq<Layer>): (r: seq<Layer>) {
    if layers == [] then [] else
      NonEmptyLayers(layers[..|layers| - 1])
      + if NonEmpty(layers[|layers| - 1]) == [] then [] else [layers[|layers| - 1]]
  }

  lemma {:induction false} NonEmptyLayersSame(layers: seq<Layer>)
    ensures Flatten(Flatten(NonEmptyLayers(layers))) == Flatten(Flatten(layers))
  {
    if layers != [] {
      var n := |layers| - 1;
      NonEmptyLayersSame(layers[..n]);
      FlattenConcat(Flatten(layers[..n]), layers[n]);
      var init := NonEmptyLayers(layers[..n]);
      if NonEmpty(layers[n]) != [] {
        assert (init + [layers[n]])[..|init|] == init;
        FlattenConcat(Flatten(init), layers[n]);
      } else {
        assert init + [] == init;
        assert Flatten(Flatten(layers[..n])) + [] == Flatten(Flatten(layers[..n]));
      }
    }
  }

  lemma LastLayer(layers: seq<Layer>)
    requires |layers| <= 1
    ensures Flatten(Flatten(layers)) == Flatten(if layers == [] then [] else layers[0])
  {
    if layers != [] {
      FlattenSingle(layers[0]);
      assert layers == [layers[0]];
    }
  }

  lemma NothingKept(layers: seq<Layer>, coords: seq<Coord>)
    requires coords == []
    ensures AllInside(layers, coords) && Lists(Flatten([]), LastWrite(RowsOf(layers, coords)))
  {
    assert RowsOf(layers, coords) == [];
  }
}
