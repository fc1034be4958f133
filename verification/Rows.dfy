/** Rows, batches and the newest-wins semantics every layer of the store has to agree on.

A batch is a sequence of `(time, value)` rows; `value` stands for all non-time columns of a row.
The meaning of a stack of layers is a map from time to value. Dafny's map sum is right-biased, so
"the later operand wins" is simply `+`. */
module Rows {

  datatype Row = Row(time: int, value: int)

  type Batch = seq<Row>

  datatype Option<T> = None | Some(value: T)

  datatype Result<T> = Ok(value: T) | Err

  function Flatten<T>(parts: seq<seq<T>>): (r: seq<T>) {
    if parts == [] then [] else Flatten(parts[..|parts| - 1]) + parts[|parts| - 1]
  }

  /** No batch is empty or over `size`, and only the last may be short. */
  predicate FullButLast(batches: seq<Batch>, size: nat) {
    && (forall k :: 0 <= k < |batches| ==> 0 < |batches[k]| <= size)
    && (forall k :: 0 <= k < |batches| - 1 ==> |batches[k]| == size)
  }

  lemma NoBatches(size: nat)
    ensures FullButLast([], size) && Flatten<Row>([]) == []
  {
  }

  lemma AppendBatch(batches: seq<Batch>, batch: Batch, size: nat)
    requires FullButLast(batches, size) && 0 < |batch| <= size
    requires batches != [] ==> |batches[|batches| - 1]| == size
    ensures FullButLast(batches + [batch], size) && Flatten(batches + [batch]) == Flatten(batches) + batch
  {
    assert (batches + [batch])[..|batches|] == batches;
  }

  predicate Ascending(rows: Batch) {
    forall i, j :: 0 <= i < j < |rows| ==> rows[i].time <= rows[j].time
  }

  predicate StrictlyAscending(rows: Batch) {
    forall i, j :: 0 <= i < j < |rows| ==> rows[i].time < rows[j].time
  }

  function Times(rows: Batch): (ts: set<int>) {
    set i | 0 <= i < |rows| :: rows[i].time
  }

  /** The last-write-wins map of a sequence of writes, oldest first. */
  function LastWrite(rows: Batch): (m: map<int, int>) {
    if rows == [] then map[] else
      LastWrite(rows[..|rows| - 1])[rows[|rows| - 1].time := rows[|rows| - 1].value]
  }

  /** The first row of each time wins: what a dedup that keeps the first of a run of equal times sees. */
  function FirstWrite(rows: Batch): (m: map<int, int>) {
    if rows == [] then map[] else FirstWrite(rows[1..])[rows[0].time := rows[0].value]
  }

  lemma WriteKeys(rows: Batch)
    ensures LastWrite(rows).Keys == Times(rows)
    ensures FirstWrite(rows).Keys == Times(rows)
  {
    LastKeys(rows);
    FirstKeys(rows);
  }

  lemma {:induction false} LastKeys(rows: Batch)
    ensures LastWrite(rows).Keys == Times(rows)
  {
    if rows != [] {
      var init, last := rows[..|rows| - 1], rows[|rows| - 1];
      LastKeys(init);
      TimesConcat(init, [last]);
      assert rows == init + [last];
    }
  }

  lemma {:induction false} FirstKeys(rows: Batch)
    ensures FirstWrite(rows).Keys == Times(rows)
  {
    if rows != [] {
      FirstKeys(rows[1..]);
      TimesConcat([rows[0]], rows[1..]);
      assert rows == [rows[0]] + rows[1..];
    }
  }

  lemma TimesConcat(a: Batch, b: Batch)
    ensures Times(a + b) == Times(a) + Times(b)
  {
    forall t | t in Times(a) + Times(b)
      ensures t in Times(a + b)
    {
      if t in Times(a) {
        var i :| 0 <= i < |a| && a[i].time == t;
        assert (a + b)[i].time == t;
      } else {
        var i :| 0 <= i < |b| && b[i].time == t;
        assert (a + b)[|a| + i].time == t;
      }
    }
  }

  /** `rows` is the one ascending listing of `m`: the canonical result of any merge or dedup. */
  predicate Lists(rows: Batch, m: map<int, int>) {
    StrictlyAscending(rows) && LastWrite(rows) == m
  }

  lemma FlattenAppend<T>(parts: seq<seq<T>>, part: seq<T>)
    ensures Flatten(parts + [part]) == Flatten(parts) + part
  {
    assert (parts + [part])[..|parts|] == parts;
  }

  lemma FlattenHead<T>(parts: seq<seq<T>>)
    requires parts != []
    ensures Flatten(parts) == parts[0] + Flatten(parts[1..])
  {
    FlattenConcat([parts[0]], parts[1..]);
    FlattenSingle(parts[0]);
    assert [parts[0]] + parts[1..] == parts;
  }

  lemma {:induction false} FlattenConcat<T>(a: seq<seq<T>>, b: seq<seq<T>>)
    ensures Flatten(a + b) == Flatten(a) + Flatten(b)
  {
    if b == [] {
      assert a + b == a;
    } else {
      FlattenConcat(a, b[..|b| - 1]);
      assert (a + b)[..|a + b| - 1] == a + b[..|b| - 1];
    }
  }

  lemma FlattenNext<T>(parts: seq<seq<T>>, k: nat)
    requires k < |parts|
    ensures Flatten(parts[..k + 1]) == Flatten(parts[..k]) + parts[k]
  {
    assert parts[..k + 1][..k] == parts[..k];
  }

  lemma FlattenSingle<T>(a: seq<T>)
    ensures Flatten([a]) == a
  {
    assert [a][..0] == [];
  }

  lemma {:induction false} LastWriteConcat(a: Batch, b: Batch)
    ensures LastWrite(a + b) == LastWrite(a) + LastWrite(b)
  {
    if b == [] {
      assert a + b == a;
    } else {
      LastWriteConcat(a, b[..|b| - 1]);
      assert (a + b)[..|a + b| - 1] == a + b[..|b| - 1];
    }
  }

  lemma LastWriteSingle(r: Row)
    ensures LastWrite([r]) == map[r.time := r.value] && Times([r]) == {r.time}
  {
    assert [r][..0] == [];
    assert [r][0].time in Times([r]);
  }

  /** Position `p` holds the newest write of its time exactly when no later position repeats it. */
  lemma {:induction false} LastWriteAt(rows: Batch, p: nat)
    requires p < |rows|
    requires forall q :: p < q < |rows| ==> rows[q].time != rows[p].time
    ensures rows[p].time in LastWrite(rows) && LastWrite(rows)[rows[p].time] == rows[p].value
  {
    if p < |rows| - 1 {
      LastWriteAt(rows[..|rows| - 1], p);
    }
  }

  lemma {:induction false} FirstWriteAt(rows: Batch, p: nat)
    requires p < |rows|
    requires forall q :: 0 <= q < p ==> rows[q].time != rows[p].time
    ensures rows[p].time in FirstWrite(rows) && FirstWrite(rows)[rows[p].time] == rows[p].value
  {
    if p > 0 {
      FirstWriteAt(rows[1..], p - 1);
    }
  }

  /** Without duplicate times, the first and the last write of a time are the same row. */
  lemma FirstIsLast(rows: Batch)
    requires StrictlyAscending(rows)
    ensures FirstWrite(rows) == LastWrite(rows)
  {
    WriteKeys(rows);
    forall t | t in FirstWrite(rows)
      ensures FirstWrite(rows)[t] == LastWrite(rows)[t]
    {
      var i :| 0 <= i < |rows| && rows[i].time == t;
      FirstWriteAt(rows, i);
      LastWriteAt(rows, i);
    }
  }

  /** The last row of a listing is the greatest entry of its map, and the rest list the rest. */
  lemma {:induction false} ListingLast(rows: Batch)
    requires StrictlyAscending(rows) && rows != []
    ensures var last := rows[|rows| - 1];
            && last.time in LastWrite(rows) && LastWrite(rows)[last.time] == last.value
            && (forall t :: t in LastWrite(rows) ==> t <= last.time)
            && LastWrite(rows[..|rows| - 1]) == LastWrite(rows) - {last.time}
  {
    var init, last := rows[..|rows| - 1], rows[|rows| - 1];
    LastKeys(init);
    assert last.time !in LastWrite(init) by {
      assert forall i :: 0 <= i < |init| ==> init[i].time < last.time;
    }
    LastKeys(rows);
  }

  /** A map has at most one ascending listing, so two merges with the same meaning emit the same rows. */
  lemma {:induction false} ListingUnique(a: Batch, b: Batch)
    requires StrictlyAscending(a) && StrictlyAscending(b)
    requires LastWrite(a) == LastWrite(b)
    ensures a == b
  {
    if a != [] && b != [] {
      ListingLast(a);
      ListingLast(b);
      ListingUnique(a[..|a| - 1], b[..|b| - 1]);
      assert a == a[..|a| - 1] + [a[|a| - 1]] && b == b[..|b| - 1] + [b[|b| - 1]];
    } else {
      assert forall rows: Batch :: rows != [] ==> rows[0].time in Times(rows);
      WriteKeys(a);
      WriteKeys(b);
    }
  }

  lemma SameMeaningSameEmptiness(a: Batch, b: Batch)
    requires LastWrite(a) == LastWrite(b)
    ensures a == [] <==> b == []
  {
    LastKeys(a);
    LastKeys(b);
    assert forall rows: Batch :: rows != [] ==> rows[0].time in Times(rows);
  }

  lemma ListsAgree(a: Batch, b: Batch, m: map<int, int>)
    requires Lists(a, m) && Lists(b, m)
    ensures a == b
  {
    ListingUnique(a, b);
  }

  /** Layers oldest first; inside one layer the first row of a time wins, across layers the later one. */
  function LaterWins(layers: seq<Batch>): (m: map<int, int>) {
    if layers == [] then map[] else
      LaterWins(layers[..|layers| - 1]) + FirstWrite(layers[|layers| - 1])
  }

  function Reverse<T>(s: seq<T>): (r: seq<T>)
    ensures |r| == |s|
    ensures forall i :: 0 <= i < |s| ==> r[i] == s[|s| - 1 - i]
  {
    seq(|s|, i requires 0 <= i < |s| => s[|s| - 1 - i])
  }

  /** Layers newest first, the order in which a scan ranks them. */
  function NewestWins(layers: seq<Batch>): (m: map<int, int>) {
    LaterWins(Reverse(layers))
  }

  ghost predicate SameExcept(a: map<int, int>, b: map<int, int>, t: int) {
    && (forall k :: k != t ==> (k in a <==> k in b))
    && (forall k :: k != t && k in a && k in b ==> a[k] == b[k])
  }

  lemma OverlayHides(a: map<int, int>, b: map<int, int>, m: map<int, int>, t: int)
    requires SameExcept(a, b, t) && t in m
    ensures a + m == b + m
  {
    var x, y := a + m, b + m;
    assert forall k :: k in x <==> k in y;
    assert forall k :: k in x ==> x[k] == y[k];
  }

  /** Dropping the head row of one layer changes the merged meaning at that row's time only, and
      when no later layer holds the time, the head row is what the merge shows there. */
  lemma {:induction false} DropHead(layers: seq<Batch>, i: nat)
    requires i < |layers| && layers[i] != []
    ensures SameExcept(LaterWins(layers), LaterWins(layers[i := layers[i][1..]]), layers[i][0].time)
    ensures (forall j :: i < j < |layers| ==> layers[i][0].time !in FirstWrite(layers[j]))
            ==> layers[i][0].time in LaterWins(layers)
                && LaterWins(layers)[layers[i][0].time] == layers[i][0].value
  {
    var n := |layers| - 1;
    var dropped := layers[i := layers[i][1..]];
    if i == n {
      assert dropped[..n] == layers[..n];
    } else {
      DropHead(layers[..n], i);
      assert dropped[..n] == layers[..n][i := layers[i][1..]];
    }
  }

  lemma {:induction false} LaterWinsDomain(layers: seq<Batch>, t: int)
    ensures t in LaterWins(layers) <==> exists i :: 0 <= i < |layers| && t in FirstWrite(layers[i])
  {
    if layers != [] {
      var init := layers[..|layers| - 1];
      LaterWinsDomain(init, t);
      assert forall i :: 0 <= i < |init| ==> init[i] == layers[i];
    }
  }

  lemma LaterWinsEmpty(layers: seq<Batch>)
    requires forall i :: 0 <= i < |layers| ==> layers[i] == []
    ensures LaterWins(layers) == map[]
  {
    forall t ensures t !in LaterWins(layers) { LaterWinsDomain(layers, t); }
  }

  /** On layers without internal duplicates, the layered meaning is that of the flat write log. */
  lemma {:induction false} LaterWinsIsLastWrite(layers: seq<Batch>)
    requires forall i :: 0 <= i < |layers| ==> StrictlyAscending(layers[i])
    ensures LaterWins(layers) == LastWrite(Flatten(layers))
  {
    if layers != [] {
      var n := |layers| - 1;
      LaterWinsIsLastWrite(layers[..n]);
      FirstIsLast(layers[n]);
      LastWriteConcat(Flatten(layers[..n]), layers[n]);
    }
  }
}
