/** Why pruning by time does not change an answer: deduplication is keyed by the very column that is
filtered, so dropping rows outside a range commutes with merging. */
module Pruning {
  import opened Rows
  import opened Filter

  /** The rows of a batch inside the range, in order. */
  function InRange(rows: Batch, range: TimeRange): (r: Batch) {
    if rows == [] then [] else
      var n := |rows| - 1;
      var kept := InRange(rows[..n], range);
      if Contains(range, rows[n].time) then kept + [rows[n]] else kept
  }

  function Restrict(m: map<int, int>, range: TimeRange): (r: map<int, int>) {
    map t | t in m && Contains(range, t) :: m[t]
  }

  lemma {:induction false} InRangeRows(rows: Batch, range: TimeRange)
    ensures forall i :: 0 <= i < |InRange(rows, range)| ==>
              InRange(rows, range)[i] in rows && Contains(range, InRange(rows, range)[i].time)
    ensures forall i :: 0 <= i < |rows| && Contains(range, rows[i].time) ==> rows[i] in InRange(rows, range)
  {
    if rows != [] {
      InRangeRows(rows[..|rows| - 1], range);
    }
  }

  lemma {:induction false} InRangeStrict(rows: Batch, range: TimeRange)
    requires StrictlyAscending(rows)
    ensures StrictlyAscending(InRange(rows, range))
  {
    if rows != [] {
      var init := rows[..|rows| - 1];
      InRangeStrict(init, range);
      InRangeRows(init, range);
      forall i | 0 <= i < |InRange(init, range)|
        ensures InRange(init, range)[i].time < rows[|rows| - 1].time
      {
        assert InRange(init, range)[i] in init;
      }
    }
  }

  lemma {:induction false} InRangeMeans(rows: Batch, range: TimeRange)
    ensures LastWrite(InRange(rows, range)) == Restrict(LastWrite(rows), range)
  {
    if rows != [] {
      var n := |rows| - 1;
      InRangeMeans(rows[..n], range);
      if Contains(range, rows[n].time) {
        LastWriteSnoc(InRange(rows[..n], range), rows[n]);
      }
    }
  }

  lemma LastWriteSnoc(rows: Batch, r: Row)
    ensures LastWrite(rows + [r]) == LastWrite(rows)[r.time := r.value]
  {
    assert (rows + [r])[..|rows|] == rows;
  }

  lemma {:induction false} InRangeConcat(a: Batch, b: Batch, range: TimeRange)
    ensures InRange(a + b, range) == InRange(a, range) + InRange(b, range)
  {
    if b == [] {
      assert a + b == a;
    } else {
      var n := |b| - 1;
      InRangeConcat(a, b[..n], range);
      assert (a + b)[..|a + b| - 1] == a + b[..n];
    }
  }

  lemma RestrictSum(a: map<int, int>, b: map<int, int>, range: TimeRange)
    ensures Restrict(a + b, range) == Restrict(a, range) + Restrict(b, range)
  {
  }

  // ----- the filters themselves -----

  /** The rows every filter keeps. */
  function Selected(sem: Semantics, filters: seq<Expr>, rows: Batch): (r: Batch) {
    if rows == [] then [] else
      var n := |rows| - 1;
      var kept := Selected(sem, filters, rows[..n]);
      if AllHold(sem, filters, rows[n]) then kept + [rows[n]] else kept
  }

  lemma {:induction false} SelectedRows(sem: Semantics, filters: seq<Expr>, rows: Batch, row: Row)
    ensures row in Selected(sem, filters, rows) <==> row in rows && AllHold(sem, filters, row)
  {
    hide AllHold;
    if rows != [] {
      SelectedRows(sem, filters, rows[..|rows| - 1], row);
      assert rows == rows[..|rows| - 1] + [rows[|rows| - 1]];
    }
  }

  /** What a filter on the time keeps, written either way round. */
  lemma TimeFilters(sem: Semantics, op: Op, v: int, rows: Batch, row: Row)
    requires !op.OtherOp?
    ensures var keeps := match op
              case Lt => row.time < v
              case LtEq => row.time <= v
              case Gt => v < row.time
              case GtEq => v <= row.time
              case Eq => row.time == v;
            row in Selected(sem, [Binary(TimeColumn, op, Literal(Some(v)))], rows) <==> row in rows && keeps
    ensures var keeps := match op
              case Lt => v < row.time
              case LtEq => v <= row.time
              case Gt => row.time < v
              case GtEq => row.time <= v
              case Eq => row.time == v;
            row in Selected(sem, [Binary(Literal(Some(v)), op, TimeColumn)], rows) <==> row in rows && keeps
  {
    hide Selected;
    var f, g := Binary(TimeColumn, op, Literal(Some(v))), Binary(Literal(Some(v)), op, TimeColumn);
    SelectedRows(sem, [f], rows, row);
    SelectedRows(sem, [g], rows, row);
    assert AllHold(sem, [f], row) <==> Holds(sem, [f][0], row);
    assert AllHold(sem, [g], row) <==> Holds(sem, [g][0], row);
  }

  /** BETWEEN keeps the closed range, NOT BETWEEN what is outside it, and NULL keeps nothing. */
  lemma BetweenFilters(sem: Semantics, lo: int, hi: int, op: Op, rows: Batch, row: Row)
    ensures row in Selected(sem, [Between(TimeColumn, false, Literal(Some(lo)), Literal(Some(hi)))], rows)
            <==> row in rows && lo <= row.time <= hi
    ensures row in Selected(sem, [Between(TimeColumn, true, Literal(Some(lo)), Literal(Some(hi)))], rows)
            <==> row in rows && !(lo <= row.time <= hi)
    ensures !op.OtherOp? ==> row !in Selected(sem, [Binary(TimeColumn, op, Literal(None))], rows)
  {
    hide Selected;
    var f := Between(TimeColumn, false, Literal(Some(lo)), Literal(Some(hi)));
    var g := Between(TimeColumn, true, Literal(Some(lo)), Literal(Some(hi)));
    var h := Binary(TimeColumn, op, Literal(None));
    SelectedRows(sem, [f], rows, row);
    SelectedRows(sem, [g], rows, row);
    SelectedRows(sem, [h], rows, row);
    assert AllHold(sem, [f], row) <==> Holds(sem, [f][0], row);
    assert AllHold(sem, [g], row) <==> Holds(sem, [g][0], row);
    assert AllHold(sem, [h], row) <==> Holds(sem, [h][0], row);
  }

  /** The rows whose time no standing NOT BETWEEN refuses. */
  function Admitted(filters: seq<Expr>, rows: Batch): (r: Batch) {
    if rows == [] then [] else
      var n := |rows| - 1;
      var kept := Admitted(filters, rows[..n]);
      if Admits(filters, rows[n].time) then kept + [rows[n]] else kept
  }

  lemma {:induction false} AllAdmitted(filters: seq<Expr>, rows: Batch)
    requires !Lossy(filters)
    ensures Admitted(filters, rows) == rows
  {
    if rows != [] {
      AllAdmitted(filters, rows[..|rows| - 1]);
      LosslessAdmits(filters, rows[|rows| - 1].time);
    }
  }

  /** Filtering the pruned rows gives what filtering all of them gives, but for the rows refused. */
  lemma {:induction false} SelectPruned(sem: Semantics, filters: seq<Expr>, rows: Batch)
    ensures Selected(sem, filters, InRange(rows, Extracted(filters))) == Admitted(filters, Selected(sem, filters, rows))
  {
    hide AllHold, Extracted, Admits;
    if rows != [] {
      var n := |rows| - 1;
      SelectPruned(sem, filters, rows[..n]);
      var kept, selected := InRange(rows[..n], Extracted(filters)), Selected(sem, filters, rows[..n]);
      assert (kept + [rows[n]])[..|kept|] == kept;
      assert (selected + [rows[n]])[..|selected|] == selected;
      if AllHold(sem, filters, rows[n]) {
        ExtractionExact(sem, filters, rows[n]);
      }
    }
  }

  lemma {:induction false} NoneAdmitted(sem: Semantics, filters: seq<Expr>, rows: Batch)
    requires Lossy(filters) && ConstantBounds(filters)
    ensures Admitted(filters, Selected(sem, filters, rows)) == []
  {
    hide AllHold, Admits, Lossy, ConstantBounds;
    if rows != [] {
      var n := |rows| - 1;
      NoneAdmitted(sem, filters, rows[..n]);
      var selected := Selected(sem, filters, rows[..n]);
      assert (selected + [rows[n]])[..|selected|] == selected;
      if AllHold(sem, filters, rows[n]) {
        LossyRefuses(sem, filters, rows[n]);
      }
    }
  }

  /** The two halves together. Whatever lists the pruned meaning selects the rows of the right answer that
      no standing NOT BETWEEN refuses: all of them when none stands, and none of them when one stands and
      the bounds are constants. */
  lemma PruningPreservesAnswer(sem: Semantics, filters: seq<Expr>, full: Batch, pruned: Batch, m: map<int, int>)
    requires Lists(full, m) && Lists(pruned, Restrict(m, Extracted(filters)))
    ensures Selected(sem, filters, pruned) == Admitted(filters, Selected(sem, filters, full))
    ensures !Lossy(filters) ==> Selected(sem, filters, pruned) == Selected(sem, filters, full)
    ensures Lossy(filters) && ConstantBounds(filters) ==> Selected(sem, filters, pruned) == []
  {
    hide Lossy, ConstantBounds, Extracted, Selected, Admitted;
    var range := Extracted(filters);
    InRangeMeans(full, range);
    InRangeStrict(full, range);
    ListsAgree(pruned, InRange(full, range), Restrict(m, range));
    SelectPruned(sem, filters, full);
    if !Lossy(filters) {
      AllAdmitted(filters, Selected(sem, filters, full));
    } else if ConstantBounds(filters) {
      NoneAdmitted(sem, filters, full);
    }
  }
}
