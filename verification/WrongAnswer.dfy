/** A table, two puts and a query: the answer of a scan over a memtable that is not scannable. */
module WrongAnswer {
  import opened Rows
  import opened Sst
  import opened WriteLog
  import opened Buffers
  import opened Dedup
  import opened Filter
  import opened Pruning
  import opened Table
  import opened LsmTable
  import MemScan
  import TableRuns

  lemma LeadsAlike(s: State, steps: seq<TableRuns.Step>, a: State, b: State)
    requires TableRuns.Leads(s, steps, a) && TableRuns.Leads(s, steps, b)
    ensures a == b
  {
  }

  /** What a put into a table does, read off its steps. */
  lemma PutTook(s: State, batch: Batch, capacity: nat, end: State)
    requires s.next < U64_MAX && 0 < capacity && TableRuns.Leads(s, [TableRuns.PutStep(batch, capacity)], end)
    ensures end == Put(s, batch, capacity) && (StateOk(s) ==> StateOk(end))
  {
    hide TableRuns.Leads, StateOk, Put;
    var step := TableRuns.PutStep(batch, capacity);
    assert TableRuns.Possible(s, step);
    TableRuns.LeadsOne(s, step);
    LeadsAlike(s, [step], end, TableRuns.After(s, step));
    if StateOk(s) {
      PutOk(s, batch, capacity);
    }
  }

  const TWO_PUTS := MemTable(0, [OVERLAPPING[0]], OVERLAPPING[1], 1, 2)

  /** With room for three rows, the first put fills a chunk and the second starts another. */
  lemma Buffered()
    ensures var m := InsertRows(RecordLsn(Fresh(0), 1), OVERLAPPING[0], 3);
            InsertRows(RecordLsn(m, 2), OVERLAPPING[1], 3) == TWO_PUTS
    ensures Seal(TWO_PUTS).frozen == OVERLAPPING && MemRows(TWO_PUTS) != []
  {
    var a, b := OVERLAPPING[0], OVERLAPPING[1];
    assert [] + a == a && a[..3] == a && a[3..] == [] && [] + b == b;
    assert Pieces(a, 3) == [a] && Tail(a, 3) == [];
    assert Pieces(b, 3) == [] && Tail(b, 3) == b;
    assert [] + [a] == [a] && [a] + [] == [a] && [a] + [b] == OVERLAPPING;
  }

  /** Two puts into a new table and a query without filters: the answer is not the last write of each time. */
  method UnscannableAnswer(sem: Semantics) returns (t: LsmTable, answer: Batch)
    ensures fresh(t) && t.WellFormed() && t.log == [Write(1, OVERLAPPING[0]), Write(2, OVERLAPPING[1])]
    ensures !Lists(answer, LastWrite(LogRows(t.log)))
  {
    hide Numbered, StateOk, Shaped, LogRows, LastWrite, Lists, MemRows, InsertRows, RecordLsn, Seal, Selected, Admitted, Lossy,
      TableRuns.Leads, TableRuns.AllClean, Unmarked;
    t := new LsmTable(3);
    ghost var s0 := t.Abs();
    var first := t.PutBatch(OVERLAPPING[0], false);
    ghost var s1 := t.Abs();
    assert first == [TableRuns.PutStep(OVERLAPPING[0], 3)];
    PutTook(s0, OVERLAPPING[0], 3, s1);
    var second := t.PutBatch(OVERLAPPING[1], false);
    assert second == [TableRuns.PutStep(OVERLAPPING[1], 3)];
    PutTook(s1, OVERLAPPING[1], 3, t.Abs());
    Buffered();
    MemScan.UnscannableMemtable();
    assert t.mutable == TWO_PUTS && t.Valid();
    ghost var scan;
    answer, scan := t.Query(sem, []);
  }
}
