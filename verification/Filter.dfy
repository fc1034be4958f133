/** Time pruning (src/query/src/filter.rs): bounds on the time column are read off the filters of a
query, so that whole files and rows outside them need not be merged. */
module Filter {
  import opened Rows

  /** An operand of a comparison: the time column, a literal already in the column's unit (`None` for
      NULL), or anything else, whose value is known only row by row. */
  datatype Operand = TimeColumn | Literal(value: Option<int>) | Computed(id: nat)

  datatype Op = Lt | LtEq | Gt | GtEq | Eq | OtherOp(id: nat)

  datatype Expr =
    | Binary(left: Operand, op: Op, right: Operand)
    | Between(subject: Operand, negated: bool, low: Operand, high: Operand)
    | Alias(inner: Expr)
    | Opaque(id: nat)

  /** What the parts of a filter that extraction does not look at mean on a row. */
  datatype Semantics = Semantics(
    operand: (nat, Row) -> Option<int>,
    operator: (nat, Option<int>, Option<int>) -> bool,
    condition: (nat, Row) -> bool)

  function Eval(sem: Semantics, e: Operand, row: Row): (v: Option<int>) {
    match e
    case TimeColumn => Some(row.time)
    case Literal(v) => v
    case Computed(id) => sem.operand(id, row)
  }

  /** SQL comparison: never true on NULL. */
  predicate Compare(sem: Semantics, op: Op, a: Option<int>, b: Option<int>) {
    if op.OtherOp? then sem.operator(op.id, a, b) else
      a.Some? && b.Some? &&
      match op
      case Lt => a.value < b.value
      case LtEq => a.value <= b.value
      case Gt => a.value > b.value
      case GtEq => a.value >= b.value
      case Eq => a.value == b.value
  }

  /** Whether the filter keeps the row. NOT BETWEEN is true as soon as one side is known to fail. */
  predicate Holds(sem: Semantics, e: Expr, row: Row) {
    match e
    case Binary(l, op, r) => Compare(sem, op, Eval(sem, l, row), Eval(sem, r, row))
    case Between(s, negated, low, high) =>
      var x, lo, hi := Eval(sem, s, row), Eval(sem, low, row), Eval(sem, high, row);
      if negated then Compare(sem, Lt, x, lo) || Compare(sem, Gt, x, hi)
      else Compare(sem, GtEq, x, lo) && Compare(sem, LtEq, x, hi)
    case Alias(inner) => Holds(sem, inner, row)
    case Opaque(id) => sem.condition(id, row)
  }

  predicate AllHold(sem: Semantics, filters: seq<Expr>, row: Row) {
    forall i :: 0 <= i < |filters| ==> Holds(sem, filters[i], row)
  }

  // ----- ranges -----

  datatype TimeRange = TimeRange(minTs: Option<int>, maxTs: Option<int>)

  const EVERYTHING := TimeRange(None, None)

  predicate Contains(range: TimeRange, t: int) {
    && (range.minTs.Some? ==> range.minTs.value <= t)
    && (range.maxTs.Some? ==> t <= range.maxTs.value)
  }

  predicate Overlaps(range: TimeRange, fileMin: int, fileMax: int) {
    if range.minTs.Some? && fileMax < range.minTs.value then false
    else if range.maxTs.Some? && fileMin > range.maxTs.value then false
    else true
  }

  predicate EmptyRange(range: TimeRange) {
    range.minTs.Some? && range.maxTs.Some? && range.minTs.value > range.maxTs.value
  }

  /** A file is skipped exactly when no time of its span can be in the range, unless the range itself
      is empty. */
  lemma OverlapsExactly(range: TimeRange, fileMin: int, fileMax: int)
    requires fileMin <= fileMax
    ensures (exists t :: fileMin <= t <= fileMax && Contains(range, t)) <==>
              Overlaps(range, fileMin, fileMax) && !EmptyRange(range)
  {
    if range.minTs.Some? && range.minTs.value >= fileMin {
      assert Overlaps(range, fileMin, fileMax) && (range.maxTs.Some? ==> range.minTs.value <= range.maxTs.value) ==>
          Contains(range, range.minTs.value);
    } else {
      assert Overlaps(range, fileMin, fileMax) ==> Contains(range, fileMin);
    }
  }

  // ----- extraction -----

  function RaiseMin(range: TimeRange, v: int): (r: TimeRange) {
    range.(minTs := Some(if range.minTs.Some? && range.minTs.value > v then range.minTs.value else v))
  }

  function LowerMax(range: TimeRange, v: int): (r: TimeRange) {
    range.(maxTs := Some(if range.maxTs.Some? && range.maxTs.value < v then range.maxTs.value else v))
  }

  function ScalarToI64(e: Operand): (v: Option<int>) {
    if e.Literal? then e.value else None
  }

  function ApplyTsOp(range: TimeRange, op: Op, right: Operand): (r: TimeRange) {
    match ScalarToI64(right)
    case None => range
    case Some(v) =>
      match op
      case Gt => RaiseMin(range, v)
      case GtEq => RaiseMin(range, v)
      case Lt => LowerMax(range, v)
      case LtEq => LowerMax(range, v)
      case Eq => TimeRange(Some(v), Some(v))
      case OtherOp(_) => range
  }

  function ApplyTsOpReversed(range: TimeRange, op: Op, left: Operand): (r: TimeRange) {
    match ScalarToI64(left)
    case None => range
    case Some(v) =>
      match op
      case Lt => RaiseMin(range, v)
      case LtEq => RaiseMin(range, v)
      case Gt => LowerMax(range, v)
      case GtEq => LowerMax(range, v)
      case Eq => TimeRange(Some(v), Some(v))
      case OtherOp(_) => range
  }

  function ExtractFromExpr(e: Expr, range: TimeRange): (r: TimeRange) {
    match e
    case Binary(l, op, r) =>
      if l.TimeColumn? then ApplyTsOp(range, op, r)
      else if r.TimeColumn? then ApplyTsOpReversed(range, op, l)
      else range
    case Between(s, _, low, high) =>
      if !s.TimeColumn? then range else
        var lo, hi := ScalarToI64(low), ScalarToI64(high);
        var raised := if lo.Some? then RaiseMin(range, lo.value) else range;
        if hi.Some? then LowerMax(raised, hi.value) else raised
    case Alias(inner) => ExtractFromExpr(inner, range)
    case Opaque(_) => range
  }

  function Extracted(filters: seq<Expr>): (r: TimeRange) {
    if filters == [] then EVERYTHING else
      ExtractFromExpr(filters[|filters| - 1], Extracted(filters[..|filters| - 1]))
  }

  method ExtractTimeRange(filters: seq<Expr>) returns (range: TimeRange)
    ensures range == Extracted(filters)
    ensures !Lossy(filters) ==> forall sem, row :: AllHold(sem, filters, row) ==> Contains(range, row.time)
  {
    range := EVERYTHING;
    for i := 0 to |filters|
      invariant range == Extracted(filters[..i])
    {
      assert filters[..i + 1][..i] == filters[..i];
      range := ExtractFromExpr(filters[i], range);
    }
    assert filters[..|filters|] == filters;
    forall sem, row | !Lossy(filters) && AllHold(sem, filters, row)
      ensures Contains(range, row.time)
    {
      ExtractionSound(sem, filters, row);
    }
  }

  // ----- when extraction keeps every row -----

  function Bare(e: Expr): (b: Expr)
    ensures !b.Alias?
  {
    if e.Alias? then Bare(e.inner) else e
  }

  /** A comparison that pins the time: it replaces whatever was extracted before it. */
  predicate Pins(e: Expr) {
    var b := Bare(e);
    b.Binary? && b.op == Eq
    && (if b.left.TimeColumn? then ScalarToI64(b.right).Some? else b.right.TimeColumn? && ScalarToI64(b.left).Some?)
  }

  /** A NOT BETWEEN on the time column with a bound that extraction will use the wrong way round. */
  predicate Inverted(e: Expr) {
    var b := Bare(e);
    b.Between? && b.negated && b.subject.TimeColumn? && (ScalarToI64(b.low).Some? || ScalarToI64(b.high).Some?)
  }

  /** Some NOT BETWEEN is not overridden by a later equality. */
  predicate Lossy(filters: seq<Expr>) {
    if filters == [] then false else
      var last := filters[|filters| - 1];
      !Pins(last) && (Inverted(last) || Lossy(filters[..|filters| - 1]))
  }

  lemma {:induction false} BareSame(sem: Semantics, e: Expr, range: TimeRange, row: Row)
    ensures ExtractFromExpr(e, range) == ExtractFromExpr(Bare(e), range)
    ensures Holds(sem, e, row) <==> Holds(sem, Bare(e), row)
  {
    if e.Alias? {
      BareSame(sem, e.inner, range, row);
    }
  }

  /** An inverted NOT BETWEEN lets a time through only inside its literal bounds. */
  predicate Allows(e: Expr, t: int) {
    var b := Bare(e);
    Inverted(e) ==>
      && (ScalarToI64(b.low).Some? ==> ScalarToI64(b.low).value <= t)
      && (ScalarToI64(b.high).Some? ==> t <= ScalarToI64(b.high).value)
  }

  /** Every NOT BETWEEN still standing after the last equality lets `t` through. */
  predicate Admits(filters: seq<Expr>, t: int) {
    if filters == [] then true else
      var last := filters[|filters| - 1];
      Pins(last) || (Allows(last, t) && Admits(filters[..|filters| - 1], t))
  }

  lemma {:induction false} BinaryExact(sem: Semantics, l: Operand, op: Op, r: Operand, range: TimeRange, row: Row)
    requires Holds(sem, Binary(l, op, r), row)
    ensures Contains(ExtractFromExpr(Binary(l, op, r), range), row.time) <==>
              Pins(Binary(l, op, r)) || Contains(range, row.time)
  {
  }

  lemma {:induction false} BetweenExact(sem: Semantics, e: Expr, range: TimeRange, row: Row)
    requires e.Between? && Holds(sem, e, row)
    ensures Contains(ExtractFromExpr(e, range), row.time) <==> Allows(e, row.time) && Contains(range, row.time)
  {
  }

  lemma {:induction false} StepExact(sem: Semantics, e: Expr, range: TimeRange, row: Row)
    requires Holds(sem, e, row)
    ensures Contains(ExtractFromExpr(e, range), row.time) <==>
              Pins(e) || (Allows(e, row.time) && Contains(range, row.time))
  {
    hide Compare, Eval, Contains, ApplyTsOp, ApplyTsOpReversed, RaiseMin, LowerMax;
    BareSame(sem, e, range, row);
    var b := Bare(e);
    if b.Binary? {
      BinaryExact(sem, b.left, b.op, b.right, range, row);
    } else if b.Between? {
      BetweenExact(sem, b, range, row);
    }
  }

  /** Exactly when a row the filters keep lies in the range extracted from them: when its time is inside
      the literal bounds of every NOT BETWEEN that no later equality overrides. */
  lemma {:induction false} ExtractionExact(sem: Semantics, filters: seq<Expr>, row: Row)
    requires AllHold(sem, filters, row)
    ensures Contains(Extracted(filters), row.time) <==> Admits(filters, row.time)
  {
    hide Allows, Pins, ExtractFromExpr;
    if filters != [] {
      var n := |filters| - 1;
      assert AllHold(sem, filters[..n], row);
      ExtractionExact(sem, filters[..n], row);
      StepExact(sem, filters[n], Extracted(filters[..n]), row);
    }
  }

  /** With no NOT BETWEEN standing, every time is let through. */
  lemma {:induction false} LosslessAdmits(filters: seq<Expr>, t: int)
    requires !Lossy(filters)
    ensures Admits(filters, t)
  {
    if filters != [] && !Pins(filters[|filters| - 1]) {
      LosslessAdmits(filters[..|filters| - 1], t);
    }
  }

  /** Every row the filters keep lies in the extracted range, unless a NOT BETWEEN got in the way. */
  lemma ExtractionSound(sem: Semantics, filters: seq<Expr>, row: Row)
    requires AllHold(sem, filters, row) && !Lossy(filters)
    ensures Contains(Extracted(filters), row.time)
  {
    ExtractionExact(sem, filters, row);
    LosslessAdmits(filters, row.time);
  }

  /** Both bounds of every NOT BETWEEN on the time column are constants. */
  predicate ConstantBounds(filters: seq<Expr>) {
    forall i :: 0 <= i < |filters| ==>
      (var b := Bare(filters[i]);
       b.Between? && b.negated && b.subject.TimeColumn? ==> b.low.Literal? && b.high.Literal?)
  }

  /** A NOT BETWEEN with constant bounds lets through no row that it keeps. */
  lemma {:induction false} InvertedRefuses(sem: Semantics, e: Expr, row: Row)
    requires Holds(sem, e, row) && Inverted(e) && Bare(e).low.Literal? && Bare(e).high.Literal?
    ensures !Allows(e, row.time)
  {
    BareSame(sem, e, EVERYTHING, row);
  }

  lemma {:induction false} LossyRefuses(sem: Semantics, filters: seq<Expr>, row: Row)
    requires AllHold(sem, filters, row) && ConstantBounds(filters) && Lossy(filters)
    ensures !Admits(filters, row.time)
  {
    var n := |filters| - 1;
    assert AllHold(sem, filters[..n], row) && ConstantBounds(filters[..n]);
    if Inverted(filters[n]) {
      InvertedRefuses(sem, filters[n], row);
    } else {
      LossyRefuses(sem, filters[..n], row);
    }
  }

  /** When the bounds are constants, one standing NOT BETWEEN costs every row of the answer, and nothing
      else costs any. */
  lemma AllOrNothing(sem: Semantics, filters: seq<Expr>, row: Row)
    ensures AllHold(sem, filters, row) && ConstantBounds(filters) ==>
              (Contains(Extracted(filters), row.time) <==> !Lossy(filters))
  {
    if AllHold(sem, filters, row) && ConstantBounds(filters) {
      ExtractionExact(sem, filters, row);
      if Lossy(filters) {
        LossyRefuses(sem, filters, row);
      } else {
        LosslessAdmits(filters, row.time);
      }
    }
  }

  /** NOT BETWEEN 5 AND 9 keeps time 3, and the range extracted from it is 5 to 9. */
  lemma NotBetweenLosesRows(sem: Semantics)
    ensures var f := Between(TimeColumn, true, Literal(Some(5)), Literal(Some(9)));
            && AllHold(sem, [f], Row(3, 0)) && !Contains(Extracted([f]), 3)
            && Extracted([f]) == TimeRange(Some(5), Some(9))
  {
    var f := Between(TimeColumn, true, Literal(Some(5)), Literal(Some(9)));
    assert [f][..0] == [];
  }
}
