/** Civil dates to day numbers (src/core/src/sql/insert.rs, days_from_civil): a closed form that is meant
to agree with counting days one at a time over the proleptic Gregorian calendar, for any year. */
module Calendar {
  import opened Rows

  datatype Date = Date(year: int, month: int, day: int)

  predicate Leap(y: int) {
    y % 4 == 0 && (y % 100 != 0 || y % 400 == 0)
  }

  function MonthLength(y: int, m: int): (n: int)
    ensures 28 <= n <= 31
  {
    if m == 2 then (if Leap(y) then 29 else 28)
    else if m == 4 || m == 6 || m == 9 || m == 11 then 30
    else 31
  }

  predicate Valid(d: Date) {
    1 <= d.month <= 12 && 1 <= d.day <= MonthLength(d.year, d.month)
  }

  /** The calendar day after. */
  function NextDay(d: Date): (n: Date)
    requires Valid(d)
    ensures Valid(n)
  {
    if d.day < MonthLength(d.year, d.month) then Date(d.year, d.month, d.day + 1)
    else if d.month < 12 then Date(d.year, d.month + 1, 1)
    else Date(d.year + 1, 1, 1)
  }

  // ----- the closed form, with division truncating toward zero -----

  function Quotient(a: int, b: int): (q: int)
    requires b > 0
  {
    if a >= 0 then a / b else -(-a / b)
  }

  function DaysFromCivil(year: int, m: int, d: int): (days: int) {
    var y := if m <= 2 then year - 1 else year;
    var era := Quotient(if y >= 0 then y else y - 399, 400);
    var yoe := y - era * 400;
    var doy := Quotient(153 * (if m > 2 then m - 3 else m + 9) + 2, 5) + d - 1;
    var doe := yoe * 365 + Quotient(yoe, 4) - Quotient(yoe, 100) + doy;
    era * 146097 + doe - 719468
  }

  function Days(d: Date): (days: int) {
    DaysFromCivil(d.year, d.month, d.day)
  }

  // ----- the same, with floors -----

  lemma EraIsFloor(y: int)
    ensures Quotient(if y >= 0 then y else y - 399, 400) == y / 400
  {
    if y < 0 {
      var q, r := y / 400, y % 400;
      assert y == 400 * q + r && 0 <= r < 400;
      assert 399 - y == 400 * (-q) + (399 - r);
    }
  }

  /** Days before the first of March of year `y`, counted from year 0. */
  function YearStart(y: int): (n: int) {
    365 * y + y / 4 - y / 100 + y / 400
  }

  lemma EraSplit(y: int)
    ensures var e, r := y / 400, y % 400;
            e * 146097 + r * 365 + r / 4 - r / 100 == YearStart(y) && 0 <= r
  {
    var e, r := y / 400, y % 400;
    assert y == 400 * e + r;
    Shifted(e, r, 4, 100);
    Shifted(e, r, 100, 4);
  }

  lemma Shifted(e: int, r: int, k: int, m: int)
    requires (k == 4 && m == 100) || (k == 100 && m == 4)
    ensures (400 * e + r) / k == m * e + r / k
  {
    if k == 4 {
      assert 400 * e + r == 4 * (100 * e + r / 4) + r % 4;
    } else {
      assert 400 * e + r == 100 * (4 * e + r / 100) + r % 100;
    }
  }

  function MarchMonth(m: int): (mp: int) {
    if m > 2 then m - 3 else m + 9
  }

  function MonthStart(mp: int): (n: int) {
    (153 * mp + 2) / 5
  }

  lemma FloorForm(d: Date)
    requires 1 <= d.month <= 12
    ensures var y := if d.month <= 2 then d.year - 1 else d.year;
            Days(d) == YearStart(y) + MonthStart(MarchMonth(d.month)) + d.day - 1 - 719468
  {
    var y := if d.month <= 2 then d.year - 1 else d.year;
    EraIsFloor(y);
    EraSplit(y);
    assert y - y / 400 * 400 == y % 400;
  }

  // ----- month by month -----

  lemma FloorStep(y: int, k: int)
    requires k == 4 || k == 100 || k == 400
    ensures (y + 1) / k - y / k == if (y + 1) % k == 0 then 1 else 0
  {
  }

  lemma YearLength(y: int)
    ensures YearStart(y + 1) - YearStart(y) == if Leap(y + 1) then 366 else 365
  {
    FloorStep(y, 4);
    FloorStep(y, 100);
    FloorStep(y, 400);
    Nested(y + 1);
  }

  lemma Nested(y: int)
    ensures y % 400 == 0 ==> y % 100 == 0
    ensures y % 100 == 0 ==> y % 4 == 0
  {
    var a, b := y / 400, y / 100;
    Multiple100(4 * a);
    Multiple4(25 * b);
  }

  lemma Multiple100(q: int)
    ensures (100 * q) % 100 == 0
  {
  }

  lemma Multiple4(q: int)
    ensures (4 * q) % 4 == 0
  {
  }

  function Index(y: int, m: int): (k: int) { 12 * y + m - 1 }

  /** From March to January the month lengths follow the 153-days-in-five-months rule. */
  lemma MonthStep(y: int, m: int)
    requires 1 <= m <= 12 && m != 2
    ensures MonthStart(MarchMonth(if m == 12 then 1 else m + 1)) == MonthStart(MarchMonth(m)) + MonthLength(y, m)
  {
  }

  /** Each month starts where the one before it ends. */
  lemma MonthChain(y: int, m: int)
    requires 1 <= m <= 12
    ensures var ny, nm := if m == 12 then y + 1 else y, if m == 12 then 1 else m + 1;
            Days(Date(ny, nm, 1)) == Days(Date(y, m, 1)) + MonthLength(y, m)
  {
    hide Days, YearStart, Leap, MonthStart;
    var ny, nm := if m == 12 then y + 1 else y, if m == 12 then 1 else m + 1;
    FloorForm(Date(y, m, 1));
    FloorForm(Date(ny, nm, 1));
    if m == 2 {
      YearLength(y - 1);
      FebruaryStart();
    } else {
      MonthStep(y, m);
    }
  }

  lemma FebruaryStart()
    ensures MonthStart(MarchMonth(2)) == 337 && MonthStart(MarchMonth(3)) == 0
  {
  }

  lemma DayInMonth(d: Date)
    requires 1 <= d.month <= 12
    ensures Days(d) == Days(Date(d.year, d.month, 1)) + d.day - 1
  {
    FloorForm(d);
    FloorForm(Date(d.year, d.month, 1));
  }

  /** The next calendar day is exactly one more. */
  lemma NextIsOneMore(d: Date)
    requires Valid(d)
    ensures Days(NextDay(d)) == Days(d) + 1
  {
    DayInMonth(d);
    DayInMonth(NextDay(d));
    MonthChain(d.year, d.month);
  }

  lemma Epoch()
    ensures Days(Date(1970, 1, 1)) == 0
  {
  }

  /** Counting `n` days on from a date. */
  function Advance(d: Date, n: nat): (r: Date)
    requires Valid(d)
    ensures Valid(r)
  {
    if n == 0 then d else NextDay(Advance(d, n - 1))
  }

  /** The closed form counts days: from any date, `n` steps of the calendar are `n` more. */
  lemma {:induction false} ClosedFormCounts(d: Date, n: nat)
    requires Valid(d)
    ensures Days(Advance(d, n)) == Days(d) + n
  {
    if n > 0 {
      ClosedFormCounts(d, n - 1);
      NextIsOneMore(Advance(d, n - 1));
    }
  }

  // ----- no two dates share a number -----

  function MonthOf(k: int): (m: int) { k % 12 + 1 }
  function YearOf(k: int): (y: int) { k / 12 }

  lemma IndexBack(y: int, m: int)
    requires 1 <= m <= 12
    ensures YearOf(Index(y, m)) == y && MonthOf(Index(y, m)) == m
  {
  }

  function FirstOf(k: int): (n: int) { Days(Date(YearOf(k), MonthOf(k), 1)) }

  lemma NextMonth(k: int)
    ensures FirstOf(k + 1) == FirstOf(k) + MonthLength(YearOf(k), MonthOf(k))
  {
    hide Days;
    MonthChain(YearOf(k), MonthOf(k));
  }

  lemma {:induction false} MonthsIncrease(a: int, b: int)
    requires a < b
    ensures FirstOf(a) + MonthLength(YearOf(a), MonthOf(a)) <= FirstOf(b)
    decreases b - a
  {
    hide FirstOf, MonthLength;
    NextMonth(b - 1);
    if a < b - 1 {
      MonthsIncrease(a, b - 1);
    }
  }

  predicate Before(a: Date, b: Date) {
    a.year < b.year || (a.year == b.year && (a.month < b.month || (a.month == b.month && a.day < b.day)))
  }

  /** Later dates have greater numbers. */
  lemma OrderPreserved(a: Date, b: Date)
    requires Valid(a) && Valid(b) && Before(a, b)
    ensures Days(a) < Days(b)
  {
    DayInMonth(a);
    DayInMonth(b);
    IndexBack(a.year, a.month);
    IndexBack(b.year, b.month);
    if a.year < b.year || a.month < b.month {
      MonthsIncrease(Index(a.year, a.month), Index(b.year, b.month));
    }
  }

  lemma Injective(a: Date, b: Date)
    requires Valid(a) && Valid(b) && Days(a) == Days(b)
    ensures a == b
  {
    if Before(a, b) {
      OrderPreserved(a, b);
    } else if Before(b, a) {
      OrderPreserved(b, a);
    }
  }

  /** Every later date is reached by counting, and the closed form says in how many steps. */
  lemma CountedExactly(a: Date, b: Date)
    requires Valid(a) && Valid(b) && Days(a) <= Days(b)
    ensures Advance(a, Days(b) - Days(a)) == b
  {
    hide Days, Advance, MonthLength;
    ClosedFormCounts(a, Days(b) - Days(a));
    Injective(Advance(a, Days(b) - Days(a)), b);
  }

  // ----- what the literal's guard lets through -----

  /** The guard of the date literal: a month of the year and a day up to 31, whatever the month. */
  predicate Accepted(d: Date) {
    1 <= d.month <= 12 && 1 <= d.day <= 31
  }

  /** The number a date literal is stored as, if the guard lets it through. */
  function LiteralDays(d: Date): (days: Option<int>) {
    if Accepted(d) then Some(Days(d)) else None
  }

  /** Every real date is accepted, and of two real dates the later gets the greater number. */
  lemma RealDatesStored(a: Date, b: Date)
    requires Valid(a) && Valid(b)
    ensures LiteralDays(a).Some? && LiteralDays(b).Some?
    ensures Before(a, b) <==> LiteralDays(a).value < LiteralDays(b).value
  {
    hide Days;
    if Before(a, b) {
      OrderPreserved(a, b);
    } else if Before(b, a) {
      OrderPreserved(b, a);
    }
  }

  /** What is accepted and not real is one of the few days past the end of a short month. */
  lemma AcceptedExactly(d: Date)
    ensures LiteralDays(d).Some? <==> Valid(d) || (Valid(d.(day := 28)) && 28 < d.day <= 31)
  {
    hide Days, Leap;
  }

  /** An accepted date that does not exist has the number of one early in the next month. */
  lemma RollsOver(d: Date)
    requires Accepted(d) && !Valid(d)
    ensures var e := Date(d.year, d.month + 1, d.day - MonthLength(d.year, d.month));
            Valid(e) && e.day <= 3 && Days(e) == Days(d)
  {
    var e := Date(d.year, d.month + 1, d.day - MonthLength(d.year, d.month));
    hide Days, Leap;
    MonthChain(d.year, d.month);
    DayInMonth(d);
    DayInMonth(e);
  }

  /** An accepted literal is stored as the number of another date exactly when it names no real one. */
  lemma ImpossibleDatesCollide(d: Date)
    requires Accepted(d)
    ensures (exists e :: Valid(e) && e != d && Days(e) == Days(d)) <==> !Valid(d)
  {
    hide Days, MonthLength;
    if Valid(d) {
      forall e | Valid(e) && Days(e) == Days(d) ensures e == d {
        Injective(e, d);
      }
    } else {
      RollsOver(d);
    }
  }

  lemma FebruaryThirtyFirst()
    ensures Accepted(Date(2021, 2, 31)) && Days(Date(2021, 2, 31)) == Days(Date(2021, 3, 3))
  {
  }
}
