/**
 * Integer arithmetic on dates, timestamps and intervals, string
 * concatenation with the short-string inline layout, int64 modulo, and the
 * type dispatch that picks the result type of a numeric operation on values.
 *
 * C++ integer `/` and `%` truncate toward zero; TDiv and TMod model them.
 * Signed overflow is undefined behaviour in C++, so every operation requires
 * that its intermediate and final values fit their C++ types.
 *
 * Date::Convert, Date::MonthDays, Date::FromDate, Timestamp::Convert and
 * Timestamp::FromDatetime live in the date and timestamp sources, which are
 * not part of this model: a Calendar value supplies them, and each operation
 * requires only what it relies on of them (a converted month lies in 1..12, a
 * converted time of day lies in [0, MICROS_PER_DAY)).
 */
module ArithmeticOperations {
  import opened Wrappers

  type int32 = x: int | -0x8000_0000 <= x < 0x8000_0000
  type int64 = x: int | -0x8000_0000_0000_0000 <= x < 0x8000_0000_0000_0000
  type uint32 = x: int | 0 <= x < 0x1_0000_0000
  type byte = x: int | 0 <= x < 0x100

  predicate InInt32(x: int) { -0x8000_0000 <= x < 0x8000_0000 }
  predicate InInt64(x: int) { -0x8000_0000_0000_0000 <= x < 0x8000_0000_0000_0000 }

  const MONTHS_PER_YEAR: int := 12
  const DAYS_PER_MONTH: int := 30
  const MICROS_PER_DAY: int := 86_400_000_000

  // ---------------------------------------------------------------------
  // Truncating division
  // ---------------------------------------------------------------------

  function Abs(x: int): nat { if x < 0 then -x else x }

  /** C++ `a / b`: the quotient rounded toward zero. */
  function TDiv(a: int, b: int): int
    requires b != 0
  {
    if (a < 0) == (b < 0) then Abs(a) / Abs(b) else -(Abs(a) / Abs(b))
  }

  /** C++ `a % b`: the remainder that goes with TDiv, carrying the sign of `a`. */
  function TMod(a: int, b: int): int
    requires b != 0
  {
    if a < 0 then -(Abs(a) % Abs(b)) else Abs(a) % Abs(b)
  }

  /** Multiplying by a positive natural does not make a natural smaller. */
  lemma MulMono(q: nat, y: nat)
    requires y > 0
    ensures q <= q * y
  {
    var k := y - 1;
    assert q * y == q * (k + 1) == q * k + q;
  }

  /** Euclidean division of naturals, the building block of TDiv and TMod. */
  lemma NatDivMod(x: nat, y: nat)
    requires y > 0
    ensures x == (x / y) * y + x % y
    ensures 0 <= x % y < y
    ensures 0 <= x / y <= x
  {
    var q := x / y;
    assert x == q * y + x % y;
    MulMono(q, y);
  }

  /** How negation moves through a product. */
  lemma MulSigns(q: int, y: int)
    ensures (-q) * y == -(q * y)
    ensures q * (-y) == -(q * y)
    ensures (-q) * (-y) == q * y
  {
  }

  /** Quotient and remainder reassemble the dividend; the remainder is smaller than the divisor and follows the dividend's sign. */
  lemma TDivMod(a: int, b: int)
    requires b != 0
    ensures a == TDiv(a, b) * b + TMod(a, b)
    ensures Abs(TMod(a, b)) < Abs(b)
    ensures a >= 0 ==> TMod(a, b) >= 0
    ensures a <= 0 ==> TMod(a, b) <= 0
    ensures Abs(TDiv(a, b)) <= Abs(a)
  {
    var x: int, y: int := Abs(a), Abs(b);
    var q: int, r: int := x / y, x % y;
    NatDivMod(x, y);
    MulSigns(q, y);
    if a >= 0 && b > 0 {
      assert a == x && b == y;
      assert TDiv(a, b) == q && TMod(a, b) == r;
    } else if a >= 0 {
      assert a == x && b == -y;
      assert TDiv(a, b) == -q && TMod(a, b) == r;
    } else if b > 0 {
      assert a == -x && b == y;
      assert TDiv(a, b) == -q && TMod(a, b) == -r;
    } else {
      assert a == -x && b == -y;
      assert TDiv(a, b) == q && TMod(a, b) == -r;
    }
  }

  /** Truncation is symmetric: negating the dividend negates the quotient. */
  lemma TDivNegate(a: int, b: int)
    requires b != 0
    ensures TDiv(-a, b) == -TDiv(a, b)
  {
    assert Abs(-a) == Abs(a);
    if a == 0 {
      assert TDiv(a, b) == 0 && TDiv(-a, b) == 0;
    } else if (a < 0) == (b < 0) {
      assert (-a < 0) != (b < 0);
      assert TDiv(-a, b) == -(Abs(a) / Abs(b));
    } else {
      assert (-a < 0) == (b < 0);
      assert TDiv(a, b) == -(Abs(a) / Abs(b));
    }
  }

  // ---------------------------------------------------------------------
  // Dates, times, timestamps and intervals
  // ---------------------------------------------------------------------

  /** date_t: days since 1970-01-01. */
  datatype Date = Date(days: int32)
  /** dtime_t: microseconds since midnight. */
  datatype DTime = DTime(micros: int64)
  /** timestamp_t: microseconds since 1970-01-01 00:00:00. */
  datatype Timestamp = Timestamp(value: int64)
  datatype Interval = Interval(months: int32, days: int32, micros: int64)
  /** The (year, month, day) triple Date::Convert produces and Date::FromDate consumes. */
  datatype CivilDate = CivilDate(year: int, month: int, day: int)

  /** The date and timestamp conversions this file calls but does not define. */
  datatype Calendar = Calendar(
    convert: Date -> CivilDate,
    monthDays: (int, int) -> int,
    fromDate: CivilDate -> Date,
    splitTimestamp: Timestamp -> (Date, DTime),
    fromDatetime: (Date, DTime) -> Timestamp)

  /** The length of an interval in microseconds, counting a month as DAYS_PER_MONTH days. */
  function IntervalMicros(i: Interval): int
  {
    (i.months * DAYS_PER_MONTH + i.days) * MICROS_PER_DAY + i.micros
  }

  /**
   * Moves a civil date by `months` months (year_diff, then one carry or
   * borrow of a year). The result's month lies in 1..12 and the count of
   * months since year 0 grows by exactly `months`; the day is not touched.
   */
  function AddMonthsToCivil(c: CivilDate, months: int32): (r: CivilDate)
    requires 1 <= c.month <= MONTHS_PER_YEAR
    ensures 1 <= r.month <= MONTHS_PER_YEAR
    ensures r.year * MONTHS_PER_YEAR + r.month == c.year * MONTHS_PER_YEAR + c.month + months
    ensures r.day == c.day
  {
    var yearDiff := TDiv(months, MONTHS_PER_YEAR);
    var year := c.year + yearDiff;
    var month := c.month + (months - yearDiff * MONTHS_PER_YEAR);
    TDivMod(months, MONTHS_PER_YEAR);
    if month > MONTHS_PER_YEAR then CivilDate(year + 1, month - MONTHS_PER_YEAR, c.day)
    else if month <= 0 then CivilDate(year - 1, month + MONTHS_PER_YEAR, c.day)
    else CivilDate(year, month, c.day)
  }

  /**
   * The month step of `date + interval`: with months != 0, the date converted
   * to (year, month, day), moved by the months and with its day clamped to the
   * length of the new month; with months == 0, no change at all.
   */
  function ShiftMonths(cal: Calendar, left: Date, months: int32): (r: CivilDate)
    requires 1 <= cal.convert(left).month <= MONTHS_PER_YEAR
    ensures 1 <= r.month <= MONTHS_PER_YEAR
    ensures r.year * MONTHS_PER_YEAR + r.month ==
            cal.convert(left).year * MONTHS_PER_YEAR + cal.convert(left).month + months
    ensures r.day == if cal.convert(left).day > cal.monthDays(r.year, r.month)
                     then cal.monthDays(r.year, r.month) else cal.convert(left).day
    ensures r.day <= cal.monthDays(r.year, r.month)
  {
    var moved := AddMonthsToCivil(cal.convert(left), months);
    var maxDayInMonth := cal.monthDays(moved.year, moved.month);
    moved.(day := if moved.day > maxDayInMonth then maxDayInMonth else moved.day)
  }

  /** The date after the month step, before whole days are added. */
  function MonthStep(cal: Calendar, left: Date, months: int32): Date
    requires months != 0 ==> 1 <= cal.convert(left).month <= MONTHS_PER_YEAR
  {
    if months != 0 then cal.fromDate(ShiftMonths(cal, left, months)) else left
  }

  /** What `date + interval` relies on and requires: a well-formed conversion and no int32 overflow. */
  predicate CanAddIntervalToDate(cal: Calendar, left: Date, right: Interval)
  {
    && (right.months != 0 ==> 1 <= cal.convert(left).month <= MONTHS_PER_YEAR)
    && InInt32(MonthStep(cal, left, right.months).days + right.days)
    && InInt32(MonthStep(cal, left, right.months).days + right.days + TDiv(right.micros, MICROS_PER_DAY))
  }

  /**
   * date + interval: the month step, then the interval's days, then the
   * whole days contained in its microseconds (truncated toward zero).
   */
  function AddIntervalToDate(cal: Calendar, left: Date, right: Interval): (r: Date)
    requires CanAddIntervalToDate(cal, left, right)
    ensures right.months == 0 ==>
              r.days == left.days + right.days + TDiv(right.micros, MICROS_PER_DAY)
    ensures right.months != 0 ==>
              r.days == cal.fromDate(ShiftMonths(cal, left, right.months)).days + right.days
                        + TDiv(right.micros, MICROS_PER_DAY)
  {
    var result := MonthStep(cal, left, right.months);
    var result := if right.days != 0 then Date(result.days + right.days) else result;
    if right.micros != 0 then Date(result.days + TDiv(right.micros, MICROS_PER_DAY)) else result
  }

  /**
   * The time-of-day carry of `timestamp + interval`: given a time of day that
   * went at most one day out of range, brings it back into [0, MICROS_PER_DAY)
   * and moves the date by the day carried, keeping the total instant.
   */
  function CarryTimeOfDay(days: int, micros: int): (r: (int, int))
    requires -MICROS_PER_DAY <= micros < 2 * MICROS_PER_DAY
    ensures 0 <= r.1 < MICROS_PER_DAY
    ensures r.0 * MICROS_PER_DAY + r.1 == days * MICROS_PER_DAY + micros
    ensures r.0 == days - 1 || r.0 == days || r.0 == days + 1
  {
    if micros >= MICROS_PER_DAY then (days + 1, micros - MICROS_PER_DAY)
    else if micros < 0 then (days - 1, micros + MICROS_PER_DAY)
    else (days, micros)
  }

  /** The sub-day part of the interval's microseconds that `timestamp + interval` adds to the time of day. */
  function SubDayMicros(right: Interval): (diff: int)
    ensures Abs(diff) < MICROS_PER_DAY
    ensures diff == right.micros - TDiv(right.micros, MICROS_PER_DAY) * MICROS_PER_DAY
  {
    TDivMod(right.micros, MICROS_PER_DAY);
    TMod(right.micros, MICROS_PER_DAY)
  }

  /** What `timestamp + interval` relies on and requires. */
  predicate CanAddIntervalToTimestamp(cal: Calendar, left: Timestamp, right: Interval)
  {
    var (date, time) := cal.splitTimestamp(left);
    && 0 <= time.micros < MICROS_PER_DAY
    && CanAddIntervalToDate(cal, date, right)
    && InInt32(CarryTimeOfDay(AddIntervalToDate(cal, date, right).days, time.micros + SubDayMicros(right)).0)
  }

  /**
   * timestamp + interval: split into date and time of day, add the interval
   * to the date, add the sub-day microseconds to the time of day, normalise
   * the time of day into [0, MICROS_PER_DAY) with a carry of one day either
   * way, and join date and time again.
   */
  function AddIntervalToTimestamp(cal: Calendar, left: Timestamp, right: Interval): (r: Timestamp)
    requires CanAddIntervalToTimestamp(cal, left, right)
    ensures exists d: Date, t: DTime ::
              && r == cal.fromDatetime(d, t)
              && 0 <= t.micros < MICROS_PER_DAY
              && d.days * MICROS_PER_DAY + t.micros ==
                 AddIntervalToDate(cal, cal.splitTimestamp(left).0, right).days * MICROS_PER_DAY
                 + cal.splitTimestamp(left).1.micros + SubDayMicros(right)
    ensures right.months == 0 ==>
              exists d: Date, t: DTime ::
                && r == cal.fromDatetime(d, t)
                && 0 <= t.micros < MICROS_PER_DAY
                && d.days * MICROS_PER_DAY + t.micros ==
                   cal.splitTimestamp(left).0.days * MICROS_PER_DAY + cal.splitTimestamp(left).1.micros
                   + IntervalMicros(right)
  {
    var (date, time) := cal.splitTimestamp(left);
    var resultDate := AddIntervalToDate(cal, date, right);
    var (days, micros) := CarryTimeOfDay(resultDate.days, time.micros + SubDayMicros(right));
    var d, t := Date(days), DTime(micros);
    assert d.days * MICROS_PER_DAY + t.micros ==
           resultDate.days * MICROS_PER_DAY + time.micros + SubDayMicros(right);
    TDivMod(right.micros, MICROS_PER_DAY);
    cal.fromDatetime(d, t)
  }

  /** interval + interval, component by component. */
  function AddIntervals(left: Interval, right: Interval): (r: Interval)
    requires InInt32(left.months + right.months) && InInt32(left.days + right.days)
    requires InInt64(left.micros + right.micros)
    ensures IntervalMicros(r) == IntervalMicros(left) + IntervalMicros(right)
  {
    Interval(left.months + right.months, left.days + right.days, left.micros + right.micros)
  }

  /** interval - interval, component by component. */
  function SubtractIntervals(left: Interval, right: Interval): (r: Interval)
    requires InInt32(left.months - right.months) && InInt32(left.days - right.days)
    requires InInt64(left.micros - right.micros)
    ensures IntervalMicros(r) == IntervalMicros(left) - IntervalMicros(right)
  {
    Interval(left.months - right.months, left.days - right.days, left.micros - right.micros)
  }

  /** Subtraction undoes addition, component by component. */
  lemma SubtractUndoesAddIntervals(a: Interval, b: Interval)
    requires InInt32(a.months + b.months) && InInt32(a.days + b.days) && InInt64(a.micros + b.micros)
    ensures SubtractIntervals(AddIntervals(a, b), b) == a
  {
  }

  /** Each component of the interval has a negation of its own type (none is the most negative value). */
  predicate Negatable(i: Interval)
  {
    i.months != -0x8000_0000 && i.days != -0x8000_0000 && i.micros != -0x8000_0000_0000_0000
  }

  /** The `inverseRight` interval: every component negated. */
  function NegateInterval(i: Interval): (r: Interval)
    requires Negatable(i)
    ensures IntervalMicros(r) == -IntervalMicros(i)
  {
    Interval(-i.months, -i.days, -i.micros)
  }

  /** date - interval is date + (the negated interval). */
  function SubtractIntervalFromDate(cal: Calendar, left: Date, right: Interval): (r: Date)
    requires Negatable(right)
    requires CanAddIntervalToDate(cal, left, NegateInterval(right))
    ensures right.months == 0 ==>
              r.days == left.days - right.days - TDiv(right.micros, MICROS_PER_DAY)
  {
    TDivNegate(right.micros, MICROS_PER_DAY);
    AddIntervalToDate(cal, left, NegateInterval(right))
  }

  /**
   * Without months, subtracting an interval from a date and adding it back
   * gives the date again. (With months it need not: the day clamp of the
   * first month step loses the day of the month.)
   */
  lemma {:induction false} SubtractThenAddInterval(cal: Calendar, d: Date, i: Interval)
    requires i.months == 0
    requires Negatable(i)
    requires CanAddIntervalToDate(cal, d, NegateInterval(i))
    requires CanAddIntervalToDate(cal, SubtractIntervalFromDate(cal, d, i), i)
    ensures AddIntervalToDate(cal, SubtractIntervalFromDate(cal, d, i), i) == d
  {
    TDivNegate(i.micros, MICROS_PER_DAY);
  }

  /** timestamp - interval is timestamp + (the negated interval). */
  function SubtractIntervalFromTimestamp(cal: Calendar, left: Timestamp, right: Interval): (r: Timestamp)
    requires Negatable(right)
    requires CanAddIntervalToTimestamp(cal, left, NegateInterval(right))
    ensures right.months == 0 ==>
              exists d: Date, t: DTime ::
                && r == cal.fromDatetime(d, t)
                && 0 <= t.micros < MICROS_PER_DAY
                && d.days * MICROS_PER_DAY + t.micros ==
                   cal.splitTimestamp(left).0.days * MICROS_PER_DAY + cal.splitTimestamp(left).1.micros
                   - IntervalMicros(right)
  {
    AddIntervalToTimestamp(cal, left, NegateInterval(right))
  }

  /** date - date: the number of days from `right` to `left`. */
  function SubtractDates(left: Date, right: Date): (r: int64)
    requires InInt32(left.days - right.days)
    ensures right.days + r == left.days
  {
    left.days - right.days
  }

  /** Adding the difference of two dates, as an interval of days, to the second gives the first. */
  lemma SubtractDatesInverse(cal: Calendar, left: Date, right: Date)
    requires InInt32(left.days - right.days)
    ensures CanAddIntervalToDate(cal, right, Interval(0, SubtractDates(left, right), 0))
    ensures AddIntervalToDate(cal, right, Interval(0, SubtractDates(left, right), 0)) == left
  {
    assert TDiv(0, MICROS_PER_DAY) == 0;
  }

  /**
   * timestamp - timestamp: an interval without months whose days and
   * microseconds together are exactly `left - right`, with fewer than a day's
   * microseconds, both parts non-positive when left < right and
   * non-negative otherwise.
   */
  function SubtractTimestamps(left: Timestamp, right: Timestamp): (r: Interval)
    requires InInt64(left.value - right.value)
    ensures r.months == 0
    ensures r.days * MICROS_PER_DAY + r.micros == left.value - right.value
    ensures Abs(r.days) * MICROS_PER_DAY + Abs(r.micros) == Abs(left.value - right.value)
    ensures Abs(r.micros) < MICROS_PER_DAY
    ensures left.value < right.value ==> r.days <= 0 && r.micros <= 0
    ensures left.value >= right.value ==> r.days >= 0 && r.micros >= 0
  {
    var diff: nat := Abs(left.value - right.value);
    var days, micros := diff / MICROS_PER_DAY, diff % MICROS_PER_DAY;
    if left.value < right.value then Interval(0, -days, -micros) else Interval(0, days, micros)
  }

  /** What `interval / n` requires: a non-zero divisor and no overflow. */
  predicate CanDivideInterval(left: Interval, right: int64)
  {
    && right != 0
    && InInt32(TDiv(left.months, right))
    && InInt64(TMod(left.months, right) * DAYS_PER_MONTH)
    && InInt32(left.days + TMod(left.months, right) * DAYS_PER_MONTH)
    && InInt32(TDiv(left.days + TMod(left.months, right) * DAYS_PER_MONTH, right))
    && InInt64(TMod(left.days + TMod(left.months, right) * DAYS_PER_MONTH, right) * MICROS_PER_DAY)
    && InInt64(left.micros + TMod(left.days + TMod(left.months, right) * DAYS_PER_MONTH, right) * MICROS_PER_DAY)
    && InInt64(TDiv(left.micros + TMod(left.days + TMod(left.months, right) * DAYS_PER_MONTH, right)
                    * MICROS_PER_DAY, right))
  }

  /**
   * interval / n: the months remainder is carried into days at
   * DAYS_PER_MONTH, and the days remainder into microseconds at
   * MICROS_PER_DAY, before each part is divided. So `n` times the result
   * falls short of the dividend by less than `n` microseconds, with the
   * shortfall on the dividend's side of zero.
   */
  function DivideInterval(left: Interval, right: int64): (r: Interval)
    requires CanDivideInterval(left, right)
    ensures Abs(IntervalMicros(left) - right * IntervalMicros(r)) < Abs(right)
  {
    var monthsRemainder := TMod(left.months, right);
    var daysRemainder := TMod(left.days + monthsRemainder * DAYS_PER_MONTH, right);
    var r := Interval(TDiv(left.months, right),
                      TDiv(left.days + monthsRemainder * DAYS_PER_MONTH, right),
                      TDiv(left.micros + daysRemainder * MICROS_PER_DAY, right));
    DivideIntervalRemainder(left, right);
    r
  }

  /** The exact shortfall of `interval / n`: the remainder of the final microsecond division. */
  lemma DivideIntervalRemainder(left: Interval, right: int64)
    requires CanDivideInterval(left, right)
    ensures var mr := TMod(left.months, right);
            var dr := TMod(left.days + mr * DAYS_PER_MONTH, right);
            var q := Interval(TDiv(left.months, right),
                              TDiv(left.days + mr * DAYS_PER_MONTH, right),
                              TDiv(left.micros + dr * MICROS_PER_DAY, right));
            IntervalMicros(left) - right * IntervalMicros(q)
              == TMod(left.micros + dr * MICROS_PER_DAY, right)
    ensures Abs(TMod(left.micros + TMod(left.days + TMod(left.months, right) * DAYS_PER_MONTH, right)
                       * MICROS_PER_DAY, right)) < Abs(right)
  {
    var n := right;
    var m, d, u := left.months, left.days, left.micros;
    var mr, mq := TMod(m, n), TDiv(m, n);
    TDivMod(m, n);
    var d' := d + mr * DAYS_PER_MONTH;
    var dr, dq := TMod(d', n), TDiv(d', n);
    TDivMod(d', n);
    var u' := u + dr * MICROS_PER_DAY;
    var ur, uq := TMod(u', n), TDiv(u', n);
    TDivMod(u', n);
    CarryDivision(n, m, d, u, mq, mr, dq, dr, uq, ur);
  }

  /** Three divisions, each remainder carried into the next finer unit, lose only the last remainder. */
  lemma CarryDivision(n: int, m: int, d: int, u: int, mq: int, mr: int, dq: int, dr: int, uq: int, ur: int)
    requires m == mq * n + mr
    requires d + mr * DAYS_PER_MONTH == dq * n + dr
    requires u + dr * MICROS_PER_DAY == uq * n + ur
    ensures (m * DAYS_PER_MONTH + d) * MICROS_PER_DAY + u
            - n * ((mq * DAYS_PER_MONTH + dq) * MICROS_PER_DAY + uq) == ur
  {
    var mn, dn, un := mq * n, dq * n, uq * n;
    assert n * ((mq * DAYS_PER_MONTH + dq) * MICROS_PER_DAY + uq)
           == (mn * DAYS_PER_MONTH + dn) * MICROS_PER_DAY + un;
  }

  /** Modulo on two int64 values: the C++ remainder, which takes the dividend's sign. */
  function ModuloInt64(left: int64, right: int64): (r: int64)
    requires right != 0
    requires InInt64(TDiv(left, right))
    ensures left == TDiv(left, right) * right + r
    ensures Abs(r) < Abs(right)
    ensures left >= 0 ==> r >= 0
    ensures left <= 0 ==> r <= 0
  {
    TDivMod(left, right);
    TMod(left, right)
  }

  // ---------------------------------------------------------------------
  // String concatenation
  // ---------------------------------------------------------------------

  const PREFIX_LENGTH: nat := 4
  const INLINED_SUFFIX_LENGTH: nat := 8
  const SHORT_STR_LENGTH: nat := PREFIX_LENGTH + INLINED_SUFFIX_LENGTH

  /**
   * gf_string_t: a length, a fixed inline region (the prefix followed by the
   * inline suffix, which shares its bytes with the overflow pointer), and the
   * buffer the overflow pointer refers to.
   */
  datatype GfString = GfString(len: uint32, inlined: seq<byte>, overflow: seq<byte>)

  /** A short string lives in the inline region; a long one in its buffer, with its first bytes copied to the prefix. */
  predicate WellFormedString(s: GfString)
  {
    && |s.inlined| == SHORT_STR_LENGTH
    && (s.len > SHORT_STR_LENGTH ==>
          |s.overflow| >= s.len && s.inlined[..PREFIX_LENGTH] == s.overflow[..PREFIX_LENGTH])
  }

  /** getData(), limited to the string's length: the bytes the string stands for. */
  function StringData(s: GfString): seq<byte>
    requires WellFormedString(s)
  {
    if s.len <= SHORT_STR_LENGTH then s.inlined[..s.len] else s.overflow[..s.len]
  }

  /**
   * Concatenation into `result`: the length is the sum of the lengths; a
   * short result is written inline and keeps `result`'s buffer, a long one
   * is written to `result`'s buffer with its first PREFIX_LENGTH bytes copied
   * to the prefix. Either way the result stands for the left bytes followed
   * by the right bytes, and the bytes past what was written are `result`'s own.
   */
  function ConcatStrings(left: GfString, right: GfString, result: GfString): (r: GfString)
    requires WellFormedString(left) && WellFormedString(right) && |result.inlined| == SHORT_STR_LENGTH
    requires left.len + right.len < 0x1_0000_0000
    ensures WellFormedString(r)
    ensures r.len == left.len + right.len
    ensures StringData(r) == StringData(left) + StringData(right)
    ensures r.len <= SHORT_STR_LENGTH ==>
              r.overflow == result.overflow && r.inlined[r.len..] == result.inlined[r.len..]
    ensures r.len > SHORT_STR_LENGTH ==>
              r.inlined[PREFIX_LENGTH..] == result.inlined[PREFIX_LENGTH..]
  {
    var len := left.len + right.len;
    if len <= SHORT_STR_LENGTH then
      var written := left.inlined[..left.len] + right.inlined[..right.len];
      GfString(len, written + result.inlined[len..], result.overflow)
    else
      var buffer := StringData(left) + StringData(right);
      var tail := if |result.overflow| > len then result.overflow[len..] else [];
      GfString(len, buffer[..PREFIX_LENGTH] + result.inlined[PREFIX_LENGTH..], buffer + tail)
  }

  // ---------------------------------------------------------------------
  // Type dispatch on values
  // ---------------------------------------------------------------------

  /** The value types of the query layer. */
  datatype DataType =
    | REL | NODE | LABEL | BOOL | INT64 | DOUBLE | STRING | NODE_ID
    | UNSTRUCTURED | DATE | TIMESTAMP | INTERVAL | LIST

  /** The `invalid_argument` raised for operands of the wrong type, with what its message names. */
  datatype InvalidArgument =
    | CannotApply(op: string, leftType: DataType, rightType: DataType)
    | CannotApplyUnary(op: string, inputType: DataType)

  predicate IsNumeric(t: DataType) { t == INT64 || t == DOUBLE }

  /**
   * The result type ArithmeticOnValues chooses for a binary operation:
   * INT64 for two INT64 operands, DOUBLE for two numeric operands of which
   * one is DOUBLE, and invalid_argument naming both types otherwise.
   */
  function ArithmeticResultType(op: string, left: DataType, right: DataType): (r: Result<DataType, InvalidArgument>)
    ensures r == Ok(INT64) <==> left == INT64 && right == INT64
    ensures r == Ok(DOUBLE) <==> IsNumeric(left) && IsNumeric(right) && (left == DOUBLE || right == DOUBLE)
    ensures r.Err? <==> !(IsNumeric(left) && IsNumeric(right))
    ensures r.Err? ==> r.error == CannotApply(op, left, right)
  {
    match left
    case INT64 =>
      (match right
       case INT64 => Ok(INT64)
       case DOUBLE => Ok(DOUBLE)
       case _ => Err(CannotApply(op, INT64, right)))
    case DOUBLE =>
      (match right
       case INT64 => Ok(DOUBLE)
       case DOUBLE => Ok(DOUBLE)
       case _ => Err(CannotApply(op, DOUBLE, right)))
    case _ => Err(CannotApply(op, left, right))
  }

  /** The result type ArithmeticOnValues chooses for a unary operation: the operand's own numeric type, or invalid_argument. */
  function ArithmeticUnaryResultType(op: string, input: DataType): (r: Result<DataType, InvalidArgument>)
    ensures r.Ok? <==> IsNumeric(input)
    ensures r.Ok? ==> r.value == input
    ensures r.Err? ==> r.error == CannotApplyUnary(op, input)
  {
    match input
    case INT64 => Ok(INT64)
    case DOUBLE => Ok(DOUBLE)
    case _ => Err(CannotApplyUnary(op, input))
  }

  const ADD_STR := "add"
  const SUBTRACT_STR := "subtract"
  const MULTIPLY_STR := "multiply"
  const DIVIDE_STR := "divide"
  const MODULO_STR := "modulo"
  const POWER_STR := "power"
  const NEGATE_STR := "negate"
  const ABS_STR := "abs"
  const FLOOR_STR := "floor"
  const CEIL_STR := "ceil"

  /** What Add on values asserts of its operands: a string, timestamp or interval is added to a value of the matching type. */
  predicate AddOperandsAsserted(left: DataType, right: DataType)
  {
    && (left == STRING ==> right == STRING)
    && (left == TIMESTAMP ==> right == INTERVAL)
    && (left == INTERVAL ==> right == INTERVAL)
  }

  /**
   * The result type of Add on values: string concatenation, date plus
   * interval or days, timestamp plus interval and interval plus interval
   * are handled by their own specialisations; everything else goes through
   * ArithmeticOnValues.
   */
  function AddResultType(left: DataType, right: DataType): (r: Result<DataType, InvalidArgument>)
    requires AddOperandsAsserted(left, right)
    ensures left == STRING ==> r == Ok(STRING)
    ensures left == DATE && (right == INTERVAL || right == INT64) ==> r == Ok(DATE)
    ensures left == TIMESTAMP ==> r == Ok(TIMESTAMP)
    ensures left == INTERVAL ==> r == Ok(INTERVAL)
    ensures left != STRING && left != TIMESTAMP && left != INTERVAL
            && !(left == DATE && (right == INTERVAL || right == INT64)) ==>
              r == ArithmeticResultType(ADD_STR, left, right)
  {
    if left == STRING then Ok(STRING)
    else if left == DATE && right == INTERVAL then Ok(DATE)
    else if left == DATE && right == INT64 then Ok(DATE)
    else if left == TIMESTAMP then Ok(TIMESTAMP)
    else if left == INTERVAL then Ok(INTERVAL)
    else ArithmeticResultType(ADD_STR, left, right)
  }

  /**
   * The result type of Subtract on values: the date, timestamp and interval
   * specialisations (date minus date is a day count, timestamp minus
   * timestamp an interval), and ArithmeticOnValues for everything else.
   */
  function SubtractResultType(left: DataType, right: DataType): (r: Result<DataType, InvalidArgument>)
    ensures left == DATE && (right == INTERVAL || right == INT64) ==> r == Ok(DATE)
    ensures left == DATE && right == DATE ==> r == Ok(INT64)
    ensures left == TIMESTAMP && right == INTERVAL ==> r == Ok(TIMESTAMP)
    ensures left == TIMESTAMP && right == TIMESTAMP ==> r == Ok(INTERVAL)
    ensures left == INTERVAL && right == INTERVAL ==> r == Ok(INTERVAL)
    ensures !(left == DATE && (right == INTERVAL || right == INT64 || right == DATE))
            && !(left == TIMESTAMP && (right == INTERVAL || right == TIMESTAMP))
            && !(left == INTERVAL && right == INTERVAL) ==>
              r == ArithmeticResultType(SUBTRACT_STR, left, right)
    ensures r.Err? ==> r.error == CannotApply(SUBTRACT_STR, left, right)
  {
    if left == DATE && right == INTERVAL then Ok(DATE)
    else if left == DATE && right == INT64 then Ok(DATE)
    else if left == DATE && right == DATE then Ok(INT64)
    else if left == TIMESTAMP && right == INTERVAL then Ok(TIMESTAMP)
    else if left == TIMESTAMP && right == TIMESTAMP then Ok(INTERVAL)
    else if left == INTERVAL && right == INTERVAL then Ok(INTERVAL)
    else ArithmeticResultType(SUBTRACT_STR, left, right)
  }

  /** The result type of Divide on values: an interval divided by an int64 stays an interval; the rest is numeric dispatch. */
  function DivideResultType(left: DataType, right: DataType): (r: Result<DataType, InvalidArgument>)
    ensures left == INTERVAL && right == INT64 ==> r == Ok(INTERVAL)
    ensures !(left == INTERVAL && right == INT64) ==> r == ArithmeticResultType(DIVIDE_STR, left, right)
    ensures r.Ok? ==> r.value in {INT64, DOUBLE, INTERVAL}
  {
    if left == INTERVAL && right == INT64 then Ok(INTERVAL)
    else ArithmeticResultType(DIVIDE_STR, left, right)
  }

  /** Multiply, Modulo and Power on values are plain numeric dispatch, so none of them accepts a temporal operand. */
  lemma NumericOnlyOperations(left: DataType, right: DataType)
    ensures forall op :: op in {MULTIPLY_STR, MODULO_STR, POWER_STR} ==>
              (ArithmeticResultType(op, left, right).Ok? <==> IsNumeric(left) && IsNumeric(right))
    ensures left in {DATE, TIMESTAMP, INTERVAL} ==> ArithmeticResultType(MULTIPLY_STR, left, right).Err?
  {
  }
}
