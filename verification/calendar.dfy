/** Calendar dates as proleptic Gregorian day ordinals (day 1 is 0001-01-01,
    as Python's `date.toordinal`), the weekday rule, the exchange's 2025
    holiday list and the roll-back to the last trading day. */
module Calendar {

  predicate IsLeap(y: int) {
    y % 4 == 0 && (y % 100 != 0 || y % 400 == 0)
  }

  function DaysInMonth(y: int, m: int): int
    requires 1 <= m <= 12
  {
    if m == 2 then (if IsLeap(y) then 29 else 28)
    else if m == 4 || m == 6 || m == 9 || m == 11 then 30
    else 31
  }

  /** Days in year `y` before the first of month `m`. */
  function DaysBeforeMonth(y: int, m: int): int
    requires 1 <= m <= 12
  {
    var table := [0, 31, 59, 90, 120, 151, 181, 212, 243, 273, 304, 334];
    table[m - 1] + (if m > 2 && IsLeap(y) then 1 else 0)
  }

  /** The ordinal of the date y-m-d. */
  function Ordinal(y: int, m: int, d: int): int
    requires y >= 1 && 1 <= m <= 12 && 1 <= d <= DaysInMonth(y, m)
  {
    var y1 := y - 1;
    y1 * 365 + y1 / 4 - y1 / 100 + y1 / 400 + DaysBeforeMonth(y, m) + d
  }

  /** Monday is 0 and Sunday is 6 (`date.weekday()`). */
  function Weekday(d: int): int {
    (d + 6) % 7
  }

  predicate IsWeekend(d: int) {
    Weekday(d) >= 5
  }

  /** A day the exchange trades: not Saturday or Sunday and not a holiday. */
  predicate TradingDay(d: int, holidays: set<int>) {
    !IsWeekend(d) && d !in holidays
  }

  /** `p` is the latest trading day not after `d`. */
  predicate IsLastTradingDay(p: int, d: int, holidays: set<int>) {
    p <= d && TradingDay(p, holidays) && forall x :: p < x <= d ==> !TradingDay(x, holidays)
  }

  /** The exchange holidays of 2025. */
  const NseHolidays2025: set<int> := {
    Ordinal(2025, 1, 26), Ordinal(2025, 2, 26), Ordinal(2025, 3, 14),
    Ordinal(2025, 3, 31), Ordinal(2025, 4, 10), Ordinal(2025, 4, 14),
    Ordinal(2025, 4, 18), Ordinal(2025, 5, 1), Ordinal(2025, 8, 15),
    Ordinal(2025, 8, 27), Ordinal(2025, 10, 2), Ordinal(2025, 10, 21),
    Ordinal(2025, 10, 22), Ordinal(2025, 11, 5), Ordinal(2025, 12, 25)
  }

  /** The holidays on or before `d`; finitely many, which bounds the walk back. */
  function HolidaysUpTo(holidays: set<int>, d: int): set<int> {
    set h | h in holidays && h <= d
  }

  /** How many weekend days remain before Friday when walking back from `d`. */
  function WeekendRank(d: int): nat {
    if Weekday(d) == 6 then 2 else if Weekday(d) == 5 then 1 else 0
  }

  /** Steps back one day at a time, past weekends and holidays, until it
      reaches a trading day. */
  method GetLastTradingDay(d: int, holidays: set<int>) returns (prev: int)
    ensures IsLastTradingDay(prev, d, holidays)
    ensures TradingDay(d, holidays) ==> prev == d
  {
    prev := d;
    while IsWeekend(prev) || prev in holidays
      invariant prev <= d
      invariant forall x :: prev < x <= d ==> !TradingDay(x, holidays)
      decreases |HolidaysUpTo(holidays, prev)|, WeekendRank(prev)
    {
      if prev in holidays {
        assert HolidaysUpTo(holidays, prev - 1) == HolidaysUpTo(holidays, prev) - {prev};
        assert |HolidaysUpTo(holidays, prev - 1)| < |HolidaysUpTo(holidays, prev)|;
      } else {
        assert HolidaysUpTo(holidays, prev - 1) == HolidaysUpTo(holidays, prev);
        assert Weekday(prev - 1) == Weekday(prev) - 1;
        assert WeekendRank(prev - 1) < WeekendRank(prev);
      }
      prev := prev - 1;
    }
  }

  /** At most one day is the last trading day of `d`. */
  lemma LastTradingDayUnique(p: int, q: int, d: int, holidays: set<int>)
    requires IsLastTradingDay(p, d, holidays) && IsLastTradingDay(q, d, holidays)
    ensures p == q
  {
  }

  /** Rolling back is idempotent: the last trading day of a result is itself,
      so a second `GetLastTradingDay` returns its argument unchanged. */
  lemma RollbackIdempotent(p: int, d: int, holidays: set<int>)
    requires IsLastTradingDay(p, d, holidays)
    ensures IsLastTradingDay(p, p, holidays)
    ensures forall q :: IsLastTradingDay(q, p, holidays) ==> q == p
  {
  }

  /** Monday 14 April 2025 is a holiday, so the roll-back passes the weekend
      and lands on Friday 11 April 2025. */
  lemma AprilFourteenthRollsBackToFriday()
    ensures Weekday(Ordinal(2025, 4, 14)) == 0
    ensures IsLastTradingDay(Ordinal(2025, 4, 11), Ordinal(2025, 4, 14), NseHolidays2025)
  {
  }
}
