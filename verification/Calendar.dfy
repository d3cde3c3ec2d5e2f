/** Certificate validity times: the closed-form Gregorian day number. */
module Calendar {

  datatype Date = Date(year: nat, month: nat, day: nat)

  datatype Time = Time(date: Date, hour: nat, minute: nat, second: nat)

  datatype Converted = UnixTime(seconds: int) | BadValidity

  // ------------------------------------------------------------- the reference

  predicate IsLeap(year: nat)
  {
    (year % 4 == 0 && year % 100 != 0) || year % 400 == 0
  }

  function DaysIn(year: nat, month: nat): nat
  {
    if month == 2 then (if IsLeap(year) then 29 else 28)
    else if month in {4, 6, 9, 11} then 30
    else 31
  }

  predicate IsDate(d: Date)
  {
    1950 <= d.year <= 9999 && 1 <= d.month <= 12 && 1 <= d.day <= DaysIn(d.year, d.month)
  }

  predicate IsTime(t: Time)
  {
    IsDate(t.date) && t.hour <= 23 && t.minute <= 59 && t.second <= 59
  }

  const FIRST := Date(1950, 1, 1)
  const EPOCH := Date(1970, 1, 1)

  /** The calendar day before. */
  function Before(d: Date): (p: Date)
    requires IsDate(d) && d != FIRST
    ensures IsDate(p)
  {
    if d.day > 1 then Date(d.year, d.month, d.day - 1)
    else if d.month > 1 then Date(d.year, d.month - 1, DaysIn(d.year, d.month - 1))
    else Date(d.year - 1, 12, 31)
  }

  /** Days counted one by one back to 1 January 1950. */
  function DaysSinceFirst(d: Date): nat
    requires IsDate(d)
    decreases d.year, d.month, d.day
  {
    if d == FIRST then 0 else 1 + DaysSinceFirst(Before(d))
  }

  // ------------------------------------------------------------ the conversion

  /** `leaps_before` */
  function LeapsBefore(year: nat): nat
    requires year >= 1
  {
    (year - 1) / 4 - (year - 1) / 100 + (year - 1) / 400
  }

  const DAYS_BEFORE_MONTH: seq<nat> := [0, 31, 59, 90, 120, 151, 181, 212, 243, 273, 304, 334]

  /** The closed form the conversion evaluates. */
  function DayNumber(d: Date): int
    requires d.year >= 1 && 1 <= d.month <= 12
  {
    (d.year - 1970) * 365 + LeapsBefore(d.year) - LeapsBefore(1970) + DAYS_BEFORE_MONTH[d.month - 1] +
    (if d.month > 2 && IsLeap(d.year) then 1 else 0) + d.day - 1
  }

  lemma Quarter(n: nat)
    requires n >= 1
    ensures n / 4 == (n - 1) / 4 + if n % 4 == 0 then 1 else 0
  {
  }

  lemma Century(n: nat)
    requires n >= 1
    ensures n / 100 == (n - 1) / 100 + if n % 100 == 0 then 1 else 0
  {
  }

  lemma FourCenturies(n: nat)
    requires n >= 1
    ensures n / 400 == (n - 1) / 400 + if n % 400 == 0 then 1 else 0
  {
  }

  lemma HundredsAreFours(n: nat)
    requires n % 100 == 0
    ensures n % 4 == 0
  {
    assert n == 4 * (25 * (n / 100));
  }

  lemma FourHundredsAreHundreds(n: nat)
    requires n % 400 == 0
    ensures n % 100 == 0
  {
    assert n == 100 * (4 * (n / 400));
  }

  /** Each leap year adds one to the closed-form leap count. */
  lemma LeapStep(year: nat)
    requires year >= 1
    ensures LeapsBefore(year + 1) == LeapsBefore(year) + if IsLeap(year) then 1 else 0
  {
    Quarter(year);
    Century(year);
    FourCenturies(year);
    if year % 400 == 0 {
      FourHundredsAreHundreds(year);
    }
    if year % 100 == 0 {
      HundredsAreFours(year);
    }
  }

  lemma DayStep(d: Date)
    requires IsDate(d) && d != FIRST
    ensures DayNumber(d) == DayNumber(Before(d)) + 1
  {
    if d.day == 1 {
      if d.month > 1 {
        hide LeapsBefore, IsLeap;
        var m := d.month - 1;
        assert m in {1, 2, 3, 4, 5, 6, 7, 8, 9, 10, 11};
      } else {
        LeapStep(d.year - 1);
        hide LeapsBefore, IsLeap;
      }
    }
  }

  /** The closed form is the day-by-day count, before the epoch as well as after it. */
  lemma {:induction false} DayNumberCounts(d: Date)
    requires IsDate(d)
    ensures DayNumber(d) == DaysSinceFirst(d) + DayNumber(FIRST)
    decreases d.year, d.month, d.day
  {
    if d != FIRST {
      DayStep(d);
      DayNumberCounts(Before(d));
    }
  }

  lemma DayNumberFromEpoch(d: Date)
    requires IsDate(d)
    ensures DayNumber(d) == DaysSinceFirst(d) - DaysSinceFirst(EPOCH)
  {
    DayNumberCounts(d);
    DayNumberCounts(EPOCH);
    assert DayNumber(EPOCH) == 0;
  }

  const MONTH_DAYS: seq<nat> := [31, 28, 31, 30, 31, 30, 31, 31, 30, 31, 30, 31]

  lemma MonthLength(year: nat, month: nat, n: nat)
    requires 1 <= month <= 12 && n == if month == 2 && IsLeap(year) then 29 else MONTH_DAYS[month - 1]
    ensures n == DaysIn(year, month)
  {
    hide IsLeap;
    assert month in {1, 2, 3, 4, 5, 6, 7, 8, 9, 10, 11, 12};
  }

  lemma ClosedForm(d: Date, days: int)
    requires d.year >= 1 && 1 <= d.month <= 12
    requires var years := (d.year - 1970) * 365 + LeapsBefore(d.year) - LeapsBefore(1970)
             + DAYS_BEFORE_MONTH[d.month - 1];
             days == (if d.month > 2 && IsLeap(d.year) then years + 1 else years) + (d.day - 1)
    ensures days == DayNumber(d)
  {
    hide LeapsBefore, IsLeap;
  }

  /** `UnixTime::from_components`: refuses exactly the non-dates, and otherwise counts
      the days since 1970 one by one and the seconds within the day. */
  method FromComponents(year: nat, month: nat, day: nat, hour: nat, minute: nat, second: nat)
    returns (r: Converted)
    ensures var d := Date(year, month, day);
            r == if IsTime(Time(d, hour, minute, second)) then
                   UnixTime(86400 * (DaysSinceFirst(d) - DaysSinceFirst(EPOCH)) + 3600 * hour + 60 * minute + second)
                 else BadValidity
  {
    hide DaysSinceFirst, LeapsBefore, DayNumber, IsLeap;
    if !(1950 <= year <= 9999) || !(1 <= month <= 12) || day < 1 || hour > 23 || minute > 59 || second > 59 {
      return BadValidity;
    }
    var monthDays: nat := MONTH_DAYS[month - 1];
    if month == 2 && IsLeap(year) {
      monthDays := 29;
    }
    MonthLength(year, month, monthDays);
    if day > monthDays {
      return BadValidity;
    }
    var days: int := (year - 1970) * 365 + LeapsBefore(year) - LeapsBefore(1970);
    days := days + DAYS_BEFORE_MONTH[month - 1];
    if month > 2 && IsLeap(year) {
      days := days + 1;
    }
    days := days + (day - 1);
    ClosedForm(Date(year, month, day), days);
    DayNumberFromEpoch(Date(year, month, day));
    r := UnixTime(days * 86400 + hour * 3600 + minute * 60 + second);
  }

  // ------------------------------------------------------------------ ordering

  predicate DateLess(a: Date, b: Date)
  {
    a.year < b.year ||
    (a.year == b.year && (a.month < b.month || (a.month == b.month && a.day < b.day)))
  }

  predicate TimeLess(a: Time, b: Time)
  {
    DateLess(a.date, b.date) ||
    (a.date == b.date &&
     (a.hour < b.hour || (a.hour == b.hour && (a.minute < b.minute || (a.minute == b.minute && a.second < b.second)))))
  }

  lemma {:induction false} CountIncreases(a: Date, b: Date)
    requires IsDate(a) && IsDate(b) && DateLess(a, b)
    ensures DaysSinceFirst(a) < DaysSinceFirst(b)
    decreases b.year, b.month, b.day
  {
    if a != Before(b) {
      CountIncreases(a, Before(b));
    }
  }

  function Seconds(t: Time): int
    requires IsTime(t)
  {
    86400 * (DaysSinceFirst(t.date) - DaysSinceFirst(EPOCH)) + 3600 * t.hour + 60 * t.minute + t.second
  }

  /** Conversion is strictly increasing in the lexicographic order of its components. */
  lemma SecondsIncrease(a: Time, b: Time)
    requires IsTime(a) && IsTime(b)
    ensures Seconds(a) < Seconds(b) <==> TimeLess(a, b)
  {
    hide DaysSinceFirst;
    if DateLess(a.date, b.date) {
      CountIncreases(a.date, b.date);
    } else if DateLess(b.date, a.date) {
      CountIncreases(b.date, a.date);
    }
  }
}
