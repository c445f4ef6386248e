/** Instants, saturating differences and the UTC calendar (include/fabric_observatory/time.hpp,
    src/time.cpp; text form of section 5.6 of RFC 3339). */
module Times {
  import opened Bytes
  import Canonical
  import Ids

  /** time.hpp: the subtraction is done in 64-bit unsigned arithmetic and then clamped. */
  function SaturatingDifference(lhs: i64, rhs: i64): i64 {
    if lhs <= rhs then 0
    else
      var delta := (Canonical.ToUnsigned(lhs) - Canonical.ToUnsigned(rhs)) % U64_MODULUS;
      if delta > I64_MAX then I64_MAX else delta
  }

  /** It is the exact difference clamped to the representable range, so it never wraps. */
  lemma SaturatingDifferenceIsClamp(lhs: i64, rhs: i64)
    ensures SaturatingDifference(lhs, rhs) == Max(0, Min(lhs - rhs, I64_MAX))
  {
  }

  /** An age only grows as the evaluation instant moves on. */
  lemma SaturatingDifferenceMonotone(early: i64, late: i64, rhs: i64)
    requires early <= late
    ensures SaturatingDifference(early, rhs) <= SaturatingDifference(late, rhs)
  {
    SaturatingDifferenceIsClamp(early, rhs);
    SaturatingDifferenceIsClamp(late, rhs);
  }

  // ---- signed division as the program's language defines it, and floored ----

  function TruncatedQuotient(n: int, d: int): int
    requires d > 0
  {
    if n >= 0 then n / d else -((-n) / d)
  }

  function TruncatedRemainder(n: int, d: int): int
    requires d > 0
  {
    n - d * TruncatedQuotient(n, d)
  }

  function FloorDiv(n: int, d: int): int
    requires d > 0
  {
    if TruncatedRemainder(n, d) != 0 && TruncatedRemainder(n, d) < 0 then TruncatedQuotient(n, d) - 1 else TruncatedQuotient(n, d)
  }

  function FloorMod(n: int, d: int): int
    requires d > 0
  {
    if TruncatedRemainder(n, d) != 0 && TruncatedRemainder(n, d) < 0 then TruncatedRemainder(n, d) + d else TruncatedRemainder(n, d)
  }

  lemma QuotientBounds(n: nat, d: int, q: int)
    requires d > 0 && q == n / d
    ensures d * q <= n < d * q + d
  {
  }

  /** The floored pair: quotient times divisor plus a remainder in [0, d). */
  lemma FloorMeaning(n: int, d: int)
    requires d > 0
    ensures n == d * FloorDiv(n, d) + FloorMod(n, d) && 0 <= FloorMod(n, d) < d
  {
    var q := TruncatedQuotient(n, d);
    if n >= 0 {
      QuotientBounds(n, d, q);
    } else {
      QuotientBounds(-n, d, -q);
      assert d * q == -(d * -q);
    }
    assert d * (q - 1) == d * q - d;
  }

  lemma MultipleGap(d: int, p: int, q: int)
    requires d > 0 && p > q
    ensures d * p >= d * q + d
  {
    assert d * p == d * q + d * (p - q);
    assert d * (p - q) >= d * 1 by {
      MultiplyAtLeast(d, p - q);
    }
  }

  lemma {:induction false} MultiplyAtLeast(d: int, k: int)
    requires d > 0 && k >= 1
    ensures d * k >= d
    decreases k
  {
    if k > 1 {
      MultiplyAtLeast(d, k - 1);
      assert d * k == d * (k - 1) + d;
    }
  }

  lemma SameQuotient(d: int, p: int, s: int, q: int, r: int)
    requires d > 0 && d * p + s == d * q + r && 0 <= s < d && 0 <= r < d
    ensures p == q && s == r
  {
    if p > q {
      MultipleGap(d, p, q);
    } else if p < q {
      MultipleGap(d, q, p);
    }
  }

  lemma FloorUnique(n: int, d: int, q: int, r: int)
    requires d > 0 && n == d * q + r && 0 <= r < d
    ensures FloorDiv(n, d) == q && FloorMod(n, d) == r
  {
    hide FloorDiv, FloorMod;
    FloorMeaning(n, d);
    SameQuotient(d, FloorDiv(n, d), FloorMod(n, d), q, r);
  }

  // ---- the calendar ----

  datatype Date = Date(year: int, month: nat, day: nat)

  const DAYS_PER_ERA := 146097
  const EPOCH_SHIFT := 719468

  function YearOfEra(doe: int): int { (doe - doe / 1460 + doe / 36524 - doe / 146096) / 365 }

  function YearStart(yoe: int): int { 365 * yoe + yoe / 4 - yoe / 100 }

  function MonthPrime(doy: int): int { (5 * doy + 2) / 153 }

  function MonthStart(mp: int): int { (153 * mp + 2) / 5 }

  /** Howard Hinnant's algorithm, with years that begin in March. */
  function CivilFromDays(days: int): Date {
    var shifted := days + EPOCH_SHIFT;
    var era := FloorDiv(shifted, DAYS_PER_ERA);
    var doe := shifted - era * DAYS_PER_ERA;
    var yoe := YearOfEra(doe);
    var doy := doe - YearStart(yoe);
    DateOf(yoe + era * 400, doy)
  }

  /** Month and day from the day of a March-based year. */
  function DateOf(year: int, doy: int): Date {
    var mp := MonthPrime(doy);
    var day := doy - MonthStart(mp) + 1;
    var month := mp + if mp < 10 then 3 else -9;
    Date(year + (if month <= 2 then 1 else 0), if month < 0 then 0 else month, if day < 0 then 0 else day)
  }

  function DaysFromCivil(d: Date): int {
    var year := d.year - if d.month <= 2 then 1 else 0;
    var era := FloorDiv(year, 400);
    var yoe := year - era * 400;
    var mp := d.month + if d.month > 2 then -3 else 9;
    var doy := MonthStart(mp) + d.day - 1;
    var doe := YearStart(yoe) + doy;
    era * DAYS_PER_ERA + doe - EPOCH_SHIFT
  }

  // ---- the Gregorian calendar it has to agree with ----

  predicate Leap(year: int) { year % 4 == 0 && (year % 100 != 0 || year % 400 == 0) }

  function DaysInMonth(year: int, month: nat): nat {
    if month == 2 then (if Leap(year) then 29 else 28)
    else if month == 4 || month == 6 || month == 9 || month == 11 then 30 else 31
  }

  predicate ValidDate(d: Date) { 1 <= d.month <= 12 && 1 <= d.day <= DaysInMonth(d.year, d.month) }

  function NextDay(d: Date): Date {
    if d.day < DaysInMonth(d.year, d.month) then d.(day := d.day + 1)
    else if d.month < 12 then Date(d.year, d.month + 1, 1)
    else Date(d.year + 1, 1, 1)
  }

  // ---- a year of the era as centuries, four-year groups and single years ----

  /** Position of a March-based year within its era, and whether it ends with a leap day. */
  datatype Slot = Slot(c: nat, q: nat, r: nat)

  predicate InEra(s: Slot) { s.c < 4 && s.q < 25 && s.r < 4 }

  predicate EndsLeap(s: Slot) { s.r == 3 && (s.q < 24 || s.c == 3) }

  function Length(s: Slot): int { if EndsLeap(s) then 366 else 365 }

  function Start(s: Slot): int { 36524 * s.c + 1461 * s.q + 365 * s.r }

  function YearIn(s: Slot): int { 100 * s.c + 4 * s.q + s.r }

  lemma YearStartIs(s: Slot)
    requires InEra(s)
    ensures YearStart(YearIn(s)) == Start(s)
  {
    assert YearIn(s) / 4 == 25 * s.c + s.q;
    assert YearIn(s) / 100 == s.c;
  }

  /** The closed formula finds the year of the era that a day of the era falls in. */
  lemma YearOfEraIs(s: Slot, doy: int)
    requires InEra(s) && 0 <= doy < Length(s)
    ensures YearOfEra(Start(s) + doy) == YearIn(s)
  {
    var doe := Start(s) + doy;
    CenturyTerm(s, doy);
    var spill := 24 * s.c + s.q + 365 * s.r + doy;
    var e := if spill >= 1460 then 1 else 0;
    assert doe == 1460 * (25 * s.c + s.q) + spill;
    assert doe / 1460 == 25 * s.c + s.q + e;
    assert 0 <= doy - e < 365;
    assert doe - doe / 1460 + s.c == 365 * YearIn(s) + (doy - e);
  }

  lemma CenturyTerm(s: Slot, doy: int)
    requires InEra(s) && 0 <= doy < Length(s)
    ensures var doe := Start(s) + doy; doe / 36524 - doe / 146096 == s.c
  {
    var doe := Start(s) + doy;
    assert 0 <= doe <= 146096;
    if doe == 146096 {
      assert s.c == 3;
    } else {
      assert doe / 146096 == 0;
      assert 36524 * s.c <= doe;
      assert doe < 36524 * (s.c + 1);
    }
  }

  lemma LeapEnds(era: int, s: Slot)
    requires InEra(s)
    ensures Leap(YearIn(s) + era * 400 + 1) <==> EndsLeap(s)
  {
    var y := YearIn(s) + 1;
    assert (y + 400 * era) % 4 == y % 4 by { ModShift(y, 4, 100 * era); }
    assert (y + 400 * era) % 100 == y % 100 by { ModShift(y, 100, 4 * era); }
    assert (y + 400 * era) % 400 == y % 400 by { ModShift(y, 400, era); }
    assert y % 4 == 0 <==> s.r == 3;
    assert s.r == 3 ==> (y % 100 == 0 <==> s.q == 24);
    assert s.r == 3 && s.q == 24 ==> y == 100 * (s.c + 1);
  }

  lemma ModShift(y: int, m: int, k: int)
    requires m > 0
    ensures (y + m * k) % m == y % m
  {
    FloorUnique(y, m, y / m, y % m);
    var n := y + m * k;
    assert n == m * (y / m + k) + y % m;
    EuclidUnique(n, m, y / m + k, y % m);
  }

  lemma EuclidUnique(n: int, m: int, q: int, r: int)
    requires m > 0 && n == m * q + r && 0 <= r < m
    ensures n / m == q && n % m == r
  {
    SameQuotient(m, n / m, n % m, q, r);
  }

  /** Every day of the era lies in exactly one of its years. */
  lemma SlotOf(doe: int) returns (s: Slot, doy: int)
    requires 0 <= doe < DAYS_PER_ERA
    ensures InEra(s) && 0 <= doy < Length(s) && doe == Start(s) + doy
  {
    var c := if doe / 36524 > 3 then 3 else doe / 36524;
    var rest := doe - 36524 * c;
    var q := rest / 1461;
    var left := rest - 1461 * q;
    var r := if left / 365 > 3 then 3 else left / 365;
    s := Slot(c, q, r);
    doy := left - 365 * r;
  }

  lemma DayInEra(s: Slot, doy: int)
    requires InEra(s) && 0 <= doy < Length(s)
    ensures 0 <= Start(s) + doy < DAYS_PER_ERA
  {
  }

  /** So a day count splits into an era, a year of it and a day of that year. */
  lemma CivilOf(days: int, era: int, s: Slot, doy: int)
    requires InEra(s) && 0 <= doy < Length(s)
    requires days + EPOCH_SHIFT == era * DAYS_PER_ERA + Start(s) + doy
    ensures CivilFromDays(days) == DateOf(YearIn(s) + era * 400, doy)
  {
    hide YearOfEra, YearStart, DateOf, FloorDiv, Start, Length, YearIn;
    var doe := Start(s) + doy;
    DayInEra(s, doy);
    FloorUnique(days + EPOCH_SHIFT, DAYS_PER_ERA, era, doe);
    YearOfEraIs(s, doy);
    YearStartIs(s);
  }

  lemma Split(days: int) returns (era: int, s: Slot, doy: int)
    ensures InEra(s) && 0 <= doy < Length(s)
    ensures days + EPOCH_SHIFT == era * DAYS_PER_ERA + Start(s) + doy
  {
    hide FloorDiv, FloorMod, Start, Length;
    FloorMeaning(days + EPOCH_SHIFT, DAYS_PER_ERA);
    era := FloorDiv(days + EPOCH_SHIFT, DAYS_PER_ERA);
    s, doy := SlotOf(FloorMod(days + EPOCH_SHIFT, DAYS_PER_ERA));
  }

  // ---- months of a March-based year ----

  lemma MonthStarts()
    ensures MonthStart(0) == 0 && MonthStart(1) == 31 && MonthStart(2) == 61 && MonthStart(3) == 92 && MonthStart(4) == 122
    ensures MonthStart(5) == 153 && MonthStart(6) == 184 && MonthStart(7) == 214 && MonthStart(8) == 245 && MonthStart(9) == 275
    ensures MonthStart(10) == 306 && MonthStart(11) == 337
  {
  }

  lemma MonthPrimeIs(mp: int, doy: int)
    requires 0 <= mp <= 11 && MonthStart(mp) <= doy && (mp < 11 ==> doy < MonthStart(mp + 1)) && doy <= 365
    ensures MonthPrime(doy) == mp
  {
    MonthStarts();
    assert 153 * mp <= 5 * doy + 2 < 153 * (mp + 1);
  }

  /** The length of month mp of a March-based year that is followed by civil year year + 1. */
  function MonthLength(mp: int, leap: bool): int
    requires 0 <= mp <= 11
  {
    if mp == 11 then (if leap then 29 else 28) else MonthStart(mp + 1) - MonthStart(mp)
  }

  /** The month and day DateOf finds, and that they are what the Gregorian calendar calls them. */
  lemma DateOfFacts(year: int, doy: int, mp: int)
    requires 0 <= mp <= 11 && MonthStart(mp) <= doy && doy < MonthStart(mp) + MonthLength(mp, Leap(year + 1))
    ensures var d := DateOf(year, doy);
            && d.month == (if mp < 10 then mp + 3 else mp - 9)
            && d.day == doy - MonthStart(mp) + 1
            && d.year == (if mp < 10 then year else year + 1)
            && DaysInMonth(d.year, d.month) == MonthLength(mp, Leap(year + 1))
            && ValidDate(d)
  {
    MonthStarts();
    MonthPrimeIs(mp, doy);
  }

  lemma MonthOf(doy: int, leap: bool) returns (mp: int)
    requires 0 <= doy < if leap then 366 else 365
    ensures 0 <= mp <= 11 && MonthStart(mp) <= doy < MonthStart(mp) + MonthLength(mp, leap)
  {
    MonthStarts();
    mp := if doy < 31 then 0 else if doy < 61 then 1 else if doy < 92 then 2 else if doy < 122 then 3 else if doy < 153 then 4
          else if doy < 184 then 5 else if doy < 214 then 6 else if doy < 245 then 7 else if doy < 275 then 8
          else if doy < 306 then 9 else if doy < 337 then 10 else 11;
  }

  // ---- the calendar is right ----

  lemma StartAt(c: nat, q: nat, r: nat)
    ensures Start(Slot(c, q, r)) == 36524 * c + 1461 * q + 365 * r
    ensures YearIn(Slot(c, q, r)) == 100 * c + 4 * q + r
  {
  }

  lemma LengthAt(c: nat, q: nat, r: nat)
    ensures Length(Slot(c, q, r)) == if r == 3 && (q < 24 || c == 3) then 366 else 365
  {
  }

  /** The year after this one in its era, or the first of the next. */
  lemma NextSlot(s: Slot) returns (carry: nat, s1: Slot)
    requires InEra(s)
    ensures InEra(s1) && carry <= 1
    ensures 146097 * carry + Start(s1) == Start(s) + Length(s)
    ensures 400 * carry + YearIn(s1) == YearIn(s) + 1
  {
    hide Start, Length, YearIn;
    var c, q, r := s.c, s.q, s.r;
    StartAt(c, q, r);
    LengthAt(c, q, r);
    if r < 3 {
      carry, s1 := 0, Slot(c, q, r + 1);
      StartAt(c, q, r + 1);
    } else if q < 24 {
      carry, s1 := 0, Slot(c, q + 1, 0);
      StartAt(c, q + 1, 0);
    } else if c < 3 {
      carry, s1 := 0, Slot(c + 1, 0, 0);
      StartAt(c + 1, 0, 0);
    } else {
      carry, s1 := 1, Slot(0, 0, 0);
      StartAt(0, 0, 0);
    }
  }

  lemma NextWithinYear(year: int, doy: int, mp: int, leap: bool)
    requires leap == Leap(year + 1) && 0 <= mp <= 11 && MonthStart(mp) <= doy < MonthStart(mp) + MonthLength(mp, leap)
    requires doy + 1 < if leap then 366 else 365
    ensures DateOf(year, doy + 1) == NextDay(DateOf(year, doy))
  {
    hide DateOf;
    MonthStarts();
    DateOfFacts(year, doy, mp);
    if doy + 1 < MonthStart(mp) + MonthLength(mp, leap) {
      DateOfFacts(year, doy + 1, mp);
    } else {
      DateOfFacts(year, doy + 1, mp + 1);
    }
  }

  /** Day after day, the conversion follows the Gregorian calendar. */
  lemma CivilFollowsCalendar(days: int)
    ensures CivilFromDays(days + 1) == NextDay(CivilFromDays(days))
    ensures ValidDate(CivilFromDays(days))
  {
    hide CivilFromDays, DateOf, Leap, DaysInMonth, NextDay, ValidDate, MonthStart, Start, MonthLength;
    var era, s, doy := Split(days);
    var year := YearIn(s) + era * 400;
    CivilOf(days, era, s, doy);
    LeapEnds(era, s);
    var mp := MonthOf(doy, EndsLeap(s));
    DateOfFacts(year, doy, mp);
    if doy + 1 < Length(s) {
      CivilOf(days + 1, era, s, doy + 1);
      NextWithinYear(year, doy, mp, EndsLeap(s));
    } else {
      var carry, s1 := NextSlot(s);
      assert (era + carry) * DAYS_PER_ERA == era * DAYS_PER_ERA + 146097 * carry;
      CivilOf(days + 1, era + carry, s1, 0);
      LastDayThenMarch(year, doy, EndsLeap(s));
    }
  }

  /** The last day of February is followed by the first of March. */
  lemma LastDayThenMarch(year: int, doy: int, leap: bool)
    requires leap == Leap(year + 1) && doy + 1 == if leap then 366 else 365
    ensures DateOf(year + 1, 0) == NextDay(DateOf(year, doy))
  {
    hide DateOf, Leap;
    MonthStarts();
    DateOfFacts(year, doy, 11);
    DateOfFacts(year + 1, 0, 0);
  }

  lemma EpochIsNewYear1970()
    ensures CivilFromDays(0) == Date(1970, 1, 1)
  {
    hide CivilFromDays;
    assert EPOCH_SHIFT == 4 * DAYS_PER_ERA + Start(Slot(3, 17, 1)) + 306;
    CivilOf(0, 4, Slot(3, 17, 1), 306);
    assert YearIn(Slot(3, 17, 1)) + 1600 == 1969;
    MonthStarts();
    DateOfFacts(1969, 306, 10);
  }

  lemma DaysOf(year: int, era: int, s: Slot, doy: int, mp: int)
    requires InEra(s) && year == YearIn(s) + era * 400
    requires 0 <= mp <= 11 && MonthStart(mp) <= doy < MonthStart(mp) + MonthLength(mp, Leap(year + 1))
    ensures DaysFromCivil(DateOf(year, doy)) == era * DAYS_PER_ERA + Start(s) + doy - EPOCH_SHIFT
  {
    hide DateOf, FloorDiv, YearStart, MonthStart, Leap, Start, DaysInMonth, MonthLength;
    DateOfFacts(year, doy, mp);
    FloorUnique(year, 400, era, YearIn(s));
    YearStartIs(s);
  }

  /** The two conversions undo each other, in both directions. */
  lemma DaysFromCivilInverts(days: int)
    ensures DaysFromCivil(CivilFromDays(days)) == days
  {
    hide CivilFromDays, DateOf, Leap, MonthStart, Start, MonthLength;
    var era, s, doy := Split(days);
    CivilOf(days, era, s, doy);
    LeapEnds(era, s);
    var mp := MonthOf(doy, EndsLeap(s));
    DaysOf(YearIn(s) + era * 400, era, s, doy, mp);
  }

  lemma SlotOfYear(yoe: int) returns (s: Slot)
    requires 0 <= yoe < 400
    ensures InEra(s) && YearIn(s) == yoe
  {
    s := Slot(yoe / 100, yoe % 100 / 4, yoe % 4);
  }

  /** The March-based year, month and day of year of a Gregorian date. */
  lemma PlaceOf(d: Date) returns (year: int, mp: int, doy: int)
    requires ValidDate(d)
    ensures 0 <= mp <= 11 && MonthStart(mp) <= doy < MonthStart(mp) + MonthLength(mp, Leap(year + 1))
    ensures DateOf(year, doy) == d
  {
    hide DateOf;
    year := d.year - if d.month <= 2 then 1 else 0;
    mp := d.month + if d.month > 2 then -3 else 9;
    doy := MonthStart(mp) + d.day - 1;
    MonthStarts();
    DateOfFacts(year, doy, mp);
  }

  lemma CivilFromDaysInverts(d: Date)
    requires ValidDate(d)
    ensures CivilFromDays(DaysFromCivil(d)) == d
  {
    hide CivilFromDays, DaysFromCivil, DateOf, FloorDiv, FloorMod, Start, MonthStart, MonthLength, Leap, ValidDate;
    var year, mp, doy := PlaceOf(d);
    FloorMeaning(year, 400);
    var era := FloorDiv(year, 400);
    var s := SlotOfYear(FloorMod(year, 400));
    LeapEnds(era, s);
    DaysOf(year, era, s, doy, mp);
    WithinLength(mp, doy, EndsLeap(s));
    CivilOf(DaysFromCivil(d), era, s, doy);
  }

  lemma WithinLength(mp: int, doy: int, leap: bool)
    requires 0 <= mp <= 11 && MonthStart(mp) <= doy < MonthStart(mp) + MonthLength(mp, leap)
    ensures 0 <= doy < if leap then 366 else 365
  {
    MonthStarts();
  }

  // ---- text ----

  const NS_PER_SECOND := 1_000_000_000
  const NS_PER_DAY := 86400 * NS_PER_SECOND
  const DASH: byte := 45
  const POINT: byte := 46
  const COLON: byte := 58
  const LETTER_T: byte := 84
  const LETTER_Z: byte := 90
  const BLANK: byte := 32

  /** n in exactly width digits, when it fits. */
  function Fixed(n: nat, width: nat): (r: Text)
    ensures |r| == width
    ensures Ids.AllDigits(r)
  {
    if width == 0 then [] else Fixed(n / 10, width - 1) + [48 + n % 10]
  }

  /** printf's zero padding: at least width digits. */
  function Padded(n: nat, width: nat): Text {
    var digits := Ids.Decimal(n);
    if |digits| >= width then digits else seq(width - |digits|, _ => 48) + digits
  }

  function Power10(k: nat): (p: nat)
    ensures p > 0
  {
    if k == 0 then 1 else 10 * Power10(k - 1)
  }

  lemma {:induction false} FixedZero(width: nat)
    ensures Fixed(0, width) == seq(width, _ => 48)
  {
    if width > 0 {
      FixedZero(width - 1);
    }
  }

  lemma {:induction false} PaddedIsFixed(n: nat, width: nat)
    requires n < Power10(width) && width > 0
    ensures Padded(n, width) == Fixed(n, width)
  {
    if width == 1 {
      assert Power10(0) == 1;
      assert Fixed(n / 10, 0) == [];
    } else if n < 10 {
      FixedZero(width - 1);
      assert n / 10 == 0;
      assert Fixed(n, width) == Fixed(0, width - 1) + [48 + n];
      assert Padded(n, width) == seq(width - 1, _ => 48) + [48 + n];
    } else {
      PaddedIsFixed(n / 10, width - 1);
      var front := Ids.Decimal(n / 10);
      assert Ids.Decimal(n) == front + [48 + n % 10];
      if |front| < width - 1 {
        assert seq(width - 1 - |front|, _ => 48) + front + [48 + n % 10]
            == seq(width - 1 - |front|, _ => 48) + (front + [48 + n % 10]);
      } else {
        assert |Padded(n / 10, width - 1)| == width - 1;
      }
    }
  }

  lemma {:induction false} FixedValue(n: nat, width: nat)
    requires n < Power10(width)
    ensures Ids.DigitsValue(Fixed(n, width)) == n
  {
    if width > 0 {
      FixedValue(n / 10, width - 1);
      assert Fixed(n, width)[..width - 1] == Fixed(n / 10, width - 1);
    }
  }

  lemma YearsOfDays(days: int)
    requires -106752 <= days <= 106751
    ensures 1600 <= CivilFromDays(days).year <= 2400
  {
    hide CivilFromDays, DateOf;
    var era, s, doy := Split(days);
    CivilOf(days, era, s, doy);
    assert 4 <= era <= 5;
    LeapEnds(era, s);
    var mp := MonthOf(doy, EndsLeap(s));
    DateOfFacts(YearIn(s) + era * 400, doy, mp);
  }

  lemma DaysOfInstant(t: i64)
    ensures -106752 <= FloorDiv(t, NS_PER_DAY) <= 106751
  {
    FloorMeaning(t, NS_PER_DAY);
  }

  /** Every instant a 64-bit nanosecond count can name lies in a year of four digits. */
  lemma YearsHaveFourDigits(t: i64)
    ensures 1600 <= CivilFromDays(FloorDiv(t, NS_PER_DAY)).year <= 2400
  {
    hide CivilFromDays, FloorDiv;
    DaysOfInstant(t);
    YearsOfDays(FloorDiv(t, NS_PER_DAY));
  }

  function FormatDate(d: Date): Text
    requires d.year >= 0
  {
    Padded(d.year, 4) + [DASH] + Padded(d.month, 2) + [DASH] + Padded(d.day, 2)
  }

  function FormatTime(seconds: nat, nanos: nat): Text {
    Padded(seconds / 3600, 2) + [COLON] + Padded(seconds / 60 % 60, 2) + [COLON] + Padded(seconds % 60, 2) + [POINT] + Padded(nanos, 9)
  }

  function FormatUtc(t: i64): Text {
    DaysOfInstant(t);
    FloorMeaning(t, NS_PER_DAY);
    YearsHaveFourDigits(t);
    var date := CivilFromDays(FloorDiv(t, NS_PER_DAY));
    var within := FloorMod(t, NS_PER_DAY);
    FormatDate(date) + [LETTER_T] + FormatTime(within / NS_PER_SECOND, within % NS_PER_SECOND) + [LETTER_Z]
  }

  /** Overflows stands for the signed overflow the program does not guard against. */
  datatype Parsed = Instant(nanos: i64) | Failed(code: StatusCode) | Overflows

  predicate NonEmptyDigits(text: Text) { text != [] && Ids.AllDigits(text) }

  /** The digit loop on a bare integer, refusing what does not fit. */
  function BareInteger(text: Text, value: nat): (r: Result<nat>)
    requires Ids.AllDigits(text) && value <= I64_MAX
    ensures r.Ok? ==> r.value <= I64_MAX
  {
    if text == [] then Ok(value)
    else
      var digit := text[0] - 48;
      if value > (I64_MAX - digit) / 10 then Err(OutOfRange) else BareInteger(text[1..], value * 10 + digit)
  }

  function Field(text: Text, at: nat, width: nat): (r: Option<nat>)
    requires at + width <= |text|
  {
    if width > 0 && Ids.AllDigits(text[at..at + width]) then Some(Ids.DigitsValue(text[at..at + width])) else None
  }

  /** The fraction of a second in nanoseconds, by length: nothing, or a point and one to nine digits. */
  function Fraction(text: Text): Result<nat>
    requires |text| >= 20
  {
    if |text| == 20 then Ok(0)
    else if text[19] != POINT then Err(MalformedInput)
    else
      var digits := text[20..|text| - 1];
      if digits == [] || |digits| > 9 || !Ids.AllDigits(digits) then Err(MalformedInput)
      else Ok(Ids.DigitsValue(digits) * Power10(9 - |digits|))
  }

  predicate InI64(n: int) { -I64_MAX - 1 <= n <= I64_MAX }

  function Combine(d: Date, hour: nat, minute: nat, second: nat, fraction: nat): Parsed {
    var seconds := DaysFromCivil(d) * 86400 + hour * 3600 + minute * 60 + second;
    if !InI64(seconds * NS_PER_SECOND) || !InI64(seconds * NS_PER_SECOND + fraction) then Overflows
    else Instant(seconds * NS_PER_SECOND + fraction)
  }

  function ParseUtc(text: Text): Parsed {
    if NonEmptyDigits(text) then
      match BareInteger(text, 0) case Err(c) => Failed(c) case Ok(n) => Instant(n)
    else if text != [] && text[0] == DASH && NonEmptyDigits(text[1..]) then
      match BareInteger(text[1..], 0) case Err(c) => Failed(c) case Ok(n) => Instant(0 - (n as int))
    else if |text| < 20 || text[|text| - 1] != LETTER_Z || text[4] != DASH || text[7] != DASH || (text[10] != LETTER_T && text[10] != BLANK)
    then Failed(MalformedInput)
    else
      var year, month, day := Field(text, 0, 4), Field(text, 5, 2), Field(text, 8, 2);
      var hour, minute, second := Field(text, 11, 2), Field(text, 14, 2), Field(text, 17, 2);
      if year.None? || month.None? || day.None? || hour.None? || minute.None? || second.None? then Failed(MalformedInput)
      else if month.value < 1 || month.value > 12 || day.value < 1 || day.value > 31 || hour.value > 23 || minute.value > 59 || second.value > 60
      then Failed(OutOfRange)
      else match Fraction(text)
        case Err(c) => Failed(c)
        case Ok(fraction) => Combine(Date(year.value, month.value, day.value), hour.value, minute.value, second.value, fraction)
  }

  // ---- the text round trip ----

  /** Seven fields in the layout of section 5.6 of RFC 3339. */
  function Stamp(year: Text, month: Text, day: Text, hour: Text, minute: Text, second: Text, fraction: Text): Text {
    year + [DASH] + month + [DASH] + day + [LETTER_T] + hour + [COLON] + minute + [COLON] + second + [POINT] + fraction + [LETTER_Z]
  }

  /** The thirty characters of a formatted instant, as fixed-width fields. */
  lemma FormattedShape(t: i64)
    ensures var d := CivilFromDays(FloorDiv(t, NS_PER_DAY));
            var within := FloorMod(t, NS_PER_DAY);
            var s, f := within / NS_PER_SECOND, within % NS_PER_SECOND;
            && ValidDate(d) && 1600 <= d.year <= 2400 && 0 <= s < 86400 && 0 <= f < NS_PER_SECOND
            && FormatUtc(t) == Stamp(Fixed(d.year, 4), Fixed(d.month, 2), Fixed(d.day, 2),
                                     Fixed(s / 3600, 2), Fixed(s / 60 % 60, 2), Fixed(s % 60, 2), Fixed(f, 9))
  {
    hide CivilFromDays, FloorDiv, FloorMod, Padded, Fixed;
    DaysOfInstant(t);
    FloorMeaning(t, NS_PER_DAY);
    YearsHaveFourDigits(t);
    CivilFollowsCalendar(FloorDiv(t, NS_PER_DAY));
    var d := CivilFromDays(FloorDiv(t, NS_PER_DAY));
    var within := FloorMod(t, NS_PER_DAY);
    var s, f := within / NS_PER_SECOND, within % NS_PER_SECOND;
    Powers();
    PaddedIsFixed(d.year, 4);
    PaddedIsFixed(d.month, 2);
    PaddedIsFixed(d.day, 2);
    PaddedIsFixed(s / 3600, 2);
    PaddedIsFixed(s / 60 % 60, 2);
    PaddedIsFixed(s % 60, 2);
    PaddedIsFixed(f, 9);
  }

  lemma Powers()
    ensures Power10(0) == 1 && Power10(2) == 100 && Power10(4) == 10000 && Power10(9) == NS_PER_SECOND
  {
    assert Power10(3) == 1000;
    assert Power10(5) == 100000;
    assert Power10(7) == 10000000;
  }

  /** Where each field of the thirty characters lies. */
  predicate Layout(text: Text, year: Text, month: Text, day: Text, hour: Text, minute: Text, second: Text, fraction: Text) {
    && |text| == 30 && text[0..4] == year && text[4] == DASH && text[5..7] == month && text[7] == DASH && text[8..10] == day
    && text[10] == LETTER_T && text[11..13] == hour && text[14..16] == minute && text[17..19] == second && text[19] == POINT
    && text[20..29] == fraction && text[29] == LETTER_Z
  }

  /** What the parser reads off a thirty character text. */
  predicate Reads(text: Text, y: nat, mo: nat, d: nat, h: nat, mi: nat, s: nat, f: nat)
    requires |text| == 30
  {
    && Field(text, 0, 4) == Some(y) && Field(text, 5, 2) == Some(mo) && Field(text, 8, 2) == Some(d)
    && Field(text, 11, 2) == Some(h) && Field(text, 14, 2) == Some(mi) && Field(text, 17, 2) == Some(s)
    && Fraction(text) == Ok(f)
  }

  lemma FieldsIn(text: Text, y: nat, mo: nat, d: nat, h: nat, mi: nat, s: nat, f: nat)
    requires y < 10000 && mo < 100 && d < 100 && h < 100 && mi < 100 && s < 100 && f < NS_PER_SECOND
    requires |text| == 30
    requires Layout(text, Fixed(y, 4), Fixed(mo, 2), Fixed(d, 2), Fixed(h, 2), Fixed(mi, 2), Fixed(s, 2), Fixed(f, 9))
    ensures Reads(text, y, mo, d, h, mi, s, f)
  {
    hide Fixed, Field, Fraction, Power10;
    DateFieldsIn(text, y, mo, d);
    TimeFieldsIn(text, h, mi, s);
    FractionOf(text, f);
  }

  lemma Marks(text: Text, a: Text, b: Text, c: Text, e: Text, g: Text, k: Text, m: Text)
    requires Layout(text, a, b, c, e, g, k, m) && |a| == 4 && Ids.AllDigits(a)
    ensures |text| == 30 && text[29] == LETTER_Z && text[4] == DASH && text[7] == DASH && text[10] == LETTER_T
    ensures !NonEmptyDigits(text) && text[0] != DASH
  {
    StartsWithDigit(text, a);
  }

  lemma DateFieldsIn(text: Text, y: nat, mo: nat, d: nat)
    requires |text| == 30 && y < 10000 && mo < 100 && d < 100
    requires text[0..4] == Fixed(y, 4) && text[5..7] == Fixed(mo, 2) && text[8..10] == Fixed(d, 2)
    ensures Field(text, 0, 4) == Some(y) && Field(text, 5, 2) == Some(mo) && Field(text, 8, 2) == Some(d)
  {
    hide *;
    Powers();
    FieldFrom(text, 0, y, 4);
    FieldFrom(text, 5, mo, 2);
    FieldFrom(text, 8, d, 2);
  }

  lemma TimeFieldsIn(text: Text, h: nat, mi: nat, s: nat)
    requires |text| == 30 && h < 100 && mi < 100 && s < 100
    requires text[11..13] == Fixed(h, 2) && text[14..16] == Fixed(mi, 2) && text[17..19] == Fixed(s, 2)
    ensures Field(text, 11, 2) == Some(h) && Field(text, 14, 2) == Some(mi) && Field(text, 17, 2) == Some(s)
  {
    hide *;
    Powers();
    FieldFrom(text, 11, h, 2);
    FieldFrom(text, 14, mi, 2);
    FieldFrom(text, 17, s, 2);
  }

  lemma StartsWithDigit(text: Text, a: Text)
    requires |text| == 30 && |a| == 4 && text[0..4] == a && Ids.AllDigits(a) && text[4] == DASH
    ensures !NonEmptyDigits(text) && text[0] != DASH
  {
    assert text[0] == a[0];
  }

  lemma FractionOf(text: Text, f: nat)
    requires |text| == 30 && text[19] == POINT && text[20..29] == Fixed(f, 9) && f < NS_PER_SECOND
    ensures Fraction(text) == Ok(f)
  {
    hide Fixed, Ids.DigitsValue;
    Powers();
    FixedValue(f, 9);
  }

  lemma StampLayout(a: Text, b: Text, c: Text, e: Text, g: Text, k: Text, m: Text)
    requires |a| == 4 && |b| == |c| == |e| == |g| == |k| == 2 && |m| == 9
    ensures Layout(Stamp(a, b, c, e, g, k, m), a, b, c, e, g, k, m)
  {
    var t := a + [DASH] + b + [DASH] + c + [LETTER_T];
    var u := e + [COLON] + g + [COLON] + k + [POINT];
    var text := Stamp(a, b, c, e, g, k, m);
    assert t[0..4] == a && t[4] == DASH && t[5..7] == b && t[7] == DASH && t[8..10] == c && t[10] == LETTER_T;
    assert u[0..2] == e && u[3..5] == g && u[6..8] == k && u[8] == POINT;
    assert text == t + u + (m + [LETTER_Z]);
    JoinSlices(t, u, m + [LETTER_Z]);
    assert text[..11] == t && text[11..20] == u && text[20..] == m + [LETTER_Z];
    SubSlice(text, 0, 11, 0, 4);
    SubSlice(text, 0, 11, 5, 7);
    SubSlice(text, 0, 11, 8, 10);
    SubSlice(text, 11, 20, 0, 2);
    SubSlice(text, 11, 20, 3, 5);
    SubSlice(text, 11, 20, 6, 8);
    SubSlice(text, 20, 30, 0, 9);
    assert text[4] == t[4] && text[7] == t[7] && text[10] == t[10] && text[19] == u[8] && text[29] == (m + [LETTER_Z])[9];
  }

  lemma JoinSlices(t: Text, u: Text, v: Text)
    ensures (t + u + v)[..|t|] == t && (t + u + v)[|t|..|t| + |u|] == u && (t + u + v)[|t| + |u|..] == v
  {
  }

  lemma SubSlice(text: Text, from: nat, to: nat, i: nat, j: nat)
    requires from <= to <= |text| && i <= j <= to - from
    ensures text[from..to][i..j] == text[from + i..from + j]
  {
    forall k | 0 <= k < j - i ensures text[from..to][i..j][k] == text[from + i..from + j][k] {
    }
  }

  lemma FieldFrom(text: Text, at: nat, n: nat, width: nat)
    requires at + width <= |text| && text[at..at + width] == Fixed(n, width) && n < Power10(width) && width > 0
    ensures Field(text, at, width) == Some(n)
  {
    hide Fixed;
    FixedValue(n, width);
  }

  lemma SecondsOfInstant(t: i64)
    ensures var days, within := FloorDiv(t, NS_PER_DAY), FloorMod(t, NS_PER_DAY);
            var s, f := within / NS_PER_SECOND, within % NS_PER_SECOND;
            var seconds := days * 86400 + (s / 3600) * 3600 + (s / 60 % 60) * 60 + s % 60;
            && seconds * NS_PER_SECOND + f == t && 0 <= f < NS_PER_SECOND
            && s / 3600 <= 23 && s / 60 % 60 <= 59 && s % 60 <= 59
  {
    hide FloorDiv, FloorMod;
    FloorMeaning(t, NS_PER_DAY);
    var days, within := FloorDiv(t, NS_PER_DAY), FloorMod(t, NS_PER_DAY);
    var s := within / NS_PER_SECOND;
    assert s == s / 60 * 60 + s % 60;
    assert s / 60 == s / 60 / 60 * 60 + s / 60 % 60;
    assert s / 60 / 60 == s / 3600;
  }

  /** Formatting and parsing is exact for every 64-bit instant, if and only if the whole seconds of that
      instant can be multiplied back into nanoseconds without leaving 64 bits. */
  lemma FormatParseRoundTrip(t: i64)
    ensures ParseUtc(FormatUtc(t)) == Instant(t) <==> t >= -9_223_372_036_000_000_000
    ensures t < -9_223_372_036_000_000_000 ==> ParseUtc(FormatUtc(t)) == Overflows
  {
    hide CivilFromDays, DaysFromCivil, FloorDiv, FloorMod, Fixed, Field, Fraction, FormatUtc, ValidDate, NonEmptyDigits, BareInteger, Layout, Stamp;
    var days, within := FloorDiv(t, NS_PER_DAY), FloorMod(t, NS_PER_DAY);
    var d := CivilFromDays(days);
    var s, f := within / NS_PER_SECOND, within % NS_PER_SECOND;
    FormattedShape(t);
    SecondsOfInstant(t);
    DaysFromCivilInverts(days);
    DateInRange(d);
    var a, b, c, e := Fixed(d.year, 4), Fixed(d.month, 2), Fixed(d.day, 2), Fixed(s / 3600, 2);
    var g, k, m := Fixed(s / 60 % 60, 2), Fixed(s % 60, 2), Fixed(f, 9);
    StampLayout(a, b, c, e, g, k, m);
    Marks(FormatUtc(t), a, b, c, e, g, k, m);
    FieldsIn(FormatUtc(t), d.year, d.month, d.day, s / 3600, s / 60 % 60, s % 60, f);
  }

  lemma DateInRange(d: Date)
    requires ValidDate(d)
    ensures 1 <= d.month <= 12 && 1 <= d.day <= 31
  {
  }

  // ---- the same, as the loops the program runs ----

  method AllDigitsLoop(text: Text) returns (ok: bool)
    ensures ok == NonEmptyDigits(text)
  {
    if text == [] {
      return false;
    }
    for i := 0 to |text|
      invariant forall k :: 0 <= k < i ==> 48 <= text[k] <= 57
    {
      if text[i] < 48 || text[i] > 57 {
        return false;
      }
    }
    ok := true;
  }

  method ParseUnsigned(text: Text, digits: nat) returns (r: Option<nat>)
    requires digits > 0
    ensures r == if |text| == digits && Ids.AllDigits(text) then Some(Ids.DigitsValue(text)) else None
  {
    var ok := AllDigitsLoop(text);
    if |text| != digits || !ok {
      return None;
    }
    var value: nat := 0;
    for i := 0 to |text|
      invariant value == Ids.DigitsValue(text[..i])
    {
      assert text[..i + 1][..i] == text[..i];
      value := value * 10 + (text[i] as int - 48);
    }
    assert text[..|text|] == text;
    r := Some(value);
  }

  method ParseBare(text: Text) returns (r: Result<nat>)
    requires Ids.AllDigits(text)
    ensures r == BareInteger(text, 0)
  {
    var value: nat := 0;
    var index := 0;
    assert text[0..] == text;
    while index < |text|
      invariant index <= |text|
      invariant value <= I64_MAX
      invariant BareInteger(text[index..], value) == BareInteger(text, 0)
    {
      var digit := text[index] - 48;
      assert text[index..][1..] == text[index + 1..];
      if value > (I64_MAX - digit) / 10 {
        return Err(OutOfRange);
      }
      value := value * 10 + digit;
      index := index + 1;
    }
    r := Ok(value);
  }

  method ParseFraction(text: Text) returns (r: Result<nat>)
    requires |text| >= 20
    ensures r == Fraction(text)
  {
    if |text| == 20 {
      return Ok(0);
    }
    if text[19] != POINT {
      return Err(MalformedInput);
    }
    var digits := text[20..|text| - 1];
    var ok := AllDigitsLoop(digits);
    if !ok || |digits| > 9 {
      return Err(MalformedInput);
    }
    var fraction: nat := 0;
    for i := 0 to |digits|
      invariant fraction == Ids.DigitsValue(digits[..i])
    {
      assert digits[..i + 1][..i] == digits[..i];
      fraction := fraction * 10 + (digits[i] as int - 48);
    }
    assert digits[..|digits|] == digits;
    fraction := Scale(fraction, |digits|);
    r := Ok(fraction);
  }

  /** The padding loop: as many zeros as are missing to nine digits. */
  method Scale(value: nat, digits: nat) returns (fraction: nat)
    requires digits <= 9
    ensures fraction == value * Power10(9 - digits)
  {
    fraction := value;
    var pad := digits;
    while pad < 9
      invariant digits <= pad <= 9
      invariant fraction * Power10(9 - pad) == value * Power10(9 - digits)
    {
      ScaleStep(fraction, 8 - pad);
      fraction := fraction * 10;
      pad := pad + 1;
    }
    assert Power10(0) == 1;
  }

  lemma ScaleStep(n: nat, k: nat)
    ensures n * Power10(k + 1) == (n * 10) * Power10(k)
  {
    assert Power10(k + 1) == 10 * Power10(k);
  }

  method ParseUtcText(text: Text) returns (r: Parsed)
    ensures r == ParseUtc(text)
  {
    hide BareInteger, DaysFromCivil, Fraction, Ids.DigitsValue;
    var bare := AllDigitsLoop(text);
    if bare {
      var n := ParseBare(text);
      return match n case Err(c) => Failed(c) case Ok(v) => Instant(v);
    }
    if text != [] && text[0] == DASH {
      var negative := AllDigitsLoop(text[1..]);
      if negative {
        var n := ParseBare(text[1..]);
        return match n case Err(c) => Failed(c) case Ok(v) => Instant(0 - (v as int));
      }
    }
    if |text| < 20 || text[|text| - 1] != LETTER_Z || text[4] != DASH || text[7] != DASH || (text[10] != LETTER_T && text[10] != BLANK) {
      return Failed(MalformedInput);
    }
    var year := ParseUnsigned(text[0..4], 4);
    var month := ParseUnsigned(text[5..7], 2);
    var day := ParseUnsigned(text[8..10], 2);
    var hour := ParseUnsigned(text[11..13], 2);
    var minute := ParseUnsigned(text[14..16], 2);
    var second := ParseUnsigned(text[17..19], 2);
    if year.None? || month.None? || day.None? || hour.None? || minute.None? || second.None? {
      return Failed(MalformedInput);
    }
    if month.value < 1 || month.value > 12 || day.value < 1 || day.value > 31 || hour.value > 23 || minute.value > 59 || second.value > 60 {
      return Failed(OutOfRange);
    }
    var fraction := ParseFraction(text);
    if fraction.Err? {
      return Failed(fraction.code);
    }
    r := Combine(Date(year.value, month.value, day.value), hour.value, minute.value, second.value, fraction.value);
  }
}
