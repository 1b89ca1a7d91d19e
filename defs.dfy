/**
 * Value types of dballe's core (`dballe/core/defs.h`): levels, time ranges,
 * coordinates, dates, times and datetimes, with their equality operators,
 * their `compare` orderings, the named constructors and the conversion
 * to and from an array of six integers.
 *
 * C `int` components are unbounded integers here; the one place where the
 * 32-bit width matters, the subtraction inside `compare`, is modelled
 * separately (`LevelCompareAsWritten`, `TrangeCompareAsWritten`).
 */
module Defs {

  /** `INT_MAX` for a 32-bit `int`. */
  const INT_MAX: int := 0x7fff_ffff
  const INT_MIN: int := -0x8000_0000
  /** Sentinel for a missing level or time range component. */
  const MISSING_INT: int := INT_MAX

  predicate IsInt32(x: int) { INT_MIN <= x <= INT_MAX }

  /** Two's-complement wrap-around of an integer to 32 bits. */
  function Wrap32(x: int): (r: int)
    ensures IsInt32(r)
    ensures IsInt32(x) ==> r == x
    ensures (r - x) % 0x1_0000_0000 == 0
  {
    (x - INT_MIN) % 0x1_0000_0000 + INT_MIN
  }

  newtype u8 = x: int | 0 <= x < 0x100
  newtype u16 = x: int | 0 <= x < 0x1_0000

  /** The supported encodings of a message file. */
  datatype Encoding = BUFR | CREX | AOF

  // ---------------------------------------------------------------- Level

  datatype Level = Level(ltype1: int, l1: int, ltype2: int, l2: int)

  /** `Level()`: every component missing. */
  function DefaultLevel(): (l: Level)
    ensures l.ltype1 == MISSING_INT && l.l1 == MISSING_INT
    ensures l.ltype2 == MISSING_INT && l.l2 == MISSING_INT
  {
    Level(MISSING_INT, MISSING_INT, MISSING_INT, MISSING_INT)
  }

  /** `Level::cloud(ltype2, l2)`. */
  function Cloud(ltype2: int, l2: int): (l: Level)
    ensures l.ltype1 == 256 && l.l1 == MISSING_INT && l.ltype2 == ltype2 && l.l2 == l2
  {
    Level(256, MISSING_INT, ltype2, l2)
  }

  /** `Level::waves(ltype2, l2)`. */
  function Waves(ltype2: int, l2: int): (l: Level)
    ensures l.ltype1 == 264 && l.l1 == MISSING_INT && l.ltype2 == ltype2 && l.l2 == l2
  {
    Level(264, MISSING_INT, ltype2, l2)
  }

  /** `Level::ana()`: the station level is the default level. */
  function LevelAna(): (l: Level)
    ensures l == DefaultLevel()
  {
    Level(MISSING_INT, MISSING_INT, MISSING_INT, MISSING_INT)
  }

  /** `Level::operator==`: component-wise equality. */
  function LevelEq(a: Level, b: Level): (r: bool)
    ensures r <==> a == b
  {
    a.ltype1 == b.ltype1 && a.l1 == b.l1 && a.ltype2 == b.ltype2 && a.l2 == b.l2
  }

  /** `Level::operator!=`, written with its own disjunction. */
  function LevelNe(a: Level, b: Level): (r: bool)
    ensures r <==> !LevelEq(a, b)
  {
    a.ltype1 != b.ltype1 || a.l1 != b.l1 || a.ltype2 != b.ltype2 || a.l2 != b.l2
  }

  /**
   * `Level::compare` on mathematical integers: the first non-zero
   * component difference, in the order ltype1, l1, ltype2, l2.
   */
  function LevelCompare(a: Level, b: Level): (r: int)
    ensures r == 0 <==> a == b
  {
    if a.ltype1 - b.ltype1 != 0 then a.ltype1 - b.ltype1
    else if a.l1 - b.l1 != 0 then a.l1 - b.l1
    else if a.ltype2 - b.ltype2 != 0 then a.ltype2 - b.ltype2
    else a.l2 - b.l2
  }

  /** The lexicographic order on (ltype1, l1, ltype2, l2), stated independently of `compare`. */
  predicate LevelLexLess(a: Level, b: Level)
  {
    a.ltype1 < b.ltype1
    || (a.ltype1 == b.ltype1 && a.l1 < b.l1)
    || (a.ltype1 == b.ltype1 && a.l1 == b.l1 && a.ltype2 < b.ltype2)
    || (a.ltype1 == b.ltype1 && a.l1 == b.l1 && a.ltype2 == b.ltype2 && a.l2 < b.l2)
  }

  /** `Level::operator<` and `operator>`, defined through `compare`. */
  predicate LevelLess(a: Level, b: Level) { LevelCompare(a, b) < 0 }
  predicate LevelGreater(a: Level, b: Level) { LevelCompare(a, b) > 0 }

  /** `compare` orders levels lexicographically, and `>` is `<` with the operands swapped. */
  lemma LevelCompareIsLex(a: Level, b: Level)
    ensures LevelLess(a, b) <==> LevelLexLess(a, b)
    ensures LevelGreater(a, b) <==> LevelLess(b, a)
  {
  }

  /** With unbounded integers `<` is a strict total order: exactly one of a < b, a == b, b < a. */
  lemma LevelLessTotal(a: Level, b: Level, c: Level)
    ensures LevelLess(a, b) || a == b || LevelLess(b, a)
    ensures !(LevelLess(a, b) && LevelLess(b, a))
    ensures LevelLess(a, b) && LevelLess(b, c) ==> LevelLess(a, c)
  {
    LevelCompareIsLex(a, b);
    LevelCompareIsLex(b, a);
    LevelCompareIsLex(b, c);
    LevelCompareIsLex(a, c);
  }

  predicate LevelIsInt32(l: Level)
  {
    IsInt32(l.ltype1) && IsInt32(l.l1) && IsInt32(l.ltype2) && IsInt32(l.l2)
  }

  /**
   * `Level::compare` exactly as written: each difference is computed in
   * 32-bit `int` arithmetic and wraps around on overflow.
   */
  function LevelCompareAsWritten(a: Level, b: Level): (r: int)
    ensures IsInt32(r)
    ensures LevelIsInt32(a) && LevelIsInt32(b) ==> (r == 0 <==> a == b)
  {
    if Wrap32(a.ltype1 - b.ltype1) != 0 then Wrap32(a.ltype1 - b.ltype1)
    else if Wrap32(a.l1 - b.l1) != 0 then Wrap32(a.l1 - b.l1)
    else if Wrap32(a.ltype2 - b.ltype2) != 0 then Wrap32(a.ltype2 - b.ltype2)
    else Wrap32(a.l2 - b.l2)
  }

  /**
   * The 32-bit `compare` is not antisymmetric: a missing ltype1 (INT_MAX)
   * against ltype1 == -1 makes each level "less" than the other.
   */
  lemma LevelCompareAsWrittenOverflows()
    ensures var m, n := Level(MISSING_INT, 0, 0, 0), Level(-1, 0, 0, 0);
      LevelCompareAsWritten(m, n) < 0 && LevelCompareAsWritten(n, m) < 0
      && LevelLess(n, m)
  {
  }

  // ---------------------------------------------------------------- Trange

  datatype Trange = Trange(pind: int, p1: int, p2: int)

  /** `Trange()`: every component missing. */
  function DefaultTrange(): (t: Trange)
    ensures t.pind == MISSING_INT && t.p1 == MISSING_INT && t.p2 == MISSING_INT
  {
    Trange(MISSING_INT, MISSING_INT, MISSING_INT)
  }

  /** `Trange::instant()`. */
  function Instant(): (t: Trange)
    ensures t.pind == 254 && t.p1 == 0 && t.p2 == 0
  {
    Trange(254, 0, 0)
  }

  /** `Trange::ana()`: the station time range is the default one. */
  function TrangeAna(): (t: Trange)
    ensures t == DefaultTrange()
  {
    Trange(MISSING_INT, MISSING_INT, MISSING_INT)
  }

  function TrangeEq(a: Trange, b: Trange): (r: bool)
    ensures r <==> a == b
  {
    a.pind == b.pind && a.p1 == b.p1 && a.p2 == b.p2
  }

  function TrangeNe(a: Trange, b: Trange): (r: bool)
    ensures r <==> !TrangeEq(a, b)
  {
    a.pind != b.pind || a.p1 != b.p1 || a.p2 != b.p2
  }

  /** `Trange::compare` on mathematical integers. */
  function TrangeCompare(a: Trange, b: Trange): (r: int)
    ensures r == 0 <==> TrangeEq(a, b)
  {
    if a.pind - b.pind != 0 then a.pind - b.pind
    else if a.p1 - b.p1 != 0 then a.p1 - b.p1
    else a.p2 - b.p2
  }

  predicate TrangeLexLess(a: Trange, b: Trange)
  {
    a.pind < b.pind
    || (a.pind == b.pind && a.p1 < b.p1)
    || (a.pind == b.pind && a.p1 == b.p1 && a.p2 < b.p2)
  }

  predicate TrangeLess(a: Trange, b: Trange) { TrangeCompare(a, b) < 0 }
  predicate TrangeGreater(a: Trange, b: Trange) { TrangeCompare(a, b) > 0 }

  lemma TrangeCompareIsLex(a: Trange, b: Trange)
    ensures TrangeLess(a, b) <==> TrangeLexLess(a, b)
    ensures TrangeGreater(a, b) <==> TrangeLess(b, a)
    ensures TrangeLess(a, b) || TrangeEq(a, b) || TrangeLess(b, a)
  {
  }

  /** `Trange::compare` with 32-bit wrap-around of each difference. */
  function TrangeCompareAsWritten(a: Trange, b: Trange): (r: int)
    ensures IsInt32(r)
  {
    if Wrap32(a.pind - b.pind) != 0 then Wrap32(a.pind - b.pind)
    else if Wrap32(a.p1 - b.p1) != 0 then Wrap32(a.p1 - b.p1)
    else Wrap32(a.p2 - b.p2)
  }

  /** A missing p1 against a negative p1 (a forecast offset) breaks antisymmetry. */
  lemma TrangeCompareAsWrittenOverflows()
    ensures var m, n := Trange(254, MISSING_INT, 0), Trange(254, -1, 0);
      TrangeCompareAsWritten(m, n) < 0 && TrangeCompareAsWritten(n, m) < 0
      && TrangeLess(n, m)
  {
  }

  // ---------------------------------------------------------------- Coord

  /** Coordinates in 1/100000 degree units. */
  datatype Coord = Coord(lat: int, lon: int)

  function CoordEq(a: Coord, b: Coord): (r: bool)
    ensures r <==> a == b
  {
    a.lat == b.lat && a.lon == b.lon
  }

  function CoordNe(a: Coord, b: Coord): (r: bool)
    ensures r <==> !CoordEq(a, b)
  {
    a.lat != b.lat || a.lon != b.lon
  }

  /** `Coord::compare`: by latitude, then longitude. */
  function CoordCompare(a: Coord, b: Coord): (r: int)
    ensures r == 0 <==> a == b
    ensures r < 0 <==> a.lat < b.lat || (a.lat == b.lat && a.lon < b.lon)
  {
    if a.lat - b.lat != 0 then a.lat - b.lat else a.lon - b.lon
  }

  // ---------------------------------------------------------------- Date, Time, Datetime

  /** `Date`: an unsigned short year and unsigned char month and day. */
  datatype Date = Date(year: u16, month: u8, day: u8)
  /** `Time`: unsigned char hour, minute and second. */
  datatype Time = Time(hour: u8, minute: u8, second: u8)
  datatype Datetime = Datetime(date: Date, time: Time)

  /** `Date()`: all bits set in every field. */
  function DefaultDate(): (d: Date)
    ensures d.year == 0xffff && d.month == 0xff && d.day == 0xff
  {
    Date(0xffff, 0xff, 0xff)
  }

  /** `Time()`: all bits set in every field. */
  function DefaultTime(): (t: Time)
    ensures t.hour == 0xff && t.minute == 0xff && t.second == 0xff
  {
    Time(0xff, 0xff, 0xff)
  }

  /** The C conversion of an `int` to `unsigned short` / `unsigned char` keeps it modulo 2^16 / 2^8. */
  function ToU16(x: int): u16 { (x % 0x1_0000) as u16 }
  function ToU8(x: int): u8 { (x % 0x100) as u8 }

  /** `Date(const int* val)`: reads val[0..3], truncating each to its field width. */
  function DateFromInts(vals: seq<int>): (d: Date)
    requires |vals| >= 3
    ensures d.year as int == vals[0] % 0x1_0000
    ensures d.month as int == vals[1] % 0x100 && d.day as int == vals[2] % 0x100
  {
    Date(ToU16(vals[0]), ToU8(vals[1]), ToU8(vals[2]))
  }

  /** `Time(const int* val)`. */
  function TimeFromInts(vals: seq<int>): (t: Time)
    requires |vals| >= 3
    ensures t.hour as int == vals[0] % 0x100
    ensures t.minute as int == vals[1] % 0x100 && t.second as int == vals[2] % 0x100
  {
    Time(ToU8(vals[0]), ToU8(vals[1]), ToU8(vals[2]))
  }

  /** `Datetime(const int* val)`: the date from val[0..3], the time from val[3..6]. */
  function DatetimeFromInts(vals: seq<int>): (dt: Datetime)
    requires |vals| >= 6
    ensures dt.date == DateFromInts(vals[..3]) && dt.time == TimeFromInts(vals[3..6])
  {
    Datetime(DateFromInts(vals[..3]), TimeFromInts(vals[3..]))
  }

  /** `Date::fill`: the three fields, zero-extended. */
  function DateFill(d: Date): (vals: seq<int>)
    ensures |vals| == 3
    ensures forall i :: 0 <= i < 3 ==> 0 <= vals[i]
  {
    [d.year as int, d.month as int, d.day as int]
  }

  /** `Time::fill`. */
  function TimeFill(t: Time): (vals: seq<int>)
    ensures |vals| == 3
    ensures forall i :: 0 <= i < 3 ==> 0 <= vals[i] < 0x100
  {
    [t.hour as int, t.minute as int, t.second as int]
  }

  /** `Datetime::fill`: date fields into vals[0..3], time fields into vals[3..6]. */
  function DatetimeFill(dt: Datetime): (vals: seq<int>)
    ensures |vals| == 6 && vals[..3] == DateFill(dt.date) && vals[3..] == TimeFill(dt.time)
  {
    DateFill(dt.date) + TimeFill(dt.time)
  }

  /** Six integers survive a trip through `Datetime` exactly when they fit its field widths. */
  predicate FitsDatetime(vals: seq<int>)
    requires |vals| == 6
  {
    0 <= vals[0] < 0x1_0000 && forall i :: 1 <= i < 6 ==> 0 <= vals[i] < 0x100
  }

  lemma DatetimeFillRoundTrip(vals: seq<int>)
    requires |vals| == 6
    ensures DatetimeFill(DatetimeFromInts(vals)) == vals <==> FitsDatetime(vals)
  {
    var out := DatetimeFill(DatetimeFromInts(vals));
    if FitsDatetime(vals) {
      assert forall i :: 0 <= i < 6 ==> out[i] == vals[i];
    }
  }

  /** Every `Datetime` value survives `fill` followed by the array constructor. */
  lemma DatetimeFromFill(dt: Datetime)
    ensures DatetimeFromInts(DatetimeFill(dt)) == dt
  {
    var vals := DatetimeFill(dt);
    assert vals[..3] == DateFill(dt.date);
    assert vals[3..][..3] == TimeFill(dt.time);
  }

  /** `Date::compare`: the first non-zero difference of year, month, day. */
  function DateCompare(a: Date, b: Date): (r: int)
    ensures r == 0 <==> a == b
    ensures r < 0 <==> a.year < b.year || (a.year == b.year && a.month < b.month)
                       || (a.year == b.year && a.month == b.month && a.day < b.day)
  {
    if a.year as int - b.year as int != 0 then a.year as int - b.year as int
    else if a.month as int - b.month as int != 0 then a.month as int - b.month as int
    else a.day as int - b.day as int
  }

  /** `Time::compare`: the first non-zero difference of hour, minute, second. */
  function TimeCompare(a: Time, b: Time): (r: int)
    ensures r == 0 <==> a == b
    ensures r < 0 <==> a.hour < b.hour || (a.hour == b.hour && a.minute < b.minute)
                       || (a.hour == b.hour && a.minute == b.minute && a.second < b.second)
  {
    if a.hour as int - b.hour as int != 0 then a.hour as int - b.hour as int
    else if a.minute as int - b.minute as int != 0 then a.minute as int - b.minute as int
    else a.second as int - b.second as int
  }

  /** `Datetime::compare`: by date, and by time between equal dates. */
  function DatetimeCompare(a: Datetime, b: Datetime): (r: int)
    ensures r == 0 <==> a == b
    ensures r < 0 <==> DateCompare(a.date, b.date) < 0
                       || (a.date == b.date && TimeCompare(a.time, b.time) < 0)
  {
    var res := DateCompare(a.date, b.date);
    if res != 0 then res else TimeCompare(a.time, b.time)
  }

  /** The datetime order is antisymmetric and transitive. */
  lemma DatetimeCompareOrder(a: Datetime, b: Datetime, c: Datetime)
    ensures DatetimeCompare(a, b) < 0 <==> DatetimeCompare(b, a) > 0
    ensures DatetimeCompare(a, b) < 0 && DatetimeCompare(b, c) < 0 ==> DatetimeCompare(a, c) < 0
  {
  }
}
