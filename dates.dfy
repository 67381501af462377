/** Calendar dates as Python's datetime.date holds them, and their ISO 8601
    extended rendering YYYY-MM-DD (section 4.1.2.2 of ISO 8601:2004), which is
    what str(date) produces. */
module Dates {
  import opened Text

  /** The three fields of a date, before they are checked. */
  datatype CivilDate = CivilDate(year: nat, month: nat, day: nat)

  predicate IsLeapYear(y: nat)
  {
    y % 4 == 0 && (y % 100 != 0 || y % 400 == 0)
  }

  function DaysInMonth(y: nat, m: nat): nat
  {
    if m == 2 then (if IsLeapYear(y) then 29 else 28)
    else if m == 4 || m == 6 || m == 9 || m == 11 then 30
    else 31
  }

  /** The dates datetime.date can hold: years 1 to 9999, real calendar days. */
  predicate ValidDate(d: CivilDate)
  {
    1 <= d.year <= 9999 && 1 <= d.month <= 12 && 1 <= d.day <= DaysInMonth(d.year, d.month)
  }

  /** A datetime.date: its constructor refuses every other field triple. */
  type Date = d: CivilDate | ValidDate(d) witness CivilDate(1, 1, 1)

  /** str(date): "%04d-%02d-%02d". */
  function IsoDate(d: Date): (r: string)
    ensures |r| == 10 && r[4] == '-' && r[7] == '-'
  {
    assert Pow10(4) == 10000 && Pow10(2) == 100;
    ZeroPad(d.year, 4) + "-" + ZeroPad(d.month, 2) + "-" + ZeroPad(d.day, 2)
  }

  lemma IsoDateFields(d: Date)
    ensures IsoDate(d)[0..4] == ZeroPad(d.year, 4)
    ensures IsoDate(d)[5..7] == ZeroPad(d.month, 2)
    ensures IsoDate(d)[8..10] == ZeroPad(d.day, 2)
  {
  }

  /** Different valid dates render differently: the rendering can be read
      back field by field. */
  lemma IsoDateInjective(d1: Date, d2: Date)
    requires d1 != d2
    ensures IsoDate(d1) != IsoDate(d2)
  {
    IsoDateFields(d1);
    IsoDateFields(d2);
    assert Pow10(4) == 10000 && Pow10(2) == 100;
    ZeroPadRoundTrip(d1.year, 4);
    ZeroPadRoundTrip(d2.year, 4);
    ZeroPadRoundTrip(d1.month, 2);
    ZeroPadRoundTrip(d2.month, 2);
    ZeroPadRoundTrip(d1.day, 2);
    ZeroPadRoundTrip(d2.day, 2);
  }

  lemma IsoDateExample()
    ensures IsoDate(CivilDate(2024, 1, 1)) == "2024-01-01"
    ensures IsoDate(CivilDate(1999, 12, 31)) == "1999-12-31"
  {
  }
}
