/** Calendar dates as Python's datetime holds them, and the
    strftime('%Y-%m-%d') rendering that names the saved blog files. */
module Calendar {
  import opened Wrappers

  datatype Date = Date(year: nat, month: nat, day: nat)

  /** Leap years of the proleptic Gregorian calendar that datetime uses. */
  predicate IsLeapYear(y: nat) {
    y % 4 == 0 && (y % 100 != 0 || y % 400 == 0)
  }

  function DaysInMonth(y: nat, m: nat): nat {
    if m == 2 then (if IsLeapYear(y) then 29 else 28)
    else if m == 4 || m == 6 || m == 9 || m == 11 then 30
    else 31
  }

  /** The dates datetime can represent: years 1 to 9999. */
  predicate ValidDate(d: Date) {
    1 <= d.year <= 9999 && 1 <= d.month <= 12 && 1 <= d.day <= DaysInMonth(d.year, d.month)
  }

  function Pow10(n: nat): (p: nat)
    ensures p >= 1
  {
    if n == 0 then 1 else 10 * Pow10(n - 1)
  }

  predicate IsDigit(c: char) {
    '0' <= c <= '9'
  }

  predicate AllDigits(s: string) {
    forall i :: 0 <= i < |s| ==> IsDigit(s[i])
  }

  /** The decimal number a string of digits spells. */
  function DecimalValue(s: string): nat
    requires AllDigits(s)
  {
    if s == [] then 0 else 10 * DecimalValue(s[..|s| - 1]) + (s[|s| - 1] as int - '0' as int)
  }

  /** n written in decimal with leading zeros to exactly width digits, as
      the %Y, %m and %d directives print a field. */
  function ZeroPadded(n: nat, width: nat): (s: string)
    requires n < Pow10(width)
    ensures |s| == width && AllDigits(s)
    ensures DecimalValue(s) == n
  {
    if width == 0 then ""
    else
      var init := ZeroPadded(n / 10, width - 1);
      var s := init + [('0' as int + n % 10) as char];
      assert s[..|s| - 1] == init;
      s
  }

  /** strftime('%Y-%m-%d'): four-digit year, two-digit month and day,
      joined by hyphens. */
  function IsoDate(d: Date): (s: string)
    requires ValidDate(d)
    ensures |s| == 10 && s[4] == '-' && s[7] == '-'
    ensures AllDigits(s[..4]) && AllDigits(s[5..7]) && AllDigits(s[8..])
  {
    ZeroPadded(d.year, 4) + "-" + ZeroPadded(d.month, 2) + "-" + ZeroPadded(d.day, 2)
  }

  /** Reads a YYYY-MM-DD stamp back into a date; None when the text is not
      such a stamp of a valid date. */
  function ParseIsoDate(s: string): (r: Option<Date>)
    ensures r.Some? ==> ValidDate(r.value)
  {
    if |s| == 10 && s[4] == '-' && s[7] == '-'
       && AllDigits(s[..4]) && AllDigits(s[5..7]) && AllDigits(s[8..])
    then
      var d := Date(DecimalValue(s[..4]), DecimalValue(s[5..7]), DecimalValue(s[8..]));
      if ValidDate(d) then Some(d) else None
    else None
  }

  /** The stamp names its date exactly: reading it back gives the date. */
  lemma IsoDateRoundTrip(d: Date)
    requires ValidDate(d)
    ensures ParseIsoDate(IsoDate(d)) == Some(d)
  {
    var s := IsoDate(d);
    assert s[..4] == ZeroPadded(d.year, 4);
    assert s[5..7] == ZeroPadded(d.month, 2);
    assert s[8..] == ZeroPadded(d.day, 2);
  }

  /** A field of digits is the zero-padded rendering of the number it
      spells, at its own width. */
  lemma {:induction false} ZeroPaddedOfDigits(s: string)
    requires AllDigits(s)
    ensures DecimalValue(s) < Pow10(|s|)
    ensures ZeroPadded(DecimalValue(s), |s|) == s
    decreases |s|
  {
    if s != [] {
      var init := s[..|s| - 1];
      assert AllDigits(init) by {
        forall i | 0 <= i < |init| ensures IsDigit(init[i]) {
          assert init[i] == s[i];
        }
      }
      ZeroPaddedOfDigits(init);
      var n := DecimalValue(s);
      assert n / 10 == DecimalValue(init) && n % 10 == s[|s| - 1] as int - '0' as int;
      assert init + [s[|s| - 1]] == s;
    }
  }

  /** Every stamp the parser accepts is the stamp of the date it returns. */
  lemma ParseIsoDateSound(s: string)
    requires ParseIsoDate(s).Some?
    ensures IsoDate(ParseIsoDate(s).value) == s
  {
    var d := ParseIsoDate(s).value;
    var y, m, dd := s[..4], s[5..7], s[8..];
    assert d == Date(DecimalValue(y), DecimalValue(m), DecimalValue(dd));
    ZeroPaddedOfDigits(y);
    ZeroPaddedOfDigits(m);
    ZeroPaddedOfDigits(dd);
    SplitStamp(s);
  }

  /** A ten-character text with hyphens at 4 and 7 is its three fields
      joined by hyphens. */
  lemma SplitStamp(s: string)
    requires |s| == 10 && s[4] == '-' && s[7] == '-'
    ensures s == s[..4] + "-" + s[5..7] + "-" + s[8..]
  {
  }

  /** Different dates never share a stamp. */
  lemma IsoDateInjective(d1: Date, d2: Date)
    requires ValidDate(d1) && ValidDate(d2) && IsoDate(d1) == IsoDate(d2)
    ensures d1 == d2
  {
    IsoDateRoundTrip(d1);
    IsoDateRoundTrip(d2);
  }
}
