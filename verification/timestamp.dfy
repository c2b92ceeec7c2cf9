/** Calendar date-times written as the compact `YYYYMMDDhhmmss` token of a rain
    file's name, read the way `datetime.strptime(token, "%Y%m%d%H%M%S")` reads
    a token of fourteen ASCII digits and written back the way `strftime`
    writes `%Y-%m-%d` and `%H:%M:%S`. */
module Timestamp {

  import opened Results

  datatype Stamp = Stamp(year: int, month: int, day: int, hour: int, minute: int, second: int)

  /** Gregorian leap years, as Python's `calendar.isleap`. */
  predicate IsLeapYear(y: int) {
    (y % 4 == 0 && y % 100 != 0) || y % 400 == 0
  }

  function DaysInMonth(y: int, m: int): (n: int)
    requires 1 <= m <= 12
    ensures 28 <= n <= 31
    ensures m == 2 ==> (n == 29 <==> IsLeapYear(y))
  {
    if m == 2 then (if IsLeapYear(y) then 29 else 28)
    else if m == 4 || m == 6 || m == 9 || m == 11 then 30
    else 31
  }

  /** The fields a `datetime` object can hold: years 1 to 9999 (a four-digit
      `%Y` field cannot exceed 9999), real days of the month, and no leap
      second (the `%S` pattern admits 60 and 61, but `datetime` refuses them). */
  predicate ValidStamp(st: Stamp) {
    && 1 <= st.year <= 9999
    && 1 <= st.month <= 12
    && 1 <= st.day <= DaysInMonth(st.year, st.month)
    && 0 <= st.hour < 24
    && 0 <= st.minute < 60
    && 0 <= st.second < 60
  }

  type DateTime = st: Stamp | ValidStamp(st) witness Stamp(2020, 1, 1, 0, 0, 0)

  // ---- decimal digits ----------------------------------------------------

  predicate IsDigit(c: char) {
    '0' <= c <= '9'
  }

  predicate IsDigits(s: string) {
    forall i :: 0 <= i < |s| ==> IsDigit(s[i])
  }

  function DigitValue(c: char): (d: nat)
    requires IsDigit(c)
    ensures d < 10
  {
    (c as int) - ('0' as int)
  }

  function DigitChar(d: nat): (c: char)
    requires d < 10
    ensures IsDigit(c) && DigitValue(c) == d
  {
    (('0' as int) + d) as char
  }

  function Pow10(k: nat): (p: nat)
    ensures p >= 1
  {
    if k == 0 then 1 else 10 * Pow10(k - 1)
  }

  /** The value of a string of decimal digits, most significant first. */
  function NumberOf(s: string): (n: nat)
    requires IsDigits(s)
    ensures n < Pow10(|s|)
  {
    if s == [] then 0
    else NumberOf(s[..|s| - 1]) * 10 + DigitValue(s[|s| - 1])
  }

  /** `n` written with exactly `width` digits, zero-padded on the left (the
      `%Y` and `%m` style of `strftime`). */
  function Pad(n: nat, width: nat): (s: string)
    ensures |s| == width && IsDigits(s)
  {
    if width == 0 then []
    else Pad(n / 10, width - 1) + [DigitChar(n % 10)]
  }

  lemma {:induction false} NumberOfPad(n: nat, width: nat)
    requires n < Pow10(width)
    ensures NumberOf(Pad(n, width)) == n
  {
    if width > 0 {
      var q, d := n / 10, n % 10;
      assert n == q * 10 + d;
      assert q < Pow10(width - 1);
      var s := Pad(n, width);
      assert s == Pad(q, width - 1) + [DigitChar(d)];
      assert s[..|s| - 1] == Pad(q, width - 1);
      NumberOfPad(q, width - 1);
      assert NumberOf(s) == NumberOf(Pad(q, width - 1)) * 10 + DigitValue(DigitChar(d));
    }
  }

  lemma {:induction false} PadNumberOf(s: string)
    requires IsDigits(s)
    ensures Pad(NumberOf(s), |s|) == s
  {
    if s != [] {
      var init, last := s[..|s| - 1], s[|s| - 1];
      var n := NumberOf(s);
      assert n / 10 == NumberOf(init) && n % 10 == DigitValue(last);
      PadNumberOf(init);
      assert DigitChar(DigitValue(last)) == last;
      assert init + [last] == s;
    }
  }

  // ---- the compact token ---------------------------------------------------

  /** The fourteen-digit `YYYYMMDDhhmmss` rendering of a date-time. */
  function FormatCompact(st: DateTime): (s: string)
    ensures |s| == 14 && IsDigits(s)
  {
    Pad(st.year, 4) + Pad(st.month, 2) + Pad(st.day, 2)
      + Pad(st.hour, 2) + Pad(st.minute, 2) + Pad(st.second, 2)
  }

  lemma CompactSlices(st: DateTime)
    ensures FormatCompact(st)[0..4] == Pad(st.year, 4)
    ensures FormatCompact(st)[4..6] == Pad(st.month, 2)
    ensures FormatCompact(st)[6..8] == Pad(st.day, 2)
    ensures FormatCompact(st)[8..10] == Pad(st.hour, 2)
    ensures FormatCompact(st)[10..12] == Pad(st.minute, 2)
    ensures FormatCompact(st)[12..14] == Pad(st.second, 2)
  {
  }

  /** The six numeric fields of a fourteen-digit token, at their fixed widths. */
  function FieldsOf(tok: string): Stamp
    requires |tok| == 14 && IsDigits(tok)
  {
    Stamp(NumberOf(tok[0..4]), NumberOf(tok[4..6]), NumberOf(tok[6..8]),
          NumberOf(tok[8..10]), NumberOf(tok[10..12]), NumberOf(tok[12..14]))
  }

  lemma Regroup(tok: string)
    requires |tok| == 14
    ensures tok == tok[0..4] + tok[4..6] + tok[6..8] + tok[8..10] + tok[10..12] + tok[12..14]
  {
    assert tok[0..6] == tok[0..4] + tok[4..6];
    assert tok[0..8] == tok[0..6] + tok[6..8];
    assert tok[0..10] == tok[0..8] + tok[8..10];
    assert tok[0..12] == tok[0..10] + tok[10..12];
    assert tok == tok[0..12] + tok[12..14];
  }

  lemma CompactOfFields(tok: string)
    requires |tok| == 14 && IsDigits(tok) && ValidStamp(FieldsOf(tok))
    ensures FormatCompact(FieldsOf(tok)) == tok
  {
    PadNumberOf(tok[0..4]);
    PadNumberOf(tok[4..6]);
    PadNumberOf(tok[6..8]);
    PadNumberOf(tok[8..10]);
    PadNumberOf(tok[10..12]);
    PadNumberOf(tok[12..14]);
    Regroup(tok);
  }

  /** `strptime(tok, "%Y%m%d%H%M%S")` for a token of fourteen ASCII digits: a
      result exists exactly when the token is the compact rendering of a real
      date-time, and that date-time is the result. With fourteen characters
      every field has to be two digits wide (four for the year), so this is the
      only reading the pattern admits. */
  function ParseCompact(tok: string): (r: Option<DateTime>)
    ensures r.Some? ==> FormatCompact(r.value) == tok
  {
    if |tok| != 14 || !IsDigits(tok) then None
    else
      var st := FieldsOf(tok);
      if ValidStamp(st) then
        CompactOfFields(tok);
        Some(st)
      else None
  }

  /** Reading back a rendered date-time gives it back; so a token is refused
      exactly when no date-time renders to it. */
  lemma ParseOfFormat(st: DateTime)
    ensures ParseCompact(FormatCompact(st)) == Some(st)
  {
    CompactSlices(st);
    NumberOfPad(st.year, 4);
    NumberOfPad(st.month, 2);
    NumberOfPad(st.day, 2);
    NumberOfPad(st.hour, 2);
    NumberOfPad(st.minute, 2);
    NumberOfPad(st.second, 2);
  }

  /** A token is read as every date-time that renders to it. */
  lemma ParseAcceptsRenderings(tok: string)
    ensures forall st: DateTime :: FormatCompact(st) == tok ==> ParseCompact(tok) == Some(st)
  {
    forall st: DateTime | FormatCompact(st) == tok
      ensures ParseCompact(tok) == Some(st)
    {
      ParseOfFormat(st);
    }
  }

  lemma ParseRefusesOnlyNonStamps(tok: string)
    ensures ParseCompact(tok).None? <==> forall st: DateTime :: FormatCompact(st) != tok
  {
    if ParseCompact(tok).None? {
      forall st: DateTime ensures FormatCompact(st) != tok {
        ParseOfFormat(st);
      }
    }
  }

  // ---- strftime renderings -----------------------------------------------

  /** `strftime(st, "%Y-%m-%d")`: the date digits of the compact form,
      separated by hyphens. */
  function FormatDate(st: DateTime): (r: string)
    ensures |r| == 10 && r[4] == '-' && r[7] == '-'
    ensures IsDigits(r[0..4]) && IsDigits(r[5..7]) && IsDigits(r[8..10])
    ensures r == FormatCompact(st)[0..4] + "-" + FormatCompact(st)[4..6] + "-" + FormatCompact(st)[6..8]
  {
    CompactSlices(st);
    Pad(st.year, 4) + "-" + Pad(st.month, 2) + "-" + Pad(st.day, 2)
  }

  /** `strftime(st, "%H:%M:%S")`: the time digits of the compact form,
      separated by colons. */
  function FormatTime(st: DateTime): (r: string)
    ensures |r| == 8 && r[2] == ':' && r[5] == ':'
    ensures IsDigits(r[0..2]) && IsDigits(r[3..5]) && IsDigits(r[6..8])
    ensures r == FormatCompact(st)[8..10] + ":" + FormatCompact(st)[10..12] + ":" + FormatCompact(st)[12..14]
  {
    CompactSlices(st);
    Pad(st.hour, 2) + ":" + Pad(st.minute, 2) + ":" + Pad(st.second, 2)
  }

  /** A parsed token's date and time are its own digits, regrouped. */
  lemma FormatsOfToken(tok: string, st: DateTime)
    requires ParseCompact(tok) == Some(st)
    ensures FormatDate(st) == tok[0..4] + "-" + tok[4..6] + "-" + tok[6..8]
    ensures FormatTime(st) == tok[8..10] + ":" + tok[10..12] + ":" + tok[12..14]
  {
  }
}
