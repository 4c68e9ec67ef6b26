/** Calendar date-times as Python's `datetime` holds them, and the one
    fixed-width filename timestamp `YYYYMMDD_HHMMSS` that the pipeline parses
    with `strptime(..., "%Y%m%d_%H%M%S")`. */
module Dates {
  import opened Base
  import opened Text

  datatype DateTime = DateTime(year: int, month: int, day: int,
                               hour: int, minute: int, second: int, microsecond: int)

  predicate IsLeapYear(y: int) { y % 4 == 0 && (y % 100 != 0 || y % 400 == 0) }

  function DaysInMonth(y: int, m: int): (n: int)
    ensures 28 <= n <= 31
  {
    if m == 2 then (if IsLeapYear(y) then 29 else 28)
    else if m == 4 || m == 6 || m == 9 || m == 11 then 30
    else 31
  }

  /** The range checks `datetime(...)` performs on construction. */
  predicate Valid(d: DateTime)
  {
    && 1 <= d.year <= 9999
    && 1 <= d.month <= 12
    && 1 <= d.day <= DaysInMonth(d.year, d.month)
    && 0 <= d.hour < 24
    && 0 <= d.minute < 60
    && 0 <= d.second < 60
    && 0 <= d.microsecond < 1000000
  }

  /** A `datetime` object: every value Python can hold. */
  type Instant = d: DateTime | Valid(d) witness DateTime(1970, 1, 1, 0, 0, 0, 0)

  /** The instant without its sub-second part. */
  function WholeSeconds(d: Instant): (r: Instant)
    ensures r.microsecond == 0
  {
    d.(microsecond := 0)
  }

  /** The canonical 15-character form `YYYYMMDD_HHMMSS` of an instant
      (the form the imagery provider puts at the head of its file names). */
  function FormatTimestamp(d: Instant): (s: string)
    ensures |s| == 15
  {
    Pad4(d.year) + Pad2(d.month) + Pad2(d.day) + "_" + Pad2(d.hour) + Pad2(d.minute) + Pad2(d.second)
  }

  predicate TimestampShape(s: string)
  {
    |s| == 15 && AllDigits(s[..8]) && s[8] == '_' && AllDigits(s[9..])
  }

  /** The fields read at their fixed positions; requires only the shape. */
  function TimestampFields(s: string): DateTime
    requires TimestampShape(s)
  {
    assert AllDigits(s[..4]) && AllDigits(s[4..6]) && AllDigits(s[6..8]);
    assert AllDigits(s[9..11]) && AllDigits(s[11..13]) && AllDigits(s[13..15]);
    DateTime(DecimalValue(s[..4]), DecimalValue(s[4..6]), DecimalValue(s[6..8]),
             DecimalValue(s[9..11]), DecimalValue(s[11..13]), DecimalValue(s[13..15]), 0)
  }

  /** `datetime.strptime(s, "%Y%m%d_%H%M%S")` on the canonical form: anything that is not
      eight digits, '_', six digits naming a real calendar instant raises ValueError. */
  function ParseTimestamp(s: string): (r: Result<Instant>)
    ensures r.Ok? ==> r.value.microsecond == 0
    ensures r.Err? ==> r.error == ValueError
  {
    if TimestampShape(s) && Valid(TimestampFields(s)) then Ok(TimestampFields(s)) else Err(ValueError)
  }

  /** The pieces of a formatted timestamp are the padded fields. */
  lemma FormatTimestampPieces(d: Instant)
    ensures var s := FormatTimestamp(d);
      && s[..4] == Pad4(d.year) && s[4..6] == Pad2(d.month) && s[6..8] == Pad2(d.day)
      && s[8] == '_'
      && s[9..11] == Pad2(d.hour) && s[11..13] == Pad2(d.minute) && s[13..15] == Pad2(d.second)
  {
  }

  /** Round trip: parsing the canonical form of an instant gives the instant back,
      without its sub-second part. */
  lemma ParseFormatTimestamp(d: Instant)
    ensures ParseTimestamp(FormatTimestamp(d)) == Ok(WholeSeconds(d))
  {
    var s := FormatTimestamp(d);
    FormatTimestampPieces(d);
    assert s[..8] == s[..4] + s[4..6] + s[6..8];
    assert s[9..] == s[9..11] + s[11..13] + s[13..15];
    assert TimestampShape(s);
    Pad4RoundTrip(d.year);
    Pad2RoundTrip(d.month);
    Pad2RoundTrip(d.day);
    Pad2RoundTrip(d.hour);
    Pad2RoundTrip(d.minute);
    Pad2RoundTrip(d.second);
    assert TimestampFields(s) == WholeSeconds(d);
  }

  /** The six digit groups of a well-shaped timestamp. */
  lemma ShapeDigits(s: string)
    requires TimestampShape(s)
    ensures AllDigits(s[..4]) && AllDigits(s[4..6]) && AllDigits(s[6..8])
    ensures AllDigits(s[9..11]) && AllDigits(s[11..13]) && AllDigits(s[13..15])
  {
    assert forall i :: 0 <= i < 4 ==> s[..4][i] == s[..8][i];
    assert forall i :: 0 <= i < 2 ==> s[4..6][i] == s[..8][i + 4] && s[6..8][i] == s[..8][i + 6];
    assert forall i :: 0 <= i < 2 ==> s[9..11][i] == s[9..][i] && s[11..13][i] == s[9..][i + 2] && s[13..15][i] == s[9..][i + 4];
  }

  /** A 15-character string is the concatenation of its timestamp pieces. */
  lemma Reassemble(s: string)
    requires |s| == 15 && s[8] == '_'
    ensures s[..4] + s[4..6] + s[6..8] + "_" + s[9..11] + s[11..13] + s[13..15] == s
  {
    assert s[..8] == s[..4] + s[4..6] + s[6..8];
    assert s[9..] == s[9..11] + s[11..13] + s[13..15];
    assert s == s[..8] + "_" + s[9..];
  }

  /** The other direction: a string that parses is the canonical form of what it parses to,
      so no two accepted strings name the same instant. */
  lemma FormatParseTimestamp(s: string)
    requires ParseTimestamp(s).Ok?
    ensures FormatTimestamp(ParseTimestamp(s).value) == s
  {
    var d := ParseTimestamp(s).value;
    ShapeDigits(s);
    assert d == TimestampFields(s);
    Pad4OfValue(s[..4]);
    Pad2OfValue(s[4..6]);
    Pad2OfValue(s[6..8]);
    Pad2OfValue(s[9..11]);
    Pad2OfValue(s[11..13]);
    Pad2OfValue(s[13..15]);
    assert FormatTimestamp(d) == s[..4] + s[4..6] + s[6..8] + "_" + s[9..11] + s[11..13] + s[13..15];
    Reassemble(s);
  }
}
