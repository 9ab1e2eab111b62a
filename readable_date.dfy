/**
 * `readable_date_from_string` (easycar/src/utils.rs): a timestamp of the form
 * `%Y-%m-%dT%H:%M:%S` becomes `<u><b>HH:MM</b></u>` followed by the space-padded day,
 * `-MM-YYYY`; anything that does not parse is returned unchanged.
 */
module ReadableDate {

  import opened Wrappers
  import opened Text

  datatype DateTime = DateTime(year: nat, month: nat, day: nat, hour: nat, minute: nat, second: nat)

  predicate LeapYear(y: nat)
  {
    y % 4 == 0 && (y % 100 != 0 || y % 400 == 0)
  }

  function DaysInMonth(y: nat, m: nat): nat
  {
    if m == 2 then (if LeapYear(y) then 29 else 28)
    else if m == 4 || m == 6 || m == 9 || m == 11 then 30
    else 31
  }

  /** A calendar date and a time of day; second 60 is a leap second. */
  predicate Valid(dt: DateTime)
  {
    dt.year < 10000 && 1 <= dt.month <= 12 && 1 <= dt.day <= DaysInMonth(dt.year, dt.month)
    && dt.hour < 24 && dt.minute < 60 && dt.second <= 60
  }

  /** Two digits, zero-padded. */
  function Pad2(n: nat): (r: string)
    requires n < 100
    ensures |r| == 2 && IsDigit(r[0]) && IsDigit(r[1])
  {
    [DigitChar(n / 10), DigitChar(n % 10)]
  }

  function Pad4(n: nat): (r: string)
    requires n < 10000
    ensures |r| == 4 && IsDigit(r[0]) && IsDigit(r[1]) && IsDigit(r[2]) && IsDigit(r[3])
  {
    Pad2(n / 100) + Pad2(n % 100)
  }

  /** `%e`: the day of the month, padded with a space to two characters. */
  function SpacePad2(n: nat): (r: string)
    requires n < 100
    ensures |r| == 2 && IsDigit(r[1]) && (r[0] == ' ' || IsDigit(r[0]))
  {
    if n < 10 then [' ', DigitChar(n)] else Pad2(n)
  }

  function Num2(a: char, b: char): nat
    requires IsDigit(a) && IsDigit(b)
  {
    10 * DigitValue(a) + DigitValue(b)
  }

  function Num4(a: char, b: char, c: char, d: char): nat
    requires IsDigit(a) && IsDigit(b) && IsDigit(c) && IsDigit(d)
  {
    100 * Num2(a, b) + Num2(c, d)
  }

  /** The canonical `%Y-%m-%dT%H:%M:%S` text of a date-time. */
  function Format(dt: DateTime): (t: string)
    requires Valid(dt)
    ensures |t| == 19
  {
    Pad4(dt.year) + "-" + Pad2(dt.month) + "-" + Pad2(dt.day) + "T"
    + Pad2(dt.hour) + ":" + Pad2(dt.minute) + ":" + Pad2(dt.second)
  }

  predicate Shape(t: string)
  {
    |t| == 19 && t[4] == '-' && t[7] == '-' && t[10] == 'T' && t[13] == ':' && t[16] == ':'
    && IsDigit(t[0]) && IsDigit(t[1]) && IsDigit(t[2]) && IsDigit(t[3])
    && IsDigit(t[5]) && IsDigit(t[6]) && IsDigit(t[8]) && IsDigit(t[9])
    && IsDigit(t[11]) && IsDigit(t[12]) && IsDigit(t[14]) && IsDigit(t[15])
    && IsDigit(t[17]) && IsDigit(t[18])
  }

  /** Reads a canonical timestamp; a wrong shape or an impossible date gives `None`. */
  function ParseTimestamp(t: string): (r: Option<DateTime>)
    ensures r.Some? ==> Valid(r.value)
  {
    if !Shape(t) then None
    else
      var dt := DateTime(Num4(t[0], t[1], t[2], t[3]), Num2(t[5], t[6]), Num2(t[8], t[9]),
                         Num2(t[11], t[12]), Num2(t[14], t[15]), Num2(t[17], t[18]));
      if Valid(dt) then Some(dt) else None
  }

  /** `<u><b>%H:%M</b></u>%e-%m-%Y`. */
  function Render(dt: DateTime): (r: string)
    requires Valid(dt)
    ensures |r| == 29
  {
    "<u><b>" + Pad2(dt.hour) + ":" + Pad2(dt.minute) + "</b></u>"
    + SpacePad2(dt.day) + "-" + Pad2(dt.month) + "-" + Pad4(dt.year)
  }

  function ReadableDateFromString(t: string): (r: string)
    ensures ParseTimestamp(t).None? ==> r == t
    ensures ParseTimestamp(t).Some? ==> r == Render(ParseTimestamp(t).value)
  {
    match ParseTimestamp(t)
    case None => t
    case Some(dt) => Render(dt)
  }

  lemma Pad2Value(n: nat)
    requires n < 100
    ensures Num2(Pad2(n)[0], Pad2(n)[1]) == n
  {
  }

  lemma Pad4Value(n: nat)
    requires n < 10000
    ensures Num4(Pad4(n)[0], Pad4(n)[1], Pad4(n)[2], Pad4(n)[3]) == n
  {
    Pad2Value(n / 100);
    Pad2Value(n % 100);
  }

  /** Every valid date-time is read back from its canonical text. */
  lemma TimestampRoundTrip(dt: DateTime)
    requires Valid(dt)
    ensures ParseTimestamp(Format(dt)) == Some(dt)
  {
    var t := Format(dt);
    Pad4Value(dt.year);
    Pad2Value(dt.month);
    Pad2Value(dt.day);
    Pad2Value(dt.hour);
    Pad2Value(dt.minute);
    Pad2Value(dt.second);
    assert t[0..4] == Pad4(dt.year);
    assert t[5..7] == Pad2(dt.month);
    assert t[8..10] == Pad2(dt.day);
    assert t[11..13] == Pad2(dt.hour);
    assert t[14..16] == Pad2(dt.minute);
    assert t[17..19] == Pad2(dt.second);
  }

  lemma Num2Pad2(a: char, b: char)
    requires IsDigit(a) && IsDigit(b)
    ensures Pad2(Num2(a, b)) == [a, b]
  {
  }

  lemma Num4Pad4(a: char, b: char, c: char, d: char)
    requires IsDigit(a) && IsDigit(b) && IsDigit(c) && IsDigit(d)
    ensures Pad4(Num4(a, b, c, d)) == [a, b, c, d]
  {
    var x, y := Num2(a, b), Num2(c, d);
    assert (100 * x + y) / 100 == x && (100 * x + y) % 100 == y;
    Num2Pad2(a, b);
    Num2Pad2(c, d);
  }

  /** Only canonical text parses: whatever is accepted is the format of what it yields. */
  lemma ParsedIsCanonical(t: string)
    requires ParseTimestamp(t).Some?
    ensures Format(ParseTimestamp(t).value) == t
  {
    var dt := ParseTimestamp(t).value;
    assert Shape(t);
    assert dt == DateTime(Num4(t[0], t[1], t[2], t[3]), Num2(t[5], t[6]), Num2(t[8], t[9]),
                          Num2(t[11], t[12]), Num2(t[14], t[15]), Num2(t[17], t[18]));
    Num4Pad4(t[0], t[1], t[2], t[3]);
    Num2Pad2(t[5], t[6]);
    Num2Pad2(t[8], t[9]);
    Num2Pad2(t[11], t[12]);
    Num2Pad2(t[14], t[15]);
    Num2Pad2(t[17], t[18]);
    ShapeSplits(t);
  }

  /** A well-shaped timestamp is its fields joined by the fixed separators. */
  lemma ShapeSplits(t: string)
    requires Shape(t)
    ensures t == [t[0], t[1], t[2], t[3]] + "-" + [t[5], t[6]] + "-" + [t[8], t[9]] + "T"
                 + [t[11], t[12]] + ":" + [t[14], t[15]] + ":" + [t[17], t[18]]
  {
  }

  /** The input comes back unchanged exactly when it is not a timestamp. */
  lemma UnchangedIffUnparsed(t: string)
    ensures ReadableDateFromString(t) == t <==> ParseTimestamp(t).None?
  {
  }

  /** The seconds are dropped: timestamps differing only in seconds read the same. */
  lemma SecondsDropped(dt: DateTime, s: nat)
    requires Valid(dt) && s <= 60
    ensures Render(dt.(second := s)) == Render(dt)
  {
  }

  /** Everything but the seconds can be read back from the rendered text. */
  lemma RenderInjectiveUpToSeconds(a: DateTime, b: DateTime)
    requires Valid(a) && Valid(b)
    requires Render(a) == Render(b)
    ensures a.(second := 0) == b.(second := 0)
  {
    var ra, rb := Render(a), Render(b);
    assert ra[6..8] == Pad2(a.hour) && rb[6..8] == Pad2(b.hour);
    assert ra[9..11] == Pad2(a.minute) && rb[9..11] == Pad2(b.minute);
    assert ra[19..21] == SpacePad2(a.day) && rb[19..21] == SpacePad2(b.day);
    assert ra[22..24] == Pad2(a.month) && rb[22..24] == Pad2(b.month);
    assert ra[25..29] == Pad4(a.year) && rb[25..29] == Pad4(b.year);
    Pad2Value(a.hour); Pad2Value(b.hour);
    Pad2Value(a.minute); Pad2Value(b.minute);
    Pad2Value(a.month); Pad2Value(b.month);
    Pad4Value(a.year); Pad4Value(b.year);
    SpacePad2Injective(a.day, b.day);
  }

  lemma SpacePad2Injective(m: nat, n: nat)
    requires m < 100 && n < 100 && SpacePad2(m) == SpacePad2(n)
    ensures m == n
  {
    if m >= 10 { Pad2Value(m); }
    if n >= 10 { Pad2Value(n); }
  }

  /** A worked example: a morning exam on the fifth of March. */
  lemma Example()
    ensures ReadableDateFromString("2024-03-05T09:30:15") == "<u><b>" + "09:30" + "</b></u>" + " 5-03-2024"
  {
    ExampleParses();
    ExampleRenders();
  }

  lemma ExampleParses()
    ensures ParseTimestamp("2024-03-05T09:30:15") == Some(DateTime(2024, 3, 5, 9, 30, 15))
  {
    var t := "2024-03-05T09:30:15";
    assert Shape(t);
  }

  lemma ExampleRenders()
    ensures Render(DateTime(2024, 3, 5, 9, 30, 15)) == "<u><b>" + "09:30" + "</b></u>" + " 5-03-2024"
  {
    ExampleFields();
    var dt := DateTime(2024, 3, 5, 9, 30, 15);
    assert Render(dt) == "<u><b>" + "09" + ":" + "30" + "</b></u>" + " 5" + "-" + "03" + "-" + "2024";
  }

  lemma ExampleFields()
    ensures Pad4(2024) == "2024"
    ensures Pad2(9) == "09" && Pad2(30) == "30" && Pad2(3) == "03"
    ensures SpacePad2(5) == " 5"
  {
    assert Pad2(20) == "20" && Pad2(24) == "24";
  }

  /** The twenty-ninth of February of a common year is no date, so the text is kept. */
  lemma ImpossibleDateUnchanged()
    ensures ReadableDateFromString("2023-02-29T10:00:00") == "2023-02-29T10:00:00"
  {
    var t := "2023-02-29T10:00:00";
    assert Shape(t);
    assert Num4(t[0], t[1], t[2], t[3]) == 2023;
    assert Num2(t[5], t[6]) == 2 && Num2(t[8], t[9]) == 29;
  }
}
