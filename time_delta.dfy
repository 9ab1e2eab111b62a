/**
 * `readable_time_delta` (easycar/src/utils.rs and src/utils.rs, identical): a signed
 * duration, taken as its whole number of seconds, split into days, hours, minutes and
 * seconds with Rust's truncating `/` and `%`.
 */
module TimeDelta {

  import opened Wrappers
  import Text

  /** Rust's integer `/`: the quotient rounded toward zero. */
  function TDiv(a: int, b: int): (q: int)
    requires b > 0
    ensures a >= 0 ==> q >= 0
    ensures a <= 0 ==> q <= 0
  {
    if a >= 0 then a / b else -((-a) / b)
  }

  /** Rust's integer `%`: the remainder takes the sign of the dividend. */
  function TRem(a: int, b: int): (r: int)
    requires b > 0
    ensures -b < r < b
    ensures a >= 0 ==> 0 <= r
    ensures a <= 0 ==> r <= 0
    ensures a == b * TDiv(a, b) + r
  {
    a - b * TDiv(a, b)
  }

  datatype Components = Components(days: int, hours: int, minutes: int, seconds: int)

  /** `num_days()`, `num_hours() % 24`, `num_minutes() % 60`, `num_seconds() % 60`. */
  function ComponentsOf(s: int): (c: Components)
    ensures -24 < c.hours < 24 && -60 < c.minutes < 60 && -60 < c.seconds < 60
    ensures s >= 0 ==> c.days >= 0 && c.hours >= 0 && c.minutes >= 0 && c.seconds >= 0
    ensures s <= 0 ==> c.days <= 0 && c.hours <= 0 && c.minutes <= 0 && c.seconds <= 0
  {
    Components(TDiv(s, 86400), TRem(TDiv(s, 3600), 24), TRem(TDiv(s, 60), 60), TRem(s, 60))
  }

  function Total(c: Components): int
  {
    c.days * 86400 + c.hours * 3600 + c.minutes * 60 + c.seconds
  }

  /** Whole hours of whole minutes are the whole hours: truncation composes. */
  lemma NestedTruncation(s: int)
    ensures TDiv(TDiv(s, 60), 60) == TDiv(s, 3600)
    ensures TDiv(TDiv(s, 3600), 24) == TDiv(s, 86400)
  {
  }

  /** The components add back up to the duration, for every sign. */
  lemma Recompose(s: int)
    ensures Total(ComponentsOf(s)) == s
  {
    NestedTruncation(s);
  }

  /** Negating the duration negates every component. */
  lemma OddSymmetry(s: int)
    ensures ComponentsOf(-s) == Components(-ComponentsOf(s).days, -ComponentsOf(s).hours,
                                           -ComponentsOf(s).minutes, -ComponentsOf(s).seconds)
  {
    TDivOdd(s, 86400);
    NestedRemOdd(s, 3600, 24);
    NestedRemOdd(s, 60, 60);
    TRemOdd(s, 60);
  }

  /** The remainder of a truncated quotient is odd in the dividend as well. */
  lemma NestedRemOdd(s: int, b: int, m: int)
    requires b > 0 && m > 0
    ensures TRem(TDiv(-s, b), m) == -TRem(TDiv(s, b), m)
  {
    TDivOdd(s, b);
    TRemOdd(TDiv(s, b), m);
  }

  /** Truncating division is odd in its dividend. */
  lemma TDivOdd(a: int, b: int)
    requires b > 0
    ensures TDiv(-a, b) == -TDiv(a, b)
  {
  }

  /** So is the remainder that goes with it. */
  lemma TRemOdd(a: int, b: int)
    requires b > 0
    ensures TRem(-a, b) == -TRem(a, b)
  {
    TDivOdd(a, b);
  }

  /** `"{days} days, {hours} hours, {minutes} minutes, {seconds} seconds"`. */
  function Readable(s: int): string
  {
    Describe(ComponentsOf(s))
  }

  function Describe(c: Components): string
  {
    Text.IntText(c.days) + " days, " + Text.IntText(c.hours) + " hours, "
    + Text.IntText(c.minutes) + " minutes, " + Text.IntText(c.seconds) + " seconds"
  }

  /** Index of the first space, or the length when there is none. */
  function FirstSpace(t: string): (i: nat)
    ensures i <= |t|
    ensures i < |t| ==> t[i] == ' '
    ensures forall k :: 0 <= k < i ==> t[k] != ' '
  {
    if |t| == 0 || t[0] == ' ' then 0 else 1 + FirstSpace(t[1..])
  }

  /** Reads `<integer><tag>` off the front of `t`. */
  function ReadField(t: string, tag: string): Option<Field>
  {
    var i := FirstSpace(t);
    var v := Text.ParseInt(t[..i]);
    var n := |tag|;
    if v.Some? && tag <= t[i..] then Some(Field(v.value, t[i + n..])) else None
  }

  datatype Field = Field(value: int, rest: string)

  /** Reads the four numbers back out of a readable duration. */
  function ParseReadable(t: string): Option<Components>
  {
    var f1 := ReadField(t, " days, ");
    if f1.None? then None else
    var f2 := ReadField(f1.value.rest, " hours, ");
    if f2.None? then None else
    var f3 := ReadField(f2.value.rest, " minutes, ");
    if f3.None? then None else
    var f4 := ReadField(f3.value.rest, " seconds");
    if f4.None? || f4.value.rest != "" then None
    else Some(Components(f1.value.value, f2.value.value, f3.value.value, f4.value.value))
  }

  lemma {:induction false} FirstSpaceAfterWord(w: string, rest: string)
    requires forall k :: 0 <= k < |w| ==> w[k] != ' '
    requires |rest| > 0 && rest[0] == ' '
    ensures FirstSpace(w + rest) == |w|
  {
    if |w| > 0 {
      assert (w + rest)[1..] == w[1..] + rest;
      FirstSpaceAfterWord(w[1..], rest);
    }
  }

  lemma ReadFieldOf(i: int, tag: string, rest: string)
    requires |tag| > 0 && tag[0] == ' '
    ensures ReadField(Text.IntText(i) + tag + rest, tag) == Some(Field(i, rest))
  {
    var w := Text.IntText(i);
    var t := w + tag + rest;
    assert t == w + (tag + rest);
    FirstSpaceAfterWord(w, tag + rest);
    assert t[..|w|] == w;
    assert t[|w|..] == tag + rest;
    assert t[|w| + |tag|..] == rest;
    Text.IntRoundTrip(i);
  }

  /** The text names the components exactly, so they can be read back from it. */
  lemma ParseReadableRoundTrip(s: int)
    ensures ParseReadable(Readable(s)) == Some(ComponentsOf(s))
  {
    ParseDescribed(ComponentsOf(s));
  }

  /** Any four numbers written in that form are read back as written. */
  lemma ParseDescribed(c: Components)
    ensures ParseReadable(Describe(c)) == Some(c)
  {
    var d, h, m, x := Text.IntText(c.days), Text.IntText(c.hours), Text.IntText(c.minutes),
                      Text.IntText(c.seconds);
    var r3 := x + " seconds";
    var r2 := m + " minutes, " + r3;
    var r1 := h + " hours, " + r2;
    assert Describe(c) == d + " days, " + r1;
    ReadFieldOf(c.days, " days, ", r1);
    ReadFieldOf(c.hours, " hours, ", r2);
    ReadFieldOf(c.minutes, " minutes, ", r3);
    ReadFieldOf(c.seconds, " seconds", "");
    assert r3 == x + " seconds" + "";
  }

  /** Distinct durations (in whole seconds) always read differently. */
  lemma ReadableInjective(s: int, t: int)
    ensures Readable(s) == Readable(t) ==> s == t
  {
    ParseReadableRoundTrip(s);
    ParseReadableRoundTrip(t);
    Recompose(s);
    Recompose(t);
  }
}
