/**
 * The bot's command handling that is not message sending
 * (easycar/src/service/mod.rs): which commands reach the spinner handler, the `/pay`
 * argument split, the `TooFewArguments` message, the reservations listing and the
 * status reason.
 */
module Commands {

  import opened Wrappers
  import Text
  import ReservationStatuses

  // ---- whitespace splitting ----

  /** Rust's `char::is_whitespace`: the Unicode White_Space property. */
  predicate IsWhitespace(c: char)
  {
    var n := c as int;
    (9 <= n <= 13) || n == 32 || n == 0x85 || n == 0xA0 || n == 0x1680 || (0x2000 <= n <= 0x200A)
    || n == 0x2028 || n == 0x2029 || n == 0x202F || n == 0x205F || n == 0x3000
  }

  /** A piece of text `split_whitespace` can yield: non-empty, no whitespace in it. */
  predicate IsWord(w: string)
  {
    |w| > 0 && forall k :: 0 <= k < |w| ==> !IsWhitespace(w[k])
  }

  /** Length of the run of non-whitespace characters at the front of `s`. */
  function TokenLength(s: string): (n: nat)
    ensures n <= |s|
    ensures forall k :: 0 <= k < n ==> !IsWhitespace(s[k])
    ensures n < |s| ==> IsWhitespace(s[n])
  {
    if |s| == 0 || IsWhitespace(s[0]) then 0 else 1 + TokenLength(s[1..])
  }

  /** `s.split_whitespace()`, collected: the maximal runs of non-whitespace, in order. */
  function Words(s: string): (ws: seq<string>)
    ensures forall i :: 0 <= i < |ws| ==> IsWord(ws[i])
    decreases |s|
  {
    if |s| == 0 then []
    else if IsWhitespace(s[0]) then Words(s[1..])
    else
      var n := TokenLength(s);
      [s[..n]] + Words(s[n..])
  }

  lemma {:induction false} TokenLengthOfRun(s: string, n: nat)
    requires n <= |s|
    requires forall k :: 0 <= k < n ==> !IsWhitespace(s[k])
    requires n < |s| ==> IsWhitespace(s[n])
    ensures TokenLength(s) == n
  {
    if n > 0 {
      TokenLengthOfRun(s[1..], n - 1);
    }
  }

  /** Leading whitespace is skipped. */
  lemma WordsSkipSpace(s: string, i: nat)
    requires i < |s| && IsWhitespace(s[i])
    ensures Words(s[i..]) == Words(s[i + 1..])
  {
    assert s[i..][1..] == s[i + 1..];
  }

  /** A maximal run of non-whitespace starting at `i` is the first word of `s[i..]`. */
  lemma WordsAfterRun(s: string, i: nat, j: nat)
    requires i < j <= |s|
    requires forall k :: i <= k < j ==> !IsWhitespace(s[k])
    requires j < |s| ==> IsWhitespace(s[j])
    ensures Words(s[i..]) == [s[i..j]] + Words(s[j..])
  {
    TokenLengthOfRun(s[i..], j - i);
    assert s[i..][..j - i] == s[i..j];
    assert s[i..][j - i..] == s[j..];
  }

  /**
   * The iterator's `next()`: skip whitespace from `from`, then take the run of
   * non-whitespace that follows. It yields the first word of what is left, and leaves
   * the remaining words for the next call.
   */
  method NextWord(s: string, from: nat) returns (word: Option<string>, next: nat)
    requires from <= |s|
    ensures from <= next <= |s|
    ensures word.None? <==> Words(s[from..]) == []
    ensures word.Some? ==> word.value == Words(s[from..])[0]
                           && Words(s[next..]) == Words(s[from..])[1..]
  {
    var i := from;
    while i < |s| && IsWhitespace(s[i])
      invariant from <= i <= |s|
      invariant Words(s[i..]) == Words(s[from..])
    {
      WordsSkipSpace(s, i);
      i := i + 1;
    }
    if i == |s| {
      return None, i;
    }
    var j := i;
    while j < |s| && !IsWhitespace(s[j])
      invariant i <= j <= |s|
      invariant forall k :: i <= k < j ==> !IsWhitespace(s[k])
    {
      j := j + 1;
    }
    WordsAfterRun(s, i, j);
    return Some(s[i..j]), j;
  }

  // ---- /pay ----

  datatype AnswerError = TooFewArguments(expected: nat, got: nat) | Other(message: string)

  /** `"Too few arguments! Expected: {0}, got {1}!"`; the other variants are transparent. */
  function ErrorText(e: AnswerError): string
  {
    match e
    case TooFewArguments(expected, got) =>
      "Too few arguments! Expected: " + Text.IntText(expected) + ", got " + Text.IntText(got) + "!"
    case Other(message) => message
  }

  /** The message a bare `/pay` produces. */
  lemma NoArgumentsText()
    ensures ErrorText(TooFewArguments(2, 0)) == "Too few arguments! Expected: 2, got 0!"
  {
    assert Text.IntText(2) == "2" && Text.IntText(0) == "0";
  }

  /** Different counts always give different messages, so the message names both numbers. */
  lemma TooFewArgumentsTextInjective(e1: nat, g1: nat, e2: nat, g2: nat)
    requires ErrorText(TooFewArguments(e1, g1)) == ErrorText(TooFewArguments(e2, g2))
    ensures e1 == e2 && g1 == g2
  {
    var lead := "Too few arguments! Expected: ";
    var a1, a2 := Text.IntText(e1), Text.IntText(e2);
    var b1, b2 := Text.IntText(g1), Text.IntText(g2);
    var s1 := lead + (a1 + (", got " + (b1 + "!")));
    var s2 := lead + (a2 + (", got " + (b2 + "!")));
    assert s1 == ErrorText(TooFewArguments(e1, g1)) && s2 == ErrorText(TooFewArguments(e2, g2));
    assert s1[|lead|..] == a1 + (", got " + (b1 + "!"));
    assert s2[|lead|..] == a2 + (", got " + (b2 + "!"));
    NoCommaInIntText(e1);
    NoCommaInIntText(e2);
    SameBeforeMark(a1, ", got " + (b1 + "!"), a2, ", got " + (b2 + "!"), ',');
    assert ", got " + (b1 + "!") == (a1 + (", got " + (b1 + "!")))[|a1|..];
    assert ", got " + (b2 + "!") == (a2 + (", got " + (b2 + "!")))[|a2|..];
    Text.IntRoundTrip(e1);
    Text.IntRoundTrip(e2);
    assert (", got " + (b1 + "!"))[6..] == b1 + "!";
    assert (", got " + (b2 + "!"))[6..] == b2 + "!";
    assert b1 == (b1 + "!")[..|b1|] && b2 == (b2 + "!")[..|b2|];
    Text.IntRoundTrip(g1);
    Text.IntRoundTrip(g2);
  }

  lemma NoCommaInIntText(i: int)
    ensures ',' !in Text.IntText(i)
  {
    var t := Text.IntText(i);
    forall k | 0 <= k < |t|
      ensures t[k] != ','
    {
      assert t[k] == '-' || Text.IsDigit(t[k]);
    }
  }

  /** Two texts that agree up to a first occurrence of `c` agree on what comes before it. */
  lemma SameBeforeMark(a: string, x: string, b: string, y: string, c: char)
    requires a + x == b + y
    requires c !in a && c !in b
    requires |x| > 0 && x[0] == c && |y| > 0 && y[0] == c
    ensures a == b
  {
    MarkAt(a, x, c);
    MarkAt(b, y, c);
    assert |a| == |b|;
    assert a == (a + x)[..|a|];
    assert b == (b + y)[..|b|];
  }

  /** In `a + x` with `x` starting with `c` and no `c` in `a`, the first `c` is at `|a|`. */
  lemma MarkAt(a: string, x: string, c: char)
    requires c !in a && |x| > 0 && x[0] == c
    ensures (a + x)[|a|] == c
    ensures forall k :: 0 <= k < |a| ==> (a + x)[k] != c
  {
    forall k | 0 <= k < |a|
      ensures (a + x)[k] != c
    {
      assert (a + x)[k] == a[k];
    }
  }

  datatype PayArguments = PayArguments(reservationId: string, blikCode: string)

  /** Splits `/pay`'s text: reservation id, then BLIK code; further words are ignored. */
  method ParsePay(commands: string) returns (r: Result<PayArguments, AnswerError>)
    ensures |Words(commands)| == 0 ==> r == Err(TooFewArguments(2, 0))
    ensures |Words(commands)| == 1 ==> r == Err(TooFewArguments(2, 1))
    ensures |Words(commands)| >= 2 ==> r == Ok(PayArguments(Words(commands)[0], Words(commands)[1]))
  {
    assert commands[0..] == commands;
    var reservationId, next := NextWord(commands, 0);
    if reservationId.None? {
      return Err(TooFewArguments(2, 0));
    }
    var blikCode, _ := NextWord(commands, next);
    if blikCode.None? {
      return Err(TooFewArguments(2, 1));
    }
    return Ok(PayArguments(reservationId.value, blikCode.value));
  }

  lemma {:induction false} WordsOfWordThen(w: string, rest: string)
    requires IsWord(w)
    requires |rest| > 0 && IsWhitespace(rest[0])
    ensures Words(w + rest) == [w] + Words(rest)
  {
    var s := w + rest;
    TokenLengthOfRun(s, |w|);
    assert s[..|w|] == w;
    assert s[|w|..] == rest;
  }

  lemma {:induction false} WordsOfWord(w: string)
    requires IsWord(w)
    ensures Words(w) == [w]
  {
    TokenLengthOfRun(w, |w|);
    assert w[..|w|] == w;
    assert w[|w|..] == [];
    assert Words([]) == [];
  }

  lemma {:induction false} WordsOfSpace(rest: string)
    ensures Words(" " + rest) == Words(rest)
  {
    assert (" " + rest)[1..] == rest;
  }

  /** Words joined by single spaces are split back into the same words. */
  lemma {:induction false} WordsOfJoin(ws: seq<string>)
    requires forall i :: 0 <= i < |ws| ==> IsWord(ws[i])
    ensures Words(Text.Join(ws, " ")) == ws
  {
    if |ws| == 1 {
      WordsOfWord(ws[0]);
    } else if |ws| > 1 {
      var rest := Text.Join(ws[1..], " ");
      assert Text.Join(ws, " ") == ws[0] + (" " + rest);
      WordsOfWordThen(ws[0], " " + rest);
      WordsOfSpace(rest);
      WordsOfJoin(ws[1..]);
    }
  }

  /** Typed as `/pay <id> <code>`, the two arguments arrive as given. */
  lemma PayOfTwoWords(id: string, code: string)
    requires IsWord(id) && IsWord(code)
    ensures Words(id + " " + code) == [id, code]
  {
    WordsOfJoin([id, code]);
    assert Text.Join([id, code], " ") == id + " " + code;
  }

  // ---- status and reservations listing ----

  /** `message.unwrap_or("None")`. */
  function Reason(message: Option<string>): (r: string)
    ensures message.Some? ==> r == message.value
    ensures message.None? ==> r == "None"
  {
    match message
    case Some(m) => m
    case None => "None"
  }

  /** A missing reason and a reason that reads "None" are shown alike. */
  lemma ReasonAmbiguous()
    ensures Reason(None) == Reason(Some("None"))
  {
  }

  datatype ExamSlot = ExamSlot(examId: string, date: string)

  datatype ReservationItem = ReservationItem(theory: Option<ExamSlot>, practice: Option<ExamSlot>,
                                             organizationUnitName: string,
                                             status: ReservationStatuses.PossibleStatus)

  /** `practice.or(theory).unwrap().date`: `None` stands for the panic when both are absent. */
  function ReservationDate(v: ReservationItem): (r: Option<string>)
    ensures r.None? <==> v.practice.None? && v.theory.None?
    ensures v.practice.Some? ==> r == Some(v.practice.value.date)
    ensures v.practice.None? && v.theory.Some? ==> r == Some(v.theory.value.date)
  {
    if v.practice.Some? then Some(v.practice.value.date)
    else if v.theory.Some? then Some(v.theory.value.date)
    else None
  }

  /** `"• At {date} in {name} ({status})\n\n"`. */
  function ReservationLine(date: string, v: ReservationItem): string
  {
    "• At " + date + " in " + v.organizationUnitName + " ("
    + ReservationStatuses.Display(v.status) + ")\n\n"
  }

  /** The listing of the first items, or `None` once an item without any date panics. */
  function Listing(items: seq<ReservationItem>): Option<string>
  {
    if |items| == 0 then Some("")
    else Extend(Listing(items[..|items| - 1]), items[|items| - 1])
  }

  /** One step of the fold: append the item's line, or panic when it has no date. */
  function Extend(prefix: Option<string>, v: ReservationItem): (r: Option<string>)
    ensures r.Some? <==> prefix.Some? && ReservationDate(v).Some?
  {
    if prefix.None? || ReservationDate(v).None? then None
    else Some(prefix.value + ReservationLine(ReservationDate(v).value, v))
  }

  /** The listing exists exactly when every reservation has a practice or a theory date. */
  lemma {:induction false} ListingDefinedIff(items: seq<ReservationItem>)
    ensures Listing(items).Some? <==> forall i :: 0 <= i < |items| ==> ReservationDate(items[i]).Some?
  {
    if |items| > 0 {
      var front := items[..|items| - 1];
      ListingDefinedIff(front);
      if Listing(items).Some? {
        forall i | 0 <= i < |items|
          ensures ReservationDate(items[i]).Some?
        {
          if i < |front| {
            assert front[i] == items[i];
          }
        }
      }
      if forall i :: 0 <= i < |items| ==> ReservationDate(items[i]).Some? {
        forall i | 0 <= i < |front|
          ensures ReservationDate(front[i]).Some?
        {
          assert front[i] == items[i];
        }
      }
    }
  }

  /** The fold that builds the reservations answer. */
  method ListReservations(items: seq<ReservationItem>) returns (r: Option<string>)
    ensures r == Listing(items)
  {
    var output := "";
    var i := 0;
    while i < |items|
      invariant 0 <= i <= |items|
      invariant Listing(items[..i]) == Some(output)
    {
      assert items[..i + 1][..i] == items[..i];
      var date := ReservationDate(items[i]);
      if date.None? {
        ListingDefinedIff(items);
        return None;
      }
      output := output + ReservationLine(date.value, items[i]);
      i := i + 1;
    }
    assert items[..i] == items;
    return Some(output);
  }

  lemma ExtendAssociates(x: string, y: string, v: ReservationItem)
    requires ReservationDate(v).Some?
    ensures Extend(Some(x + y), v).value == x + Extend(Some(y), v).value
  {
    var line := ReservationLine(ReservationDate(v).value, v);
    assert (x + y) + line == x + (y + line);
  }

  /** Listing more reservations extends the text: each item adds exactly its own line. */
  lemma {:induction false} ListingAppend(items: seq<ReservationItem>, more: seq<ReservationItem>)
    requires Listing(items + more).Some?
    ensures Listing(items).Some? && Listing(more).Some?
    ensures Listing(items + more).value == Listing(items).value + Listing(more).value
    decreases |more|
  {
    if |more| == 0 {
      assert items + more == items;
      assert Listing(more) == Some("");
      assert Listing(items).value + "" == Listing(items).value;
    } else {
      var all := items + more;
      var front := more[..|more| - 1];
      var last := more[|more| - 1];
      assert all[..|all| - 1] == items + front;
      assert all[|all| - 1] == last;
      var a := Listing(items + front);
      assert Listing(all) == Extend(a, last);
      ListingAppend(items, front);
      var b := Listing(front);
      assert Listing(more) == Extend(b, last);
      ExtendAssociates(Listing(items).value, b.value, last);
    }
  }

  // ---- routing ----

  datatype Command =
    | Help | Uptime | ChatId | Exams | Exam | Reservations
    | Enroll(examId: string) | Status(reservationId: string) | Pay(arguments: string)
    | Cancel(reservationId: string)

  datatype Handler = Direct | Spinner

  /** `answer`: four commands reply at once, all others go through the spinner. */
  function Route(cmd: Command): Handler
  {
    match cmd
    case Help => Direct
    case Uptime => Direct
    case ChatId => Direct
    case Exam => Direct
    case _ => Spinner
  }

  /** The arms of `handle_spinner_cmd` other than its `unreachable!()` fallback. */
  predicate SpinnerArm(cmd: Command)
  {
    cmd.Exams? || cmd.Reservations? || cmd.Enroll? || cmd.Status? || cmd.Cancel? || cmd.Pay?
  }

  /** The spinner handler sees exactly the commands it has an arm for, so the fallback never runs. */
  lemma RoutingCoversSpinnerArms(cmd: Command)
    ensures Route(cmd) == Spinner <==> SpinnerArm(cmd)
    ensures cmd.Help? || cmd.Uptime? || cmd.ChatId? || cmd.Exam? ==> Route(cmd) == Direct
  {
  }
}
