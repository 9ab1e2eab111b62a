/**
 * The exam schedule as the booking portal returns it (day -> hour -> exams) and the
 * flattening of info-car-api/src/utils.rs: `flat_map` over days, then hours, then the
 * `practice_exams` list; theory and linked exams are never looked at.
 */
module Schedule {

  import opened Wrappers

  datatype Exam = Exam(id: string, places: int, date: string, amount: int, additionalInfo: string)

  datatype Hour = Hour(time: string, theoryExams: seq<Exam>, practiceExams: seq<Exam>,
                       linkedExams: seq<Exam>)

  datatype Day = Day(day: string, scheduledHours: seq<Hour>)

  datatype ExamSchedule = ExamSchedule(scheduledDays: seq<Day>)

  /** The practice exams of a run of hours, hour after hour. */
  function HourExams(hours: seq<Hour>): seq<Exam>
  {
    if |hours| == 0 then [] else hours[0].practiceExams + HourExams(hours[1..])
  }

  /** The practice exams of a run of days, day after day. */
  function DayExams(days: seq<Day>): seq<Exam>
  {
    if |days| == 0 then [] else HourExams(days[0].scheduledHours) + DayExams(days[1..])
  }

  /** `find_all_practice_exams` of the iterator revision. */
  function AllPracticeExams(s: ExamSchedule): seq<Exam>
  {
    DayExams(s.scheduledDays)
  }

  function HoursCount(hours: seq<Hour>): nat
  {
    if |hours| == 0 then 0 else |hours[0].practiceExams| + HoursCount(hours[1..])
  }

  function DaysCount(days: seq<Day>): nat
  {
    if |days| == 0 then 0 else HoursCount(days[0].scheduledHours) + DaysCount(days[1..])
  }

  /** The number of practice exams over every hour of every day. */
  function PracticeCount(s: ExamSchedule): nat
  {
    DaysCount(s.scheduledDays)
  }

  lemma {:induction false} HourExamsLength(hours: seq<Hour>)
    ensures |HourExams(hours)| == HoursCount(hours)
  {
    if |hours| > 0 { HourExamsLength(hours[1..]); }
  }

  /** The flattening keeps every practice exam: its length is the total count. */
  lemma {:induction false} AllPracticeExamsLength(s: ExamSchedule)
    ensures |AllPracticeExams(s)| == PracticeCount(s)
  {
    DayExamsLength(s.scheduledDays);
  }

  lemma {:induction false} DayExamsLength(days: seq<Day>)
    ensures |DayExams(days)| == DaysCount(days)
  {
    if |days| > 0 {
      HourExamsLength(days[0].scheduledHours);
      DayExamsLength(days[1..]);
    }
  }

  lemma {:induction false} HourExamsAppend(a: seq<Hour>, b: seq<Hour>)
    ensures HourExams(a + b) == HourExams(a) + HourExams(b)
  {
    if |a| == 0 {
      assert a + b == b;
    } else {
      assert (a + b)[1..] == a[1..] + b;
      HourExamsAppend(a[1..], b);
    }
  }

  lemma {:induction false} DayExamsAppend(a: seq<Day>, b: seq<Day>)
    ensures DayExams(a + b) == DayExams(a) + DayExams(b)
  {
    if |a| == 0 {
      assert a + b == b;
    } else {
      assert (a + b)[1..] == a[1..] + b;
      DayExamsAppend(a[1..], b);
    }
  }

  /** An exam is in the flattening exactly when some hour of some day lists it as practice. */
  lemma {:induction false} MemberOfFlattening(days: seq<Day>, e: Exam)
    ensures e in DayExams(days) <==>
      exists i, j :: 0 <= i < |days| && 0 <= j < |days[i].scheduledHours|
                     && e in days[i].scheduledHours[j].practiceExams
  {
    if |days| > 0 {
      MemberOfFlattening(days[1..], e);
      MemberOfHours(days[0].scheduledHours, e);
      if e in DayExams(days[1..]) {
        var i, j :| 0 <= i < |days[1..]| && 0 <= j < |days[1..][i].scheduledHours|
                    && e in days[1..][i].scheduledHours[j].practiceExams;
        assert days[i + 1] == days[1..][i];
      }
      if exists i, j :: 0 <= i < |days| && 0 <= j < |days[i].scheduledHours|
                        && e in days[i].scheduledHours[j].practiceExams {
        var i, j :| 0 <= i < |days| && 0 <= j < |days[i].scheduledHours|
                    && e in days[i].scheduledHours[j].practiceExams;
        if i > 0 { assert days[1..][i - 1] == days[i]; }
      }
    }
  }

  lemma {:induction false} MemberOfHours(hours: seq<Hour>, e: Exam)
    ensures e in HourExams(hours) <==> exists j :: 0 <= j < |hours| && e in hours[j].practiceExams
  {
    if |hours| > 0 {
      MemberOfHours(hours[1..], e);
      if e in HourExams(hours[1..]) {
        var j :| 0 <= j < |hours[1..]| && e in hours[1..][j].practiceExams;
        assert hours[j + 1] == hours[1..][j];
      }
      if exists j :: 0 <= j < |hours| && e in hours[j].practiceExams {
        var j :| 0 <= j < |hours| && e in hours[j].practiceExams;
        if j > 0 { assert hours[1..][j - 1] == hours[j]; }
      }
    }
  }

  /** The schedule with everything but the practice lists blanked out. */
  function PracticeOnly(s: ExamSchedule): ExamSchedule
  {
    ExamSchedule(seq(|s.scheduledDays|, i requires 0 <= i < |s.scheduledDays| =>
      Day("", seq(|s.scheduledDays[i].scheduledHours|, j requires 0 <= j < |s.scheduledDays[i].scheduledHours| =>
        Hour("", [], s.scheduledDays[i].scheduledHours[j].practiceExams, [])))))
  }

  /** Theory exams, linked exams and labels never influence the flattening. */
  lemma {:induction false} OnlyPracticeExamsInspected(s: ExamSchedule)
    ensures AllPracticeExams(PracticeOnly(s)) == AllPracticeExams(s)
  {
    DaysPracticeOnly(s.scheduledDays, PracticeOnly(s).scheduledDays);
  }

  lemma {:induction false} DaysPracticeOnly(days: seq<Day>, stripped: seq<Day>)
    requires |stripped| == |days|
    requires forall i :: 0 <= i < |days| ==> |stripped[i].scheduledHours| == |days[i].scheduledHours|
    requires forall i, j :: 0 <= i < |days| && 0 <= j < |days[i].scheduledHours| ==>
      stripped[i].scheduledHours[j].practiceExams == days[i].scheduledHours[j].practiceExams
    ensures DayExams(stripped) == DayExams(days)
  {
    if |days| > 0 {
      HoursPracticeOnly(days[0].scheduledHours, stripped[0].scheduledHours);
      DaysPracticeOnly(days[1..], stripped[1..]);
    }
  }

  lemma {:induction false} HoursPracticeOnly(hours: seq<Hour>, stripped: seq<Hour>)
    requires |stripped| == |hours|
    requires forall j :: 0 <= j < |hours| ==> stripped[j].practiceExams == hours[j].practiceExams
    ensures HourExams(stripped) == HourExams(hours)
  {
    if |hours| > 0 { HoursPracticeOnly(hours[1..], stripped[1..]); }
  }

  /** `find_n_practice_exams`: the first `number` practice exams, or None when there are none. */
  function FindNPracticeExams(s: ExamSchedule, number: nat): (r: Option<seq<Exam>>)
    ensures r.None? <==> number == 0 || AllPracticeExams(s) == []
    ensures r.Some? ==> 1 <= |r.value| <= number && |r.value| <= |AllPracticeExams(s)|
    ensures r.Some? ==> r.value == AllPracticeExams(s)[..|r.value|]
    ensures r.Some? ==> |r.value| == number || |r.value| == |AllPracticeExams(s)|
  {
    var all := AllPracticeExams(s);
    var exams := if number <= |all| then all[..number] else all;
    if |exams| > 0 then Some(exams) else None
  }

  /** Asking for one more exam only extends the answer. */
  lemma FindNMonotone(s: ExamSchedule, number: nat)
    requires FindNPracticeExams(s, number).Some?
    ensures FindNPracticeExams(s, number + 1).Some?
    ensures FindNPracticeExams(s, number).value <= FindNPracticeExams(s, number + 1).value
  {
  }
}
