/**
 * The loop revision of the flattening (crates/info-car-api/src/utils.rs): nested `for`
 * loops with an early return, and a vector filled by `push`.
 */
module ScheduleLoops {

  import opened Wrappers
  import opened Schedule

  /** No hour before (day i, hour j), scanning days then hours, lists a practice exam. */
  ghost predicate EmptyBefore(days: seq<Day>, i: int, j: int)
  {
    forall d, h :: 0 <= d < |days| && 0 <= h < |days[d].scheduledHours| && (d < i || (d == i && h < j))
      ==> days[d].scheduledHours[h].practiceExams == []
  }

  lemma {:induction false} HourExamsEmpty(hours: seq<Hour>)
    requires forall h :: 0 <= h < |hours| ==> hours[h].practiceExams == []
    ensures HourExams(hours) == []
  {
    if |hours| > 0 { HourExamsEmpty(hours[1..]); }
  }

  lemma {:induction false} DayExamsEmpty(days: seq<Day>)
    requires EmptyBefore(days, |days|, 0)
    ensures DayExams(days) == []
  {
    if |days| > 0 {
      HourExamsEmpty(days[0].scheduledHours);
      DayExamsEmpty(days[1..]);
    }
  }

  /** When every hour before (i, j) is empty, the flattening starts with hour (i, j)'s list. */
  lemma FlatteningStartsAt(days: seq<Day>, i: nat, j: nat)
    requires i < |days| && j < |days[i].scheduledHours|
    requires EmptyBefore(days, i, j)
    ensures DayExams(days)
         == days[i].scheduledHours[j].practiceExams + (HourExams(days[i].scheduledHours[j + 1..]) + DayExams(days[i + 1..]))
  {
    var hours := days[i].scheduledHours;
    assert days == days[..i] + ([days[i]] + days[i + 1..]);
    DayExamsAppend(days[..i], [days[i]] + days[i + 1..]);
    DayExamsEmpty(days[..i]);
    assert hours == hours[..j] + hours[j..];
    HourExamsAppend(hours[..j], hours[j..]);
    HourExamsEmpty(hours[..j]);
    assert hours[j..][1..] == hours[j + 1..];
  }

  /** `find_first_non_empty_practice_exam`. */
  method FindFirstNonEmptyPracticeExam(s: ExamSchedule) returns (r: Option<seq<Exam>>)
    ensures r.None? <==> AllPracticeExams(s) == []
    ensures r.Some? ==> r.value != [] && r.value[0] == AllPracticeExams(s)[0]
    ensures r.Some? ==>
      (exists i, j :: 0 <= i < |s.scheduledDays| && 0 <= j < |s.scheduledDays[i].scheduledHours|
         && r.value == s.scheduledDays[i].scheduledHours[j].practiceExams && EmptyBefore(s.scheduledDays, i, j))
  {
    var days := s.scheduledDays;
    var i := 0;
    while i < |days|
      invariant 0 <= i <= |days|
      invariant EmptyBefore(days, i, 0)
    {
      var hours := days[i].scheduledHours;
      var j := 0;
      while j < |hours|
        invariant 0 <= j <= |hours|
        invariant EmptyBefore(days, i, j)
      {
        if hours[j].practiceExams != [] {
          r := Some(hours[j].practiceExams);
          FlatteningStartsAt(days, i, j);
          return;
        }
        j := j + 1;
      }
      i := i + 1;
    }
    DayExamsEmpty(days);
    r := None;
  }

  /** One more hour adds that hour's practice exams at the end. */
  lemma HourExamsStep(hours: seq<Hour>, j: nat)
    requires j < |hours|
    ensures HourExams(hours[..j + 1]) == HourExams(hours[..j]) + hours[j].practiceExams
  {
    assert hours[..j + 1] == hours[..j] + [hours[j]];
    HourExamsAppend(hours[..j], [hours[j]]);
    assert HourExams([hours[j]]) == hours[j].practiceExams + HourExams([]);
  }

  /** One more day adds that day's practice exams at the end. */
  lemma DayExamsStep(days: seq<Day>, i: nat)
    requires i < |days|
    ensures DayExams(days[..i + 1]) == DayExams(days[..i]) + HourExams(days[i].scheduledHours)
  {
    assert days[..i + 1] == days[..i] + [days[i]];
    DayExamsAppend(days[..i], [days[i]]);
    assert DayExams([days[i]]) == HourExams(days[i].scheduledHours) + DayExams([]);
  }

  /** `find_all_practice_exams` of the loop revision: the same list as the iterator revision. */
  method FindAllPracticeExams(s: ExamSchedule) returns (all: seq<Exam>)
    ensures all == AllPracticeExams(s)
    ensures |all| == PracticeCount(s)
  {
    var days := s.scheduledDays;
    all := [];
    var i := 0;
    while i < |days|
      invariant 0 <= i <= |days|
      invariant all == DayExams(days[..i])
    {
      var hours := days[i].scheduledHours;
      var j := 0;
      while j < |hours|
        invariant 0 <= j <= |hours|
        invariant all == DayExams(days[..i]) + HourExams(hours[..j])
      {
        var exams := hours[j].practiceExams;
        ghost var before := all;
        var k := 0;
        while k < |exams|
          invariant 0 <= k <= |exams|
          invariant all == before + exams[..k]
        {
          all := all + [exams[k]];
          assert exams[..k + 1] == exams[..k] + [exams[k]];
          k := k + 1;
        }
        assert exams[..k] == exams;
        HourExamsStep(hours, j);
        j := j + 1;
      }
      assert hours[..j] == hours;
      DayExamsStep(days, i);
      i := i + 1;
    }
    assert days[..i] == days;
    AllPracticeExamsLength(s);
  }
}
