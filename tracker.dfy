/** The page's state: the day's log (`timestamps`) and the workday length
    (`workdayLength`), with the handlers that change them (form.submit,
    form.reset, the day rollover at start-up, settings.handleChange) and
    the computation that reads them (progressBar.calculate). */
module Tracker {
  import opened ClockEvents
  import opened WorkMetrics
  import opened WorkdaySettings

  class TimeTracker {
    var log: seq<Entry>
    var workdayLength: real

    /** The log is one that accepted submissions can build. */
    ghost predicate Valid()
      reads this
    {
      WellFormed(log)
    }

    constructor ()
      ensures Valid()
      ensures log == [] && workdayLength == DefaultWorkdayHours
    {
      log := [];
      workdayLength := DefaultWorkdayHours;
    }

    /** form.submit: refuse an empty or malformed time, then ask CanAdd
        about today's instant for that time; only an accepted candidate is
        pushed, at the end, and nothing else changes. */
    method Submit(text: TimeText, direction: Direction, dayStart: int) returns (outcome: Outcome)
      modifies this`log
      ensures text.Blank? ==> outcome == Rejected(AlertTimestamp)
      ensures text.Split? && !IsValidTime(text.hours, text.minutes) ==>
                outcome == Rejected(AlertValidTime)
      ensures text.Split? && IsValidTime(text.hours, text.minutes) ==>
                outcome == CanAdd(old(log), CandidateInstant(dayStart, text.hours.value, text.minutes.value), direction)
      ensures outcome.Accepted? ==>
                log == old(log) + [Entry(CandidateInstant(dayStart, text.hours.value, text.minutes.value), direction)]
      ensures outcome.Rejected? ==> log == old(log)
      ensures old(Valid()) ==> Valid()
    {
      if text.Blank? {
        return Rejected(AlertTimestamp);
      }
      if !IsValidTime(text.hours, text.minutes) {
        return Rejected(AlertValidTime);
      }
      var instant := CandidateInstant(dayStart, text.hours.value, text.minutes.value);
      outcome := CanAdd(log, instant, direction);
      if outcome.Rejected? {
        return;
      }
      if Valid() {
        AppendKeepsWellFormed(log, instant, direction);
      }
      log := log + [Entry(instant, direction)];
    }

    /** form.reset: the log becomes empty; the workday length stays. */
    method Reset()
      modifies this`log
      ensures log == [] && Valid()
    {
      log := [];
    }

    /** The start-up check: a non-empty log whose last record is from
        another date than today is cleared. Afterwards the log is empty or
        ends today. */
    method Rollover(now: int) returns (rolled: bool)
      modifies this`log
      ensures rolled == IsNextDay(old(log), now)
      ensures log == if rolled then [] else old(log)
      ensures |log| == 0 || Day(log[|log| - 1].instant) == Day(now)
      ensures old(Valid()) ==> Valid()
    {
      rolled := false;
      if |log| > 0 {
        if IsNextDay(log, now) {
          Reset();
          rolled := true;
        }
      }
    }

    /** settings.handleChange: a non-empty valid HH:MM becomes the new
        workday length in hours; anything else changes nothing. */
    method HandleChange(text: TimeText) returns (saved: bool)
      modifies this`workdayLength
      ensures saved <==> text.Split? && IsValidTime(text.hours, text.minutes)
      ensures saved ==> workdayLength == WorkdayHours(text.hours.value, text.minutes.value)
      ensures saved ==> DisplayedWorkday(workdayLength) == (text.hours.value, text.minutes.value)
      ensures !saved ==> workdayLength == old(workdayLength)
    {
      saved := text.Split? && IsValidTime(text.hours, text.minutes);
      if saved {
        workdayLength := WorkdayHours(text.hours.value, text.minutes.value);
        WorkdayRoundTrip(text.hours.value, text.minutes.value);
      }
    }

    /** progressBar.calculate: the loop adds up the closed periods pair by
        pair, then the open period is added when the length is odd. */
    method Calculate(now: int) returns (m: Metrics)
      ensures m == Measure(log, workdayLength, now)
      ensures Valid() && InOrder(log, now) ==> m.totalWorkSec >= 0.0 && 0.0 <= m.progressPct
    {
      var totalWorkSec := 0.0;
      var i := 0;
      while i < |log| - 1
        invariant 0 <= i <= |log|
        invariant totalWorkSec + ClosedSeconds(log[i..]) == ClosedSeconds(log)
        decreases |log| - i
      {
        assert log[i..][2..] == log[i + 2..];
        totalWorkSec := totalWorkSec + Seconds(log[i].instant, log[i + 1].instant);
        i := i + 2;
      }
      if |log| % 2 != 0 {
        var last := GetLast(log);
        if last.Some? {
          totalWorkSec := totalWorkSec + Seconds(last.value.instant, now);
        }
      }
      var timeToWork := TimeToWork(totalWorkSec, workdayLength);
      m := Metrics(totalWorkSec, ProgressPct(totalWorkSec), timeToWork, StopTime(now, timeToWork));
      if Valid() && InOrder(log, now) {
        MetricsInRange(log, workdayLength, now);
      }
    }
  }
}
