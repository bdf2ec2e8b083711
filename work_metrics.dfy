/** What progressBar.calculate derives from the log, the workday length and
    the current instant: time worked, progress against the nine-hour
    ceiling, time still to work and the projected stop time. */
module WorkMetrics {
  import opened ClockEvents

  const MaxWorkHours: int := 9
  const SecondsPerHour: real := 3600.0
  /** The ceiling both progress bars are drawn against. */
  const MaxWorkSeconds: real := MaxWorkHours as real * SecondsPerHour

  datatype Metrics = Metrics(totalWorkSec: real, progressPct: real, timeToWork: real, stopTime: real)

  function Min(a: real, b: real): real { if a <= b then a else b }
  function Max(a: real, b: real): real { if a >= b then a else b }

  /** Seconds from one instant to another (`(end - start) / 1000`). */
  function Seconds(from: int, to: int): real
  {
    (to - from) as real / 1000.0
  }

  /** The closed work periods: the pairs (0, 1), (2, 3), ... of the log,
      each contributing the seconds from its first to its second record. */
  function ClosedSeconds(log: seq<Entry>): real
    decreases |log|
  {
    if |log| < 2 then 0.0
    else Seconds(log[0].instant, log[1].instant) + ClosedSeconds(log[2..])
  }

  /** The open period: when the length is odd, the seconds from the last
      record up to now. */
  function OpenSeconds(log: seq<Entry>, now: int): real
  {
    if |log| % 2 != 0 then Seconds(log[|log| - 1].instant, now) else 0.0
  }

  function TotalWorkSec(log: seq<Entry>, now: int): real
  {
    ClosedSeconds(log) + OpenSeconds(log, now)
  }

  /** progressPct before rounding: the share of the ceiling worked, capped
      at 100 (the source caps from above only). */
  function ProgressPct(totalWorkSec: real): (pct: real)
    ensures pct <= 100.0
    ensures pct == 100.0 <==> totalWorkSec >= MaxWorkSeconds
    ensures totalWorkSec < MaxWorkSeconds ==> pct * MaxWorkSeconds == totalWorkSec * 100.0
    ensures 0.0 <= totalWorkSec ==> 0.0 <= pct
  {
    Min(100.0, totalWorkSec / MaxWorkSeconds * 100.0)
  }

  /** timeToWork: the seconds still missing to the workday length, never
      negative, and zero once the workday is reached. */
  function TimeToWork(totalWorkSec: real, workdayLength: real): (r: real)
    ensures r >= 0.0
    ensures r == 0.0 <==> totalWorkSec >= workdayLength * SecondsPerHour
    ensures r > 0.0 ==> totalWorkSec + r == workdayLength * SecondsPerHour
  {
    Max(0.0, workdayLength * SecondsPerHour - totalWorkSec)
  }

  /** The instant (in milliseconds) at which the remaining time runs out. */
  function StopTime(now: int, timeToWork: real): (t: real)
    ensures timeToWork >= 0.0 ==> t >= now as real
  {
    now as real + timeToWork * 1000.0
  }

  /** The remaining-work bar of progressBar.update before rounding: the
      share of the ceiling still to work while clocked in, zero otherwise. */
  function ToWorkPct(log: seq<Entry>, timeToWork: real): (pct: real)
    ensures pct <= 100.0
    ensures IsUserWorking(log) ==> pct == ProgressPct(timeToWork)
    ensures !IsUserWorking(log) ==> pct == 0.0
    ensures timeToWork >= 0.0 ==> pct >= 0.0
  {
    if IsUserWorking(log) then Min(100.0, timeToWork / MaxWorkSeconds * 100.0) else 0.0
  }

  /** The whole result of progressBar.calculate. */
  function Measure(log: seq<Entry>, workdayLength: real, now: int): (m: Metrics)
    ensures m.progressPct <= 100.0 && m.timeToWork >= 0.0 && m.stopTime >= now as real
  {
    var total := TotalWorkSec(log, now);
    var toWork := TimeToWork(total, workdayLength);
    Metrics(total, ProgressPct(total), toWork, StopTime(now, toWork))
  }

  /** Every closed period of a chronological log lasts zero seconds or more. */
  lemma {:induction false} ClosedSecondsNonNegative(log: seq<Entry>)
    requires Chronological(log)
    ensures ClosedSeconds(log) >= 0.0
    decreases |log|
  {
    if |log| >= 2 {
      assert log[0].instant <= log[1].instant;
      var rest := log[2..];
      assert forall i, j :: 0 <= i <= j < |rest| ==> rest[i].instant == log[i + 2].instant <= log[j + 2].instant == rest[j].instant;
      ClosedSecondsNonNegative(rest);
    }
  }

  /** For a log built by accepted submissions, read no earlier than its last
      record, the time worked is never negative, so both bars lie in [0, 100]. */
  lemma MetricsInRange(log: seq<Entry>, workdayLength: real, now: int)
    requires WellFormed(log)
    requires InOrder(log, now)
    ensures Measure(log, workdayLength, now).totalWorkSec >= 0.0
    ensures 0.0 <= Measure(log, workdayLength, now).progressPct <= 100.0
    ensures 0.0 <= ToWorkPct(log, Measure(log, workdayLength, now).timeToWork) <= 100.0
  {
    ClosedSecondsNonNegative(log);
  }

  /** While a period is open the time worked grows with the clock, second
      for second; otherwise it does not depend on the clock at all. */
  lemma TotalFollowsClock(log: seq<Entry>, now: int, later: int)
    ensures TotalWorkSec(log, later) - TotalWorkSec(log, now) ==
            (if |log| % 2 == 1 then Seconds(now, later) else 0.0)
  {
  }

  /** If the user stays clocked in until the projected stop time, the time
      worked then is exactly the workday length. */
  lemma StopTimeCompletesWorkday(log: seq<Entry>, workdayLength: real, now: int, later: int)
    requires |log| % 2 == 1
    ensures TotalWorkSec(log, now) < workdayLength * SecondsPerHour &&
            later as real == Measure(log, workdayLength, now).stopTime ==>
              TotalWorkSec(log, later) == workdayLength * SecondsPerHour
  {
    TotalFollowsClock(log, now, later);
  }

  /** [In 09:00, Out 12:00, In 13:00] read at 14:00 is four hours of work. */
  lemma ElapsedExample(dayStart: int)
    ensures TotalWorkSec([Entry(CandidateInstant(dayStart, 9, 0), In),
                          Entry(CandidateInstant(dayStart, 12, 0), Out),
                          Entry(CandidateInstant(dayStart, 13, 0), In)],
                         CandidateInstant(dayStart, 14, 0)) == 14400.0
  {
    var log := [Entry(CandidateInstant(dayStart, 9, 0), In),
                Entry(CandidateInstant(dayStart, 12, 0), Out),
                Entry(CandidateInstant(dayStart, 13, 0), In)];
    assert ClosedSeconds(log[2..]) == 0.0;
  }

  /** canAddTimestamp never compares with now, so a clock-in at 17:00 is
      accepted at 10:00, and read at 10:00 it gives a negative progress. */
  lemma FutureClockInGivesNegativeProgress(dayStart: int)
    ensures CanAdd([], CandidateInstant(dayStart, 17, 0), In).Accepted?
    ensures ProgressPct(TotalWorkSec([Entry(CandidateInstant(dayStart, 17, 0), In)],
                                     CandidateInstant(dayStart, 10, 0))) < 0.0
  {
  }

  /** The date check runs only at start-up, and form.submit dates each time
      by the day it is entered. With the page left open past midnight (UTC),
      an In at 22:00 on day 20 and an Out at 01:00 on day 21 are both
      accepted; read at 02:00 the log is not rolled over although its first
      record is from the previous date, and the 3 hours across midnight
      count as work. */
  lemma OpenPageSpansMidnight()
    ensures var clockIn := CandidateInstant(20 * MsPerDay, 22, 0);
            var clockOut := CandidateInstant(21 * MsPerDay, 1, 0);
            var now := CandidateInstant(21 * MsPerDay, 2, 0);
            var log := Append(Append([], clockIn, In), clockOut, Out);
            CanAdd([], clockIn, In).Accepted? &&
            CanAdd([Entry(clockIn, In)], clockOut, Out).Accepted? &&
            log == [Entry(clockIn, In), Entry(clockOut, Out)] &&
            Day(log[0].instant) == 20 && Day(now) == 21 &&
            !IsNextDay(log, now) &&
            TotalWorkSec(log, now) == 10800.0
  {
    var clockIn := CandidateInstant(20 * MsPerDay, 22, 0);
    var clockOut := CandidateInstant(21 * MsPerDay, 1, 0);
    assert Append([], clockIn, In) == [Entry(clockIn, In)];
    var log := [Entry(clockIn, In), Entry(clockOut, Out)];
    assert ClosedSeconds(log[2..]) == 0.0;
  }

  /** Ten hours of work fill the progress bar. */
  lemma CeilingExample()
    ensures ProgressPct(36000.0) == 100.0
  {
  }
}
