/** The day's clock-in/clock-out log: its records, the read-only views the
    tracker takes of it, and the rule that decides whether a new record may
    be appended (validation.canAddTimestamp and its helpers). */
module ClockEvents {

  /** Instants are milliseconds since the epoch, as `Date.getTime` gives them. */
  const MsPerMinute: int := 60_000
  const MinutesPerDay: int := 1440
  const MsPerDay: int := 86_400_000

  datatype Option<T> = None | Some(value: T)

  datatype Direction = In | Out

  /** One record of the log: the instant it stands for and its direction. */
  datatype Entry = Entry(instant: int, direction: Direction)

  /** The messages a refused submission shows (the `alert…` keys of the
      language tables). */
  datatype Alert = AlertTimestamp | AlertValidTime | AlertOrder | AlertAlreadyIn | AlertNeedIn

  datatype Outcome = Accepted | Rejected(alert: Alert)

  /** The time field of the form: `Blank` when it is empty, otherwise its
      hour and minute parts after `split(':')` and `Number`; `None` stands
      for a part that is not a number (or is missing). */
  datatype TimeText = Blank | Split(hours: Option<int>, minutes: Option<int>)

  // ---------------------------------------------------------------------
  // Clock readings

  /** isValidTime: both parts are numbers and form a clock reading HH:MM. */
  predicate IsValidTime(hours: Option<int>, minutes: Option<int>)
  {
    hours.Some? && minutes.Some? &&
    0 <= hours.value <= 23 && 0 <= minutes.value <= 59
  }

  /** The minute of the day an HH:MM reading names. */
  function MinuteOfDay(hours: int, minutes: int): int
  {
    hours * 60 + minutes
  }

  /** The HH:MM reading of a minute of the day. */
  function ClockOf(minute: int): (int, int)
  {
    (minute / 60, minute % 60)
  }

  /** A pair passes isValidTime exactly when it is the clock reading of a
      minute of the day, so valid readings and minutes of the day are in
      one-to-one correspondence. */
  lemma ValidTimeIsClockReading(hours: int, minutes: int)
    ensures IsValidTime(Some(hours), Some(minutes)) <==>
            0 <= MinuteOfDay(hours, minutes) < MinutesPerDay &&
            ClockOf(MinuteOfDay(hours, minutes)) == (hours, minutes)
  {
    var k := MinuteOfDay(hours, minutes);
    if 0 <= minutes <= 59 {
      assert k / 60 == hours && k % 60 == minutes;
    } else if 0 <= k < MinutesPerDay {
      assert k % 60 != minutes;
    }
  }

  /** The instant `new Date(y, mo, d, hours, minutes)` stands for, given
      the instant `dayStart` at which today's local date began. */
  function CandidateInstant(dayStart: int, hours: int, minutes: int): (t: int)
  {
    dayStart + MinuteOfDay(hours, minutes) * MsPerMinute
  }

  /** A valid reading falls inside today, and a later reading is a later
      instant: comparing candidates is comparing clock readings. */
  lemma CandidateWithinDay(dayStart: int, h1: int, m1: int, h2: int, m2: int)
    requires IsValidTime(Some(h1), Some(m1)) && IsValidTime(Some(h2), Some(m2))
    ensures dayStart <= CandidateInstant(dayStart, h1, m1) < dayStart + MsPerDay
    ensures CandidateInstant(dayStart, h1, m1) < CandidateInstant(dayStart, h2, m2) <==>
            h1 < h2 || (h1 == h2 && m1 < m2)
  {
  }

  // ---------------------------------------------------------------------
  // Read-only views of the log

  /** getLastTimestamp: the last record, or none on an empty log. */
  function GetLast(log: seq<Entry>): (r: Option<Entry>)
    ensures r.None? <==> |log| == 0
    ensures r.Some? ==> r.value == log[|log| - 1]
  {
    if |log| == 0 then None else Some(log[|log| - 1])
  }

  /** isUserWorking: the last record is a clock-in. */
  predicate IsUserWorking(log: seq<Entry>)
  {
    GetLast(log).Some? && GetLast(log).value.direction == In
  }

  /** The calendar date (UTC, as `toISOString` writes it) of an instant. */
  function Day(instant: int): int
  {
    instant / MsPerDay
  }

  /** isNextDay: the log is not empty and its last record's date is not today. */
  predicate IsNextDay(log: seq<Entry>, now: int)
  {
    match GetLast(log)
    case None => false
    case Some(last) => Day(now) != Day(last.instant)
  }

  /** Dates never run backwards, so when the log was read no earlier than
      its last record, isNextDay means the last record is from an earlier date. */
  lemma NextDayIsEarlierDate(log: seq<Entry>, now: int)
    requires InOrder(log, now)
    ensures IsNextDay(log, now) <==> |log| > 0 && Day(log[|log| - 1].instant) < Day(now)
  {
    if |log| > 0 {
      var t := log[|log| - 1].instant;
      var q := Day(now) - Day(t);
      assert t == Day(t) * MsPerDay + t % MsPerDay;
      assert now == Day(now) * MsPerDay + now % MsPerDay;
      assert q * MsPerDay > -MsPerDay;
    }
  }

  /** isNextDay compares UTC dates, not local ones. Five hours behind UTC,
      a clock-in at 09:00 read at 20:00 the same local day is in order, yet
      its UTC date is already yesterday's, so the start-up check clears it. */
  lemma UtcRolloverWithinLocalDay()
    ensures var dayStart := 20 * MsPerDay + 5 * 60 * MsPerMinute;
            var log := [Entry(CandidateInstant(dayStart, 9, 0), In)];
            var now := CandidateInstant(dayStart, 20, 0);
            CanAdd([], CandidateInstant(dayStart, 9, 0), In).Accepted? &&
            InOrder(log, now) && IsNextDay(log, now)
  {
  }

  /** The direction the form suggests next (displayTimestamps). */
  function NextDirection(log: seq<Entry>): Direction
  {
    if |log| > 0 && GetLast(log).value.direction == In then Out else In
  }

  // ---------------------------------------------------------------------
  // The state machine the append rules implement

  datatype State = Empty | ClockedIn | ClockedOut

  function StateOf(log: seq<Entry>): State
  {
    if |log| == 0 then Empty
    else if log[|log| - 1].direction == In then ClockedIn
    else ClockedOut
  }

  /** The transitions allowed from each state; `None` is a refused move. */
  function Next(s: State, d: Direction): Option<State>
  {
    match (s, d)
    case (Empty, In) => Some(ClockedIn)
    case (ClockedOut, In) => Some(ClockedIn)
    case (ClockedIn, Out) => Some(ClockedOut)
    case _ => None
  }

  /** The candidate is not earlier than the last record (ties are allowed). */
  predicate InOrder(log: seq<Entry>, instant: int)
  {
    |log| == 0 || log[|log| - 1].instant <= instant
  }

  /** canAddTimestamp: the order check comes first, then clocking in while
      in, then clocking out while not in. A candidate is accepted exactly
      when it is in order and its direction is a move of the state machine. */
  function CanAdd(log: seq<Entry>, instant: int, direction: Direction): (r: Outcome)
    ensures r.Accepted? <==> InOrder(log, instant) && Next(StateOf(log), direction).Some?
    ensures !InOrder(log, instant) ==> r == Rejected(AlertOrder)
    ensures InOrder(log, instant) && direction == In && StateOf(log) == ClockedIn ==>
              r == Rejected(AlertAlreadyIn)
    ensures InOrder(log, instant) && direction == Out && StateOf(log) != ClockedIn ==>
              r == Rejected(AlertNeedIn)
  {
    var last := GetLast(log);
    if last.Some? && last.value.instant > instant then Rejected(AlertOrder)
    else if direction == In && IsUserWorking(log) then Rejected(AlertAlreadyIn)
    else if direction == Out && (|log| == 0 || (last.Some? && last.value.direction == Out)) then
      Rejected(AlertNeedIn)
    else Accepted
  }

  /** The push in form.submit, guarded by CanAdd. */
  function Append(log: seq<Entry>, instant: int, direction: Direction): seq<Entry>
  {
    if CanAdd(log, instant, direction).Accepted? then log + [Entry(instant, direction)] else log
  }

  /** A sequence of submissions, each appended when CanAdd accepts it and
      dropped otherwise. */
  function Replay(log: seq<Entry>, attempts: seq<(int, Direction)>): seq<Entry>
    decreases |attempts|
  {
    if |attempts| == 0 then log
    else Replay(Append(log, attempts[0].0, attempts[0].1), attempts[1..])
  }

  // ---------------------------------------------------------------------
  // Invariants of a log built by accepted submissions

  /** Directions alternate, starting with a clock-in. */
  predicate Alternates(log: seq<Entry>)
  {
    forall i :: 0 <= i < |log| ==> (log[i].direction == In <==> i % 2 == 0)
  }

  /** Instants never decrease. */
  predicate Chronological(log: seq<Entry>)
  {
    forall i, j :: 0 <= i <= j < |log| ==> log[i].instant <= log[j].instant
  }

  predicate WellFormed(log: seq<Entry>)
  {
    Alternates(log) && Chronological(log)
  }

  /** In an alternating log the state is decided by the length alone:
      the user is working exactly when the length is odd. */
  lemma StateByParity(log: seq<Entry>)
    requires Alternates(log)
    ensures StateOf(log) == (if |log| == 0 then Empty
                             else if |log| % 2 == 1 then ClockedIn else ClockedOut)
    ensures IsUserWorking(log) <==> |log| % 2 == 1
    ensures NextDirection(log) == Out <==> |log| % 2 == 1
  {
    if |log| > 0 {
      assert log[|log| - 1].direction == In <==> (|log| - 1) % 2 == 0;
    }
  }

  /** The suggested direction is the only one CanAdd accepts for an
      in-order candidate. */
  lemma OnlyNextDirectionAccepted(log: seq<Entry>, instant: int, direction: Direction)
    requires InOrder(log, instant)
    ensures CanAdd(log, instant, direction).Accepted? <==> direction == NextDirection(log)
  {
  }

  /** An accepted append moves the log to the state the machine prescribes. */
  lemma AppendFollowsMachine(log: seq<Entry>, instant: int, direction: Direction)
    requires CanAdd(log, instant, direction).Accepted?
    ensures StateOf(Append(log, instant, direction)) == Next(StateOf(log), direction).value
  {
  }

  /** Appending keeps a well-formed log well-formed; a refused candidate
      leaves the log as it was. */
  lemma AppendKeepsWellFormed(log: seq<Entry>, instant: int, direction: Direction)
    requires WellFormed(log)
    ensures WellFormed(Append(log, instant, direction))
    ensures CanAdd(log, instant, direction).Rejected? ==> Append(log, instant, direction) == log
  {
    if CanAdd(log, instant, direction).Accepted? {
      var r := log + [Entry(instant, direction)];
      StateByParity(log);
      assert direction == In <==> |log| % 2 == 0;
      assert forall i :: 0 <= i < |log| ==> r[i] == log[i];
      forall i, j | 0 <= i <= j < |r|
        ensures r[i].instant <= r[j].instant
      {
        if j == |log| && i < |log| {
          assert log[i].instant <= log[|log| - 1].instant;
        }
      }
    }
  }

  /** The record the next canAddTimestamp reads is the one just pushed, or
      the old last record when the candidate was refused. */
  lemma LastAfterAppend(log: seq<Entry>, instant: int, direction: Direction)
    ensures GetLast(Append(log, instant, direction)) ==
            if CanAdd(log, instant, direction).Accepted? then Some(Entry(instant, direction))
            else GetLast(log)
  {
  }

  /** Replaying submissions only ever extends the log at its end. */
  lemma {:induction false} ReplayExtends(log: seq<Entry>, attempts: seq<(int, Direction)>)
    ensures |log| <= |Replay(log, attempts)| <= |log| + |attempts|
    ensures Replay(log, attempts)[..|log|] == log
    decreases |attempts|
  {
    if |attempts| > 0 {
      var next := Append(log, attempts[0].0, attempts[0].1);
      ReplayExtends(next, attempts[1..]);
      assert next[..|log|] == log;
    }
  }

  lemma {:induction false} ReplayKeepsWellFormed(log: seq<Entry>, attempts: seq<(int, Direction)>)
    requires WellFormed(log)
    ensures WellFormed(Replay(log, attempts))
    decreases |attempts|
  {
    if |attempts| > 0 {
      AppendKeepsWellFormed(log, attempts[0].0, attempts[0].1);
      ReplayKeepsWellFormed(Append(log, attempts[0].0, attempts[0].1), attempts[1..]);
    }
  }

  /** Starting from an empty log, whatever is submitted, record i is a
      clock-in exactly when i is even and adjacent instants never decrease. */
  lemma ReplayFromEmpty(attempts: seq<(int, Direction)>)
    ensures var r := Replay([], attempts);
            (forall i :: 0 <= i < |r| ==> (r[i].direction == In <==> i % 2 == 0)) &&
            (forall i :: 0 <= i < |r| - 1 ==> r[i].instant <= r[i + 1].instant)
  {
    ReplayKeepsWellFormed([], attempts);
    var r := Replay([], attempts);
    forall i | 0 <= i < |r| - 1
      ensures r[i].instant <= r[i + 1].instant
    {
      assert 0 <= i <= i + 1 < |r|;
    }
  }

  /** A second clock-in after 09:00 In is refused and the log keeps one record. */
  lemma DoubleClockInRejected(dayStart: int)
    ensures CanAdd([Entry(CandidateInstant(dayStart, 9, 0), In)],
                   CandidateInstant(dayStart, 10, 0), In) == Rejected(AlertAlreadyIn)
    ensures Replay([], [(CandidateInstant(dayStart, 9, 0), In), (CandidateInstant(dayStart, 10, 0), In)])
            == [Entry(CandidateInstant(dayStart, 9, 0), In)]
  {
    var first := (CandidateInstant(dayStart, 9, 0), In);
    var second := (CandidateInstant(dayStart, 10, 0), In);
    var r1 := Append([], first.0, first.1);
    assert r1 == [Entry(CandidateInstant(dayStart, 9, 0), In)];
    assert Append(r1, second.0, second.1) == r1;
    assert [first, second][1..] == [second];
    assert Replay([], [first, second]) == Replay(r1, [second]);
    assert Replay(r1, [second]) == Replay(r1, []);
  }

  /** Clocking out at 08:00 after clocking in at 09:00 is refused for order. */
  lemma OutOfOrderRejected(dayStart: int)
    ensures CanAdd([Entry(CandidateInstant(dayStart, 9, 0), In)],
                   CandidateInstant(dayStart, 8, 0), Out) == Rejected(AlertOrder)
  {
  }
}
