/** The workday length setting: settings.handleChange turns an HH:MM field
    into hours, settings.updateInput turns hours back into HH:MM. */
module WorkdaySettings {
  import opened ClockEvents
  import opened WorkMetrics

  /** 7h12m. */
  const DefaultWorkdayHours: real := 7.2

  /** handleChange: `h + m / 60` hours. */
  function WorkdayHours(hours: int, minutes: int): real
  {
    hours as real + minutes as real / 60.0
  }

  /** updateInput: the whole hours, then the whole minutes of the rest. */
  function DisplayedWorkday(workdayLength: real): (int, int)
  {
    var hours := workdayLength.Floor;
    (hours, ((workdayLength - hours as real) * 60.0).Floor)
  }

  /** A length entered as a valid HH:MM is below a day, is that many
      minutes of work, and, in exact arithmetic, is shown back as the same
      HH:MM (with doubles some readings come back a minute short). */
  lemma WorkdayRoundTrip(hours: int, minutes: int)
    requires IsValidTime(Some(hours), Some(minutes))
    ensures 0.0 <= WorkdayHours(hours, minutes) < 24.0
    ensures WorkdayHours(hours, minutes) * SecondsPerHour == (MinuteOfDay(hours, minutes) * 60) as real
    ensures DisplayedWorkday(WorkdayHours(hours, minutes)) == (hours, minutes)
  {
    var w := WorkdayHours(hours, minutes);
    assert hours as real <= w < hours as real + 1.0;
    assert w.Floor == hours;
    assert (w - hours as real) * 60.0 == minutes as real;
  }

  /** The default length is shown as 07:12. */
  lemma DefaultDisplay()
    ensures DisplayedWorkday(DefaultWorkdayHours) == (7, 12)
  {
    assert DefaultWorkdayHours == WorkdayHours(7, 12);
    WorkdayRoundTrip(7, 12);
  }

  /** With a 07:30 workday and nothing worked yet, 27000 seconds remain. */
  lemma RemainingExample()
    ensures TimeToWork(0.0, WorkdayHours(7, 30)) == 27000.0
  {
  }
}
