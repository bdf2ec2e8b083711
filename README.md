# Work-time tracker: a Dafny model of its clock-in/clock-out core

The tracker keeps one user's clock events for the day as a log of
`{timestamp, direction}` records, where the direction is `In` or `Out`. It
accepts a new record only when three conditions hold:

- its time is not earlier than the last record's;
- it does not clock in while the user is already in;
- it does not clock out without an open clock-in.

The log is emptied on request, and it is also emptied at start-up when its
last record is from another date. From the log, the workday length and the
current instant, the tracker derives these metrics:

- the time worked: closed periods, plus the open one while clocked in;
- progress against a fixed nine-hour ceiling;
- the time still to work;
- the projected stop time.

The model has four modules, one per part of `src/script.js`:

- `ClockEvents` (`clock_events.dfy`): the records, `isValidTime`, the read-only views `getLastTimestamp`, `isUserWorking` and `isNextDay`, the next-direction rule, and `canAddTimestamp`. It also gives the three-state machine (Empty, ClockedIn, ClockedOut) that `canAddTimestamp` implements, and proves the log invariants: directions alternate starting with `In`, and instants never decrease.
- `WorkMetrics` (`work_metrics.dfy`): `progressBar.calculate` as specification functions, plus the remaining-work bar of `progressBar.update`, with lemmas about them.
- `WorkdaySettings` (`workday_settings.dfy`): `settings.handleChange` (HH:MM to hours) and `settings.updateInput` (hours to HH:MM).
- `Tracker` (`tracker.dfy`): the page state as a class `TimeTracker` with fields `log` and `workdayLength`. It has these methods:
  - `Submit` (`form.submit`);
  - `Reset` (`form.reset`);
  - `Rollover` (the date check in `init`);
  - `HandleChange`;
  - `Calculate`, the loop of `progressBar.calculate`, proved equal to `WorkMetrics.Measure`.

Modelling choices:

- Instants are integer milliseconds since the epoch, as `Date.getTime` returns them.
- `Day(t) = t / 86400000` is the UTC date. Both sides of `isNextDay` are UTC dates: `todayISO` uses `toISOString`, and so does the stored timestamp.
- `form.submit` builds the candidate from today's local date and the HH:MM entered. The model takes the instant of today's local midnight as a parameter, `dayStart`.
- The time field is `TimeText`. It is either `Blank` or the two parts after `split(':')` and `Number`, where `None` stands for NaN.
- Seconds, percentages and the workday length (in hours) are exact `real`s.

Where the code does less than one might expect, the model follows the code:

- `progressPct` is only capped at 100 (`Math.min`). It has no lower bound. `WorkMetrics.MetricsInRange` proves that it is nevertheless in [0, 100] for a well-formed log read no earlier than its last record. That condition fails whenever a future time is entered, because `canAddTimestamp` never compares with now: `WorkMetrics.FutureClockInGivesNegativeProgress` shows that [In 17:00] read at 10:00 gives a negative `progressPct`.
- A workday length is accepted whenever it passes `isValidTime`. So `00:00` is accepted, and no length of 24 hours or more can be entered. There is no separate check that the length is positive.
- The start-up rollover compares UTC dates (`todayISO` and the stored ISO string), not local ones. Outside UTC it can therefore clear a log recorded on the same local day. `ClockEvents.UtcRolloverWithinLocalDay` shows this five hours behind UTC: a 09:00 `In` read at 20:00 local time counts as from another date.
- The date check runs only at start-up, and `form.submit` dates each entered time by the day it is submitted, while `canAddTimestamp` compares instants only. So a page left open past midnight keeps records from two dates, and the period across midnight counts as work. `WorkMetrics.OpenPageSpansMidnight` shows this: an `In` at 22:00 and an `Out` at 01:00 the next day are both accepted, the log is not rolled over at 02:00, and 3 hours are counted.
- The open period is added when the log length is odd, not when the last record is `In`. `ClockEvents.StateByParity` shows that the two agree on every alternating log.

## Model

| member | source | states |
|---|---|---|
| ClockEvents.ValidTimeIsClockReading | src/script.js:169-172 | a pair passes isValidTime exactly when it is the HH:MM reading of a minute 0..1439 of the day (valid readings and minutes of the day correspond one to one) |
| ClockEvents.CandidateWithinDay | src/script.js:434-436 | the instant built from a valid HH:MM lies within today, and one candidate is earlier than another exactly when its clock reading is earlier |
| ClockEvents.LastAfterAppend | src/script.js:125 | after a submission, getLastTimestamp gives the record just pushed when it was accepted, and the previous last record when it was refused |
| ClockEvents.CanAdd | src/script.js:174-186 | a candidate is accepted exactly when it is not earlier than the last record (ties allowed) and its direction is a move of the Empty/ClockedIn/ClockedOut machine; an earlier candidate gets alertOrder whatever its direction; an in-order In while clocked in gets alertAlreadyIn; an in-order Out on an empty log or after an Out gets alertNeedIn |
| ClockEvents.NextDayIsEarlierDate | src/script.js:124-129 | when read no earlier than the last record, isNextDay holds exactly when the log is non-empty and its last record's UTC date is strictly before today's |
| ClockEvents.UtcRolloverWithinLocalDay | src/script.js:124-129 | five hours behind UTC, a 09:00 In read at 20:00 the same local day is accepted and in order, yet isNextDay holds, so the start-up check would clear it |
| ClockEvents.StateByParity | src/script.js:130-133 | in an alternating log the state follows from the length: isUserWorking holds, and the suggested direction is Out, exactly when the length is odd |
| ClockEvents.OnlyNextDirectionAccepted | src/script.js:411-413 | for an in-order candidate, the direction the form suggests is the only one canAddTimestamp accepts |
| ClockEvents.AppendFollowsMachine | src/script.js:445-448 | after an accepted push the log is in the state the machine's transition prescribes |
| ClockEvents.AppendKeepsWellFormed | src/script.js:438-448 | the guarded push keeps directions alternating from In and instants non-decreasing; a refused candidate leaves the log unchanged |
| ClockEvents.ReplayExtends | src/script.js:445-448 | a run of submissions only appends: the old log is a prefix of the new one, which grows by at most one record per submission |
| ClockEvents.ReplayKeepsWellFormed | src/script.js:174-186 | any run of submissions keeps a well-formed log well-formed |
| ClockEvents.ReplayFromEmpty | src/script.js:445-448 | from an empty log, whatever is submitted, record i is In exactly when i is even and adjacent instants never decrease |
| ClockEvents.DoubleClockInRejected | src/script.js:179-181 | after 09:00 In, a 10:00 In is refused with alertAlreadyIn and the log keeps its one record |
| ClockEvents.OutOfOrderRejected | src/script.js:176-178 | after 09:00 In, an 08:00 Out is refused with alertOrder |
| WorkMetrics.ProgressPct | src/script.js:328 | progressPct is at most 100, equals 100 exactly when the ceiling of 9 h is reached, is otherwise the worked share of 9 h in percent, and is not negative when the time worked is not |
| WorkMetrics.TimeToWork | src/script.js:329 | timeToWork is never negative, is 0 exactly when the time worked reaches the workday length, and otherwise adds up with the time worked to the workday length |
| WorkMetrics.StopTime | src/script.js:330 | the projected stop instant is not before now |
| WorkMetrics.ToWorkPct | src/script.js:289-302 | the remaining-work bar is at most 100, is 0 when the user is not clocked in, is not negative, and while clocked in is the time still to work as a share of the 9 h ceiling capped at 100 (the same capped share ProgressPct describes) |
| WorkMetrics.Measure | src/script.js:305-333 | the metrics keep progress at most 100, time to work not negative and the stop time not before now |
| WorkMetrics.ClosedSecondsNonNegative | src/script.js:309-315 | in a log whose instants never decrease, the closed periods add up to zero seconds or more |
| WorkMetrics.MetricsInRange | src/script.js:305-333 | for a well-formed log read no earlier than its last record, the time worked is not negative and both bars lie in [0, 100] |
| WorkMetrics.TotalFollowsClock | src/script.js:318-326 | while a period is open the time worked grows second for second with now; otherwise it does not depend on now |
| WorkMetrics.StopTimeCompletesWorkday | src/script.js:329-330 | staying clocked in until the projected stop time makes the time worked exactly the workday length |
| WorkMetrics.ElapsedExample | src/script.js:309-326 | [In 09:00, Out 12:00, In 13:00] read at 14:00 gives 14400 s |
| WorkMetrics.FutureClockInGivesNegativeProgress | src/script.js:174-186 | a clock-in at 17:00 is accepted on an empty log, and read at 10:00 gives a negative progressPct (the order check never compares with now) |
| WorkMetrics.OpenPageSpansMidnight | src/script.js:434-448 | with the page open past midnight, an In at 22:00 and an Out at 01:00 the next day are both accepted, the log then holds a record from the previous date yet isNextDay is false at 02:00, and the 3 h across midnight count as work |
| WorkMetrics.CeilingExample | src/script.js:328 | 10 h of work gives progress 100 |
| WorkdaySettings.WorkdayRoundTrip | src/script.js:482-494 | a length entered as a valid HH:MM is below 24 h, equals that many minutes, and, over exact arithmetic, updateInput shows the same HH:MM back |
| WorkdaySettings.DefaultDisplay | src/script.js:8 | the default 7.2 h is shown as 07:12 |
| WorkdaySettings.RemainingExample | src/script.js:329 | a 07:30 workday with nothing worked leaves 27000 s |
| Tracker.TimeTracker.constructor | src/script.js:113-117 | the state starts with an empty (well-formed) log and the default workday length |
| Tracker.TimeTracker.Submit | src/script.js:418-448 | an empty field gives alertTimestamp and an invalid time alertValidTime; otherwise the outcome is canAddTimestamp on today's instant for that time; only an accepted candidate is appended, as the last record, and a refusal leaves the log unchanged; a well-formed log stays well-formed |
| Tracker.TimeTracker.Reset | src/script.js:465-470 | the log becomes empty |
| Tracker.TimeTracker.Rollover | src/script.js:560-568 | the log is cleared exactly when isNextDay holds; afterwards it is empty or its last record is dated today |
| Tracker.TimeTracker.HandleChange | src/script.js:490-499 | a non-empty valid HH:MM becomes the workday length h + m/60 and, over exact arithmetic, displays back as the same HH:MM; anything else leaves the length unchanged |
| Tracker.TimeTracker.Calculate | src/script.js:305-333 | the pairwise loop plus the open period computes exactly the metrics Measure specifies; on a well-formed log read no earlier than its last record the time worked and progressPct are not negative |

## Left out

- DOM work is not modelled, because it is display only. This covers element lookups, table rendering, `language.*` and the `LANG` tables, toasts, tooltips and animations.
- The elapsed badge's hours/minutes text is not modelled, because it is display only.
- `localStorage` persistence and JSON are not modelled, because they are I/O. This covers `storage.*`, `settings.load`, and the loading of the log in `init`. The model's log starts empty, as on a first visit. A failed save does not roll back the in-memory log in the source either.
- `setInterval`/`setTimeout` scheduling is not modelled, because it is event-loop work. This covers `progressBar.start/stop/reset`, `events.reloadProgress` and the delay in `init`.
- The `Date` machinery is replaced by integer instants. Local midnight is the parameter `dayStart`, so any fixed offset from UTC is covered; only daylight-saving days, whose local midnight is not 24 hours after the previous one, are not modelled. `formatTime` is not modelled, so the stop time stays an instant in milliseconds.
- The `isNaN` degrade branches of `calculate` are not modelled. Every stored record comes from `toISOString` of a valid date, so those branches only matter for hand-edited storage, which is outside the model.
- Floating point is not modelled: values are exact reals. This covers `Math.round` of the percentages, binary rounding of 7.2, and the `Math.floor` round trip in `updateInput`.
- Quirks of `Number()` and `split(':')` are not modelled: the time field is an already-split pair of integers or non-numbers. Examples are fractional parts such as `7.5:30` and an empty part read as 0.
- Directions other than `In`/`Out` are not modelled: the direction is a two-valued type.
- WorkdaySettings.WorkdayRoundTrip, Tracker.TimeTracker.HandleChange: the display half of the round trip holds over exact reals only. The program computes `Math.floor((workdayLength - hours) * 60)` in doubles and loses a minute on many readings: 01:01 becomes 1.0166666666666666 hours, minus 1 is 0.016666666666666607, times 60 is 0.9999999999999964, and the field shows 01:00.
