# SGD/EUR rate monitor — the check-and-alert state machine

The dashboard keeps a current SGD→EUR rate, a chart history of at most 24
samples, a log of appreciation alerts (newest first), a monitoring flag and a
countdown to the next scheduled check. A check takes a new rate, records it
in the history, and — only when the rate rose strictly and the Singapore hour
lies in the business-hours gate [8, 17) — asks a language-model analyser
whether the currency is appreciating; a confirmed answer prepends one
`appreciation` entry to the log and opens the "alert sent" modal. Every
check ends on the new rate with the countdown back at 3600 seconds. A
once-per-second clock counts the countdown down to zero, an hourly timer runs
a check while monitoring is on and the gate is open, and a button toggles
monitoring.

Modules, one per part of the component:

- `BusinessHours` (`hours.dfy`): the gate over the local hour.
- `Countdown` (`countdown.dfy`): the one-second tick, the 3600-second
  interval and the minutes/seconds split of the display.
- `HistoryWindow` (`history.dfy`): the sample type and the slice-and-append
  update, proved equal to a first-in, first-out buffer of capacity 24.
- `AlertLog` (`alerts.dfy`): the entry type, the appreciation entry a
  confirmed check creates, and the filter-and-count shown on the stats card.
- `Monitor` (`monitor.dfy`): the component state as a `Snapshot`, the pure
  transition of every event, runs of events and their invariants, and the
  class `Dashboard`, whose fields are the state hooks and whose methods
  update them in place, each proved equal to the pure transition.

Inputs from outside the component are parameters: the Singapore local hour,
the new rate, the sample's display time and `Date.now()` stamp, the alert's
id and timestamp strings, and the analyser's answer as `Option<Verdict>`
(`None` for a failed call, which the service turns into `null`). Rates are
integers counting units of 1e-5, the precision `toFixed(5)` rounds to; so the
initial 0.6842 is `68420`.

Where one might expect otherwise, the model follows the code:

- The manual "Check Rates Now" button runs the same check as the timer, with
  no monitoring test, and the business-hours gate still applies to it.
- The new sample enters the history before the analyser is asked, not after.
- There is no guard against a second check starting while one awaits the
  analyser.
- Starting monitoring again does not reset the countdown, and the countdown
  keeps running down while monitoring is paused.
- The rate source cannot fail (it is a random walk), so there is no
  "source unavailable" path.

## Model

| member | source | states |
|---|---|---|
| `BusinessHours.IsWithinWorkingHours` | App.tsx:27-31 | the gate is open exactly in the hours 8, 9, …, 16 and closed in every other hour |
| `BusinessHours.GateBoundaries` | App.tsx:30 | the edges of the gate: 7 and 17 closed, 8 and 16 open |
| `BusinessHours.GateOpensNineHoursADay` | App.tsx:30 | a corollary of `BusinessHours.IsWithinWorkingHours`: counted as a set of hours of the day, the gate is open in exactly nine of the 24 |
| `Countdown.Tick` | App.tsx:86 | a clock tick lowers the countdown by at most one and reaches zero only from 0 or 1; its exact effect over many ticks is pinned by `Countdown.Elapse` |
| `Countdown.Elapse` | App.tsx:81-87 | after k ticks the countdown is n - k when k ≤ n and 0 otherwise; it never goes negative |
| `Countdown.FormatTimeRemaining` | App.tsx:110-114 | minutes * 60 + seconds is the countdown and seconds < 60 |
| `Countdown.FormatTimeRemainingUnique` | App.tsx:110-114 | that split is the only one with fewer than 60 seconds |
| `HistoryWindow.SliceLast` | App.tsx:48 | `slice(-n)` keeps min(len, n) elements |
| `HistoryWindow.Append` | App.tsx:48 | the new history has min(old + 1, 24) samples, ends with the new sample, and before it holds the newest ≤ 23 old samples in their order |
| `HistoryWindow.EvictOldestKeepsNewest` | App.tsx:48 | evicting from the head until 24 are left keeps the newest 24 |
| `HistoryWindow.AppendKeepsNewest` | App.tsx:48 | one update yields the last 24 samples of the old history extended by the new sample |
| `HistoryWindow.AppendIsFifo` | App.tsx:48 | the slice-and-append update equals appending at the tail and evicting from the head down to 24 |
| `HistoryWindow.AppendAllKeepsNewest` | App.tsx:48 | after any series of checks the history is the newest 24 samples of everything recorded, in order |
| `HistoryWindow.AppendKeepsUnixOrder` | App.tsx:42-48 | given a timestamp no older than the newest sample, the history stays in time order |
| `AlertLog.AppreciationAlert` | App.tsx:55-61 | the entry has type appreciation, the new rate, the given id and timestamp, and the message "SGD Appreciated: " followed by the subject |
| `AlertLog.Appreciations` | App.tsx:142 | the filter is no longer than the log |
| `AlertLog.AppreciationsExact` | App.tsx:142 | the filter holds every appreciation entry exactly as often as the log does, and no entry of another type |
| `AlertLog.AppreciationsConcat` | App.tsx:142 | the filter keeps the log's order: filtering two logs joined is joining their filters |
| `AlertLog.AppreciationsCountIndices` | App.tsx:142 | the filter's length is the number of positions of the log that hold an appreciation entry |
| `AlertLog.AlertCount` | App.tsx:142 | the count shown equals the number of positions holding an appreciation entry, duplicates counted, and is at most the log's length |
| `AlertLog.AllCountedIffAllAppreciation` | App.tsx:142 | every entry is counted iff every entry is an appreciation entry |
| `AlertLog.Prepend` | App.tsx:62 | the new entry goes in front, the older entries follow unchanged, and the count rises by one iff the entry is an appreciation entry |
| `Monitor.Initial` | App.tsx:10-16 | the first-render state satisfies the invariant, with monitoring on and the modal closed |
| `Monitor.LoadStep` | App.tsx:72-79 | the start-up effect installs exactly the 12 generated samples as the history, takes the newest one's rate, changes nothing else, and keeps the invariant |
| `Monitor.CheckStep` | App.tsx:33-69 | a check keeps the invariant, and the old log is the tail of the new one under at most one new entry |
| `Monitor.SecondStep` | App.tsx:86 | a clock tick sets the countdown to its `Tick` (one less, stopping at zero), never raises it, changes nothing else, and keeps the invariant |
| `Monitor.HourStep` | App.tsx:93-99 | an hourly firing is either a check or no change at all, and keeps the invariant |
| `Monitor.ToggleStep` | App.tsx:108 | the button flips the monitoring flag, changes nothing else, and keeps the invariant |
| `Monitor.DismissStep` | App.tsx:325 | closing the modal leaves it closed, changes nothing else, and keeps the invariant |
| `Monitor.Step` | App.tsx:33-108 | every event keeps history ≤ 24, countdown ≤ 3600 and every log entry an appreciation; the old log stays the tail, with at most one entry added and only by a check |
| `Monitor.CheckEndsInSync` | App.tsx:48-68 | every check ends with the new rate, a 3600 s countdown, monitoring unchanged and the new sample newest in the history |
| `Monitor.CheckLogsOnlyConfirmedRise` | App.tsx:51-65 | the log changes iff the rate rose strictly, the gate was open and the analyser confirmed; equal or lower rates, a closed gate, a failed call or a negative answer leave it unchanged |
| `Monitor.ConfirmedRisePrependsOne` | App.tsx:54-62 | a confirmed rise adds exactly one appreciation entry with the new rate at the front; older entries follow unchanged; the count rises by one |
| `Monitor.CheckIgnoresMonitoring` | App.tsx:289 | the manual check behaves the same whether or not monitoring is on |
| `Monitor.HourlyTickGated` | App.tsx:93-102 | the hourly timer runs a check iff monitoring is on and the gate is open, and otherwise changes nothing |
| `Monitor.ToggleTwiceRestores` | App.tsx:108 | toggling twice restores the state |
| `Monitor.RunKeepsValid` | App.tsx:33-108 | any sequence of events keeps that invariant |
| `Monitor.RunOnlyPrependsLogs` | App.tsx:62 | after any events the old log is the unchanged tail of the new one, and each check adds at most one entry |
| `Monitor.PausedTimeFetchesNothing` | App.tsx:81-106 | while paused, timer firings leave rate, history and log alone and the countdown runs down to zero without reset |
| `Monitor.Dashboard.constructor` | App.tsx:10-15 | the initial state: rate 0.6842, empty history and log, monitoring on, countdown 3600 |
| `Monitor.Dashboard.LoadInitialHistory` | App.tsx:72-79 | the generated samples become the history and the newest one's rate the current rate |
| `Monitor.Dashboard.Check` | App.tsx:33-69 | records the sample, asks the analyser iff rise and gate, prepends the alert iff confirmed, then sets the rate and the countdown; equals the pure check step |
| `Monitor.Dashboard.SecondTick` | App.tsx:86 | the countdown becomes its tick, nothing else changes |
| `Monitor.Dashboard.ScheduledTick` | App.tsx:93-99 | runs a check iff monitoring and inside the gate; otherwise nothing changes |
| `Monitor.Dashboard.ToggleMonitoring` | App.tsx:108 | flips the monitoring flag and nothing else |
| `Monitor.Dashboard.DismissAlert` | App.tsx:325 | closes the "alert sent" modal and nothing else |

## Left out

- The analyser service (services/geminiService.ts): a call to an external language model whose JSON answer is parsed; it is the `verdict` input. Its use of the last five samples does not change the state.
- The random fluctuation and the float rounding of the new rate (App.tsx:36-37) and the random initial samples (App.tsx:73-77): every rate is an input counted in whole units of 1e-5. The code rounds each new rate to that precision but not the initial samples, so the model assumes their rates are whole units too. This loses no outcome of a check: every new rate is a whole number of units, and a whole number exceeds an unrounded rate c exactly when it exceeds the whole part of c, so taking that whole part as the initial rate keeps every result of `newRate > currentRate` (App.tsx:51). Only the chart values of the initial samples lose their extra digits.
- The time-zone conversion and the display strings (App.tsx:23-25, 40, 84, 113): the hour, the sample time and the alert timestamp are inputs; `FormatTimeRemaining` returns the minutes and seconds, not the text.
- Timer plumbing and effect lifecycles (`setInterval`, `clearInterval`, the re-arming of the hourly timer when the check callback changes): timers are events the caller applies in order.
- Async interleaving: the model runs each check to completion. In the code a second check can start while one awaits the analyser and compare against the same stale rate, since nothing guards against it.
- `Monitor.Dashboard.ScheduledTick`: tests the gate once, with one hour; the code reads the clock again inside the check a moment later, which can differ at an hour boundary.
- `Countdown.FormatTimeRemaining`: takes a non-negative count only; JavaScript `%` would give a negative remainder for a negative count, but the countdown never goes below zero (`Countdown.Elapse`).
- Rendering: the chart, cards, tabs, modal content and the email field (App.tsx:12, 116-338), which has no validation.
