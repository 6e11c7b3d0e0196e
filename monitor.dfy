/** The rate-check and alerting state machine of the dashboard component:
    the state it keeps, the pure transition of every event that changes it,
    and a class whose methods update the fields in place. */
module Monitor {
  import opened BusinessHours
  import opened HistoryWindow
  import opened AlertLog
  import opened Countdown

  datatype Option<T> = None | Some(value: T)

  /** What the language-model analyser returns when its call succeeds. */
  datatype Verdict = Verdict(isAppreciating: bool, subject: string, body: string, analysis: string)

  /** Everything one check takes from outside the component. */
  datatype Reading = Reading(
    hour: Hour,               // Singapore local hour when the gate is tested
    rate: int,                // the new rate, rounded to 1e-5 and counted in those units
    time: string,             // display time of the new sample
    unix: int,                // wall-clock milliseconds of the new sample
    id: string,               // id of an alert raised by this check
    stamp: string,            // display timestamp of that alert
    verdict: Option<Verdict>) // the analyser's answer if asked; None for a failed call

  /** The rate shown before the first samples arrive (0.6842). */
  const InitialRate: int := 68420
  /** The number of samples the start-up effect puts in the history. */
  const InitialHistoryLength: nat := 12

  /** The component state the checks and timers change. `alertShown` is the
      "alert sent" modal. */
  datatype Snapshot = Snapshot(
    currentRate: int,
    history: seq<Sample>,
    isMonitoring: bool,
    logs: seq<AlertEntry>,
    nextCheckIn: nat,
    alertShown: bool)

  /** The state on first render: monitoring on, a full countdown, nothing
      logged; it already satisfies the invariant every later state keeps. */
  function Initial(): (st: Snapshot)
    ensures Valid(st) && st.isMonitoring && !st.alertShown
  {
    Snapshot(InitialRate, [], true, [], CheckInterval, false)
  }

  /** What every reachable state satisfies: the chart never holds more than
      Capacity samples, the countdown never exceeds the interval, and every
      log entry is counted on the "Alert History" card. */
  predicate Valid(st: Snapshot) {
    |st.history| <= Capacity &&
    st.nextCheckIn <= CheckInterval &&
    AlertCount(st.logs) == |st.logs|
  }

  /** `tail` is what is left of `s` after dropping its newest entries. */
  predicate EndsWith(s: seq<AlertEntry>, tail: seq<AlertEntry>) {
    |tail| <= |s| && s[|s| - |tail|..] == tail
  }

  lemma EndsWithTransitive(a: seq<AlertEntry>, b: seq<AlertEntry>, c: seq<AlertEntry>)
    requires EndsWith(a, b) && EndsWith(b, c)
    ensures EndsWith(a, c)
  {
    assert a[|a| - |c|..] == a[|a| - |b|..][|b| - |c|..];
  }

  function SampleOf(r: Reading): Sample {
    Sample(r.time, r.rate, r.unix)
  }

  /** The analyser is asked only for a strict rise inside the gate. */
  predicate ShouldAnalyze(currentRate: int, r: Reading) {
    r.rate > currentRate && IsWithinWorkingHours(r.hour)
  }

  /** `analysis?.isAppreciating`: a missing answer confirms nothing. */
  predicate Confirms(verdict: Option<Verdict>) {
    verdict.Some? && verdict.value.isAppreciating
  }

  /** A check logs an alert exactly when it asks and the answer confirms. */
  predicate RaisesAlert(currentRate: int, r: Reading) {
    ShouldAnalyze(currentRate, r) && Confirms(r.verdict)
  }

  function AlertOf(r: Reading): AlertEntry
    requires r.verdict.Some?
  {
    AppreciationAlert(r.id, r.stamp, r.verdict.value.subject, r.rate)
  }

  /** The start-up effect: a fresh history, and the rate of its newest sample.
      The rest of the state, the log and the countdown included, is untouched. */
  function LoadStep(st: Snapshot, initial: seq<Sample>): (next: Snapshot)
    requires |initial| == InitialHistoryLength
    ensures Valid(st) ==> Valid(next)
    ensures next.history == initial && |next.history| == InitialHistoryLength
    ensures next.currentRate == next.history[|next.history| - 1].rate
    ensures next.(history := st.history, currentRate := st.currentRate) == st
  {
    st.(history := initial, currentRate := initial[|initial| - 1].rate)
  }

  /** One check, manual or scheduled. It keeps the state valid, and the old
      log survives as the tail of the new one, under at most one new entry. */
  function CheckStep(st: Snapshot, r: Reading): (next: Snapshot)
    ensures Valid(st) ==> Valid(next)
    ensures EndsWith(next.logs, st.logs) && |next.logs| <= |st.logs| + 1
  {
    var alert := RaisesAlert(st.currentRate, r);
    st.(history := Append(st.history, SampleOf(r)),
        logs := if alert then Prepend(AlertOf(r), st.logs) else st.logs,
        alertShown := st.alertShown || alert,
        currentRate := r.rate,
        nextCheckIn := CheckInterval)
  }

  /** One firing of the once-per-second clock timer: the countdown never
      rises, and nothing else changes. */
  function SecondStep(st: Snapshot): (next: Snapshot)
    ensures Valid(st) ==> Valid(next)
    ensures next.nextCheckIn == Tick(st.nextCheckIn) && next.nextCheckIn <= st.nextCheckIn
    ensures next.(nextCheckIn := st.nextCheckIn) == st
  {
    st.(nextCheckIn := Tick(st.nextCheckIn))
  }

  /** One firing of the hourly timer. While paused the timer is cleared, so
      nothing fires; outside the gate the firing does nothing. Either way it
      is a check or no change at all. */
  function HourStep(st: Snapshot, r: Reading): (next: Snapshot)
    ensures next == st || next == CheckStep(st, r)
    ensures Valid(st) ==> Valid(next)
  {
    if st.isMonitoring && IsWithinWorkingHours(r.hour) then CheckStep(st, r) else st
  }

  /** The pause/start button: the flag flips and nothing else changes. */
  function ToggleStep(st: Snapshot): (next: Snapshot)
    ensures next.isMonitoring != st.isMonitoring
    ensures next.(isMonitoring := st.isMonitoring) == st
    ensures Valid(st) ==> Valid(next)
  {
    st.(isMonitoring := !st.isMonitoring)
  }

  /** Closing the "alert sent" modal: it is closed afterwards and nothing
      else changes. */
  function DismissStep(st: Snapshot): (next: Snapshot)
    ensures !next.alertShown
    ensures next.(alertShown := st.alertShown) == st
    ensures Valid(st) ==> Valid(next)
  {
    st.(alertShown := false)
  }

  /** What can happen to the component once it is running. */
  datatype Event =
    | CheckNowPressed(reading: Reading)
    | ClockTick
    | HourlyTick(reading: Reading)
    | TogglePressed
    | DismissPressed

  /** One event. Every event keeps the state valid; the log is only ever
      prepended to, by at most one entry, and only by an event that may run
      a check. */
  function Step(st: Snapshot, e: Event): (next: Snapshot)
    ensures Valid(st) ==> Valid(next)
    ensures EndsWith(next.logs, st.logs)
    ensures |next.logs| <= |st.logs| + (if e.CheckNowPressed? || e.HourlyTick? then 1 else 0)
  {
    assert st.logs[|st.logs| - |st.logs|..] == st.logs;
    match e
    case CheckNowPressed(r) => CheckStep(st, r)
    case ClockTick => SecondStep(st)
    case HourlyTick(r) => HourStep(st, r)
    case TogglePressed => ToggleStep(st)
    case DismissPressed => DismissStep(st)
  }

  /** The state after the events, in order. */
  function Run(st: Snapshot, events: seq<Event>): Snapshot
    decreases |events|
  {
    if events == [] then st else Run(Step(st, events[0]), events[1..])
  }

  /** The number of events that may run a check. */
  function Checks(events: seq<Event>): nat
    decreases |events|
  {
    if events == [] then 0
    else (if events[0].CheckNowPressed? || events[0].HourlyTick? then 1 else 0) + Checks(events[1..])
  }

  /** Every check, whatever the analyser says, ends on the new rate with a
      full countdown and leaves monitoring as it was; the new sample is the
      newest in the history. */
  lemma CheckEndsInSync(st: Snapshot, r: Reading)
    ensures CheckStep(st, r).currentRate == r.rate
    ensures CheckStep(st, r).nextCheckIn == CheckInterval
    ensures CheckStep(st, r).isMonitoring == st.isMonitoring
    ensures var h := CheckStep(st, r).history; h[|h| - 1] == SampleOf(r)
  {
  }

  /** A check changes the log exactly when the rate rose strictly, the gate
      was open and the analyser confirmed; an equal or lower rate, a closed
      gate, a failed call or a negative answer leave it as it was. */
  lemma CheckLogsOnlyConfirmedRise(st: Snapshot, r: Reading)
    ensures CheckStep(st, r).logs != st.logs <==> RaisesAlert(st.currentRate, r)
    ensures r.rate <= st.currentRate ==> CheckStep(st, r).logs == st.logs
    ensures !IsWithinWorkingHours(r.hour) ==> CheckStep(st, r).logs == st.logs
    ensures !Confirms(r.verdict) ==> CheckStep(st, r).logs == st.logs
  {
    if RaisesAlert(st.currentRate, r) {
      assert |CheckStep(st, r).logs| == |st.logs| + 1;
    }
  }

  /** A confirmed rise puts exactly one appreciation entry, for the new rate,
      in front of the older entries, which keep their order. */
  lemma ConfirmedRisePrependsOne(st: Snapshot, r: Reading)
    requires RaisesAlert(st.currentRate, r)
    ensures var logs := CheckStep(st, r).logs;
      |logs| == |st.logs| + 1 && logs[1..] == st.logs &&
      logs[0].kind == Appreciation && logs[0].rate == r.rate &&
      AlertCount(logs) == AlertCount(st.logs) + 1
  {
  }

  /** The manual button runs the same check whether or not monitoring is on. */
  lemma CheckIgnoresMonitoring(st: Snapshot, r: Reading, monitoring: bool)
    ensures Step(st.(isMonitoring := monitoring), CheckNowPressed(r))
         == Step(st, CheckNowPressed(r)).(isMonitoring := monitoring)
  {
  }

  /** The hourly timer checks exactly when monitoring is on and the gate is
      open, and otherwise changes nothing, not even the countdown. */
  lemma HourlyTickGated(st: Snapshot, r: Reading)
    ensures st.isMonitoring && IsWithinWorkingHours(r.hour) ==> Step(st, HourlyTick(r)) == CheckStep(st, r)
    ensures !st.isMonitoring || !IsWithinWorkingHours(r.hour) ==> Step(st, HourlyTick(r)) == st
  {
  }

  /** Pressing the button twice restores the monitoring flag. */
  lemma ToggleTwiceRestores(st: Snapshot)
    ensures ToggleStep(ToggleStep(st)) == st
  {
  }

  /** Any sequence of events keeps the state valid. */
  lemma {:induction false} RunKeepsValid(st: Snapshot, events: seq<Event>)
    requires Valid(st)
    ensures Valid(Run(st, events))
    decreases |events|
  {
    if events != [] {
      RunKeepsValid(Step(st, events[0]), events[1..]);
    }
  }

  /** The log is only ever prepended to: after any events the old log is
      still its tail, unchanged, and each check adds at most one entry. */
  lemma {:induction false} RunOnlyPrependsLogs(st: Snapshot, events: seq<Event>)
    ensures EndsWith(Run(st, events).logs, st.logs)
    ensures |Run(st, events).logs| <= |st.logs| + Checks(events)
    decreases |events|
  {
    if events == [] {
      assert st.logs[|st.logs| - |st.logs|..] == st.logs;
    } else {
      var next := Step(st, events[0]);
      var after := Run(st, events);
      assert after == Run(next, events[1..]);
      RunOnlyPrependsLogs(next, events[1..]);
      EndsWithTransitive(after.logs, next.logs, st.logs);
    }
  }

  /** The number of clock-timer firings among the events. */
  function ClockTicks(events: seq<Event>): nat
    decreases |events|
  {
    if events == [] then 0
    else (if events[0].ClockTick? then 1 else 0) + ClockTicks(events[1..])
  }

  /** Only timer events while paused. */
  predicate TimersOnly(events: seq<Event>) {
    forall i :: 0 <= i < |events| ==> events[i].ClockTick? || events[i].HourlyTick?
  }

  /** While paused, time passing fetches nothing: rate, history and log stay
      as they were, and the countdown keeps running down to zero without
      being reset. */
  lemma {:induction false} PausedTimeFetchesNothing(st: Snapshot, events: seq<Event>)
    requires !st.isMonitoring && TimersOnly(events)
    ensures var after := Run(st, events);
      after.currentRate == st.currentRate && after.history == st.history &&
      after.logs == st.logs && !after.isMonitoring &&
      after.nextCheckIn == Elapse(st.nextCheckIn, ClockTicks(events))
    ensures var n, k := st.nextCheckIn, ClockTicks(events);
      Run(st, events).nextCheckIn == if k <= n then n - k else 0
    decreases |events|
  {
    if events != [] {
      var rest := events[1..];
      assert TimersOnly(rest) by {
        forall i | 0 <= i < |rest| ensures rest[i].ClockTick? || rest[i].HourlyTick? {
          assert rest[i] == events[i + 1];
        }
      }
      var next := if events[0].ClockTick? then SecondStep(st) else st;
      assert Step(st, events[0]) == next;
      assert Run(st, events) == Run(next, rest);
      PausedTimeFetchesNothing(next, rest);
    }
    var n, k := st.nextCheckIn, ClockTicks(events);
    assert Run(st, events).nextCheckIn == Elapse(n, k);
  }

  /** The component itself: the fields its state hooks hold, updated in place. */
  class Dashboard {
    var currentRate: int
    var history: seq<Sample>
    var isMonitoring: bool
    var logs: seq<AlertEntry>
    var nextCheckIn: nat
    var alertShown: bool

    function State(): Snapshot
      reads this
    {
      Snapshot(currentRate, history, isMonitoring, logs, nextCheckIn, alertShown)
    }

    constructor ()
      ensures State() == Initial()
    {
      currentRate := InitialRate;
      history := [];
      isMonitoring := true;
      logs := [];
      nextCheckIn := CheckInterval;
      alertShown := false;
    }

    /** The start-up effect: install the generated samples as the history
        and take the newest one's rate. */
    method LoadInitialHistory(initial: seq<Sample>)
      requires |initial| == InitialHistoryLength
      modifies this`history, this`currentRate
      ensures history == initial && currentRate == initial[|initial| - 1].rate
      ensures State() == LoadStep(old(State()), initial)
    {
      history := initial;
      currentRate := initial[|initial| - 1].rate;
    }

    /** `fetchExchangeRate`: record the sample, ask the analyser only for a
        strict rise inside the gate, log a confirmed appreciation, then take
        the new rate and restart the countdown. `analysed` says whether the
        analyser was asked. */
    method Check(r: Reading) returns (analysed: bool)
      modifies this
      ensures analysed <==> ShouldAnalyze(old(currentRate), r)
      ensures history == Append(old(history), SampleOf(r))
      ensures analysed && Confirms(r.verdict) ==>
        logs == [AppreciationAlert(r.id, r.stamp, r.verdict.value.subject, r.rate)] + old(logs) && alertShown
      ensures !(analysed && Confirms(r.verdict)) ==> logs == old(logs) && alertShown == old(alertShown)
      ensures currentRate == r.rate && nextCheckIn == CheckInterval && isMonitoring == old(isMonitoring)
      ensures State() == CheckStep(old(State()), r)
    {
      history := Append(history, SampleOf(r));
      analysed := r.rate > currentRate && IsWithinWorkingHours(r.hour);
      if analysed {
        var verdict := r.verdict;
        if verdict.Some? && verdict.value.isAppreciating {
          var entry := AppreciationAlert(r.id, r.stamp, verdict.value.subject, r.rate);
          logs := Prepend(entry, logs);
          alertShown := true;
        }
      }
      currentRate := r.rate;
      nextCheckIn := CheckInterval;
    }

    /** The clock timer's countdown update. */
    method SecondTick()
      modifies this`nextCheckIn
      ensures nextCheckIn == Tick(old(nextCheckIn))
      ensures State() == SecondStep(old(State()))
    {
      if nextCheckIn > 0 {
        nextCheckIn := nextCheckIn - 1;
      } else {
        nextCheckIn := 0;
      }
    }

    /** The hourly timer's callback; `fetched` says whether it ran a check. */
    method ScheduledTick(r: Reading) returns (fetched: bool)
      modifies this
      ensures fetched <==> old(isMonitoring) && IsWithinWorkingHours(r.hour)
      ensures !fetched ==> unchanged(this)
      ensures State() == HourStep(old(State()), r)
    {
      fetched := isMonitoring && IsWithinWorkingHours(r.hour);
      if fetched {
        var _ := Check(r);
      }
    }

    /** `toggleMonitoring`: flips the flag and nothing else; the countdown
        is not reset. */
    method ToggleMonitoring()
      modifies this`isMonitoring
      ensures isMonitoring == !old(isMonitoring)
      ensures State() == ToggleStep(old(State()))
    {
      isMonitoring := !isMonitoring;
    }

    /** The modal's close button. */
    method DismissAlert()
      modifies this`alertShown
      ensures !alertShown
      ensures State() == DismissStep(old(State()))
    {
      alertShown := false;
    }
  }
}
