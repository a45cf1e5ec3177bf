/** The countdown hook of src/hooks/useTimer.ts. The hook's state is
    `(timeRemaining, isRunning)` plus whether `intervalRef` holds a live
    interval. Its effect (useTimer.ts:64-80) re-runs only when `isRunning` or
    `timeRemaining` changes: it clears the old interval and arms a new one
    exactly when `isRunning && timeRemaining > 0`. A setter that stores the
    value already there changes nothing, so the effect does not re-run, and a
    `clearTimer` called before it is not undone. One second of wall-clock time
    is one `Ticked` step, which does nothing while no interval is live. */
module Timer {
  import opened Wrappers

  datatype TimerState = TimerState(timeRemaining: int, isRunning: bool, live: bool)

  /** The effect's condition for arming an interval (useTimer.ts:65). */
  predicate Armed(s: TimerState) {
    s.isRunning && s.timeRemaining > 0
  }

  /** The hook never holds an interval the effect would not have armed. */
  predicate Consistent(s: TimerState) {
    s.live ==> Armed(s)
  }

  /** The state once the hook's setters have stored `timeRemaining` and
      `isRunning`, after a `clearTimer()` call when `cleared`: a change
      re-runs the effect, which arms an interval exactly when `Armed`; no
      change leaves the interval as the call left it. */
  function Commit(s: TimerState, timeRemaining: int, isRunning: bool, cleared: bool): (r: TimerState)
    ensures r.timeRemaining == timeRemaining && r.isRunning == isRunning
    ensures (timeRemaining, isRunning) != (s.timeRemaining, s.isRunning) ==> (r.live <==> Armed(r))
    ensures (timeRemaining, isRunning) == (s.timeRemaining, s.isRunning) ==> (r.live <==> s.live && !cleared)
  {
    if (timeRemaining, isRunning) != (s.timeRemaining, s.isRunning) then
      TimerState(timeRemaining, isRunning, isRunning && timeRemaining > 0)
    else
      TimerState(timeRemaining, isRunning, s.live && !cleared)
  }

  /** The state after one second, and whether `onExpire` fired. */
  datatype TickOutcome = TickOutcome(next: TimerState, expired: bool)

  /** The interval callback (useTimer.ts:66-74), if an interval is live: at a
      count of one or less it clears the interval, stops and fires; otherwise
      it counts down, and the effect re-arms on the new count. */
  function Ticked(s: TimerState): (o: TickOutcome)
    ensures o.expired <==> s.live && s.timeRemaining <= 1
    ensures o.expired ==> o.next == TimerState(0, false, false)
    ensures !s.live ==> o.next == s
    ensures s.live && !o.expired ==>
      o.next.timeRemaining == s.timeRemaining - 1 && o.next.isRunning == s.isRunning
    ensures s.live && s.isRunning && !o.expired ==> o.next.live
    ensures Consistent(o.next)
    ensures s.timeRemaining >= 0 ==> o.next.timeRemaining >= 0
  {
    if !s.live then TickOutcome(s, false)
    else if s.timeRemaining <= 1 then TickOutcome(TimerState(0, false, false), true)
    else TickOutcome(Commit(s, s.timeRemaining - 1, s.isRunning, false), false)
  }

  /** `start` (useTimer.ts:40-42). */
  function Started(s: TimerState): TimerState {
    Commit(s, s.timeRemaining, true, false)
  }

  /** `pause` (useTimer.ts:44-47). */
  function Paused(s: TimerState): TimerState {
    Commit(s, s.timeRemaining, false, true)
  }

  /** `reset` (useTimer.ts:49-53). */
  function ResetTo(s: TimerState, duration: int): TimerState {
    Commit(s, duration, false, true)
  }

  /** `restart(newDuration?)` (useTimer.ts:55-62), as written: the interval
      is cleared first, so a restart to the count and running flag the timer
      already has leaves no interval at all. */
  function Restarted(s: TimerState, duration: int, newDuration: Option<int>): (r: TimerState)
    ensures r.timeRemaining == newDuration.GetOr(duration) && r.isRunning
    ensures r.live <==> r.timeRemaining > 0 && (r.timeRemaining != s.timeRemaining || !s.isRunning)
  {
    Commit(s, newDuration.GetOr(duration), true, true)
  }

  /** The restart the page relies on: counting from the new duration with an
      interval armed whenever the count is positive. */
  function RestartedIntended(duration: int, newDuration: Option<int>): (r: TimerState)
    ensures Consistent(r) && r.isRunning && r.timeRemaining == newDuration.GetOr(duration)
    ensures r.live <==> r.timeRemaining > 0
  {
    var d := newDuration.GetOr(duration);
    TimerState(d, true, d > 0)
  }

  /** Every operation of the hook keeps it consistent. */
  lemma OperationsKeepConsistent(s: TimerState, duration: int, newDuration: Option<int>)
    requires Consistent(s)
    ensures Consistent(Started(s)) && Consistent(Paused(s)) && Consistent(ResetTo(s, duration))
    ensures Consistent(Restarted(s, duration, newDuration)) && Consistent(Ticked(s).next)
    ensures !Paused(s).live && !ResetTo(s, duration).live
  {
  }

  /** `k` seconds with no other call to the hook. */
  datatype RunOutcome = RunOutcome(final: TimerState, expirations: nat)

  function Run(s: TimerState, k: nat): RunOutcome
    decreases k
  {
    if k == 0 then RunOutcome(s, 0)
    else
      var o := Ticked(s);
      var rest := Run(o.next, k - 1);
      RunOutcome(rest.final, rest.expirations + (if o.expired then 1 else 0))
  }

  /** A timer with no live interval never changes and never fires. */
  lemma {:induction false} IdleStays(s: TimerState, k: nat)
    requires !s.live
    ensures Run(s, k) == RunOutcome(s, 0)
    decreases k
  {
    if k > 0 {
      IdleStays(s, k - 1);
    }
  }

  /** Before reaching zero the count goes down by exactly one per second. */
  lemma {:induction false} CountsDown(s: TimerState, k: nat)
    requires s.live && s.isRunning && k < s.timeRemaining
    ensures Run(s, k) == RunOutcome(TimerState(s.timeRemaining - k, true, true), 0)
    decreases k
  {
    if k > 0 {
      CountsDown(Ticked(s).next, k - 1);
    }
  }

  /** Running with a live interval from `d > 0`, after `d` seconds the timer
      is at zero, stopped, and has fired `onExpire` once; after that nothing
      more happens. */
  lemma RunToExpiry(d: int, extra: nat)
    requires d > 0
    ensures Run(TimerState(d, true, true), d) == RunOutcome(TimerState(0, false, false), 1)
    ensures Run(TimerState(d, true, true), d + extra) == RunOutcome(TimerState(0, false, false), 1)
  {
    RunSplit(TimerState(d, true, true), d - 1, 1);
    CountsDown(TimerState(d, true, true), d - 1);
    IdleStays(TimerState(0, false, false), 0);
    RunSplit(TimerState(d, true, true), d, extra);
    IdleStays(TimerState(0, false, false), extra);
  }

  /** Seconds compose. */
  lemma {:induction false} RunSplit(s: TimerState, j: nat, k: nat)
    ensures Run(s, j + k).final == Run(Run(s, j).final, k).final
    ensures Run(s, j + k).expirations == Run(s, j).expirations + Run(Run(s, j).final, k).expirations
    decreases j
  {
    if j > 0 {
      RunSplit(Ticked(s).next, j - 1, k);
    }
  }

  /** However long it runs, an untouched timer fires at most once and never
      goes below zero. */
  lemma {:induction false} FiresAtMostOnce(s: TimerState, k: nat)
    requires s.timeRemaining >= 0
    ensures Run(s, k).expirations <= 1
    ensures Run(s, k).final.timeRemaining >= 0
    ensures Run(s, k).expirations == 1 ==> Run(s, k).final == TimerState(0, false, false)
    decreases k
  {
    if k > 0 {
      var o := Ticked(s);
      FiresAtMostOnce(o.next, k - 1);
      if o.expired {
        IdleStays(o.next, k - 1);
      }
    }
  }

  /** `pause` keeps the remaining time and drops the interval, and then
      waiting changes nothing. */
  lemma PauseFreezes(s: TimerState, k: nat)
    ensures Paused(s) == TimerState(s.timeRemaining, false, false)
    ensures Run(Paused(s), k) == RunOutcome(Paused(s), 0)
  {
    IdleStays(Paused(s), k);
  }

  /** `reset` stops the timer at the full duration. */
  lemma ResetStops(s: TimerState, duration: int, k: nat)
    ensures Run(ResetTo(s, duration), k) == RunOutcome(TimerState(duration, false, false), 0)
  {
    IdleStays(ResetTo(s, duration), k);
  }

  /** `start` keeps the remaining time. On a stopped timer with time left it
      arms an interval; on a running one it changes nothing, so it revives no
      interval; a start at zero or below never ticks. */
  lemma StartOutcomes(s: TimerState, k: nat)
    requires Consistent(s)
    ensures Started(s).timeRemaining == s.timeRemaining && Started(s).isRunning
    ensures !s.isRunning && s.timeRemaining > 0 ==> Started(s).live
    ensures s.isRunning ==> Started(s) == s
    ensures s.timeRemaining <= 0 ==> Run(Started(s), k) == RunOutcome(Started(s), 0)
  {
    if s.timeRemaining <= 0 {
      IdleStays(Started(s), k);
    }
  }

  /** A `restart` that changes the count or starts a stopped timer arms an
      interval: it counts down from `n` (or `duration`) and fires after exactly
      that many seconds; a non-positive count never fires. */
  lemma RestartRuns(s: TimerState, duration: int, newDuration: Option<int>, k: nat)
    requires (newDuration.GetOr(duration), true) != (s.timeRemaining, s.isRunning)
    ensures var d := newDuration.GetOr(duration);
      && Restarted(s, duration, newDuration) == RestartedIntended(duration, newDuration)
      && (d > 0 && k < d ==> Run(Restarted(s, duration, newDuration), k).expirations == 0)
      && (d > 0 && k >= d ==> Run(Restarted(s, duration, newDuration), k) == RunOutcome(TimerState(0, false, false), 1))
      && (d <= 0 ==> Run(Restarted(s, duration, newDuration), k) == RunOutcome(TimerState(d, true, false), 0))
  {
    RestartIntendedRuns(duration, newDuration, k);
  }

  /** A `restart` to the count a running timer already shows clears its
      interval and arms none: the timer is frozen and never fires, whatever
      the count. */
  lemma RestartFreezes(s: TimerState, duration: int, newDuration: Option<int>, k: nat)
    requires s.isRunning && s.timeRemaining == newDuration.GetOr(duration)
    ensures Restarted(s, duration, newDuration) == TimerState(s.timeRemaining, true, false)
    ensures Run(Restarted(s, duration, newDuration), k) == RunOutcome(TimerState(s.timeRemaining, true, false), 0)
  {
    IdleStays(Restarted(s, duration, newDuration), k);
  }

  /** The intended restart always counts down from its count and fires once
      after that many seconds. */
  lemma RestartIntendedRuns(duration: int, newDuration: Option<int>, k: nat)
    ensures var d := newDuration.GetOr(duration);
      && (d > 0 && k < d ==> Run(RestartedIntended(duration, newDuration), k).expirations == 0)
      && (d > 0 && k >= d ==> Run(RestartedIntended(duration, newDuration), k) == RunOutcome(TimerState(0, false, false), 1))
      && (d <= 0 ==> Run(RestartedIntended(duration, newDuration), k) == RunOutcome(TimerState(d, true, false), 0))
  {
    var d := newDuration.GetOr(duration);
    var s := RestartedIntended(duration, newDuration);
    if d > 0 {
      if k < d {
        CountsDown(s, k);
      } else {
        RunToExpiry(d, k - d);
      }
    } else {
      IdleStays(s, k);
    }
  }

  /** The hook instance. `duration` is the option it was created with;
      `live` says whether `intervalRef` holds an interval. */
  class CountdownTimer {
    const duration: int
    var timeRemaining: int
    var isRunning: bool
    var live: bool

    function State(): TimerState
      reads this
    {
      TimerState(timeRemaining, isRunning, live)
    }

    /** `useState(duration)` and `useState(autoStart)` (useTimer.ts:23-24),
        and the effect's first run. */
    constructor (duration: int, autoStart: bool)
      ensures this.duration == duration
      ensures State() == TimerState(duration, autoStart, autoStart && duration > 0)
      ensures Consistent(State())
    {
      this.duration := duration;
      timeRemaining := duration;
      isRunning := autoStart;
      live := autoStart && duration > 0;
    }

    method Start()
      modifies this
      ensures State() == Started(old(State()))
    {
      if !isRunning {
        isRunning := true;
        live := timeRemaining > 0;
      }
    }

    method Pause()
      modifies this
      ensures State() == Paused(old(State()))
    {
      isRunning := false;
      live := false;
    }

    method Reset()
      modifies this
      ensures State() == ResetTo(old(State()), duration)
    {
      live := false;
      timeRemaining := duration;
      isRunning := false;
    }

    method Restart(newDuration: Option<int>)
      modifies this
      ensures State() == Restarted(old(State()), duration, newDuration)
    {
      var d := newDuration.GetOr(duration);
      live := false;
      if d != timeRemaining || !isRunning {
        timeRemaining := d;
        isRunning := true;
        live := d > 0;
      }
    }

    /** One second passes; `expired` says whether `onExpire` was called. */
    method Tick() returns (expired: bool)
      modifies this
      ensures TickOutcome(State(), expired) == Ticked(old(State()))
    {
      expired := false;
      if live {
        if timeRemaining <= 1 {
          live := false;
          isRunning := false;
          expired := true;
          timeRemaining := 0;
        } else {
          timeRemaining := timeRemaining - 1;
          live := isRunning;
        }
      }
    }
  }

  // --------------------------------------------------------------- formatTime

  predicate IsDigit(c: char) {
    '0' <= c <= '9'
  }

  function DigitChar(d: nat): (c: char)
    requires d < 10
    ensures IsDigit(c)
  {
    ('0' as int + d) as char
  }

  /** `n.toString()` for a non-negative integer. */
  function DecimalString(n: nat): (s: string)
    ensures |s| >= 1 && forall i :: 0 <= i < |s| ==> IsDigit(s[i])
    ensures n < 10 <==> |s| == 1
  {
    if n < 10 then [DigitChar(n)] else DecimalString(n / 10) + [DigitChar(n % 10)]
  }

  /** `i.toString()`. */
  function IntString(i: int): string {
    if i < 0 then "-" + DecimalString(-i) else DecimalString(i)
  }

  /** `s.padStart(2, "0")`. */
  function PadStart2(s: string): (r: string)
    ensures |r| == if |s| >= 2 then |s| else 2
  {
    if |s| >= 2 then s else seq(2 - |s|, _ => '0') + s
  }

  /** `formatTime` (useTimer.ts:92-96): `Math.floor(seconds / 60)`, then the
      remainder `seconds % 60`, which JavaScript takes with the sign of
      `seconds`. */
  function FormatTime(seconds: int): (r: string)
    ensures seconds >= 0 ==> |r| >= 4 && r[|r| - 3] == ':'
    ensures seconds >= 0 ==> forall i :: 0 <= i < |r| && i != |r| - 3 ==> IsDigit(r[i])
    ensures seconds >= 0 ==> r == DecimalString(seconds / 60) + ":" + PadStart2(DecimalString(seconds % 60))
  {
    var mins := seconds / 60;
    var secs := if seconds >= 0 then seconds % 60 else -((-seconds) % 60);
    IntString(mins) + ":" + PadStart2(IntString(secs))
  }

  /** The value of a string of digits. */
  function DecimalValue(s: string): nat
    requires forall i :: 0 <= i < |s| ==> IsDigit(s[i])
  {
    if s == [] then 0
    else
      assert IsDigit(s[|s| - 1]);
      10 * DecimalValue(s[..|s| - 1]) + (s[|s| - 1] as int - '0' as int)
  }

  /** Read a `m:ss` clock back as seconds. */
  function ParseClock(t: string): Option<nat> {
    if |t| >= 4 && t[|t| - 3] == ':' && forall i :: 0 <= i < |t| && i != |t| - 3 ==> IsDigit(t[i]) then
      Some(60 * DecimalValue(t[..|t| - 3]) + DecimalValue(t[|t| - 2..]))
    else None
  }

  lemma {:induction false} DecimalRoundTrip(n: nat)
    ensures DecimalValue(DecimalString(n)) == n
  {
    if n >= 10 {
      DecimalRoundTrip(n / 10);
      var s := DecimalString(n);
      assert s[..|s| - 1] == DecimalString(n / 10);
    }
  }

  /** A minutes part, a colon and a two-digit seconds part read back as their value. */
  lemma ClockParts(m: string, ss: string)
    requires |m| >= 1 && |ss| == 2
    requires forall i :: 0 <= i < |m| ==> IsDigit(m[i])
    requires forall i :: 0 <= i < |ss| ==> IsDigit(ss[i])
    ensures ParseClock(m + ":" + ss) == Some(60 * DecimalValue(m) + DecimalValue(ss))
    ensures var t := m + ":" + ss; t[|t| - 2..] == ss
  {
    var t := m + ":" + ss;
    assert t[..|t| - 3] == m;
    assert t[|t| - 2..] == ss;
    forall i | 0 <= i < |t| && i != |t| - 3 ensures IsDigit(t[i]) {
      if i < |m| {
        assert t[i] == m[i];
      } else {
        assert t[i] == ss[i - |m| - 1];
      }
    }
  }

  /** The padded seconds part reads back as the seconds. */
  lemma PaddedValue(x: nat)
    requires x < 60
    ensures var p := PadStart2(DecimalString(x));
      |p| == 2 && (forall i :: 0 <= i < 2 ==> IsDigit(p[i])) && DecimalValue(p) == x
  {
    DecimalRoundTrip(x);
    var d := DecimalString(x);
    var p := PadStart2(d);
    if x < 10 {
      assert p == ['0'] + d;
      assert p[..1] == "0";
      assert DecimalValue("") == 0;
    }
  }

  /** For a non-negative count the clock reads back as the same number of
      seconds: minutes times 60 plus a two-digit seconds part below 60. */
  lemma FormatTimeRoundTrip(seconds: int)
    requires seconds >= 0
    ensures ParseClock(FormatTime(seconds)) == Some(seconds)
    ensures var r := FormatTime(seconds);
      DecimalValue(r[|r| - 2..]) == seconds % 60 < 60
  {
    var q, rem := seconds / 60, seconds % 60;
    assert seconds == 60 * q + rem && 0 <= rem < 60;
    var m := DecimalString(q);
    var ss := PadStart2(DecimalString(rem));
    PaddedValue(rem);
    DecimalRoundTrip(q);
    ClockParts(m, ss);
    assert FormatTime(seconds) == m + ":" + ss;
  }
}
