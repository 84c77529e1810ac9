/**
 * The focus timer of the home page (`FocusTimer`): a duration in minutes, a
 * countdown in seconds driven by a one-second tick, the status
 * idle / running / paused / finished, the minutes completed in the current
 * session, and the `mm:ss min` display. The one-second interval is an
 * explicit `Tick` call.
 */
module FocusTimer {
  import opened Wrappers

  const MIN_DURATION: int := 1
  const MAX_DURATION: int := 120
  const DURATION_STEP: int := 1
  const DEFAULT_DURATION: int := 25

  datatype Status = Idle | Running | Paused | Finished

  /** The component's four state variables. */
  datatype TimerState = TimerState(duration: int, timeLeft: int, status: Status, sessionMinutes: int)

  /** `Math.min(a, b)` and `Math.max(a, b)` on integers. */
  function Min(a: int, b: int): int { if a < b then a else b }
  function Max(a: int, b: int): int { if a < b then b else a }

  /** The duration the habit effect sets: the habit's goal when truthy, else the initial duration. */
  function InitialDuration(focusGoal: Option<int>, initialDuration: int): (d: int)
    ensures focusGoal.Some? && focusGoal.value != 0 ==> d == focusGoal.value
    ensures focusGoal.None? || focusGoal.value == 0 ==> d == initialDuration
  {
    if focusGoal.Some? && focusGoal.value != 0 then focusGoal.value else initialDuration
  }

  /** The habit effect: duration from the habit, a full countdown; status and session minutes are kept. */
  function HabitLoaded(s: TimerState, focusGoal: Option<int>, initialDuration: int): TimerState
  {
    var d := InitialDuration(focusGoal, initialDuration);
    s.(duration := d, timeLeft := d * 60)
  }

  /** `handleDurationChange`: only when idle, one step up or down, clamped to [1, 120], countdown reset. */
  function ChangeDuration(s: TimerState, increment: bool): (r: TimerState)
    ensures s.status != Idle ==> r == s
    ensures s.status == Idle ==> r == s.(duration := r.duration, timeLeft := r.duration * 60)
    ensures s.status == Idle && increment ==> r.duration == Min(s.duration + 1, MAX_DURATION)
    ensures s.status == Idle && !increment ==> r.duration == Max(s.duration - 1, MIN_DURATION)
  {
    if s.status != Idle then s
    else
      var d := if increment then Min(s.duration + DURATION_STEP, MAX_DURATION) else Max(s.duration - DURATION_STEP, MIN_DURATION);
      s.(duration := d, timeLeft := d * 60)
  }

  /** `handleStart`: from idle a new session with a full countdown, from paused a resumption, otherwise nothing. */
  function Start(s: TimerState): TimerState
  {
    match s.status
    case Idle => s.(status := Running, sessionMinutes := 0, timeLeft := s.duration * 60)
    case Paused => s.(status := Running)
    case _ => s
  }

  /** The whole minutes elapsed since the countdown's start, `Math.floor((duration * 60 - timeLeft) / 60)`. */
  function ElapsedMinutes(s: TimerState): int
  {
    (s.duration * 60 - s.timeLeft) / 60
  }

  /** `handlePause`: only when running; the elapsed whole minutes are added to the session. */
  function Pause(s: TimerState): TimerState
  {
    if s.status == Running then s.(status := Paused, sessionMinutes := s.sessionMinutes + ElapsedMinutes(s)) else s
  }

  /** `handleResume`: only when paused. */
  function Resume(s: TimerState): TimerState
  {
    if s.status == Paused then s.(status := Running) else s
  }

  /** One second of the interval, which runs only while running; the last second finishes the session at full duration. */
  function Tick(s: TimerState): TimerState
  {
    if s.status != Running then s
    else if s.timeLeft <= 1 then s.(timeLeft := 0, status := Finished, sessionMinutes := s.duration)
    else s.(timeLeft := s.timeLeft - 1)
  }

  /**
   * `handleDone`: without today's focus log the timer returns to idle with
   * a full countdown and nothing is reported; with one, the session
   * minutes are reported and the session is cleared.
   */
  function Done(s: TimerState, hasLog: bool): (TimerState, Option<int>)
  {
    if !hasLog then (s.(status := Idle, timeLeft := s.duration * 60), None)
    else (s.(status := Idle, timeLeft := s.duration * 60, sessionMinutes := 0), Some(s.sessionMinutes))
  }

  /** `n` seconds of the interval. */
  function Ticks(s: TimerState, n: nat): TimerState
    decreases n
  {
    if n == 0 then s else Ticks(Tick(s), n - 1)
  }

  /**
   * What holds between handlers: an idle timer shows its full duration, a
   * finished one shows zero, and a running or paused countdown has not
   * gone past its duration and is still positive unless it was just set.
   */
  predicate Inv(s: TimerState) {
    (s.status == Idle ==> s.timeLeft == s.duration * 60)
    && (s.status == Finished ==> s.timeLeft == 0)
    && (s.status == Running || s.status == Paused ==>
          s.timeLeft <= s.duration * 60 && (1 <= s.timeLeft || s.timeLeft == s.duration * 60))
  }

  /** The one action button the component shows in each status. */
  datatype Action = StartButton | PauseButton | ResumeButton | DoneButton

  function ShownAction(status: Status): (a: Action)
    ensures a == DoneButton <==> status == Finished
    ensures a == StartButton <==> status == Idle
  {
    match status
    case Idle => StartButton
    case Running => PauseButton
    case Paused => ResumeButton
    case Finished => DoneButton
  }

  // ---------------------------------------------------------------- display

  function DigitChar(d: nat): char
    requires d < 10
  {
    ('0' as int + d) as char
  }

  /** `String(n)` for a non-negative integer: its decimal digits, no leading zeros. */
  function DecimalString(n: nat): (t: string)
    ensures 1 <= |t| && forall i | 0 <= i < |t| :: '0' <= t[i] <= '9'
    ensures n < 10 <==> |t| == 1
    decreases n
  {
    if n < 10 then [DigitChar(n)] else DecimalString(n / 10) + [DigitChar(n % 10)]
  }

  /** `t.padStart(2, '0')`. */
  function PadStart2(t: string): (r: string)
    ensures |t| >= 2 ==> r == t
    ensures |t| < 2 ==> r == seq(2 - |t|, _ => '0') + t
  {
    if |t| >= 2 then t else seq(2 - |t|, _ => '0') + t
  }

  /**
   * `formatDisplayTime`: whole minutes and the remaining seconds, each
   * padded to two digits, then " min"; a countdown in seconds is never
   * negative here.
   */
  function FormatDisplayTime(seconds: nat): (t: string)
    ensures |t| >= 9 && t[|t| - 4..] == " min" && t[|t| - 7] == ':'
  {
    PadStart2(DecimalString(seconds / 60)) + ":" + PadStart2(DecimalString(seconds % 60)) + " min"
  }

  /** The value of a string of decimal digits. */
  function DigitsValue(t: string): int
  {
    if |t| == 0 then 0 else 10 * DigitsValue(t[..|t| - 1]) + (t[|t| - 1] as int - '0' as int)
  }

  /** Reads a display string back as seconds: the minutes before the colon, the two digits after it. */
  function ParseDisplayTime(t: string): int
    requires |t| >= 7
  {
    DigitsValue(t[..|t| - 7]) * 60 + DigitsValue(t[|t| - 6..|t| - 4])
  }

  /** The component. */
  class Timer {
    var duration: int
    var timeLeft: int
    var status: Status
    var sessionMinutes: int

    function State(): TimerState
      reads this
    {
      TimerState(duration, timeLeft, status, sessionMinutes)
    }

    /** The state after the first render and the habit effect. */
    constructor (focusGoal: Option<int>, initialDuration: int)
      ensures State() == HabitLoaded(TimerState(initialDuration, initialDuration * 60, Idle, 0), focusGoal, initialDuration)
      ensures Inv(State())
    {
      var d := InitialDuration(focusGoal, initialDuration);
      duration := d;
      timeLeft := d * 60;
      status := Idle;
      sessionMinutes := 0;
    }

    method OnHabitChange(focusGoal: Option<int>, initialDuration: int)
      modifies this
      ensures State() == HabitLoaded(old(State()), focusGoal, initialDuration)
    {
      var d := InitialDuration(focusGoal, initialDuration);
      duration := d;
      timeLeft := d * 60;
    }

    method HandleDurationChange(increment: bool)
      modifies this
      ensures State() == ChangeDuration(old(State()), increment)
    {
      if status != Idle {
        return;
      }
      var d := if increment then Min(duration + DURATION_STEP, MAX_DURATION) else Max(duration - DURATION_STEP, MIN_DURATION);
      duration := d;
      timeLeft := d * 60;
    }

    method HandleStart()
      modifies this
      ensures State() == Start(old(State()))
    {
      if status == Idle || status == Paused {
        var wasIdle := status == Idle;
        status := Running;
        if wasIdle {
          sessionMinutes := 0;
          timeLeft := duration * 60;
        }
      }
    }

    method HandlePause()
      modifies this
      ensures State() == Pause(old(State()))
    {
      if status == Running {
        status := Paused;
        var elapsedSeconds := duration * 60 - timeLeft;
        sessionMinutes := sessionMinutes + elapsedSeconds / 60;
      }
    }

    method HandleResume()
      modifies this
      ensures State() == Resume(old(State()))
    {
      if status == Paused {
        status := Running;
      }
    }

    method OnTick()
      modifies this
      ensures State() == Tick(old(State()))
    {
      if status == Running {
        if timeLeft <= 1 {
          status := Finished;
          sessionMinutes := duration;
          timeLeft := 0;
        } else {
          timeLeft := timeLeft - 1;
        }
      }
    }

    /** Returns the minutes handed to `onFocusSessionComplete`, or `None` when it is not called. */
    method HandleDone(hasLog: bool) returns (reported: Option<int>)
      modifies this
      ensures (State(), reported) == Done(old(State()), hasLog)
    {
      if !hasLog {
        status := Idle;
        timeLeft := duration * 60;
        return None;
      }
      reported := Some(sessionMinutes);
      status := Idle;
      timeLeft := duration * 60;
      sessionMinutes := 0;
    }
  }

  // ---------------------------------------------------------------- lemmas

  /**
   * Every handler and the tick keep `Inv`, and so does the habit effect
   * except on a finished timer, whose countdown it refills.
   */
  lemma StepsKeepInv(s: TimerState, increment: bool, hasLog: bool, focusGoal: Option<int>, initialDuration: int)
    requires Inv(s)
    ensures Inv(ChangeDuration(s, increment)) && Inv(Start(s)) && Inv(Pause(s)) && Inv(Resume(s))
    ensures Inv(Tick(s)) && Inv(Done(s, hasLog).0)
    ensures s.status != Finished ==> Inv(HabitLoaded(s, focusGoal, initialDuration))
  {
  }

  /** The duration buttons keep a duration in [1, 120] inside that range. */
  lemma DurationStaysInRange(s: TimerState, increment: bool)
    requires MIN_DURATION <= s.duration <= MAX_DURATION
    ensures MIN_DURATION <= ChangeDuration(s, increment).duration <= MAX_DURATION
    ensures increment ==> ChangeDuration(s, increment).duration >= s.duration
    ensures !increment ==> ChangeDuration(s, increment).duration <= s.duration
  {
  }

  /**
   * The range is enforced only by the buttons: a habit goal of 200 minutes
   * is taken as the duration, and the up button then lowers it to 120.
   */
  lemma HabitGoalBypassesRange()
    ensures var s := HabitLoaded(TimerState(25, 1500, Idle, 0), Some(200), 25);
            s.duration == 200 && ChangeDuration(s, true).duration == 120
  {
  }

  /** While running, `k` seconds that do not reach the end take `k` seconds off the countdown. */
  lemma {:induction false} TicksCountDown(s: TimerState, k: nat)
    requires s.status == Running && k < s.timeLeft
    ensures Ticks(s, k) == s.(timeLeft := s.timeLeft - k)
    decreases k
  {
    if k > 0 {
      TicksCountDown(Tick(s), k - 1);
    }
  }

  /**
   * A session started from idle with a positive duration finishes after
   * exactly `duration * 60` seconds with the full duration as its minutes,
   * and Done then reports exactly that.
   */
  lemma {:induction false} FullSession(s: TimerState, hasLog: bool)
    requires s.status == Idle && s.duration >= 1
    ensures var started := Start(s);
            var t := Ticks(started, s.duration * 60 - 1);
            t.status == Running && t.timeLeft == 1
            && Tick(t) == s.(status := Finished, timeLeft := 0, sessionMinutes := s.duration)
            && Done(Tick(t), hasLog).1 == (if hasLog then Some(s.duration) else None)
  {
    TicksCountDown(Start(s), s.duration * 60 - 1);
  }

  /**
   * Pausing adds the minutes since the countdown's start, not since the
   * last resume: after two minutes, a pause, a resume and a second pause
   * the session holds four minutes.
   */
  lemma PauseCountsFromCountdownStart()
    ensures var running := Ticks(Start(TimerState(25, 1500, Idle, 0)), 120);
            Pause(Resume(Pause(running))).sessionMinutes == 4
  {
    TicksCountDown(Start(TimerState(25, 1500, Idle, 0)), 120);
  }

  /**
   * The minutes Done reports after the countdown ends are the duration,
   * whatever the pauses added before: the last tick overwrites them.
   */
  lemma FinishOverridesPauses(s: TimerState, hasLog: bool)
    requires s.status == Running && s.timeLeft <= 1
    ensures Done(Tick(s), hasLog).1 == (if hasLog then Some(s.duration) else None)
  {
  }

  /** A number's decimal string reads back as that number. */
  lemma {:induction false} DecimalRoundTrip(n: nat)
    ensures DigitsValue(DecimalString(n)) == n
    decreases n
  {
    var t := DecimalString(n);
    if n >= 10 {
      DecimalRoundTrip(n / 10);
      assert t[..|t| - 1] == DecimalString(n / 10);
    } else {
      assert t[..|t| - 1] == [];
    }
  }

  /** A leading zero does not change the value of a digit string. */
  lemma {:induction false} LeadingZero(t: string)
    ensures DigitsValue("0" + t) == DigitsValue(t)
    decreases |t|
  {
    if |t| > 0 {
      assert ("0" + t)[..|"0" + t| - 1] == "0" + t[..|t| - 1];
      LeadingZero(t[..|t| - 1]);
    }
  }

  /** Padding to two digits does not change the value. */
  lemma PadKeepsValue(t: string)
    requires 1 <= |t|
    ensures DigitsValue(PadStart2(t)) == DigitsValue(t)
  {
    if |t| < 2 {
      assert seq(1, _ => '0') == "0";
      LeadingZero(t);
    }
  }

  /** Numbers below 100 have at most two digits. */
  lemma SmallDecimal(n: nat)
    requires n < 100
    ensures |DecimalString(n)| <= 2
  {
    if n >= 10 {
      assert |DecimalString(n / 10)| == 1;
    }
  }

  /** Reading back a string shaped like a display: minutes, a colon, two digits and " min". */
  lemma ParseShape(m: string, sec: string)
    requires |sec| == 2
    ensures ParseDisplayTime(m + ":" + sec + " min") == DigitsValue(m) * 60 + DigitsValue(sec)
  {
    var t := m + ":" + sec + " min";
    assert t[..|t| - 7] == m;
    assert t[|t| - 6..|t| - 4] == sec;
  }

  /** The display string determines the countdown: reading it back gives the seconds it was made from. */
  lemma DisplayRoundTrip(seconds: nat)
    ensures ParseDisplayTime(FormatDisplayTime(seconds)) == seconds
  {
    var m, sec := PadStart2(DecimalString(seconds / 60)), PadStart2(DecimalString(seconds % 60));
    SmallDecimal(seconds % 60);
    ParseShape(m, sec);
    PadKeepsValue(DecimalString(seconds / 60));
    PadKeepsValue(DecimalString(seconds % 60));
    DecimalRoundTrip(seconds / 60);
    DecimalRoundTrip(seconds % 60);
  }
}
