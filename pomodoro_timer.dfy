/**
 * The Pomodoro timer component (components/PomodoroTimer.tsx): a countdown of
 * whole seconds that the Start, Pause and Reset buttons and a once-per-second
 * interval drive, and the "MM:SS" text it is shown as.
 */
module PomodoroComponent {
  import opened Wrappers

  /** A session is 25 minutes. */
  const SessionLength: nat := 25 * 60

  // ----- formatTime -----

  predicate IsDigit(c: char)
  {
    '0' <= c <= '9'
  }

  predicate AllDigits(s: string)
  {
    forall i :: 0 <= i < |s| ==> IsDigit(s[i])
  }

  function DigitChar(d: nat): (c: char)
    requires d < 10
    ensures IsDigit(c) && DigitValue(c) == d
  {
    ('0' as int + d) as char
  }

  function DigitValue(c: char): int
  {
    c as int - '0' as int
  }

  /** `String(n)` for a non-negative integer: its decimal digits, without leading zeros. */
  function DecimalString(n: nat): (r: string)
    ensures |r| >= 1
    ensures |r| == 1 <==> n < 10
    ensures |r| <= 2 <==> n < 100
  {
    if n < 10 then [DigitChar(n)] else DecimalString(n / 10) + [DigitChar(n % 10)]
  }

  /** The value of a string of decimal digits, the reading-back partner of `DecimalString`. */
  function ParseDecimal(s: string): int
  {
    if s == [] then 0 else 10 * ParseDecimal(s[..|s| - 1]) + DigitValue(s[|s| - 1])
  }

  /** `s.padStart(width, fill)` with a one-character fill: `s` right-aligned in a field of `width`. */
  function PadStart(s: string, width: nat, fill: char): (r: string)
    ensures |r| == if |s| >= width then |s| else width
    ensures |s| >= width ==> r == s
    ensures forall i :: 0 <= i < |r| - |s| ==> r[i] == fill
    ensures forall j :: 0 <= j < |s| ==> r[|r| - |s| + j] == s[j]
  {
    if |s| >= width then s else seq(width - |s|, _ => fill) + s
  }

  /** `String(n)` is made of digits only. */
  lemma {:induction false} DecimalDigits(n: nat)
    ensures AllDigits(DecimalString(n))
  {
    if n >= 10 {
      DecimalDigits(n / 10);
      var p, r := DecimalString(n / 10), DecimalString(n);
      forall i | 0 <= i < |r|
        ensures IsDigit(r[i])
      {
        if i < |p| {
          assert r[i] == p[i];
        }
      }
    }
  }

  lemma {:induction false} DecimalRoundTrip(n: nat)
    ensures ParseDecimal(DecimalString(n)) == n
  {
    var r := DecimalString(n);
    if n < 10 {
      assert r[..|r| - 1] == [];
    } else {
      assert r[..|r| - 1] == DecimalString(n / 10);
      DecimalRoundTrip(n / 10);
    }
  }

  lemma {:induction false} ZerosParseToZero(z: string)
    requires forall i :: 0 <= i < |z| ==> z[i] == '0'
    ensures ParseDecimal(z) == 0
  {
    if z != [] {
      ZerosParseToZero(z[..|z| - 1]);
    }
  }

  /** Zero-padding on the left does not change the value read back. */
  lemma {:induction false} LeadingZerosParse(z: string, s: string)
    requires forall i :: 0 <= i < |z| ==> z[i] == '0'
    ensures ParseDecimal(z + s) == ParseDecimal(s)
  {
    if s == [] {
      assert z + s == z;
      ZerosParseToZero(z);
    } else {
      assert (z + s)[..|z + s| - 1] == z + s[..|s| - 1];
      LeadingZerosParse(z, s[..|s| - 1]);
    }
  }

  /** `String(n).padStart(2, "0")`: digits only, and exactly two of them below 100. */
  function PaddedNumber(n: nat): (r: string)
    ensures |r| >= 2 && (|r| == 2 <==> n < 100)
    ensures AllDigits(r)
  {
    var d := DecimalString(n);
    var r := PadStart(d, 2, '0');
    DecimalDigits(n);
    r
  }

  /** The padded text reads back to the number. */
  lemma PaddedValue(n: nat)
    ensures ParseDecimal(PaddedNumber(n)) == n
  {
    var d := DecimalString(n);
    var p := PaddedNumber(n);
    var z := p[..|p| - |d|];
    assert p == z + d;
    LeadingZerosParse(z, d);
    DecimalRoundTrip(n);
  }

  /** A number below 100 pads to exactly its tens digit and its units digit. */
  lemma TwoDigits(n: nat)
    requires n < 100
    ensures PaddedNumber(n) == [DigitChar(n / 10), DigitChar(n % 10)]
  {
    if n >= 10 {
      assert DecimalString(n / 10) == [DigitChar(n / 10)];
    }
  }

  /** Minutes and seconds, each padded to two digits, joined by a colon. */
  function ClockText(mins: nat, secs: nat): (r: string)
    requires secs < 60
    ensures |r| >= 5 && r[|r| - 3] == ':'
    ensures |r| == 5 <==> mins < 100
  {
    PaddedNumber(mins) + ":" + PaddedNumber(secs)
  }

  /** `formatTime(seconds)`: the whole minutes and the seconds left over. */
  function FormatTime(seconds: nat): (r: string)
    ensures |r| >= 5 && r[|r| - 3] == ':'
    ensures |r| == 5 <==> seconds < 6000
  {
    ClockText(seconds / 60, seconds % 60)
  }

  /** What reading a clock text back finds: digits everywhere but at the colon third from the end, and the two numbers on either side. */
  predicate ReadsBackAs(r: string, mins: int, secs: int)
  {
    && |r| >= 3
    && (forall i :: 0 <= i < |r| && i != |r| - 3 ==> IsDigit(r[i]))
    && ParseDecimal(r[..|r| - 3]) == mins
    && ParseDecimal(r[|r| - 2..]) == secs
  }

  /** Two digit strings joined by a colon read back as the numbers they spell. */
  lemma Joined(m: string, s: string)
    requires AllDigits(m) && AllDigits(s) && |s| == 2
    ensures ReadsBackAs(m + ":" + s, ParseDecimal(m), ParseDecimal(s))
  {
    var r := m + ":" + s;
    assert r[..|r| - 3] == m;
    assert r[|r| - 2..] == s;
  }

  /** Minutes, and seconds below 60, read back from their clock text: digits on either side of the last colon. */
  lemma ClockTextReadBack(mins: nat, secs: nat)
    requires secs < 60
    ensures ReadsBackAs(ClockText(mins, secs), mins, secs)
  {
    var m, s := PaddedNumber(mins), PaddedNumber(secs);
    PaddedValue(mins);
    PaddedValue(secs);
    Joined(m, s);
    assert ClockText(mins, secs) == m + ":" + s;
  }

  /** A text that reads back as minutes and seconds below 60 reads back as their total. */
  lemma ReadBackTotal(r: string, mins: nat, secs: nat, seconds: nat)
    requires ReadsBackAs(r, mins, secs) && secs < 60 && mins * 60 + secs == seconds
    ensures && (forall i :: 0 <= i < |r| && i != |r| - 3 ==> IsDigit(r[i]))
            && ParseDecimal(r[|r| - 2..]) < 60
            && ParseDecimal(r[..|r| - 3]) * 60 + ParseDecimal(r[|r| - 2..]) == seconds
  {
  }

  /**
   * For every number of seconds, the text reads back to it: the digits before
   * the last colon are the minutes, the two after it the seconds below 60,
   * and minutes * 60 + seconds gives the input back.
   */
  lemma FormatTimeRoundTrip(seconds: nat)
    ensures var r := FormatTime(seconds);
            && (forall i :: 0 <= i < |r| && i != |r| - 3 ==> IsDigit(r[i]))
            && ParseDecimal(r[|r| - 2..]) < 60
            && ParseDecimal(r[..|r| - 3]) * 60 + ParseDecimal(r[|r| - 2..]) == seconds
  {
    var mins, secs := seconds / 60, seconds % 60;
    ClockTextReadBack(mins, secs);
    assert FormatTime(seconds) == ClockText(mins, secs);
    ReadBackTotal(FormatTime(seconds), mins, secs, seconds);
  }

  /** Below 100 minutes the clock text is the tens and units digits of the minutes, a colon, those of the seconds. */
  lemma ClockDigits(mins: nat, secs: nat)
    requires mins < 100 && secs < 60
    ensures ClockText(mins, secs)
         == [DigitChar(mins / 10), DigitChar(mins % 10), ':', DigitChar(secs / 10), DigitChar(secs % 10)]
  {
    TwoDigits(mins);
    TwoDigits(secs);
  }

  /**
   * Below 100 minutes the text is the clock face "MM:SS": two digits of
   * minutes, a colon, two digits of seconds below 60, that read back to the
   * input.
   */
  lemma FormatTimeClockFace(seconds: nat)
    requires seconds < 6000
    ensures var r := FormatTime(seconds);
            && |r| == 5 && r[2] == ':'
            && IsDigit(r[0]) && IsDigit(r[1]) && IsDigit(r[3]) && IsDigit(r[4])
            && 10 * DigitValue(r[3]) + DigitValue(r[4]) < 60
            && (10 * DigitValue(r[0]) + DigitValue(r[1])) * 60 + 10 * DigitValue(r[3]) + DigitValue(r[4]) == seconds
  {
    ClockDigits(seconds / 60, seconds % 60);
  }

  // ----- the timer's state machine -----

  /** The component's two pieces of state: `timeRemaining` and `isRunning`. */
  datatype TimerState = TimerState(timeRemaining: int, isRunning: bool)

  /** The state on mount: a full session, stopped. */
  const Initial := TimerState(SessionLength, false)

  /** The countdown stays within one session and never goes below zero. */
  predicate InRange(s: TimerState)
  {
    0 <= s.timeRemaining <= SessionLength
  }

  /** One interval firing: one second off the countdown, stopping at zero; it does not stop the timer. */
  function AfterTick(s: TimerState): (r: TimerState)
    ensures r.isRunning == s.isRunning
    ensures r.timeRemaining >= 0
    ensures s.timeRemaining > 0 ==> r.timeRemaining == s.timeRemaining - 1
    ensures s.timeRemaining <= 0 ==> r.timeRemaining == 0
    ensures InRange(s) ==> InRange(r)
  {
    s.(timeRemaining := if s.timeRemaining - 1 > 0 then s.timeRemaining - 1 else 0)
  }

  /** `startPomodoro`: refused without a selected task; otherwise running, with the countdown untouched. */
  function AfterStart(s: TimerState, hasSelectedTask: bool): (r: TimerState)
    ensures !hasSelectedTask ==> r == s
    ensures hasSelectedTask ==> r.isRunning && r.timeRemaining == s.timeRemaining
  {
    if hasSelectedTask then s.(isRunning := true) else s
  }

  /** The Pause button: stopped, with the countdown untouched. */
  function AfterPause(s: TimerState): (r: TimerState)
    ensures !r.isRunning && r.timeRemaining == s.timeRemaining
  {
    s.(isRunning := false)
  }

  /** The Reset button: from any state, a full session, stopped. */
  function AfterReset(s: TimerState): (r: TimerState)
    ensures !r.isRunning && r.timeRemaining == SessionLength && InRange(r)
  {
    Initial
  }

  /** What can happen to the timer: a button press, or the interval firing. */
  datatype Event = StartPressed(hasSelectedTask: bool) | PausePressed | ResetPressed | IntervalFired

  /** One event. The interval is armed only while running, so a firing while stopped never happens and changes nothing. */
  function Step(s: TimerState, e: Event): (r: TimerState)
    ensures InRange(s) ==> InRange(r)
    ensures e != ResetPressed && s.timeRemaining >= 0 ==> 0 <= r.timeRemaining <= s.timeRemaining
    ensures e == IntervalFired && !s.isRunning ==> r == s
    ensures e == IntervalFired && s.isRunning ==> r == AfterTick(s)
  {
    match e
    case StartPressed(hasSelectedTask) => AfterStart(s, hasSelectedTask)
    case PausePressed => AfterPause(s)
    case ResetPressed => AfterReset(s)
    case IntervalFired => if s.isRunning then AfterTick(s) else s
  }

  /** A sequence of events, in order. */
  function Run(s: TimerState, events: seq<Event>): TimerState
    decreases |events|
  {
    if events == [] then s else Run(Step(s, events[0]), events[1..])
  }

  /** `n` interval firings in a row. */
  function Ticks(n: nat): (r: seq<Event>)
    ensures |r| == n && forall i :: 0 <= i < n ==> r[i] == IntervalFired
  {
    seq(n, _ => IntervalFired)
  }

  /** Whatever happens, the countdown stays between 0 and a full session. */
  lemma {:induction false} RunStaysInRange(s: TimerState, events: seq<Event>)
    requires InRange(s)
    ensures InRange(Run(s, events))
    decreases |events|
  {
    if events != [] {
      RunStaysInRange(Step(s, events[0]), events[1..]);
    }
  }

  /** Without a Reset the countdown never goes up. */
  lemma {:induction false} RunWithoutResetNeverIncreases(s: TimerState, events: seq<Event>)
    requires s.timeRemaining >= 0
    requires forall i :: 0 <= i < |events| ==> !events[i].ResetPressed?
    ensures Run(s, events).timeRemaining <= s.timeRemaining
    decreases |events|
  {
    if events != [] {
      RunWithoutResetNeverIncreases(Step(s, events[0]), events[1..]);
    }
  }

  /** Ticks alone never stop a running timer, and each takes off one second until zero, where it stays. */
  lemma {:induction false} TicksSaturate(s: TimerState, n: nat)
    requires s.isRunning && s.timeRemaining >= 0
    ensures Run(s, Ticks(n)) == TimerState(if s.timeRemaining > n then s.timeRemaining - n else 0, true)
    decreases n
  {
    if n > 0 {
      assert Ticks(n)[0] == IntervalFired && Ticks(n)[1..] == Ticks(n - 1);
      assert Run(s, Ticks(n)) == Run(AfterTick(s), Ticks(n - 1));
      TicksSaturate(AfterTick(s), n - 1);
    }
  }

  /** Reset undoes everything before it, and a second Reset changes nothing more. */
  lemma {:induction false} ResetForgetsHistory(s: TimerState, before: seq<Event>, after: seq<Event>)
    ensures Run(s, before + [ResetPressed] + after) == Run(Initial, after)
    decreases |before|
  {
    if before == [] {
      assert before + [ResetPressed] + after == [ResetPressed] + after;
    } else {
      assert (before + [ResetPressed] + after)[1..] == before[1..] + [ResetPressed] + after;
      ResetForgetsHistory(Step(s, before[0]), before[1..], after);
    }
  }

  /** Start with a task at a full session, then ten seconds: 24:50 left, still running. */
  lemma StartThenTenTicks()
    ensures Run(Initial, [StartPressed(true)] + Ticks(10)) == TimerState(1490, true)
    ensures FormatTime(Run(Initial, [StartPressed(true)] + Ticks(10)).timeRemaining) == "24:50"
  {
    var events := [StartPressed(true)] + Ticks(10);
    assert events[1..] == Ticks(10);
    TicksSaturate(AfterStart(Initial, true), 10);
    TwoDigits(24);
    TwoDigits(50);
  }

  /** Start with no task selected is refused whatever the events before it did. */
  lemma StartWithoutTaskChangesNothing(s: TimerState, before: seq<Event>)
    ensures Run(s, before + [StartPressed(false)]) == Run(s, before)
  {
    RunAppend(s, before, [StartPressed(false)]);
  }

  lemma {:induction false} RunAppend(s: TimerState, xs: seq<Event>, ys: seq<Event>)
    ensures Run(s, xs + ys) == Run(Run(s, xs), ys)
    decreases |xs|
  {
    if xs == [] {
      assert xs + ys == ys;
    } else {
      assert (xs + ys)[1..] == xs[1..] + ys;
      RunAppend(Step(s, xs[0]), xs[1..], ys);
    }
  }

  // ----- the component -----

  /** The mounted component: the two fields its handlers and its interval update. */
  class PomodoroTimer {
    var timeRemaining: int
    var isRunning: bool

    function State(): TimerState
      reads this
    {
      TimerState(timeRemaining, isRunning)
    }

    ghost predicate Valid()
      reads this
    {
      InRange(State())
    }

    /** `useState(25 * 60)` and `useState(false)`. */
    constructor ()
      ensures Valid() && State() == Initial
    {
      timeRemaining, isRunning := SessionLength, false;
    }

    /** The interval callback, armed only while running. */
    method Tick()
      requires Valid() && isRunning
      modifies this
      ensures Valid() && State() == AfterTick(old(State()))
    {
      timeRemaining := if timeRemaining - 1 > 0 then timeRemaining - 1 else 0;
    }

    /** `startPomodoro`; `alerted` stands for the "Please select a task" alert. */
    method Start<T>(selectedTask: Option<T>) returns (alerted: bool)
      requires Valid()
      modifies this
      ensures Valid() && State() == AfterStart(old(State()), selectedTask.Some?)
      ensures alerted <==> selectedTask.None?
    {
      if selectedTask.None? {
        alerted := true;
        return;
      }
      alerted := false;
      isRunning := true;
    }

    /** The Pause button. */
    method Pause()
      requires Valid()
      modifies this
      ensures Valid() && State() == AfterPause(old(State()))
    {
      isRunning := false;
    }

    /** The Reset button. */
    method Reset()
      requires Valid()
      modifies this
      ensures Valid() && State() == AfterReset(old(State()))
    {
      isRunning := false;
      timeRemaining := SessionLength;
    }

    /** The clock face shown: "MM:SS" reading back to the countdown, which never exceeds a session. */
    function Display(): (r: string)
      reads this
      requires Valid()
      ensures |r| == 5 && r[2] == ':'
      ensures IsDigit(r[0]) && IsDigit(r[1]) && IsDigit(r[3]) && IsDigit(r[4])
      ensures 10 * DigitValue(r[3]) + DigitValue(r[4]) < 60
      ensures (10 * DigitValue(r[0]) + DigitValue(r[1])) * 60 + 10 * DigitValue(r[3]) + DigitValue(r[4]) == timeRemaining
    {
      FormatTimeClockFace(timeRemaining);
      FormatTime(timeRemaining)
    }
  }
}
