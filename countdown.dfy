/**
 * The `useCountdown` hook: a number of seconds counted down once a second while
 * running, the controls that start, pause, reset and restart it, and the minute and
 * second display derived from it. Each call of `onComplete` is recorded as a count.
 */
module Countdown {
  import opened Wrappers
  import opened JsString

  datatype CountdownState = CountdownState(seconds: int, isRunning: bool, completions: nat)

  /** The hook's state on first render; `autoStart` defaults to false. */
  function Init(initialSeconds: int, autoStart: Option<bool>): (s: CountdownState)
    ensures s.seconds == initialSeconds && s.completions == 0
    ensures s.isRunning <==> autoStart == Some(true)
  {
    CountdownState(initialSeconds, autoStart.GetOr(false), 0)
  }

  /** The interval is only set while running with seconds left. */
  predicate Ticking(s: CountdownState) {
    s.isRunning && s.seconds > 0
  }

  /** One second of the interval. */
  function Tick(s: CountdownState): CountdownState {
    if !Ticking(s) then s
    else if s.seconds <= 1 then CountdownState(0, false, s.completions + 1)
    else s.(seconds := s.seconds - 1)
  }

  function Start(s: CountdownState): CountdownState {
    s.(isRunning := true)
  }

  function Pause(s: CountdownState): CountdownState {
    s.(isRunning := false)
  }

  /** `reset(newSeconds?)`: the given count, else the initial one, stopped. */
  function Reset(s: CountdownState, initialSeconds: int, newSeconds: Option<int>): CountdownState {
    s.(seconds := newSeconds.GetOr(initialSeconds), isRunning := false)
  }

  /** `restart(newSeconds?)`: the given count, else the initial one, running. */
  function Restart(s: CountdownState, initialSeconds: int, newSeconds: Option<int>): CountdownState {
    s.(seconds := newSeconds.GetOr(initialSeconds), isRunning := true)
  }

  /** A tick from a running count of 1 or less ends at 0, stopped, with one completion; above that it takes 1 off. */
  lemma TickEffect(s: CountdownState)
    ensures Ticking(s) && s.seconds <= 1 ==> Tick(s) == CountdownState(0, false, s.completions + 1)
    ensures Ticking(s) && s.seconds > 1 ==> Tick(s).seconds == s.seconds - 1 && Tick(s).isRunning
    ensures !Ticking(s) ==> Tick(s) == s
    ensures s.seconds >= 0 ==> 0 <= Tick(s).seconds <= s.seconds
  {
  }

  /** The controls: `start` and `pause` change only the running flag; `reset` and `restart` set the count. */
  lemma ControlsEffect(s: CountdownState, initialSeconds: int, n: Option<int>)
    ensures Start(s).seconds == s.seconds && Start(s).isRunning
    ensures Pause(s).seconds == s.seconds && !Pause(s).isRunning
    ensures Reset(s, initialSeconds, n).seconds == (if n.Some? then n.value else initialSeconds)
    ensures !Reset(s, initialSeconds, n).isRunning
    ensures Restart(s, initialSeconds, n).seconds == Reset(s, initialSeconds, n).seconds
    ensures Restart(s, initialSeconds, n).isRunning
  {
  }

  /** `n` seconds of the interval. */
  function Ticks(s: CountdownState, n: nat): CountdownState
    decreases n
  {
    if n == 0 then s else Ticks(Tick(s), n - 1)
  }

  /** A running countdown from `k >= 1` reaches 0 after exactly `k` ticks, stops, and completes once. */
  lemma {:induction false} RunsToCompletion(s: CountdownState)
    requires s.isRunning && s.seconds >= 1
    ensures Ticks(s, s.seconds) == CountdownState(0, false, s.completions + 1)
    decreases s.seconds
  {
    if s.seconds > 1 {
      RunsToCompletion(Tick(s));
    }
  }

  /** Once stopped or at 0 the count stays where it is, so `onComplete` is not called again. */
  lemma {:induction false} NoTicksWhenIdle(s: CountdownState, n: nat)
    requires !Ticking(s)
    ensures Ticks(s, n) == s
    decreases n
  {
    if n > 0 {
      NoTicksWhenIdle(s, n - 1);
    }
  }

  /** No number of ticks takes a non-negative count below 0 or adds more than one completion. */
  lemma {:induction false} TicksStayInRange(s: CountdownState, n: nat)
    requires s.seconds >= 0
    ensures 0 <= Ticks(s, n).seconds <= s.seconds
    ensures Ticks(s, n).completions <= s.completions + 1
    ensures Ticks(s, n).completions == s.completions + 1 ==> Ticks(s, n) == CountdownState(0, false, s.completions + 1)
    decreases n
  {
    if n > 0 {
      if Ticking(s) && s.seconds <= 1 {
        NoTicksWhenIdle(Tick(s), n - 1);
      } else if Ticking(s) {
        TicksStayInRange(Tick(s), n - 1);
      } else {
        NoTicksWhenIdle(s, n);
      }
    }
  }

  // ---------------------------------------------------------------------------
  // display

  function Minutes(seconds: int): int {
    FloorDiv(seconds, 60)
  }

  function RemainingSeconds(seconds: int): int {
    Remainder(seconds, 60)
  }

  /** The clock display: minutes and seconds, each padded with '0' to two characters, joined by ':'. */
  function Formatted(seconds: int): string {
    PadStart(IntToString(Minutes(seconds)), 2, '0') + ":" + PadStart(IntToString(RemainingSeconds(seconds)), 2, '0')
  }

  function IsComplete(s: CountdownState): bool {
    s.seconds == 0
  }

  /** For a non-negative count the display splits it into whole minutes and the seconds left over. */
  lemma ClockParts(seconds: int)
    requires seconds >= 0
    ensures Minutes(seconds) * 60 + RemainingSeconds(seconds) == seconds
    ensures 0 <= RemainingSeconds(seconds) < 60
  {
  }

  /** For a negative count both parts come out negative. */
  lemma NegativeClock()
    ensures Minutes(-5) == -1 && RemainingSeconds(-5) == -5
  {
  }

  /** The minutes and seconds read back from a display. */
  function ReadClock(f: string): (int, int) {
    var parts := Split(f, ':');
    (DecimalValue(parts[0]), if |parts| >= 2 then DecimalValue(parts[1]) else 0)
  }

  /** A padded number with no separator in it. */
  lemma {:induction false} PaddedDigits(n: nat)
    ensures var p := PadStart(NatToString(n), 2, '0');
      DecimalValue(p) == n && |p| >= 2 && ':' !in p
      && (n < 100 ==> |p| == 2)
  {
    var t := NatToString(n);
    DecimalValueOfNatToString(n);
    if |t| < 2 {
      var z := seq(2 - |t|, _ => '0');
      assert PadStart(t, 2, '0') == z + t;
      DecimalValueLeadingZeros(2 - |t|, t);
    }
    if n < 100 {
      NatToStringShort(n);
    }
  }

  lemma NatToStringShort(n: nat)
    requires n < 100
    ensures |NatToString(n)| <= 2
  {
  }

  /**
   * Reading a display back gives the minutes and seconds it was made from, so for a
   * non-negative count `60 * minutes + seconds` is the count; the seconds field is
   * always two characters wide.
   */
  lemma {:induction false} FormattedReadsBack(seconds: int)
    requires seconds >= 0
    ensures ReadClock(Formatted(seconds)) == (Minutes(seconds), RemainingSeconds(seconds))
    ensures 60 * ReadClock(Formatted(seconds)).0 + ReadClock(Formatted(seconds)).1 == seconds
    ensures |Split(Formatted(seconds), ':')| == 2 && |Split(Formatted(seconds), ':')[1]| == 2
  {
    ClockParts(seconds);
    var m: nat := Minutes(seconds);
    var r: nat := RemainingSeconds(seconds);
    var a := PadStart(NatToString(m), 2, '0');
    var b := PadStart(NatToString(r), 2, '0');
    PaddedDigits(m);
    PaddedDigits(r);
    var f := a + ":" + b;
    assert f == Formatted(seconds);
    assert f[|a|] == ':' && f[..|a|] == a;
    SplitFirst(f, ':', |a|);
    assert f[|a| + 1..] == b;
    SplitNoSeparator(b, ':');
    assert Split(f, ':') == [a, b];
  }

  /** The hook as an object whose setters update its two pieces of state in place. */
  class CountdownHook {
    const initialSeconds: int
    var seconds: int
    var isRunning: bool
    var completions: nat

    function State(): CountdownState
      reads this
    {
      CountdownState(seconds, isRunning, completions)
    }

    constructor (initialSeconds: int, autoStart: Option<bool>)
      ensures this.initialSeconds == initialSeconds
      ensures State() == Init(initialSeconds, autoStart)
    {
      this.initialSeconds := initialSeconds;
      seconds := initialSeconds;
      isRunning := autoStart.GetOr(false);
      completions := 0;
    }

    method StartTimer()
      modifies this
      ensures State() == Start(old(State()))
    {
      isRunning := true;
    }

    method PauseTimer()
      modifies this
      ensures State() == Pause(old(State()))
    {
      isRunning := false;
    }

    method ResetTimer(newSeconds: Option<int>)
      modifies this
      ensures State() == Reset(old(State()), initialSeconds, newSeconds)
    {
      seconds := newSeconds.GetOr(initialSeconds);
      isRunning := false;
    }

    method RestartTimer(newSeconds: Option<int>)
      modifies this
      ensures State() == Restart(old(State()), initialSeconds, newSeconds)
    {
      seconds := newSeconds.GetOr(initialSeconds);
      isRunning := true;
    }

    /** One firing of the interval, which exists only while ticking. */
    method IntervalTick()
      modifies this
      ensures State() == Tick(old(State()))
    {
      if isRunning && seconds > 0 {
        if seconds <= 1 {
          isRunning := false;
          completions := completions + 1;
          seconds := 0;
        } else {
          seconds := seconds - 1;
        }
      }
    }

    /** The values the hook returns for display. */
    method Display() returns (minutes: int, remaining: int, formatted: string, complete: bool)
      ensures seconds >= 0 ==> minutes * 60 + remaining == seconds && 0 <= remaining < 60
      ensures formatted == Formatted(seconds)
      ensures seconds >= 0 ==> ReadClock(formatted) == (minutes, remaining)
      ensures complete <==> seconds == 0
    {
      minutes := Minutes(seconds);
      remaining := RemainingSeconds(seconds);
      formatted := Formatted(seconds);
      complete := seconds == 0;
      if seconds >= 0 {
        FormattedReadsBack(seconds);
      }
    }
  }
}
