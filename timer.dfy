/** The battle `Timer`: urgency thresholds and the colour of the countdown display. */
module Timer {
  import opened Wrappers
  import opened Countdown

  const RED: string := "text-red-500"
  const YELLOW: string := "text-yellow-500"
  const FOREGROUND: string := "text-foreground"

  predicate IsUrgent(seconds: int) {
    seconds <= 30 && seconds != 0
  }

  predicate IsCritical(seconds: int) {
    seconds <= 10 && seconds != 0
  }

  function TimerColor(seconds: int): (c: string)
    ensures c == RED <==> IsCritical(seconds)
    ensures c == YELLOW <==> IsUrgent(seconds) && !IsCritical(seconds)
    ensures c == FOREGROUND <==> !IsUrgent(seconds)
  {
    if IsCritical(seconds) then RED else if IsUrgent(seconds) then YELLOW else FOREGROUND
  }

  /** Critical implies urgent, and at 0 (complete) neither holds, so the display is plain. */
  lemma Thresholds(seconds: int)
    ensures IsCritical(seconds) ==> IsUrgent(seconds)
    ensures seconds == 0 ==> !IsUrgent(seconds) && !IsCritical(seconds) && TimerColor(seconds) == FOREGROUND
    ensures IsUrgent(seconds) <==> seconds <= 30 && !IsComplete(CountdownState(seconds, false, 0))
  {
  }

  /** The countdown behind a `Timer`; unlike the hook's own default, `autoStart` defaults to true here. */
  function TimerCountdown(initialSeconds: int, autoStart: Option<bool>): (s: CountdownState)
    ensures s.seconds == initialSeconds
    ensures s.isRunning <==> autoStart != Some(false)
  {
    Init(initialSeconds, Some(autoStart.GetOr(true)))
  }

  /** With no `autoStart` given, a `Timer` runs from the start and the bare hook does not. */
  lemma AutoStartDefaults(initialSeconds: int)
    ensures TimerCountdown(initialSeconds, None).isRunning
    ensures !Init(initialSeconds, None).isRunning
  {
  }
}
