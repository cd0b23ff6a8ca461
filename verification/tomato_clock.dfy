/** `TomatoClockView`: the focus timer. A 25-minute work session, then a
    5-minute break, driven by a countdown timer and a progress animator.
    The animator's progress is kept as whole elapsed milliseconds of the
    current session. The calls to the focus-data listener and to the state
    listener are kept as logs; notifications and drawing are not modelled. */
module TomatoClock {
  import opened Domain
  import opened Text

  datatype TimerState = Idle | Working | Break

  const WORK_DURATION_MS: nat := 25 * 60 * 1000
  const BREAK_DURATION_MS: nat := 5 * 60 * 1000

  /** `formatCountTime`: whole seconds, split into zero-padded `mm:ss`, as the
      default locale writes it when its digits are ASCII. */
  function FormatCountTime(ms: nat): string
  {
    Pad2(ms / 1000 / 60) + ":" + Pad2(ms / 1000 % 60)
  }

  /** A shown time reads back as the whole minutes and the leftover seconds
      of the time it was made from; below 100 minutes it is exactly `mm:ss`. */
  lemma FormatCountTimeReadsBack(ms: nat)
    ensures var r := FormatCountTime(ms);
      |r| >= 5 && r[|r| - 3] == ':' &&
      DigitsValue(r[..|r| - 3]) == Some(ms / 1000 / 60) && DigitsValue(r[|r| - 2..]) == Some(ms / 1000 % 60)
    ensures ms < 100 * 60 * 1000 ==> |FormatCountTime(ms)| == 5
  {
    var r := FormatCountTime(ms);
    var m, sec := Pad2(ms / 1000 / 60), Pad2(ms / 1000 % 60);
    assert r[..|r| - 3] == m && r[|r| - 2..] == sec;
  }

  /** The full work session is shown as "25:00" (ASCII digits). */
  lemma WorkDurationShown()
    ensures FormatCountTime(WORK_DURATION_MS) == "25:00"
  {
    assert DigitsValue("25") == Some(25) && DigitsValue("00") == Some(0);
    TwoDigitsDetermined(Pad2(25), "25");
    TwoDigitsDetermined(Pad2(0), "00");
  }

  /** Two two-digit ASCII strings with the same value are the same string. */
  lemma TwoDigitsDetermined(s: string, t: string)
    requires |s| == 2 && |t| == 2 && DigitsValue(s).Some? && DigitsValue(s) == DigitsValue(t)
    requires forall i :: 0 <= i < 2 ==> IsAsciiDigit(s[i]) && IsAsciiDigit(t[i])
    ensures s == t
  {
    assert DigitsValue(s[..1]).Some? && DigitsValue(t[..1]).Some?;
    assert DigitValue(s[0]) == DigitValue(t[0]);
  }

  /** The fields of the view that the timer logic reads and writes, with the
      listener calls made so far. `countdownMs` is the length the latest
      countdown was started with. */
  datatype ClockState = ClockState(
    currentState: TimerState,
    isStarted: bool,
    isPaused: bool,
    currentTimerDuration: nat,
    elapsedMs: nat,
    countdownMs: int,
    textTime: string,
    focusLog: seq<nat>,
    stateLog: seq<TimerState>)

  /** The states the timer can reach: a session runs exactly while started,
      a paused timer is a started one, and progress stays within the session. */
  predicate Valid(s: ClockState)
  {
    (s.isStarted <==> s.currentState != Idle) &&
    (s.isPaused ==> s.isStarted) &&
    (s.currentTimerDuration == WORK_DURATION_MS || s.currentTimerDuration == BREAK_DURATION_MS) &&
    s.elapsedMs <= s.currentTimerDuration
  }

  /** The `currentState` setter: the listener hears only of real changes. */
  function SetStateStep(s: ClockState, v: TimerState): ClockState
  {
    if s.currentState != v then s.(currentState := v, stateLog := s.stateLog + [v]) else s
  }

  function StartStep(s: ClockState): ClockState
  {
    if s.isStarted then s
    else
      var s1 := if s.currentState == Idle then SetStateStep(s, Working) else s;
      var d := if s1.currentState == Working then WORK_DURATION_MS else BREAK_DURATION_MS;
      s1.(currentTimerDuration := d, elapsedMs := 0, countdownMs := d, isStarted := true, isPaused := false)
  }

  function PauseStep(s: ClockState): ClockState
  {
    if !s.isStarted || s.isPaused then s else s.(isPaused := true)
  }

  function ResumeStep(s: ClockState): ClockState
  {
    if !s.isStarted || !s.isPaused then s
    else s.(countdownMs := s.currentTimerDuration - s.elapsedMs, isPaused := false)
  }

  function StopStep(s: ClockState): ClockState
  {
    if !s.isStarted then s
    else
      var focus := if s.currentState == Working && s.elapsedMs > 1000 then [s.elapsedMs / 1000] else [];
      SetStateStep(s.(focusLog := s.focusLog + focus, isStarted := false, isPaused := false, elapsedMs := 0,
                      textTime := FormatCountTime(WORK_DURATION_MS)), Idle)
  }

  /** `MyTimer.onFinish`. */
  function FinishStep(s: ClockState): ClockState
  {
    match s.currentState
    case Working => StartStep(SetStateStep(s.(focusLog := s.focusLog + [WORK_DURATION_MS / 1000]), Break))
    case Break => StopStep(s)
    case Idle => s
  }

  /** The animator running for `ms` more milliseconds. */
  function AdvanceStep(s: ClockState, ms: nat): ClockState
  {
    if s.isStarted && !s.isPaused then
      s.(elapsedMs := if s.elapsedMs + ms > s.currentTimerDuration then s.currentTimerDuration else s.elapsedMs + ms)
    else s
  }

  // ----- properties -----

  lemma StepsKeepValid(s: ClockState, ms: nat)
    requires Valid(s)
    ensures Valid(StartStep(s)) && Valid(PauseStep(s)) && Valid(ResumeStep(s)) && Valid(StopStep(s))
    ensures Valid(FinishStep(s)) && Valid(AdvanceStep(s, ms))
  {
  }

  /** Every transition reports to the state listener exactly the state it
      changed to, and only when it changed it. */
  lemma ListenerHearsOnlyChanges(s: ClockState, ms: nat)
    requires Valid(s)
    ensures forall t :: t in {StartStep(s), PauseStep(s), ResumeStep(s), StopStep(s), FinishStep(s), AdvanceStep(s, ms)} ==>
      t.stateLog == s.stateLog + (if t.currentState != s.currentState then [t.currentState] else [])
  {
  }

  /** From IDLE, `start` enters a full work session. */
  lemma StartFromIdle(s: ClockState)
    requires Valid(s) && s.currentState == Idle
    ensures var t := StartStep(s);
      t.currentState == Working && t.isStarted && !t.isPaused &&
      t.currentTimerDuration == WORK_DURATION_MS && t.countdownMs == WORK_DURATION_MS && t.elapsedMs == 0 &&
      t.stateLog == s.stateLog + [Working] && t.focusLog == s.focusLog
  {
  }

  /** `start` does nothing while a session is started. */
  lemma StartWhileStartedIsNoOp(s: ClockState)
    requires s.isStarted
    ensures StartStep(s) == s
  {
  }

  /** The end of a work session records exactly 1500 s of focus and enters
      BREAK, but the `start` that follows does nothing because the timer is
      still started: no break countdown begins, and starting again changes
      nothing either. */
  lemma WorkFinishStallsInBreak(s: ClockState)
    requires Valid(s) && s.currentState == Working
    ensures var t := FinishStep(s);
      t.focusLog == s.focusLog + [1500] && t.currentState == Break && t.isStarted &&
      t.currentTimerDuration == s.currentTimerDuration && t.countdownMs == s.countdownMs &&
      t.stateLog == s.stateLog + [Break] && StartStep(t) == t
  {
  }

  /** `MyTimer.onFinish` as evidently intended: the timer is marked stopped
      before the break's `start`, so the break countdown begins. */
  function FinishStepIntended(s: ClockState): ClockState
  {
    match s.currentState
    case Working =>
      StartStep(SetStateStep(s.(focusLog := s.focusLog + [WORK_DURATION_MS / 1000], isStarted := false), Break))
    case Break => StopStep(s)
    case Idle => s
  }

  /** With the corrected finish, the end of work records 1500 s of focus and
      starts a fresh 5-minute break countdown, whose own end stops the timer. */
  lemma IntendedWorkFinishStartsBreak(s: ClockState)
    requires Valid(s) && s.currentState == Working
    ensures var t := FinishStepIntended(s);
      Valid(t) && t.focusLog == s.focusLog + [1500] && t.currentState == Break && t.isStarted && !t.isPaused &&
      t.currentTimerDuration == BREAK_DURATION_MS && t.countdownMs == BREAK_DURATION_MS && t.elapsedMs == 0 &&
      t.stateLog == s.stateLog + [Break] &&
      FinishStepIntended(t) == StopStep(t) && FinishStepIntended(t).currentState == Idle
  {
  }

  /** The end of a break stops the timer and records no focus time. */
  lemma BreakFinishStops(s: ClockState)
    requires Valid(s) && s.currentState == Break
    ensures FinishStep(s) == StopStep(s)
    ensures FinishStep(s).focusLog == s.focusLog && FinishStep(s).currentState == Idle
  {
  }

  /** `stop` ends in IDLE with nothing started, no progress and "25:00" shown
      (ASCII digits);
      it records the elapsed whole seconds of a work session longer than one
      second, and nothing otherwise. */
  lemma StopResets(s: ClockState)
    requires s.isStarted
    ensures var t := StopStep(s);
      t.currentState == Idle && !t.isStarted && !t.isPaused && t.elapsedMs == 0 && t.textTime == "25:00" &&
      t.focusLog == s.focusLog + (if s.currentState == Working && s.elapsedMs > 1000 then [s.elapsedMs / 1000] else [])
  {
    WorkDurationShown();
  }

  /** Pausing and resuming restarts the countdown with the unelapsed rest of
      the session and otherwise gives back the state before the pause. */
  lemma PauseThenResume(s: ClockState)
    requires s.isStarted && !s.isPaused
    ensures ResumeStep(PauseStep(s)) == s.(countdownMs := s.currentTimerDuration - s.elapsedMs)
    ensures PauseStep(PauseStep(s)) == PauseStep(s)
  {
  }

  /** While paused, time passing changes nothing. */
  lemma PausedDoesNotAdvance(s: ClockState, ms: nat)
    requires s.isPaused
    ensures AdvanceStep(PauseStep(s), ms) == PauseStep(s)
  {
  }

  class TomatoClockView {
    var currentState: TimerState
    var isStarted: bool
    var isPaused: bool
    var currentTimerDuration: nat
    var elapsedMs: nat
    var countdownMs: int
    var textTime: string
    var focusLog: seq<nat>
    var stateLog: seq<TimerState>

    function State(): ClockState
      reads this
    {
      ClockState(currentState, isStarted, isPaused, currentTimerDuration, elapsedMs, countdownMs, textTime,
                 focusLog, stateLog)
    }

    constructor ()
      ensures State() == ClockState(Idle, false, false, WORK_DURATION_MS, 0, 0, FormatCountTime(WORK_DURATION_MS), [], [])
      ensures Valid(State())
    {
      currentState := Idle;
      isStarted := false;
      isPaused := false;
      currentTimerDuration := WORK_DURATION_MS;
      elapsedMs := 0;
      countdownMs := 0;
      textTime := FormatCountTime(WORK_DURATION_MS);
      focusLog := [];
      stateLog := [];
    }

    /** The `currentState` setter. */
    method SetCurrentState(v: TimerState)
      modifies this
      ensures State() == SetStateStep(old(State()), v)
    {
      if currentState != v {
        currentState := v;
        stateLog := stateLog + [v];
      }
    }

    method Start()
      modifies this
      ensures State() == StartStep(old(State()))
    {
      if isStarted {
        return;
      }
      if currentState == Idle {
        SetCurrentState(Working);
      }
      currentTimerDuration := if currentState == Working then WORK_DURATION_MS else BREAK_DURATION_MS;
      elapsedMs := 0;
      countdownMs := currentTimerDuration;
      isStarted := true;
      isPaused := false;
    }

    method Pause()
      modifies this
      ensures State() == PauseStep(old(State()))
    {
      if !isStarted || isPaused {
        return;
      }
      isPaused := true;
    }

    method Resume()
      modifies this
      ensures State() == ResumeStep(old(State()))
    {
      if !isStarted || !isPaused {
        return;
      }
      countdownMs := currentTimerDuration - elapsedMs;
      isPaused := false;
    }

    method Stop()
      modifies this
      ensures State() == StopStep(old(State()))
    {
      if !isStarted {
        return;
      }
      if currentState == Working {
        var elapsedTime := elapsedMs;
        if elapsedTime > 1000 {
          focusLog := focusLog + [elapsedTime / 1000];
        }
      }
      isStarted := false;
      isPaused := false;
      elapsedMs := 0;
      textTime := FormatCountTime(WORK_DURATION_MS);
      SetCurrentState(Idle);
    }

    /** `MyTimer.onFinish`. */
    method OnFinish()
      modifies this
      ensures State() == FinishStep(old(State()))
    {
      match currentState {
        case Working =>
          focusLog := focusLog + [WORK_DURATION_MS / 1000];
          SetCurrentState(Break);
          Start();
        case Break =>
          Stop();
        case Idle =>
      }
    }

    /** `MyTimer.onTick`: shows the time left. */
    method OnTick(millisUntilFinished: nat)
      modifies this
      ensures State() == old(State()).(textTime := FormatCountTime(millisUntilFinished))
    {
      textTime := FormatCountTime(millisUntilFinished);
    }

    /** The progress animator running for `ms` more milliseconds. */
    method Advance(ms: nat)
      modifies this
      ensures State() == AdvanceStep(old(State()), ms)
    {
      if isStarted && !isPaused {
        elapsedMs := if elapsedMs + ms > currentTimerDuration then currentTimerDuration else elapsedMs + ms;
      }
    }
  }
}
