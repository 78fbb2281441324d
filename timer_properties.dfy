/** What the controller promises, proved of the transitions in TimerSpec
    (and so of the CountdownTimer methods, each of which performs one). */
module TimerProperties {
  import opened TimerSpec
  import opened TimerView

  // ---------------------------------------------------------------- presets

  /** A preset is inert while running; otherwise it makes the timer ready with
      exactly that many minutes, whatever the number, and remembers it.
      This restates `SetPresetTime` field by field, as a reference for callers. */
  lemma SetPresetTimeEffect(s: Session, m: int)
    ensures s.state == Running ==> SetPresetTime(s, m) == s
    ensures s.state != Running ==>
      var r := SetPresetTime(s, m);
      && r.state == Ready && r.currentMinutes == m && r.currentSeconds == 0
      && r.totalSeconds == m * 60 && r.activePreset == Some(m)
      && r == s.(state := r.state, currentMinutes := m, currentSeconds := 0,
                 totalSeconds := r.totalSeconds, activePreset := r.activePreset)
  {
  }

  /** Presets are not validated: a zero-minute preset makes the timer ready
      with nothing to count, the start button enabled, and a click on it inert. */
  lemma ZeroPresetIsReadyButInert(s: Session)
    requires Inv(s) && s.state != Running
    ensures var r := SetPresetTime(s, 0);
      && r.state == Ready && r.totalSeconds == 0
      && !StartPauseButton(r.state).disabled
      && ClickStartPause(r) == r
  {
  }

  // --------------------------------------------------------------- gestures

  /** The wheel is inert while running; otherwise the minutes move one step in
      the wheel's direction, clamped to [1, 999], and a change replaces the
      duration by whole minutes and forgets the preset. */
  lemma WheelEffect(s: Session, deltaY: int)
    ensures s.state == Running ==> Wheel(s, deltaY) == s
    ensures s.state != Running ==>
      var target := ClampMinutes(s.currentMinutes + (if deltaY < 0 then 1 else -1));
      var r := Wheel(s, deltaY);
      && (target == s.currentMinutes ==> r == s)
      && (target != s.currentMinutes ==>
            r == s.(state := Ready, currentMinutes := target, currentSeconds := 0,
                    totalSeconds := target * 60, activePreset := None))
  {
  }

  /** From idle (zero minutes) a wheel turn either way yields one minute. */
  lemma WheelFromIdle(s: Session, deltaY: int)
    requires Inv(s) && s.state == Idle
    ensures var r := Wheel(s, deltaY);
      r.state == Ready && r.currentMinutes == 1 && r.totalSeconds == 60 && r.activePreset == None
  {
  }

  /** A touch start outside running records the gesture's origin.
      This restates `TouchStart` field by field, as a reference for callers. */
  lemma TouchStartEffect(s: Session, y: int)
    ensures s.state == Running ==> TouchStart(s, y) == s
    ensures s.state != Running ==>
      TouchStart(s, y) == s.(isTouching := true, touchStartY := y, touchStartMinutes := s.currentMinutes)
  {
  }

  /** A touch move during a gesture, outside running, targets the starting
      minutes plus one minute per full 30 pixels swiped upwards (rounded
      down), clamped to [1, 999]; it has the wheel's effect on the fields. */
  lemma TouchMoveEffect(s: Session, y: int)
    ensures !s.isTouching || s.state == Running ==> TouchMove(s, y) == s
    ensures s.isTouching && s.state != Running ==>
      var swipe := s.touchStartY - y;
      var target := ClampMinutes(s.touchStartMinutes + swipe / 30);
      var r := TouchMove(s, y);
      && (target == s.currentMinutes ==> r == s)
      && (target != s.currentMinutes ==>
            r == s.(state := Ready, currentMinutes := target, currentSeconds := 0,
                    totalSeconds := target * 60, activePreset := None))
  {
  }

  /** Moving to the same position twice changes nothing the second time. */
  lemma TouchMoveIdempotent(s: Session, y: int)
    ensures TouchMove(TouchMove(s, y), y) == TouchMove(s, y)
  {
  }

  /** After touchend or touchcancel no move has any effect until a new touch starts. */
  lemma NoMoveAfterRelease(s: Session, y: int)
    ensures TouchMove(TouchRelease(s), y) == TouchRelease(s)
    ensures TouchRelease(s) == s.(isTouching := false)
  {
  }

  /** A gesture that changes anything leaves the minutes within [1, 999]. */
  lemma GestureChangeInRange(s: Session, deltaY: int, y: int)
    ensures Wheel(s, deltaY) != s ==> 1 <= Wheel(s, deltaY).currentMinutes <= 999
    ensures TouchMove(s, y) != s ==> 1 <= TouchMove(s, y).currentMinutes <= 999
  {
  }

  predicate IsGesture(e: Event) {
    e.TouchStartAt? || e.TouchMoveTo? || e.TouchEnd? || e.TouchCancel? || e.WheelBy?
  }

  /** Any run of gestures from minutes in [1, 999] keeps them there. */
  lemma {:induction false} GesturesKeepMinutesInRange(s: Session, events: seq<Event>)
    requires 1 <= s.currentMinutes <= 999
    requires forall k :: 0 <= k < |events| ==> IsGesture(events[k])
    ensures 1 <= Run(s, events).currentMinutes <= 999
    decreases |events|
  {
    if events != [] {
      var e := events[0];
      var next := Step(s, e);
      GestureChangeInRange(s, if e.WheelBy? then e.deltaY else 0, if e.TouchMoveTo? then e.clientY else 0);
      assert 1 <= next.currentMinutes <= 999;
      GesturesKeepMinutesInRange(next, events[1..]);
    }
  }

  // -------------------------------------------------- start, pause and ticks

  /** The start/pause button starts from ready or paused, pauses from running
      and is inert otherwise. This restates `ClickStartPause` case by case. */
  lemma ClickStartPauseDispatch(s: Session)
    ensures s.state == Ready || s.state == Paused ==> ClickStartPause(s) == StartTimer(s)
    ensures s.state == Running ==> ClickStartPause(s) == PauseTimer(s)
    ensures s.state == Idle || s.state == Completed ==> ClickStartPause(s) == s
  {
  }

  /** Starting needs time left; with it, only the state and the tick handle change.
      This restates `StartTimer` field by field. */
  lemma StartTimerEffect(s: Session)
    ensures s.totalSeconds <= 0 ==> StartTimer(s) == s
    ensures s.totalSeconds > 0 ==> StartTimer(s) == s.(state := Running, ticking := true)
  {
  }

  /** From idle the start/pause button does nothing. */
  lemma StartFromIdleIsInert(s: Session)
    requires Inv(s) && s.state == Idle
    ensures ClickStartPause(s) == s
  {
  }

  /** The start/pause button is shown enabled exactly when clicking it would
      change something or the timer is ready with no time to count, and it is
      labelled "Pause" exactly when clicking it pauses. */
  lemma StartPauseButtonMatchesClick(s: Session)
    requires Inv(s)
    ensures ClickStartPause(s) != s <==> !StartPauseButton(s.state).disabled && s.totalSeconds > 0
    ensures StartPauseButton(s.state).text == "Pause" <==> ClickStartPause(s).state == Paused && s.state != Paused
  {
  }

  /** Pausing stops the tick and keeps the remaining time; a second click
      resumes from that exact value. */
  lemma PauseThenResume(s: Session)
    requires Inv(s) && s.state == Running
    ensures var p := ClickStartPause(s);
      && p.state == Paused && !p.ticking && p.totalSeconds == s.totalSeconds
      && p.currentMinutes == s.currentMinutes && p.currentSeconds == s.currentSeconds
      && var q := ClickStartPause(p);
         q.state == Running && q.ticking && q.totalSeconds == s.totalSeconds
  {
  }

  /** Pausing clears the warning only above the warning window. */
  lemma PauseWarning(s: Session)
    ensures PauseTimer(s).warning == (s.warning && s.totalSeconds <= 10)
  {
  }

  /** A tick takes one second off. Above one second it stays running, re-splits
      the readout and flags the warning exactly inside (0, 10]; at one second
      it completes with everything zeroed, the tick stopped, the warning off
      and the completion flash on. */
  lemma TickEffect(s: Session)
    requires Inv(s) && s.ticking
    ensures var r := Tick(s);
      && (s.totalSeconds > 1 ==>
            && r.state == Running && r.ticking
            && r.totalSeconds == s.totalSeconds - 1
            && r.currentMinutes == r.totalSeconds / 60 && r.currentSeconds == r.totalSeconds % 60
            && (r.warning <==> r.totalSeconds <= 10))
      && (s.totalSeconds == 1 ==>
            && r.state == Completed && !r.ticking && r.totalSeconds == 0
            && r.currentMinutes == 0 && r.currentSeconds == 0
            && !r.warning && r.flash && r.pendingFlashClears == s.pendingFlashClears + 1)
      && r.activePreset == s.activePreset && r.isTouching == s.isTouching
  {
  }

  /** Fewer ticks than seconds left count down one second each and keep running. */
  lemma {:induction false} TicksCountDown(s: Session, n: nat)
    requires Inv(s) && s.state == Running
    requires n < s.totalSeconds
    ensures var r := Ticks(s, n);
      Inv(r) && r.state == Running && r.totalSeconds == s.totalSeconds - n
      && r.activePreset == s.activePreset
  {
    if n > 0 {
      TicksCountDown(s, n - 1);
      TickEffect(Ticks(s, n - 1));
    }
  }

  /** As many ticks as seconds left end in Completed with nothing left. */
  lemma TicksComplete(s: Session)
    requires Inv(s) && s.state == Running
    ensures var r := Ticks(s, s.totalSeconds as nat);
      && r.state == Completed && r.totalSeconds == 0 && !r.ticking && r.flash && !r.warning
      && r.activePreset == s.activePreset
  {
    TicksCountDown(s, s.totalSeconds as nat - 1);
    TickEffect(Ticks(s, s.totalSeconds as nat - 1));
  }

  /** From ready with three seconds, start and three ticks give 2, 1, then
      Completed with 0. */
  lemma ThreeSecondCountdown(s: Session)
    requires Inv(s) && s.state == Ready && s.totalSeconds == 3
    ensures var t := StartTimer(s);
      && t.state == Running
      && Ticks(t, 1).totalSeconds == 2 && Ticks(t, 1).state == Running
      && Ticks(t, 2).totalSeconds == 1 && Ticks(t, 2).state == Running
      && Ticks(t, 3).totalSeconds == 0 && Ticks(t, 3).state == Completed
  {
    var t := StartTimer(s);
    TicksCountDown(t, 1);
    TicksCountDown(t, 2);
    TicksComplete(t);
  }

  /** Preset 25, start, 900 ticks: 600 seconds left; pausing keeps exactly 600. */
  lemma TwentyFiveMinuteScenario(s: Session)
    requires Inv(s) && s.state != Running
    ensures var t := StartTimer(SetPresetTime(s, 25));
      var r := Ticks(t, 900);
      && r.state == Running && r.totalSeconds == 600 && r.activePreset == Some(25)
      && ClickStartPause(r).state == Paused && ClickStartPause(r).totalSeconds == 600
  {
    var t := StartTimer(SetPresetTime(s, 25));
    TicksCountDown(t, 900);
  }

  // ------------------------------------------------- completion and reset

  /** The completion timeout clears the flash only; the state stays put.
      This restates `ClearCompletionFlash` field by field. */
  lemma ClearCompletionFlashEffect(s: Session)
    requires s.pendingFlashClears > 0
    ensures var r := ClearCompletionFlash(s);
      r.state == s.state && !r.flash && r == s.(flash := false, pendingFlashClears := r.pendingFlashClears)
  {
  }

  /** Completed is left only by a preset, a gesture or a reset. */
  lemma CompletedIsSticky(s: Session, e: Event)
    requires Inv(s) && s.state == Completed && Deliverable(s, e)
    requires !e.PresetClick? && !e.ResetClick? && !e.TouchMoveTo? && !e.WheelBy?
    ensures Step(s, e).state == Completed
  {
  }

  /** A preset that ran to completion stays highlighted until reset, another
      preset or a gesture. */
  lemma CompletedKeepsPresetHighlight(s: Session, m: int)
    requires Inv(s) && s.state != Running && m > 0
    ensures var r := Ticks(StartTimer(SetPresetTime(s, m)), m * 60);
      r.state == Completed && PresetButton(r.state, r.activePreset, m).active
  {
    TicksComplete(StartTimer(SetPresetTime(s, m)));
  }

  /** Reset works from every state and leaves nothing counting or flagged.
      It leaves a drag in progress and a pending completion timeout alone. */
  lemma ResetEffect(s: Session)
    ensures var r := ResetTimer(s);
      && r.state == Idle && r.totalSeconds == 0 && r.currentMinutes == 0 && r.currentSeconds == 0
      && r.activePreset == None && !r.ticking && !r.warning && !r.flash
      && r == s.(state := Idle, currentMinutes := 0, currentSeconds := 0, totalSeconds := 0,
                 activePreset := None, ticking := false, warning := false, flash := false)
  {
  }

  // ------------------------------------------------------------ invariants

  /** Every run of events from a fresh timer keeps the invariant: the readout
      is the split of the remaining time, and a tick is live exactly while
      running. */
  lemma RunFromInitial(events: seq<Event>)
    ensures var r := Run(Initial(), events);
      && Inv(r)
      && r.currentMinutes * 60 + r.currentSeconds == r.totalSeconds
      && 0 <= r.currentSeconds < 60
      && (r.ticking <==> r.state == Running)
  {
  }

  /** Whatever state the timer is in, the seconds readout is exactly two
      digits, tens first; so are the minutes whenever they are at most 99 and
      not negative. */
  lemma ReadoutOfSession(s: Session)
    requires Inv(s)
    ensures var text := Readout(s.currentMinutes, s.currentSeconds);
      && |text.1| == 2
      && text.1 == [DigitChar(s.currentSeconds / 10), DigitChar(s.currentSeconds % 10)]
      && (0 <= s.currentMinutes < 100 ==> |text.0| == 2)
  {
    if 0 <= s.currentMinutes < 100 {
      TwoDigitReadout(s.currentMinutes);
    }
  }

  /** The warning is never shown while idle or completed. It does survive a
      pause inside the warning window and a later preset: the timer is then
      ready, with 25 minutes, and still shows the warning. */
  lemma WarningOutlivesPause(s: Session)
    requires Inv(s) && s.state == Running && s.totalSeconds == 11
    ensures var r := SetPresetTime(ClickStartPause(Tick(s)), 25);
      r.state == Ready && r.totalSeconds == 1500 && r.warning
  {
  }
}
