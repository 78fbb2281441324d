/** The CountdownTimer object. Its fields are the controller's own; every
    listener and method updates them in place, in the source's order, and is
    proved to perform the matching transition of TimerSpec. */
module Timer {
  import opened TimerSpec
  import TimerView

  class CountdownTimer {
    /** The `data-minutes` of the preset buttons, in document order. */
    const presetMinutes: seq<int>

    var currentMinutes: int
    var currentSeconds: int
    var totalSeconds: int
    /** `intervalId != null`: the one-second interval is installed. */
    var ticking: bool
    var state: TimerState
    var activePreset: Option<int>

    var touchStartY: int
    var touchStartMinutes: int
    var isTouching: bool

    /** The counter's 'warning' class. */
    var warning: bool
    /** The counter's 'completed' class and the body's 'timer-completed' class. */
    var flash: bool
    /** Completion-flash timeouts scheduled and not yet fired. */
    var pendingFlashClears: nat

    /** The fields as a session value. */
    ghost function Model(): Session
      reads this
    {
      Session(state, totalSeconds, currentMinutes, currentSeconds, ticking, activePreset,
              touchStartY, touchStartMinutes, isTouching, warning, flash, pendingFlashClears)
    }

    ghost predicate Valid()
      reads this
    {
      Inv(Model())
    }

    /** The constructor; the presets are read from the page by the caller. */
    constructor (presets: seq<int>)
      ensures Valid()
      ensures Model() == Initial()
      ensures presetMinutes == presets
    {
      presetMinutes := presets;
      currentMinutes := 0;
      currentSeconds := 0;
      totalSeconds := 0;
      ticking := false;
      state := Idle;
      activePreset := None;
      touchStartY := 0;
      touchStartMinutes := 0;
      isTouching := false;
      warning := false;
      flash := false;
      pendingFlashClears := 0;
    }

    /** The start/pause button's click listener. */
    method ClickStartPause()
      requires Valid()
      modifies this
      ensures Valid()
      ensures Model() == TimerSpec.ClickStartPause(old(Model()))
    {
      if state == Ready || state == Paused {
        StartTimer();
      } else if state == Running {
        PauseTimer();
      }
    }

    /** The counter's `touchstart` listener; `clientY` is the first touch's. */
    method TouchStart(clientY: int)
      requires Valid()
      modifies this
      ensures Valid()
      ensures Model() == TimerSpec.TouchStart(old(Model()), clientY)
    {
      if state == Running {
        return;
      }
      isTouching := true;
      touchStartY := clientY;
      touchStartMinutes := currentMinutes;
    }

    /** Applies a clamped target to the duration when it differs from the
        current minutes (the common tail of the touchmove and wheel listeners). */
    method AdjustMinutes(newMinutes: int)
      requires Valid() && state != Running
      modifies this
      ensures Valid()
      ensures Model() == TimerSpec.AdjustMinutes(old(Model()), newMinutes)
    {
      if newMinutes != currentMinutes {
        currentMinutes := newMinutes;
        currentSeconds := 0;
        totalSeconds := newMinutes * SecondsPerMinute;
        state := Ready;
        activePreset := None;
      }
    }

    /** The counter's `touchmove` listener. */
    method TouchMove(clientY: int)
      requires Valid()
      modifies this
      ensures Valid()
      ensures Model() == TimerSpec.TouchMove(old(Model()), clientY)
    {
      if !isTouching || state == Running {
        return;
      }
      var deltaY := touchStartY - clientY;
      var minuteChange := SwipeMinutes(deltaY);
      var newMinutes := touchStartMinutes + minuteChange;
      newMinutes := ClampMinutes(newMinutes);
      AdjustMinutes(newMinutes);
    }

    /** The counter's `touchend` and `touchcancel` listeners. */
    method TouchRelease()
      requires Valid()
      modifies this
      ensures Valid()
      ensures Model() == TimerSpec.TouchRelease(old(Model()))
    {
      isTouching := false;
    }

    /** The counter's `wheel` listener. */
    method Wheel(deltaY: int)
      requires Valid()
      modifies this
      ensures Valid()
      ensures Model() == TimerSpec.Wheel(old(Model()), deltaY)
    {
      if state == Running {
        return;
      }
      var direction := WheelDirection(deltaY);
      var newMinutes := currentMinutes + direction;
      newMinutes := ClampMinutes(newMinutes);
      AdjustMinutes(newMinutes);
    }

    method SetPresetTime(minutes: int)
      requires Valid()
      modifies this
      ensures Valid()
      ensures Model() == TimerSpec.SetPresetTime(old(Model()), minutes)
    {
      if state == Running {
        return;
      }
      currentMinutes := minutes;
      currentSeconds := 0;
      totalSeconds := minutes * SecondsPerMinute;
      state := Ready;
      activePreset := Some(minutes);
    }

    /** Only ever called when not running, so at most one interval is installed. */
    method StartTimer()
      requires Valid() && state != Running
      modifies this
      ensures Valid()
      ensures Model() == TimerSpec.StartTimer(old(Model()))
    {
      if totalSeconds <= 0 {
        return;
      }
      state := Running;
      ticking := true;
    }

    /** The interval callback; it fires only while the interval is installed. */
    method Tick()
      requires Valid() && ticking
      modifies this
      ensures Valid()
      ensures Model() == TimerSpec.Tick(old(Model()))
    {
      totalSeconds := totalSeconds - 1;
      UpdateTimeFromTotal();
      warning := totalSeconds <= WarningSeconds && totalSeconds > 0;
      if totalSeconds <= 0 {
        CompleteTimer();
      }
    }

    /** Only ever called while running. */
    method PauseTimer()
      requires Valid() && state == Running
      modifies this
      ensures Valid()
      ensures Model() == TimerSpec.PauseTimer(old(Model()))
    {
      state := Paused;
      if ticking {
        ticking := false;
      }
      if totalSeconds > WarningSeconds {
        warning := false;
      }
    }

    method ResetTimer()
      modifies this
      ensures Valid()
      ensures Model() == TimerSpec.ResetTimer(old(Model()))
    {
      state := Idle;
      currentMinutes := 0;
      currentSeconds := 0;
      totalSeconds := 0;
      activePreset := None;
      if ticking {
        ticking := false;
      }
      warning := false;
      flash := false;
    }

    method CompleteTimer()
      modifies this
      ensures Valid()
      ensures Model() == TimerSpec.CompleteTimer(old(Model()))
    {
      state := Completed;
      currentMinutes := 0;
      currentSeconds := 0;
      totalSeconds := 0;
      if ticking {
        ticking := false;
      }
      warning := false;
      flash := true;
      pendingFlashClears := pendingFlashClears + 1;
    }

    /** The 5-second timeout scheduled by `CompleteTimer`. */
    method ClearCompletionFlash()
      requires Valid() && pendingFlashClears > 0
      modifies this
      ensures Valid()
      ensures Model() == TimerSpec.ClearCompletionFlash(old(Model()))
    {
      flash := false;
      pendingFlashClears := pendingFlashClears - 1;
    }

    /** `updatePresetButtons`: the preset buttons as the page shows them now. */
    method PresetButtons() returns (buttons: seq<TimerView.PresetView>)
      ensures |buttons| == |presetMinutes|
      ensures forall i :: 0 <= i < |presetMinutes| ==> (buttons[i].disabled <==> state == Running)
      ensures forall i :: 0 <= i < |presetMinutes| ==>
        (buttons[i].active <==> state != Running && state != Idle && activePreset == Some(presetMinutes[i]))
    {
      buttons := TimerView.UpdatePresetButtons(state, activePreset, presetMinutes);
    }

    method UpdateTimeFromTotal()
      modifies this
      ensures Model() == TimerSpec.UpdateTimeFromTotal(old(Model()))
    {
      currentMinutes := totalSeconds / SecondsPerMinute;
      currentSeconds := JsRemainder60(totalSeconds);
    }
  }
}
