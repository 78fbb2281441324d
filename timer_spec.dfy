/** The countdown timer's session and every transition of it, as values.
    Each method of the class in timer.dfy is proved to perform exactly one
    of these transitions; the lemmas in timer_properties.dfy are about them. */
module TimerSpec {

  datatype Option<T> = None | Some(value: T)

  /** The five states of the controller (script.js:16). */
  datatype TimerState = Idle | Ready | Running | Paused | Completed

  const MinMinutes: int := 1
  const MaxMinutes: int := 999
  const SecondsPerMinute: int := 60
  /** Vertical swipe distance, in pixels, worth one minute. */
  const PixelsPerMinute: int := 30
  /** The warning class is shown while the remaining time is in (0, WarningSeconds]. */
  const WarningSeconds: int := 10

  /** Every field of a CountdownTimer that its behaviour depends on.
      `ticking` stands for `intervalId != null`; `warning` for the counter's
      'warning' class; `flash` for the 'completed' / 'timer-completed' classes,
      which are always added and removed together; `pendingFlashClears` counts
      the 5-second timeouts scheduled by completion that have not fired yet. */
  datatype Session = Session(
    state: TimerState,
    totalSeconds: int,
    currentMinutes: int,
    currentSeconds: int,
    ticking: bool,
    activePreset: Option<int>,
    touchStartY: int,
    touchStartMinutes: int,
    isTouching: bool,
    warning: bool,
    flash: bool,
    pendingFlashClears: nat)

  /** The session as the constructor leaves it. */
  function Initial(): Session {
    Session(Idle, 0, 0, 0, false, None, 0, 0, false, false, false, 0)
  }

  /** The invariant every operation keeps. */
  ghost predicate Inv(s: Session) {
    // the readout is the remaining time split into minutes and seconds
    && s.currentMinutes * SecondsPerMinute + s.currentSeconds == s.totalSeconds
    && 0 <= s.currentSeconds < SecondsPerMinute
    // a tick handle is live exactly while running
    && (s.ticking <==> s.state == Running)
    // a running or paused countdown always has time left
    && (s.state == Running || s.state == Paused ==> s.totalSeconds > 0)
    && (s.state == Idle ==> s.totalSeconds == 0 && s.activePreset == None)
    && (s.state == Completed ==> s.totalSeconds == 0)
    && (s.warning ==> s.state != Idle && s.state != Completed)
    // the completion flash always has a timeout pending that will clear it
    && (s.flash ==> s.pendingFlashClears > 0)
  }

  /** `Math.max(1, Math.min(999, m))`. */
  function ClampMinutes(m: int): (r: int)
    ensures MinMinutes <= r <= MaxMinutes
    ensures MinMinutes <= m <= MaxMinutes ==> r == m
    ensures m < MinMinutes ==> r == MinMinutes
    ensures m > MaxMinutes ==> r == MaxMinutes
  {
    if m < MinMinutes then MinMinutes else if m > MaxMinutes then MaxMinutes else m
  }

  /** `Math.floor(deltaY / 30)`: whole minutes of a vertical swipe, rounded down. */
  function SwipeMinutes(deltaY: int): (r: int)
    ensures r * PixelsPerMinute <= deltaY < r * PixelsPerMinute + PixelsPerMinute
  {
    deltaY / PixelsPerMinute
  }

  /** A wheel turn adds a minute when `deltaY < 0` and removes one otherwise. */
  function WheelDirection(deltaY: int): (r: int)
    ensures r == 1 || r == -1
    ensures r == 1 <==> deltaY < 0
  {
    if deltaY < 0 then 1 else -1
  }

  /** JavaScript's `total % 60`: the remainder takes the sign of the dividend. */
  function JsRemainder60(a: int): (r: int)
    ensures (a - r) % SecondsPerMinute == 0
    ensures a >= 0 ==> 0 <= r < SecondsPerMinute
    ensures a < 0 ==> -SecondsPerMinute < r <= 0
  {
    if a >= 0 then a % SecondsPerMinute
    else
      var q := (-a) / SecondsPerMinute;
      assert a + (-a) % SecondsPerMinute == -(q * SecondsPerMinute);
      -((-a) % SecondsPerMinute)
  }

  /** `updateTimeFromTotal`: minutes `Math.floor(total / 60)`, seconds `total % 60`. */
  function UpdateTimeFromTotal(s: Session): (r: Session)
    ensures r.totalSeconds >= 0 ==>
      r.currentMinutes * SecondsPerMinute + r.currentSeconds == r.totalSeconds
      && 0 <= r.currentSeconds < SecondsPerMinute
    ensures r == s.(currentMinutes := r.currentMinutes, currentSeconds := r.currentSeconds)
  {
    // Dafny's `/` by a positive divisor rounds down, like Math.floor
    s.(currentMinutes := s.totalSeconds / SecondsPerMinute,
       currentSeconds := JsRemainder60(s.totalSeconds))
  }

  /** `setPresetTime(minutes)`: inert while running; the minutes are not validated. */
  function SetPresetTime(s: Session, minutes: int): (r: Session)
    ensures Inv(s) ==> Inv(r)
  {
    if s.state == Running then s
    else s.(currentMinutes := minutes, currentSeconds := 0,
            totalSeconds := minutes * SecondsPerMinute,
            state := Ready, activePreset := Some(minutes))
  }

  /** The field updates shared by the wheel and touch-move handlers once the
      clamped target differs from the current minutes. */
  function AdjustMinutes(s: Session, target: int): (r: Session)
    ensures Inv(s) && s.state != Running ==> Inv(r)
  {
    if target == s.currentMinutes then s
    else s.(currentMinutes := target, currentSeconds := 0,
            totalSeconds := target * SecondsPerMinute,
            state := Ready, activePreset := None)
  }

  /** The `wheel` listener. */
  function Wheel(s: Session, deltaY: int): (r: Session)
    ensures Inv(s) ==> Inv(r)
  {
    if s.state == Running then s
    else AdjustMinutes(s, ClampMinutes(s.currentMinutes + WheelDirection(deltaY)))
  }

  /** The `touchstart` listener on the counter. */
  function TouchStart(s: Session, clientY: int): (r: Session)
    ensures Inv(s) ==> Inv(r)
  {
    if s.state == Running then s
    else s.(isTouching := true, touchStartY := clientY, touchStartMinutes := s.currentMinutes)
  }

  /** The `touchmove` listener on the counter. */
  function TouchMove(s: Session, clientY: int): (r: Session)
    ensures Inv(s) ==> Inv(r)
  {
    if !s.isTouching || s.state == Running then s
    else
      var minuteChange := SwipeMinutes(s.touchStartY - clientY);
      AdjustMinutes(s, ClampMinutes(s.touchStartMinutes + minuteChange))
  }

  /** The `touchend` and `touchcancel` listeners, which are identical. */
  function TouchRelease(s: Session): (r: Session)
    ensures Inv(s) ==> Inv(r)
  {
    s.(isTouching := false)
  }

  /** `startTimer`: does nothing unless there is time left. */
  function StartTimer(s: Session): (r: Session)
    ensures Inv(s) ==> Inv(r)
  {
    if s.totalSeconds <= 0 then s
    else s.(state := Running, ticking := true)
  }

  /** `completeTimer`: stops the tick, zeroes the counters, swaps the warning
      for the completion flash and schedules the flash's removal. */
  function CompleteTimer(s: Session): (r: Session)
    ensures Inv(r)
  {
    s.(state := Completed, currentMinutes := 0, currentSeconds := 0, totalSeconds := 0,
       ticking := false, warning := false, flash := true,
       pendingFlashClears := s.pendingFlashClears + 1)
  }

  /** The one-second interval callback installed by `startTimer`. */
  function Tick(s: Session): (r: Session)
    ensures Inv(s) && s.ticking ==> Inv(r)
  {
    var counted := UpdateTimeFromTotal(s.(totalSeconds := s.totalSeconds - 1));
    var flagged := counted.(warning := counted.totalSeconds <= WarningSeconds && counted.totalSeconds > 0);
    if flagged.totalSeconds <= 0 then CompleteTimer(flagged) else flagged
  }

  /** `pauseTimer`: the warning class is kept only inside the warning window. */
  function PauseTimer(s: Session): (r: Session)
    ensures Inv(s) && s.state == Running ==> Inv(r)
  {
    s.(state := Paused, ticking := false,
       warning := if s.totalSeconds > WarningSeconds then false else s.warning)
  }

  /** `resetTimer`: allowed from every state. */
  function ResetTimer(s: Session): (r: Session)
    ensures Inv(r)
  {
    s.(state := Idle, currentMinutes := 0, currentSeconds := 0, totalSeconds := 0,
       activePreset := None, ticking := false, warning := false, flash := false)
  }

  /** The 5-second timeout scheduled by `completeTimer`. */
  function ClearCompletionFlash(s: Session): (r: Session)
    requires s.pendingFlashClears > 0
    ensures Inv(s) ==> Inv(r)
  {
    s.(flash := false, pendingFlashClears := s.pendingFlashClears - 1)
  }

  /** The start/pause button's click listener. */
  function ClickStartPause(s: Session): (r: Session)
    ensures Inv(s) ==> Inv(r)
  {
    if s.state == Ready || s.state == Paused then StartTimer(s)
    else if s.state == Running then PauseTimer(s)
    else s
  }

  /** Everything that can happen to a timer: user input and the two timers. */
  datatype Event =
    | PresetClick(minutes: int)
    | StartPauseClick
    | ResetClick
    | TouchStartAt(clientY: int)
    | TouchMoveTo(clientY: int)
    | TouchEnd
    | TouchCancel
    | WheelBy(deltaY: int)
    | IntervalFired
    | FlashTimeout

  /** The interval fires only while a handle is live, and a timeout only
      while one is scheduled; user input can always arrive. */
  predicate Deliverable(s: Session, e: Event) {
    match e
    case IntervalFired => s.ticking
    case FlashTimeout => s.pendingFlashClears > 0
    case _ => true
  }

  /** The listener each event runs. */
  function Step(s: Session, e: Event): (r: Session)
    requires Deliverable(s, e)
    ensures Inv(s) ==> Inv(r)
  {
    match e
    case PresetClick(m) => SetPresetTime(s, m)
    case StartPauseClick => ClickStartPause(s)
    case ResetClick => ResetTimer(s)
    case TouchStartAt(y) => TouchStart(s, y)
    case TouchMoveTo(y) => TouchMove(s, y)
    case TouchEnd => TouchRelease(s)
    case TouchCancel => TouchRelease(s)
    case WheelBy(d) => Wheel(s, d)
    case IntervalFired => Tick(s)
    case FlashTimeout => ClearCompletionFlash(s)
  }

  /** Runs a sequence of events in order; an event that cannot be delivered
      in the state it meets is dropped. */
  function Run(s: Session, events: seq<Event>): (r: Session)
    ensures Inv(s) ==> Inv(r)
    decreases |events|
  {
    if events == [] then s
    else
      var next := if Deliverable(s, events[0]) then Step(s, events[0]) else s;
      Run(next, events[1..])
  }

  /** `n` consecutive interval callbacks. */
  function Ticks(s: Session, n: nat): Session {
    if n == 0 then s else Tick(Ticks(s, n - 1))
  }
}
