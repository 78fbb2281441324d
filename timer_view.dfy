/** What the timer shows: the two readout fields, the start/pause and reset
    buttons, and the preset buttons, each as a function of the session. */
module TimerView {
  import opened TimerSpec

  /** The start/pause button. */
  datatype StartPauseView = StartPauseView(text: string, disabled: bool)

  /** The two control buttons as `updateUI` leaves them. */
  datatype Controls = Controls(startPause: StartPauseView, resetDisabled: bool)

  /** One preset button as `updatePresetButtons` leaves it. */
  datatype PresetView = PresetView(disabled: bool, active: bool)

  /** The start/pause switch in `updateUI`. */
  function StartPauseButton(state: TimerState): (v: StartPauseView)
    ensures v.disabled <==> state == Idle || state == Completed
    ensures v.text == "Pause" <==> state == Running
    ensures v.text == "Pause" || v.text == "Start"
  {
    match state
    case Idle => StartPauseView("Start", true)
    case Ready => StartPauseView("Start", false)
    case Running => StartPauseView("Pause", false)
    case Paused => StartPauseView("Start", false)
    case Completed => StartPauseView("Start", true)
  }

  /** `updateUI` for the two control buttons; reset is never disabled. */
  function UpdateUI(state: TimerState): (c: Controls)
    ensures !c.resetDisabled
    ensures c.startPause == StartPauseButton(state)
    ensures c.startPause.disabled <==> state == Idle || state == Completed
    ensures c.startPause.text == "Pause" <==> state == Running
  {
    Controls(StartPauseButton(state), false)
  }

  /** The body of the `forEach` in `updatePresetButtons` for a button whose
      `data-minutes` is `minutes`. */
  function PresetButton(state: TimerState, activePreset: Option<int>, minutes: int): (v: PresetView)
    ensures v.disabled <==> state == Running
    ensures v.active <==> state != Running && state != Idle && activePreset == Some(minutes)
  {
    if state == Running then PresetView(true, false)
    else PresetView(false, activePreset == Some(minutes) && state != Idle)
  }

  /** `updatePresetButtons`: visits the preset buttons in document order. */
  method UpdatePresetButtons(state: TimerState, activePreset: Option<int>, presets: seq<int>)
    returns (buttons: seq<PresetView>)
    ensures |buttons| == |presets|
    ensures forall i :: 0 <= i < |presets| ==> (buttons[i].disabled <==> state == Running)
    ensures forall i :: 0 <= i < |presets| ==>
      (buttons[i].active <==> state != Running && state != Idle && activePreset == Some(presets[i]))
  {
    buttons := [];
    var i := 0;
    while i < |presets|
      invariant 0 <= i <= |presets|
      invariant |buttons| == i
      invariant forall k :: 0 <= k < i ==> buttons[k] == PresetButton(state, activePreset, presets[k])
    {
      buttons := buttons + [PresetButton(state, activePreset, presets[i])];
      i := i + 1;
    }
  }

  /** Preset buttons that carry different minutes are never active together. */
  lemma ActivePresetUnique(state: TimerState, activePreset: Option<int>, presets: seq<int>, i: int, j: int)
    requires 0 <= i < |presets| && 0 <= j < |presets|
    requires PresetButton(state, activePreset, presets[i]).active
    requires PresetButton(state, activePreset, presets[j]).active
    ensures presets[i] == presets[j]
  {
  }

  /** The decimal digit for `d`. */
  function DigitChar(d: int): (c: char)
    requires 0 <= d < 10
    ensures '0' <= c <= '9' && c as int - '0' as int == d
  {
    (d + '0' as int) as char
  }

  predicate IsDigits(s: string) {
    forall k :: 0 <= k < |s| ==> '0' <= s[k] <= '9'
  }

  /** `n.toString()` for a natural number: its decimal digits, most significant first. */
  function NatToDecimal(n: nat): (r: string)
    ensures 1 <= |r| && IsDigits(r)
    ensures n < 10 <==> |r| == 1
    ensures n >= 1 ==> r[0] != '0'
    decreases n
  {
    if n < 10 then [DigitChar(n)] else NatToDecimal(n / 10) + [DigitChar(n % 10)]
  }

  /** The number a string of decimal digits denotes. */
  function DecimalValue(s: string): nat
    requires IsDigits(s)
  {
    if s == [] then 0 else DecimalValue(s[..|s| - 1]) * 10 + (s[|s| - 1] as int - '0' as int)
  }

  /** Reading the digits back gives the number. */
  lemma {:induction false} DecimalRoundTrip(n: nat)
    ensures DecimalValue(NatToDecimal(n)) == n
    decreases n
  {
    if n >= 10 {
      var prefix := NatToDecimal(n / 10);
      var r := prefix + [DigitChar(n % 10)];
      assert r[..|r| - 1] == prefix;
      DecimalRoundTrip(n / 10);
    }
  }

  /** `n.toString()` for any integer: a minus sign before the digits of a
      negative number. */
  function IntToDecimal(n: int): (r: string)
    ensures n >= 0 ==> |r| >= 1 && IsDigits(r) && DecimalValue(r) == n
    ensures n >= 1 ==> r[0] != '0'
    ensures n < 0 ==> |r| >= 2 && r[0] == '-' && IsDigits(r[1..]) && DecimalValue(r[1..]) == -n
  {
    if n < 0 then
      var digits := NatToDecimal(-n);
      DecimalRoundTrip(-n);
      assert ("-" + digits)[1..] == digits;
      "-" + digits
    else
      DecimalRoundTrip(n);
      NatToDecimal(n)
  }

  /** `text.padStart(2, '0')`. */
  function PadStart2(text: string): (r: string)
    ensures |text| >= 2 ==> r == text
    ensures |text| < 2 ==> |r| == 2 && r[2 - |text|..] == text
    ensures forall k :: 0 <= k < |r| - |text| ==> r[k] == '0'
  {
    if |text| >= 2 then text else if |text| == 1 then "0" + text else "00"
  }

  /** `updateDisplay`: the minutes and seconds readouts. Seconds in [0, 60)
      show as exactly two digits; minutes below 10 get one leading '0', and
      any other minutes, negative ones included, show as their `toString`. */
  function Readout(minutes: int, seconds: int): (r: (string, string))
    ensures 0 <= seconds < 60 ==> r.1 == [DigitChar(seconds / 10), DigitChar(seconds % 10)]
    ensures minutes >= 0 ==> |r.0| >= 2 && IsDigits(r.0) && DecimalValue(r.0) == minutes
    ensures minutes >= 10 ==> r.0 == IntToDecimal(minutes) && r.0[0] != '0'
    ensures 0 <= minutes < 10 ==> r.0 == ['0', DigitChar(minutes)]
    ensures minutes < 0 ==> r.0 == IntToDecimal(minutes)
  {
    PaddedFacts(minutes, seconds);
    (PadStart2(IntToDecimal(minutes)), PadStart2(IntToDecimal(seconds)))
  }

  /** The padding facts `Readout` relies on, for one minutes and one seconds value. */
  lemma PaddedFacts(minutes: int, seconds: int)
    ensures 0 <= seconds < 60 ==>
      PadStart2(IntToDecimal(seconds)) == [DigitChar(seconds / 10), DigitChar(seconds % 10)]
    ensures minutes >= 0 ==>
      var text := PadStart2(IntToDecimal(minutes));
      |text| >= 2 && IsDigits(text) && DecimalValue(text) == minutes
    ensures 0 <= minutes < 10 ==> PadStart2(IntToDecimal(minutes)) == ['0', DigitChar(minutes)]
  {
    if 0 <= seconds < 60 { TwoDigitReadout(seconds); }
    if minutes >= 0 { ReadoutShowsValue(minutes); }
    if 0 <= minutes < 10 {
      TwoDigitReadout(minutes);
      assert DigitChar(minutes / 10) == '0';
    }
  }

  /** A value below 100 is shown as exactly two digits, tens first. */
  lemma TwoDigitReadout(n: int)
    requires 0 <= n < 100
    ensures PadStart2(IntToDecimal(n)) == [DigitChar(n / 10), DigitChar(n % 10)]
  {
    var digits := NatToDecimal(n);
    assert IntToDecimal(n) == digits;
    if n >= 10 {
      assert NatToDecimal(n / 10) == [DigitChar(n / 10)];
      assert digits == [DigitChar(n / 10)] + [DigitChar(n % 10)];
    } else {
      assert digits == [DigitChar(n)];
      assert DigitChar(0) == '0';
    }
  }

  /** Every readout field holds at least two characters and shows the value. */
  lemma ReadoutShowsValue(n: nat)
    ensures |PadStart2(IntToDecimal(n))| >= 2
    ensures DecimalValue(PadStart2(IntToDecimal(n))) == n
  {
    var digits := NatToDecimal(n);
    DecimalRoundTrip(n);
    if |digits| < 2 {
      var r := PadStart2(digits);
      assert r == "0" + digits;
      assert r[..|r| - 1] == "0";
    }
  }
}
