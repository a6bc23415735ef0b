/** The input handler (src/InputHandler.h, src/InputHandler.cpp): one encoder sets brightness and, pressed,
    cycles the display mode; the other sets the hue and, pressed, toggles the text mode; a light-dependent
    resistor switches the panel off in the dark and on again in the light, with hysteresis. One pass of the
    polling task's loop is a method; the ADC reading, the switch levels and millis() are its inputs. */
module Input {
  import opened Colour
  import opened Arduino
  import opened Modes
  import opened Encoder

  /** LDR_LOWER_ADC: a reading below this turns the display off. */
  const LdrLowerAdc := 600
  /** LDR_UPPER_ADC: a reading above this turns the display on. */
  const LdrUpperAdc := 850
  /** The ldrValue the handler starts with, before the first reading. */
  const LdrUnread := -10000

  /** The five values the handler publishes together and getState hands out. */
  datatype InputState = InputState(brightness: Byte, hue: Word, displayMode: int, textMode: int, ldrEnabled: bool)

  /** What one pass of the polling loop reads from the hardware: the LDR's ADC value, each switch pin's level
      and millis() at each debounce. */
  datatype PollInputs = PollInputs(ldrReading: int, switchLevel1: int, switchLevel2: int, millis1: int, millis2: int)

  /** calcLDREnable's latch: off below the lower threshold, on above the upper one, unchanged in between. */
  function LdrLatch(reading: int, latched: bool): (enabled: bool)
    ensures reading < LdrLowerAdc ==> !enabled
    ensures reading > LdrUpperAdc ==> enabled
    ensures LdrLowerAdc <= reading <= LdrUpperAdc ==> enabled == latched
  {
    if reading < LdrLowerAdc then false else if reading > LdrUpperAdc then true else latched
  }

  /** The latched state after a run of readings, one per poll. */
  function LdrAfter(readings: seq<int>, latched: bool): bool
  {
    if readings == [] then latched else LdrLatch(readings[|readings| - 1], LdrAfter(readings[..|readings| - 1], latched))
  }

  predicate Decisive(reading: int)
  {
    reading < LdrLowerAdc || reading > LdrUpperAdc
  }

  /** Readings inside the band at the end of a run leave the latch where the earlier readings put it. */
  lemma {:induction false} LdrIgnoresBandSuffix(readings: seq<int>, k: nat, latched: bool)
    requires k <= |readings|
    requires forall j :: k <= j < |readings| ==> !Decisive(readings[j])
    ensures LdrAfter(readings, latched) == LdrAfter(readings[..k], latched)
    decreases |readings|
  {
    if |readings| > k {
      var front := readings[..|readings| - 1];
      assert front[..k] == readings[..k];
      LdrIgnoresBandSuffix(front, k, latched);
    } else {
      assert readings[..k] == readings;
    }
  }

  /** The hysteresis: after a run of readings the panel is on exactly when the last reading outside the band
      [600, 850] was above it, or, when every reading stayed inside the band, when it was on before. Readings
      that wander about inside the band never switch it. */
  lemma LdrFollowsLastDecisiveReading(readings: seq<int>, latched: bool)
    ensures (forall i :: 0 <= i < |readings| ==> !Decisive(readings[i])) ==> LdrAfter(readings, latched) == latched
    ensures forall i :: 0 <= i < |readings| && Decisive(readings[i])
                        && (forall j :: i < j < |readings| ==> !Decisive(readings[j]))
                        ==> LdrAfter(readings, latched) == (readings[i] > LdrUpperAdc)
  {
    if forall i :: 0 <= i < |readings| ==> !Decisive(readings[i]) {
      LdrIgnoresBandSuffix(readings, 0, latched);
    }
    forall i | 0 <= i < |readings| && Decisive(readings[i])
               && (forall j :: i < j < |readings| ==> !Decisive(readings[j]))
      ensures LdrAfter(readings, latched) == (readings[i] > LdrUpperAdc)
    {
      LdrIgnoresBandSuffix(readings, i + 1, latched);
      assert readings[..i + 1][..i] == readings[..i];
    }
  }

  /** An encoder-1 press: (mode + 1) % TOTAL_MODES, with C's remainder. */
  function NextDisplayMode(mode: int): (next: int)
    ensures 0 <= mode < TotalModes ==> 0 <= next < TotalModes
    ensures 0 <= mode < TotalModes - 1 ==> next == mode + 1
    ensures mode == TotalModes - 1 ==> next == TextOnly
  {
    CRem(mode + 1, TotalModes)
  }

  function IterateDisplayMode(mode: int, presses: nat): int
  {
    if presses == 0 then mode else NextDisplayMode(IterateDisplayMode(mode, presses - 1))
  }

  /** Adding p to a value below m lands back on it exactly when p is a multiple of m. */
  lemma AddModReturns(v: nat, p: nat, m: nat)
    requires v < m
    ensures (v + p) % m == v <==> p % m == 0
  {
    var q, r := p / m, p % m;
    assert p == q * m + r;
    if v + r < m {
      assert v + p == q * m + (v + r);
      DivModParts(q, v + r, m);
    } else {
      assert v + p == (q + 1) * m + (v + r - m);
      DivModParts(q + 1, v + r - m, m);
    }
  }

  /** Seven presses bring every display mode back to itself, and fewer presses never do. */
  lemma {:induction false} DisplayModeCycles(mode: int, presses: nat)
    requires 0 <= mode < TotalModes
    ensures IterateDisplayMode(mode, presses) == (mode + presses) % TotalModes
    ensures IterateDisplayMode(mode, presses) == mode <==> presses % TotalModes == 0
  {
    if presses > 0 {
      DisplayModeCycles(mode, presses - 1);
      ModSuccessor(mode + presses - 1, TotalModes);
    }
    AddModReturns(mode, presses, TotalModes);
  }

  /** An encoder-2 press: ((mode + 1) % 2) + 10, with C's remainder. */
  function NextTextMode(mode: int): (next: int)
    ensures mode >= -1 ==> next == Mode2A || next == Mode2B
    ensures mode == Mode2A ==> next == Mode2B
    ensures mode == Mode2B ==> next == Mode2A
    ensures next == Mode2A || next == Mode2B || next == Mode2A - 1
  {
    CRem(mode + 1, 2) + 10
  }

  /** Two presses bring the text mode back for any mode the handler can reach; below -1 C's negative
      remainder gives 9. */
  lemma TextModeToggles(mode: int)
    ensures mode == Mode2A || mode == Mode2B ==> NextTextMode(NextTextMode(mode)) == mode
    ensures NextTextMode(-2) == Mode2A - 1
  {
  }

  /** The brightness step: the detent count squared, with the count's sign. */
  function BrightnessAcceleration(detents: int): (step: int)
    ensures detents >= 0 ==> step == detents * detents
    ensures detents < 0 ==> step == -(detents * detents)
  {
    detents * detents * (if detents < 0 then -1 else 1)
  }

  /** The hue step: eight times the detent count cubed. */
  function HueAcceleration(detents: int): int
  {
    8 * detents * detents * detents
  }

  /** The new brightness: constrain(b + step, minBright, maxBright), cast back to uint8_t. */
  function NewBrightness(brightness: Byte, detents: int, minBright: Byte, maxBright: Byte): (b: Byte)
    ensures minBright <= maxBright ==> minBright <= b <= maxBright
    ensures minBright <= brightness + BrightnessAcceleration(detents) <= maxBright ==>
              b == brightness + BrightnessAcceleration(detents)
  {
    ToU8(Constrain(brightness + BrightnessAcceleration(detents), minBright, maxBright))
  }

  /** The new hue: h + 8 d^3 in uint16_t, so it wraps modulo 65536. */
  function NewHue(hue: Word, detents: int): (h: Word)
    ensures (h - hue - HueAcceleration(detents)) % 0x1_0000 == 0
  {
    ToU16(hue + HueAcceleration(detents))
  }

  lemma BrightnessAccelerationMonotone(d1: int, d2: int)
    requires d1 <= d2
    ensures BrightnessAcceleration(d1) <= BrightnessAcceleration(d2)
  {
    if 0 <= d1 {
      MulMonotone(d1, d2, d1);
      MulMonotone(d1, d2, d2);
    } else if d2 < 0 {
      MulMonotone(-d2, -d1, -d2);
      MulMonotone(-d2, -d1, -d1);
    }
  }

  /** Turning the brightness encoder further clockwise never gives a dimmer result. */
  lemma NewBrightnessMonotone(brightness: Byte, d1: int, d2: int, minBright: Byte, maxBright: Byte)
    requires d1 <= d2 && minBright <= maxBright
    ensures NewBrightness(brightness, d1, minBright, maxBright) <= NewBrightness(brightness, d2, minBright, maxBright)
  {
    BrightnessAccelerationMonotone(d1, d2);
  }

  /** Turning the hue encoder back by the same number of detents restores the hue, wrap-around included. */
  lemma HueTurnBack(hue: Word, detents: int)
    ensures NewHue(NewHue(hue, detents), -detents) == hue
  {
    var a := HueAcceleration(detents);
    assert HueAcceleration(-detents) == -a;
  }

  /** The state one enabled pass of the polling loop publishes, given the presses the two encoders accepted
      and the detents they counted. */
  function PollOutcome(s: InputState, ldrEnabled: bool, pressed1: bool, pressed2: bool, detents1: int,
                       detents2: int, minBright: Byte, maxBright: Byte): (r: InputState)
    ensures r.ldrEnabled == ldrEnabled
    ensures r.displayMode == if pressed1 then NextDisplayMode(s.displayMode) else s.displayMode
    ensures r.textMode == if pressed2 then NextTextMode(s.textMode) else s.textMode
    ensures r.brightness == NewBrightness(s.brightness, detents1, minBright, maxBright)
    ensures r.hue == NewHue(s.hue, detents2)
  {
    InputState(NewBrightness(s.brightness, detents1, minBright, maxBright), NewHue(s.hue, detents2),
               if pressed1 then NextDisplayMode(s.displayMode) else s.displayMode,
               if pressed2 then NextTextMode(s.textMode) else s.textMode,
               ldrEnabled)
  }

  /** The ranges the handler keeps: a display mode in [0, 7) and a text mode of 10 or 11 stay there, and the
      brightness stays within [minBright, maxBright]. */
  predicate InRange(s: InputState, minBright: Byte, maxBright: Byte)
  {
    0 <= s.displayMode < TotalModes && (s.textMode == Mode2A || s.textMode == Mode2B)
    && minBright <= s.brightness <= maxBright
  }

  lemma PollKeepsRanges(s: InputState, ldrEnabled: bool, pressed1: bool, pressed2: bool, detents1: int,
                        detents2: int, minBright: Byte, maxBright: Byte)
    requires InRange(s, minBright, maxBright)
    ensures InRange(PollOutcome(s, ldrEnabled, pressed1, pressed2, detents1, detents2, minBright, maxBright),
                    minBright, maxBright)
  {
  }

  class InputHandler {
    const encoder1: RotaryEncoder
    const encoder2: RotaryEncoder
    const minBright: Byte
    const maxBright: Byte
    const minHue: Word
    const maxHue: Word
    const pollingIntervalMS: int
    var brightness: Byte
    var hue: Word
    var displayMode: int
    var textMode: int
    var ldrEnabled: bool
    var ldrValue: int
    var pollingEnabled: bool

    ghost predicate Valid()
    {
      encoder1 != encoder2
    }

    /** getState: the five published values, read together. */
    function GetState(): (s: InputState)
      reads this
      ensures s.brightness == brightness && s.hue == hue && s.displayMode == displayMode
      ensures s.textMode == textMode && s.ldrEnabled == ldrEnabled
    {
      InputState(brightness, hue, displayMode, textMode, ldrEnabled)
    }

    /** InputHandler(...): store the limits and the starting values, create both encoders with the glitch
        time clamped to [0, 12], clear whatever they counted or latched, and leave polling paused. The
        switch levels and millis() the two clearing reads see are parameters. */
    constructor(units: PcntUnits, pollingIntervalMS: int, minBright: Byte, maxBright: Byte, minHue: Word,
                maxHue: Word, glitchFilterTimeMicroS: I16, switchDebounceTimeMS: I16, startingDisplayMode: int,
                startingTextMode: int, startingBrightness: Byte, startingHue: Word,
                switchLevel1: int, switchLevel2: int, now: int)
      modifies units
      ensures Valid() && fresh(encoder1) && fresh(encoder2)
      ensures GetState() == InputState(startingBrightness, startingHue, startingDisplayMode, startingTextMode, true)
      ensures !pollingEnabled && ldrValue == LdrUnread
      ensures this.minBright == minBright && this.maxBright == maxBright
      ensures this.minHue == minHue && this.maxHue == maxHue && this.pollingIntervalMS == pollingIntervalMS
      ensures encoder1.detentCount == 0 && encoder2.detentCount == 0
      ensures !encoder1.switchPressed && !encoder2.switchPressed
      ensures old(units.instanceCount) < units.unitMax ==>
                encoder1.glitchFilterTimeMicroS == Constrain(glitchFilterTimeMicroS, 0, MaxGlitchTime)
                && encoder1.pcntUnit != encoder2.pcntUnit
                && encoder1.filterValue == FilterValue(glitchFilterTimeMicroS)
      ensures old(units.instanceCount) + 1 < units.unitMax ==>
                encoder2.filterValue == FilterValue(glitchFilterTimeMicroS)
    {
      var glitch := Constrain(glitchFilterTimeMicroS, 0, MaxGlitchTime);
      FilterValueAsWrittenAgreesInRange(glitch);
      var e1 := new RotaryEncoder(units, glitch, switchDebounceTimeMS);
      var e2 := new RotaryEncoder(units, glitch, switchDebounceTimeMS);
      pollingEnabled := false;
      this.minBright := minBright;
      this.maxBright := maxBright;
      this.minHue := minHue;
      this.maxHue := maxHue;
      this.pollingIntervalMS := pollingIntervalMS;
      brightness := startingBrightness;
      hue := startingHue;
      displayMode := startingDisplayMode;
      textMode := startingTextMode;
      ldrEnabled := true;
      ldrValue := LdrUnread;
      encoder1 := e1;
      encoder2 := e2;
      new;
      var _ := e1.GetDetentCountAndReset();
      var _ := e2.GetDetentCountAndReset();
      var _ := e1.GetDebouncedSwitchStateAndReset(switchLevel1, now);
      var _ := e2.GetDebouncedSwitchStateAndReset(switchLevel2, now);
      Pause();
    }

    method Pause()
      modifies this
      ensures !pollingEnabled && GetState() == old(GetState()) && ldrValue == old(ldrValue)
    {
      pollingEnabled := false;
    }

    method Resume()
      modifies this
      ensures pollingEnabled && GetState() == old(GetState()) && ldrValue == old(ldrValue)
    {
      pollingEnabled := true;
    }

    /** calcLDREnable: store the reading and update the latch; return the latched state. */
    method CalcLdrEnable(reading: int) returns (enabled: bool)
      modifies this
      ensures ldrValue == reading && ldrEnabled == LdrLatch(reading, old(ldrEnabled)) && enabled == ldrEnabled
      ensures brightness == old(brightness) && hue == old(hue)
      ensures displayMode == old(displayMode) && textMode == old(textMode)
      ensures pollingEnabled == old(pollingEnabled)
    {
      ldrValue := reading;
      if ldrValue < LdrLowerAdc {
        ldrEnabled := false;
      } else if ldrValue > LdrUpperAdc {
        ldrEnabled := true;
      }
      enabled := ldrEnabled;
    }

    /** One pass of pollingTask's loop. With polling enabled it takes both switch latches and both detent
        counts and publishes the outcome; with polling paused it changes nothing. */
    method Poll(inputs: PollInputs)
      requires Valid()
      modifies this, encoder1, encoder2
      ensures pollingEnabled == old(pollingEnabled)
      ensures !old(pollingEnabled) ==> GetState() == old(GetState()) && ldrValue == old(ldrValue)
      ensures !old(pollingEnabled) ==> unchanged(encoder1) && unchanged(encoder2)
      ensures old(pollingEnabled) ==>
                var pressed1 := Debounce(old(encoder1.switchPressed), inputs.switchLevel1, inputs.millis1,
                                         old(encoder1.lastSwitchPressTime), encoder1.switchDebounceTimeMS);
                var pressed2 := Debounce(old(encoder2.switchPressed), inputs.switchLevel2, inputs.millis2,
                                         old(encoder2.lastSwitchPressTime), encoder2.switchDebounceTimeMS);
                GetState() == PollOutcome(old(GetState()), LdrLatch(inputs.ldrReading, old(ldrEnabled)),
                                          pressed1.accepted, pressed2.accepted,
                                          old(encoder1.detentCount), old(encoder2.detentCount), minBright, maxBright)
                && ldrValue == inputs.ldrReading
                && encoder1.lastSwitchPressTime == pressed1.lastPress
                && encoder2.lastSwitchPressTime == pressed2.lastPress
      ensures old(pollingEnabled) ==>
                encoder1.detentCount == 0 && encoder2.detentCount == 0
                && !encoder1.switchPressed && !encoder2.switchPressed
      ensures encoder1.counterRunning == old(encoder1.counterRunning) && encoder1.switchArmed == old(encoder1.switchArmed)
      ensures encoder2.counterRunning == old(encoder2.counterRunning) && encoder2.switchArmed == old(encoder2.switchArmed)
    {
      if pollingEnabled {
        var s := GetState();
        var tempLdrEnable := CalcLdrEnable(inputs.ldrReading);
        var pressed1, pressed2 := TakePresses(inputs);
        var dCount1, dCount2 := TakeDetents();
        Publish(s, tempLdrEnable, pressed1, pressed2, dCount1, dCount2);
      }
    }

    /** The rest of a poll: step the modes for accepted presses, accelerate and bound the brightness, wrap the
        hue, and store all five values. */
    method Publish(s: InputState, tempLdrEnable: bool, pressed1: bool, pressed2: bool, dCount1: int, dCount2: int)
      modifies this
      ensures GetState() == PollOutcome(s, tempLdrEnable, pressed1, pressed2, dCount1, dCount2, minBright, maxBright)
      ensures ldrValue == old(ldrValue) && pollingEnabled == old(pollingEnabled)
    {
      var tempBright, tempHue, tempDisplayMode, tempTextMode := s.brightness, s.hue, s.displayMode, s.textMode;
      if pressed1 {
        tempDisplayMode := CRem(tempDisplayMode + 1, TotalModes);
      }
      if pressed2 {
        tempTextMode := CRem(tempTextMode + 1, 2) + 10;
      }
      var accel1 := dCount1 * dCount1 * (if dCount1 < 0 then -1 else 1);
      var accel2 := 8 * dCount2 * dCount2 * dCount2;
      var b := tempBright + accel1;
      var h := ToU16(tempHue + accel2);
      b := Constrain(b, minBright, maxBright);
      tempBright := ToU8(b);
      tempHue := h;
      brightness := tempBright;
      hue := tempHue;
      displayMode := tempDisplayMode;
      textMode := tempTextMode;
      ldrEnabled := tempLdrEnable;
    }

    /** The two switch reads of a poll: encoder 1's latch debounced, then encoder 2's. */
    method TakePresses(inputs: PollInputs) returns (pressed1: bool, pressed2: bool)
      requires Valid()
      modifies encoder1, encoder2
      ensures var d := Debounce(old(encoder1.switchPressed), inputs.switchLevel1, inputs.millis1,
                                old(encoder1.lastSwitchPressTime), encoder1.switchDebounceTimeMS);
              pressed1 == d.accepted && encoder1.lastSwitchPressTime == d.lastPress
      ensures var d := Debounce(old(encoder2.switchPressed), inputs.switchLevel2, inputs.millis2,
                                old(encoder2.lastSwitchPressTime), encoder2.switchDebounceTimeMS);
              pressed2 == d.accepted && encoder2.lastSwitchPressTime == d.lastPress
      ensures !encoder1.switchPressed && !encoder2.switchPressed
      ensures encoder1.detentCount == old(encoder1.detentCount) && encoder2.detentCount == old(encoder2.detentCount)
      ensures encoder1.counterRunning == old(encoder1.counterRunning) && encoder1.switchArmed == old(encoder1.switchArmed)
      ensures encoder2.counterRunning == old(encoder2.counterRunning) && encoder2.switchArmed == old(encoder2.switchArmed)
    {
      pressed1 := encoder1.GetDebouncedSwitchStateAndReset(inputs.switchLevel1, inputs.millis1);
      pressed2 := encoder2.GetDebouncedSwitchStateAndReset(inputs.switchLevel2, inputs.millis2);
    }

    /** The two detent reads of a poll: each encoder's count, left at 0. */
    method TakeDetents() returns (detents1: int, detents2: int)
      requires Valid()
      modifies encoder1, encoder2
      ensures detents1 == old(encoder1.detentCount) && detents2 == old(encoder2.detentCount)
      ensures encoder1.detentCount == 0 && encoder2.detentCount == 0
      ensures encoder1.switchPressed == old(encoder1.switchPressed) && encoder2.switchPressed == old(encoder2.switchPressed)
      ensures encoder1.lastSwitchPressTime == old(encoder1.lastSwitchPressTime)
      ensures encoder2.lastSwitchPressTime == old(encoder2.lastSwitchPressTime)
      ensures encoder1.counterRunning == old(encoder1.counterRunning) && encoder1.switchArmed == old(encoder1.switchArmed)
      ensures encoder2.counterRunning == old(encoder2.counterRunning) && encoder2.switchArmed == old(encoder2.switchArmed)
    {
      detents1 := encoder1.GetDetentCountAndReset();
      detents2 := encoder2.GetDetentCountAndReset();
    }
  }
}
