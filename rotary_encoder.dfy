/** A quadrature rotary encoder with a push switch (src/RotaryEncoder.h, src/RotaryEncoder.cpp). The ESP32's
    pulse counter raises an interrupt when its raw count reaches +4 or -4; the interrupt handler turns that
    count into one detent step. The switch interrupt latches a press; the poller takes the latch and
    debounces it against the time of the last accepted press. The raw count the handler reads, the switch
    pin's level and millis() are parameters. */
module Encoder {
  import opened Arduino

  /** MAX_GLITCH_TIME: the longest glitch filter the constructor keeps, in microseconds. */
  const MaxGlitchTime := 12
  /** The largest value the pulse counter's filter register holds, in APB clock cycles. */
  const MaxFilterValue := 1023
  /** APB clock cycles (80 MHz) per microsecond of glitch filter. */
  const CyclesPerMicrosecond := 80
  /** The raw count at which the counter interrupts: one detent in either direction. */
  const CountsPerDetent := 4
  /** DEFAULT_HIGH_LOW_LIMIT, the counter's limits: the int16_t maximum halved. */
  const CountLimit := 0x7FFF / 2

  /** incrementDetentCounter: +1 for a raw count of at least 4, -1 for at most -4, nothing in between. */
  function DetentStep(count: I16): (step: int)
    ensures -1 <= step <= 1
    ensures step == 1 <==> count >= CountsPerDetent
    ensures step == -1 <==> count <= -CountsPerDetent
  {
    if count >= CountsPerDetent then 1 else if count <= -CountsPerDetent then -1 else 0
  }

  /** What a run of detent interrupts adds to the detent count. */
  function DetentTotal(counts: seq<I16>): int
  {
    if counts == [] then 0 else DetentTotal(counts[..|counts| - 1]) + DetentStep(counts[|counts| - 1])
  }

  /** Each interrupt moves the count by at most one detent; a run of clockwise interrupts adds one each. */
  lemma {:induction false} DetentTotalBounded(counts: seq<I16>)
    ensures -|counts| <= DetentTotal(counts) <= |counts|
    ensures (forall i :: 0 <= i < |counts| ==> counts[i] >= CountsPerDetent) ==> DetentTotal(counts) == |counts|
    ensures (forall i :: 0 <= i < |counts| ==> counts[i] <= -CountsPerDetent) ==> DetentTotal(counts) == -|counts|
  {
    if counts != [] {
      DetentTotalBounded(counts[..|counts| - 1]);
    }
  }

  /** The count the interrupts of two runs add up is the sum of what each adds. */
  lemma {:induction false} DetentTotalAppend(first: seq<I16>, second: seq<I16>)
    ensures DetentTotal(first + second) == DetentTotal(first) + DetentTotal(second)
  {
    if second != [] {
      var last := |second| - 1;
      assert (first + second)[..|first + second| - 1] == first + second[..last];
      DetentTotalAppend(first, second[..last]);
    } else {
      assert first + second == first;
    }
  }

  /** The outcome of one getDebouncedSwitchStateAndReset: whether the press counts, and the new time of the
      last accepted press. */
  datatype Debounced = Debounced(accepted: bool, lastPress: int)

  /** getDebouncedSwitchStateAndReset's decision from the latch it took, the switch pin's level, millis() and
      the time of the last accepted press. */
  function Debounce(latched: bool, level: int, now: int, lastPress: int, debounceMs: int): (d: Debounced)
    ensures d.accepted <==> latched && level == 0 && now - lastPress >= debounceMs
    ensures d.lastPress == if d.accepted then now else lastPress
  {
    if !latched then Debounced(false, lastPress)
    else if level != 0 then Debounced(false, lastPress)
    else if now - lastPress >= debounceMs then Debounced(true, now)
    else Debounced(false, lastPress)
  }

  /** What one poll of the switch sees: whether the interrupt latched a press, the pin level and millis(). */
  datatype SwitchPoll = SwitchPoll(latched: bool, level: int, now: int)

  /** The times of the presses a run of polls accepts, in order. */
  function AcceptedTimes(polls: seq<SwitchPoll>, lastPress: int, debounceMs: int): seq<int>
  {
    if polls == [] then []
    else
      var d := Debounce(polls[0].latched, polls[0].level, polls[0].now, lastPress, debounceMs);
      (if d.accepted then [polls[0].now] else []) + AcceptedTimes(polls[1..], d.lastPress, debounceMs)
  }

  /** Debouncing works: accepted presses are at least the debounce time apart, and the first is at least the
      debounce time after the last press accepted before the run. */
  lemma {:induction false} AcceptedPressesSpaced(polls: seq<SwitchPoll>, lastPress: int, debounceMs: int)
    ensures var times := AcceptedTimes(polls, lastPress, debounceMs);
            (|times| > 0 ==> times[0] - lastPress >= debounceMs)
            && forall i :: 0 < i < |times| ==> times[i] - times[i - 1] >= debounceMs
  {
    if polls != [] {
      var d := Debounce(polls[0].latched, polls[0].level, polls[0].now, lastPress, debounceMs);
      AcceptedPressesSpaced(polls[1..], d.lastPress, debounceMs);
      var rest := AcceptedTimes(polls[1..], d.lastPress, debounceMs);
      if d.accepted {
        var times := [polls[0].now] + rest;
        assert times == AcceptedTimes(polls, lastPress, debounceMs);
        forall i | 0 < i < |times|
          ensures times[i] - times[i - 1] >= debounceMs
        {
          if i > 1 {
            assert times[i] == rest[i - 1] && times[i - 1] == rest[i - 2];
          }
        }
      } else {
        assert AcceptedTimes(polls, lastPress, debounceMs) == rest;
      }
    }
  }

  /** The filter value the constructor programs as written: 80 times the glitch time it was passed (not the
      clamped one it stores), converted to uint16_t, then capped at 1023. */
  function FilterValueAsWritten(glitchFilterTimeMicroS: I16): (v: int)
    ensures 0 <= v <= MaxFilterValue
  {
    var cycles := ToU16(CyclesPerMicrosecond * glitchFilterTimeMicroS);
    if cycles > MaxFilterValue then MaxFilterValue else cycles
  }

  /** The filter value computed from the clamped glitch time, as the comment on the clamp intends. */
  function FilterValue(glitchFilterTimeMicroS: I16): (v: int)
    ensures 0 <= v <= MaxFilterValue
  {
    var cycles := CyclesPerMicrosecond * Constrain(glitchFilterTimeMicroS, 0, MaxGlitchTime);
    if cycles > MaxFilterValue then MaxFilterValue else cycles
  }

  /** The corrected filter is exactly 80 cycles per microsecond of the stored glitch time: the cap is never
      needed, and a longer requested glitch time never gives a shorter filter. */
  lemma FilterValueFollowsStoredTime(g1: I16, g2: I16)
    ensures FilterValue(g1) == CyclesPerMicrosecond * Constrain(g1, 0, MaxGlitchTime) <= 960
    ensures g1 <= g2 ==> FilterValue(g1) <= FilterValue(g2)
  {
  }

  /** The filter as written is not monotone: 819 us gives the cap, 820 us wraps past 65535 to 64 cycles, and
      -1 us gives the cap where the stored glitch time is 0. */
  lemma FilterValueAsWrittenWraps()
    ensures FilterValueAsWritten(819) == MaxFilterValue && FilterValueAsWritten(820) == 64
    ensures FilterValueAsWritten(-1) == MaxFilterValue && Constrain(-1, 0, MaxGlitchTime) == 0
    ensures FilterValue(820) == 960 && FilterValue(-1) == 0
  {
  }

  /** On glitch times the clamp leaves alone (the only ones the input handler passes) the two agree. */
  lemma FilterValueAsWrittenAgreesInRange(g: I16)
    requires 0 <= g <= MaxGlitchTime
    ensures FilterValueAsWritten(g) == FilterValue(g)
  {
  }

  /** The static instanceCount that hands out pulse-counter units, with PCNT_UNIT_MAX, the number of units. */
  class PcntUnits {
    const unitMax: nat
    var instanceCount: int

    constructor(unitMax: nat)
      ensures this.unitMax == unitMax && instanceCount == 0
    {
      this.unitMax := unitMax;
      instanceCount := 0;
    }
  }

  class RotaryEncoder {
    /** The pulse-counter unit; unitMax marks an encoder constructed after the units ran out. */
    const pcntUnit: int
    const glitchFilterTimeMicroS: I16
    const switchDebounceTimeMS: I16
    const lowLimit: I16
    const highLimit: I16
    /** The value programmed into the pulse counter's glitch filter, computed as the source does from the
        argument rather than from the clamped glitch time. */
    const filterValue: int
    var lastSwitchPressTime: int
    var detentCount: int
    var switchPressed: bool
    /** Whether the pulse counter is counting (enableCounter) and the switch interrupt is attached
        (enableSwitch). */
    var counterRunning: bool
    var switchArmed: bool

    /** RotaryEncoder(glitchFilterTimeMicroS, switchDebounceTimeMS, pins): takes the next pulse-counter unit,
        or, when they have run out, the invalid unit and nothing else. The detent count and the latch are not
        initialised. */
    constructor(units: PcntUnits, glitchFilterTimeMicroS: I16, switchDebounceTimeMS: I16)
      modifies units
      ensures old(units.instanceCount) >= units.unitMax ==>
                pcntUnit == units.unitMax && units.instanceCount == old(units.instanceCount)
      ensures old(units.instanceCount) < units.unitMax ==>
                pcntUnit == old(units.instanceCount) && units.instanceCount == old(units.instanceCount) + 1
      ensures old(units.instanceCount) < units.unitMax ==>
                this.glitchFilterTimeMicroS == Constrain(glitchFilterTimeMicroS, 0, MaxGlitchTime)
                && this.switchDebounceTimeMS == switchDebounceTimeMS && lastSwitchPressTime == 0
                && lowLimit == -CountLimit && highLimit == CountLimit
                && filterValue == FilterValueAsWritten(glitchFilterTimeMicroS)
                && counterRunning && switchArmed
    {
      if units.instanceCount >= units.unitMax {
        pcntUnit := units.unitMax;
      } else {
        pcntUnit := units.instanceCount;
        this.glitchFilterTimeMicroS := Constrain(glitchFilterTimeMicroS, 0, MaxGlitchTime);
        this.switchDebounceTimeMS := switchDebounceTimeMS;
        lastSwitchPressTime := 0;
        lowLimit := -CountLimit;
        highLimit := CountLimit;
        filterValue := FilterValueAsWritten(glitchFilterTimeMicroS);
        counterRunning := true;
        switchArmed := true;
      }
      new;
      if units.instanceCount < units.unitMax {
        units.instanceCount := units.instanceCount + 1;
      }
    }

    /** incrementDetentCounter, run by the detent interrupt with the raw count it reads. */
    method IncrementDetentCounter(count: I16)
      modifies this
      ensures detentCount == old(detentCount) + DetentStep(count)
      ensures switchPressed == old(switchPressed) && lastSwitchPressTime == old(lastSwitchPressTime)
      ensures counterRunning == old(counterRunning) && switchArmed == old(switchArmed)
    {
      if count >= CountsPerDetent {
        detentCount := detentCount + 1;
      } else if count <= -CountsPerDetent {
        detentCount := detentCount - 1;
      }
    }

    /** isrSwitchHandler: latch a press only when the pin reads low. */
    method IsrSwitchHandler(level: int)
      modifies this
      ensures switchPressed == (old(switchPressed) || level == 0)
      ensures detentCount == old(detentCount) && lastSwitchPressTime == old(lastSwitchPressTime)
      ensures counterRunning == old(counterRunning) && switchArmed == old(switchArmed)
    {
      if level != 0 {
        return;
      }
      switchPressed := true;
    }

    /** getDetentCountAndReset: hand over the detents counted since the last call and start again at 0. */
    method GetDetentCountAndReset() returns (count: int)
      modifies this
      ensures count == old(detentCount) && detentCount == 0
      ensures switchPressed == old(switchPressed) && lastSwitchPressTime == old(lastSwitchPressTime)
      ensures counterRunning == old(counterRunning) && switchArmed == old(switchArmed)
    {
      count := detentCount;
      detentCount := 0;
    }

    /** getDebouncedSwitchStateAndReset, with the pin level and millis() it reads as parameters. */
    method GetDebouncedSwitchStateAndReset(level: int, now: int) returns (pressed: bool)
      modifies this
      ensures var d := Debounce(old(switchPressed), level, now, old(lastSwitchPressTime), switchDebounceTimeMS);
              pressed == d.accepted && lastSwitchPressTime == d.lastPress
      ensures !switchPressed && detentCount == old(detentCount)
      ensures counterRunning == old(counterRunning) && switchArmed == old(switchArmed)
    {
      var currentSwitchState := switchPressed;
      switchPressed := false;
      if !currentSwitchState {
        return false;
      }
      if level != 0 {
        return false;
      }
      var currentTime := now;
      if currentTime - lastSwitchPressTime >= switchDebounceTimeMS {
        lastSwitchPressTime := currentTime;
      } else {
        currentSwitchState := false;
      }
      pressed := currentSwitchState;
    }

    /** enableCounter: resume or pause the pulse counter; either way the detent count restarts at 0. */
    method EnableCounter(enable: bool)
      modifies this
      ensures counterRunning == enable && detentCount == 0
      ensures switchPressed == old(switchPressed) && lastSwitchPressTime == old(lastSwitchPressTime)
      ensures switchArmed == old(switchArmed)
    {
      counterRunning := enable;
      detentCount := 0;
    }

    /** enableSwitch: attach or detach the switch interrupt; either way the latch is cleared and the time of
        the last accepted press goes back to 0. */
    method EnableSwitch(enable: bool)
      modifies this
      ensures switchArmed == enable && !switchPressed && lastSwitchPressTime == 0
      ensures detentCount == old(detentCount) && counterRunning == old(counterRunning)
    {
      switchArmed := enable;
      switchPressed := false;
      lastSwitchPressTime := 0;
    }
  }
}
