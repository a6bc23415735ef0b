/** MatrixDriver: the settings the main loop writes (enable, FPS, brightness, text and background switches,
    the current matrix), the two text slots, and one pass of the update task's loop, which turns them into
    calls on the panel. */
module Driver {
  import opened Colour
  import opened Arduino
  import opened MatrixBase
  import opened PanelSink
  import opened TextBuffers
  import opened Patterns

  datatype Option<T> = None | Some(value: T)

  const MaxFps := 120

  /** setFPS and the constructor: constrain the FPS to [1, MAX_FPS] and store 1000 / fps milliseconds. */
  function IntervalForFps(fps: int): (ms: int)
    ensures 8 <= ms <= 1000
    ensures ms * Constrain(fps, 1, MaxFps) <= 1000 < (ms + 1) * Constrain(fps, 1, MaxFps)
  {
    var rate := Constrain(fps, 1, MaxFps);
    DivisionBounds(1000, rate);
    1000 / rate
  }

  lemma DivisionBounds(n: nat, d: int)
    requires 0 < d
    ensures (n / d) * d <= n < (n / d + 1) * d
  {
  }

  /** A higher frame rate never gives a longer frame interval. */
  lemma {:induction false} IntervalForFpsAntitone(fps1: int, fps2: int)
    requires fps1 <= fps2
    ensures IntervalForFps(fps2) <= IntervalForFps(fps1)
  {
    var r1, r2 := Constrain(fps1, 1, MaxFps), Constrain(fps2, 1, MaxFps);
    var q1, q2 := IntervalForFps(fps1), IntervalForFps(fps2);
    if q2 > q1 {
      MulMonotone(q1 + 1, q2, r1);
      MulMonotone(r1, r2, q2);
      assert false;
    }
  }

  /** The task's effective period: never flip faster than the panel refreshes (1000 / refresh rate ms) and
      never update slower than the requested frame interval. */
  function EffectivePeriod(intervalMs: int, refreshRate: int): (period: int)
    requires refreshRate > 0
    ensures period >= intervalMs && period >= 1000 / refreshRate
    ensures period == intervalMs || period == 1000 / refreshRate
  {
    var minSwapPeriod := 1000 / refreshRate;
    if minSwapPeriod > intervalMs then minSwapPeriod else intervalMs
  }

  /** The calls drawCellsToPanel makes: every cell, column by column, in its current colour. */
  ghost function CellDraws(m: Matrix): seq<Event>
    reads m, m.bufferPrimary
    requires m.Valid()
  {
    var grid := m.bufferPrimary;
    seq(Width * Height, k requires 0 <= k < Width * Height reads grid =>
      DrawPixel(k / Height, k % Height, grid[k / Height, k % Height]))
  }

  /** Every cell of the 64x32 grid is drawn exactly once, in its colour, and nothing else is drawn. */
  lemma CellDrawsCoverGrid(m: Matrix)
    requires m.Valid()
    ensures |CellDraws(m)| == Width * Height
    ensures forall x, y :: InGrid(x, y) ==> CellDraws(m)[x * Height + y] == DrawPixel(x, y, m.bufferPrimary[x, y])
    ensures forall k :: 0 <= k < |CellDraws(m)| ==>
              CellDraws(m)[k].DrawPixel? && InGrid(CellDraws(m)[k].x, CellDraws(m)[k].y)
              && CellDraws(m)[k].colour == m.bufferPrimary[CellDraws(m)[k].x, CellDraws(m)[k].y]
    ensures forall j, k :: 0 <= j < k < |CellDraws(m)| ==>
              (CellDraws(m)[j].x, CellDraws(m)[j].y) != (CellDraws(m)[k].x, CellDraws(m)[k].y)
  {
    var draws := CellDraws(m);
    forall x, y | InGrid(x, y)
      ensures draws[x * Height + y] == DrawPixel(x, y, m.bufferPrimary[x, y])
    {
      DivModParts(x, y, Height);
    }
    forall j, k | 0 <= j < k < |draws|
      ensures (draws[j].x, draws[j].y) != (draws[k].x, draws[k].y)
    {
      assert j == (j / Height) * Height + j % Height;
      assert k == (k / Height) * Height + k % Height;
    }
  }

  /** What the main loop writes and the update task only reads. */
  datatype Settings = Settings(
    enabled: bool, textEnabled: bool, backgroundEnabled: bool, panelBrightness: Byte,
    updateIntervalMS: int, fpsChanged: bool, matrixCurrent: Option<Pattern>)

  /** The outside world one pass of the update task sees: whether the sensor has a new reading and its two
      strings, whether each 100 ms text-mutex wait succeeds (in setTemperatureText, setHumidityText and
      drawAllTextToPanel), and the random draws of the pattern's next generation. */
  datatype StepInputs = StepInputs(
    sensorChanged: bool, temperatureText: string, humidityText: string,
    setTemperatureLock: bool, setHumidityLock: bool,
    drawTemperatureLock: bool, drawHumidityLock: bool,
    draws: Draws)

  /** The width and height getTextWidth / getTextHeight report for a slot's widest text, as the panel measures it. */
  datatype TextExtent = TextExtent(width: Word, height: Word)

  /** A null font argument selects DEFAULT_FONT. */
  function FontOrDefault(font: Option<Font>): Font
  {
    if font.Some? then font.value else DefaultFont
  }

  class MatrixDriver {
    const panel: Panel
    const temperature: TextSlot
    const humidity: TextSlot
    var enabled: bool
    var textEnabled: bool
    var backgroundEnabled: bool
    var panelBrightness: Byte
    var updateIntervalMS: int
    var fpsChanged: bool
    var matrixCurrent: Option<Pattern>
    // the update task's locals, which live across the passes of its loop
    var wasEnabled: bool
    var effectivePeriod: int
    ghost var Repr: set<object>

    ghost function Own(): set<object>
    {
      {this, temperature, humidity, temperature.buffer, humidity.buffer}
    }

    ghost predicate Valid()
      reads this, Repr
    {
      this in Repr && Own() <= Repr && panel !in Repr
      && temperature != humidity && temperature.buffer != humidity.buffer
      && temperature.Valid() && humidity.Valid()
      && panel.refreshRate > 0
      && 8 <= updateIntervalMS <= 1000
      && (matrixCurrent.Some? ==>
            matrixCurrent.value.Objects() <= Repr && matrixCurrent.value.Repr() <= Repr
            && matrixCurrent.value.Valid() && Own() !! matrixCurrent.value.Repr()
            && panel !in matrixCurrent.value.Repr())
    }

    function CurrentSettings(): Settings
      reads this
    {
      Settings(enabled, textEnabled, backgroundEnabled, panelBrightness, updateIntervalMS, fpsChanged, matrixCurrent)
    }

    /** The calls drawAllTextToPanel makes: each slot whose mutex was taken is drawn. */
    ghost function TextDraws(drawTemperature: bool, drawHumidity: bool): seq<Event>
      reads temperature, humidity, temperature.buffer, humidity.buffer
      requires temperature.Valid() && humidity.Valid()
    {
      (if drawTemperature then temperature.DrawEvents() else [])
      + (if drawHumidity then humidity.DrawEvents() else [])
    }

    /** Steps 4 to 7 of a running pass: flip (double-buffered only), wait for the frame, clear, and restore the
        brightness if the panel's differs. */
    ghost function PrepareCalls(fixBrightness: bool): seq<Event>
      reads this
    {
      FrameHead(panel.doubleBuffered, effectivePeriod) + FixCalls(fixBrightness)
    }

    ghost function FixCalls(fixBrightness: bool): seq<Event>
      reads this
    {
      if fixBrightness then [SetBrightness(panelBrightness)] else []
    }

    /** Steps 9 and 10: the new generation and its cells, when background drawing is on. */
    ghost function BackgroundCalls(m: Matrix): seq<Event>
      reads this, m, m.bufferPrimary
      requires m.Valid()
    {
      if backgroundEnabled then [CalcNewStates] + CellDraws(m) else []
    }

    /** MatrixDriver(fps, panel, matrix, sensor, fonts, colours): store the panel and the matrix, brightness
        255 (also sent to the panel), text and background drawing on, the constrained FPS with the timing
        flagged for recalculation; then, through the setters, each slot's font (a null font is DEFAULT_FONT),
        which anchors it, its colour and the empty text; finally the task is created and paused. */
    constructor(fps: int, panel: Panel, matrix: Option<Pattern>,
                temperatureFont: Option<Font>, humidityFont: Option<Font>,
                temperatureColour: Word, humidityColour: Word,
                temperatureExtent: TextExtent, humidityExtent: TextExtent)
      requires panel.refreshRate > 0
      requires matrix.Some? ==> matrix.value.Valid() && panel !in matrix.value.Repr()
      modifies panel
      ensures Valid() && fresh(temperature) && fresh(humidity)
      ensures CurrentSettings() == Settings(false, true, true, 255, IntervalForFps(fps), true, matrix)
      ensures !wasEnabled
      ensures panel.brightness == 255
      ensures panel.calls == old(panel.calls) + [SetBrightness(255), SetFont(FontOrDefault(temperatureFont)),
                                                 SetFont(FontOrDefault(humidityFont))]
      ensures temperature.Text() == "" && humidity.Text() == ""
      ensures temperature.font == FontOrDefault(temperatureFont) && temperature.colour == temperatureColour
      ensures temperature.x == CentredX(temperatureExtent.width) && temperature.y == CentredY(temperatureExtent.height)
      ensures humidity.font == FontOrDefault(humidityFont) && humidity.colour == humidityColour
      ensures humidity.x == CentredX(humidityExtent.width) && humidity.y == BottomY(humidityExtent.height)
      ensures temperature.xOffset == 0 && temperature.yOffset == 0 && humidity.xOffset == 0 && humidity.yOffset == 0
    {
      if matrix.Some? {
        matrix.value.ValidBase();
      }
      var t := new TextSlot();
      var h := new TextSlot();
      this.panel := panel;
      matrixCurrent := None;
      panelBrightness := 255;
      enabled := false;
      textEnabled := true;
      backgroundEnabled := true;
      updateIntervalMS := IntervalForFps(fps);
      fpsChanged := true;
      wasEnabled := false;
      effectivePeriod := 0;
      temperature := t;
      humidity := h;
      new;
      Repr := Own();
      // Storing the matrix pointer is the update setMatrix makes; a null one leaves no matrix.
      if matrix.Some? {
        ValidWhileUntouched(matrix.value);
      }
      SetMatrix(matrix);
      Start(FontOrDefault(temperatureFont), FontOrDefault(humidityFont), temperatureColour, humidityColour,
            temperatureExtent, humidityExtent);
    }

    /** The rest of the constructor once the fields are stored: send the brightness to the panel; for each
        slot, setXFont, setXFontColor and setXText(""), each under a freshly created (so uncontended) mutex;
        then pause the newly created task. */
    method Start(temperatureFont: Font, humidityFont: Font, temperatureColour: Word, humidityColour: Word,
                 temperatureExtent: TextExtent, humidityExtent: TextExtent)
      requires Valid()
      modifies this, temperature, humidity, temperature.buffer, humidity.buffer, panel
      ensures Valid() && Repr == old(Repr)
      ensures CurrentSettings() == old(CurrentSettings()).(enabled := false)
      ensures wasEnabled == old(wasEnabled)
      ensures panel.calls
              == old(panel.calls) + [SetBrightness(panelBrightness), SetFont(temperatureFont), SetFont(humidityFont)]
      ensures panel.brightness == panelBrightness
      ensures temperature.Text() == "" && humidity.Text() == ""
      ensures temperature.font == temperatureFont && temperature.colour == temperatureColour
      ensures temperature.x == CentredX(temperatureExtent.width) && temperature.y == CentredY(temperatureExtent.height)
      ensures humidity.font == humidityFont && humidity.colour == humidityColour
      ensures humidity.x == CentredX(humidityExtent.width) && humidity.y == BottomY(humidityExtent.height)
      ensures temperature.xOffset == old(temperature.xOffset) && temperature.yOffset == old(temperature.yOffset)
      ensures humidity.xOffset == old(humidity.xOffset) && humidity.yOffset == old(humidity.yOffset)
    {
      panel.Record(SetBrightness(panelBrightness));
      SetTemperatureFont(temperatureFont, temperatureExtent, true);
      SetTemperatureFontColour(temperatureColour, true);
      SetTemperatureText("", true);
      SetHumidityFont(humidityFont, humidityExtent, true);
      SetHumidityFontColour(humidityColour, true);
      SetHumidityText("", true);
      Pause();
    }

    /** setFPS: store the interval for the constrained FPS and flag the task to recalculate its timing. */
    method SetFps(fps: int)
      requires Valid()
      modifies this
      ensures Valid() && Repr == old(Repr)
      ensures CurrentSettings() == old(CurrentSettings()).(updateIntervalMS := IntervalForFps(fps), fpsChanged := true)
      ensures wasEnabled == old(wasEnabled) && effectivePeriod == old(effectivePeriod)
    {
      updateIntervalMS := IntervalForFps(fps);
      fpsChanged := true;
    }

    /** setPanelBrightness: only stored; the update task applies it to the panel. */
    method SetPanelBrightness(brightness: Byte)
      requires Valid()
      modifies this
      ensures Valid() && Repr == old(Repr)
      ensures CurrentSettings() == old(CurrentSettings()).(panelBrightness := brightness)
      ensures wasEnabled == old(wasEnabled) && effectivePeriod == old(effectivePeriod)
    {
      panelBrightness := brightness;
    }

    /** enableTextDrawing. */
    method EnableTextDrawing(enable: bool)
      requires Valid()
      modifies this
      ensures Valid() && Repr == old(Repr)
      ensures CurrentSettings() == old(CurrentSettings()).(textEnabled := enable)
      ensures wasEnabled == old(wasEnabled) && effectivePeriod == old(effectivePeriod)
    {
      textEnabled := enable;
    }

    /** enableBackgroundDrawing: store the switch, then clear the screen (under the matrix mutex, which is
        waited for without a timeout). */
    method EnableBackgroundDrawing(enable: bool)
      requires Valid()
      modifies this, panel
      ensures Valid() && Repr == old(Repr)
      ensures CurrentSettings() == old(CurrentSettings()).(backgroundEnabled := enable)
      ensures wasEnabled == old(wasEnabled) && effectivePeriod == old(effectivePeriod)
      ensures panel.calls == old(panel.calls) + [ClearScreen] && panel.brightness == old(panel.brightness)
    {
      backgroundEnabled := enable;
      panel.Record(ClearScreen);
    }

    /** setMatrix: a null matrix is ignored; otherwise it becomes the one the task renders. */
    method SetMatrix(newMatrix: Option<Pattern>)
      requires Valid()
      requires newMatrix.Some? ==>
                 newMatrix.value.Valid() && Own() !! newMatrix.value.Repr() && panel !in newMatrix.value.Repr()
      modifies this
      ensures Valid()
      ensures CurrentSettings() == old(CurrentSettings()).(matrixCurrent := if newMatrix.Some? then newMatrix else old(matrixCurrent))
      ensures wasEnabled == old(wasEnabled) && effectivePeriod == old(effectivePeriod)
    {
      if newMatrix.None? {
        return;
      }
      newMatrix.value.ValidBase();
      matrixCurrent := newMatrix;
      Repr := Repr + newMatrix.value.Repr();
    }

    /** pause. */
    method Pause()
      requires Valid()
      modifies this
      ensures Valid() && Repr == old(Repr)
      ensures CurrentSettings() == old(CurrentSettings()).(enabled := false)
      ensures wasEnabled == old(wasEnabled) && effectivePeriod == old(effectivePeriod)
    {
      enabled := false;
    }

    /** resume. */
    method Resume()
      requires Valid()
      modifies this
      ensures Valid() && Repr == old(Repr)
      ensures CurrentSettings() == old(CurrentSettings()).(enabled := true)
      ensures wasEnabled == old(wasEnabled) && effectivePeriod == old(effectivePeriod)
    {
      enabled := true;
    }

    /** setTemperatureText. */
    method SetTemperatureText(text: string, lockTaken: bool)
      requires Valid()
      modifies temperature.buffer
      ensures Valid()
      ensures lockTaken ==> temperature.Text() == Truncated(CString(text), MaxTextLength)
      ensures !lockTaken ==> temperature.buffer[..] == old(temperature.buffer[..])
    {
      temperature.SetText(text, lockTaken);
    }

    /** setHumidityText. */
    method SetHumidityText(text: string, lockTaken: bool)
      requires Valid()
      modifies humidity.buffer
      ensures Valid()
      ensures lockTaken ==> humidity.Text() == Truncated(CString(text), MaxTextLength)
      ensures !lockTaken ==> humidity.buffer[..] == old(humidity.buffer[..])
    {
      humidity.SetText(text, lockTaken);
    }

    /** setTemperatureFont: select the font on the panel and centre the anchor on the widest text's extent. */
    method SetTemperatureFont(font: Font, extent: TextExtent, lockTaken: bool)
      requires Valid()
      modifies temperature, panel
      ensures Valid()
      ensures lockTaken ==> panel.calls == old(panel.calls) + [SetFont(font)]
      ensures lockTaken ==> temperature.font == font
                            && temperature.x == CentredX(extent.width) && temperature.y == CentredY(extent.height)
      ensures !lockTaken ==> unchanged(temperature, panel)
      ensures panel.brightness == old(panel.brightness)
      ensures temperature.colour == old(temperature.colour) && temperature.xOffset == old(temperature.xOffset) && temperature.yOffset == old(temperature.yOffset)
    {
      if lockTaken {
        panel.Record(SetFont(font));
        temperature.SetFontAndAnchor(font, CentredX(extent.width), CentredY(extent.height), true);
      }
    }

    /** setHumidityFont: select the font on the panel, centre the anchor horizontally and put the baseline one
        text height above the bottom edge. */
    method SetHumidityFont(font: Font, extent: TextExtent, lockTaken: bool)
      requires Valid()
      modifies humidity, panel
      ensures Valid()
      ensures lockTaken ==> panel.calls == old(panel.calls) + [SetFont(font)]
      ensures lockTaken ==> humidity.font == font
                            && humidity.x == CentredX(extent.width) && humidity.y == BottomY(extent.height)
      ensures !lockTaken ==> unchanged(humidity, panel)
      ensures panel.brightness == old(panel.brightness)
      ensures humidity.colour == old(humidity.colour) && humidity.xOffset == old(humidity.xOffset) && humidity.yOffset == old(humidity.yOffset)
    {
      if lockTaken {
        panel.Record(SetFont(font));
        humidity.SetFontAndAnchor(font, CentredX(extent.width), BottomY(extent.height), true);
      }
    }

    /** setTemperatureFontColor. */
    method SetTemperatureFontColour(colour: Word, lockTaken: bool)
      requires Valid()
      modifies temperature
      ensures Valid()
      ensures temperature.colour == if lockTaken then colour else old(temperature.colour)
      ensures temperature.font == old(temperature.font) && temperature.x == old(temperature.x)
              && temperature.y == old(temperature.y)
      ensures temperature.xOffset == old(temperature.xOffset) && temperature.yOffset == old(temperature.yOffset)
    {
      temperature.SetColour(colour, lockTaken);
    }

    /** setHumidityFontColor. */
    method SetHumidityFontColour(colour: Word, lockTaken: bool)
      requires Valid()
      modifies humidity
      ensures Valid()
      ensures humidity.colour == if lockTaken then colour else old(humidity.colour)
      ensures humidity.font == old(humidity.font) && humidity.x == old(humidity.x) && humidity.y == old(humidity.y)
      ensures humidity.xOffset == old(humidity.xOffset) && humidity.yOffset == old(humidity.yOffset)
    {
      humidity.SetColour(colour, lockTaken);
    }

    /** One pass of updateTask's loop. Recalculate the effective period when the FPS changed. Paused: on the
        first paused pass after running, blank the panel and clear both buffers, then idle. Running: restore
        the brightness on the first pass after a pause, then, when there is a matrix, render a frame. */
    method UpdateStep(inputs: StepInputs)
      requires Valid()
      modifies Repr, panel
      ensures Valid() && Repr == old(Repr)
      ensures CurrentSettings() == old(CurrentSettings()).(fpsChanged := false)
      ensures wasEnabled == enabled
      ensures effectivePeriod
              == if old(fpsChanged) then EffectivePeriod(updateIntervalMS, panel.refreshRate) else old(effectivePeriod)
      ensures unchanged(temperature, humidity)
      ensures !enabled ==> panel.calls == old(panel.calls)
                             + (if old(wasEnabled) then PauseEvents(panel.doubleBuffered, effectivePeriod) else [])
      ensures enabled && matrixCurrent.None? ==>
                panel.calls == old(panel.calls) + (if old(wasEnabled) then [] else [SetBrightness(panelBrightness)])
      ensures enabled && matrixCurrent.Some? ==>
                panel.calls == old(panel.calls)
                               + (if old(wasEnabled) then [] else [SetBrightness(panelBrightness)])
                               + PrepareCalls(old(wasEnabled) && old(panel.brightness) != panelBrightness)
                               + BackgroundCalls(matrixCurrent.value.Base())
                               + (if textEnabled then TextDraws(inputs.drawTemperatureLock, inputs.drawHumidityLock) else [])
      ensures panel.brightness
              == if !enabled then (if old(wasEnabled) then 0 else old(panel.brightness))
                 else if !old(wasEnabled) || matrixCurrent.Some? then panelBrightness
                 else old(panel.brightness)
      ensures var refresh := enabled && matrixCurrent.Some? && inputs.sensorChanged;
              (refresh && inputs.setTemperatureLock ==>
                 temperature.Text() == Truncated(CString(inputs.temperatureText), MaxTextLength))
              && (!(refresh && inputs.setTemperatureLock) ==> temperature.buffer[..] == old(temperature.buffer[..]))
              && (refresh && inputs.setHumidityLock ==>
                    humidity.Text() == Truncated(CString(inputs.humidityText), MaxTextLength))
              && (!(refresh && inputs.setHumidityLock) ==> humidity.buffer[..] == old(humidity.buffer[..]))
      ensures matrixCurrent.Some? && !(enabled && backgroundEnabled) ==> unchanged(matrixCurrent.value.Repr())
      ensures enabled && backgroundEnabled && matrixCurrent.Some? ==> matrixCurrent.value.Stepped(inputs.draws)
    {
      RecalculateTiming();
      if !enabled {
        PausedPass();
      } else {
        RunningPass(inputs);
      }
    }

    /** A running pass: restore the brightness on the first pass after a pause, then render a frame when there
        is a matrix. */
    method RunningPass(inputs: StepInputs)
      requires Valid() && enabled
      modifies Repr, panel
      ensures Valid() && Repr == old(Repr)
      ensures CurrentSettings() == old(CurrentSettings())
      ensures wasEnabled && effectivePeriod == old(effectivePeriod)
      ensures unchanged(temperature, humidity)
      ensures matrixCurrent.None? ==>
                panel.calls == old(panel.calls) + (if old(wasEnabled) then [] else [SetBrightness(panelBrightness)])
      ensures matrixCurrent.Some? ==>
                panel.calls == old(panel.calls)
                               + (if old(wasEnabled) then [] else [SetBrightness(panelBrightness)])
                               + PrepareCalls(old(wasEnabled) && old(panel.brightness) != panelBrightness)
                               + BackgroundCalls(matrixCurrent.value.Base())
                               + (if textEnabled then TextDraws(inputs.drawTemperatureLock, inputs.drawHumidityLock) else [])
      ensures panel.brightness
              == if !old(wasEnabled) || matrixCurrent.Some? then panelBrightness else old(panel.brightness)
      ensures var refresh := matrixCurrent.Some? && inputs.sensorChanged;
              (refresh && inputs.setTemperatureLock ==>
                 temperature.Text() == Truncated(CString(inputs.temperatureText), MaxTextLength))
              && (!(refresh && inputs.setTemperatureLock) ==> temperature.buffer[..] == old(temperature.buffer[..]))
              && (refresh && inputs.setHumidityLock ==>
                    humidity.Text() == Truncated(CString(inputs.humidityText), MaxTextLength))
              && (!(refresh && inputs.setHumidityLock) ==> humidity.buffer[..] == old(humidity.buffer[..]))
      ensures matrixCurrent.Some? && !backgroundEnabled ==> unchanged(matrixCurrent.value.Repr())
      ensures backgroundEnabled && matrixCurrent.Some? ==> matrixCurrent.value.Stepped(inputs.draws)
    {
      ResumeIfPaused();
      if matrixCurrent.Some? {
        RenderFrame(inputs);
      }
    }

    /** Step 1 of the pass: when fpsChanged was set, clear it and take the longer of the frame interval and
        the panel's minimum swap period. */
    method RecalculateTiming()
      requires Valid()
      modifies this
      ensures Valid() && Repr == old(Repr)
      ensures CurrentSettings() == old(CurrentSettings()).(fpsChanged := false)
      ensures wasEnabled == old(wasEnabled)
      ensures effectivePeriod
              == if old(fpsChanged) then EffectivePeriod(updateIntervalMS, panel.refreshRate) else old(effectivePeriod)
    {
      if fpsChanged {
        fpsChanged := false;
        var framePeriod := updateIntervalMS;
        var minSwapPeriod := 1000 / panel.refreshRate;
        effectivePeriod := if minSwapPeriod > framePeriod then minSwapPeriod else framePeriod;
      }
    }

    /** A paused pass: only the first one after running touches the panel, blanking it and clearing both
        buffers. */
    method PausedPass()
      requires Valid()
      modifies this, panel
      ensures Valid() && Repr == old(Repr) && CurrentSettings() == old(CurrentSettings())
      ensures !wasEnabled && effectivePeriod == old(effectivePeriod)
      ensures panel.calls
              == old(panel.calls) + (if old(wasEnabled) then PauseEvents(panel.doubleBuffered, effectivePeriod) else [])
      ensures panel.brightness == if old(wasEnabled) then 0 else old(panel.brightness)
    {
      if matrixCurrent.Some? {
        matrixCurrent.value.ValidBase();
      }
      if wasEnabled {
        panel.Record(SetBrightness(0));
        if panel.doubleBuffered {
          panel.Record(ClearScreen);
          panel.Record(SwapBuffers);
          panel.Record(WaitFrame(effectivePeriod));
          panel.Record(ClearScreen);
        } else {
          panel.Record(ClearScreen);
        }
      }
      wasEnabled := false;
      if matrixCurrent.Some? {
        ValidWhileUntouched(matrixCurrent.value);
      }
    }

    /** The first running pass after a pause restores the stored brightness on the panel. */
    method ResumeIfPaused()
      requires Valid()
      modifies this, panel
      ensures Valid() && Repr == old(Repr) && CurrentSettings() == old(CurrentSettings())
      ensures wasEnabled && effectivePeriod == old(effectivePeriod)
      ensures panel.calls == old(panel.calls) + (if old(wasEnabled) then [] else [SetBrightness(panelBrightness)])
      ensures panel.brightness == if old(wasEnabled) then old(panel.brightness) else panelBrightness
    {
      if !wasEnabled {
        if matrixCurrent.Some? {
          matrixCurrent.value.ValidBase();
        }
        panel.Record(SetBrightness(panelBrightness));
        wasEnabled := true;
        if matrixCurrent.Some? {
          ValidWhileUntouched(matrixCurrent.value);
        }
      }
    }

    /** Steps 4 to 11 of a running pass with a matrix. */
    method RenderFrame(inputs: StepInputs)
      requires Valid() && matrixCurrent.Some?
      modifies panel, temperature.buffer, humidity.buffer, matrixCurrent.value.Repr()
      ensures Valid() && matrixCurrent.value.Base().Valid()
      ensures panel.calls == old(panel.calls) + PrepareCalls(old(panel.brightness) != panelBrightness)
                             + BackgroundCalls(matrixCurrent.value.Base())
                             + (if textEnabled then TextDraws(inputs.drawTemperatureLock, inputs.drawHumidityLock) else [])
      ensures panel.brightness == panelBrightness
      ensures inputs.sensorChanged && inputs.setTemperatureLock ==>
                temperature.Text() == Truncated(CString(inputs.temperatureText), MaxTextLength)
      ensures !(inputs.sensorChanged && inputs.setTemperatureLock) ==>
                temperature.buffer[..] == old(temperature.buffer[..])
      ensures inputs.sensorChanged && inputs.setHumidityLock ==>
                humidity.Text() == Truncated(CString(inputs.humidityText), MaxTextLength)
      ensures !(inputs.sensorChanged && inputs.setHumidityLock) ==> humidity.buffer[..] == old(humidity.buffer[..])
      ensures !backgroundEnabled ==> unchanged(matrixCurrent.value.Repr())
      ensures backgroundEnabled ==> matrixCurrent.value.Stepped(inputs.draws)
    {
      ghost var start := matrixCurrent.value.Start();
      PrepareAndRefresh(inputs);
      // The panel and the text buffers lie outside the pattern, so the generation starts from the same fields.
      assert matrixCurrent.value.Start() == start;
      DrawLayers(inputs.draws, inputs.drawTemperatureLock, inputs.drawHumidityLock);
    }

    /** Steps 4 to 8: prepare the panel for the frame, then take a new sensor reading into the texts. */
    method PrepareAndRefresh(inputs: StepInputs)
      requires Valid() && matrixCurrent.Some?
      modifies panel, temperature.buffer, humidity.buffer
      ensures Valid()
      ensures panel.calls == old(panel.calls) + PrepareCalls(old(panel.brightness) != panelBrightness)
      ensures panel.brightness == panelBrightness
      ensures inputs.sensorChanged && inputs.setTemperatureLock ==>
                temperature.Text() == Truncated(CString(inputs.temperatureText), MaxTextLength)
      ensures !(inputs.sensorChanged && inputs.setTemperatureLock) ==>
                temperature.buffer[..] == old(temperature.buffer[..])
      ensures inputs.sensorChanged && inputs.setHumidityLock ==>
                humidity.Text() == Truncated(CString(inputs.humidityText), MaxTextLength)
      ensures !(inputs.sensorChanged && inputs.setHumidityLock) ==> humidity.buffer[..] == old(humidity.buffer[..])
    {
      PrepareFrame();
      RefreshTexts(inputs);
    }

    /** Steps 9 to 11: the background layer, then the text layer. */
    method DrawLayers(draws: Draws, drawTemperature: bool, drawHumidity: bool)
      requires Valid() && matrixCurrent.Some?
      modifies panel, matrixCurrent.value.Repr()
      ensures Valid() && matrixCurrent.value.Base().Valid()
      ensures panel.calls == old(panel.calls) + BackgroundCalls(matrixCurrent.value.Base())
                             + (if textEnabled then TextDraws(drawTemperature, drawHumidity) else [])
      ensures panel.brightness == old(panel.brightness)
      ensures !backgroundEnabled ==> unchanged(matrixCurrent.value.Repr())
      ensures backgroundEnabled ==> matrixCurrent.value.Stepped(draws)
    {
      DrawBackground(draws);
      if textEnabled {
        DrawAllTextToPanel(drawTemperature, drawHumidity);
      }
    }

    /** Step 8: when the sensor reports a new reading, both texts are stored, each under its own mutex. */
    method RefreshTexts(inputs: StepInputs)
      requires Valid()
      modifies temperature.buffer, humidity.buffer
      ensures Valid()
      ensures inputs.sensorChanged && inputs.setTemperatureLock ==>
                temperature.Text() == Truncated(CString(inputs.temperatureText), MaxTextLength)
      ensures !(inputs.sensorChanged && inputs.setTemperatureLock) ==>
                temperature.buffer[..] == old(temperature.buffer[..])
      ensures inputs.sensorChanged && inputs.setHumidityLock ==>
                humidity.Text() == Truncated(CString(inputs.humidityText), MaxTextLength)
      ensures !(inputs.sensorChanged && inputs.setHumidityLock) ==> humidity.buffer[..] == old(humidity.buffer[..])
    {
      if matrixCurrent.Some? {
        matrixCurrent.value.ValidBase();
      }
      if inputs.sensorChanged {
        SetTemperatureText(inputs.temperatureText, inputs.setTemperatureLock);
        SetHumidityText(inputs.humidityText, inputs.setHumidityLock);
      }
      if matrixCurrent.Some? {
        ValidWhileUntouched(matrixCurrent.value);
      }
    }

    /** Steps 4 to 7: flip (double-buffered only), wait for the frame boundary, clear the buffer being drawn,
        and correct the panel's brightness if it differs from the stored one. */
    method PrepareFrame()
      requires Valid() && matrixCurrent.Some?
      modifies panel
      ensures Valid()
      ensures panel.calls == old(panel.calls) + PrepareCalls(old(panel.brightness) != panelBrightness)
      ensures panel.brightness == panelBrightness
    {
      matrixCurrent.value.ValidBase();
      if panel.doubleBuffered {
        panel.Record(SwapBuffers);
      }
      panel.Record(WaitFrame(effectivePeriod));
      panel.Record(ClearScreen);
      if panel.brightness != panelBrightness {
        panel.Record(SetBrightness(panelBrightness));
      }
      ValidWhileUntouched(matrixCurrent.value);
    }

    /** Steps 9 and 10: with background drawing on, the pattern's next generation and all of its cells. */
    method DrawBackground(draws: Draws)
      requires Valid() && matrixCurrent.Some?
      modifies panel, matrixCurrent.value.Repr()
      ensures Valid()
      ensures matrixCurrent.value.Base().Valid()
      ensures panel.calls == old(panel.calls) + BackgroundCalls(matrixCurrent.value.Base())
      ensures panel.brightness == old(panel.brightness)
      ensures !backgroundEnabled ==> unchanged(matrixCurrent.value.Repr())
      ensures backgroundEnabled ==> matrixCurrent.value.Stepped(draws)
    {
      var pattern := matrixCurrent.value;
      pattern.ValidBase();
      if backgroundEnabled {
        ghost var start := pattern.Start();
        StepPattern(draws);
        ghost var stepped := pattern.SteppedFrom(start, draws);
        assert stepped;
        label calculated:
        pattern.ValidBase();
        DrawCellsToPanel(pattern.Base());
        ValidWhileUntouched@calculated(pattern);
        // Drawing touches only the panel, so the generation's guarantee still holds.
        assert stepped == pattern.SteppedFrom(start, draws);
      }
    }

    /** Step 9: matrix->calcNewStates(), one generation of the pattern. */
    method StepPattern(draws: Draws)
      requires Valid() && matrixCurrent.Some?
      modifies panel, matrixCurrent.value.Repr()
      ensures Valid() && matrixCurrent.value.Valid()
      ensures panel.calls == old(panel.calls) + [CalcNewStates]
      ensures panel.brightness == old(panel.brightness)
      ensures matrixCurrent.value.Stepped(draws)
    {
      var pattern := matrixCurrent.value;
      panel.Record(CalcNewStates);
      ValidWhileUntouched(pattern);
      pattern.CalcNewStates(draws);
    }

    /** drawCellsToPanel: one drawPixel per cell, x outer and y inner, in the colour getCellColor reports. */
    method DrawCellsToPanel(m: Matrix)
      requires m.Valid()
      modifies panel
      ensures panel.calls == old(panel.calls) + CellDraws(m)
      ensures panel.brightness == old(panel.brightness)
    {
      ghost var draws := CellDraws(m);
      for x := 0 to Width
        invariant panel.calls == old(panel.calls) + draws[..x * Height]
        invariant panel.brightness == old(panel.brightness)
      {
        for y := 0 to Height
          invariant panel.calls == old(panel.calls) + draws[..x * Height + y]
          invariant panel.brightness == old(panel.brightness)
        {
          DivModParts(x, y, Height);
          assert draws[x * Height + y] == DrawPixel(x, y, m.GetCellColor(x, y));
          assert draws[..x * Height + y + 1] == draws[..x * Height + y] + [draws[x * Height + y]];
          panel.Record(DrawPixel(x, y, m.GetCellColor(x, y)));
        }
      }
      assert draws[..Width * Height] == draws;
    }

    /** drawAllTextToPanel: each slot whose mutex is taken within 100 ms is drawn; a timeout skips it. */
    method DrawAllTextToPanel(drawTemperature: bool, drawHumidity: bool)
      requires Valid()
      modifies panel
      ensures Valid()
      ensures panel.calls == old(panel.calls) + TextDraws(drawTemperature, drawHumidity)
      ensures panel.brightness == old(panel.brightness)
    {
      if drawTemperature {
        DrawTextToPanel(temperature);
      }
      if drawHumidity {
        DrawTextToPanel(humidity);
      }
    }

    /** drawTextToPanel: select the slot's font, then print its text at the anchor plus the offsets. */
    method DrawTextToPanel(slot: TextSlot)
      requires Valid() && (slot == temperature || slot == humidity)
      modifies panel
      ensures Valid()
      ensures panel.calls == old(panel.calls) + slot.DrawEvents()
      ensures panel.brightness == old(panel.brightness)
    {
      panel.Record(SetFont(slot.font));
      panel.Record(PrintText(slot.Text(), ToI8(slot.x + slot.xOffset), ToI8(slot.y + slot.yOffset), slot.colour));
    }
  }

  /** The drawing a running frame leaves in the buffer it draws into: the cells when background drawing is
      on, then the printed texts when text drawing is on. */
  ghost function FrameLayers(d: MatrixDriver, m: Matrix, drawTemperature: bool, drawHumidity: bool): seq<Event>
    reads d, m, m.bufferPrimary, d.temperature, d.humidity, d.temperature.buffer, d.humidity.buffer
    requires m.Valid() && d.temperature.Valid() && d.humidity.Valid()
  {
    (if d.backgroundEnabled then CellDraws(m) else [])
    + (if d.textEnabled then Drawn(d.TextDraws(drawTemperature, drawHumidity)) else [])
  }

  /** The background part of a frame neither swaps nor clears, and draws exactly the cells when it is on. */
  lemma BackgroundCallsDraw(d: MatrixDriver, m: Matrix)
    requires m.Valid()
    ensures NoFlip(d.BackgroundCalls(m))
    ensures Drawn(d.BackgroundCalls(m)) == if d.backgroundEnabled then CellDraws(m) else []
  {
    if d.backgroundEnabled {
      CellDrawsCoverGrid(m);
      DrawnOfDrawings(CellDraws(m));
      DrawnAppend([CalcNewStates], CellDraws(m));
      NoFlipAppend([CalcNewStates], CellDraws(m));
    }
  }

  /** The brightness correction neither swaps, clears nor draws. */
  lemma FixCallsQuiet(d: MatrixDriver, fixBrightness: bool)
    ensures NoFlip(d.FixCalls(fixBrightness)) && Drawn(d.FixCalls(fixBrightness)) == []
  {
  }

  /** The text layer neither swaps nor clears. */
  lemma TextCallsDrawOnly(d: MatrixDriver, drawTemperature: bool, drawHumidity: bool)
    requires d.temperature.Valid() && d.humidity.Valid()
    ensures NoFlip(if d.textEnabled then d.TextDraws(drawTemperature, drawHumidity) else [])
  {
  }

  /** What a running frame puts on the panel. Double-buffered: the panel shows the previous frame's buffer
      while this frame's layers are drawn out of sight. Single-buffered: the frame is drawn in view on a
      cleared buffer. Either way the buffer holds exactly the layers, so with background drawing off no cell
      is drawn and the background stays black. */
  lemma FrameOnPanel(d: MatrixDriver, m: Matrix, s: Screen, fixBrightness: bool, drawTemperature: bool, drawHumidity: bool)
    requires m.Valid() && d.temperature.Valid() && d.humidity.Valid()
    ensures var calls := d.PrepareCalls(fixBrightness) + d.BackgroundCalls(m)
                         + (if d.textEnabled then d.TextDraws(drawTemperature, drawHumidity) else []);
            var after := Replay(s, calls, d.panel.doubleBuffered);
            after.drawing == FrameLayers(d, m, drawTemperature, drawHumidity)
            && after.shown == if d.panel.doubleBuffered then s.drawing else FrameLayers(d, m, drawTemperature, drawHumidity)
  {
    var fix := d.FixCalls(fixBrightness);
    var background := d.BackgroundCalls(m);
    var text := if d.textEnabled then d.TextDraws(drawTemperature, drawHumidity) else [];
    FixCallsQuiet(d, fixBrightness);
    TextCallsDrawOnly(d, drawTemperature, drawHumidity);
    BackgroundCallsDraw(d, m);
    FrameReplay(s, d.panel.doubleBuffered, d.effectivePeriod, fix, background, text);
    assert d.PrepareCalls(fixBrightness) + background + text
           == FrameHead(d.panel.doubleBuffered, d.effectivePeriod) + fix + background + text;
  }
}
