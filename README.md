# LED matrix box: a verified model of its firmware core

The firmware drives a 64×32 HUB75 LED panel from an ESP32. One of three animated patterns fills a 16-bit colour grid:

- two stochastic Game-of-Life automata;
- a FastLED plasma.

Its other parts:

- **Render driver.** A background task renders the grid to the panel at a requested frame rate and writes temperature and humidity text on top.
- **Input handler.** It polls two rotary encoders with push switches, giving brightness, hue, display mode and a second mode, and a light sensor (LDR) that switches the panel off in the dark.
- **Main loop.** It turns changes in the input handler's state into calls on the driver and the patterns.

This project models that sequential logic in Dafny and proves what it does. Hardware, time and randomness come in as explicit inputs:

- pin levels and `millis()` values;
- one `random()` draw per cell;
- whether a 100 ms mutex wait succeeds;
- the panel's measured refresh rate;
- the sensor's strings.

Foreign colour code is passed in as uninterpreted functions: Adafruit's `ColorHSV`, FastLED's `ColorFromPalette` and the plasma's sine formula.

Modules, one per part of the program:

- `Modes` (MODES.h): the seven display modes and the two second-mode values.
- `Arduino`: `constrain`, C's truncating `/` and `%`, and the conversions to `uint8_t`, `int8_t`, `uint16_t` and 32-bit `int`, written out.
- `Colour`: 5/6/5 packing and unpacking, the `>> 8` blend, and `hsvTo565`.
- `MatrixBase`: the `Matrix` base class and its two colour grids.
- `LifeRules`: the neighbour count, the rule table, the colour roles and the seeding loop. The two automata carry identical copies of these.
- `GameLife`, `GameLife2`, `Plasma`: the three patterns.
- `Patterns`: the closed set of patterns behind the driver's `Matrix*`.
- `PanelSink`: the panel calls as an event trace, and what they leave in a double-buffered or single-buffered panel.
- `TextBuffers`: the driver's two 16-character text slots.
- `Driver`: `MatrixDriver`, with one pass of `updateTask` as a method.
- `Encoder`: `RotaryEncoder`.
- `Input`: `InputHandler`, with one pass of `pollingTask` as a method.
- `MainLoop`: `loop`, `setNewDisplayMode` and `delayForFPS`, with outside calls recorded as commands.

Objects whose fields the firmware updates in place are classes: the patterns, the driver, the panel, the text slots, the encoders, the input handler and the main loop's globals. Their methods are proved against specification functions. The colour grids are `array2`s. `std::swap` of two `std::array`s exchanges the two grid references; no other code holds them, so the effect is the same.

## Model

| member | source | states |
|---|---|---|
| Colour.RgbTo565Fields | src/Matrix.cpp:4-7 | bits 15..11 of the packed colour are r>>3, bits 10..5 are g>>2 and bits 4..0 are b>>3 |
| Colour.RgbTo565IgnoresLowBits | src/Matrix.cpp:6 | only the top 5/6/5 bits of each channel affect the packed value |
| Colour.RgbTo565Black | src/Matrix.cpp:6 | black packs to 0x0000 |
| Colour.RgbTo565White | src/Matrix.cpp:6 | white packs to 0xFFFF |
| Colour.RgbTo565MonotoneInRed | src/Matrix.cpp:6 | with g and b fixed, the packed value never decreases as r grows |
| Colour.RgbFrom565 | src/GameLifeMatrix.cpp:226-231 | unpacked channels are multiples of 8/4/8 and at most 248/252/248 (no bit replication) |
| Colour.PackUnpack | src/GameLifeMatrix.cpp:226-231 | packing an unpacked colour gives back every 16-bit colour exactly |
| Colour.UnpackPack | src/Matrix.cpp:6 | unpacking a packed colour clears the low 3/2/3 bits: each channel comes back at most 7/3/7 below, never above |
| Colour.BlendChannel | src/GameLifeMatrix.cpp:195-197 | the `>> 8` blend of base and previous is at most max(base, prev) and at most 254, strictly below a non-zero max, and at least min − 1 |
| Colour.BlendWithoutInfluenceDarkens | src/GameLifeMatrix.cpp:191-202 | with influence 0 the blend formula would darken every non-zero channel by one, which is why the code returns the base colour instead |
| Colour.BlendWithFullInfluence | src/GameLifeMatrix.cpp:195-197 | with influence 255 the blend gives the previous channel less one step |
| Colour.HsvTo565 | src/Matrix.cpp:10-18 | the result unpacks to the quantised bytes of ColorHSV's packed 0x00RRGGBB value |
| MatrixBase.Matrix.constructor | src/GameLifeMatrix.cpp:5-13 | a pattern starts in background mode at its background brightness, with both presets stored |
| MatrixBase.Matrix.GetCellColor | src/Matrix.h:25-30 | off the 64×32 grid the colour is 0x0000; on it, the primary grid's cell; it reads state only |
| MatrixBase.Matrix.GetPrevCellColor | src/Matrix.h:31-36 | the same lookup in the secondary grid |
| MatrixBase.Matrix.SetBackgroundMode | src/Matrix.h:39-50 | records the mode and sets the current brightness to that mode's preset; grids and presets unchanged |
| LifeRules.CountLiveNeighbours | src/GameLifeMatrix.cpp:69-99 | the two offset loops count exactly the live cells among the eight neighbours, wrapped with `(n+W)%W` on a torus or skipped off the grid |
| LifeRules.LiveNeighboursExpanded | src/GameLifeMatrix.cpp:72-96 | the count is the sum over the eight offsets; the centre never counts |
| LifeRules.LiveNeighboursAtMostEight | src/GameLifeMatrix.cpp:69-99 | the live-neighbour count is at most 8 |
| LifeRules.TorusCornerNeighbours | src/GameLifeMatrix.cpp:82-86 | with edge wrap, corner (0,0) counts cells on the opposite edges and the opposite corner |
| LifeRules.BoundedCornerAtMostThree | src/GameLifeMatrix.cpp:87-91 | without wrap, a corner counts only its three in-grid neighbours, so at most 3 |
| LifeRules.BoundedEdgeAtMostFive | src/GameLifeMatrix.cpp:87-91 | without wrap, a top-edge cell that is not a corner has at most 5 |
| LifeRules.FullGridNeighbours | src/GameLifeMatrix.cpp:69-99 | on a full grid: every cell has 8 on a torus; without wrap a corner has 3 and an interior cell 8 |
| LifeRules.SurvivingDraws | src/GameLifeMatrix.cpp:101-146 | the number of draws below a bound that leave the cell alive never exceeds the bound |
| LifeRules.SurvivingDrawsAbove | src/GameLifeMatrix.cpp:114-128 | for a lonely or crowded live cell, the surviving draws below n are exactly those above the threshold |
| LifeRules.UnderpopulationSurvivalOdds | src/GameLifeMatrix.cpp:106-117 | a live cell with fewer than two neighbours survives on 9 of the 1000 draws (`> 990`) |
| LifeRules.OverpopulationSurvivalOdds | src/GameLifeMatrix.cpp:107-128 | a live cell with more than three neighbours survives on 49 of the 1000 draws (`> 950`) |
| LifeRules.DeterministicCases | src/GameLifeMatrix.cpp:119-143 | the draw does not matter in the other cases: alive with 2–3 survives, dead with 3 or 6 is born, any other dead cell stays dead |
| LifeRules.RoleOf | src/GameLifeMatrix.cpp:155-188 | the role (alive, just born, just died, dead) records exactly the new and the previous state |
| LifeRules.RoleOfIsInverse | src/GameLifeMatrix.cpp:155-188 | each role arises from exactly one pair of states |
| LifeRules.SeedGrids | src/GameLifeMatrix.cpp:27-36 | after the seeding loop, every cell is alive exactly when its draw is below the density, with the alive or dead colour to match; the secondary grids are all dead |
| LifeRules.SeedColumn | src/GameLifeMatrix.cpp:29-35 | the inner loop seeds one column and leaves the others unchanged |
| GameLife.ScaledValue | src/GameLifeMatrix.cpp:208-211 | the brightness-scaled value never exceeds the value, and equals it at relative brightness 1 |
| GameLife.ShiftHue | src/GameLifeMatrix.cpp:214-216 | the offset hue equals hue + offset modulo 65536 |
| GameLife.NewColourValue | src/GameLifeMatrix.cpp:150-203 | with influence 0, the role's precomputed colour; otherwise the per-channel blend of the role's RGB and the unpacked previous colour, repacked |
| GameLife.BlendedColourBounded | src/GameLifeMatrix.cpp:191-199 | a blended channel is never brighter than the brighter of the base and previous colours |
| GameLife.GameLifeMatrix.constructor | src/GameLifeMatrix.cpp:3-16 | density and wrap stored, brightness presets 0.6/1.0, background mode, hue 0, colours computed, grids seeded |
| GameLife.GameLifeMatrix.UpdateColoursFromHsv | src/GameLifeMatrix.cpp:206-223 | the four role colours and their RGB copies come from the current hue and brightness; nothing else changes |
| GameLife.GameLifeMatrix.Initialise | src/GameLifeMatrix.cpp:19-37 | the colours are recomputed and every cell is seeded from its draw |
| GameLife.GameLifeMatrix.NextGeneration | src/GameLifeMatrix.cpp:47-60 | every cell of the target grid gets the colour of its new state, role and previous colour |
| GameLife.GameLifeMatrix.NextColumn | src/GameLifeMatrix.cpp:49-59 | one column is written and the others are unchanged |
| GameLife.GameLifeMatrix.CalcNewStates | src/GameLifeMatrix.cpp:40-67 | hue advances by 128 modulo 65536 before the colours are recomputed; every new colour is written; both grid pairs swap; the boolean secondary grid is never written |
| GameLife.TwoGenerationsRestoreAliveGrid | src/GameLifeMatrix.cpp:55-65 | because the new states are never stored, two generations bring back the alive grid they started from |
| GameLife2.NextPaletteIndex | src/GameLifeMatrix2.h:32-38 | the next index is in [0,8): i+1 below 7, and 7 wraps to 0 |
| GameLife2.PaletteIndexAfterIsSum | src/GameLifeMatrix2.h:35 | n calls of nextPalette give (i + n) mod 8 |
| GameLife2.EightPalettesCycle | src/GameLifeMatrix2.h:32-38 | eight calls of nextPalette restore the index |
| GameLife2.PalettePositionsRelative | src/GameLifeMatrix2.cpp:232-235 | just-born, just-died and dead sit +20, −20 and +128 from the alive position, modulo 256 |
| GameLife2.CyclingShiftsEveryRole | src/GameLifeMatrix2.cpp:77-78 | advancing alivePalInd by one moves every role's palette position by one, modulo 256 |
| GameLife2.RoleBrightness | src/GameLifeMatrix2.cpp:227-230 | a role's brightness is at most 255 times the relative brightness |
| GameLife2.RoleBrightnessOrdered | src/GameLifeMatrix2.h:58-61 | dead is never brighter than just died, just died never brighter than alive, and just born is as bright as alive |
| GameLife2.NewColourValue | src/GameLifeMatrix2.cpp:165-220 | the result unpacks to the quantised role colour with influence 0, else to the quantised per-channel blend |
| GameLife2.GameLifeMatrix2.constructor | src/GameLifeMatrix2.cpp:3-21 | presets 0.621/1.0 (the 0.9 is overwritten), background mode, palette 0; colours taken at position 0 before initialise draws the starting alivePalInd; grids seeded |
| GameLife2.GameLifeMatrix2.NextPalette | src/GameLifeMatrix2.h:32-38 | the index becomes NextPaletteIndex of the old one; no other field changes |
| GameLife2.GameLifeMatrix2.CalcFrameColours | src/GameLifeMatrix2.cpp:223-236 | the role colours are those of the current palette, position and brightness |
| GameLife2.GameLifeMatrix2.Initialise | src/GameLifeMatrix2.cpp:24-50 | colours come from the old alivePalInd; the new alivePalInd is the draw in [0,255); the grids are seeded |
| GameLife2.GameLifeMatrix2.NextColumn | src/GameLifeMatrix2.cpp:57-68 | one column of new states and colours is stored; the others are unchanged |
| GameLife2.GameLifeMatrix2.CalcNewStates | src/GameLifeMatrix2.cpp:53-82 | the update is synchronous from the old grids; after the swap the new states and colours are primary; alivePalInd grows by exactly 1 iff cycling; colours are recomputed |
| Plasma.PaletteIndex | src/PlasmaMatrix.cpp:35 | `v >> 8` as a uint8_t: v/256 for v ≥ 0, 256 + floor(v/256) for negative v |
| Plasma.ScaledBrightness | src/PlasmaMatrix.cpp:23 | full relative brightness gives 255 |
| Plasma.CycleStep | src/PlasmaMatrix.cpp:40-48 | the counter grows by one and returns to 0 on reaching 1024, so it stays in [0,1024) |
| Plasma.CyclesAfterIsModulo | src/PlasmaMatrix.cpp:40-48 | from the constructor's state, the counter after n generations is n mod 1024 |
| Plasma.PlasmaMatrix.constructor | src/PlasmaMatrix.cpp:3-12 | presets 0.6/1.0, background mode, both counters 0 (kept equal by Valid), rainbow palette |
| Plasma.PlasmaMatrix.Initialise | src/PlasmaMatrix.cpp:15-19 | selects the rainbow palette and leaves the counters |
| Plasma.PlasmaMatrix.PaintColumn | src/PlasmaMatrix.cpp:27-37 | one column is painted from the field; the others are unchanged |
| Plasma.PlasmaMatrix.CalcNewStates | src/PlasmaMatrix.cpp:21-50 | all 64×32 primary cells are repainted from the field and the secondary grid is untouched; the cycle counter advances by CycleStep; when it returns to 0 the palette becomes the picked one of the five, otherwise it is kept |
| Patterns.Pattern.ValidBase | src/Matrix.h:10-71 | every pattern owns a valid Matrix base and its grids |
| Patterns.Pattern.CalcNewStates | src/Matrix.h:22 | the virtual call runs exactly the selected pattern's generation: it ensures Pattern.Stepped, which is that pattern's own Stepped guarantee (the generation step its own CalcNewStates promises), leaves the secondary colour grid untouched, and keeps the mode and brightness |
| PanelSink.Panel.constructor | src/Panel.cpp:3-6 | the panel starts with the given brightness and buffering and no calls |
| PanelSink.Panel.Record | src/Panel.cpp:62-72 | each call is appended; setBrightness also stores the level that getBrightness returns |
| PanelSink.ReplayWithoutFlip | src/MatrixDriver.cpp:279-300 | calls that neither swap nor clear add exactly their drawings to the buffer being drawn; only a single-buffered panel shows them at once |
| PanelSink.FrameHeadClears | src/MatrixDriver.cpp:242-256 | after swap, wait and clear, the drawing buffer is empty; double-buffered, the panel shows the previous frame's buffer |
| PanelSink.FrameReplay | src/MatrixDriver.cpp:242-300 | a frame's drawing buffer holds exactly the layers drawn after the clear |
| PanelSink.PauseBlanksPanel | src/MatrixDriver.cpp:183-203 | the pause sequence leaves brightness 0 and both buffers empty |
| TextBuffers.CStringLength | src/MatrixDriver.cpp:395-396 | strlen: the characters before the first NUL, or all of them |
| TextBuffers.Truncated | src/MatrixDriver.cpp:395 | the truncated text is a prefix of at most n characters, and the whole text when it fits |
| TextBuffers.Strncpy | src/MatrixDriver.cpp:395 | strncpy writes exactly n characters |
| TextBuffers.CStringLengthIs | src/MatrixDriver.cpp:396 | the terminator fixes the length of a C string |
| TextBuffers.StoredText | src/MatrixDriver.cpp:395-396 | after strncpy of 15 characters and the NUL at index 15, the buffer reads as the first 15 characters of the input |
| TextBuffers.CentredXBalances | src/MatrixDriver.cpp:441 | a text that fits has equal space on its left and right, or one pixel less on the left |
| TextBuffers.CentredXSurvivesWrap | src/MatrixDriver.cpp:441 | a text wider than the panel stores a negative x in the uint8_t; drawing converts it to int8_t and recovers (64 − w)/2 |
| TextBuffers.TextSlot.Text | src/MatrixDriver.h:92 | a slot never holds more than 15 characters |
| TextBuffers.TextSlot.constructor | src/MatrixDriver.h:92-101 | the anchor is (32, 16) with no offsets and the text is empty |
| TextBuffers.TextSlot.SetText | src/MatrixDriver.cpp:391-403 | with the mutex taken, the buffer is strncpy of 15 characters plus NUL, reading as the truncated text; on timeout, unchanged |
| TextBuffers.TextSlot.SetPosition | src/MatrixDriver.cpp:405-413 | with the mutex taken the anchor is stored; nothing else changes |
| TextBuffers.TextSlot.SetXOffset | src/MatrixDriver.cpp:415-422 | with the mutex taken the x offset is stored; nothing else changes |
| TextBuffers.TextSlot.SetYOffset | src/MatrixDriver.cpp:424-431 | with the mutex taken the y offset is stored; nothing else changes |
| TextBuffers.TextSlot.SetColour | src/MatrixDriver.cpp:447-454 | with the mutex taken the colour is stored; nothing else changes |
| TextBuffers.TextSlot.SetFontAndAnchor | src/MatrixDriver.cpp:433-445 | with the mutex taken the font and anchor are stored; offsets and colour are kept |
| Driver.IntervalForFps | src/MatrixDriver.cpp:86-92 | the interval is 1000 / clamp(fps, 1, 120) rounded down, so it lies in [8,1000] |
| Driver.IntervalForFpsAntitone | src/MatrixDriver.cpp:88-89 | a higher frame rate never gives a longer interval |
| Driver.EffectivePeriod | src/MatrixDriver.cpp:171-175 | the period is the larger of the frame interval and the panel's 1000 / refresh-rate |
| Driver.CellDrawsCoverGrid | src/MatrixDriver.cpp:343-353 | drawCellsToPanel draws each of the 64×32 cells exactly once, in its getCellColor colour, and nothing else |
| Driver.MatrixDriver.constructor | src/MatrixDriver.cpp:3-83 | brightness 255 sent to the panel; text and background on; interval for the clamped fps with recalculation flagged; null fonts become DEFAULT_FONT; fonts anchor the slots; empty texts; paused |
| Driver.MatrixDriver.Start | src/MatrixDriver.cpp:16-81 | the constructor's calls after its stores: brightness, the font/colour/text setters of each slot, then pause |
| Driver.MatrixDriver.SetFps | src/MatrixDriver.cpp:86-92 | stores IntervalForFps(fps) and sets fpsChanged; nothing else changes |
| Driver.MatrixDriver.SetPanelBrightness | src/MatrixDriver.cpp:95-98 | only the stored brightness changes; the panel is not called |
| Driver.MatrixDriver.EnableTextDrawing | src/MatrixDriver.cpp:101-104 | only the text switch changes |
| Driver.MatrixDriver.EnableBackgroundDrawing | src/MatrixDriver.cpp:107-116 | the background switch is stored and the panel gets one clearScreen |
| Driver.MatrixDriver.SetMatrix | src/MatrixDriver.cpp:119-134 | a null matrix is a no-op; otherwise it becomes the current matrix |
| Driver.MatrixDriver.Pause | src/MatrixDriver.cpp:331-334 | only `enabled` changes, to false |
| Driver.MatrixDriver.Resume | src/MatrixDriver.cpp:337-340 | only `enabled` changes, to true |
| Driver.MatrixDriver.SetTemperatureText | src/MatrixDriver.cpp:391-403 | the temperature slot holds at most the first 15 characters; on timeout, unchanged |
| Driver.MatrixDriver.SetHumidityText | src/MatrixDriver.cpp:456-468 | the same for the humidity slot |
| Driver.MatrixDriver.SetTemperatureFont | src/MatrixDriver.cpp:433-445 | sets the font on the panel and anchors the slot at ((64 − w)/2, (32 + h)/2) |
| Driver.MatrixDriver.SetHumidityFont | src/MatrixDriver.cpp:498-513 | sets the font on the panel and anchors the slot at ((64 − w)/2, 32 − h) |
| Driver.MatrixDriver.SetTemperatureFontColour | src/MatrixDriver.cpp:447-454 | with the mutex taken the colour is stored; nothing else changes |
| Driver.MatrixDriver.SetHumidityFontColour | src/MatrixDriver.cpp:515-522 | the same for the humidity slot |
| Driver.MatrixDriver.UpdateStep | src/MatrixDriver.cpp:164-327 | one loop pass: the period is recomputed only when fpsChanged was set, and the flag is cleared; the full call trace in every case (detailed in the rows below); wasEnabled follows enabled; when running with background drawing on, the pattern has taken exactly one generation (its Stepped relation) with the pass's draws |
| Driver.MatrixDriver.RecalculateTiming | src/MatrixDriver.cpp:168-176 | fpsChanged is exchanged for false; the effective period is recomputed only when it was set |
| Driver.MatrixDriver.PausedPass | src/MatrixDriver.cpp:179-209 | the first paused pass emits setBrightness(0) then clear, swap, wait, clear (double-buffered) or one clear; later paused passes emit nothing |
| Driver.MatrixDriver.RunningPass | src/MatrixDriver.cpp:211-300 | restore on resume; a null matrix skips the rest before any swap; otherwise a full frame, in which the pattern advances one generation (Stepped) when background drawing is on |
| Driver.MatrixDriver.ResumeIfPaused | src/MatrixDriver.cpp:212-219 | the first running pass after a pause emits setBrightness(panelBrightness) before anything else and sets wasEnabled |
| Driver.MatrixDriver.RenderFrame | src/MatrixDriver.cpp:242-300 | swap (double-buffered), then wait, then clear, then the brightness fix, then the sensor text refresh, then the cells, then the text; with background on, the pattern's new state is one Stepped generation |
| Driver.MatrixDriver.PrepareFrame | src/MatrixDriver.cpp:242-263 | swap if double-buffered, wait, clear; setBrightness only when the panel's level differs from the stored one |
| Driver.MatrixDriver.RefreshTexts | src/MatrixDriver.cpp:265-276 | only when the sensor reports a change, both strings are stored, each under its own mutex; otherwise both buffers are unchanged |
| Driver.MatrixDriver.PrepareAndRefresh | src/MatrixDriver.cpp:242-276 | the panel calls of steps 4 to 7, then the text refresh of step 8; the pattern is not touched |
| Driver.MatrixDriver.DrawLayers | src/MatrixDriver.cpp:280-300 | the background layer, then the text layer when text is on; with background on, the pattern has advanced one Stepped generation |
| Driver.MatrixDriver.DrawBackground | src/MatrixDriver.cpp:280-294 | with background off neither calcNewStates nor any drawPixel; with it on, calcNewStates then every cell, and the pattern's new state is its Stepped generation for the draws given |
| Driver.MatrixDriver.StepPattern | src/MatrixDriver.cpp:282-283 | records the calcNewStates call and leaves the pattern in its Stepped state for the draws given |
| Driver.MatrixDriver.DrawCellsToPanel | src/MatrixDriver.cpp:343-353 | appends exactly CellDraws: one drawPixel per cell, x outer, y inner |
| Driver.MatrixDriver.DrawAllTextToPanel | src/MatrixDriver.cpp:356-382 | draws each slot whose mutex was taken; a timeout skips that slot |
| Driver.MatrixDriver.DrawTextToPanel | src/MatrixDriver.cpp:385-389 | setFont, then printText at anchor plus offsets (as int8_t) in the slot's colour |
| Driver.BackgroundCallsDraw | src/MatrixDriver.cpp:280-294 | the background layer never swaps or clears, and draws exactly the cells when it is on |
| Driver.FixCallsQuiet | src/MatrixDriver.cpp:260-263 | the brightness correction neither swaps, clears nor draws |
| Driver.TextCallsDrawOnly | src/MatrixDriver.cpp:297-300 | the text layer neither swaps nor clears |
| Driver.FrameOnPanel | src/MatrixDriver.cpp:242-300 | double-buffered, the panel shows the previous buffer while the frame's layers are drawn out of sight; single-buffered, the frame is drawn in view on a cleared buffer; with background off no cell is drawn |
| Encoder.DetentStep | src/RotaryEncoder.cpp:140-149 | +1 iff the raw count is ≥ 4, −1 iff ≤ −4, otherwise 0 |
| Encoder.DetentTotalBounded | src/RotaryEncoder.cpp:140-149 | n interrupts move the count by at most n; n clockwise (anticlockwise) interrupts move it by exactly +n (−n) |
| Encoder.DetentTotalAppend | src/RotaryEncoder.cpp:145-148 | two runs of interrupts add up |
| Encoder.Debounce | src/RotaryEncoder.cpp:164-192 | accepted iff latched and the pin is low and now − last ≥ debounce; the press time moves to now exactly on acceptance |
| Encoder.AcceptedPressesSpaced | src/RotaryEncoder.cpp:176-191 | accepted presses are at least the debounce time apart, and the first is at least that long after the previous press |
| Encoder.FilterValueAsWritten | src/RotaryEncoder.cpp:71-73 | the value the code programs is in [0,1023] |
| Encoder.FilterValue | src/RotaryEncoder.cpp:21-73 | the corrected filter value is in [0,1023] |
| Encoder.FilterValueFollowsStoredTime | src/RotaryEncoder.cpp:21-73 | the corrected value is 80 × the clamped glitch time (≤ 960, so the cap never fires) and is monotone |
| Encoder.FilterValueAsWrittenWraps | src/RotaryEncoder.cpp:71-73 | as written: 819 µs gives 1023 but 820 µs wraps to 64; −1 µs gives 1023 while the stored time is 0 |
| Encoder.FilterValueAsWrittenAgreesInRange | src/RotaryEncoder.cpp:71-73 | on glitch times in [0,12] both computations agree |
| Encoder.PcntUnits.constructor | src/RotaryEncoder.cpp:4 | the instance count starts at 0 |
| Encoder.RotaryEncoder.constructor | src/RotaryEncoder.cpp:6-115 | beyond PCNT_UNIT_MAX: invalid unit, count not incremented, nothing else set; otherwise the next unit, count +1, glitch time clamped to [0,12], limits ±16383, glitch filter programmed as written (FilterValueAsWritten of the unclamped argument), press time 0, counter and switch armed |
| Encoder.RotaryEncoder.IncrementDetentCounter | src/RotaryEncoder.cpp:140-149 | the detent count changes by DetentStep of the raw count; nothing else changes |
| Encoder.RotaryEncoder.IsrSwitchHandler | src/RotaryEncoder.cpp:130-137 | the latch is set only when the pin reads 0 |
| Encoder.RotaryEncoder.GetDetentCountAndReset | src/RotaryEncoder.cpp:158-161 | returns the accumulated count and leaves 0 |
| Encoder.RotaryEncoder.GetDebouncedSwitchStateAndReset | src/RotaryEncoder.cpp:164-192 | always clears the latch; returns Debounce's decision and updates the press time as it says |
| Encoder.RotaryEncoder.EnableCounter | src/RotaryEncoder.cpp:195-209 | either direction zeroes the detent count |
| Encoder.RotaryEncoder.EnableSwitch | src/RotaryEncoder.cpp:212-231 | either direction clears the latch and sets the press time to 0 |
| Input.LdrLatch | src/InputHandler.cpp:169-185 | off below 600, on above 850, unchanged within [600,850] |
| Input.LdrIgnoresBandSuffix | src/InputHandler.cpp:175-182 | readings in the band at the end of a run do not move the latch |
| Input.LdrFollowsLastDecisiveReading | src/InputHandler.cpp:169-185 | after any run of readings the panel is on iff the last reading outside the band was above it, or it was on and no reading left the band |
| Input.NextDisplayMode | src/InputHandler.cpp:104-109 | a press maps mode m in [0,7) to m+1, and 6 wraps to 0 |
| Input.DisplayModeCycles | src/InputHandler.cpp:107 | n presses give (m + n) mod 7, and return to m iff n is a multiple of 7 |
| Input.NextTextMode | src/InputHandler.cpp:111-115 | a press toggles 10↔11 and always lands in {10,11} from any mode ≥ −1 |
| Input.TextModeToggles | src/InputHandler.cpp:113 | two presses restore 10 or 11; below −1 C's negative remainder gives 9 |
| Input.BrightnessAcceleration | src/InputHandler.cpp:122 | the step is d² with d's sign |
| Input.NewBrightness | src/InputHandler.cpp:126-134 | the result lies in [minBright, maxBright] and is b + step when that fits |
| Input.NewHue | src/InputHandler.cpp:123-135 | the new hue equals h + 8d³ modulo 65536 |
| Input.BrightnessAccelerationMonotone | src/InputHandler.cpp:122 | more detents never give a smaller step |
| Input.NewBrightnessMonotone | src/InputHandler.cpp:122-134 | turning further clockwise never dims |
| Input.HueTurnBack | src/InputHandler.cpp:123-135 | turning back by the same detents restores the hue, wrap included |
| Input.PollOutcome | src/InputHandler.cpp:97-145 | the published state: LDR flag, mode and text mode stepped on accepted presses, new brightness and hue |
| Input.PollKeepsRanges | src/InputHandler.cpp:104-134 | a poll keeps the display mode in [0,7), the text mode in {10,11} and the brightness in its bounds |
| Input.InputHandler.GetState | src/InputHandler.cpp:153-165 | returns the five stored values together |
| Input.InputHandler.constructor | src/InputHandler.cpp:3-71 | glitch time clamped to [0,12] before both encoders are made, so each encoder that gets a unit programs the intended filter, 80 × the clamped time; starting values stored; both encoders' counts and latches reset; polling paused |
| Input.InputHandler.Pause | src/InputHandler.cpp:73-76 | polling off; the state is unchanged |
| Input.InputHandler.Resume | src/InputHandler.cpp:77-80 | polling on; the state is unchanged |
| Input.InputHandler.CalcLdrEnable | src/InputHandler.cpp:169-185 | stores the reading, applies LdrLatch and returns the latched flag |
| Input.InputHandler.Poll | src/InputHandler.cpp:85-150 | with polling off nothing changes; with it on, both latches and both detent counts are consumed and the state becomes PollOutcome of the debounced presses and counts |
| Input.InputHandler.Publish | src/InputHandler.cpp:104-145 | stores PollOutcome as the new state |
| Input.InputHandler.TakePresses | src/InputHandler.cpp:104-111 | the two switches' debounced presses, each latch cleared |
| Input.InputHandler.TakeDetents | src/InputHandler.cpp:118-119 | the two detent counts, each left at 0 |
| MainLoop.ModeTable | src/main.cpp:283-342 | *_AND_TEXT and TEXT_ONLY: background mode and text on; *_ONLY: both off; background drawing off only in TEXT_ONLY; plasma modes 40 fps, TEXT_ONLY 10, Game-of-Life 15 |
| MainLoop.NewDisplayMode | src/main.cpp:281-347 | an unknown mode changes nothing; a known one sets currentMatrix and issues only reconfiguring calls |
| MainLoop.NewDisplayModeInstallsTable | src/main.cpp:285-342 | the calls end with setMatrix, setBackgroundMode, setFPS, enableBackgroundDrawing, enableTextDrawing with the table's values; exactly TEXT_ONLY and GAME_AND_TEXT issue one extra hue call before them |
| MainLoop.DelayMs | src/main.cpp:350-361 | the delay is at least 1 ms: 25 − elapsed while under 25 ms have passed, else 1. Elapsed is the unsigned-long difference, so a wrap of millis() does not matter |
| MainLoop.HuePhase | src/main.cpp:205-235 | outside TEXT_ONLY a changed hue gives setHue then nextPalette and an unchanged one nothing; TEXT_ONLY never touches backHue or the palette |
| MainLoop.DisplayModePhase | src/main.cpp:239-244 | stores the new mode; any calls only reconfigure |
| MainLoop.Mode2Phase | src/main.cpp:249-269 | a changed second mode toggles white text in TEXT_ONLY, else issues toggleCycling |
| MainLoop.DarkPassOnlyPauses | src/main.cpp:174-189 | when the LDR flag turns false the pass pauses the driver and returns: no brightness, hue, mode or delay |
| MainLoop.LoopParts | src/main.cpp:157-272 | a pass that keeps the panel on is the LDR, brightness, hue, mode, second-mode and delay phases in order |
| MainLoop.BrightnessSentOnlyOnChange | src/main.cpp:194-199 | setPanelBrightness is issued iff the brightness differs from the stored one |
| MainLoop.BrightnessSentIsInput | src/main.cpp:194-199 | no other brightness value is ever sent |
| MainLoop.HueChangeSetsHueThenPalette | src/main.cpp:225-234 | outside TEXT_ONLY a changed hue gives setHue immediately followed by nextPalette |
| MainLoop.HueCallsOnlyOnChange | src/main.cpp:223-235 | outside TEXT_ONLY, setHue and nextPalette occur iff the hue changed |
| MainLoop.Mode2ChangeToggles | src/main.cpp:249-269 | a changed second mode toggles white text when the pass ends in TEXT_ONLY, and cycling otherwise |
| MainLoop.SteadyInputsChangeNothing | src/main.cpp:157-272 | unchanged inputs issue only the loop delay (plus the white text colours in TEXT_ONLY) and change no global except the loop time |
| MainLoop.Controller.constructor | src/main.cpp:75-110 | the globals' initial values, with currentMatrix the first Game-of-Life pattern |
| MainLoop.Controller.Loop | src/main.cpp:157-278 | one loop() pass leaves the globals and issues the calls that LoopSpec (the LDR phase, then the phases of the lemmas above) gives |
| MainLoop.Controller.ApplyInputs | src/main.cpp:193-272 | a lit pass: brightness, hue, display mode, second mode and delay phases, as ApplySpec gives them |
| MainLoop.Controller.HandleBrightness | src/main.cpp:194-199 | as BrightnessPhase: the brightness is stored and sent to the driver only when it changed |
| MainLoop.Controller.HandleHue | src/main.cpp:205-235 | as HuePhase: hue changes reach the driver's text colours (TEXT_ONLY) or the pattern hue and palette |
| MainLoop.Controller.HandleDisplayMode | src/main.cpp:239-244 | as DisplayModePhase: a changed mode is stored and installed through setNewDisplayMode |
| MainLoop.Controller.HandleMode2 | src/main.cpp:249-269 | as Mode2Phase: a changed second mode toggles white text or cycling |
| MainLoop.Controller.SetNewDisplayMode | src/main.cpp:281-347 | as NewDisplayMode: the switch over the seven modes installs the mode table's row; an unknown mode does nothing |
| MainLoop.Controller.Install | src/main.cpp:287-292 | the five shared statements of a switch case, in order |
| MainLoop.Controller.DelayForFps | src/main.cpp:350-361 | as DelayPhase: one Delay(DelayMs) call, then the loop time is remembered |

## Left out

- RTOS tasks, mutexes, atomics and `vTaskDelay`/`vTaskDelayUntil`:
  - a task's loop is one method call per pass;
  - a mutex wait is a boolean input;
  - a frame wait is a recorded event.
  
  Interleavings between the tasks are not modelled.
- `pdMS_TO_TICKS` is taken as the identity, as with a 1 kHz tick.
- Logging and the timing statistics (src/MatrixDriver.cpp:303-326).
- Failure to create a mutex or a task:
  - the model takes every mutex and task as created;
  - the input handler's constructor always resets the encoders and pauses, where the source skips that when task creation fails.
- A null `panel`, and the driver's null-sensor case.
- The GY21 sensor, the OTA handler, the onboard LED helpers (testLogValues, rgbLedMirrorsColour, testSweepOnboardLED) and setup's hardware setup. The sensor's strings and "value changed" flag are inputs.
- Adafruit `ColorHSV`, FastLED `ColorFromPalette` and `sin8`/`sin16`/`cos8`/`cos16`: uninterpreted function parameters. The plasma field is a function of (x, y, time counter).
- Float arithmetic: brightness factors are `real`, and a conversion to `uint8_t` is the floor. Float rounding is not modelled.
- PCNT and GPIO configuration, `resetPcntCounter`, `isrDetentHandler`'s hardware reads, and the destructors (including the encoder's `instanceCount--` and the mutex deletion). `PCNT_UNIT_MAX` is a parameter.
- Indeterminate initial values:
  - Encoder.RotaryEncoder.constructor: an encoder built after the units run out leaves its other fields unset, as in the source; the model states nothing about them. The detent count and latch are never initialised by the constructor (src/RotaryEncoder.cpp:6-115), so the input handler's reset supplies them.
  - TextBuffers.TextSlot.constructor: the font and colour fields start at DEFAULT_FONT and 0. In the source they are indeterminate until the driver's constructor sets them, so this only fixes a value the constructor overwrites. The text buffer (`textBufferTemperature` / `textBufferHumidity`, src/MatrixDriver.h:92,104) starts as all NULs here; in the source it has no initialiser and stays indeterminate until the first setTemperatureText / setHumidityText, which the driver's constructor makes with an empty text (src/MatrixDriver.cpp:51,60).
- The input handler's `minHue`/`maxHue` are stored but not used by the source (src/InputHandler.cpp:128-135), and not used here either.
- Input.BrightnessAcceleration: the step `d·d·sign(d)` is computed in `int` (src/InputHandler.cpp:122). Its 32-bit overflow (|d| ≥ 46341) is not modelled; the count is unbounded.
- Input.NewHue: the acceleration `8·d·d·d` is computed in `int` (src/InputHandler.cpp:123). Its 32-bit overflow (|d| > 645) is not modelled; the count is unbounded.
- GameLife2.GameLifeMatrix2.CalcNewStates: `alivePalInd` is an `int` (src/GameLifeMatrix2.h:64) that grows by one on every cycling generation (src/GameLifeMatrix2.cpp:78), so it overflows after 2^31 generations. The model's integer does not overflow. The value is only used modulo 256 (PalettePosition), so the colours are unaffected until the overflow itself.
- Driver.EffectivePeriod, Driver.MatrixDriver.constructor: a panel that reports a refresh rate of 0 is excluded by precondition (`refreshRate > 0`). In the source, the first task pass after construction divides `1000 / panel->getCalculatedRefreshRate()` (src/MatrixDriver.cpp:173), because the constructor sets fpsChanged (src/MatrixDriver.cpp:23), so a zero rate is an integer division by zero there.
- MATRIX_WIDTH and MATRIX_HEIGHT are used (src/MatrixDriver.cpp:441, src/MatrixDriver.h:98-101) but defined in no file of this model; the model fixes them at 64 and 32, the size of the panel.
- Encoder.Debounce: `millis()` and the press time are unbounded integers. The wrap of `long` after about 24 days is not modelled.
- `matrixDriver->setHue`, `nextPalette`, `toggleCycling` and `inputHandler->setHue` are called by src/main.cpp but not declared in the headers shown, so they are recorded as commands only. GameLife2's `cycling` flag exists only in the model, as a constructor argument.
- `testLogValues` and `valueChanged` (logging only).
- Where the code and its comments or header defaults disagree, the model follows the code:
  - survival odds are 9/1000 and 49/1000, not the "1%"/"5%" of the comments, because `>` is strict;
  - getRGBFrom565 does not replicate high bits into the low ones;
  - GameLifeMatrix::calcNewStates never stores the new state, so the alive grid alternates between two grids (src/GameLifeMatrix.cpp:55-65);
  - GameLifeMatrix2's background preset 0.9 is overwritten with 0.621 (src/GameLifeMatrix2.cpp:5,12).
- The driver's constructor stores its matrix pointer through the model's SetMatrix. With a null matrix that leaves no matrix, as the direct store does.
- The model swaps the grid references before writing the new generation, where the source computes first and then swaps. The writes touch only the target grid, so the resulting state is the same.

## Findings

| source | as written | input that shows it | evidently intended | confidence | as-written member | corrected member |
|---|---|---|---|---|---|---|
| src/RotaryEncoder.cpp:71-73 | `uint16_t filterValue = 80 * glitchFilterTimeMicroS` multiplies the constructor's unclamped `int16_t` argument, not the glitch time clamped to [0,12] at line 22, then caps at 1023 | 820 µs: 80 × 820 = 65600 wraps to 64 cycles, below the 1023 that 819 µs gives; −1 µs gives 1023 cycles while the stored glitch time is 0 | 80 × the clamped glitch time (at most 960 cycles, so the cap never fires), as the comment at line 21 says | not executed; latent, since the input handler clamps before constructing (src/InputHandler.cpp:37) | Encoder.FilterValueAsWrittenWraps | Encoder.FilterValueFollowsStoredTime |

Encoder.RotaryEncoder.constructor programs the filter as written, through FilterValueAsWritten. The input handler's constructor, the only place that creates encoders, proves that each encoder it creates gets the intended FilterValue, because it clamps the glitch time first.
