/** The sketch's control loop (src/main.cpp): each pass reads the input handler's snapshot and turns changes
    into calls on the matrix driver, the current pattern and the input handler. Those calls are recorded, in
    order, as commands; the globals loop() keeps between passes are the fields of a controller object. */
module MainLoop {
  import opened Colour
  import opened Arduino
  import opened Modes
  import opened Input

  /** The frame rates main.cpp asks the driver for. */
  const TextOnlyFps := 10
  const GameLifeFps := 15
  const PlasmaFps := 40
  /** The rate delayForFPS paces loop() at: 1000 / 40 = 25 ms a pass. */
  const MainLoopFps := 40
  const LoopPeriodMs := 1000 / MainLoopFps
  /** TEMPERATURE_COLOR_DEFAULT and HUMIDITY_COLOR_DEFAULT: white. */
  const TemperatureColourDefault: Word := 0xFFFF
  const HumidityColourDefault: Word := 0xFFFF
  /** COLOURED_TEXT_SATURATION. */
  const ColouredTextSaturation: Byte := 180

  /** The three pattern objects currentMatrix can point at. */
  datatype MatrixChoice = GameLifeMatrix | GameLifeMatrix2 | PlasmaMatrix

  /** A call loop() or setNewDisplayMode() makes on another object. */
  datatype Command =
    | InputSetHue(hue: Word)
    | SetMatrix(matrix: MatrixChoice)
    | SetBackgroundMode(matrix: MatrixChoice, background: bool)
    | SetFps(fps: int)
    | EnableBackgroundDrawing(enable: bool)
    | EnableTextDrawing(enable: bool)
    | Resume
    | Pause
    | SetPanelBrightness(brightness: Byte)
    | SetTemperatureFontColour(colour: Word)
    | SetHumidityFontColour(colour: Word)
    | SetHue(hue: Word)
    | NextPalette
    | ToggleCycling
    | Delay(ms: int)

  /** The globals loop() reads and writes, and delayForFPS's static lastLoopTime. */
  datatype Globals = Globals(panelEnabled: bool, brightness: Byte, backHue: Word, displayMode: int, mode2: int,
                             textWhiteOnly: bool, textHue: Word, currentMatrix: MatrixChoice, lastLoopTime: U32)

  /** The globals' initial values; setup() points currentMatrix at the first Game-of-Life pattern. */
  const InitialGlobals := Globals(true, 255, 32768, GameAndText, Mode2A, true, 32768, GameLifeMatrix, 0)

  /** The commands a piece of the loop issues and the globals it leaves. */
  datatype Outcome = Outcome(globals: Globals, commands: seq<Command>)

  predicate KnownMode(mode: int)
  {
    0 <= mode < TotalModes
  }

  /** The calls setNewDisplayMode makes: it reconfigures and never touches brightness, hue, palette, cycling
      or timing. */
  predicate Reconfigures(c: Command)
  {
    c.InputSetHue? || c.SetMatrix? || c.SetBackgroundMode? || c.SetFps? || c.EnableBackgroundDrawing?
    || c.EnableTextDrawing?
  }

  /** What setNewDisplayMode's switch sets for each known mode. */
  datatype ModeSetting = ModeSetting(matrix: MatrixChoice, backgroundMode: bool, fps: int, backgroundDrawing: bool,
                                     textDrawing: bool)

  /** The dispatch table of setNewDisplayMode. The *_AND_TEXT modes (and TEXT_ONLY) draw text over a pattern
      in background mode, the *_ONLY modes draw the pattern alone at full brightness; plasma runs at 40 fps,
      the automata at 15 and TEXT_ONLY at 10, with the first automaton kept current but not drawn. */
  function ModeTable(mode: int): (s: ModeSetting)
    requires KnownMode(mode)
    ensures s.textDrawing <==> mode <= PlasmaAndText
    ensures s.backgroundMode <==> mode <= PlasmaAndText
    ensures s.backgroundDrawing <==> mode != TextOnly
    ensures s.matrix == PlasmaMatrix <==> mode == PlasmaAndText || mode == PlasmaOnly
    ensures s.matrix == GameLifeMatrix2 <==> mode == Game2AndText || mode == Game2Only
    ensures s.fps == if mode == TextOnly then TextOnlyFps else if s.matrix == PlasmaMatrix then PlasmaFps else GameLifeFps
  {
    match mode
    case 0 => ModeSetting(GameLifeMatrix, true, TextOnlyFps, false, true)
    case 1 => ModeSetting(GameLifeMatrix, true, GameLifeFps, true, true)
    case 2 => ModeSetting(GameLifeMatrix2, true, GameLifeFps, true, true)
    case 3 => ModeSetting(PlasmaMatrix, true, PlasmaFps, true, true)
    case 4 => ModeSetting(GameLifeMatrix, false, GameLifeFps, true, false)
    case 5 => ModeSetting(GameLifeMatrix2, false, GameLifeFps, true, false)
    case 6 => ModeSetting(PlasmaMatrix, false, PlasmaFps, true, false)
  }

  /** setNewDisplayMode: TEXT_ONLY hands the input handler the text hue and GAME_AND_TEXT the background hue;
      every known mode then installs its pattern and settings; an unknown mode does nothing. */
  function NewDisplayMode(g: Globals): (o: Outcome)
    ensures !KnownMode(g.displayMode) ==> o == Outcome(g, [])
    ensures KnownMode(g.displayMode) ==> o.globals == g.(currentMatrix := ModeTable(g.displayMode).matrix)
    ensures forall c :: c in o.commands ==> Reconfigures(c)
  {
    if !KnownMode(g.displayMode) then Outcome(g, [])
    else
      var s := ModeTable(g.displayMode);
      var handover := if g.displayMode == TextOnly then [InputSetHue(g.textHue)]
                      else if g.displayMode == GameAndText then [InputSetHue(g.backHue)]
                      else [];
      Outcome(g.(currentMatrix := s.matrix),
              handover + [SetMatrix(s.matrix), SetBackgroundMode(s.matrix, s.backgroundMode), SetFps(s.fps),
                          EnableBackgroundDrawing(s.backgroundDrawing), EnableTextDrawing(s.textDrawing)])
  }

  /** The commands setNewDisplayMode issues for a known mode end with the table's five settings, in order. */
  lemma NewDisplayModeInstallsTable(g: Globals)
    requires KnownMode(g.displayMode)
    ensures var o := NewDisplayMode(g); var s := ModeTable(g.displayMode); var n := |o.commands|;
            n >= 5
            && o.commands[n - 5..] == [SetMatrix(s.matrix), SetBackgroundMode(s.matrix, s.backgroundMode),
                                      SetFps(s.fps), EnableBackgroundDrawing(s.backgroundDrawing),
                                      EnableTextDrawing(s.textDrawing)]
            && (n == 6 <==> g.displayMode == TextOnly || g.displayMode == GameAndText)
  {
  }

  /** delayForFPS: the elapsed time is an unsigned long difference, so it survives millis() wrapping; 25 minus
      it is taken back to int, and a wait of at most 0 becomes 1 ms. */
  function DelayMs(lastLoopTime: U32, now: U32): (ms: int)
    ensures 1 <= ms
    ensures var elapsed := (now - lastLoopTime) % 0x1_0000_0000;
            elapsed <= 0x8000_0000 + LoopPeriodMs ==> ms == if elapsed < LoopPeriodMs then LoopPeriodMs - elapsed else 1
  {
    var elapsed := (now - lastLoopTime) % 0x1_0000_0000;
    var delayTime := ToI32(LoopPeriodMs - elapsed);
    if delayTime > 0 then delayTime else 1
  }

  /** The LDR flag changing resumes or pauses the driver. */
  function LdrPhase(g: Globals, ldrEnabled: bool): Outcome
  {
    if g.panelEnabled == ldrEnabled then Outcome(g, [])
    else Outcome(g.(panelEnabled := ldrEnabled), if ldrEnabled then [Resume] else [Pause])
  }

  /** The pass ends early: the panel was on and the LDR now says off. */
  predicate PausesPanel(g: Globals, ldrEnabled: bool)
  {
    g.panelEnabled && !ldrEnabled
  }

  function BrightnessPhase(g: Globals, brightness: Byte): Outcome
  {
    if brightness == g.brightness then Outcome(g, [])
    else Outcome(g.(brightness := brightness), [SetPanelBrightness(brightness)])
  }

  /** The mode-dependent hue handling. In TEXT_ONLY white text is re-sent on every pass and coloured text
      follows a changed hue; elsewhere a changed hue is passed on and followed by a palette change. */
  function HuePhase(g: Globals, hue: Word, colourHsv: ColourHsv): (o: Outcome)
    ensures g.displayMode != TextOnly && hue != g.backHue ==>
              o == Outcome(g.(backHue := hue), [SetHue(hue), NextPalette])
    ensures g.displayMode != TextOnly && hue == g.backHue ==> o == Outcome(g, [])
    ensures g.displayMode == TextOnly ==> o.globals.backHue == g.backHue && NextPalette !in o.commands
    ensures o.globals == g.(backHue := o.globals.backHue, textHue := o.globals.textHue)
    ensures forall c :: c in o.commands ==>
              c.SetTemperatureFontColour? || c.SetHumidityFontColour? || c.SetHue? || c.NextPalette?
  {
    if g.displayMode == TextOnly then
      if g.textWhiteOnly then
        Outcome(g, [SetTemperatureFontColour(TemperatureColourDefault), SetHumidityFontColour(HumidityColourDefault)])
      else if hue != g.textHue then
        var colour := HsvTo565(colourHsv, hue, ColouredTextSaturation, 255);
        Outcome(g.(textHue := hue), [SetTemperatureFontColour(colour), SetHumidityFontColour(colour)])
      else Outcome(g, [])
    else if hue != g.backHue then Outcome(g.(backHue := hue), [SetHue(hue), NextPalette])
    else Outcome(g, [])
  }

  function DisplayModePhase(g: Globals, displayMode: int): (o: Outcome)
    ensures o.globals.displayMode == displayMode
    ensures o.globals == g.(displayMode := displayMode, currentMatrix := o.globals.currentMatrix)
    ensures forall c :: c in o.commands ==> Reconfigures(c)
  {
    if displayMode == g.displayMode then Outcome(g, []) else NewDisplayMode(g.(displayMode := displayMode))
  }

  /** A changed second mode toggles white text in TEXT_ONLY (handing the input handler the text hue when the
      text turns coloured) and toggles cycling elsewhere. */
  function Mode2Phase(g: Globals, mode2: int): (o: Outcome)
    ensures o.globals.mode2 == mode2
    ensures mode2 != g.mode2 && g.displayMode == TextOnly ==>
              o.globals == g.(mode2 := mode2, textWhiteOnly := !g.textWhiteOnly) && ToggleCycling !in o.commands
    ensures mode2 != g.mode2 && g.displayMode != TextOnly ==> o == Outcome(g.(mode2 := mode2), [ToggleCycling])
    ensures forall c :: c in o.commands ==> c.InputSetHue? || c.ToggleCycling?
  {
    if mode2 == g.mode2 then Outcome(g, [])
    else if g.displayMode == TextOnly then
      Outcome(g.(mode2 := mode2, textWhiteOnly := !g.textWhiteOnly), if g.textWhiteOnly then [InputSetHue(g.textHue)] else [])
    else Outcome(g.(mode2 := mode2), [ToggleCycling])
  }

  function DelayPhase(g: Globals, now: U32): Outcome
  {
    Outcome(g.(lastLoopTime := now), [Delay(DelayMs(g.lastLoopTime, now))])
  }

  /** The part of a pass after the LDR check: brightness, hue, display mode, second mode, delay. */
  function ApplySpec(g: Globals, inputs: InputState, now: U32, colourHsv: ColourHsv): Outcome
  {
    var bright := BrightnessPhase(g, inputs.brightness);
    var hue := HuePhase(bright.globals, inputs.hue, colourHsv);
    var mode := DisplayModePhase(hue.globals, inputs.displayMode);
    var mode2 := Mode2Phase(mode.globals, inputs.textMode);
    var delay := DelayPhase(mode2.globals, now);
    Outcome(delay.globals, bright.commands + hue.commands + mode.commands + mode2.commands + delay.commands)
  }

  /** One pass of loop(), given the input handler's snapshot and millis(). */
  function LoopSpec(g: Globals, inputs: InputState, now: U32, colourHsv: ColourHsv): Outcome
  {
    var ldr := LdrPhase(g, inputs.ldrEnabled);
    if PausesPanel(g, inputs.ldrEnabled) then ldr
    else
      var rest := ApplySpec(ldr.globals, inputs, now, colourHsv);
      Outcome(rest.globals, ldr.commands + rest.commands)
  }

  /** The LDR going dark pauses the driver and ends the pass: no brightness, hue, mode or delay handling. */
  lemma DarkPassOnlyPauses(g: Globals, inputs: InputState, now: U32, colourHsv: ColourHsv)
    requires PausesPanel(g, inputs.ldrEnabled)
    ensures LoopSpec(g, inputs, now, colourHsv) == Outcome(g.(panelEnabled := false), [Pause])
  {
  }

  /** A pass that keeps the panel on is the six phases' commands, one after the other. */
  lemma LoopParts(g: Globals, inputs: InputState, now: U32, colourHsv: ColourHsv)
    requires !PausesPanel(g, inputs.ldrEnabled)
    ensures var ldr := LdrPhase(g, inputs.ldrEnabled);
            var bright := BrightnessPhase(ldr.globals, inputs.brightness);
            var hue := HuePhase(bright.globals, inputs.hue, colourHsv);
            var mode := DisplayModePhase(hue.globals, inputs.displayMode);
            var mode2 := Mode2Phase(mode.globals, inputs.textMode);
            var delay := DelayPhase(mode2.globals, now);
            LoopSpec(g, inputs, now, colourHsv)
            == Outcome(delay.globals, ldr.commands + bright.commands + hue.commands + mode.commands + mode2.commands
                                      + delay.commands)
  {
    var ldr := LdrPhase(g, inputs.ldrEnabled);
    var bright := BrightnessPhase(ldr.globals, inputs.brightness);
    var hue := HuePhase(bright.globals, inputs.hue, colourHsv);
    var mode := DisplayModePhase(hue.globals, inputs.displayMode);
    var mode2 := Mode2Phase(mode.globals, inputs.textMode);
    var delay := DelayPhase(mode2.globals, now);
    AppendAssoc(ldr.commands, bright.commands + hue.commands + mode.commands + mode2.commands, delay.commands);
    AppendAssoc(ldr.commands, bright.commands + hue.commands + mode.commands, mode2.commands);
    AppendAssoc(ldr.commands, bright.commands + hue.commands, mode.commands);
    AppendAssoc(ldr.commands, bright.commands, hue.commands);
  }

  /** The brightness goes to the driver exactly when it differs from the stored one. */
  lemma BrightnessSentOnlyOnChange(g: Globals, inputs: InputState, now: U32, colourHsv: ColourHsv)
    requires !PausesPanel(g, inputs.ldrEnabled)
    ensures var o := LoopSpec(g, inputs, now, colourHsv);
            (SetPanelBrightness(inputs.brightness) in o.commands <==> inputs.brightness != g.brightness)
            && o.globals.brightness == inputs.brightness
  {
    var ldr := LdrPhase(g, inputs.ldrEnabled);
    var bright := BrightnessPhase(ldr.globals, inputs.brightness);
    var hue := HuePhase(bright.globals, inputs.hue, colourHsv);
    var mode := DisplayModePhase(hue.globals, inputs.displayMode);
    var mode2 := Mode2Phase(mode.globals, inputs.textMode);
    LoopParts(g, inputs, now, colourHsv);
    assert SetPanelBrightness(inputs.brightness) !in hue.commands;
    assert SetPanelBrightness(inputs.brightness) !in mode.commands;
    assert SetPanelBrightness(inputs.brightness) !in mode2.commands;
  }

  /** No other brightness value is ever sent. */
  lemma BrightnessSentIsInput(g: Globals, inputs: InputState, now: U32, colourHsv: ColourHsv)
    requires !PausesPanel(g, inputs.ldrEnabled)
    ensures forall c :: c in LoopSpec(g, inputs, now, colourHsv).commands && c.SetPanelBrightness? ==>
                          c == SetPanelBrightness(inputs.brightness)
  {
    var ldr := LdrPhase(g, inputs.ldrEnabled);
    var bright := BrightnessPhase(ldr.globals, inputs.brightness);
    var hue := HuePhase(bright.globals, inputs.hue, colourHsv);
    var mode := DisplayModePhase(hue.globals, inputs.displayMode);
    var mode2 := Mode2Phase(mode.globals, inputs.textMode);
    LoopParts(g, inputs, now, colourHsv);
    assert forall c :: c in hue.commands ==> !c.SetPanelBrightness?;
    assert forall c :: c in mode.commands ==> !c.SetPanelBrightness?;
    assert forall c :: c in mode2.commands ==> !c.SetPanelBrightness?;
  }

  /** Outside TEXT_ONLY a changed hue gives setHue immediately followed by nextPalette. */
  lemma HueChangeSetsHueThenPalette(g: Globals, inputs: InputState, now: U32, colourHsv: ColourHsv)
    requires !PausesPanel(g, inputs.ldrEnabled) && g.displayMode != TextOnly && inputs.hue != g.backHue
    ensures var o := LoopSpec(g, inputs, now, colourHsv);
            (exists i :: 0 <= i < |o.commands| - 1 && o.commands[i] == SetHue(inputs.hue)
                         && o.commands[i + 1] == NextPalette)
            && o.globals.backHue == inputs.hue
  {
    var ldr := LdrPhase(g, inputs.ldrEnabled);
    var bright := BrightnessPhase(ldr.globals, inputs.brightness);
    var hue := HuePhase(bright.globals, inputs.hue, colourHsv);
    LoopParts(g, inputs, now, colourHsv);
    var o := LoopSpec(g, inputs, now, colourHsv);
    var i := |ldr.commands + bright.commands|;
    assert o.commands[i] == SetHue(inputs.hue) && o.commands[i + 1] == NextPalette;
  }

  /** Outside TEXT_ONLY the hue and palette calls happen only when the hue changed. */
  lemma HueCallsOnlyOnChange(g: Globals, inputs: InputState, now: U32, colourHsv: ColourHsv)
    requires !PausesPanel(g, inputs.ldrEnabled) && g.displayMode != TextOnly
    ensures var o := LoopSpec(g, inputs, now, colourHsv);
            (NextPalette in o.commands <==> inputs.hue != g.backHue)
            && (SetHue(inputs.hue) in o.commands <==> inputs.hue != g.backHue)
  {
    var ldr := LdrPhase(g, inputs.ldrEnabled);
    var bright := BrightnessPhase(ldr.globals, inputs.brightness);
    var hue := HuePhase(bright.globals, inputs.hue, colourHsv);
    var mode := DisplayModePhase(hue.globals, inputs.displayMode);
    var mode2 := Mode2Phase(mode.globals, inputs.textMode);
    LoopParts(g, inputs, now, colourHsv);
    assert forall c: Command :: c in ldr.commands + bright.commands ==> !c.SetHue? && !c.NextPalette?;
    assert forall c :: c in mode.commands ==> !c.SetHue? && !c.NextPalette?;
    assert forall c :: c in mode2.commands ==> !c.SetHue? && !c.NextPalette?;
  }

  /** A changed second mode toggles white text when the pass ends in TEXT_ONLY and toggles cycling otherwise. */
  lemma Mode2ChangeToggles(g: Globals, inputs: InputState, now: U32, colourHsv: ColourHsv)
    requires !PausesPanel(g, inputs.ldrEnabled) && inputs.textMode != g.mode2
    ensures var o := LoopSpec(g, inputs, now, colourHsv);
            o.globals.mode2 == inputs.textMode && o.globals.displayMode == inputs.displayMode
            && (inputs.displayMode == TextOnly ==>
                  o.globals.textWhiteOnly == !g.textWhiteOnly && ToggleCycling !in o.commands)
            && (inputs.displayMode != TextOnly ==>
                  o.globals.textWhiteOnly == g.textWhiteOnly && ToggleCycling in o.commands)
  {
    var ldr := LdrPhase(g, inputs.ldrEnabled);
    var bright := BrightnessPhase(ldr.globals, inputs.brightness);
    var hue := HuePhase(bright.globals, inputs.hue, colourHsv);
    var mode := DisplayModePhase(hue.globals, inputs.displayMode);
    var mode2 := Mode2Phase(mode.globals, inputs.textMode);
    var delay := DelayPhase(mode2.globals, now);
    var o := LoopSpec(g, inputs, now, colourHsv);
    assert o.commands == ldr.commands + ApplySpec(ldr.globals, inputs, now, colourHsv).commands;
    assert ApplySpec(ldr.globals, inputs, now, colourHsv).commands
           == bright.commands + hue.commands + mode.commands + mode2.commands + delay.commands;
    assert mode.globals.mode2 == g.mode2 && mode.globals.textWhiteOnly == g.textWhiteOnly;
  }

  lemma AppendAssoc(a: seq<Command>, b: seq<Command>, c: seq<Command>)
    ensures a + (b + c) == a + b + c
  {
  }

  /** A pass whose inputs match the stored globals issues nothing but the loop delay, and the white text
      colours TEXT_ONLY re-sends every pass. */
  lemma SteadyInputsChangeNothing(g: Globals, inputs: InputState, now: U32, colourHsv: ColourHsv)
    requires inputs.ldrEnabled == g.panelEnabled && inputs.brightness == g.brightness
    requires inputs.displayMode == g.displayMode && inputs.textMode == g.mode2
    requires inputs.hue == if g.displayMode == TextOnly then g.textHue else g.backHue
    ensures var o := LoopSpec(g, inputs, now, colourHsv);
            o.globals == g.(lastLoopTime := now)
            && o.commands == (if g.displayMode == TextOnly && g.textWhiteOnly
                              then [SetTemperatureFontColour(TemperatureColourDefault),
                                    SetHumidityFontColour(HumidityColourDefault)]
                              else []) + [Delay(DelayMs(g.lastLoopTime, now))]
  {
  }

  /** The loop() state of the sketch: its globals, the pattern currentMatrix points at, and the calls made. */
  class Controller {
    /** Adafruit's ColorHSV, which Matrix::hsvTo565 calls. */
    const colourHsv: ColourHsv
    var panelEnabled: bool
    var brightness: Byte
    var backHue: Word
    var displayMode: int
    var mode2: int
    var textWhiteOnly: bool
    var textHue: Word
    var currentMatrix: MatrixChoice
    var lastLoopTime: U32
    var commands: seq<Command>

    function Snapshot(): Globals
      reads this
    {
      Globals(panelEnabled, brightness, backHue, displayMode, mode2, textWhiteOnly, textHue, currentMatrix,
              lastLoopTime)
    }

    constructor(colourHsv: ColourHsv)
      ensures Snapshot() == InitialGlobals && commands == [] && this.colourHsv == colourHsv
    {
      this.colourHsv := colourHsv;
      panelEnabled := true;
      brightness := 255;
      backHue := 32768;
      displayMode := GameAndText;
      mode2 := Mode2A;
      textWhiteOnly := true;
      textHue := backHue;
      currentMatrix := GameLifeMatrix;
      lastLoopTime := 0;
      commands := [];
    }

    /** loop(), with the snapshot getState returns and millis() as parameters. */
    method Loop(inputs: InputState, now: U32)
      modifies this
      ensures Snapshot() == LoopSpec(old(Snapshot()), inputs, now, colourHsv).globals
      ensures commands == old(commands) + LoopSpec(old(Snapshot()), inputs, now, colourHsv).commands
    {
      ghost var start := commands;
      if panelEnabled != inputs.ldrEnabled {
        panelEnabled := inputs.ldrEnabled;
        if panelEnabled {
          commands := commands + [Resume];
        } else {
          commands := commands + [Pause];
          return;
        }
      }
      ghost var ldr := commands[|start|..];
      assert commands == start + ldr;
      ApplyInputs(inputs, now);
      AppendAssoc(start, ldr, commands[|start| + |ldr|..]);
    }

    /** The rest of loop() once the panel is known to stay on. */
    method ApplyInputs(inputs: InputState, now: U32)
      modifies this
      ensures Snapshot() == ApplySpec(old(Snapshot()), inputs, now, colourHsv).globals
      ensures commands == old(commands) + ApplySpec(old(Snapshot()), inputs, now, colourHsv).commands
    {
      ghost var g := Snapshot();
      ghost var start := commands;
      ghost var bright := BrightnessPhase(g, inputs.brightness);
      ghost var hue := HuePhase(bright.globals, inputs.hue, colourHsv);
      ghost var mode := DisplayModePhase(hue.globals, inputs.displayMode);
      ghost var mode2 := Mode2Phase(mode.globals, inputs.textMode);
      ghost var delay := DelayPhase(mode2.globals, now);
      HandleBrightness(inputs.brightness);
      HandleHue(inputs.hue);
      HandleDisplayMode(inputs.displayMode);
      HandleMode2(inputs.textMode);
      DelayForFps(now);
      AppendAssoc(start, bright.commands + hue.commands + mode.commands + mode2.commands, delay.commands);
      AppendAssoc(start, bright.commands + hue.commands + mode.commands, mode2.commands);
      AppendAssoc(start, bright.commands + hue.commands, mode.commands);
      AppendAssoc(start, bright.commands, hue.commands);
    }

    /** The brightness step of loop(). */
    method HandleBrightness(newBrightness: Byte)
      modifies this
      ensures Snapshot() == BrightnessPhase(old(Snapshot()), newBrightness).globals
      ensures commands == old(commands) + BrightnessPhase(old(Snapshot()), newBrightness).commands
    {
      if newBrightness != brightness {
        brightness := newBrightness;
        commands := commands + [SetPanelBrightness(brightness)];
      }
    }

    /** The display-mode step of loop(). */
    method HandleDisplayMode(newDisplayMode: int)
      modifies this
      ensures Snapshot() == DisplayModePhase(old(Snapshot()), newDisplayMode).globals
      ensures commands == old(commands) + DisplayModePhase(old(Snapshot()), newDisplayMode).commands
    {
      if newDisplayMode != displayMode {
        displayMode := newDisplayMode;
        SetNewDisplayMode();
      }
    }

    /** The hue step of loop(). */
    method HandleHue(hue: Word)
      modifies this
      ensures Snapshot() == HuePhase(old(Snapshot()), hue, colourHsv).globals
      ensures commands == old(commands) + HuePhase(old(Snapshot()), hue, colourHsv).commands
    {
      if displayMode == TextOnly {
        if textWhiteOnly {
          commands := commands + [SetTemperatureFontColour(TemperatureColourDefault),
                                  SetHumidityFontColour(HumidityColourDefault)];
        } else if hue != textHue {
          textHue := hue;
          var colour := HsvTo565(colourHsv, textHue, ColouredTextSaturation, 255);
          commands := commands + [SetTemperatureFontColour(colour), SetHumidityFontColour(colour)];
        }
      } else if hue != backHue {
        backHue := hue;
        commands := commands + [SetHue(backHue), NextPalette];
      }
    }

    /** The second-mode step of loop(). */
    method HandleMode2(newMode2: int)
      modifies this
      ensures Snapshot() == Mode2Phase(old(Snapshot()), newMode2).globals
      ensures commands == old(commands) + Mode2Phase(old(Snapshot()), newMode2).commands
    {
      if newMode2 != mode2 {
        mode2 := newMode2;
        if displayMode == TextOnly {
          textWhiteOnly := !textWhiteOnly;
          if !textWhiteOnly {
            commands := commands + [InputSetHue(textHue)];
          }
        } else {
          commands := commands + [ToggleCycling];
        }
      }
    }

    /** setNewDisplayMode: the switch over the display mode. */
    method SetNewDisplayMode()
      modifies this
      ensures Snapshot() == NewDisplayMode(old(Snapshot())).globals
      ensures commands == old(commands) + NewDisplayMode(old(Snapshot())).commands
    {
      if displayMode == TextOnly {
        commands := commands + [InputSetHue(textHue)];
        Install(GameLifeMatrix, true, TextOnlyFps, false, true);
      } else if displayMode == GameAndText {
        commands := commands + [InputSetHue(backHue)];
        Install(GameLifeMatrix, true, GameLifeFps, true, true);
      } else if displayMode == Game2AndText {
        Install(GameLifeMatrix2, true, GameLifeFps, true, true);
      } else if displayMode == PlasmaAndText {
        Install(PlasmaMatrix, true, PlasmaFps, true, true);
      } else if displayMode == GameOnly {
        Install(GameLifeMatrix, false, GameLifeFps, true, false);
      } else if displayMode == Game2Only {
        Install(GameLifeMatrix2, false, GameLifeFps, true, false);
      } else if displayMode == PlasmaOnly {
        Install(PlasmaMatrix, false, PlasmaFps, true, false);
      }
    }

    /** The five statements every case of setNewDisplayMode's switch shares. */
    method Install(matrix: MatrixChoice, background: bool, fps: int, backgroundDrawing: bool, textDrawing: bool)
      modifies this
      ensures Snapshot() == old(Snapshot()).(currentMatrix := matrix)
      ensures commands == old(commands) + [SetMatrix(matrix), SetBackgroundMode(matrix, background), SetFps(fps),
                                           EnableBackgroundDrawing(backgroundDrawing), EnableTextDrawing(textDrawing)]
    {
      currentMatrix := matrix;
      commands := commands + [SetMatrix(currentMatrix), SetBackgroundMode(currentMatrix, background), SetFps(fps),
                              EnableBackgroundDrawing(backgroundDrawing), EnableTextDrawing(textDrawing)];
    }

    /** delayForFPS: wait out the rest of the 25 ms pass and remember when this one ended. */
    method DelayForFps(now: U32)
      modifies this
      ensures Snapshot() == DelayPhase(old(Snapshot()), now).globals
      ensures commands == old(commands) + DelayPhase(old(Snapshot()), now).commands
    {
      var currentLoopTime := now;
      var delayTime := ToI32(LoopPeriodMs - (currentLoopTime - lastLoopTime) % 0x1_0000_0000);
      if delayTime > 0 {
        commands := commands + [Delay(delayTime)];
      } else {
        commands := commands + [Delay(1)];
      }
      lastLoopTime := currentLoopTime;
    }
  }
}
