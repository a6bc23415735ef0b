/** The plasma pattern (src/PlasmaMatrix.cpp): every generation repaints the whole primary grid from a field
    that moves with time_counter, and every 1024 generations both counters restart and a palette is picked at
    random from five. */
module Plasma {
  import opened Colour
  import opened MatrixBase

  const BackgroundBrightness: real := 0.6
  const ForegroundBrightness: real := 1.0

  /** The palettes array, in order. */
  const PlasmaPalettes: seq<PaletteName> := [HeatColors, LavaColors, RainbowColors, RainbowStripeColors, CloudColors]

  /** Generations between palette changes. */
  const CycleLength := 1024

  type I16 = v: int | -0x8000 <= v < 0x8000

  /** The int16_t value v that the sin8/sin16/cos8/cos16 formula gives cell (x, y) at time t (FastLED code, so a
      parameter). */
  type PlasmaField = (int, int, Word) -> I16

  /** random(0, 5) when the palette is re-picked. */
  type PalettePick = p: int | 0 <= p < 5

  /** v >> 8 (an arithmetic shift, so floor division) passed as the uint8_t palette index. */
  function PaletteIndex(v: I16): (index: Byte)
    ensures v >= 0 ==> index == v / 256
    ensures v < 0 ==> index == 256 + v / 256
  {
    (v / 256) % 0x100
  }

  /** static_cast<uint8_t>(currentRelativeBrightness * 255), float rounding not modelled. */
  function ScaledBrightness(relative: real): (b: Byte)
    requires IsFraction(relative)
    ensures relative == 1.0 ==> b == 255
  {
    var product := relative * 255.0;
    assert product.Floor as real <= product <= 255.0;
    product.Floor
  }

  /** The colour a cell is painted at time t. */
  function PlasmaColour(field: PlasmaField, colourFromPalette: PaletteLookup, palette: PaletteName, brightness: Byte,
                        t: Word, x: int, y: int): Word
  {
    Pack(colourFromPalette(palette, PaletteIndex(field(x, y, t)), brightness))
  }

  /** The generation counter after one call: one more, back to 0 on reaching 1024. */
  function CycleStep(cycles: Word): (next: Word)
    requires cycles < CycleLength
    ensures next < CycleLength
    ensures cycles + 1 < CycleLength ==> next == cycles + 1
    ensures cycles + 1 == CycleLength ==> next == 0
  {
    var incremented := (cycles + 1) % 0x1_0000;
    if incremented >= CycleLength then 0 else incremented
  }

  function CyclesAfter(n: nat): (c: Word)
    ensures c < CycleLength
  {
    if n == 0 then 0 else CycleStep(CyclesAfter(n - 1))
  }

  /** From the constructor's state, the counter after n generations is n modulo 1024. */
  lemma {:induction false} CyclesAfterIsModulo(n: nat)
    ensures CyclesAfter(n) == n % CycleLength
  {
    if n > 0 {
      CyclesAfterIsModulo(n - 1);
      ModSuccessor(n - 1, CycleLength);
      var previous := (n - 1) % CycleLength;
      assert CyclesAfter(n) == CycleStep(previous);
      assert (previous + 1) % 0x1_0000 == previous + 1;
    }
  }

  /** The fields a generation starts from: the references of both grids, the palette and both counters. */
  datatype Generation = Generation(bufferPrimary: array2<Word>, bufferSecondary: array2<Word>,
                                   currentPalette: PaletteName, timeCounter: Word, cycles: Word)

  class PlasmaMatrix {
    const base: Matrix
    const field: PlasmaField
    const colourFromPalette: PaletteLookup

    var currentPalette: PaletteName
    var timeCounter: Word
    var cycles: Word

    ghost function Repr(): set<object>
      reads this, base
    {
      {this, base, base.bufferPrimary, base.bufferSecondary}
    }

    /** Both counters start at 0, move together and are reset together, so they are always equal and below
        1024; the palette is always one of the five. */
    ghost predicate Valid()
      reads this, base
    {
      base.Valid() && timeCounter == cycles && cycles < CycleLength && currentPalette in PlasmaPalettes
    }

    constructor (field: PlasmaField, colourFromPalette: PaletteLookup)
      ensures Valid() && fresh(Repr())
      ensures base.backgroundMode && base.currentRelativeBrightness == BackgroundBrightness
      ensures base.backgroundModeRelativeBrightness == BackgroundBrightness
      ensures base.foregroundModeRelativeBrightness == ForegroundBrightness
      ensures timeCounter == 0 && cycles == 0 && currentPalette == RainbowColors
    {
      base := new Matrix(BackgroundBrightness, ForegroundBrightness);
      this.field := field;
      this.colourFromPalette := colourFromPalette;
      currentPalette := PlasmaPalettes[0];
      timeCounter := 0;
      cycles := 0;
      new;
      Initialise();
    }

    /** initialise: start on the rainbow palette; the grids are left as they are. */
    method Initialise()
      requires Valid()
      modifies this
      ensures Valid() && Repr() == old(Repr())
      ensures currentPalette == RainbowColors
      ensures timeCounter == old(timeCounter) && cycles == old(cycles)
    {
      currentPalette := RainbowColors;
    }

    method PaintColumn(colour: array2<Word>, palette: PaletteName, brightness: Byte, t: Word, x: int)
      requires IsGrid(colour) && 0 <= x < Width
      modifies colour
      ensures forall j :: 0 <= j < Height ==> colour[x, j] == PlasmaColour(field, colourFromPalette, palette, brightness, t, x, j)
      ensures forall i, j :: 0 <= i < Width && i != x && 0 <= j < Height ==> colour[i, j] == old(colour[i, j])
    {
      for y := 0 to Height
        invariant forall j :: 0 <= j < y ==> colour[x, j] == PlasmaColour(field, colourFromPalette, palette, brightness, t, x, j)
        invariant forall i, j :: 0 <= i < Width && i != x && 0 <= j < Height ==> colour[i, j] == old(colour[i, j])
      {
        var v := field(x, y, t);
        var current := colourFromPalette(palette, PaletteIndex(v), brightness);
        colour[x, y] := RgbTo565(current.r, current.g, current.b);
      }
    }

    /** What one generation does: the grids stay in place; every cell of the primary grid is painted from the
        field at the time counter and in the palette the generation started with; the cycle counter moves on,
        and the palette changes to the picked one exactly when the counter restarts. */
    twostate predicate Stepped(pick: PalettePick)
      requires Valid()
      reads this, base, base.bufferPrimary
    {
      SteppedFrom(old(Start()), pick)
    }

    /** The fields this generation starts from. */
    ghost function Start(): Generation
      reads this, base
    {
      Generation(base.bufferPrimary, base.bufferSecondary, currentPalette, timeCounter, cycles)
    }

    /** Stepped, with the fields before the generation given as start. */
    ghost predicate SteppedFrom(start: Generation, pick: PalettePick)
      requires Valid()
      reads this, base, base.bufferPrimary
    {
      && base.bufferPrimary == start.bufferPrimary && base.bufferSecondary == start.bufferSecondary
      && (forall x, y :: InGrid(x, y) ==>
            base.bufferPrimary[x, y] == PlasmaColour(field, colourFromPalette, start.currentPalette,
                                                     ScaledBrightness(base.currentRelativeBrightness), start.timeCounter, x, y))
      && start.cycles < CycleLength && cycles == CycleStep(start.cycles)
      && currentPalette == if cycles == 0 then PlasmaPalettes[pick] else start.currentPalette
    }

    /** calcNewStates: repaint every cell of the primary grid (the secondary grid is not touched), then count
        the generation; on reaching 1024 restart both counters and pick the next palette. */
    method CalcNewStates(pick: PalettePick)
      requires Valid()
      modifies Repr()
      ensures Valid() && Repr() == old(Repr())
      ensures Stepped(pick)
      ensures unchanged(base.bufferSecondary)
      ensures base.backgroundMode == old(base.backgroundMode)
      ensures base.currentRelativeBrightness == old(base.currentRelativeBrightness)
      ensures base.backgroundModeRelativeBrightness == old(base.backgroundModeRelativeBrightness)
      ensures base.foregroundModeRelativeBrightness == old(base.foregroundModeRelativeBrightness)
    {
      var scaledBrightness := ScaledBrightness(base.currentRelativeBrightness);
      var colour := base.bufferPrimary;
      for x := 0 to Width
        modifies colour
        invariant forall i, j :: 0 <= i < x && 0 <= j < Height ==>
          colour[i, j] == PlasmaColour(field, colourFromPalette, currentPalette, scaledBrightness, timeCounter, i, j)
      {
        PaintColumn(colour, currentPalette, scaledBrightness, timeCounter, x);
      }
      timeCounter := (timeCounter + 1) % 0x1_0000;
      cycles := (cycles + 1) % 0x1_0000;
      if cycles >= CycleLength {
        timeCounter := 0;
        cycles := 0;
        currentPalette := PlasmaPalettes[pick];
      }
    }
  }
}
