/** The second Game-of-Life pattern (src/GameLifeMatrix2.cpp, src/GameLifeMatrix2.h): the same rule and
    neighbour count as the first, but the new alive states are stored before the swap, and the role colours
    come from one of eight palettes at positions that can cycle by one every generation. */
module GameLife2 {
  import opened Colour
  import opened MatrixBase
  import opened LifeRules

  /** The constructor first stores BACKGROUND_MODE_RELATIVE_BRIGHTNESS_GAME (0.9) and then overwrites it. */
  const BackgroundBrightness: real := 0.621
  const ForegroundBrightness: real := 1.0

  /** The palettes array, in order. */
  const Palettes: seq<PaletteName> :=
    [HeatColors, LavaColors, ForestColors, CloudColors, OceanColors, PartyColors, RainbowColors, RainbowStripeColors]

  /** Brightness factor of each role, multiplied with the relative brightness. */
  const RoleFactors: RoleTable<real> := RoleTable(1.0, 1.0, 0.7, 0.3)
  /** Palette position of each role relative to alivePalInd. */
  const RoleOffsets: RoleTable<int> := RoleTable(0, 20, -20, 128)

  /** random(0, 255) when re-seeding. */
  type PaletteStart = p: int | 0 <= p < 255

  /** nextPalette's index arithmetic: (index + 1) % 8. */
  function NextPaletteIndex(index: int): (next: int)
    requires 0 <= index < |Palettes|
    ensures 0 <= next < |Palettes|
    ensures index < |Palettes| - 1 ==> next == index + 1
    ensures index == |Palettes| - 1 ==> next == 0
  {
    (index + 1) % |Palettes|
  }

  /** The palette index after n calls of nextPalette. */
  function PaletteIndexAfter(index: int, n: nat): int
    requires 0 <= index < |Palettes|
    ensures 0 <= PaletteIndexAfter(index, n) < |Palettes|
  {
    if n == 0 then index else NextPaletteIndex(PaletteIndexAfter(index, n - 1))
  }

  lemma {:induction false} PaletteIndexAfterIsSum(index: int, n: nat)
    requires 0 <= index < |Palettes|
    ensures PaletteIndexAfter(index, n) == (index + n) % |Palettes|
  {
    if n > 0 {
      PaletteIndexAfterIsSum(index, n - 1);
      ModSuccessor(index + n - 1, |Palettes|);
    }
  }

  /** Eight calls of nextPalette bring the index back to where it started. */
  lemma EightPalettesCycle(index: int)
    requires 0 <= index < |Palettes|
    ensures PaletteIndexAfter(index, |Palettes|) == index
  {
    PaletteIndexAfterIsSum(index, |Palettes|);
  }

  /** A role's palette position: offset + alivePalInd, converted to uint8_t. */
  function PalettePosition(offset: int, alivePalInd: int): Byte
  {
    (offset + alivePalInd) % 0x100
  }

  lemma ByteShift(a: int, b: int)
    ensures (a + b) % 0x100 == (a % 0x100 + b) % 0x100
  {
    var q := a / 0x100;
    assert a == q * 0x100 + a % 0x100;
    assert a + b == q * 0x100 + (a % 0x100 + b);
  }

  /** The just-born and just-died positions sit 20 steps either side of the alive position and the dead
      position half-way round the palette. */
  lemma PalettePositionsRelative(alivePalInd: int)
    ensures PalettePosition(RoleOffsets.justBorn, alivePalInd) == (PalettePosition(0, alivePalInd) + 20) % 0x100
    ensures PalettePosition(RoleOffsets.justDied, alivePalInd) == (PalettePosition(0, alivePalInd) - 20) % 0x100
    ensures PalettePosition(RoleOffsets.dead, alivePalInd) == (PalettePosition(0, alivePalInd) + 128) % 0x100
  {
    ByteShift(alivePalInd, 20);
    ByteShift(alivePalInd, -20);
    ByteShift(alivePalInd, 128);
  }

  /** Advancing alivePalInd by one (cycling) moves every role's palette position on by one, modulo 256. */
  lemma CyclingShiftsEveryRole(offset: int, alivePalInd: int)
    ensures PalettePosition(offset, alivePalInd + 1) == (PalettePosition(offset, alivePalInd) + 1) % 0x100
  {
    ByteShift(offset + alivePalInd, 1);
  }

  /** (uint8_t)(255 * relativeBrightness * factor), float rounding not modelled. */
  function RoleBrightness(relative: real, factor: real): (b: Byte)
    requires IsFraction(relative) && IsFraction(factor)
    ensures b as real <= 255.0 * relative
  {
    FractionProduct(relative, factor);
    var product := 255.0 * relative * factor;
    assert 0.0 <= product <= 255.0 * relative;
    assert 255.0 * relative <= 255.0;
    product.Floor
  }

  lemma FractionProduct(a: real, b: real)
    requires IsFraction(a) && IsFraction(b)
    ensures 0.0 <= a * b <= a
    ensures 0.0 <= 255.0 * a * b <= 255.0 * a
  {
    assert a * b <= a * 1.0;
    assert 255.0 * a * b == 255.0 * (a * b);
  }

  /** Dead cells are never brighter than just-died ones, which are never brighter than live ones. */
  lemma RoleBrightnessOrdered(relative: real)
    requires IsFraction(relative)
    ensures RoleBrightness(relative, RoleFactors.dead) <= RoleBrightness(relative, RoleFactors.justDied)
            <= RoleBrightness(relative, RoleFactors.alive) == RoleBrightness(relative, RoleFactors.justBorn)
  {
    assert relative * 0.3 <= relative * 0.7 <= relative * 1.0;
  }

  /** calcFrameColors: each role's colour from the current palette at its position and brightness. */
  function FrameColours(colourFromPalette: PaletteLookup, palette: PaletteName, alivePalInd: int, relative: real)
    : RoleTable<Rgb>
    requires IsFraction(relative)
  {
    RoleTable(
      colourFromPalette(palette, PalettePosition(RoleOffsets.alive, alivePalInd), RoleBrightness(relative, RoleFactors.alive)),
      colourFromPalette(palette, PalettePosition(RoleOffsets.justBorn, alivePalInd), RoleBrightness(relative, RoleFactors.justBorn)),
      colourFromPalette(palette, PalettePosition(RoleOffsets.justDied, alivePalInd), RoleBrightness(relative, RoleFactors.justDied)),
      colourFromPalette(palette, PalettePosition(RoleOffsets.dead, alivePalInd), RoleBrightness(relative, RoleFactors.dead)))
  }

  /** getNewColorValue of the second automaton: the role's colour, blended with the unpacked previous colour
      when the influence is non-zero, packed as 5/6/5. What is displayed is that colour with its low bits
      cleared. */
  function NewColourValue(rgbs: RoleTable<Rgb>, influence: Byte, newState: bool, prevState: bool, prevColour: Word)
    : (c: Word)
    ensures RgbFrom565(c) == Quantised(
      if influence > 0 then Blend(rgbs.Pick(RoleOf(newState, prevState)), RgbFrom565(prevColour), influence)
      else rgbs.Pick(RoleOf(newState, prevState)))
  {
    var baseColour := rgbs.Pick(RoleOf(newState, prevState));
    var chosen := if influence > 0 then Blend(baseColour, RgbFrom565(prevColour), influence) else baseColour;
    UnpackPack(chosen);
    Pack(chosen)
  }

  /** The fields a generation starts from: the references of both grid pairs, the role colours, the palette
      position and index, and the cycling switch. */
  datatype Generation = Generation(boolPrimary: array2<bool>, boolSecondary: array2<bool>,
                                   bufferPrimary: array2<Word>, bufferSecondary: array2<Word>,
                                   rgbs: RoleTable<Rgb>, alivePalInd: int, currentPaletteIndex: int, cycling: bool)

  class GameLifeMatrix2 {
    const base: Matrix
    const colourFromPalette: PaletteLookup
    const edgeWrap: bool
    const initDensityPercentage: int
    /** The weight (out of 255) of the previous colour in a cell's new colour. */
    const prevCellInfluence: Byte := 200

    /** Whether alivePalInd advances every generation (its declaration is not part of this model; it is
        fixed when the pattern is built). */
    var cycling: bool
    var boolPrimary: array2<bool>
    var boolSecondary: array2<bool>
    var currentPaletteIndex: int
    var alivePalInd: int
    /** aliveRGB, justBornRGB, justDiedRGB, deadRGB. */
    var rgbs: RoleTable<Rgb>

    ghost function Repr(): set<object>
      reads this, base
    {
      {this, base, base.bufferPrimary, base.bufferSecondary, boolPrimary, boolSecondary}
    }

    ghost predicate Valid()
      reads this, base
    {
      base.Valid() && IsGrid(boolPrimary) && IsGrid(boolSecondary) && boolPrimary != boolSecondary
      && 0 <= currentPaletteIndex < |Palettes|
    }

    /** The colours calcFrameColors would compute from the current state. */
    ghost function CurrentFrameColours(): RoleTable<Rgb>
      reads this, base
      requires Valid()
    {
      FrameColours(colourFromPalette, Palettes[currentPaletteIndex], alivePalInd, base.currentRelativeBrightness)
    }

    constructor (initDensityPercentage: int, edgeWrap: bool, colourFromPalette: PaletteLookup, cycling: bool,
                 seed: SeedGrid, paletteStart: PaletteStart)
      ensures Valid() && fresh(Repr())
      ensures this.initDensityPercentage == initDensityPercentage && this.edgeWrap == edgeWrap
      ensures this.cycling == cycling
      ensures base.backgroundMode && base.currentRelativeBrightness == BackgroundBrightness
      ensures base.backgroundModeRelativeBrightness == BackgroundBrightness
      ensures base.foregroundModeRelativeBrightness == ForegroundBrightness
      ensures currentPaletteIndex == 0 && alivePalInd == paletteStart
      ensures rgbs == FrameColours(colourFromPalette, Palettes[0], 0, BackgroundBrightness)
      ensures SeededGrids(seed, initDensityPercentage, Pack(rgbs.alive), Pack(rgbs.dead),
                          boolPrimary, boolSecondary, base.bufferPrimary, base.bufferSecondary)
    {
      base := new Matrix(BackgroundBrightness, ForegroundBrightness);
      this.colourFromPalette := colourFromPalette;
      this.edgeWrap := edgeWrap;
      this.initDensityPercentage := initDensityPercentage;
      this.cycling := cycling;
      boolPrimary := new bool[Width, Height]((_, _) => false);
      boolSecondary := new bool[Width, Height]((_, _) => false);
      currentPaletteIndex := 0;
      alivePalInd := 0;
      rgbs := RoleTable(Rgb(0, 0, 0), Rgb(0, 0, 0), Rgb(0, 0, 0), Rgb(0, 0, 0));
      new;
      Initialise(seed, paletteStart);
    }

    /** nextPalette: move to the next of the eight palettes, wrapping after the last. */
    method NextPalette()
      requires Valid()
      modifies this
      ensures Valid() && Repr() == old(Repr())
      ensures currentPaletteIndex == NextPaletteIndex(old(currentPaletteIndex))
      ensures alivePalInd == old(alivePalInd) && rgbs == old(rgbs) && cycling == old(cycling)
      ensures boolPrimary == old(boolPrimary) && boolSecondary == old(boolSecondary)
    {
      var index := currentPaletteIndex;
      index := (index + 1) % |Palettes|;
      currentPaletteIndex := index;
    }

    /** calcFrameColors. */
    method CalcFrameColours()
      requires Valid()
      modifies this
      ensures Valid() && Repr() == old(Repr())
      ensures rgbs == CurrentFrameColours()
      ensures alivePalInd == old(alivePalInd) && currentPaletteIndex == old(currentPaletteIndex)
      ensures cycling == old(cycling) && boolPrimary == old(boolPrimary) && boolSecondary == old(boolSecondary)
    {
      rgbs := FrameColours(colourFromPalette, Palettes[currentPaletteIndex], alivePalInd, base.currentRelativeBrightness);
    }

    /** initialise: compute the role colours from the palette position left by the previous run, take the
        alive and dead colours from them, and only then draw a fresh starting position; seed every cell. */
    method Initialise(seed: SeedGrid, paletteStart: PaletteStart)
      requires Valid()
      modifies Repr()
      ensures Valid() && Repr() == old(Repr())
      ensures rgbs == FrameColours(colourFromPalette, Palettes[currentPaletteIndex], old(alivePalInd),
                                   base.currentRelativeBrightness)
      ensures alivePalInd == paletteStart
      ensures currentPaletteIndex == old(currentPaletteIndex) && cycling == old(cycling)
      ensures base.backgroundMode == old(base.backgroundMode)
      ensures base.currentRelativeBrightness == old(base.currentRelativeBrightness)
      ensures base.backgroundModeRelativeBrightness == old(base.backgroundModeRelativeBrightness)
      ensures base.foregroundModeRelativeBrightness == old(base.foregroundModeRelativeBrightness)
      ensures SeededGrids(seed, initDensityPercentage, Pack(rgbs.alive), Pack(rgbs.dead),
                          boolPrimary, boolSecondary, base.bufferPrimary, base.bufferSecondary)
    {
      CalcFrameColours();
      var aliveColour := Pack(rgbs.alive);
      var deadColour := Pack(rgbs.dead);
      alivePalInd := paletteStart;
      SeedGrids(seed, initDensityPercentage, aliveColour, deadColour,
                boolPrimary, boolSecondary, base.bufferPrimary, base.bufferSecondary);
    }

    /** The inner loop of calcNewStates: store the new state and the new colour of every cell in column x. */
    method NextColumn(alive: array2<bool>, nextAlive: array2<bool>, colour: array2<Word>, next: array2<Word>,
                      draw: DrawGrid, x: int)
      requires IsGrid(alive) && IsGrid(nextAlive) && IsGrid(colour) && IsGrid(next)
      requires alive != nextAlive && colour != next && 0 <= x < Width
      modifies nextAlive, next
      ensures forall j :: 0 <= j < Height ==>
        nextAlive[x, j] == NextAlive(alive, x, j, edgeWrap, draw)
        && next[x, j] == NewColourValue(rgbs, prevCellInfluence, nextAlive[x, j], alive[x, j], colour[x, j])
      ensures forall i, j :: 0 <= i < Width && i != x && 0 <= j < Height ==>
        nextAlive[i, j] == old(nextAlive[i, j]) && next[i, j] == old(next[i, j])
    {
      for y := 0 to Height
        invariant forall j :: 0 <= j < y ==>
          nextAlive[x, j] == NextAlive(alive, x, j, edgeWrap, draw)
          && next[x, j] == NewColourValue(rgbs, prevCellInfluence, nextAlive[x, j], alive[x, j], colour[x, j])
        invariant forall i, j :: 0 <= i < Width && i != x && 0 <= j < Height ==>
          nextAlive[i, j] == old(nextAlive[i, j]) && next[i, j] == old(next[i, j])
      {
        var liveNeighbours := CountLiveNeighbours(alive, x, y, edgeWrap);
        nextAlive[x, y] := NewState(alive[x, y], liveNeighbours, draw(x, y));
        next[x, y] := NewColourValue(rgbs, prevCellInfluence, nextAlive[x, y], alive[x, y], colour[x, y]);
      }
    }

    /** What one generation does: both grid pairs swap; every new state follows the rules from the grid of the
        previous generation and every new colour is computed from the colours taken before the call; the
        palette position moves on by one exactly when cycling; the role colours are those of the new state. */
    twostate predicate Stepped(draw: DrawGrid)
      requires Valid()
      reads this, base, boolPrimary, boolSecondary, base.bufferPrimary, base.bufferSecondary
    {
      SteppedFrom(old(Start()), draw)
    }

    /** The fields this generation starts from. */
    ghost function Start(): Generation
      reads this, base
    {
      Generation(boolPrimary, boolSecondary, base.bufferPrimary, base.bufferSecondary,
                 rgbs, alivePalInd, currentPaletteIndex, cycling)
    }

    /** Stepped, with the fields before the generation given as start. */
    ghost predicate SteppedFrom(start: Generation, draw: DrawGrid)
      requires Valid()
      reads this, base, boolPrimary, boolSecondary, base.bufferPrimary, base.bufferSecondary
    {
      && boolPrimary == start.boolSecondary && boolSecondary == start.boolPrimary
      && base.bufferPrimary == start.bufferSecondary && base.bufferSecondary == start.bufferPrimary
      && (forall x, y :: InGrid(x, y) ==>
            boolPrimary[x, y] == NextAlive(boolSecondary, x, y, edgeWrap, draw)
            && base.bufferPrimary[x, y]
               == NewColourValue(start.rgbs, prevCellInfluence, boolPrimary[x, y], boolSecondary[x, y], base.bufferSecondary[x, y]))
      && alivePalInd == start.alivePalInd + (if cycling then 1 else 0)
      && currentPaletteIndex == start.currentPaletteIndex && cycling == start.cycling
      && rgbs == CurrentFrameColours()
    }

    /** calcNewStates: a synchronous generation. Every new state and colour is computed from the grids as they
        were before the call, stored in the secondary grids, and the pairs are swapped; then the palette
        position advances when cycling and the role colours are recomputed for the next generation. */
    method CalcNewStates(draw: DrawGrid)
      requires Valid()
      modifies Repr()
      ensures Valid() && Repr() == old(Repr())
      ensures Stepped(draw)
      ensures unchanged(boolSecondary, base.bufferSecondary)
      ensures base.backgroundMode == old(base.backgroundMode)
      ensures base.currentRelativeBrightness == old(base.currentRelativeBrightness)
      ensures base.backgroundModeRelativeBrightness == old(base.backgroundModeRelativeBrightness)
      ensures base.foregroundModeRelativeBrightness == old(base.foregroundModeRelativeBrightness)
      ensures rgbs == CurrentFrameColours()
    {
      var alive, nextAlive := boolPrimary, boolSecondary;
      var colour, next := base.bufferPrimary, base.bufferSecondary;
      for x := 0 to Width
        modifies nextAlive, next
        invariant forall i, j :: 0 <= i < x && 0 <= j < Height ==>
          nextAlive[i, j] == NextAlive(alive, i, j, edgeWrap, draw)
          && next[i, j] == NewColourValue(rgbs, prevCellInfluence, nextAlive[i, j], alive[i, j], colour[i, j])
      {
        NextColumn(alive, nextAlive, colour, next, draw, x);
      }
      boolPrimary, boolSecondary := boolSecondary, boolPrimary;
      base.bufferPrimary, base.bufferSecondary := base.bufferSecondary, base.bufferPrimary;
      if cycling {
        alivePalInd := alivePalInd + 1;
      }
      CalcFrameColours();
    }
  }
}
