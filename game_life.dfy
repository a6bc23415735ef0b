/** The first Game-of-Life pattern (src/GameLifeMatrix.cpp): colours from a hue that advances every generation,
    each cell coloured by its role and blended with its previous colour. As written, the new alive states are
    computed but never stored, so the two boolean grids are only ever swapped. */
module GameLife {
  import opened Colour
  import opened MatrixBase
  import opened LifeRules

  const BackgroundBrightness: real := 0.6
  const ForegroundBrightness: real := 1.0

  /** The hue advance per generation, modulo 65536 (hsvHue is a uint16_t). */
  const HueStep := 128
  const Saturation: Byte := 220
  const AliveValue: Byte := 225
  /** (hsvVal / 3) * 2 */
  const JustDiedValue: Byte := 150
  const JustBornValue: Byte := 255
  const DeadValue: Byte := 125
  /** Hue offsets of the just-died, just-born and dead colours from the alive hue. */
  const JustDiedHueOffset := 5000
  const JustBornHueOffset := -5000
  const DeadHueOffset := 16384

  /** The uint8_t conversion of currentRelativeBrightness * value (float rounding is not modelled). */
  function ScaledValue(relative: real, value: Byte): (v: Byte)
    requires IsFraction(relative)
    ensures v <= value
    ensures relative == 1.0 ==> v == value
  {
    var product := relative * value as real;
    assert 0.0 <= product <= value as real;
    product.Floor
  }

  /** A hue plus an offset, converted back to uint16_t. */
  function ShiftHue(hue: Word, offset: int): (h: Word)
    ensures (h - hue - offset) % 0x1_0000 == 0
  {
    (hue + offset) % 0x1_0000
  }

  /** The four role colours updateColorsFromHSV computes for a hue and relative brightness. */
  function FrameColours(colourHsv: ColourHsv, hue: Word, relative: real): RoleTable<Word>
    requires IsFraction(relative)
  {
    RoleTable(
      HsvTo565(colourHsv, hue, Saturation, ScaledValue(relative, AliveValue)),
      HsvTo565(colourHsv, ShiftHue(hue, JustBornHueOffset), Saturation, ScaledValue(relative, JustBornValue)),
      HsvTo565(colourHsv, ShiftHue(hue, JustDiedHueOffset), Saturation, ScaledValue(relative, JustDiedValue)),
      HsvTo565(colourHsv, ShiftHue(hue, DeadHueOffset), Saturation, ScaledValue(relative, DeadValue)))
  }

  /** The aliveRGB/justBornRGB/justDiedRGB/deadRGB copies kept beside the packed colours. */
  function Unpacked(colours: RoleTable<Word>): RoleTable<Rgb>
  {
    RoleTable(RgbFrom565(colours.alive), RgbFrom565(colours.justBorn),
              RgbFrom565(colours.justDied), RgbFrom565(colours.dead))
  }

  /** getNewColorValue: the role's base colour when the previous colour has no influence; otherwise the
      channel-wise blend of the role's RGB with the unpacked previous colour, repacked. */
  function NewColourValue(colours: RoleTable<Word>, rgbs: RoleTable<Rgb>, influence: Byte,
                          newState: bool, prevState: bool, prevColour: Word): (c: Word)
    ensures influence == 0 ==> c == colours.Pick(RoleOf(newState, prevState))
    ensures influence > 0 ==>
      RgbFrom565(c) == Quantised(Blend(rgbs.Pick(RoleOf(newState, prevState)), RgbFrom565(prevColour), influence))
  {
    var role := RoleOf(newState, prevState);
    if influence > 0 then
      var blended := Blend(rgbs.Pick(role), RgbFrom565(prevColour), influence);
      UnpackPack(blended);
      Pack(blended)
    else
      colours.Pick(role)
  }

  /** The colour calcNewStates gives cell (x, y) from the alive grid and the colour grid it reads. */
  ghost function NextColour(colours: RoleTable<Word>, rgbs: RoleTable<Rgb>, influence: Byte, edgeWrap: bool,
                            alive: array2<bool>, colour: array2<Word>, draw: DrawGrid, x: int, y: int): Word
    reads alive, colour
    requires IsGrid(alive) && IsGrid(colour) && InGrid(x, y)
  {
    NewColourValue(colours, rgbs, influence, NextAlive(alive, x, y, edgeWrap, draw), alive[x, y], colour[x, y])
  }

  /** With the role colours kept consistent with their RGB copies, a blended cell never comes out brighter in
      any channel than both the role colour and the previous colour. */
  lemma BlendedColourBounded(colours: RoleTable<Word>, influence: Byte, newState: bool, prevState: bool,
                             prevColour: Word)
    requires influence > 0
    ensures var base := RgbFrom565(colours.Pick(RoleOf(newState, prevState)));
            var prev := RgbFrom565(prevColour);
            var out := RgbFrom565(NewColourValue(colours, Unpacked(colours), influence, newState, prevState, prevColour));
            out.r <= Max(base.r, prev.r) && out.g <= Max(base.g, prev.g) && out.b <= Max(base.b, prev.b)
  {
    var role := RoleOf(newState, prevState);
    assert Unpacked(colours).Pick(role) == RgbFrom565(colours.Pick(role));
  }

  /** The fields a generation starts from: the hue and the references of both grid pairs. */
  datatype Generation = Generation(hsvHue: Word, boolPrimary: array2<bool>, boolSecondary: array2<bool>,
                                   bufferPrimary: array2<Word>, bufferSecondary: array2<Word>)

  class GameLifeMatrix {
    const base: Matrix
    const colourHsv: ColourHsv
    const edgeWrap: bool
    const initDensityPercentage: int
    /** The weight (out of 255) of the previous colour in a cell's new colour. */
    const prevCellInfluence: Byte := 20

    var boolPrimary: array2<bool>
    var boolSecondary: array2<bool>
    /** aliveCol, justBornCol, justDiedCol, deadCol. */
    var colours: RoleTable<Word>
    var rgbs: RoleTable<Rgb>
    var hsvHue: Word

    ghost function Repr(): set<object>
      reads this, base
    {
      {this, base, base.bufferPrimary, base.bufferSecondary, boolPrimary, boolSecondary}
    }

    ghost predicate Valid()
      reads this, base
    {
      base.Valid() && IsGrid(boolPrimary) && IsGrid(boolSecondary) && boolPrimary != boolSecondary
      && rgbs == Unpacked(colours)
    }

    /** The seeded first generation: each cell alive when its draw is below initDensityPercentage and coloured
        aliveCol, the rest deadCol; the secondary grids all dead. */
    ghost predicate Seeded(seed: SeedGrid)
      reads this, base, base.bufferPrimary, base.bufferSecondary, boolPrimary, boolSecondary
      requires Valid()
    {
      SeededGrids(seed, initDensityPercentage, colours.alive, colours.dead,
                  boolPrimary, boolSecondary, base.bufferPrimary, base.bufferSecondary)
    }

    constructor (initDensityPercentage: int, edgeWrap: bool, colourHsv: ColourHsv, seed: SeedGrid)
      ensures Valid() && fresh(Repr())
      ensures this.initDensityPercentage == initDensityPercentage && this.edgeWrap == edgeWrap
      ensures base.backgroundMode && base.currentRelativeBrightness == BackgroundBrightness
      ensures base.backgroundModeRelativeBrightness == BackgroundBrightness
      ensures base.foregroundModeRelativeBrightness == ForegroundBrightness
      ensures hsvHue == 0 && colours == FrameColours(colourHsv, 0, BackgroundBrightness)
      ensures Seeded(seed)
    {
      base := new Matrix(BackgroundBrightness, ForegroundBrightness);
      this.colourHsv := colourHsv;
      this.edgeWrap := edgeWrap;
      this.initDensityPercentage := initDensityPercentage;
      boolPrimary := new bool[Width, Height]((_, _) => false);
      boolSecondary := new bool[Width, Height]((_, _) => false);
      colours := RoleTable(0, 0, 0, 0);
      rgbs := Unpacked(RoleTable(0, 0, 0, 0));
      hsvHue := 0;
      new;
      Initialise(seed);
    }

    /** updateColorsFromHSV: recompute the four role colours and their RGB copies. */
    method UpdateColoursFromHsv()
      requires Valid()
      modifies this
      ensures Valid() && Repr() == old(Repr())
      ensures colours == FrameColours(colourHsv, hsvHue, base.currentRelativeBrightness)
      ensures hsvHue == old(hsvHue) && boolPrimary == old(boolPrimary) && boolSecondary == old(boolSecondary)
    {
      colours := FrameColours(colourHsv, hsvHue, base.currentRelativeBrightness);
      rgbs := Unpacked(colours);
    }

    /** initialise: recompute the colours, then seed every cell from its draw. */
    method Initialise(seed: SeedGrid)
      requires Valid()
      modifies Repr()
      ensures Valid() && Repr() == old(Repr())
      ensures hsvHue == old(hsvHue) && colours == FrameColours(colourHsv, hsvHue, base.currentRelativeBrightness)
      ensures base.backgroundMode == old(base.backgroundMode)
      ensures base.currentRelativeBrightness == old(base.currentRelativeBrightness)
      ensures base.backgroundModeRelativeBrightness == old(base.backgroundModeRelativeBrightness)
      ensures base.foregroundModeRelativeBrightness == old(base.foregroundModeRelativeBrightness)
      ensures Seeded(seed)
    {
      UpdateColoursFromHsv();
      SeedGrids(seed, initDensityPercentage, colours.alive, colours.dead,
                boolPrimary, boolSecondary, base.bufferPrimary, base.bufferSecondary);
    }

    /** The loops of calcNewStates: the new colour of every cell, written into next. */
    method NextGeneration(alive: array2<bool>, colour: array2<Word>, next: array2<Word>, draw: DrawGrid)
      requires IsGrid(alive) && IsGrid(colour) && IsGrid(next) && colour != next
      modifies next
      ensures forall x, y :: InGrid(x, y) ==>
        next[x, y] == NextColour(colours, rgbs, prevCellInfluence, edgeWrap, alive, colour, draw, x, y)
    {
      for x := 0 to Width
        invariant forall i, j :: 0 <= i < x && 0 <= j < Height ==> next[i, j] == NextColour(colours, rgbs, prevCellInfluence, edgeWrap, alive, colour, draw, i, j)
      {
        NextColumn(alive, colour, next, draw, x);
      }
    }

    /** The inner loop of calcNewStates: the new colour of every cell in column x. */
    method NextColumn(alive: array2<bool>, colour: array2<Word>, next: array2<Word>, draw: DrawGrid, x: int)
      requires IsGrid(alive) && IsGrid(colour) && IsGrid(next) && colour != next && 0 <= x < Width
      modifies next
      ensures forall j :: 0 <= j < Height ==> next[x, j] == NextColour(colours, rgbs, prevCellInfluence, edgeWrap, alive, colour, draw, x, j)
      ensures forall i, j :: 0 <= i < Width && i != x && 0 <= j < Height ==> next[i, j] == old(next[i, j])
    {
      for y := 0 to Height
        invariant forall j :: 0 <= j < y ==> next[x, j] == NextColour(colours, rgbs, prevCellInfluence, edgeWrap, alive, colour, draw, x, j)
        invariant forall i, j :: 0 <= i < Width && i != x && 0 <= j < Height ==> next[i, j] == old(next[i, j])
      {
        var liveNeighbours := CountLiveNeighbours(alive, x, y, edgeWrap);
        var newState := NewState(alive[x, y], liveNeighbours, draw(x, y));
        next[x, y] := NewColourValue(colours, rgbs, prevCellInfluence, newState, alive[x, y], colour[x, y]);
      }
    }

    /** What one generation does to the colours: the hue moves on by 128 and the colours follow it, both grid
        pairs swap, and every cell of the new primary colour grid gets the colour of its new state, its role
        and its previous colour. */
    twostate predicate Stepped(draw: DrawGrid)
      requires IsGrid(boolSecondary) && IsGrid(base.bufferPrimary) && IsGrid(base.bufferSecondary)
      requires IsFraction(base.currentRelativeBrightness)
      reads this, base, boolSecondary, base.bufferPrimary, base.bufferSecondary
    {
      SteppedFrom(old(Start()), draw)
    }

    /** The fields this generation starts from. */
    ghost function Start(): Generation
      reads this, base
    {
      Generation(hsvHue, boolPrimary, boolSecondary, base.bufferPrimary, base.bufferSecondary)
    }

    /** Stepped, with the fields before the generation given as start. */
    ghost predicate SteppedFrom(start: Generation, draw: DrawGrid)
      requires IsGrid(boolSecondary) && IsGrid(base.bufferPrimary) && IsGrid(base.bufferSecondary)
      requires IsFraction(base.currentRelativeBrightness)
      reads this, base, boolSecondary, base.bufferPrimary, base.bufferSecondary
    {
      && hsvHue == (start.hsvHue + HueStep) % 0x1_0000
      && colours == FrameColours(colourHsv, hsvHue, base.currentRelativeBrightness)
      && boolPrimary == start.boolSecondary && boolSecondary == start.boolPrimary
      && base.bufferPrimary == start.bufferSecondary && base.bufferSecondary == start.bufferPrimary
      && forall x, y :: InGrid(x, y) ==>
        base.bufferPrimary[x, y] == NextColour(colours, rgbs, prevCellInfluence, edgeWrap, boolSecondary, base.bufferSecondary, draw, x, y)
    }

    /** calcNewStates: advance the hue, recompute the colours, write every cell's new colour into the secondary
        colour grid, then swap both pairs of grids. The new alive states are not stored anywhere. */
    method CalcNewStates(draw: DrawGrid)
      requires Valid()
      modifies Repr()
      ensures Valid() && Repr() == old(Repr())
      ensures Stepped(draw)
      ensures unchanged(boolPrimary, boolSecondary, base.bufferSecondary)
      ensures base.backgroundMode == old(base.backgroundMode)
      ensures base.currentRelativeBrightness == old(base.currentRelativeBrightness)
      ensures base.backgroundModeRelativeBrightness == old(base.backgroundModeRelativeBrightness)
      ensures base.foregroundModeRelativeBrightness == old(base.foregroundModeRelativeBrightness)
    {
      hsvHue := (hsvHue + HueStep) % 0x1_0000;
      UpdateColoursFromHsv();
      var alive, colour, next := boolPrimary, base.bufferPrimary, base.bufferSecondary;
      // The swaps exchange grid references only and the generation writes only cells of next, so swapping
      // first leaves the same state as the source's compute-then-swap.
      boolPrimary, boolSecondary := boolSecondary, boolPrimary;
      base.bufferPrimary, base.bufferSecondary := next, colour;
      NextGeneration(alive, colour, next, draw);
    }
  }

  /** A consequence of never storing the new states: two generations bring the alive grid back to the one it
      started from, whatever the draws. */
  method TwoGenerationsRestoreAliveGrid(g: GameLifeMatrix, first: DrawGrid, second: DrawGrid)
    requires g.Valid()
    modifies g.Repr()
    ensures g.Valid()
    ensures forall x, y :: InGrid(x, y) ==> g.boolPrimary[x, y] == old(g.boolPrimary[x, y])
  {
    g.CalcNewStates(first);
    g.CalcNewStates(second);
  }
}
