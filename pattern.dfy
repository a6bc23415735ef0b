/** The matrix the driver renders: one of the three patterns (the C++ code holds a Matrix* and calls the
    virtual calcNewStates). The closed set of patterns is a datatype over the three classes. */
module Patterns {
  import opened MatrixBase
  import opened LifeRules
  import GameLife
  import GameLife2
  import Plasma

  /** The random draws one generation of any pattern consumes. */
  datatype Draws = Draws(cells: DrawGrid, palettePick: Plasma.PalettePick)

  /** The fields a generation of the pattern starts from. */
  datatype Generation =
    | LifeStart(life: GameLife.Generation)
    | Life2Start(life2: GameLife2.Generation)
    | PlasmaStart(plasma: Plasma.Generation)

  datatype Pattern =
    | Life(life: GameLife.GameLifeMatrix)
    | Life2(life2: GameLife2.GameLifeMatrix2)
    | PlasmaPattern(plasma: Plasma.PlasmaMatrix)
  {
    /** The Matrix part every pattern shares. */
    function Base(): Matrix
    {
      match this
      case Life(g) => g.base
      case Life2(g) => g.base
      case PlasmaPattern(p) => p.base
    }

    function Objects(): set<object>
    {
      match this
      case Life(g) => {g, g.base}
      case Life2(g) => {g, g.base}
      case PlasmaPattern(p) => {p, p.base}
    }

    ghost function Repr(): set<object>
      reads Objects()
    {
      match this
      case Life(g) => g.Repr()
      case Life2(g) => g.Repr()
      case PlasmaPattern(p) => p.Repr()
    }

    ghost predicate Valid()
      reads Objects()
    {
      match this
      case Life(g) => g.Valid()
      case Life2(g) => g.Valid()
      case PlasmaPattern(p) => p.Valid()
    }

    /** Every valid pattern owns a valid Matrix and its colour grids. */
    lemma ValidBase()
      requires Valid()
      ensures Base().Valid() && Objects() <= Repr()
      ensures Base().bufferPrimary in Repr() && Base().bufferSecondary in Repr()
    {
    }

    /** One generation of whichever pattern this is, as that pattern's own Stepped states it, with the draws
        it consumes. */
    twostate predicate Stepped(draws: Draws)
      requires Valid()
      reads Objects(), Repr()
    {
      SteppedFrom(old(Start()), draws)
    }

    /** The fields this pattern's next generation starts from. */
    ghost function Start(): Generation
      reads Objects()
    {
      match this
      case Life(g) => LifeStart(g.Start())
      case Life2(g) => Life2Start(g.Start())
      case PlasmaPattern(p) => PlasmaStart(p.Start())
    }

    /** Stepped, with the fields before the generation given as start. */
    ghost predicate SteppedFrom(start: Generation, draws: Draws)
      requires Valid()
      reads Objects(), Repr()
    {
      match this
      case Life(g) => start.LifeStart? && g.SteppedFrom(start.life, draws.cells)
      case Life2(g) => start.Life2Start? && g.SteppedFrom(start.life2, draws.cells)
      case PlasmaPattern(p) => start.PlasmaStart? && p.SteppedFrom(start.plasma, draws.palettePick)
    }

    /** matrix->calcNewStates(): one generation of whichever pattern this is, with that pattern's own
        guarantee. */
    method CalcNewStates(draws: Draws)
      requires Valid()
      modifies Repr()
      ensures Valid() && Repr() == old(Repr())
      ensures Stepped(draws)
      ensures this.Life? ==> unchanged(life.boolPrimary, life.boolSecondary)
      ensures this.Life2? ==> unchanged(life2.boolSecondary)
      ensures unchanged(Base().bufferSecondary)
      ensures Base().currentRelativeBrightness == old(Base().currentRelativeBrightness)
      ensures Base().backgroundMode == old(Base().backgroundMode)
    {
      match this
      case Life(g) => g.CalcNewStates(draws.cells);
      case Life2(g) => g.CalcNewStates(draws.cells);
      case PlasmaPattern(p) => p.CalcNewStates(draws.palettePick);
    }
  }

  /** A pattern none of whose objects changed is still valid and owns the same objects. */
  twostate lemma ValidWhileUntouched(p: Pattern)
    requires old(p.Valid()) && unchanged(p.Objects())
    ensures p.Valid() && p.Repr() == old(p.Repr())
    ensures forall o :: o in p.Repr() ==> old(allocated(o))
  {
  }
}
