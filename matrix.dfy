/** The state every pattern shares (src/Matrix.h): a primary colour grid the driver draws from, a secondary
    grid holding the previous frame, and the background/foreground relative brightness. */
module MatrixBase {
  import opened Colour

  const Width := 64
  const Height := 32

  predicate InGrid(x: int, y: int)
  {
    0 <= x < Width && 0 <= y < Height
  }

  predicate IsGrid<T>(a: array2<T>)
  {
    a.Length0 == Width && a.Length1 == Height
  }

  predicate IsFraction(v: real)
  {
    0.0 <= v <= 1.0
  }

  class Matrix {
    var bufferPrimary: array2<Word>
    var bufferSecondary: array2<Word>
    var backgroundMode: bool
    var currentRelativeBrightness: real
    var backgroundModeRelativeBrightness: real
    var foregroundModeRelativeBrightness: real

    ghost predicate Valid()
      reads this
    {
      IsGrid(bufferPrimary) && IsGrid(bufferSecondary) && bufferPrimary != bufferSecondary
      && IsFraction(currentRelativeBrightness)
      && IsFraction(backgroundModeRelativeBrightness)
      && IsFraction(foregroundModeRelativeBrightness)
    }

    /** What each pattern's constructor does to the shared state: set both presets, start in background mode
        at the background brightness. The grids start black; a pattern's initialise fills them. */
    constructor (background: real, foreground: real)
      requires IsFraction(background) && IsFraction(foreground)
      ensures Valid() && fresh(bufferPrimary) && fresh(bufferSecondary)
      ensures backgroundMode && currentRelativeBrightness == background
      ensures backgroundModeRelativeBrightness == background && foregroundModeRelativeBrightness == foreground
    {
      bufferPrimary := new Word[Width, Height]((_, _) => 0);
      bufferSecondary := new Word[Width, Height]((_, _) => 0);
      backgroundMode := true;
      currentRelativeBrightness := background;
      backgroundModeRelativeBrightness := background;
      foregroundModeRelativeBrightness := foreground;
    }

    /** Matrix::getCellColor: the current colour of a cell, 0 (black) for any coordinate off the grid. */
    function GetCellColor(x: int, y: int): (c: Word)
      reads this, bufferPrimary
      requires Valid()
      ensures InGrid(x, y) ==> c == bufferPrimary[x, y]
      ensures !InGrid(x, y) ==> c == 0
    {
      if x < 0 || x >= Width || y < 0 || y >= Height then 0 else bufferPrimary[x, y]
    }

    /** Matrix::getPrevCellColor: the same lookup in the secondary (previous-frame) grid. */
    function GetPrevCellColor(x: int, y: int): (c: Word)
      reads this, bufferSecondary
      requires Valid()
      ensures InGrid(x, y) ==> c == bufferSecondary[x, y]
      ensures !InGrid(x, y) ==> c == 0
    {
      if x < 0 || x >= Width || y < 0 || y >= Height then 0 else bufferSecondary[x, y]
    }

    /** Matrix::setBackgroundMode: remember the mode and switch the current brightness to its preset. */
    method SetBackgroundMode(isBackground: bool)
      requires Valid()
      modifies this
      ensures Valid()
      ensures backgroundMode == isBackground
      ensures currentRelativeBrightness
              == if isBackground then backgroundModeRelativeBrightness else foregroundModeRelativeBrightness
      ensures bufferPrimary == old(bufferPrimary) && bufferSecondary == old(bufferSecondary)
      ensures backgroundModeRelativeBrightness == old(backgroundModeRelativeBrightness)
      ensures foregroundModeRelativeBrightness == old(foregroundModeRelativeBrightness)
    {
      backgroundMode := isBackground;
      if isBackground {
        currentRelativeBrightness := backgroundModeRelativeBrightness;
      } else {
        currentRelativeBrightness := foregroundModeRelativeBrightness;
      }
    }
  }
}
