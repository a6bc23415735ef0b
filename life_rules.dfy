/** What the two Game-of-Life automata share (GameLifeMatrix.cpp and GameLifeMatrix2.cpp carry identical copies):
    counting live neighbours on a torus or a bounded grid, the randomised birth/survival rule, and the role a
    cell plays (alive, just born, just died, dead) that picks its colour. */
module LifeRules {
  import opened Colour
  import opened MatrixBase

  /** random(0, 1000) in getNewState. */
  type Draw = d: int | 0 <= d < 1000
  /** random(0, 100) in initialise. */
  type Percent = d: int | 0 <= d < 100

  /** A lonely live cell survives only when its draw exceeds UNDERPOPULATION_DEATH_CHANCE * 10. */
  const UnderpopulationThreshold := 990
  /** A crowded live cell survives only when its draw exceeds OVERPOPULATION_DEATH_CHANCE * 10. */
  const OverpopulationThreshold := 950

  predicate IsOffset(d: int)
  {
    -1 <= d <= 1
  }

  /** Whether the neighbour at offset (dx, dy) counts as alive: the cell itself never does; with edge wrap the
      coordinates are taken modulo the grid size (as (n + size) % size, whose operand is never negative, so
      C's % and Dafny's agree); without it a neighbour off the grid is skipped. */
  ghost function NeighbourAlive(alive: array2<bool>, x: int, y: int, dx: int, dy: int, edgeWrap: bool): bool
    reads alive
    requires IsGrid(alive) && InGrid(x, y) && IsOffset(dx) && IsOffset(dy)
  {
    if dx == 0 && dy == 0 then false
    else if edgeWrap then alive[(x + dx + Width) % Width, (y + dy + Height) % Height]
    else InGrid(x + dx, y + dy) && alive[x + dx, y + dy]
  }

  /** Live neighbours in column dx among the offsets dy in [-1, dyEnd). */
  ghost function ColumnCount(alive: array2<bool>, x: int, y: int, dx: int, edgeWrap: bool, dyEnd: int): nat
    reads alive
    requires IsGrid(alive) && InGrid(x, y) && IsOffset(dx) && -1 <= dyEnd <= 2
    decreases dyEnd
  {
    if dyEnd == -1 then 0
    else ColumnCount(alive, x, y, dx, edgeWrap, dyEnd - 1)
         + (if NeighbourAlive(alive, x, y, dx, dyEnd - 1, edgeWrap) then 1 else 0)
  }

  /** Live neighbours in the columns dx in [-1, dxEnd). */
  ghost function BlockCount(alive: array2<bool>, x: int, y: int, edgeWrap: bool, dxEnd: int): nat
    reads alive
    requires IsGrid(alive) && InGrid(x, y) && -1 <= dxEnd <= 2
    decreases dxEnd
  {
    if dxEnd == -1 then 0
    else BlockCount(alive, x, y, edgeWrap, dxEnd - 1) + ColumnCount(alive, x, y, dxEnd - 1, edgeWrap, 2)
  }

  /** The number of live cells among the eight around (x, y). */
  ghost function LiveNeighbours(alive: array2<bool>, x: int, y: int, edgeWrap: bool): nat
    reads alive
    requires IsGrid(alive) && InGrid(x, y)
  {
    BlockCount(alive, x, y, edgeWrap, 2)
  }

  /** getLiveNeighborCount: the two nested offset loops of the source. */
  method CountLiveNeighbours(alive: array2<bool>, x: int, y: int, edgeWrap: bool) returns (liveNeighbours: int)
    requires IsGrid(alive) && InGrid(x, y)
    ensures liveNeighbours == LiveNeighbours(alive, x, y, edgeWrap)
  {
    liveNeighbours := 0;
    for dx := -1 to 2
      invariant liveNeighbours == BlockCount(alive, x, y, edgeWrap, dx)
    {
      for dy := -1 to 2
        invariant liveNeighbours == BlockCount(alive, x, y, edgeWrap, dx) + ColumnCount(alive, x, y, dx, edgeWrap, dy)
      {
        if dx == 0 && dy == 0 {
          continue;
        }
        var nx := x + dx;
        var ny := y + dy;
        if edgeWrap {
          nx := (nx + Width) % Width;
          ny := (ny + Height) % Height;
        } else if nx < 0 || nx >= Width || ny < 0 || ny >= Height {
          continue;
        }
        if alive[nx, ny] {
          liveNeighbours := liveNeighbours + 1;
        }
      }
    }
  }

  function Indicator(b: bool): nat
  {
    if b then 1 else 0
  }

  lemma ColumnCountExpanded(alive: array2<bool>, x: int, y: int, dx: int, edgeWrap: bool)
    requires IsGrid(alive) && InGrid(x, y) && IsOffset(dx)
    ensures ColumnCount(alive, x, y, dx, edgeWrap, 2)
            == Indicator(NeighbourAlive(alive, x, y, dx, -1, edgeWrap))
               + Indicator(NeighbourAlive(alive, x, y, dx, 0, edgeWrap))
               + Indicator(NeighbourAlive(alive, x, y, dx, 1, edgeWrap))
  {
    assert ColumnCount(alive, x, y, dx, edgeWrap, -1) == 0;
    assert ColumnCount(alive, x, y, dx, edgeWrap, 0) == Indicator(NeighbourAlive(alive, x, y, dx, -1, edgeWrap));
    assert ColumnCount(alive, x, y, dx, edgeWrap, 1)
           == ColumnCount(alive, x, y, dx, edgeWrap, 0) + Indicator(NeighbourAlive(alive, x, y, dx, 0, edgeWrap));
  }

  /** The count is the sum over the eight offsets around the cell (the centre never counts). */
  lemma LiveNeighboursExpanded(alive: array2<bool>, x: int, y: int, edgeWrap: bool)
    requires IsGrid(alive) && InGrid(x, y)
    ensures LiveNeighbours(alive, x, y, edgeWrap)
            == Indicator(NeighbourAlive(alive, x, y, -1, -1, edgeWrap))
               + Indicator(NeighbourAlive(alive, x, y, -1, 0, edgeWrap))
               + Indicator(NeighbourAlive(alive, x, y, -1, 1, edgeWrap))
               + Indicator(NeighbourAlive(alive, x, y, 0, -1, edgeWrap))
               + Indicator(NeighbourAlive(alive, x, y, 0, 1, edgeWrap))
               + Indicator(NeighbourAlive(alive, x, y, 1, -1, edgeWrap))
               + Indicator(NeighbourAlive(alive, x, y, 1, 0, edgeWrap))
               + Indicator(NeighbourAlive(alive, x, y, 1, 1, edgeWrap))
  {
    ColumnCountExpanded(alive, x, y, -1, edgeWrap);
    ColumnCountExpanded(alive, x, y, 0, edgeWrap);
    ColumnCountExpanded(alive, x, y, 1, edgeWrap);
    assert BlockCount(alive, x, y, edgeWrap, -1) == 0;
    assert BlockCount(alive, x, y, edgeWrap, 0) == ColumnCount(alive, x, y, -1, edgeWrap, 2);
    assert BlockCount(alive, x, y, edgeWrap, 1)
           == BlockCount(alive, x, y, edgeWrap, 0) + ColumnCount(alive, x, y, 0, edgeWrap, 2);
  }

  /** A cell never has more than eight live neighbours. */
  lemma LiveNeighboursAtMostEight(alive: array2<bool>, x: int, y: int, edgeWrap: bool)
    requires IsGrid(alive) && InGrid(x, y)
    ensures LiveNeighbours(alive, x, y, edgeWrap) <= 8
  {
    LiveNeighboursExpanded(alive, x, y, edgeWrap);
  }

  /** With edge wrap the grid is a torus: the corner (0, 0) sees the opposite edges and the opposite corner. */
  lemma TorusCornerNeighbours(alive: array2<bool>)
    requires IsGrid(alive)
    ensures LiveNeighbours(alive, 0, 0, true)
            == Indicator(alive[Width - 1, Height - 1]) + Indicator(alive[Width - 1, 0]) + Indicator(alive[Width - 1, 1])
               + Indicator(alive[0, Height - 1]) + Indicator(alive[0, 1])
               + Indicator(alive[1, Height - 1]) + Indicator(alive[1, 0]) + Indicator(alive[1, 1])
  {
    LiveNeighboursExpanded(alive, 0, 0, true);
  }

  /** Without edge wrap the cells off the grid are skipped: a corner has at most three live neighbours. */
  lemma BoundedCornerAtMostThree(alive: array2<bool>)
    requires IsGrid(alive)
    ensures LiveNeighbours(alive, 0, 0, false)
            == Indicator(alive[0, 1]) + Indicator(alive[1, 0]) + Indicator(alive[1, 1])
    ensures LiveNeighbours(alive, 0, 0, false) <= 3
  {
    LiveNeighboursExpanded(alive, 0, 0, false);
  }

  /** Without edge wrap a cell on the top edge (not a corner) has at most five live neighbours. */
  lemma BoundedEdgeAtMostFive(alive: array2<bool>, x: int)
    requires IsGrid(alive) && 0 < x < Width - 1
    ensures LiveNeighbours(alive, x, 0, false) <= 5
  {
    LiveNeighboursExpanded(alive, x, 0, false);
  }

  /** On a grid where every cell is alive, a torus gives every cell eight neighbours, while the bounded grid
      gives a corner three and an inner cell eight. */
  lemma FullGridNeighbours(alive: array2<bool>, x: int, y: int)
    requires IsGrid(alive) && InGrid(x, y)
    requires forall i, j :: 0 <= i < Width && 0 <= j < Height ==> alive[i, j]
    ensures LiveNeighbours(alive, x, y, true) == 8
    ensures (x == 0 || x == Width - 1) && (y == 0 || y == Height - 1) ==> LiveNeighbours(alive, x, y, false) == 3
    ensures 0 < x < Width - 1 && 0 < y < Height - 1 ==> LiveNeighbours(alive, x, y, false) == 8
  {
    LiveNeighboursExpanded(alive, x, y, true);
    LiveNeighboursExpanded(alive, x, y, false);
  }

  /** getNewState: a live cell with two or three live neighbours survives; a lonely one (fewer than two)
      survives only on a draw above 990 and a crowded one (more than three) only on a draw above 950; a dead
      cell is born with exactly three or exactly six live neighbours. */
  function NewState(alive: bool, liveNeighbours: int, draw: Draw): bool
  {
    if alive then
      if liveNeighbours < 2 then draw > UnderpopulationThreshold
      else if liveNeighbours == 2 || liveNeighbours == 3 then true
      else if liveNeighbours > 3 then draw > OverpopulationThreshold
      else false
    else if liveNeighbours == 3 || liveNeighbours == 6 then true
    else false
  }

  /** One independent random(0, 1000) draw per cell and generation. */
  type DrawGrid = (int, int) -> Draw

  /** The state a cell takes in the next generation of the grid alive. */
  ghost function NextAlive(alive: array2<bool>, x: int, y: int, edgeWrap: bool, draw: DrawGrid): bool
    reads alive
    requires IsGrid(alive) && InGrid(x, y)
  {
    NewState(alive[x, y], LiveNeighbours(alive, x, y, edgeWrap), draw(x, y))
  }

  /** How many of the draws 0 .. upTo-1 leave the cell alive. */
  function SurvivingDraws(alive: bool, liveNeighbours: int, upTo: int): (count: nat)
    requires 0 <= upTo <= 1000
    ensures count <= upTo
  {
    if upTo == 0 then 0
    else SurvivingDraws(alive, liveNeighbours, upTo - 1) + Indicator(NewState(alive, liveNeighbours, upTo - 1))
  }

  lemma {:induction false} SurvivingDrawsAbove(liveNeighbours: int, threshold: int, upTo: int)
    requires 0 <= upTo <= 1000
    requires (liveNeighbours < 2 && threshold == UnderpopulationThreshold)
             || (liveNeighbours > 3 && threshold == OverpopulationThreshold)
    ensures SurvivingDraws(true, liveNeighbours, upTo) == Max(0, upTo - threshold - 1)
  {
    if upTo > 0 {
      SurvivingDrawsAbove(liveNeighbours, threshold, upTo - 1);
    }
  }

  /** A live cell with fewer than two neighbours survives on 9 of the 1000 equally likely draws. */
  lemma UnderpopulationSurvivalOdds(liveNeighbours: int)
    requires liveNeighbours < 2
    ensures SurvivingDraws(true, liveNeighbours, 1000) == 9
  {
    SurvivingDrawsAbove(liveNeighbours, UnderpopulationThreshold, 1000);
  }

  /** A live cell with more than three neighbours survives on 49 of the 1000 equally likely draws. */
  lemma OverpopulationSurvivalOdds(liveNeighbours: int)
    requires liveNeighbours > 3
    ensures SurvivingDraws(true, liveNeighbours, 1000) == 49
  {
    SurvivingDrawsAbove(liveNeighbours, OverpopulationThreshold, 1000);
  }

  /** Outside the lonely and crowded cases the rule ignores the draw: every draw gives the same answer, so the
      count of surviving draws is all or nothing. */
  lemma {:induction false} DeterministicCases(alive: bool, liveNeighbours: int, upTo: int)
    requires 0 <= upTo <= 1000
    requires !(alive && (liveNeighbours < 2 || liveNeighbours > 3))
    ensures SurvivingDraws(alive, liveNeighbours, upTo)
            == if (alive && (liveNeighbours == 2 || liveNeighbours == 3))
                  || (!alive && (liveNeighbours == 3 || liveNeighbours == 6))
               then upTo else 0
  {
    if upTo > 0 {
      DeterministicCases(alive, liveNeighbours, upTo - 1);
    }
  }

  /** How a cell's state changed across the generation; it selects the cell's colour. */
  datatype Role = Alive | JustBorn | JustDied | Dead
  {
    predicate IsAliveNow()
    {
      this == Alive || this == JustBorn
    }

    predicate WasAlive()
    {
      this == Alive || this == JustDied
    }
  }

  /** The role of a cell from its new and previous state (the if-chain at the top of getNewColorValue). */
  function RoleOf(newState: bool, prevState: bool): (r: Role)
    ensures r.IsAliveNow() == newState && r.WasAlive() == prevState
  {
    if newState && prevState then Alive
    else if newState && !prevState then JustBorn
    else if !newState && prevState then JustDied
    else Dead
  }

  /** Every role arises from exactly one pair of states. */
  lemma RoleOfIsInverse(r: Role)
    ensures RoleOf(r.IsAliveNow(), r.WasAlive()) == r
  {
  }

  /** One value per role: the four colour fields (or four brightness factors, four palette offsets). */
  datatype RoleTable<T> = RoleTable(alive: T, justBorn: T, justDied: T, dead: T)
  {
    function Pick(r: Role): T
    {
      match r
      case Alive => alive
      case JustBorn => justBorn
      case JustDied => justDied
      case Dead => dead
    }
  }

  /** random(0, 100) per cell when seeding. */
  type SeedGrid = (int, int) -> Percent

  /** What both automata's initialise leaves behind: a cell is alive when its draw is below the density
      percentage and coloured aliveColour, otherwise deadColour; the secondary alive grid is all dead and the
      secondary colour grid all deadColour. */
  ghost predicate SeededGrids(seed: SeedGrid, density: int, aliveColour: Word, deadColour: Word,
                              alive: array2<bool>, wasAlive: array2<bool>, colour: array2<Word>, prevColour: array2<Word>)
    reads alive, wasAlive, colour, prevColour
    requires IsGrid(alive) && IsGrid(wasAlive) && IsGrid(colour) && IsGrid(prevColour)
  {
    forall x, y :: InGrid(x, y) ==>
      alive[x, y] == (seed(x, y) < density) && !wasAlive[x, y]
      && colour[x, y] == (if alive[x, y] then aliveColour else deadColour)
      && prevColour[x, y] == deadColour
  }

  /** The nested seeding loop of initialise (identical in both automata). */
  method SeedGrids(seed: SeedGrid, density: int, aliveColour: Word, deadColour: Word,
                   alive: array2<bool>, wasAlive: array2<bool>, colour: array2<Word>, prevColour: array2<Word>)
    requires IsGrid(alive) && IsGrid(wasAlive) && IsGrid(colour) && IsGrid(prevColour)
    requires alive != wasAlive && colour != prevColour
    modifies alive, wasAlive, colour, prevColour
    ensures SeededGrids(seed, density, aliveColour, deadColour, alive, wasAlive, colour, prevColour)
  {
    for x := 0 to Width
      invariant forall i, j :: 0 <= i < x && 0 <= j < Height ==>
        alive[i, j] == (seed(i, j) < density) && !wasAlive[i, j]
        && colour[i, j] == (if alive[i, j] then aliveColour else deadColour)
        && prevColour[i, j] == deadColour
    {
      SeedColumn(seed, density, aliveColour, deadColour, alive, wasAlive, colour, prevColour, x);
    }
  }

  method SeedColumn(seed: SeedGrid, density: int, aliveColour: Word, deadColour: Word,
                    alive: array2<bool>, wasAlive: array2<bool>, colour: array2<Word>, prevColour: array2<Word>,
                    x: int)
    requires IsGrid(alive) && IsGrid(wasAlive) && IsGrid(colour) && IsGrid(prevColour)
    requires alive != wasAlive && colour != prevColour && 0 <= x < Width
    modifies alive, wasAlive, colour, prevColour
    ensures forall j :: 0 <= j < Height ==>
      alive[x, j] == (seed(x, j) < density) && !wasAlive[x, j]
      && colour[x, j] == (if alive[x, j] then aliveColour else deadColour)
      && prevColour[x, j] == deadColour
    ensures forall i, j :: 0 <= i < Width && i != x && 0 <= j < Height ==>
      alive[i, j] == old(alive[i, j]) && wasAlive[i, j] == old(wasAlive[i, j])
      && colour[i, j] == old(colour[i, j]) && prevColour[i, j] == old(prevColour[i, j])
  {
    for y := 0 to Height
      invariant forall j :: 0 <= j < y ==>
        alive[x, j] == (seed(x, j) < density) && !wasAlive[x, j]
        && colour[x, j] == (if alive[x, j] then aliveColour else deadColour)
        && prevColour[x, j] == deadColour
      invariant forall i, j :: 0 <= i < Width && i != x && 0 <= j < Height ==>
        alive[i, j] == old(alive[i, j]) && wasAlive[i, j] == old(wasAlive[i, j])
        && colour[i, j] == old(colour[i, j]) && prevColour[i, j] == old(prevColour[i, j])
    {
      var isAlive := seed(x, y) < density;
      alive[x, y] := isAlive;
      wasAlive[x, y] := false;
      colour[x, y] := if isAlive then aliveColour else deadColour;
      prevColour[x, y] := deadColour;
    }
  }
}
