/** `buildGrid` of the game-of-life example, which appears twice with the
    same text (in the grid component and in the game component): the live
    cells are first indexed by the string `${x},${y}`, then a `height` by
    `width` grid of booleans is pushed row by row. Coordinates and
    dimensions are integers. */
module LifeGrid {
  import Decimal
  import Text

  /** The game state the server publishes. */
  datatype Game = Game(alive: seq<(int, int)>, width: int, height: int)

  /** The property name `${x},${y}`. */
  function CellKey(x: int, y: int): string {
    Decimal.IntToString(x) + "," + Decimal.IntToString(y)
  }

  /** Distinct cells have distinct keys: neither number's text has a comma. */
  lemma CellKeyInjective(x1: int, y1: int, x2: int, y2: int)
    requires CellKey(x1, y1) == CellKey(x2, y2)
    ensures x1 == x2 && y1 == y2
  {
    var a, b := Decimal.IntToString(x1), Decimal.IntToString(x2);
    assert ',' !in a && ',' !in b;
    Text.SplitAtFirst(a, Decimal.IntToString(y1), b, Decimal.IntToString(y2), ',');
    Decimal.IntToStringInjective(x1, x2);
    Decimal.IntToStringInjective(y1, y2);
  }

  /** `game.alive.reduce((acc, [x, y]) => ({ ...acc, [`${x},${y}`]: true }), {})`. */
  function AliveIndex(alive: seq<(int, int)>): map<string, bool>
    decreases |alive|
  {
    if alive == [] then map[]
    else
      var cell := alive[|alive| - 1];
      AliveIndex(alive[..|alive| - 1])[CellKey(cell.0, cell.1) := true]
  }

  /** `!!alive[`${x},${y}`]`: a missing key reads as `undefined`. */
  function IsAlive(index: map<string, bool>, x: int, y: int): bool {
    CellKey(x, y) in index && index[CellKey(x, y)]
  }

  lemma InLastSplit<T>(s: seq<T>, v: T)
    requires s != []
    ensures v in s <==> v in s[..|s| - 1] || v == s[|s| - 1]
  {
    assert s == s[..|s| - 1] + [s[|s| - 1]];
  }

  /** Marking one more key alive. */
  lemma IsAliveUpdate(index: map<string, bool>, key: string, x: int, y: int)
    ensures IsAlive(index[key := true], x, y) <==> CellKey(x, y) == key || IsAlive(index, x, y)
  {
  }

  /** Indexing the last listed cell on top of the others. */
  lemma AliveIndexStep(alive: seq<(int, int)>, x: int, y: int)
    requires alive != []
    requires IsAlive(AliveIndex(alive[..|alive| - 1]), x, y) <==> (x, y) in alive[..|alive| - 1]
    ensures IsAlive(AliveIndex(alive), x, y) <==> (x, y) in alive
  {
    var init, last := alive[..|alive| - 1], alive[|alive| - 1];
    var key := CellKey(last.0, last.1);
    assert AliveIndex(alive) == AliveIndex(init)[key := true];
    IsAliveUpdate(AliveIndex(init), key, x, y);
    InLastSplit(alive, (x, y));
    if (x, y) != last && key == CellKey(x, y) {
      CellKeyInjective(last.0, last.1, x, y);
    }
  }

  /** The index answers exactly the membership question: duplicates and
      order in the list do not matter. */
  lemma {:induction false} AliveIndexMeans(alive: seq<(int, int)>, x: int, y: int)
    ensures IsAlive(AliveIndex(alive), x, y) <==> (x, y) in alive
    decreases |alive|
  {
    if alive != [] {
      AliveIndexMeans(alive[..|alive| - 1], x, y);
      AliveIndexStep(alive, x, y);
    }
  }

  function Max0(n: int): nat {
    if n > 0 then n else 0
  }

  /** The first `n` cells of row `y`: cell `x` is alive exactly when
      `(x, y)` is listed. */
  function Cells(game: Game, y: int, n: nat): seq<bool> {
    seq(n, x => (x, y) in game.alive)
  }

  lemma CellsStep(game: Game, y: int, n: nat)
    ensures Cells(game, y, n + 1) == Cells(game, y, n) + [(n, y) in game.alive]
  {
    assert Cells(game, y, n + 1)[..n] == Cells(game, y, n);
  }

  /** Row `y` of the grid: `max(width, 0)` cells. */
  function Row(game: Game, y: int): seq<bool> {
    Cells(game, y, Max0(game.width))
  }

  /** The first `n` rows. */
  function Rows(game: Game, n: nat): seq<seq<bool>> {
    seq(n, y => Row(game, y))
  }

  lemma RowsStep(game: Game, n: nat)
    ensures Rows(game, n + 1) == Rows(game, n) + [Row(game, n)]
  {
    assert Rows(game, n + 1)[..n] == Rows(game, n);
  }

  /** The grid the component draws: `max(height, 0)` rows. */
  function Expected(game: Game): seq<seq<bool>> {
    Rows(game, Max0(game.height))
  }

  /** Only the listed cells inside the board count: duplicates, order and
      cells outside the board do not change the grid. */
  lemma ExpectedDependsOnBoardCells(game1: Game, game2: Game)
    requires game1.width == game2.width && game1.height == game2.height
    requires forall x, y :: 0 <= x < game1.width && 0 <= y < game1.height ==>
      ((x, y) in game1.alive <==> (x, y) in game2.alive)
    ensures Expected(game1) == Expected(game2)
  {
    var g1, g2 := Expected(game1), Expected(game2);
    forall y | 0 <= y < |g1| ensures g1[y] == g2[y] {
      assert forall x :: 0 <= x < |g1[y]| ==> g1[y][x] == g2[y][x];
    }
  }

  /** The grid's shape and contents, cell by cell. */
  lemma ExpectedMeans(game: Game)
    ensures |Expected(game)| == Max0(game.height)
    ensures forall y :: 0 <= y < |Expected(game)| ==> |Expected(game)[y]| == Max0(game.width)
    ensures forall y, x :: 0 <= y < |Expected(game)| && 0 <= x < |Expected(game)[y]| ==>
      (Expected(game)[y][x] <==> (x, y) in game.alive)
  {
  }

  /** `!!alive[`${x},${y}`]` for an index built from the list. */
  method LookUp(game: Game, alive: map<string, bool>, x: int, y: int) returns (cell: bool)
    requires alive == AliveIndex(game.alive)
    ensures cell <==> (x, y) in game.alive
  {
    cell := IsAlive(alive, x, y);
    AliveIndexMeans(game.alive, x, y);
  }

  /** The inner loop of `buildGrid`: row `y`, read from the index. */
  method BuildRow(game: Game, alive: map<string, bool>, y: int) returns (row: seq<bool>)
    requires alive == AliveIndex(game.alive)
    ensures row == Row(game, y)
  {
    row := [];
    var x := 0;
    while x < game.width
      invariant 0 <= x <= Max0(game.width)
      invariant row == Cells(game, y, x)
    {
      var cell := LookUp(game, alive, x, y);
      CellsStep(game, y, x);
      row := row + [cell];
      x := x + 1;
    }
  }

  /** `buildGrid(game)`. */
  method BuildGrid(game: Game) returns (grid: seq<seq<bool>>)
    ensures grid == Expected(game)
  {
    var alive := AliveIndex(game.alive);
    grid := [];
    var y := 0;
    while y < game.height
      invariant 0 <= y <= Max0(game.height)
      invariant grid == Rows(game, y)
    {
      var row := BuildRow(game, alive, y);
      RowsStep(game, y);
      grid := grid + [row];
      y := y + 1;
    }
  }
}
