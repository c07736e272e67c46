/** The grid engine of 2048: the grid as a value with the effect of one
    move on it, and the class `TwentyFortyEight` that owns a
    `height × width` grid and updates it in place. */
module Game {
  import opened Lines
  import opened Geometry

  /** A grid as rows of cells; 0 is an empty cell. */
  type Grid = seq<seq<int>>

  predicate Shaped(g: Grid, height: nat, width: nat)
  {
    |g| == height && forall r :: 0 <= r < height ==> |g[r]| == width
  }

  predicate HasEmpty(g: Grid, height: nat, width: nat)
    requires Shaped(g, height, width)
  {
    exists r, c :: 0 <= r < height && 0 <= c < width && g[r][c] == 0
  }

  /** Every cell holds 0 or a power of two. */
  predicate GridTiles(g: Grid, height: nat, width: nat)
    requires Shaped(g, height, width)
  {
    forall r, c :: 0 <= r < height && 0 <= c < width ==> IsTile(g[r][c])
  }

  predicate IsSpawnValue(v: int)
  {
    v == 2 || v == 4
  }

  /** `after` is `before` with one empty cell now holding 2 or 4 and every
      other cell as it was. */
  predicate Spawned(before: Grid, after: Grid, height: nat, width: nat)
    requires Shaped(before, height, width)
  {
    Shaped(after, height, width) &&
    exists r, c :: 0 <= r < height && 0 <= c < width &&
      before[r][c] == 0 && IsSpawnValue(after[r][c]) &&
      forall r', c' :: 0 <= r' < height && 0 <= c' < width && (r', c') != (r, c) ==>
        after[r'][c'] == before[r'][c']
  }

  /** Exactly two cells are occupied, each by a 2 or a 4. */
  predicate TwoTiles(g: Grid, height: nat, width: nat)
    requires Shaped(g, height, width)
  {
    exists r1, c1, r2, c2 ::
      0 <= r1 < height && 0 <= c1 < width && 0 <= r2 < height && 0 <= c2 < width &&
      (r1, c1) != (r2, c2) && IsSpawnValue(g[r1][c1]) && IsSpawnValue(g[r2][c2]) &&
      forall r, c :: 0 <= r < height && 0 <= c < width && (r, c) != (r1, c1) && (r, c) != (r2, c2) ==>
        g[r][c] == 0
  }

  // ---------------------------------------------------------------------
  // One move on a grid value
  // ---------------------------------------------------------------------

  /** The values of line `k` of a move in direction `d`, step 0 first. */
  function LineValues(d: Direction, height: nat, width: nat, g: Grid, k: nat): (line: seq<int>)
    requires Shaped(g, height, width) && k < LineCount(d, height, width)
    ensures |line| == Steps(d, height, width)
  {
    seq(Steps(d, height, width), j requires 0 <= j < Steps(d, height, width) =>
      var cell := Coord(d, height, width, k, j);
      g[cell.0][cell.1])
  }

  /** The grid after every line of a move has been merged and written back
      (before any tile is spawned). */
  function MoveGrid(d: Direction, height: nat, width: nat, g: Grid): (moved: Grid)
    requires Shaped(g, height, width)
    ensures Shaped(moved, height, width)
  {
    seq(height, r requires 0 <= r < height =>
      seq(width, c requires 0 <= c < width => MovedCell(d, height, width, g, r, c)))
  }

  /** The merged value that a move writes into the cell (r, c): the value
      at the cell's step in the merge of the cell's line. */
  function MovedCell(d: Direction, height: nat, width: nat, g: Grid, r: nat, c: nat): int
    requires Shaped(g, height, width) && r < height && c < width
  {
    var at := Locate(d, height, width, r, c);
    Merge(LineValues(d, height, width, g, at.0))[at.1]
  }

  /** The change flag of `move` as written: some line fails the value-based
      check. */
  predicate ValueFlag(d: Direction, height: nat, width: nat, g: Grid)
    requires Shaped(g, height, width)
  {
    exists k :: 0 <= k < LineCount(d, height, width) && LineFlag(d, height, width, g, k)
  }

  /** Some line before line `n` fails the value-based check. */
  predicate FlagBefore(d: Direction, height: nat, width: nat, g: Grid, n: nat)
    requires Shaped(g, height, width) && n <= LineCount(d, height, width)
  {
    exists k :: 0 <= k < n && LineFlag(d, height, width, g, k)
  }

  lemma FlagBeforeNext(d: Direction, height: nat, width: nat, g: Grid, n: nat)
    requires Shaped(g, height, width) && n < LineCount(d, height, width)
    ensures FlagBefore(d, height, width, g, n + 1) <==> FlagBefore(d, height, width, g, n) || LineFlag(d, height, width, g, n)
  {
  }

  /** The value-based check of `move` on line `k`. */
  predicate LineFlag(d: Direction, height: nat, width: nat, g: Grid, k: nat)
    requires Shaped(g, height, width) && k < LineCount(d, height, width)
  {
    ValueChanged(LineValues(d, height, width, g, k), Merge(LineValues(d, height, width, g, k)))
  }

  /** The positional change flag: some line differs from its merge. */
  predicate PositionalFlag(d: Direction, height: nat, width: nat, g: Grid)
    requires Shaped(g, height, width)
  {
    exists k :: 0 <= k < LineCount(d, height, width) &&
      Merge(LineValues(d, height, width, g, k)) != LineValues(d, height, width, g, k)
  }

  /** Two grids of the same shape with the same cells are equal. */
  lemma GridExt(a: Grid, b: Grid, height: nat, width: nat)
    requires Shaped(a, height, width) && Shaped(b, height, width)
    requires forall r, c :: 0 <= r < height && 0 <= c < width ==> a[r][c] == b[r][c]
    ensures a == b
  {
    forall r | 0 <= r < height ensures a[r] == b[r] {
      assert forall c :: 0 <= c < width ==> a[r][c] == b[r][c];
    }
  }

  /** After a move, each line holds the merge of its old values, in the
      same order. */
  lemma MoveMergesLines(d: Direction, height: nat, width: nat, g: Grid, k: nat)
    requires Shaped(g, height, width) && k < LineCount(d, height, width)
    ensures LineValues(d, height, width, MoveGrid(d, height, width, g), k) == Merge(LineValues(d, height, width, g, k))
  {
    var moved := MoveGrid(d, height, width, g);
    var merged := Merge(LineValues(d, height, width, g, k));
    forall j | 0 <= j < Steps(d, height, width)
      ensures LineValues(d, height, width, moved, k)[j] == merged[j]
    {
      LocateCoord(d, height, width, k, j);
    }
  }

  /** The positional flag is set exactly when the move changes the grid. */
  lemma PositionalFlagExact(d: Direction, height: nat, width: nat, g: Grid)
    requires Shaped(g, height, width)
    ensures PositionalFlag(d, height, width, g) <==> MoveGrid(d, height, width, g) != g
  {
    var moved := MoveGrid(d, height, width, g);
    if PositionalFlag(d, height, width, g) {
      var k :| 0 <= k < LineCount(d, height, width) &&
        Merge(LineValues(d, height, width, g, k)) != LineValues(d, height, width, g, k);
      MoveMergesLines(d, height, width, g, k);
    } else {
      forall r, c | 0 <= r < height && 0 <= c < width ensures moved[r][c] == g[r][c] {
        var at := Locate(d, height, width, r, c);
        assert Merge(LineValues(d, height, width, g, at.0)) == LineValues(d, height, width, g, at.0);
      }
      GridExt(moved, g, height, width);
    }
  }

  /** The value-based flag is sound: it is never set by a move that leaves
      the grid as it was. */
  lemma ValueFlagSound(d: Direction, height: nat, width: nat, g: Grid)
    requires Shaped(g, height, width)
    requires ValueFlag(d, height, width, g)
    ensures PositionalFlag(d, height, width, g)
    ensures MoveGrid(d, height, width, g) != g
  {
    var k :| 0 <= k < LineCount(d, height, width) && LineFlag(d, height, width, g, k);
    ValueChangedSound(LineValues(d, height, width, g, k), Merge(LineValues(d, height, width, g, k)));
    PositionalFlagExact(d, height, width, g);
  }

  /** The value-based flag is not complete: in a 4-wide grid whose row r
      is `[4, 2, 0, 2]` and whose other rows are empty, a move LEFT changes
      row r to `[4, 4, 0, 0]`, yet the flag stays clear, so no tile is
      spawned. */
  lemma ValueFlagMissesChange(g: Grid, height: nat, width: nat, r: nat)
    requires Shaped(g, height, width) && width == 4 && r < height
    requires g[r] == [4, 2, 0, 2]
    requires forall r' :: 0 <= r' < height && r' != r ==> g[r'] == [0, 0, 0, 0]
    ensures MoveGrid(Left, height, width, g)[r] == [4, 4, 0, 0]
    ensures MoveGrid(Left, height, width, g) != g
    ensures !ValueFlag(Left, height, width, g)
  {
    assert Merge([4, 2, 0, 2]) == [4, 4, 0, 0] && !ValueChanged([4, 2, 0, 2], [4, 4, 0, 0]) by {
      ValueChangeMissed();
    }
    assert Merge([0, 0, 0, 0]) == [0, 0, 0, 0] by {
      MergeGapExamples();
    }
    forall k | 0 <= k < LineCount(Left, height, width) ensures !LineFlag(Left, height, width, g, k) {
      LeftLine(height, width, g, k);
      if k != r {
        if ValueChanged(g[k], Merge(g[k])) {
          ValueChangedSound(g[k], Merge(g[k]));
        }
      }
    }
    MoveLeftRows(height, width, g, r);
  }

  /** A move that changes the grid leaves an empty cell for the new tile. */
  lemma MoveLeavesRoom(d: Direction, height: nat, width: nat, g: Grid)
    requires Shaped(g, height, width)
    requires PositionalFlag(d, height, width, g)
    ensures HasEmpty(MoveGrid(d, height, width, g), height, width)
  {
    var k :| 0 <= k < LineCount(d, height, width) &&
      Merge(LineValues(d, height, width, g, k)) != LineValues(d, height, width, g, k);
    MergeChangeLeavesGap(LineValues(d, height, width, g, k));
    var j :| 0 <= j < Steps(d, height, width) && Merge(LineValues(d, height, width, g, k))[j] == 0;
    MoveMergesLines(d, height, width, g, k);
    var cell := Coord(d, height, width, k, j);
    assert MoveGrid(d, height, width, g)[cell.0][cell.1] == LineValues(d, height, width, MoveGrid(d, height, width, g), k)[j];
  }

  /** A move keeps every cell 0 or a power of two. */
  lemma MoveKeepsTiles(d: Direction, height: nat, width: nat, g: Grid)
    requires Shaped(g, height, width) && GridTiles(g, height, width)
    ensures GridTiles(MoveGrid(d, height, width, g), height, width)
  {
    forall k | 0 <= k < LineCount(d, height, width)
      ensures AllTiles(Merge(LineValues(d, height, width, g, k)))
    {
      MergeTiles(LineValues(d, height, width, g, k));
    }
  }

  /** Spawning a 2 or a 4 keeps every cell 0 or a power of two. */
  lemma SpawnKeepsTiles(before: Grid, after: Grid, height: nat, width: nat)
    requires Shaped(before, height, width) && GridTiles(before, height, width)
    requires Spawned(before, after, height, width)
    ensures GridTiles(after, height, width)
  {
    var r, c :| 0 <= r < height && 0 <= c < width &&
      before[r][c] == 0 && IsSpawnValue(after[r][c]) &&
      forall r', c' :: 0 <= r' < height && 0 <= c' < width && (r', c') != (r, c) ==>
        after[r'][c'] == before[r'][c'];
    assert IsPowerOfTwo(2) && IsPowerOfTwo(4);
  }

  /** Two spawns on an empty grid leave exactly two tiles. */
  lemma SpawnTwice(empty: Grid, mid: Grid, g: Grid, height: nat, width: nat)
    requires Shaped(empty, height, width) && Shaped(mid, height, width)
    requires forall r, c :: 0 <= r < height && 0 <= c < width ==> empty[r][c] == 0
    requires Spawned(empty, mid, height, width) && Spawned(mid, g, height, width)
    ensures TwoTiles(g, height, width)
  {
    var r1, c1 :| 0 <= r1 < height && 0 <= c1 < width &&
      empty[r1][c1] == 0 && IsSpawnValue(mid[r1][c1]) &&
      forall r', c' :: 0 <= r' < height && 0 <= c' < width && (r', c') != (r1, c1) ==>
        mid[r'][c'] == empty[r'][c'];
    var r2, c2 :| 0 <= r2 < height && 0 <= c2 < width &&
      mid[r2][c2] == 0 && IsSpawnValue(g[r2][c2]) &&
      forall r', c' :: 0 <= r' < height && 0 <= c' < width && (r', c') != (r2, c2) ==>
        g[r'][c'] == mid[r'][c'];
    assert (r1, c1) != (r2, c2);
    assert IsSpawnValue(g[r1][c1]);
  }

  /** One spawn on an empty grid of at least two cells leaves room for a
      second one. */
  lemma SpawnOnceLeavesRoom(empty: Grid, mid: Grid, height: nat, width: nat)
    requires height >= 1 && width >= 1 && height * width >= 2
    requires Shaped(empty, height, width)
    requires forall r, c :: 0 <= r < height && 0 <= c < width ==> empty[r][c] == 0
    requires Spawned(empty, mid, height, width)
    ensures HasEmpty(mid, height, width)
  {
    var r1, c1 :| 0 <= r1 < height && 0 <= c1 < width &&
      empty[r1][c1] == 0 && IsSpawnValue(mid[r1][c1]) &&
      forall r', c' :: 0 <= r' < height && 0 <= c' < width && (r', c') != (r1, c1) ==>
        mid[r'][c'] == empty[r'][c'];
    if width >= 2 {
      var c := if c1 == 0 then 1 else 0;
      assert mid[r1][c] == 0;
    } else {
      assert height >= 2;
      var r := if r1 == 0 then 1 else 0;
      assert mid[r][c1] == 0;
    }
  }

  /** A line of a move LEFT is a row, read from column 0. */
  lemma LeftLine(height: nat, width: nat, g: Grid, r: nat)
    requires Shaped(g, height, width) && r < height
    ensures LineValues(Left, height, width, g, r) == g[r]
  {
  }

  /** A line of a move UP is a column, read from row 0. */
  lemma UpLine(height: nat, width: nat, g: Grid, c: nat)
    requires Shaped(g, height, width) && c < width
    ensures forall r :: 0 <= r < height ==> LineValues(Up, height, width, g, c)[r] == g[r][c]
  {
  }

  /** A move LEFT merges each row on its own. */
  lemma MoveLeftRows(height: nat, width: nat, g: Grid, r: nat)
    requires Shaped(g, height, width) && r < height
    ensures MoveGrid(Left, height, width, g)[r] == Merge(g[r])
  {
    MoveMergesLines(Left, height, width, g, r);
    LeftLine(height, width, g, r);
    LeftLine(height, width, MoveGrid(Left, height, width, g), r);
  }

  /** The row scenario: in a 4-wide grid whose row r is `[2,2,2,2]` and
      whose other rows are empty, a move LEFT turns row r into `[4,4,0,0]`,
      keeps the other rows, and sets the flag that spawns a tile. */
  lemma ScenarioRowLeft(g: Grid, height: nat, width: nat, r: nat)
    requires Shaped(g, height, width) && width == 4 && r < height
    requires g[r] == [2, 2, 2, 2]
    requires forall r' :: 0 <= r' < height && r' != r ==> g[r'] == [0, 0, 0, 0]
    ensures MoveGrid(Left, height, width, g)[r] == [4, 4, 0, 0]
    ensures forall r' :: 0 <= r' < height && r' != r ==> MoveGrid(Left, height, width, g)[r'] == g[r']
    ensures ValueFlag(Left, height, width, g)
  {
    assert Merge([2, 2, 2, 2]) == [4, 4, 0, 0] && Merge([0, 0, 0, 0]) == [0, 0, 0, 0] by {
      MergeExamples();
      MergeGapExamples();
    }
    forall r' | 0 <= r' < height ensures MoveGrid(Left, height, width, g)[r'] == Merge(g[r']) {
      MoveLeftRows(height, width, g, r');
    }
    LeftLine(height, width, g, r);
    var after := [4, 4, 0, 0];
    assert FirstIndex(after, 4) == 0;
    assert ValueChanged([2, 2, 2, 2], after);
    assert LineFlag(Left, height, width, g, r);
  }

  /** The column scenario: in a 4-high grid, a column `[0,2,0,2]` (top to
      bottom) moved UP becomes `[4,0,0,0]`. */
  lemma ScenarioColumnUp(g: Grid, height: nat, width: nat, c: nat)
    requires Shaped(g, height, width) && height == 4 && c < width
    requires g[0][c] == 0 && g[1][c] == 2 && g[2][c] == 0 && g[3][c] == 2
    ensures var moved := MoveGrid(Up, height, width, g);
      moved[0][c] == 4 && moved[1][c] == 0 && moved[2][c] == 0 && moved[3][c] == 0
  {
    var moved := MoveGrid(Up, height, width, g);
    assert LineValues(Up, height, width, g, c) == [0, 2, 0, 2] by {
      UpLine(height, width, g, c);
    }
    assert Merge([0, 2, 0, 2]) == [4, 0, 0, 0] by {
      MergeGapExamples();
    }
    assert LineValues(Up, height, width, moved, c) == [4, 0, 0, 0] by {
      MoveMergesLines(Up, height, width, g, c);
    }
    UpLine(height, width, moved, c);
  }

  // ---------------------------------------------------------------------
  // The engine object
  // ---------------------------------------------------------------------

  class TwentyFortyEight {
    const height: nat
    const width: nat
    /** `_initial_tiles`: the start tile of every line, per direction. */
    const initialTiles: map<Direction, seq<(int, int)>>
    var grid: array2<int>

    ghost predicate Valid()
      reads this
    {
      height >= 1 && width >= 1 && height * width >= 2 &&
      grid.Length0 == height && grid.Length1 == width &&
      initialTiles == StartTable(height, width)
    }

    /** The grid contents as a value. */
    ghost function Cells(): (g: Grid)
      reads this, grid
      requires Valid()
      ensures Shaped(g, height, width)
      ensures forall r, c :: 0 <= r < height && 0 <= c < width ==> g[r][c] == grid[r, c]
    {
      var a := grid;
      seq(height, r requires 0 <= r < height reads a =>
        seq(width, c requires 0 <= c < width reads a => a[r, c]))
    }

    /** A new game: the grid holds exactly two tiles. */
    constructor (gridHeight: nat, gridWidth: nat)
      requires gridHeight >= 1 && gridWidth >= 1 && gridHeight * gridWidth >= 2
      ensures Valid() && height == gridHeight && width == gridWidth
      ensures fresh(grid)
      ensures TwoTiles(Cells(), height, width)
    {
      height := gridHeight;
      width := gridWidth;
      grid := new int[gridHeight, gridWidth];
      initialTiles := StartTable(gridHeight, gridWidth);
      new;
      Reset();
    }

    /** Empties the grid, then spawns two tiles. */
    method Reset()
      requires Valid()
      modifies this
      ensures Valid() && fresh(grid)
      ensures TwoTiles(Cells(), height, width)
    {
      grid := new int[height, width]((_, _) => 0);
      SpawnStartTiles();
    }

    /** The two `new_tile` calls of `reset`, on a grid of zeros. */
    method SpawnStartTiles()
      requires Valid() && forall r, c :: 0 <= r < height && 0 <= c < width ==> grid[r, c] == 0
      modifies grid
      ensures TwoTiles(Cells(), height, width)
    {
      ghost var empty := Cells();
      assert HasEmpty(empty, height, width) by {
        assert empty[0][0] == 0;
      }
      NewTile();
      ghost var mid := Cells();
      assert HasEmpty(mid, height, width) by {
        SpawnOnceLeavesRoom(empty, mid, height, width);
      }
      NewTile();
      assert TwoTiles(Cells(), height, width) by {
        SpawnTwice(empty, mid, Cells(), height, width);
      }
    }

    function GetGridHeight(): (h: nat)
      reads this
      requires Valid()
      ensures h >= 1 && h == grid.Length0
    {
      height
    }

    function GetGridWidth(): (w: nat)
      reads this
      requires Valid()
      ensures w >= 1 && w == grid.Length1
    {
      width
    }

    /** Slides and merges every line toward `d`, writes each line back in
        place, and spawns one tile when the value-based change check fires. */
    method Move(d: Direction)
      requires Valid()
      modifies grid
      ensures Valid()
      ensures var moved := MoveGrid(d, height, width, old(Cells()));
        if ValueFlag(d, height, width, old(Cells())) then Spawned(moved, Cells(), height, width)
        else Cells() == moved
      ensures GridTiles(old(Cells()), height, width) ==> GridTiles(Cells(), height, width)
      ensures MoveGrid(d, height, width, old(Cells())) == old(Cells()) ==> Cells() == old(Cells())
    {
      ghost var g := Cells();
      ghost var moved := MoveGrid(d, height, width, g);
      var changed := false;
      StartTableEntry(height, width, d);
      var starts := initialTiles[d];
      for k := 0 to |starts|
        invariant forall r, c :: 0 <= r < height && 0 <= c < width ==>
          grid[r, c] == if Locate(d, height, width, r, c).0 < k then MovedCell(d, height, width, g, r, c) else g[r][c]
        invariant changed == FlagBefore(d, height, width, g, k)
      {
        var lineChanged := MoveLine(d, starts, k, g);
        FlagBeforeNext(d, height, width, g, k);
        changed := changed || lineChanged;
      }
      assert Cells() == moved by {
        GridExt(Cells(), moved, height, width);
      }
      assert GridTiles(g, height, width) ==> GridTiles(moved, height, width) by {
        if GridTiles(g, height, width) {
          MoveKeepsTiles(d, height, width, g);
        }
      }
      if changed {
        assert moved != g && HasEmpty(moved, height, width) by {
          ValueFlagSound(d, height, width, g);
          MoveLeavesRoom(d, height, width, g);
        }
        NewTile();
        assert GridTiles(moved, height, width) ==> GridTiles(Cells(), height, width) by {
          if GridTiles(moved, height, width) {
            SpawnKeepsTiles(moved, Cells(), height, width);
          }
        }
      }
    }

    /** One line of `move`: reads line `k`, merges it, writes it back in
        place, and reports the value-based check on it. Only the cells of
        line `k` change. */
    method MoveLine(d: Direction, starts: seq<(int, int)>, k: nat, ghost g: Grid) returns (lineChanged: bool)
      requires Valid() && starts == StartTiles(d, height, width) && k < |starts|
      requires Shaped(g, height, width)
      requires forall r, c :: 0 <= r < height && 0 <= c < width && Locate(d, height, width, r, c).0 == k ==>
        grid[r, c] == g[r][c]
      modifies grid
      ensures lineChanged == LineFlag(d, height, width, g, k)
      ensures forall r, c :: 0 <= r < height && 0 <= c < width ==>
        grid[r, c] == if Locate(d, height, width, r, c).0 == k then MovedCell(d, height, width, g, r, c) else old(grid[r, c])
    {
      var holding, coords := ReadLine(d, starts, k);
      assert holding == LineValues(d, height, width, g, k) by {
        forall j | 0 <= j < |holding| ensures holding[j] == LineValues(d, height, width, g, k)[j] {
          LocateCoord(d, height, width, k, j);
        }
      }
      var merged := MergeLine(holding);
      WriteLine(d, k, coords, merged);
      lineChanged := CheckChanged(holding, merged);
    }

    /** The reading half of one line of `move`: walks line `k` from its
        start tile by the direction's offset, collecting the cells and their
        values, step 0 first. */
    method ReadLine(d: Direction, starts: seq<(int, int)>, k: nat) returns (holding: seq<int>, coords: seq<(int, int)>)
      requires Valid() && starts == StartTiles(d, height, width) && k < |starts|
      ensures |holding| == |coords| == Steps(d, height, width)
      ensures forall j :: 0 <= j < |coords| ==> coords[j] == Coord(d, height, width, k, j)
      ensures forall j :: 0 <= j < |coords| ==>
        var cell := Coord(d, height, width, k, j); holding[j] == grid[cell.0, cell.1]
    {
      holding := [];
      coords := [];
      for step := 0 to Steps(d, height, width)
        invariant |holding| == |coords| == step
        invariant forall j :: 0 <= j < step ==> coords[j] == Coord(d, height, width, k, j)
        invariant forall j :: 0 <= j < step ==>
          var cell := Coord(d, height, width, k, j); holding[j] == grid[cell.0, cell.1]
      {
        var row := starts[k].0 + step * Offset(d).0;
        var col := starts[k].1 + step * Offset(d).1;
        assert (row, col) == Coord(d, height, width, k, step);
        coords := coords + [(row, col)];
        holding := holding + [grid[row, col]];
      }
    }

    /** The writing half of one line of `move`: every cell of line `k` gets
        the merged value at its own step, looked up by the cell's position
        in the coordinate list; no other cell changes. */
    method WriteLine(d: Direction, k: nat, coords: seq<(int, int)>, merged: seq<int>)
      requires Valid() && k < LineCount(d, height, width)
      requires |coords| == |merged| == Steps(d, height, width)
      requires forall j :: 0 <= j < |coords| ==> coords[j] == Coord(d, height, width, k, j)
      modifies grid
      ensures forall r, c :: 0 <= r < height && 0 <= c < width ==>
        grid[r, c] == (var at := Locate(d, height, width, r, c);
                       if at.0 == k then merged[at.1] else old(grid[r, c]))
    {
      for i := 0 to |coords|
        invariant forall r, c :: 0 <= r < height && 0 <= c < width ==>
          grid[r, c] == (var at := Locate(d, height, width, r, c);
                         if at.0 == k && at.1 < i then merged[at.1] else old(grid[r, c]))
      {
        var p := IndexOf(coords, coords[i]);
        assert p == i && Locate(d, height, width, coords[i].0, coords[i].1) == (k, i) by {
          CoordInjective(d, height, width, k, p, k, i);
          LocateCoord(d, height, width, k, i);
        }
        StoreCell(coords[i].0, coords[i].1, merged[p]);
      }
    }

    /** One assignment `_grid[row][col] = value`. */
    method StoreCell(row: nat, col: nat, value: int)
      requires Valid() && row < height && col < width
      modifies grid
      ensures forall r, c :: 0 <= r < height && 0 <= c < width ==>
        grid[r, c] == if r == row && c == col then value else old(grid[r, c])
    {
      grid[row, col] := value;
    }

    /** Puts a 2 or a 4 into an empty cell; the cell and the value are
        chosen nondeterministically. */
    method NewTile()
      requires Valid() && HasEmpty(Cells(), height, width)
      modifies grid
      ensures Spawned(old(Cells()), Cells(), height, width)
    {
      var row: nat, col: nat :| row < height && col < width && grid[row, col] == 0;
      assert IsSpawnValue(2);
      var value :| IsSpawnValue(value);
      grid[row, col] := value;
      assert Cells()[row][col] == value;
    }

    method SetTile(row: nat, col: nat, value: int)
      requires Valid() && row < height && col < width
      modifies grid
      ensures Cells() == old(Cells())[row := old(Cells())[row][col := value]]
    {
      grid[row, col] := value;
      GridExt(Cells(), old(Cells())[row := old(Cells())[row][col := value]], height, width);
    }

    function GetTile(row: nat, col: nat): (value: int)
      reads this, grid
      requires Valid() && row < height && col < width
      ensures value == Cells()[row][col]
    {
      grid[row, col]
    }
  }
}
