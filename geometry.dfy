/** Line geometry of `move`: for each direction, the start tile of every
    line and the step offset that walks it, arranged so that step 0 of a
    line is the cell on the edge the tiles move toward. */
module Geometry {

  /** The four move directions (`UP = 1`, `DOWN = 2`, `LEFT = 3`,
      `RIGHT = 4` in the source). */
  datatype Direction = Up | Down | Left | Right

  /** `OFFSETS`: the (row, column) step that walks a line. */
  function Offset(d: Direction): (o: (int, int))
    ensures (o.0 == 0) != (o.1 == 0) && -1 <= o.0 <= 1 && -1 <= o.1 <= 1
    ensures o.1 == 0 <==> d == Up || d == Down
  {
    match d
    case Up => (1, 0)
    case Down => (-1, 0)
    case Left => (0, 1)
    case Right => (0, -1)
  }

  /** Number of lines a move walks: one per column for UP/DOWN, one per
      row for LEFT/RIGHT. */
  function LineCount(d: Direction, height: nat, width: nat): nat
  {
    if d == Up || d == Down then width else height
  }

  /** `moves_dict`: the number of cells in each line. */
  function Steps(d: Direction, height: nat, width: nat): nat
  {
    if d == Up || d == Down then height else width
  }

  /** The lines of a move, each `moves_dict[d]` cells long, have as many
      cells together as the grid. */
  lemma LinesCoverGrid(d: Direction, height: nat, width: nat)
    ensures LineCount(d, height, width) * Steps(d, height, width) == height * width
  {
  }

  /** The k-th entry of the start-tile table for `d`. */
  function StartTile(d: Direction, height: nat, width: nat, k: nat): (int, int)
  {
    match d
    case Up => (0, k)
    case Down => (height - 1, k)
    case Left => (k, 0)
    case Right => (k, width - 1)
  }

  /** Each start tile lies inside the grid on the edge the tiles move
      toward: one step against the direction's offset leaves the grid. */
  lemma StartTileOnEdge(d: Direction, height: nat, width: nat, k: nat)
    requires height >= 1 && width >= 1 && k < LineCount(d, height, width)
    ensures var t := StartTile(d, height, width, k);
      0 <= t.0 < height && 0 <= t.1 < width &&
      !(0 <= t.0 - Offset(d).0 < height && 0 <= t.1 - Offset(d).1 < width)
  {
  }

  /** `_initial_tiles[d]`: one start tile per line, in column or row order. */
  function StartTiles(d: Direction, height: nat, width: nat): (starts: seq<(int, int)>)
    ensures |starts| == LineCount(d, height, width)
  {
    seq(LineCount(d, height, width), k requires 0 <= k => StartTile(d, height, width, k))
  }

  /** The start-tile table for all four directions. */
  function StartTable(height: nat, width: nat): map<Direction, seq<(int, int)>>
  {
    map[Up := StartTiles(Up, height, width),
        Down := StartTiles(Down, height, width),
        Left := StartTiles(Left, height, width),
        Right := StartTiles(Right, height, width)]
  }

  /** The table has exactly the four directions as keys, with one start
      tile per column for UP/DOWN and one per row for LEFT/RIGHT. */
  lemma StartTableShape(height: nat, width: nat)
    ensures StartTable(height, width).Keys == {Up, Down, Left, Right}
    ensures |StartTable(height, width)[Up]| == |StartTable(height, width)[Down]| == width
    ensures |StartTable(height, width)[Left]| == |StartTable(height, width)[Right]| == height
  {
  }

  /** Every direction has its entry in the start-tile table. */
  lemma StartTableEntry(height: nat, width: nat, d: Direction)
    ensures d in StartTable(height, width)
    ensures StartTable(height, width)[d] == StartTiles(d, height, width)
  {
    match d
    case Up =>
    case Down =>
    case Left =>
    case Right =>
  }

  /** The cell at step `j` of line `k`: start tile plus `j` offsets. Every
      such cell lies inside the grid. */
  function Coord(d: Direction, height: nat, width: nat, k: nat, j: nat): (cell: (int, int))
    requires k < LineCount(d, height, width) && j < Steps(d, height, width)
    ensures 0 <= cell.0 < height && 0 <= cell.1 < width
  {
    var start := StartTile(d, height, width, k);
    (start.0 + j * Offset(d).0, start.1 + j * Offset(d).1)
  }

  /** The line and the step at which a move in direction `d` visits the
      cell (r, c). */
  function Locate(d: Direction, height: nat, width: nat, r: nat, c: nat): (at: (nat, nat))
    requires r < height && c < width
    ensures at.0 < LineCount(d, height, width) && at.1 < Steps(d, height, width)
    ensures Coord(d, height, width, at.0, at.1) == (r, c)
  {
    match d
    case Up => (c, r)
    case Down => (c, height - 1 - r)
    case Left => (r, c)
    case Right => (r, width - 1 - c)
  }

  /** Every (line, step) pair names a different cell: together with
      `Locate`, the lines of a move visit every cell exactly once. */
  lemma LocateCoord(d: Direction, height: nat, width: nat, k: nat, j: nat)
    requires k < LineCount(d, height, width) && j < Steps(d, height, width)
    ensures Locate(d, height, width, Coord(d, height, width, k, j).0, Coord(d, height, width, k, j).1) == (k, j)
  {
  }

  lemma CoordInjective(d: Direction, height: nat, width: nat, k1: nat, j1: nat, k2: nat, j2: nat)
    requires k1 < LineCount(d, height, width) && j1 < Steps(d, height, width)
    requires k2 < LineCount(d, height, width) && j2 < Steps(d, height, width)
    requires Coord(d, height, width, k1, j1) == Coord(d, height, width, k2, j2)
    ensures k1 == k2 && j1 == j2
  {
    LocateCoord(d, height, width, k1, j1);
    LocateCoord(d, height, width, k2, j2);
  }

  /** Step j of a line lies j cells away from the edge the tiles move
      toward: UP walks a column from row 0 down, DOWN from the last row up,
      LEFT a row from column 0 right, RIGHT from the last column left. */
  lemma CoordFromEdge(d: Direction, height: nat, width: nat, k: nat, j: nat)
    requires k < LineCount(d, height, width) && j < Steps(d, height, width)
    ensures d == Up ==> Coord(d, height, width, k, j) == (j, k)
    ensures d == Down ==> Coord(d, height, width, k, j) == (height - 1 - j, k)
    ensures d == Left ==> Coord(d, height, width, k, j) == (k, j)
    ensures d == Right ==> Coord(d, height, width, k, j) == (k, width - 1 - j)
  {
  }
}
