/** Positions on the bordered canvas: the ship's clamp, the spawner's column
    clamp, the falling-garbage column clamp, and the random draws they use. */
module Geometry {

  /** Width of the frame drawn round the canvas (main.py BORDER_WIDTH). */
  const BorderWidth: int := 1

  /** Row and column count of a glyph frame. */
  datatype Size = Size(rows: nat, columns: nat)

  datatype Pos = Pos(row: real, column: real)

  function MinR(a: real, b: real): real { if a <= b then a else b }
  function MaxR(a: real, b: real): real { if a >= b then a else b }
  function MinI(a: int, b: int): int { if a <= b then a else b }
  function MaxI(a: int, b: int): int { if a >= b then a else b }

  /** Python's `random.randint(lo, hi)` fed by an arbitrary draw `raw`. */
  function Uniform(lo: int, hi: int, raw: nat): (r: int)
    requires lo <= hi
    ensures lo <= r <= hi
    ensures raw <= hi - lo ==> r == lo + raw
  {
    lo + raw % (hi - lo + 1)
  }

  /** Every value `randint` may return is produced by some draw. */
  lemma UniformCovers(lo: int, hi: int, v: int)
    requires lo <= v <= hi
    ensures Uniform(lo, hi, v - lo) == v
  {
  }

  /** Python's `round(n / 2)` for a canvas dimension: half-way values go to
      the even neighbour (banker's rounding). */
  function HalfRounded(n: nat): (r: int)
    ensures 2 * r - n <= 1 && n - 2 * r <= 1
    ensures n % 2 == 0 ==> 2 * r == n
    ensures n % 2 == 1 ==> r % 2 == 0
  {
    if n % 2 == 0 then n / 2
    else if (n / 2) % 2 == 0 then n / 2
    else n / 2 + 1
  }

  /** Highest top-left row (column) a frame may take and stay inside the
      bottom (right) border. */
  function LastRow(maxRows: int, frame: Size): int { maxRows - frame.rows - BorderWidth }
  function LastColumn(maxColumns: int, frame: Size): int { maxColumns - frame.columns - BorderWidth }

  /** The frame fits between the borders on both axes. */
  predicate FitsCanvas(maxRows: int, maxColumns: int, frame: Size) {
    BorderWidth <= LastRow(maxRows, frame) && BorderWidth <= LastColumn(maxColumns, frame)
  }

  /** The top-left corner keeps the whole frame inside the borders. */
  predicate Inside(maxRows: int, maxColumns: int, frame: Size, p: Pos) {
    && BorderWidth as real <= p.row <= LastRow(maxRows, frame) as real
    && BorderWidth as real <= p.column <= LastColumn(maxColumns, frame) as real
  }

  /** The ship's clamp after each move: first against the bottom/right
      border, then against the top/left one, so the top/left border wins
      when the frame does not fit. */
  function ClampShip(maxRows: int, maxColumns: int, frame: Size, p: Pos): (q: Pos)
    ensures q.row >= BorderWidth as real && q.column >= BorderWidth as real
    ensures FitsCanvas(maxRows, maxColumns, frame) ==> Inside(maxRows, maxColumns, frame, q)
    ensures Inside(maxRows, maxColumns, frame, p) ==> q == p
    // Each axis on its own: a fitting axis keeps the corner between the
    // borders (unchanged when already there); on an axis the frame does not
    // fit, the top (left) border wins.
    ensures BorderWidth <= LastRow(maxRows, frame) ==> q.row <= LastRow(maxRows, frame) as real
    ensures BorderWidth as real <= p.row <= LastRow(maxRows, frame) as real ==> q.row == p.row
    ensures LastRow(maxRows, frame) < BorderWidth ==> q.row == BorderWidth as real
    ensures BorderWidth <= LastColumn(maxColumns, frame) ==> q.column <= LastColumn(maxColumns, frame) as real
    ensures BorderWidth as real <= p.column <= LastColumn(maxColumns, frame) as real ==> q.column == p.column
    ensures LastColumn(maxColumns, frame) < BorderWidth ==> q.column == BorderWidth as real
  {
    var row := MinR(LastRow(maxRows, frame) as real, p.row);
    var column := MinR(LastColumn(maxColumns, frame) as real, p.column);
    Pos(MaxR(row, BorderWidth as real), MaxR(column, BorderWidth as real))
  }

  /** Clamping an already clamped position changes nothing. */
  lemma ClampShipIdempotent(maxRows: int, maxColumns: int, frame: Size, p: Pos)
    ensures ClampShip(maxRows, maxColumns, frame, ClampShip(maxRows, maxColumns, frame, p))
            == ClampShip(maxRows, maxColumns, frame, p)
  {
  }

  /** Of all positions inside the borders, the clamp picks the one nearest on
      each axis (when the frame fits). */
  lemma ClampShipNearest(maxRows: int, maxColumns: int, frame: Size, p: Pos, q: Pos)
    requires Inside(maxRows, maxColumns, frame, q)
    ensures var c := ClampShip(maxRows, maxColumns, frame, p);
            Dist(c.row, p.row) <= Dist(q.row, p.row) && Dist(c.column, p.column) <= Dist(q.column, p.column)
  {
  }

  function Dist(a: real, b: real): real { if a >= b then a - b else b - a }

  /** The spawner's column clamp: a column drawn from [0, maxColumns] is
      pulled inside the right border, then inside the left one. */
  function SpawnColumn(maxColumns: int, frame: Size, column: int): (c: int)
    ensures c >= BorderWidth
    ensures BorderWidth <= LastColumn(maxColumns, frame) ==> c <= LastColumn(maxColumns, frame)
    ensures BorderWidth <= column <= LastColumn(maxColumns, frame) ==> c == column
    ensures column < BorderWidth ==> c == BorderWidth
    ensures BorderWidth <= LastColumn(maxColumns, frame) < column ==> c == LastColumn(maxColumns, frame)
    ensures LastColumn(maxColumns, frame) < BorderWidth ==> c == BorderWidth
  {
    MaxI(MinI(LastColumn(maxColumns, frame), column), BorderWidth)
  }

  /** fly_garbage's own clamp of its start column into [0, columnsNumber - 1]. */
  function GarbageColumn(columnsNumber: int, column: int): (c: int)
    ensures c <= columnsNumber - 1
    ensures columnsNumber >= 1 ==> 0 <= c
    ensures 0 <= column <= columnsNumber - 1 ==> c == column
    ensures columnsNumber >= 1 && column < 0 ==> c == 0
    ensures column > columnsNumber - 1 ==> c == columnsNumber - 1
  {
    MinI(MaxI(column, 0), columnsNumber - 1)
  }

  /** The whole spawn pipeline: the column the garbage task is started at,
      from the three random draws. */
  function SpawnStart(maxColumns: nat, frame: Size, rawColumn: nat, rawStart: nat): (start: int)
    ensures 0 <= start <= SpawnColumn(maxColumns, frame, Uniform(0, maxColumns, rawColumn))
    ensures BorderWidth <= LastColumn(maxColumns, frame) ==> start <= LastColumn(maxColumns, frame)
  {
    var column := SpawnColumn(maxColumns, frame, Uniform(0, maxColumns, rawColumn));
    Uniform(0, column, rawStart)
  }

  /** When the frame fits, a spawned garbage keeps its start column through
      its own clamp, which then lies inside [0, maxColumns - 1]. */
  lemma SpawnedColumnSurvivesGarbageClamp(maxColumns: nat, frame: Size, rawColumn: nat, rawStart: nat)
    requires BorderWidth <= LastColumn(maxColumns, frame)
    ensures var start := SpawnStart(maxColumns, frame, rawColumn, rawStart);
            GarbageColumn(maxColumns, start) == start && 0 <= start <= maxColumns - 1
  {
  }
}
