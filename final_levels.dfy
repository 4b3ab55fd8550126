/**
  Level catalog and wall lookup of the final game (Final/main.cpp).

  A level is a square grid of side `dim` (8, 12 or 16). The firmware stores its
  walls as sixteen 16-bit row masks written as binary literals, the most
  significant bit being column 0. Here each row is that literal's digit
  string with `#` for 1 and `.` for 0; `WallIsMaskBit` proves that the wall
  test on the picture is the firmware's bit test on the number the digits
  denote.
 */
module FinalLevels {

  const GridWords: nat := 16
  const MatrixSize: nat := 8
  const TotalLevels: nat := 3
  const MaxLevelEntities: nat := 10

  datatype Level = Level(
    rows: seq<string>,
    dim: nat,
    starsTotal: nat,
    startCol: nat,
    startRow: nat,
    exitCol: nat,
    exitRow: nat)

  /** What every catalog entry satisfies and what the game relies on. */
  predicate WellFormed(lv: Level) {
    && |lv.rows| == GridWords
    && (forall i :: 0 <= i < |lv.rows| ==> |lv.rows[i]| == GridWords)
    && MatrixSize <= lv.dim <= GridWords
    && lv.starsTotal <= MaxLevelEntities
    && lv.startCol < lv.dim && lv.startRow < lv.dim
    && lv.exitCol < lv.dim && lv.exitRow < lv.dim
  }

  const Level1Rows: seq<string> := [
    "########........",
    "#......#........",
    "###....#........",
    "#...####........",
    "###....#........",
    "#...####........",
    "#......#........",
    "########........",
    "................",
    "................",
    "................",
    "................",
    "................",
    "................",
    "................",
    "................"]

  const Level2Rows: seq<string> := [
    "############....",
    "#........###....",
    "####.....###....",
    "#......#####....",
    "#..##......#....",
    "#..##...####....",
    "#..........#....",
    "#..#####...#....",
    "#..#####...#....",
    "#..#####...#....",
    "#..........#....",
    "############....",
    "................",
    "................",
    "................",
    "................"]

  const Level3Rows: seq<string> := [
    "################",
    "#.....#####....#",
    "#..............#",
    "#.#####...##...#",
    "#.........##...#",
    "#.....######...#",
    "#.##########...#",
    "#.##########...#",
    "#.....####.....#",
    "#..#####.......#",
    "#..#####.####..#",
    "#..#####.###...#",
    "#........###...#",
    "#.####...###...#",
    "#..............#",
    "################"]

  /**
    The level `initLevels(idx)` loads: index 0 and 1 select the first two
    levels, every other index the 16x16 one. The exit row is `dim - 2`.
   */
  function Catalog(idx: nat): (lv: Level)
    ensures WellFormed(lv)
    ensures idx == 0 ==> lv.dim == 8 && lv.starsTotal == 2 && lv.exitCol == 6
    ensures idx == 1 ==> lv.dim == 12 && lv.starsTotal == 6 && lv.exitCol == 10
    ensures idx >= 2 ==> lv.dim == 16 && lv.starsTotal == 10 && lv.exitCol == 14
    ensures lv.startCol == 1 && lv.startRow == 1 && lv.exitRow == lv.dim - 2
  {
    if idx == 0 then Level(Level1Rows, 8, 2, 1, 1, 6, 8 - 2)
    else if idx == 1 then Level(Level2Rows, 12, 6, 1, 1, 10, 12 - 2)
    else Level(Level3Rows, 16, 10, 1, 1, 14, 16 - 2)
  }

  /** The number a row picture denotes, its first character being the most significant bit. */
  function MaskOf(row: string): nat {
    if |row| == 0 then 0
    else 2 * MaskOf(row[..|row| - 1]) + (if row[|row| - 1] == '#' then 1 else 0)
  }

  /** Bit `k` of `m`, counting from the least significant bit. */
  predicate Bit(m: nat, k: nat) {
    if k == 0 then m % 2 == 1 else Bit(m / 2, k - 1)
  }

  /** `rowData & (1 << (15 - c))` is non-zero. */
  predicate MaskBit(m: nat, c: nat)
    requires c < GridWords
  {
    Bit(m, GridWords - 1 - c)
  }

  /** `isWall(c, r)`: any cell off the grid counts as a wall. */
  predicate IsWall(lv: Level, c: nat, r: nat)
    requires WellFormed(lv)
  {
    c >= lv.dim || r >= lv.dim || lv.rows[r][c] == '#'
  }

  /** Column `c` of a row picture is `#` exactly when bit `|row| - 1 - c` of its number is set. */
  lemma {:induction false} PictureBit(row: string, c: nat)
    requires c < |row|
    ensures Bit(MaskOf(row), |row| - 1 - c) <==> row[c] == '#'
    decreases |row|
  {
    var n := |row|;
    var init := row[..n - 1];
    var b := if row[n - 1] == '#' then 1 else 0;
    assert MaskOf(row) == 2 * MaskOf(init) + b;
    if c < n - 1 {
      PictureBit(init, c);
      assert (2 * MaskOf(init) + b) / 2 == MaskOf(init);
      assert init[c] == row[c];
    }
  }

  /** Inside the grid, the wall test is the firmware's bit test on the row's mask. */
  lemma WallIsMaskBit(lv: Level, c: nat, r: nat)
    requires WellFormed(lv) && c < lv.dim && r < lv.dim
    ensures IsWall(lv, c, r) <==> MaskBit(MaskOf(lv.rows[r]), c)
  {
    PictureBit(lv.rows[r], c);
  }

  /** Manhattan distance between two cells. */
  function Distance(c1: nat, r1: nat, c2: nat, r2: nat): (d: nat)
    ensures d == 0 <==> c1 == c2 && r1 == r2
  {
    (if c1 < c2 then c2 - c1 else c1 - c2) + (if r1 < r2 then r2 - r1 else r1 - r2)
  }

  /** Every catalog level starts and ends on open cells. */
  lemma StartAndExitOpen(idx: nat)
    ensures !IsWall(Catalog(idx), Catalog(idx).startCol, Catalog(idx).startRow)
    ensures !IsWall(Catalog(idx), Catalog(idx).exitCol, Catalog(idx).exitRow)
  {
  }

  /** Grid of the first level, as in the 8x8 scenario: start (1,1), exit (6,6), quota 2. */
  lemma FirstLevelScenario()
    ensures Catalog(0).dim == 8 && Catalog(0).startCol == 1 && Catalog(0).startRow == 1
    ensures Catalog(0).exitCol == 6 && Catalog(0).exitRow == 6 && Catalog(0).starsTotal == 2
    ensures IsWall(Catalog(0), 0, 0) && !IsWall(Catalog(0), 1, 1) && IsWall(Catalog(0), 8, 1)
  {
  }
}
