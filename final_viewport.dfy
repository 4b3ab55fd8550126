/**
  The 8x8 LED window of the final game (`updateMatrixViewport` in
  Final/main.cpp): a view centred on the player and clamped to the maze is
  drawn into the 8-byte `matrixBuffer`, one byte per window row, bit `7 - c`
  for window column `c`. Walls are copied from the level, stars are drawn on
  the star blink phase, the exit is solid until the quota is met and then
  blinks with the stars, and the player is drawn on the player blink phase.
  Pushing the bytes to the LED driver is not part of this model.
 */
module FinalViewport {
  import opened Uint
  import opened FinalLevels
  import opened FinalMaze

  /** The bit of window column `c` (`1 << (7 - c)`), as a table so that no shift by a variable is needed. */
  function Mask(c: nat): (m: bv8)
    requires c < MatrixSize
  {
    if c == 0 then 0x80 else if c == 1 then 0x40 else if c == 2 then 0x20 else if c == 3 then 0x10
    else if c == 4 then 0x08 else if c == 5 then 0x04 else if c == 6 then 0x02 else 0x01
  }

  /** Window column `c` of a buffer row is lit. */
  predicate Lit(b: bv8, c: nat)
    requires c < MatrixSize
  {
    b & Mask(c) != 0
  }

  lemma MaskIsShift(c: nat)
    requires c < MatrixSize
    ensures Mask(c) == (1 as bv8) << (7 - c)
  {
  }

  /** OR-ing in the bit of column `k` lights column `k` and leaves every other column as it was. */
  lemma LitOr(b: bv8, k: nat, c: nat)
    requires k < MatrixSize && c < MatrixSize
    ensures Lit(b | Mask(k), c) <==> Lit(b, c) || c == k
  {
  }

  /**
    The first window column or row for a player at `p`: 0 on a grid that fits
    the matrix, otherwise `p - 4` clamped to `[0, dim - 8]`.
   */
  function ViewOffset(p: nat, dim: nat): (o: nat)
    ensures dim <= MatrixSize ==> o == 0
    ensures dim > MatrixSize ==> o <= dim - MatrixSize
  {
    if dim > MatrixSize then Clamp(p - MatrixSize / 2, 0, dim - MatrixSize) as nat else 0
  }

  /** The player is always inside the window, and in its middle when the maze allows. */
  lemma PlayerInWindow(p: nat, dim: nat)
    requires MatrixSize <= dim && p < dim
    ensures ViewOffset(p, dim) <= p < ViewOffset(p, dim) + MatrixSize
    ensures MatrixSize / 2 <= p <= dim - MatrixSize / 2 ==> ViewOffset(p, dim) == p - MatrixSize / 2
  {
  }

  /** What the renderer is given: the level, the live entities, the player and the blink phases. */
  datatype Scene = Scene(
    level: Level,
    entities: seq<Entity>,
    playerCol: nat,
    playerRow: nat,
    collected: nat,
    blinkStar: bool,
    blinkPlayer: bool)

  function ColOffset(s: Scene): nat {
    ViewOffset(s.playerCol, s.level.dim)
  }

  function RowOffset(s: Scene): nat {
    ViewOffset(s.playerRow, s.level.dim)
  }

  /** The level cell under window cell (c, r) exists and is a wall. */
  predicate WallPixel(s: Scene, r: nat, c: nat)
    requires WellFormed(s.level)
  {
    var lc, lr := c + ColOffset(s), r + RowOffset(s);
    lr < s.level.dim && lc < s.level.dim && IsWall(s.level, lc, lr)
  }

  /** The exit is drawn solid until the quota is met, then on the star blink phase. */
  predicate ExitShown(s: Scene) {
    if s.collected >= s.level.starsTotal then s.blinkStar else true
  }

  /** Window cell (c, r) of the frame `updateMatrixViewport` draws. */
  predicate ViewPixel(s: Scene, r: nat, c: nat)
    requires WellFormed(s.level)
  {
    var lc, lr := c + ColOffset(s), r + RowOffset(s);
    || WallPixel(s, r, c)
    || (s.blinkStar && StarOn(s.entities, lc, lr))
    || (ExitShown(s) && s.level.exitCol == lc && s.level.exitRow == lr)
    || (s.blinkPlayer && s.playerCol == lc && s.playerRow == lr)
  }

  /** A buffer shows a scene: each window cell is lit exactly when `ViewPixel` says so. */
  ghost predicate Shows(buffer: seq<bv8>, s: Scene)
    requires WellFormed(s.level)
  {
    |buffer| == MatrixSize &&
    forall r, c :: 0 <= r < MatrixSize && 0 <= c < MatrixSize ==> (Lit(buffer[r], c) <==> ViewPixel(s, r, c))
  }

  /** Off the star phase no star is drawn: a lit cell is a wall, the exit before the quota, or the player. */
  lemma StarsOnlyOnBlink(s: Scene, r: nat, c: nat)
    requires WellFormed(s.level) && !s.blinkStar
    ensures ViewPixel(s, r, c) <==>
      || WallPixel(s, r, c)
      || (s.collected < s.level.starsTotal
          && s.level.exitCol == c + ColOffset(s) && s.level.exitRow == r + RowOffset(s))
      || (s.blinkPlayer && s.playerCol == c + ColOffset(s) && s.playerRow == r + RowOffset(s))
  {
  }

  /** On the player phase the player's cell is lit, wherever the player stands. */
  lemma PlayerDrawn(s: Scene)
    requires WellFormed(s.level) && s.blinkPlayer
    requires s.playerCol < s.level.dim && s.playerRow < s.level.dim
    ensures s.playerCol - ColOffset(s) < MatrixSize && s.playerRow - RowOffset(s) < MatrixSize
    ensures ViewPixel(s, s.playerRow - RowOffset(s), s.playerCol - ColOffset(s))
  {
    PlayerInWindow(s.playerCol, s.level.dim);
    PlayerInWindow(s.playerRow, s.level.dim);
  }

  lemma StarOnSnoc(es: seq<Entity>, i: nat, c: nat, r: nat)
    requires i < |es|
    ensures StarOn(es[..i + 1], c, r) <==> StarOn(es[..i], c, r) || StarAt(es[i], c, r)
  {
    if StarOn(es[..i + 1], c, r) && !StarAt(es[i], c, r) {
      var j :| 0 <= j < i + 1 && StarAt(es[..i + 1][j], c, r);
      assert es[..i][j] == es[j];
    }
    if StarOn(es[..i], c, r) {
      var j :| 0 <= j < i && StarAt(es[..i][j], c, r);
      assert es[..i + 1][j] == es[j];
    }
    if StarAt(es[i], c, r) {
      assert es[..i + 1][i] == es[i];
    }
  }

  class Display {
    /** `matrixBuffer` */
    const buffer: array<bv8>

    constructor ()
      ensures buffer.Length == MatrixSize && fresh(buffer)
    {
      buffer := new bv8[MatrixSize](_ => 0);
    }

    /** `matrixBuffer[y] |= 1 << (7 - x)` when (x, y) is inside the window. */
    method DrawCell(x: int, y: int)
      requires buffer.Length == MatrixSize
      modifies buffer
      ensures forall r, c :: 0 <= r < MatrixSize && 0 <= c < MatrixSize ==>
        (Lit(buffer[r], c) <==> Lit(old(buffer[r]), c) || (r == y && c == x))
    {
      if 0 <= x < MatrixSize as int && 0 <= y < MatrixSize as int {
        buffer[y] := buffer[y] | Mask(x);
        forall r, c | 0 <= r < MatrixSize && 0 <= c < MatrixSize
          ensures Lit(buffer[r], c) <==> Lit(old(buffer[r]), c) || (r == y && c == x)
        {
          if r == y {
            LitOr(old(buffer[r]), x, c);
          }
        }
      }
    }

    /** The clear and the wall pass: bit `15 - levelC` of each visible level row. */
    method DrawWalls(s: Scene)
      requires WellFormed(s.level) && buffer.Length == MatrixSize
      modifies buffer
      ensures forall r, c :: 0 <= r < MatrixSize && 0 <= c < MatrixSize ==>
        (Lit(buffer[r], c) <==> WallPixel(s, r, c))
    {
      var colOffset, rowOffset := ColOffset(s), RowOffset(s);
      var r := 0;
      while r < MatrixSize
        invariant 0 <= r <= MatrixSize
        invariant forall rr, c :: 0 <= rr < r && 0 <= c < MatrixSize ==> (Lit(buffer[rr], c) <==> WallPixel(s, rr, c))
      {
        buffer[r] := 0;
        var levelR := r + rowOffset;
        if levelR < s.level.dim {
          var rowData := MaskOf(s.level.rows[levelR]);
          var c := 0;
          while c < MatrixSize
            invariant 0 <= c <= MatrixSize
            invariant forall rr, cc :: 0 <= rr < r && 0 <= cc < MatrixSize ==> (Lit(buffer[rr], cc) <==> WallPixel(s, rr, cc))
            invariant forall cc :: 0 <= cc < c ==> (Lit(buffer[r], cc) <==> WallPixel(s, r, cc))
            invariant forall cc :: c <= cc < MatrixSize ==> !Lit(buffer[r], cc)
          {
            var levelC := c + colOffset;
            if levelC < s.level.dim {
              WallIsMaskBit(s.level, levelC, levelR);
              if MaskBit(rowData, levelC) {
                ghost var b := buffer[r];
                buffer[r] := buffer[r] | Mask(c);
                forall cc | 0 <= cc < MatrixSize ensures Lit(buffer[r], cc) <==> Lit(b, cc) || cc == c {
                  LitOr(b, c, cc);
                }
              }
            }
            c := c + 1;
          }
        }
        r := r + 1;
      }
    }

    /** The star pass: every live star inside the window is OR-ed in. */
    method DrawStars(s: Scene)
      requires buffer.Length == MatrixSize
      modifies buffer
      ensures forall r, c :: 0 <= r < MatrixSize && 0 <= c < MatrixSize ==>
        (Lit(buffer[r], c) <==> Lit(old(buffer[r]), c) || StarOn(s.entities, c + ColOffset(s), r + RowOffset(s)))
    {
      var colOffset, rowOffset := ColOffset(s), RowOffset(s);
      var i := 0;
      while i < |s.entities|
        invariant 0 <= i <= |s.entities|
        invariant forall r, c :: 0 <= r < MatrixSize && 0 <= c < MatrixSize ==>
          (Lit(buffer[r], c) <==> Lit(old(buffer[r]), c) || StarOn(s.entities[..i], c + colOffset, r + rowOffset))
      {
        ghost var before := buffer[..];
        if s.entities[i].kind == Star {
          DrawCell(s.entities[i].col - colOffset, s.entities[i].row - rowOffset);
        }
        forall r, c | 0 <= r < MatrixSize && 0 <= c < MatrixSize
          ensures Lit(buffer[r], c) <==> Lit(old(buffer[r]), c) || StarOn(s.entities[..i + 1], c + colOffset, r + rowOffset)
        {
          StarOnSnoc(s.entities, i, c + colOffset, r + rowOffset);
        }
        i := i + 1;
      }
      assert s.entities[..i] == s.entities;
    }

    /** `updateMatrixViewport`: the whole frame, pass by pass. */
    method Render(s: Scene)
      requires WellFormed(s.level) && buffer.Length == MatrixSize
      modifies buffer
      ensures Shows(buffer[..], s)
    {
      var colOffset, rowOffset := ColOffset(s), RowOffset(s);
      DrawWalls(s);
      if s.blinkStar {
        DrawStars(s);
      }
      var drawExit := if s.collected >= s.level.starsTotal then s.blinkStar else true;
      if drawExit {
        DrawCell(s.level.exitCol - colOffset, s.level.exitRow - rowOffset);
      }
      if s.blinkPlayer {
        DrawCell(s.playerCol - colOffset, s.playerRow - rowOffset);
      }
      assert forall r, c :: 0 <= r < MatrixSize && 0 <= c < MatrixSize ==>
        (Lit(buffer[..][r], c) <==> ViewPixel(s, r, c));
    }
  }
}
