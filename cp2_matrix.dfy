/**
  The 8x8 LED matrix renderer of the second draft
  (Checkpoint2/lib/MatrixRenderer): an 8-byte frame buffer, one byte per
  matrix row with bit `7 - x` for column `x`, copied to the LED driver by
  `updateDisplay`. The driver's rows are the `shown` field. Only the splash
  animation counter, the menu change tracking and the gameplay viewport do
  anything; the other screens are empty in this draft.
 */
module Cp2Matrix {
  import opened Uint
  import V = FinalViewport
  import FinalLevels
  import Cp2Model

  const MatrixSize: nat := 8
  const AnimationFrameTime: nat := 200
  const MaxIntensity: nat := 15

  /** `displayBuffer[y] &= !(1 << (7 - x))` as written: `!` is the logical not, and of a non-zero mask it is 0. */
  function ClearedAsWritten(b: bv8, x: nat): bv8
    requires x < MatrixSize
  {
    b & (if V.Mask(x) != 0 then 0 else 1)
  }

  /** Switching off column `x` of a row, as evidently intended: `b & ~(1 << (7 - x))`. */
  function Cleared(b: bv8, x: nat): bv8
    requires x < MatrixSize
  {
    b & !V.Mask(x)
  }

  /** Clearing column `k` switches off that column and no other. */
  lemma LitCleared(b: bv8, k: nat, c: nat)
    requires k < MatrixSize && c < MatrixSize
    ensures V.Lit(Cleared(b, k), c) <==> V.Lit(b, c) && c != k
  {
  }

  /**
    As written, drawing an empty cell erases the walls already drawn to its
    left: a row whose column 0 shows a wall loses it when column 1 is drawn
    empty, where the intended clear keeps it.
   */
  lemma WallLostAsWritten()
    ensures V.Lit(0x80, 0)
    ensures !V.Lit(ClearedAsWritten(0x80, 1), 0)
    ensures V.Lit(Cleared(0x80, 1), 0)
  {
  }

  /** The first visible column (or row) for a player at `p` on a `dim`-wide level: `p - 4`, then clamped. */
  function Offset(p: nat, dim: nat): (o: int)
  {
    var o1 := if p - MatrixSize / 2 < 0 then 0 else p - MatrixSize / 2;
    if o1 + MatrixSize > dim then dim - MatrixSize else o1
  }

  /** On every level of the game the window is the one the final version picks, so it lies inside the level. */
  lemma OffsetIsViewOffset(p: nat, dim: nat)
    requires MatrixSize <= dim
    ensures Offset(p, dim) == V.ViewOffset(p, dim)
    ensures 0 <= Offset(p, dim) <= dim - MatrixSize
  {
  }

  /** What window pixel (x, y) shows: the player's cell, or a wall bit of the level row. */
  ghost predicate ViewPixel(col: nat, row: nat, rows: seq<nat>, dim: nat, y: nat, x: nat)
    requires MatrixSize <= dim <= FinalLevels.GridWords && |rows| >= dim && x < MatrixSize && y < MatrixSize
  {
    OffsetIsViewOffset(col, dim);
    OffsetIsViewOffset(row, dim);
    var wx, wy := Offset(col, dim) + x, Offset(row, dim) + y;
    (wx == col && wy == row) || FinalLevels.MaskBit(rows[wy], wx)
  }

  /** A player inside the level is always drawn, at its place relative to the window. */
  lemma PlayerShown(col: nat, row: nat, rows: seq<nat>, dim: nat)
    requires MatrixSize <= dim <= FinalLevels.GridWords && |rows| >= dim && col < dim && row < dim
    ensures 0 <= col - Offset(col, dim) < MatrixSize && 0 <= row - Offset(row, dim) < MatrixSize
    ensures ViewPixel(col, row, rows, dim, row - Offset(row, dim), col - Offset(col, dim))
  {
    OffsetIsViewOffset(col, dim);
    OffsetIsViewOffset(row, dim);
    V.PlayerInWindow(col, dim);
    V.PlayerInWindow(row, dim);
  }

  /**
    Window row `y` as `renderViewport` leaves it with `setPixel` as written:
    starting from `b`, pixels `x` to 7 are drawn left to right, a lit pixel
    OR-ed in, a dark one clearing the row through `ClearedAsWritten`.
   */
  ghost function RowAsWritten(col: nat, row: nat, rows: seq<nat>, dim: nat, y: nat, x: nat, b: bv8): bv8
    requires MatrixSize <= dim <= FinalLevels.GridWords && |rows| >= dim && x <= MatrixSize && y < MatrixSize
    decreases MatrixSize - x
  {
    if x == MatrixSize then b
    else
      var next := if ViewPixel(col, row, rows, dim, y, x) then b | V.Mask(x) else ClearedAsWritten(b, x);
      RowAsWritten(col, row, rows, dim, y, x + 1, next)
  }

  /** The row mask 0x8100 has walls in columns 0 and 7 and none between. */
  lemma SideWallsOnly()
    ensures FinalLevels.MaskBit(0x8100, 0) && FinalLevels.MaskBit(0x8100, 7)
    ensures !FinalLevels.MaskBit(0x8100, 2) && !FinalLevels.MaskBit(0x8100, 3) && !FinalLevels.MaskBit(0x8100, 4)
    ensures !FinalLevels.MaskBit(0x8100, 5) && !FinalLevels.MaskBit(0x8100, 6)
  {
    assert FinalLevels.Bit(0x81, 7) && FinalLevels.Bit(0x81, 0);
    assert FinalLevels.Bit(0x8100, 15) && FinalLevels.Bit(0x8100, 8);
    assert !FinalLevels.Bit(0x8100, 13) && !FinalLevels.Bit(0x8100, 12) && !FinalLevels.Bit(0x8100, 11);
    assert !FinalLevels.Bit(0x8100, 10) && !FinalLevels.Bit(0x8100, 9);
  }

  /** Window row 1 on the first level with the player at (1, 1): the left wall, the player and the right wall. */
  lemma FirstLevelRowOne()
    ensures var rows := Cp2Model.LevelData(0);
      && ViewPixel(1, 1, rows, 8, 1, 0) && ViewPixel(1, 1, rows, 8, 1, 1) && ViewPixel(1, 1, rows, 8, 1, 7)
      && !ViewPixel(1, 1, rows, 8, 1, 2) && !ViewPixel(1, 1, rows, 8, 1, 3) && !ViewPixel(1, 1, rows, 8, 1, 4)
      && !ViewPixel(1, 1, rows, 8, 1, 5) && !ViewPixel(1, 1, rows, 8, 1, 6)
  {
    assert Cp2Model.LevelData(0)[1] == 0x8100;
    assert Offset(1, 8) == 0;
    SideWallsOnly();
  }

  /**
    As written, a frame row keeps only the pixels right of its last dark one.
    On the first level with the player at (1, 1), window row 1 should show
    the left wall, the player and the right wall (0xC1); the code leaves only
    the right wall (0x01), so neither the player nor the left wall is drawn.
   */
  lemma FrameRowLostAsWritten()
    ensures var rows := Cp2Model.LevelData(0);
      && ViewPixel(1, 1, rows, 8, 1, 0) && ViewPixel(1, 1, rows, 8, 1, 1) && ViewPixel(1, 1, rows, 8, 1, 7)
      && RowAsWritten(1, 1, rows, 8, 1, 0, 0) == 0x01
      && !V.Lit(RowAsWritten(1, 1, rows, 8, 1, 0, 0), 0) && !V.Lit(RowAsWritten(1, 1, rows, 8, 1, 0, 0), 1)
  {
    var rows := Cp2Model.LevelData(0);
    FirstLevelRowOne();
    calc {
      RowAsWritten(1, 1, rows, 8, 1, 0, 0);
      RowAsWritten(1, 1, rows, 8, 1, 2, 0xC0);
      RowAsWritten(1, 1, rows, 8, 1, 3, 0);
      RowAsWritten(1, 1, rows, 8, 1, 7, 0);
      0x01;
    }
  }

  class MatrixRenderer {
    /** `displayBuffer` */
    const buffer: array<bv8>
    /** The rows the LED driver displays. */
    var shown: seq<bv8>
    var intensity: nat
    var lastState: Cp2Model.GameState
    var lastMenuOption: nat
    var lastAnimationTime: nat
    var animationFrame: nat

    ghost predicate Blank()
      reads this, buffer
    {
      buffer.Length == MatrixSize && shown == buffer[..] && forall i :: 0 <= i < MatrixSize ==> buffer[i] == 0
    }

    constructor ()
      ensures fresh(buffer) && buffer.Length == MatrixSize && forall i :: 0 <= i < MatrixSize ==> buffer[i] == 0
      ensures lastState == Cp2Model.SplashArt && lastMenuOption == Cp2Model.MenuOptionsCount
      ensures lastAnimationTime == 0 && animationFrame == 0
    {
      buffer := new bv8[MatrixSize](_ => 0);
      shown := [0, 0, 0, 0, 0, 0, 0, 0];
      intensity := 0;
      lastState := Cp2Model.SplashArt;
      lastMenuOption := Cp2Model.MenuOptionsCount;
      lastAnimationTime := 0;
      animationFrame := 0;
    }

    /** `init`: full brightness and a blank matrix. */
    method Init()
      requires buffer.Length == MatrixSize
      modifies this`shown, this`intensity, buffer
      ensures Blank() && intensity == MaxIntensity
    {
      intensity := MaxIntensity;
      Clear();
    }

    /** `updateDisplay`: the driver takes the buffer row by row. */
    method UpdateDisplay()
      requires buffer.Length == MatrixSize && |shown| == MatrixSize
      modifies this`shown
      ensures shown == buffer[..]
    {
      var row := 0;
      while row < MatrixSize
        invariant 0 <= row <= MatrixSize && |shown| == MatrixSize
        invariant shown[..row] == buffer[..row]
      {
        shown := shown[row := buffer[row]];
        row := row + 1;
      }
    }

    /** `clear`: the driver and the buffer both go dark. */
    method Clear()
      requires buffer.Length == MatrixSize
      modifies this`shown, buffer
      ensures Blank()
    {
      var i := 0;
      while i < MatrixSize
        invariant 0 <= i <= MatrixSize
        invariant forall k :: 0 <= k < i ==> buffer[k] == 0
      {
        buffer[i] := 0;
        i := i + 1;
      }
      shown := [0, 0, 0, 0, 0, 0, 0, 0];
      assert forall k :: 0 <= k < MatrixSize ==> buffer[..][k] == shown[k];
    }

    /** `setPixel`, with the clear as intended: pixel (x, y) takes `state`, every other pixel keeps its value; off the matrix nothing changes. */
    method SetPixel(x: nat, y: nat, state: bool)
      requires buffer.Length == MatrixSize
      modifies buffer
      ensures x >= MatrixSize || y >= MatrixSize ==> unchanged(buffer)
      ensures forall r :: 0 <= r < MatrixSize && r != y ==> buffer[r] == old(buffer[r])
      ensures forall r, c :: 0 <= r < MatrixSize && 0 <= c < MatrixSize ==>
        (V.Lit(buffer[r], c) <==> if r == y && c == x then state else V.Lit(old(buffer[r]), c))
    {
      if x >= MatrixSize || y >= MatrixSize {
        return;
      }
      ghost var b := buffer[y];
      if state {
        buffer[y] := buffer[y] | V.Mask(x);
        forall c | 0 <= c < MatrixSize ensures V.Lit(buffer[y], c) <==> V.Lit(b, c) || c == x {
          V.LitOr(b, x, c);
        }
      } else {
        buffer[y] := Cleared(buffer[y], x);
        forall c | 0 <= c < MatrixSize ensures V.Lit(buffer[y], c) <==> V.Lit(b, c) && c != x {
          LitCleared(b, x, c);
        }
      }
    }

    /** `drawBuffer`: the first eight bytes become the frame and are displayed. */
    method DrawBuffer(frame: seq<bv8>)
      requires buffer.Length == MatrixSize && |shown| == MatrixSize && |frame| >= MatrixSize
      modifies this`shown, buffer
      ensures buffer[..] == frame[..MatrixSize] && shown == buffer[..]
    {
      var i := 0;
      while i < MatrixSize
        invariant 0 <= i <= MatrixSize
        invariant buffer[..i] == frame[..i] && shown == old(shown)
      {
        buffer[i] := frame[i];
        i := i + 1;
      }
      UpdateDisplay();
    }

    /** `setBrightness` on a `uint8_t` level: capped at 15 (its test for a negative level never holds). */
    method SetBrightness(level: nat)
      requires level < U8
      modifies this`intensity
      ensures intensity == if level > MaxIntensity then MaxIntensity else level
      ensures intensity <= MaxIntensity
    {
      var v := level;
      if v > MaxIntensity {
        v := MaxIntensity;
      }
      intensity := v;
    }

    /** `drawSplashAnimation`: once more than 200 ms have passed the frame counter steps round 0..3. */
    method DrawSplashAnimation(now: nat)
      requires animationFrame < 4
      modifies this`animationFrame, this`lastAnimationTime
      ensures animationFrame < 4
      ensures Sub32(now, old(lastAnimationTime)) > AnimationFrameTime ==>
        animationFrame == (old(animationFrame) + 1) % 4 && lastAnimationTime == now
      ensures Sub32(now, old(lastAnimationTime)) <= AnimationFrameTime ==>
        animationFrame == old(animationFrame) && lastAnimationTime == old(lastAnimationTime)
    {
      if Sub32(now, lastAnimationTime) > AnimationFrameTime {
        animationFrame := (animationFrame + 1) % 4;
        lastAnimationTime := now;
      }
    }

    /** `renderMenu`: a new selection blanks the matrix; the option symbols are empty. */
    method RenderMenu(option: nat)
      requires buffer.Length == MatrixSize
      modifies this`lastMenuOption, this`shown, buffer
      ensures lastMenuOption == option
      ensures option != old(lastMenuOption) ==> Blank()
      ensures option == old(lastMenuOption) ==> unchanged(this) && unchanged(buffer)
    {
      if option != lastMenuOption {
        Clear();
        lastMenuOption := option;
      }
    }

    /** One window row of `renderViewport`: pixel by pixel, the player's cell on, otherwise the wall bit. */
    method DrawViewRow(y: nat, col: nat, row: nat, rows: seq<nat>, dim: nat)
      requires MatrixSize <= dim <= FinalLevels.GridWords && |rows| >= dim && y < MatrixSize
      requires buffer.Length == MatrixSize
      modifies buffer
      ensures forall r :: 0 <= r < MatrixSize && r != y ==> buffer[r] == old(buffer[r])
      ensures forall c :: 0 <= c < MatrixSize ==> (V.Lit(buffer[y], c) <==> ViewPixel(col, row, rows, dim, y, c))
    {
      OffsetIsViewOffset(col, dim);
      OffsetIsViewOffset(row, dim);
      var offsetX, offsetY := Offset(col, dim), Offset(row, dim);
      var x := 0;
      while x < MatrixSize
        invariant 0 <= x <= MatrixSize
        invariant forall r :: 0 <= r < MatrixSize && r != y ==> buffer[r] == old(buffer[r])
        invariant forall c :: 0 <= c < x ==> (V.Lit(buffer[y], c) <==> ViewPixel(col, row, rows, dim, y, c))
      {
        var worldX, worldY := offsetX + x, offsetY + y;
        assert worldX < dim && worldY < dim;
        if worldX == col && worldY == row {
          SetPixel(x, y, true);
        } else {
          SetPixel(x, y, FinalLevels.MaskBit(rows[worldY], worldX));
        }
        x := x + 1;
      }
    }

    /**
      `renderViewport` with an 8-wide viewport: a blank frame, then every
      window pixel drawn from the level under it, then the frame is displayed.
     */
    method RenderViewport(col: nat, row: nat, rows: seq<nat>, dim: nat)
      requires MatrixSize <= dim <= FinalLevels.GridWords && |rows| >= dim
      requires buffer.Length == MatrixSize
      modifies this`shown, buffer
      ensures shown == buffer[..]
      ensures forall y, x :: 0 <= y < MatrixSize && 0 <= x < MatrixSize ==>
        (V.Lit(buffer[y], x) <==> ViewPixel(col, row, rows, dim, y, x))
    {
      Clear();
      var y := 0;
      while y < MatrixSize
        invariant 0 <= y <= MatrixSize && |shown| == MatrixSize
        invariant forall r, c :: 0 <= r < y && 0 <= c < MatrixSize ==>
          (V.Lit(buffer[r], c) <==> ViewPixel(col, row, rows, dim, r, c))
      {
        DrawViewRow(y, col, row, rows, dim);
        y := y + 1;
      }
      UpdateDisplay();
    }

    /**
      `render`: a change of screen blanks the matrix and restarts the
      animation; then the splash screen steps its animation, the menu tracks
      its selection and gameplay draws the viewport around the player.
     */
    method Render(model: Cp2Model.GameModel, now: nat)
      requires model.Valid() && buffer.Length == MatrixSize && |shown| == MatrixSize && animationFrame < 4
      modifies this, buffer
      ensures lastState == model.currentState && animationFrame < 4 && |shown| == MatrixSize
      ensures model.currentState == Cp2Model.Menu ==> lastMenuOption == model.selectedMenuOption
      ensures model.currentState == Cp2Model.Playing ==>
        && model.currentLevelIndex < Cp2Model.TotalLevels
        && shown == buffer[..]
        && forall y, x :: 0 <= y < MatrixSize && 0 <= x < MatrixSize ==>
          (V.Lit(buffer[y], x) <==> ViewPixel(model.playerCol, model.playerRow,
            model.levels[model.currentLevelIndex].rows, model.levels[model.currentLevelIndex].dimension, y, x))
      ensures var due := model.currentState == Cp2Model.SplashArt && Sub32(now, old(lastAnimationTime)) > AnimationFrameTime;
        var start := if model.currentState != old(lastState) then 0 else old(animationFrame);
        && animationFrame == (if due then (start + 1) % 4 else start)
        && lastAnimationTime == (if due then now else old(lastAnimationTime))
      ensures model.currentState != old(lastState) && model.currentState != Cp2Model.Playing ==> Blank()
      ensures model.currentState == old(lastState) && model.currentState !in {Cp2Model.SplashArt, Cp2Model.Menu, Cp2Model.Playing} ==>
        unchanged(this) && unchanged(buffer)
    {
      var state := model.currentState;
      if state != lastState {
        Clear();
        lastState := state;
        animationFrame := 0;
      }
      match state
      case SplashArt =>
        DrawSplashAnimation(now);
      case Menu =>
        RenderMenu(model.selectedMenuOption);
      case Playing =>
        var lv := model.levels[model.currentLevelIndex];
        RenderViewport(model.playerCol, model.playerRow, lv.rows, lv.dimension);
      case _ =>
    }
  }
}
