/**
  The game model of the second draft (Checkpoint2/lib/GameModel): the game
  state machine's data, three levels decoded from 16-bit row masks into a
  `levelState` grid of cells, the player, the score, and a table of three
  `uint32` high scores saved to EEPROM behind an XOR checksum.

  The row masks are written here in hexadecimal; the firmware spells the same
  numbers as binary literals. `initializeLevels` only ever writes walls and
  empty cells, so no level holds a star, an enemy or an exit: `NoPickups` is
  that fact, and the model's methods say what they do in general and, when it
  holds, that it still holds afterwards.
 */
module Cp2Model {
  import opened Uint
  import FinalLevels
  import FinalInput

  const TotalLevels: nat := 3
  const MaxDimension: nat := 16
  const PointsPerStar: nat := 10
  const BaseLevelClearPoints: nat := 100
  const HighscoreCount: nat := 3
  const MenuOptionsCount: nat := 4
  /** `eepromAddress`, where the constructor loads the high-score record from. */
  const EepromAddress: int := 100
  /** The address `addHighScore` and `resetHighScores` save the record to in the firmware. */
  const SaveAddressAsWritten: int := 0

  datatype GameState = SplashArt | Menu | HighScores | Settings | About | Playing | Paused | GameOver | Victory

  /** `MenuOption`, in declaration order. */
  const StartGameOption: nat := 0
  const HighScoresOption: nat := 1
  const SettingsOption: nat := 2
  const AboutOption: nat := 3

  /** `EntityType`; `PlayerMark` is the `PLAYER` entry a level may hold as its start. */
  datatype Cell = Empty | PlayerMark | Enemy | Exit | Star | Wall

  datatype Level = Level(rows: seq<nat>, starsPerRoom: nat, starsCollected: nat, dimension: nat)

  /** `Level::isInBounds`, on the coordinates after their conversion to `int16_t`. */
  predicate IsInBounds(lv: Level, col: int, row: int) {
    0 <= col < lv.dimension && 0 <= row < lv.dimension
  }

  const Level1Data: seq<nat> := [
    0xFF00, 0x8100, 0x8100, 0x8100, 0x8100, 0x8100, 0x8100, 0xFF00,
    0, 0, 0, 0, 0, 0, 0, 0]

  const Level2Data: seq<nat> := [
    0xFFF0, 0x8070, 0xF070, 0x81F0, 0x9810, 0x98F0, 0x8010, 0x9F10,
    0x9F10, 0x9F10, 0x8010, 0xFFF0, 0, 0, 0, 0]

  const Level3Data: seq<nat> := [
    0xFFFF, 0x8001, 0x8001, 0x8001, 0x8001, 0x8001, 0x8001, 0x8001,
    0x8001, 0x8001, 0x8001, 0x8001, 0x8001, 0x8001, 0x8001, 0xFFFF]

  function LevelData(l: nat): (rows: seq<nat>)
    requires l < TotalLevels
    ensures |rows| == MaxDimension
  {
    if l == 0 then Level1Data else if l == 1 then Level2Data else Level3Data
  }

  /** Level `l` as `initializeLevels` sets it up: its rows, its star quota, nothing collected, its side. */
  function Initial(l: nat): (lv: Level)
    requires l < TotalLevels
    ensures lv.rows == LevelData(l) && lv.starsCollected == 0 && lv.starsPerRoom > 0
    ensures 8 <= lv.dimension <= MaxDimension
  {
    if l == 0 then Level(Level1Data, 3, 0, 8)
    else if l == 1 then Level(Level2Data, 6, 0, 12)
    else Level(Level3Data, 10, 0, 16)
  }

  /** What the level array holds for level `l` once loaded: only the collected count moves. */
  predicate Loaded(lv: Level, l: nat)
    requires l < TotalLevels
  {
    lv == Initial(l).(starsCollected := lv.starsCollected) && lv.starsCollected < U8
  }

  /** The cell `initializeLevels` writes at (`c`, `r`) of level `l`: a wall exactly where bit `15 - c` of row `r` is set. */
  function Decoded(l: nat, r: nat, c: nat): Cell
    requires l < TotalLevels && r < MaxDimension && c < MaxDimension
  {
    if FinalLevels.MaskBit(LevelData(l)[r], c) then Wall else Empty
  }

  /** The controller's `int16_t` deltas reach `movePlayer` as `uint16_t`: -1 arrives as 65535, and the narrowed sum is the signed step. */
  lemma SignedDeltaArrives(p: nat, d: int)
    requires p < MaxDimension && -1 <= d <= 1
    ensures Int16(p + d % U16) == p + d
    ensures p + d >= 0 ==> (p + d % U16) % U16 == p + d
  {
  }

  /** Points for clearing a level after `elapsed` whole seconds: 100, plus 50 under 30 s or 25 under 60 s. */
  function ClearPoints(elapsed: nat): nat {
    BaseLevelClearPoints + (if elapsed < 30 then 50 else if elapsed < 60 then 25 else 0)
  }

  /** A faster clear never earns fewer points, and the award stays between 100 and 150. */
  lemma ClearPointsMonotone(a: nat, b: nat)
    requires a <= b
    ensures ClearPoints(b) <= ClearPoints(a)
    ensures BaseLevelClearPoints <= ClearPoints(b) <= BaseLevelClearPoints + 50
  {
  }

  // ---- The high-score record and its checksum ----

  type Word = x: nat | x < 0x1_0000_0000

  datatype HighScoreData = HighScoreData(scores: seq<Word>, checksum: bv8)

  /** What `EEPROM.get` reads back: always three scores and a checksum byte. */
  type Record = d: HighScoreData | |d.scores| == HighscoreCount
    witness HighScoreData([0, 0, 0], 0)

  /** Never-written EEPROM: every byte 0xFF. */
  const Erased: Record := HighScoreData([0xFFFF_FFFF, 0xFFFF_FFFF, 0xFFFF_FFFF], 0xFF)

  const Zeros: seq<Word> := [0, 0, 0]

  /** A number below 256 as a byte, built up from its bits. */
  function ToByte(n: nat): bv8
    requires n < 0x100
  {
    if n == 0 then 0 else (ToByte(n / 2) << 1) | (if n % 2 == 1 then 1 else 0)
  }

  /** `(w >> 8k) & 0xFF`. */
  function ByteOf(w: Word, k: nat): bv8
    requires k < 4
  {
    var shifted := if k == 0 then w else if k == 1 then w / 0x100 else if k == 2 then w / 0x1_0000 else w / 0x100_0000;
    ToByte(shifted % 0x100)
  }

  function WordXor(w: Word): bv8 {
    ByteOf(w, 0) ^ ByteOf(w, 1) ^ ByteOf(w, 2) ^ ByteOf(w, 3)
  }

  /** `calculateChecksum`: the XOR of every byte of every score, in order. */
  function Checksum(s: seq<Word>): bv8 {
    if |s| == 0 then 0 else Checksum(s[..|s| - 1]) ^ WordXor(s[|s| - 1])
  }

  /** The check `loadHighScoreFromEEPROM` applies. */
  predicate Intact(d: HighScoreData) {
    Checksum(d.scores) == d.checksum
  }

  /** Replacing one score changes the checksum by the XOR of the old and new score's bytes. */
  lemma {:induction false} ChecksumUpdate(t: seq<Word>, i: nat, w: Word)
    requires i < |t|
    ensures Checksum(t[i := w]) == Checksum(t) ^ WordXor(t[i]) ^ WordXor(w)
    decreases |t|
  {
    var n := |t|;
    var u := t[i := w];
    assert u[n - 1] == if i == n - 1 then w else t[n - 1];
    if i < n - 1 {
      assert u[..n - 1] == t[..n - 1][i := w];
      ChecksumUpdate(t[..n - 1], i, w);
    } else {
      assert u[..n - 1] == t[..n - 1];
    }
  }

  /** Changing one of four bytes changes their XOR, wherever the changed byte sits. */
  lemma XorOfOneChanged(p: bv8, q: bv8, r: bv8, v: bv8, p': bv8)
    requires p != p'
    ensures p ^ q ^ r ^ v != p' ^ q ^ r ^ v
    ensures q ^ p ^ r ^ v != q ^ p' ^ r ^ v
    ensures q ^ r ^ p ^ v != q ^ r ^ p' ^ v
    ensures q ^ r ^ v ^ p != q ^ r ^ v ^ p'
  {
  }

  /** Two words that differ in exactly one byte have different byte XORs. */
  lemma WordXorSeesByte(v: Word, w: Word, k: nat)
    requires k < 4 && ByteOf(w, k) != ByteOf(v, k)
    requires forall j :: 0 <= j < 4 && j != k ==> ByteOf(w, j) == ByteOf(v, j)
    ensures WordXor(w) != WordXor(v)
  {
    var b0, b1, b2, b3 := ByteOf(v, 0), ByteOf(v, 1), ByteOf(v, 2), ByteOf(v, 3);
    if k == 0 {
      XorOfOneChanged(b0, b1, b2, b3, ByteOf(w, 0));
    } else if k == 1 {
      XorOfOneChanged(b1, b0, b2, b3, ByteOf(w, 1));
    } else if k == 2 {
      XorOfOneChanged(b2, b0, b1, b3, ByteOf(w, 2));
    } else {
      XorOfOneChanged(b3, b0, b1, b2, ByteOf(w, 3));
    }
  }

  /** A record with one byte of one score changed no longer passes the check. */
  lemma ByteFlipDetected(d: Record, i: nat, k: nat, w: Word)
    requires Intact(d) && i < HighscoreCount && k < 4
    requires ByteOf(w, k) != ByteOf(d.scores[i], k)
    requires forall j :: 0 <= j < 4 && j != k ==> ByteOf(w, j) == ByteOf(d.scores[i], j)
    ensures !Intact(d.(scores := d.scores[i := w]))
  {
    ChecksumUpdate(d.scores, i, w);
    WordXorSeesByte(d.scores[i], w, k);
  }

  /** The four 0xFF bytes of an erased word cancel out. */
  lemma ErasedWordCancels()
    ensures WordXor(0xFFFF_FFFF) == 0
  {
    var f: Word := 0xFFFF_FFFF;
    assert ToByte(0xFF) == 0xFF by {
      assert ToByte(1) == 1;
      assert ToByte(3) == 3;
      assert ToByte(7) == 7;
      assert ToByte(15) == 15;
      assert ToByte(31) == 31;
      assert ToByte(63) == 63;
      assert ToByte(127) == 127;
    }
    assert ByteOf(f, 0) == 0xFF by { assert f % 0x100 == 0xFF; }
    assert ByteOf(f, 1) == 0xFF by { assert f / 0x100 == 0xFF_FFFF && 0xFF_FFFF % 0x100 == 0xFF; }
    assert ByteOf(f, 2) == 0xFF by { assert f / 0x1_0000 == 0xFFFF && 0xFFFF % 0x100 == 0xFF; }
    assert ByteOf(f, 3) == 0xFF by { assert f / 0x100_0000 == 0xFF; }
  }

  /** Erased EEPROM fails the check: the twelve 0xFF bytes cancel to 0, the stored byte is 0xFF. */
  lemma ErasedRejected()
    ensures Checksum(Erased.scores) == 0 && !Intact(Erased)
  {
    var f: Word := 0xFFFF_FFFF;
    ErasedWordCancels();
    assert Checksum([f]) == 0 by { assert [f][..0] == []; }
    assert Checksum([f, f]) == 0 by { assert [f, f][..1] == [f]; }
    assert Checksum([f, f, f]) == 0 by { assert [f, f, f][..2] == [f, f]; }
    assert Erased.scores == [f, f, f];
  }

  /** `EEPROM.get`: a stored record, or erased bytes where nothing was ever put. */
  function Read(store: map<int, Record>, addr: int): Record {
    if addr in store then store[addr] else Erased
  }

  /** `saveHighScoresFromEEPROM`: the scores and their checksum put at `addr`. */
  function Written(store: map<int, Record>, addr: int, t: seq<Word>): map<int, Record>
    requires |t| == HighscoreCount
  {
    store[addr := HighScoreData(t, Checksum(t))]
  }

  datatype Boot = Boot(table: seq<Word>, store: map<int, Record>)

  /**
    `loadHighScoreFromEEPROM(loadAt)` with `resetHighScores` saving to
    `saveAt`: an intact record is taken as it is; anything else zeroes the
    table and saves the zeroes.
   */
  function Booted(store: map<int, Record>, loadAt: int, saveAt: int): (b: Boot)
    ensures |b.table| == HighscoreCount
  {
    var d := Read(store, loadAt);
    if Intact(d) then Boot(d.scores, store) else Boot(Zeros, Written(store, saveAt, Zeros))
  }

  /** Loading from the address the table was saved to gives the table back and writes nothing. */
  lemma SavedTableSurvivesBoot(store: map<int, Record>, t: seq<Word>)
    requires |t| == HighscoreCount
    ensures Booted(Written(store, EepromAddress, t), EepromAddress, EepromAddress) == Boot(t, Written(store, EepromAddress, t))
  {
  }

  /**
    As written, scores are saved at 0 but loaded from 100: on a board where
    100 was never written, every boot finds erased bytes there, resets the
    table, and overwrites the saved record at 0 with zeroes.
   */
  lemma BootAsWrittenLosesTable(store: map<int, Record>, t: seq<Word>)
    requires |t| == HighscoreCount && EepromAddress !in store
    ensures Booted(Written(store, SaveAddressAsWritten, t), EepromAddress, SaveAddressAsWritten).table == Zeros
    ensures Read(Booted(Written(store, SaveAddressAsWritten, t), EepromAddress, SaveAddressAsWritten).store, SaveAddressAsWritten).scores == Zeros
  {
    ErasedRejected();
  }

  // ---- Insertion into the high-score table ----

  predicate Descending(t: seq<Word>) {
    forall i, j :: 0 <= i < j < |t| ==> t[i] >= t[j]
  }

  /** The first slot whose score the new one beats, or `|t|`. */
  function FirstBeaten(t: seq<Word>, s: nat): (i: nat)
    ensures i <= |t|
    ensures forall j :: 0 <= j < i ==> s <= t[j]
    ensures i < |t| ==> s > t[i]
  {
    if |t| == 0 || s > t[0] then 0 else 1 + FirstBeaten(t[1..], s)
  }

  /** The table after `addHighScore`'s loop: `s` goes in at the first beaten slot, the rest move down, the last falls off. */
  function Inserted(t: seq<Word>, s: Word): seq<Word> {
    var i := FirstBeaten(t, s);
    if i == |t| then t else t[..i] + [s] + t[i..|t| - 1]
  }

  /** On a sorted table, `isNewHighscore` (beating the last entry) is the same as beating any entry. */
  lemma NewHighscoreIffBeatsSome(t: seq<Word>, s: nat)
    requires Descending(t) && |t| > 0
    ensures s > t[|t| - 1] <==> FirstBeaten(t, s) < |t|
  {
    var i := FirstBeaten(t, s);
    if i < |t| {
      assert t[i] >= t[|t| - 1];
    }
  }

  /** Where each entry ends up when `s` goes in at slot `i`. */
  lemma InsertedSlots(t: seq<Word>, s: Word, i: nat)
    requires i == FirstBeaten(t, s) < |t|
    ensures |Inserted(t, s)| == |t| && Inserted(t, s)[i] == s
    ensures forall k :: 0 <= k < i ==> Inserted(t, s)[k] == t[k]
    ensures forall k :: i < k < |t| ==> Inserted(t, s)[k] == t[k - 1]
  {
    var r := t[..i] + [s] + t[i..|t| - 1];
    assert Inserted(t, s) == r;
    assert forall k :: i < k < |t| ==> r[k] == t[i..|t| - 1][k - i - 1];
  }

  /** Insertion keeps the size and the descending order and places `s` in its slot. */
  lemma InsertedSound(t: seq<Word>, s: Word)
    requires Descending(t) && |t| > 0 && s > t[|t| - 1]
    ensures |Inserted(t, s)| == |t|
    ensures Descending(Inserted(t, s))
    ensures Inserted(t, s)[FirstBeaten(t, s)] == s
  {
    NewHighscoreIffBeatsSome(t, s);
    var i := FirstBeaten(t, s);
    var r := Inserted(t, s);
    InsertedSlots(t, s, i);
    forall x, y | 0 <= x < y < |r| ensures r[x] >= r[y] {
      var x', y' := if x <= i then x else x - 1, if y <= i then y else y - 1;
      if x != i && y != i {
        assert r[x] == t[x'] && r[y] == t[y'];
      } else if x == i {
        assert r[y] == t[y'];
      } else {
        assert r[x] == t[x'];
      }
    }
  }

  /** Insertion drops exactly the last entry and adds the new score. */
  lemma InsertedMultiset(t: seq<Word>, s: Word)
    requires 0 < |t| && FirstBeaten(t, s) < |t|
    ensures multiset(Inserted(t, s)) + multiset{t[|t| - 1]} == multiset(t) + multiset{s}
  {
    ShiftInMultiset(t, FirstBeaten(t, s), s);
  }

  class GameModel {
    var currentState: GameState
    var selectedMenuOption: nat
    var playerCol: nat
    var playerRow: nat
    var playerAlive: bool
    const levels: array<Level>
    var currentLevelIndex: nat
    const levelState: array3<Cell>
    var score: nat
    var levelStartTime: nat
    const highscores: array<Word>
    /** The board's EEPROM, as the record stored at each address. */
    var eeprom: map<int, Record>

    /** The arrays have their declared sizes. */
    predicate Shaped() {
      && levels.Length == TotalLevels && highscores.Length == HighscoreCount
      && levelState.Length0 == TotalLevels
      && levelState.Length1 == MaxDimension && levelState.Length2 == MaxDimension
    }

    ghost predicate Valid()
      reads this`selectedMenuOption, this`playerCol, this`playerRow, this`score
      reads this`currentLevelIndex, this`currentState, levels
    {
      && Shaped()
      && selectedMenuOption < MenuOptionsCount
      && playerCol < MaxDimension && playerRow < MaxDimension
      && score < U32
      && currentLevelIndex <= TotalLevels
      && (currentLevelIndex == TotalLevels ==> currentState == Victory)
      && forall l :: 0 <= l < TotalLevels ==> Loaded(levels[l], l)
    }

    /** No level holds anything but walls and empty cells, and no star has been collected. */
    ghost predicate NoPickups()
      reads levels, levelState
    {
      && Shaped()
      && (forall l :: 0 <= l < TotalLevels ==> levels[l].starsCollected == 0)
      && forall l, r, c :: 0 <= l < TotalLevels && 0 <= r < MaxDimension && 0 <= c < MaxDimension ==>
        levelState[l, r, c] == Empty || levelState[l, r, c] == Wall
    }

    /** `levelState[currentLevelIndex][row][col]`. */
    function At(col: nat, row: nat): Cell
      requires Shaped() && currentLevelIndex < TotalLevels && col < MaxDimension && row < MaxDimension
      reads this`currentLevelIndex, levelState
    {
      levelState[currentLevelIndex, row, col]
    }

    /** `isCurrentLevelCleared`. */
    predicate IsCurrentLevelCleared()
      requires Shaped() && currentLevelIndex < TotalLevels
      reads this`currentLevelIndex, levels
    {
      levels[currentLevelIndex].starsCollected >= levels[currentLevelIndex].starsPerRoom
    }

    /** Without stars nothing is collected, so no level is ever cleared. */
    lemma NeverCleared()
      requires Valid() && NoPickups() && currentLevelIndex < TotalLevels
      ensures !IsCurrentLevelCleared()
    {
      assert Loaded(levels[currentLevelIndex], currentLevelIndex);
    }

    /** `isNewHighscore`: the score beats the last entry of the table. */
    predicate IsNewHighscore(s: nat)
      requires Shaped()
      reads highscores
    {
      s > highscores[HighscoreCount - 1]
    }

    /** No `PLAYER` cell among rows and columns 1..15 of level `l` comes before (`col`, `row`) in row-major order. */
    ghost predicate NoMarkBefore(l: nat, row: nat, col: nat)
      requires Shaped() && l < TotalLevels
      reads levelState
    {
      forall r, c :: 1 <= r < MaxDimension && 1 <= c < MaxDimension && (r < row || (r == row && c < col)) ==>
        levelState[l, r, c] != PlayerMark
    }

    constructor (store: map<int, Record>)
      ensures Valid() && NoPickups() && fresh(levels) && fresh(levelState) && fresh(highscores)
      ensures currentState == SplashArt && selectedMenuOption == StartGameOption
      ensures score == 0 && levelStartTime == 0 && currentLevelIndex == 0
      ensures playerCol == 1 && playerRow == 1 && playerAlive
      ensures Boot(highscores[..], eeprom) == Booted(store, EepromAddress, EepromAddress)
      ensures forall l, r, c :: 0 <= l < TotalLevels && 0 <= r < MaxDimension && 0 <= c < MaxDimension ==>
        levelState[l, r, c] == Decoded(l, r, c)
    {
      currentState := SplashArt;
      selectedMenuOption := StartGameOption;
      score := 0;
      levelStartTime := 0;
      currentLevelIndex := 0;
      highscores := new Word[HighscoreCount](_ => 0);
      playerCol, playerRow, playerAlive := 1, 1, true;
      levels := new Level[TotalLevels](_ => Level([], 0, 0, 0));
      levelState := new Cell[TotalLevels, MaxDimension, MaxDimension]((_, _, _) => Empty);
      eeprom := store;
      new;
      InitializeLevels();
      LoadHighScores(EepromAddress);
    }

    /** `initializeLevels`: the level table, then every cell decoded from its row mask. */
    method InitializeLevels()
      requires Shaped()
      modifies levels, levelState
      ensures forall l :: 0 <= l < TotalLevels ==> levels[l] == Initial(l)
      ensures forall l, r, c :: 0 <= l < TotalLevels && 0 <= r < MaxDimension && 0 <= c < MaxDimension ==>
        levelState[l, r, c] == Decoded(l, r, c)
      ensures NoPickups()
    {
      levels[0] := Initial(0);
      levels[1] := Initial(1);
      levels[2] := Initial(2);
      var l := 0;
      while l < TotalLevels
        invariant 0 <= l <= TotalLevels
        invariant forall k :: 0 <= k < TotalLevels ==> levels[k] == Initial(k)
        invariant forall a, r, c :: 0 <= a < l && 0 <= r < MaxDimension && 0 <= c < MaxDimension ==>
          levelState[a, r, c] == Decoded(a, r, c)
      {
        FillLevel(l);
        l := l + 1;
      }
    }

    method FillLevel(l: nat)
      requires Shaped() && l < TotalLevels && levels[l].rows == LevelData(l)
      modifies levelState
      ensures forall r, c :: 0 <= r < MaxDimension && 0 <= c < MaxDimension ==> levelState[l, r, c] == Decoded(l, r, c)
      ensures forall a, r, c :: 0 <= a < TotalLevels && a != l && 0 <= r < MaxDimension && 0 <= c < MaxDimension ==>
        levelState[a, r, c] == old(levelState[a, r, c])
    {
      var row := 0;
      while row < MaxDimension
        invariant 0 <= row <= MaxDimension
        invariant forall r, c :: 0 <= r < row && 0 <= c < MaxDimension ==> levelState[l, r, c] == Decoded(l, r, c)
        invariant forall a, r, c :: 0 <= a < TotalLevels && a != l && 0 <= r < MaxDimension && 0 <= c < MaxDimension ==>
          levelState[a, r, c] == old(levelState[a, r, c])
      {
        FillRow(l, row);
        row := row + 1;
      }
    }

    /** One row: `rows[row] & (1 << (15 - col))` decides wall or empty. */
    method FillRow(l: nat, row: nat)
      requires Shaped() && l < TotalLevels && row < MaxDimension && levels[l].rows == LevelData(l)
      modifies levelState
      ensures forall c :: 0 <= c < MaxDimension ==> levelState[l, row, c] == Decoded(l, row, c)
      ensures forall a, r, c :: 0 <= a < TotalLevels && 0 <= r < MaxDimension && 0 <= c < MaxDimension && (a != l || r != row) ==>
        levelState[a, r, c] == old(levelState[a, r, c])
    {
      var col := 0;
      while col < MaxDimension
        invariant 0 <= col <= MaxDimension
        invariant forall c :: 0 <= c < col ==> levelState[l, row, c] == Decoded(l, row, c)
        invariant forall a, r, c :: 0 <= a < TotalLevels && 0 <= r < MaxDimension && 0 <= c < MaxDimension && (a != l || r != row) ==>
          levelState[a, r, c] == old(levelState[a, r, c])
      {
        var isWall := FinalLevels.MaskBit(levels[l].rows[row], col);
        levelState[l, row, col] := if isWall then Wall else Empty;
        col := col + 1;
      }
    }

    /** The search of `resetPlayerToLevelStart`: the first `PLAYER` cell in row-major order over rows and columns 1..15. */
    method FindPlayerMark() returns (found: bool, col: nat, row: nat)
      requires Shaped() && currentLevelIndex < TotalLevels
      ensures found ==> 1 <= col < MaxDimension && 1 <= row < MaxDimension
      ensures found ==> levelState[currentLevelIndex, row, col] == PlayerMark && NoMarkBefore(currentLevelIndex, row, col)
      ensures !found ==> NoMarkBefore(currentLevelIndex, MaxDimension, 1)
    {
      found, col, row := false, 0, 0;
      var r := 1;
      while r < MaxDimension && !found
        invariant 1 <= r <= MaxDimension
        invariant !found ==> NoMarkBefore(currentLevelIndex, r, 1)
        invariant found ==> 1 <= col < MaxDimension && 1 <= row < MaxDimension
        invariant found ==> levelState[currentLevelIndex, row, col] == PlayerMark && NoMarkBefore(currentLevelIndex, row, col)
      {
        var c := 1;
        while c < MaxDimension && !found
          invariant 1 <= c <= MaxDimension
          invariant !found ==> NoMarkBefore(currentLevelIndex, r, c)
          invariant found ==> 1 <= col < MaxDimension && 1 <= row < MaxDimension
          invariant found ==> levelState[currentLevelIndex, row, col] == PlayerMark && NoMarkBefore(currentLevelIndex, row, col)
        {
          if levelState[currentLevelIndex, r, c] == PlayerMark {
            found, col, row := true, c, r;
          }
          c := c + 1;
        }
        r := r + 1;
      }
    }

    /**
      `resetPlayerToLevelStart`: the player goes to the first `PLAYER` cell,
      which becomes empty, or to (1, 1) when there is none; either way alive.
     */
    method ResetPlayerToLevelStart()
      requires Shaped() && currentLevelIndex < TotalLevels
      modifies this`playerCol, this`playerRow, this`playerAlive, levelState
      ensures playerAlive && 1 <= playerCol < MaxDimension && 1 <= playerRow < MaxDimension
      ensures old(NoMarkBefore(currentLevelIndex, MaxDimension, 1)) ==> playerCol == 1 && playerRow == 1 && unchanged(levelState)
      ensures !old(NoMarkBefore(currentLevelIndex, MaxDimension, 1)) ==>
        var c, r := playerCol, playerRow;
        && old(levelState[currentLevelIndex, r, c]) == PlayerMark && old(NoMarkBefore(currentLevelIndex, r, c))
        && levelState[currentLevelIndex, r, c] == Empty
        && (forall a, rr, cc ::
              (0 <= a < TotalLevels && 0 <= rr < MaxDimension && 0 <= cc < MaxDimension && (a, rr, cc) != (currentLevelIndex, r, c)) ==>
              levelState[a, rr, cc] == old(levelState[a, rr, cc]))
    {
      var found, col, row := FindPlayerMark();
      if found {
        playerCol, playerRow := col, row;
        levelState[currentLevelIndex, row, col] := Empty;
      } else {
        playerCol, playerRow := 1, 1;
      }
      playerAlive := true;
    }

    /** `selectNextMenuOption`. */
    method SelectNextMenuOption()
      requires selectedMenuOption < MenuOptionsCount
      modifies this`selectedMenuOption
      ensures selectedMenuOption == FinalInput.WrapNext(old(selectedMenuOption), MenuOptionsCount)
    {
      selectedMenuOption := (selectedMenuOption + 1) % MenuOptionsCount;
    }

    /** `selectPreviousMenuOption`: from the first option to the last, otherwise one up. */
    method SelectPreviousMenuOption()
      requires selectedMenuOption < MenuOptionsCount
      modifies this`selectedMenuOption
      ensures selectedMenuOption == FinalInput.WrapPrev(old(selectedMenuOption), MenuOptionsCount)
    {
      if selectedMenuOption == StartGameOption {
        selectedMenuOption := MenuOptionsCount - 1;
      } else {
        selectedMenuOption := selectedMenuOption - 1;
      }
    }

    /** `confirmMenuSelection`: start a game, or show the screen of the selected option. */
    method ConfirmMenuSelection(now: nat)
      requires Valid() && currentLevelIndex < TotalLevels
      modifies this`currentState, this`currentLevelIndex, this`score, this`levelStartTime
      modifies this`playerCol, this`playerRow, this`playerAlive, levels, levelState
      ensures Valid()
      ensures selectedMenuOption == StartGameOption ==> currentState == Playing && currentLevelIndex == 0 && score == 0
      ensures selectedMenuOption == HighScoresOption ==> currentState == HighScores
      ensures selectedMenuOption == SettingsOption ==> currentState == Settings
      ensures selectedMenuOption == AboutOption ==> currentState == About
      ensures selectedMenuOption != StartGameOption ==> unchanged(levels, levelState)
      ensures old(NoPickups()) ==> NoPickups()
    {
      match selectedMenuOption {
        case 0 => StartNewGame(now);
        case 1 => currentState := HighScores;
        case 2 => currentState := Settings;
        case _ => currentState := About;
      }
    }

    /** `startNewGame`: playing from the first level, score 0, every level's stars reset, the room timer started. */
    method StartNewGame(now: nat)
      requires Valid()
      modifies this`currentState, this`currentLevelIndex, this`score, this`levelStartTime
      modifies this`playerCol, this`playerRow, this`playerAlive, levels, levelState
      ensures Valid() && playerAlive
      ensures currentState == Playing && currentLevelIndex == 0 && score == 0 && levelStartTime == now
      ensures forall l :: 0 <= l < TotalLevels ==> levels[l].starsCollected == 0
      ensures old(NoPickups()) ==> NoPickups() && playerCol == 1 && playerRow == 1 && unchanged(levelState)
    {
      currentState := Playing;
      currentLevelIndex := 0;
      score := 0;
      ResetStarCounts();
      ResetPlayerToLevelStart();
      levelStartTime := now;
    }

    /** The loop of `startNewGame` that sets every level's collected count back to 0. */
    method ResetStarCounts()
      requires Shaped() && forall l :: 0 <= l < TotalLevels ==> Loaded(levels[l], l)
      modifies levels
      ensures forall l :: 0 <= l < TotalLevels ==> levels[l] == Initial(l)
    {
      var i := 0;
      while i < TotalLevels
        invariant 0 <= i <= TotalLevels
        invariant forall l :: 0 <= l < i ==> levels[l] == Initial(l)
        invariant forall l :: i <= l < TotalLevels ==> levels[l] == old(levels[l])
      {
        levels[i] := levels[i].(starsCollected := 0);
        i := i + 1;
      }
    }

    /** `resetGame`: back to the menu on its first option, level 0, score 0. */
    method ResetGame()
      requires Valid()
      modifies this`currentState, this`selectedMenuOption, this`currentLevelIndex, this`score, this`levelStartTime
      ensures Valid()
      ensures currentState == Menu && selectedMenuOption == StartGameOption
      ensures currentLevelIndex == 0 && score == 0 && levelStartTime == 0
    {
      currentState := Menu;
      selectedMenuOption := StartGameOption;
      currentLevelIndex := 0;
      score := 0;
      levelStartTime := 0;
    }

    /** The column a move by `dc` aims at, as `isInBounds` receives it. */
    function TargetCol(dc: nat): int
      reads this`playerCol
    {
      Int16(playerCol + dc)
    }

    function TargetRow(dr: nat): int
      reads this`playerRow
    {
      Int16(playerRow + dr)
    }

    /** The player is alive and the target cell is inside the level and not a wall. */
    ghost predicate Passable(dc: nat, dr: nat)
      requires Shaped() && currentLevelIndex < TotalLevels && Loaded(levels[currentLevelIndex], currentLevelIndex)
      reads this`playerCol, this`playerRow, this`playerAlive, this`currentLevelIndex, levels, levelState
    {
      && playerAlive
      && IsInBounds(levels[currentLevelIndex], TargetCol(dc), TargetRow(dr))
      && levelState[currentLevelIndex, TargetRow(dr), TargetCol(dc)] != Wall
    }

    /**
      `movePlayer`: a dead player, a target outside the level or a wall
      leaves everything as it was and answers false; otherwise the player
      steps onto the target and the answer is true. An enemy there kills the
      player; without pickups nothing else happens.
     */
    method MovePlayer(dc: nat, dr: nat, now: nat) returns (moved: bool)
      requires Valid() && currentLevelIndex < TotalLevels && dc < U16 && dr < U16
      modifies this`playerCol, this`playerRow, this`playerAlive, this`currentState, this`currentLevelIndex
      modifies this`score, this`levelStartTime, this`eeprom, levels, levelState, highscores
      ensures Valid()
      ensures moved == old(Passable(dc, dr))
      ensures !moved ==> unchanged(this) && unchanged(levels, levelState, highscores)
      ensures moved && currentLevelIndex == old(currentLevelIndex) ==>
        playerCol == old(TargetCol(dc)) && playerRow == old(TargetRow(dr))
      ensures moved && old(levelState[currentLevelIndex, TargetRow(dr), TargetCol(dc)]) == Enemy ==>
        !playerAlive && currentState == GameOver
      ensures old(NoPickups()) ==> NoPickups() && unchanged(levels, levelState, highscores)
      ensures old(NoPickups()) ==> currentState == old(currentState) && currentLevelIndex == old(currentLevelIndex)
      ensures old(NoPickups()) ==> score == old(score) && playerAlive == old(playerAlive)
    {
      if !playerAlive {
        return false;
      }
      var newCol, newRow := playerCol + dc, playerRow + dr;
      if !IsInBounds(levels[currentLevelIndex], Int16(newCol), Int16(newRow)) {
        return false;
      }
      assert Loaded(levels[currentLevelIndex], currentLevelIndex);
      var col, row := newCol % U16, newRow % U16;
      assert col == Int16(newCol) && row == Int16(newRow);
      if levelState[currentLevelIndex, row, col] == Wall {
        return false;
      }
      playerCol, playerRow := col, row;
      Arrive(now);
      return true;
    }

    /**
      What happens on the cell the player stepped onto: an enemy kills the
      player and offers the score to the table; a star is collected; the exit
      of a cleared level advances to the next level; any other cell changes
      nothing.
     */
    method Arrive(now: nat)
      requires Valid() && currentLevelIndex < TotalLevels
      modifies this`playerCol, this`playerRow, this`playerAlive, this`currentState, this`currentLevelIndex
      modifies this`score, this`levelStartTime, this`eeprom, levels, levelState, highscores
      ensures Valid()
      ensures old(At(playerCol, playerRow)) == Enemy ==>
        && !playerAlive && currentState == GameOver && currentLevelIndex == old(currentLevelIndex)
        && (old(IsNewHighscore(score)) ==>
              highscores[..] == Inserted(old(highscores[..]), score) && eeprom == Written(old(eeprom), EepromAddress, highscores[..]))
        && (!old(IsNewHighscore(score)) ==> unchanged(highscores) && eeprom == old(eeprom))
      ensures old(At(playerCol, playerRow)) == Star ==>
        && currentLevelIndex == old(currentLevelIndex) && currentState == old(currentState)
        && score == (old(score) + PointsPerStar) % U32
        && levels[currentLevelIndex].starsCollected == (old(levels[currentLevelIndex].starsCollected) + 1) % U8
        && levelState[currentLevelIndex, playerRow, playerCol] == Empty
      ensures old(At(playerCol, playerRow)) == Exit && old(IsCurrentLevelCleared()) ==>
        && currentLevelIndex == old(currentLevelIndex) + 1
        && score == (old(score) + ClearPoints(Sub32(now, old(levelStartTime)) / 1000)) % U32
        && (currentLevelIndex == TotalLevels ==> currentState == Victory)
        && (currentLevelIndex < TotalLevels ==> currentState == old(currentState) && levelStartTime == now && playerAlive)
      ensures old(At(playerCol, playerRow)) in {Empty, Wall, PlayerMark} || (old(At(playerCol, playerRow)) == Exit && !old(IsCurrentLevelCleared())) ==>
        unchanged(this) && unchanged(levels, levelState, highscores)
      ensures currentLevelIndex == old(currentLevelIndex) ==> playerCol == old(playerCol) && playerRow == old(playerRow)
      ensures old(NoPickups()) ==> unchanged(this) && unchanged(levels, levelState, highscores)
    {
      if At(playerCol, playerRow) == Enemy {
        KillPlayer();
        return;
      }
      var collected := CollectStarAt(playerCol, playerRow);
      if At(playerCol, playerRow) == Exit && IsCurrentLevelCleared() {
        AdvanceToNextLevel(now);
      }
    }

    /** `killPlayer`. */
    method KillPlayer()
      requires Shaped() && score < U32
      modifies this`playerAlive, this`currentState, this`eeprom, highscores
      ensures !playerAlive && currentState == GameOver
      ensures old(IsNewHighscore(score)) ==>
        highscores[..] == Inserted(old(highscores[..]), score) && eeprom == Written(old(eeprom), EepromAddress, highscores[..])
      ensures !old(IsNewHighscore(score)) ==> unchanged(highscores) && eeprom == old(eeprom)
    {
      playerAlive := false;
      SetGameOver();
    }

    /** `setGameOver`: the state, then the score offered to the table. */
    method SetGameOver()
      requires Shaped() && score < U32
      modifies this`currentState, this`eeprom, highscores
      ensures currentState == GameOver
      ensures old(IsNewHighscore(score)) ==>
        highscores[..] == Inserted(old(highscores[..]), score) && eeprom == Written(old(eeprom), EepromAddress, highscores[..])
      ensures !old(IsNewHighscore(score)) ==> unchanged(highscores) && eeprom == old(eeprom)
    {
      currentState := GameOver;
      AddHighScore(score);
    }

    /** `setVictory`. */
    method SetVictory()
      requires Shaped() && score < U32
      modifies this`currentState, this`eeprom, highscores
      ensures currentState == Victory
      ensures old(IsNewHighscore(score)) ==>
        highscores[..] == Inserted(old(highscores[..]), score) && eeprom == Written(old(eeprom), EepromAddress, highscores[..])
      ensures !old(IsNewHighscore(score)) ==> unchanged(highscores) && eeprom == old(eeprom)
    {
      currentState := Victory;
      AddHighScore(score);
    }

    /** `collectStarAt`: a star there becomes empty, the level's count goes up, and 10 points are added. */
    method CollectStarAt(col: nat, row: nat) returns (collected: bool)
      requires Valid() && currentLevelIndex < TotalLevels && col < MaxDimension && row < MaxDimension
      modifies levels, levelState, this`score
      ensures Valid()
      ensures collected == (old(At(col, row)) == Star)
      ensures collected ==> levelState[currentLevelIndex, row, col] == Empty && score == (old(score) + PointsPerStar) % U32
      ensures collected ==> levels[currentLevelIndex].starsCollected == (old(levels[currentLevelIndex].starsCollected) + 1) % U8
      ensures collected ==> forall a, r, c ::
        (0 <= a < TotalLevels && 0 <= r < MaxDimension && 0 <= c < MaxDimension && (a, r, c) != (currentLevelIndex, row, col)) ==>
        levelState[a, r, c] == old(levelState[a, r, c])
      ensures collected ==> forall l :: 0 <= l < TotalLevels && l != currentLevelIndex ==> levels[l] == old(levels[l])
      ensures !collected ==> unchanged(levels, levelState) && score == old(score)
    {
      if levelState[currentLevelIndex, row, col] == Star {
        levelState[currentLevelIndex, row, col] := Empty;
        var lv := levels[currentLevelIndex];
        levels[currentLevelIndex] := lv.(starsCollected := (lv.starsCollected + 1) % U8);
        AddScore(PointsPerStar);
        return true;
      }
      return false;
    }

    /** `addScore`: a `uint32_t` sum. */
    method AddScore(points: nat)
      modifies this`score
      ensures score == (old(score) + points) % U32
    {
      score := (score + points) % U32;
    }

    /** `calculateLevelClearBonus`: the clear points for the whole seconds since the room timer started. */
    method CalculateLevelClearBonus(now: nat)
      modifies this`score
      ensures score == (old(score) + ClearPoints(Sub32(now, levelStartTime) / 1000)) % U32
    {
      var elapsed := Sub32(now, levelStartTime) / 1000;
      var bonus := 0;
      if elapsed < 30 {
        bonus := 50;
      } else if elapsed < 60 {
        bonus := 25;
      }
      AddScore(BaseLevelClearPoints + bonus);
    }

    /**
      `advanceToNextLevel`: the clear points, then the next level; past the
      last one the game is won and the score offered to the table, otherwise
      the player is put at the level's start and the room timer restarted.
     */
    method AdvanceToNextLevel(now: nat)
      requires Valid() && currentLevelIndex < TotalLevels
      modifies this`playerCol, this`playerRow, this`playerAlive, this`currentState, this`currentLevelIndex
      modifies this`score, this`levelStartTime, this`eeprom, levelState, highscores
      ensures Valid()
      ensures currentLevelIndex == old(currentLevelIndex) + 1
      ensures score == (old(score) + ClearPoints(Sub32(now, old(levelStartTime)) / 1000)) % U32
      ensures currentLevelIndex == TotalLevels ==> currentState == Victory
      ensures currentLevelIndex == TotalLevels && score > old(highscores[HighscoreCount - 1]) ==>
        highscores[..] == Inserted(old(highscores[..]), score) && eeprom == Written(old(eeprom), EepromAddress, highscores[..])
      ensures currentLevelIndex == TotalLevels && score <= old(highscores[HighscoreCount - 1]) ==>
        unchanged(highscores) && eeprom == old(eeprom)
      ensures currentLevelIndex < TotalLevels ==>
        && currentState == old(currentState) && levelStartTime == now && playerAlive
        && unchanged(highscores) && eeprom == old(eeprom)
      ensures currentLevelIndex < TotalLevels ==>
        var l, c, r := currentLevelIndex, playerCol, playerRow;
        && (old(NoMarkBefore(l, MaxDimension, 1)) ==> c == 1 && r == 1)
        && (!old(NoMarkBefore(l, MaxDimension, 1)) ==>
              old(levelState[l, r, c]) == PlayerMark && old(NoMarkBefore(l, r, c)) && levelState[l, r, c] == Empty)
    {
      CalculateLevelClearBonus(now);
      currentLevelIndex := currentLevelIndex + 1;
      if currentLevelIndex >= TotalLevels {
        SetVictory();
      } else {
        ResetPlayerToLevelStart();
        levelStartTime := now;
      }
    }

    /** `addHighScore`: a score that beats the last entry is inserted and the table saved; any other changes nothing. */
    method AddHighScore(s: Word)
      requires Shaped()
      modifies highscores, this`eeprom
      ensures old(IsNewHighscore(s)) ==> highscores[..] == Inserted(old(highscores[..]), s)
      ensures old(IsNewHighscore(s)) ==> eeprom == Written(old(eeprom), EepromAddress, highscores[..])
      ensures !old(IsNewHighscore(s)) ==> unchanged(highscores) && eeprom == old(eeprom)
    {
      if !IsNewHighscore(s) {
        return;
      }
      var i := 0;
      while i < HighscoreCount && s <= highscores[i]
        invariant 0 <= i <= HighscoreCount
        invariant forall j :: 0 <= j < i ==> s <= highscores[j]
      {
        i := i + 1;
      }
      ghost var t := highscores[..];
      assert FirstBeaten(t, s) == i by {
        var k := FirstBeaten(t, s);
        if k < i {
          assert false;
        }
      }
      PutAt(i, s);
      SaveHighScores(EepromAddress);
    }

    /** The shift and store of the insertion: entries from `i` on move down a slot and `s` goes in at `i`. */
    method PutAt(i: nat, s: Word)
      requires Shaped() && i < HighscoreCount
      modifies highscores
      ensures highscores[..] == old(highscores[..])[..i] + [s] + old(highscores[..])[i..HighscoreCount - 1]
    {
      ghost var t := highscores[..];
      var j := HighscoreCount - 1;
      while j > i
        invariant i <= j < HighscoreCount
        invariant forall k :: 0 <= k <= j ==> highscores[k] == t[k]
        invariant forall k :: j < k < HighscoreCount ==> highscores[k] == t[k - 1]
      {
        highscores[j] := highscores[j - 1];
        j := j - 1;
      }
      highscores[i] := s;
      ghost var r := t[..i] + [s] + t[i..HighscoreCount - 1];
      forall k | 0 <= k < HighscoreCount ensures highscores[k] == r[k] {
        if k < i {
          assert r[k] == t[k];
        } else if k > i {
          assert r[k] == t[k - 1];
        }
      }
      assert highscores[..] == r;
    }

    /** `calculateChecksum`'s loop. */
    method CalculateChecksum(scores: seq<Word>) returns (sum: bv8)
      requires |scores| == HighscoreCount
      ensures sum == Checksum(scores)
    {
      sum := 0;
      var i := 0;
      while i < HighscoreCount
        invariant 0 <= i <= HighscoreCount
        invariant sum == Checksum(scores[..i])
      {
        assert scores[..i + 1][..i] == scores[..i];
        sum := sum ^ ByteOf(scores[i], 0);
        sum := sum ^ ByteOf(scores[i], 1);
        sum := sum ^ ByteOf(scores[i], 2);
        sum := sum ^ ByteOf(scores[i], 3);
        i := i + 1;
      }
      assert scores[..i] == scores;
    }

    /** `loadHighScoreFromEEPROM`: an intact record is copied in, anything else resets the table. */
    method LoadHighScores(addr: int)
      requires Shaped()
      modifies highscores, this`eeprom
      ensures Boot(highscores[..], eeprom) == Booted(old(eeprom), addr, EepromAddress)
    {
      var data := Read(eeprom, addr);
      var sum := CalculateChecksum(data.scores);
      if sum == data.checksum {
        var i := 0;
        while i < HighscoreCount
          invariant 0 <= i <= HighscoreCount
          invariant forall j :: 0 <= j < i ==> highscores[j] == data.scores[j]
          invariant eeprom == old(eeprom)
        {
          highscores[i] := data.scores[i];
          i := i + 1;
        }
        assert highscores[..] == data.scores;
      } else {
        ResetHighScores();
      }
    }

    /** `saveHighScoresFromEEPROM`: the table and its checksum put at `addr`. */
    method SaveHighScores(addr: int)
      requires Shaped()
      modifies this`eeprom
      ensures eeprom == Written(old(eeprom), addr, highscores[..])
    {
      var sum := CalculateChecksum(highscores[..]);
      eeprom := eeprom[addr := HighScoreData(highscores[..], sum)];
    }

    /** `resetHighScores`: every entry 0, then the table saved. */
    method ResetHighScores()
      requires Shaped()
      modifies highscores, this`eeprom
      ensures highscores[..] == Zeros && eeprom == Written(old(eeprom), EepromAddress, Zeros)
    {
      var i := 0;
      while i < HighscoreCount
        invariant 0 <= i <= HighscoreCount
        invariant forall j :: 0 <= j < i ==> highscores[j] == 0
        invariant eeprom == old(eeprom)
      {
        highscores[i] := 0;
        i := i + 1;
      }
      assert highscores[..] == Zeros;
      SaveHighScores(EepromAddress);
    }
  }
}
