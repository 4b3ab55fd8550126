/**
  Maze engine of the final game (Final/main.cpp): the run state of the active
  level (player cell, remaining stars, score, collected count, level timer), star
  placement by rejection sampling, and the accepted-move logic of the gameplay
  handler (collection by swap-with-last, level clear, time bonus).

  `random()` is an oracle: attempt `k` of the placement loop draws column
  `draws[2k] % dim` and row `draws[2k + 1] % dim`.
 */
module FinalMaze {
  import opened Uint
  import opened FinalLevels

  const PointsPerStar: nat := 10
  const BaseLevelClearPoints: nat := 6000
  const TimeBonusDeduction: nat := 100
  const MinStartDist: nat := 3
  const MinExitDist: nat := 2
  const MaxAttempts: nat := 100

  datatype Kind = Empty | PlayerMark | ExitMark | Star | WallMark
  datatype Entity = Entity(col: nat, row: nat, kind: Kind)

  /** What an accepted or rejected move did. */
  datatype MoveOutcome = Blocked | Moved(collected: bool, cleared: bool, victory: bool)

  predicate At(e: Entity, c: nat, r: nat) {
    e.col == c && e.row == r
  }

  predicate StarAt(e: Entity, c: nat, r: nat) {
    At(e, c, r) && e.kind == Star
  }

  /** Some entity of `s` sits on cell (c, r), whatever its kind. */
  predicate Occupied(s: seq<Entity>, c: nat, r: nat) {
    exists i :: 0 <= i < |s| && At(s[i], c, r)
  }

  /** Some star of `s` sits on cell (c, r). */
  predicate StarOn(s: seq<Entity>, c: nat, r: nat) {
    exists i :: 0 <= i < |s| && StarAt(s[i], c, r)
  }

  /** The first star of `s` on cell (c, r), or `|s|` when there is none. */
  function FindStar(s: seq<Entity>, c: nat, r: nat): (k: nat)
    ensures k <= |s| && (k < |s| <==> StarOn(s, c, r))
    ensures k < |s| ==> StarAt(s[k], c, r)
    ensures forall j :: 0 <= j < k ==> !StarAt(s[j], c, r)
  {
    if |s| == 0 then 0
    else if StarAt(s[0], c, r) then 0
    else
      var k := 1 + FindStar(s[1..], c, r);
      assert forall j :: 1 <= j < |s| ==> s[j] == s[1..][j - 1];
      k
  }

  /** The rejection tests of one placement attempt, in the order the loop applies them. */
  predicate Acceptable(lv: Level, placed: seq<Entity>, c: nat, r: nat)
    requires WellFormed(lv)
  {
    && !IsWall(lv, c, r)
    && Distance(c, r, lv.startCol, lv.startRow) >= MinStartDist
    && Distance(c, r, lv.exitCol, lv.exitRow) >= MinExitDist
    && !Occupied(placed, c, r)
  }

  predicate ValidStar(lv: Level, e: Entity)
    requires WellFormed(lv)
  {
    && e.kind == Star
    && !IsWall(lv, e.col, e.row)
    && Distance(e.col, e.row, lv.startCol, lv.startRow) >= MinStartDist
    && Distance(e.col, e.row, lv.exitCol, lv.exitRow) >= MinExitDist
  }

  /** No two entities share a cell. */
  predicate Distinct(s: seq<Entity>) {
    forall i, j :: 0 <= i < j < |s| ==> !At(s[i], s[j].col, s[j].row)
  }

  predicate ValidPlacement(lv: Level, s: seq<Entity>)
    requires WellFormed(lv)
  {
    (forall i :: 0 <= i < |s| ==> ValidStar(lv, s[i])) && Distinct(s)
  }

  /** `random(0, n)`: the oracle's raw draw `x` brought below `n`. */
  function RandomBelow(x: nat, n: nat): (v: nat)
    requires n > 0
    ensures v < n
  {
    x % n
  }

  /** The stars after one attempt at cell (c, r): the star is appended when no test rejects it. */
  function Attempt(lv: Level, placed: seq<Entity>, c: nat, r: nat): seq<Entity>
    requires WellFormed(lv)
  {
    if Acceptable(lv, placed, c, r) then placed + [Entity(c, r, Star)] else placed
  }

  /**
    `s` could have been built by the placement loop: every star passed the
    rejection tests against the stars placed before it.
   */
  predicate Placed(lv: Level, s: seq<Entity>)
    requires WellFormed(lv)
    decreases |s|
  {
    |s| == 0 ||
      var e := s[|s| - 1];
      && Placed(lv, s[..|s| - 1])
      && e.kind == Star
      && Acceptable(lv, s[..|s| - 1], e.col, e.row)
  }

  /** An attempt keeps the stars a possible outcome of the loop. */
  lemma AttemptPlaced(lv: Level, placed: seq<Entity>, c: nat, r: nat)
    requires WellFormed(lv) && Placed(lv, placed)
    ensures Placed(lv, Attempt(lv, placed, c, r))
  {
    if Acceptable(lv, placed, c, r) {
      var next := placed + [Entity(c, r, Star)];
      assert next[..|next| - 1] == placed;
    }
  }

  /** Conversely, valid stars on distinct cells pass the loop's tests in any order. */
  lemma {:induction false} ValidIsPlaced(lv: Level, s: seq<Entity>)
    requires WellFormed(lv) && ValidPlacement(lv, s)
    ensures Placed(lv, s)
    decreases |s|
  {
    if |s| > 0 {
      var init := s[..|s| - 1];
      var e := s[|s| - 1];
      forall i, j | 0 <= i < j < |init| ensures !At(init[i], init[j].col, init[j].row) {
        assert init[i] == s[i] && init[j] == s[j];
      }
      forall i | 0 <= i < |init| ensures ValidStar(lv, init[i]) && !At(init[i], e.col, e.row) {
        assert init[i] == s[i];
      }
      ValidIsPlaced(lv, init);
      assert ValidStar(lv, e);
    }
  }

  /** Stars placed by the loop are valid stars on pairwise distinct cells. */
  lemma {:induction false} PlacedIsValid(lv: Level, s: seq<Entity>)
    requires WellFormed(lv) && Placed(lv, s)
    ensures ValidPlacement(lv, s)
    decreases |s|
  {
    if |s| > 0 {
      var init := s[..|s| - 1];
      var e := s[|s| - 1];
      PlacedIsValid(lv, init);
      forall i | 0 <= i < |s| ensures ValidStar(lv, s[i]) {
        if i < |s| - 1 {
          assert s[i] == init[i];
        }
      }
      forall i, j | 0 <= i < j < |s| ensures !At(s[i], s[j].col, s[j].row) {
        assert s[i] == init[i];
        if j < |s| - 1 {
          assert s[j] == init[j];
        } else {
          assert !At(init[i], e.col, e.row);
        }
      }
    }
  }

  /**
    The stars the placement loop has produced once it has made `attempts`
    attempts and accepted `placed`: it stops at `count` stars or after
    `MaxAttempts` attempts, whichever comes first.
   */
  function PlaceFrom(lv: Level, draws: seq<nat>, count: nat, attempts: nat, placed: seq<Entity>): seq<Entity>
    requires WellFormed(lv) && |draws| >= 2 * MaxAttempts && attempts <= MaxAttempts
    decreases MaxAttempts - attempts
  {
    if |placed| >= count || attempts >= MaxAttempts then placed
    else
      var c := RandomBelow(draws[2 * attempts], lv.dim);
      var r := RandomBelow(draws[2 * attempts + 1], lv.dim);
      PlaceFrom(lv, draws, count, attempts + 1, Attempt(lv, placed, c, r))
  }

  /** One unfolding of the placement loop: attempt `attempts` tests its cell against the stars so far. */
  lemma PlaceFromStep(lv: Level, draws: seq<nat>, count: nat, attempts: nat, placed: seq<Entity>)
    requires WellFormed(lv) && |draws| >= 2 * MaxAttempts && attempts < MaxAttempts && |placed| < count
    ensures var c := RandomBelow(draws[2 * attempts], lv.dim);
      var r := RandomBelow(draws[2 * attempts + 1], lv.dim);
      PlaceFrom(lv, draws, count, attempts, placed)
        == PlaceFrom(lv, draws, count, attempts + 1, Attempt(lv, placed, c, r))
  {
  }

  /** The placement loop stops once the quota is met or the attempts are spent. */
  lemma PlaceFromDone(lv: Level, draws: seq<nat>, count: nat, attempts: nat, placed: seq<Entity>)
    requires WellFormed(lv) && |draws| >= 2 * MaxAttempts && attempts <= MaxAttempts
    requires |placed| >= count || attempts >= MaxAttempts
    ensures PlaceFrom(lv, draws, count, attempts, placed) == placed
  {
  }

  /** `placeEntities(count)` on level `lv` with the random draws `draws`. */
  function Placement(lv: Level, draws: seq<nat>, count: nat): seq<Entity>
    requires WellFormed(lv) && |draws| >= 2 * MaxAttempts
  {
    PlaceFrom(lv, draws, count, 0, [])
  }

  /** Whatever the draws, the loop only ever appends stars that pass its tests. */
  lemma {:induction false} PlaceFromPlaced(lv: Level, draws: seq<nat>, count: nat, attempts: nat, placed: seq<Entity>)
    requires WellFormed(lv) && |draws| >= 2 * MaxAttempts && attempts <= MaxAttempts
    requires Placed(lv, placed)
    ensures Placed(lv, PlaceFrom(lv, draws, count, attempts, placed))
    decreases MaxAttempts - attempts
  {
    if |placed| < count && attempts < MaxAttempts {
      var c := RandomBelow(draws[2 * attempts], lv.dim);
      var r := RandomBelow(draws[2 * attempts + 1], lv.dim);
      PlaceFromStep(lv, draws, count, attempts, placed);
      AttemptPlaced(lv, placed, c, r);
      PlaceFromPlaced(lv, draws, count, attempts + 1, Attempt(lv, placed, c, r));
    }
  }

  /** The loop never exceeds the quota and accepts at most one star per remaining attempt. */
  lemma {:induction false} PlaceFromLength(lv: Level, draws: seq<nat>, count: nat, attempts: nat, placed: seq<Entity>)
    requires WellFormed(lv) && |draws| >= 2 * MaxAttempts && attempts <= MaxAttempts
    requires |placed| <= count
    ensures |placed| <= |PlaceFrom(lv, draws, count, attempts, placed)| <= count
    ensures |PlaceFrom(lv, draws, count, attempts, placed)| <= |placed| + (MaxAttempts - attempts)
    decreases MaxAttempts - attempts
  {
    if |placed| < count && attempts < MaxAttempts {
      var c := RandomBelow(draws[2 * attempts], lv.dim);
      var r := RandomBelow(draws[2 * attempts + 1], lv.dim);
      PlaceFromStep(lv, draws, count, attempts, placed);
      PlaceFromLength(lv, draws, count, attempts + 1, Attempt(lv, placed, c, r));
    }
  }

  /**
    Every placed entity is a star on an open cell at distance at least 3 from
    the start and 2 from the exit (so on neither of them), no two share a cell,
    and there are at most `count` of them and at most one per attempt.
   */
  lemma PlacementSound(lv: Level, draws: seq<nat>, count: nat)
    requires WellFormed(lv) && |draws| >= 2 * MaxAttempts
    ensures var s := Placement(lv, draws, count);
      && Placed(lv, s)
      && ValidPlacement(lv, s)
      && |s| <= count && |s| <= MaxAttempts
      && forall i :: 0 <= i < |s| ==>
           !At(s[i], lv.startCol, lv.startRow) && !At(s[i], lv.exitCol, lv.exitRow)
  {
    PlaceFromPlaced(lv, draws, count, 0, []);
    PlacedIsValid(lv, Placement(lv, draws, count));
    PlaceFromLength(lv, draws, count, 0, []);
  }

  /** Swap-with-last removal of the entity at index `k`. */
  function RemoveAt(s: seq<Entity>, k: nat): seq<Entity>
    requires k < |s|
  {
    if k == |s| - 1 then s[..k] else s[..k] + [s[|s| - 1]] + s[k + 1..|s| - 1]
  }

  /** The live entities after the collection scan at (c, r): the first star there is swapped out for the last entity. */
  function AfterScan(s: seq<Entity>, c: nat, r: nat): seq<Entity> {
    var k := FindStar(s, c, r);
    if k < |s| then RemoveAt(s, k) else s
  }

  /** Overwriting entry k with the last entry, then dropping the last, is `RemoveAt`. */
  lemma SwapOutIsRemoveAt(s: seq<Entity>, k: nat)
    requires k < |s|
    ensures s[k := s[|s| - 1]][..|s| - 1] == RemoveAt(s, k)
  {
  }

  lemma RemoveAtIndex(s: seq<Entity>, k: nat, i: nat)
    requires k < |s| && i < |s| - 1
    ensures |RemoveAt(s, k)| == |s| - 1
    ensures RemoveAt(s, k)[i] == s[if i == k then |s| - 1 else i]
  {
  }

  lemma RemoveAtMultiset(s: seq<Entity>, k: nat)
    requires k < |s|
    ensures |RemoveAt(s, k)| == |s| - 1
    ensures multiset(RemoveAt(s, k)) + multiset{s[k]} == multiset(s)
  {
    var last := |s| - 1;
    if k < last {
      var front, mid := s[..k], s[k + 1..last];
      assert s == front + [s[k]] + mid + [s[last]];
      assert multiset(s) == multiset(front) + multiset{s[k]} + multiset(mid) + multiset{s[last]};
      assert RemoveAt(s, k) == front + [s[last]] + mid;
      assert multiset(RemoveAt(s, k)) == multiset(front) + multiset{s[last]} + multiset(mid);
    } else {
      assert s == s[..k] + [s[k]];
      assert multiset(s) == multiset(s[..k]) + multiset{s[k]};
    }
  }

  lemma RemoveAtDistinct(s: seq<Entity>, k: nat)
    requires Distinct(s) && k < |s|
    ensures Distinct(RemoveAt(s, k))
    ensures !Occupied(RemoveAt(s, k), s[k].col, s[k].row)
  {
    var t := RemoveAt(s, k);
    var last := |s| - 1;
    forall i, j | 0 <= i < j < |t| ensures !At(t[i], t[j].col, t[j].row) {
      RemoveAtIndex(s, k, i);
      RemoveAtIndex(s, k, j);
      var a := if i == k then last else i;
      var b := if j == k then last else j;
      if a < b {
        assert !At(s[a], s[b].col, s[b].row);
      } else {
        assert !At(s[b], s[a].col, s[a].row);
      }
    }
    forall i | 0 <= i < |t| ensures !At(t[i], s[k].col, s[k].row) {
      RemoveAtIndex(s, k, i);
      var a := if i == k then last else i;
      if a < k {
        assert !At(s[a], s[k].col, s[k].row);
      } else {
        assert !At(s[k], s[a].col, s[a].row);
      }
    }
  }

  /**
    Removing a placed star leaves a valid placement of one entity fewer, the
    other entities as the same multiset, and nothing on the removed cell.
   */
  lemma RemoveAtSound(lv: Level, s: seq<Entity>, k: nat)
    requires WellFormed(lv) && ValidPlacement(lv, s) && k < |s|
    ensures |RemoveAt(s, k)| == |s| - 1
    ensures multiset(RemoveAt(s, k)) + multiset{s[k]} == multiset(s)
    ensures ValidPlacement(lv, RemoveAt(s, k)) && Placed(lv, RemoveAt(s, k))
    ensures !Occupied(RemoveAt(s, k), s[k].col, s[k].row)
  {
    RemoveAtMultiset(s, k);
    RemoveAtDistinct(s, k);
    var t := RemoveAt(s, k);
    forall i | 0 <= i < |t| ensures ValidStar(lv, t[i]) {
      RemoveAtIndex(s, k, i);
    }
    ValidIsPlaced(lv, t);
  }

  /** Level-clear bonus for `secs` whole seconds: 6000 less 100 per second, never below 0. */
  function ClearBonus(secs: nat): (b: nat)
    ensures b <= BaseLevelClearPoints
    ensures secs * TimeBonusDeduction >= BaseLevelClearPoints ==> b == 0
    ensures secs * TimeBonusDeduction < BaseLevelClearPoints ==> b == BaseLevelClearPoints - secs * TimeBonusDeduction
  {
    if secs * TimeBonusDeduction >= BaseLevelClearPoints then 0
    else BaseLevelClearPoints - secs * TimeBonusDeduction
  }

  /** The bonus as the source computes it, in `uint32`: `6000 - timeUsed * 100` wraps after 60 s. */
  function BonusAsWritten(secs: nat): (b: nat)
    ensures b < U32
  {
    (BaseLevelClearPoints - (secs * TimeBonusDeduction) % U32) % U32
  }

  /** The `uint16` score after `if (bonus > 0) currentScore += bonus;` with the wrapped bonus. */
  function ScoreAfterClearAsWritten(score: nat, secs: nat): (s: nat)
    ensures s < U16
  {
    var b := BonusAsWritten(secs);
    if b > 0 then Add16(score, b) else score % U16
  }

  /** Up to 60 s the source's bonus and the clamped one agree. */
  lemma BonusAgreesWithinMinute(secs: nat)
    requires secs <= 60
    ensures BonusAsWritten(secs) == ClearBonus(secs)
  {
  }

  /** Clearing a level after 61 s takes 100 points away from a score of 1000. */
  lemma BonusWrapsAfterMinute()
    ensures BonusAsWritten(61) == U32 - 100
    ensures ScoreAfterClearAsWritten(1000, 61) == 900
    ensures Add16(1000, ClearBonus(61)) == 1000
  {
  }

  /** The clamped bonus never grows with time. */
  lemma ClearBonusMonotone(s1: nat, s2: nat)
    requires s1 <= s2
    ensures ClearBonus(s2) <= ClearBonus(s1)
  {
    assert s1 * TimeBonusDeduction <= s2 * TimeBonusDeduction;
  }

  class Maze {
    var levelIndex: nat
    var level: Level
    var playerCol: nat
    var playerRow: nat
    const entities: array<Entity>
    var entityCount: nat
    var score: nat
    var starsCollected: nat
    var levelStartTime: nat
    var lastMoveTime: nat

    ghost predicate Valid()
      reads this, entities
    {
      && levelIndex < TotalLevels && WellFormed(level)
      && entities.Length == MaxLevelEntities && entityCount <= entities.Length
      && score < U16
      && playerCol < level.dim && playerRow < level.dim
      && Placed(level, entities[..entityCount])
    }

    /** The live entities `currentEntities[0 .. currentEntityCount)`. */
    ghost function Stars(): seq<Entity>
      reads this`entityCount, entities
      requires entityCount <= entities.Length
    {
      entities[..entityCount]
    }

    /** The power-on values of the globals (level 1 descriptor, nothing placed). */
    constructor ()
      ensures Valid() && fresh(entities)
      ensures levelIndex == 0 && score == 0 && entityCount == 0 && starsCollected == 0
      ensures playerCol == 0 && playerRow == 0 && levelStartTime == 0 && lastMoveTime == 0
    {
      levelIndex := 0;
      level := Catalog(0);
      playerCol, playerRow := 0, 0;
      entities := new Entity[MaxLevelEntities](_ => Entity(0, 0, Empty));
      entityCount := 0;
      score := 0;
      starsCollected := 0;
      levelStartTime := 0;
      lastMoveTime := 0;
    }

    /** The duplicate test of the placement loop: does a live entity sit on (c, r)? */
    method FindOverlap(c: nat, r: nat) returns (overlap: bool)
      requires entityCount <= entities.Length
      ensures overlap <==> Occupied(entities[..entityCount], c, r)
    {
      overlap := false;
      var i := 0;
      while i < entityCount
        invariant 0 <= i <= entityCount
        invariant forall j :: 0 <= j < i ==> !At(entities[j], c, r)
      {
        if entities[i].col == c && entities[i].row == r {
          overlap := true;
          assert At(entities[..entityCount][i], c, r);
          break;
        }
        i := i + 1;
      }
      if !overlap {
        forall j | 0 <= j < entityCount ensures !At(entities[..entityCount][j], c, r) {
          assert entities[..entityCount][j] == entities[j];
        }
      }
    }

    /**
      One pass of the placement loop's body, attempt number `attempts`: draw a
      cell and append a star there unless it is a wall, too close to the start
      or the exit, or already taken.
     */
    method PlaceAttempt(count: nat, draws: seq<nat>, attempts: nat)
      requires WellFormed(level) && entityCount < count <= entities.Length
      requires |draws| >= 2 * MaxAttempts && attempts < MaxAttempts
      modifies this`entityCount, entities
      ensures entityCount <= count
      ensures PlaceFrom(level, draws, count, attempts, old(entities[..entityCount]))
        == PlaceFrom(level, draws, count, attempts + 1, entities[..entityCount])
    {
      var c := RandomBelow(draws[2 * attempts], level.dim);
      var r := RandomBelow(draws[2 * attempts + 1], level.dim);
      ghost var placed := entities[..entityCount];
      PlaceFromStep(level, draws, count, attempts, placed);
      if IsWall(level, c, r) {
        return;
      }
      var distStart := Distance(c, r, level.startCol, level.startRow);
      var distExit := Distance(c, r, level.exitCol, level.exitRow);
      if distStart < MinStartDist || distExit < MinExitDist {
        return;
      }
      var overlap := FindOverlap(c, r);
      if overlap {
        return;
      }
      entities[entityCount] := Entity(c, r, Star);
      entityCount := entityCount + 1;
      assert entities[..entityCount] == placed + [Entity(c, r, Star)];
    }

    /** `placeEntities(count)`: rejection sampling with a budget of 100 attempts. */
    method PlaceEntities(count: nat, draws: seq<nat>)
      requires WellFormed(level) && entities.Length == MaxLevelEntities && count <= MaxLevelEntities
      requires |draws| >= 2 * MaxAttempts
      modifies this`entityCount, entities
      ensures entityCount <= count
      ensures entities[..entityCount] == Placement(level, draws, count)
      ensures Placed(level, entities[..entityCount])
    {
      ghost var lv := level;
      ghost var target := Placement(lv, draws, count);
      entityCount := 0;
      var attempts := 0;
      ghost var placed: seq<Entity> := [];
      assert entities[..entityCount] == placed;
      while entityCount < count && attempts < MaxAttempts
        invariant attempts <= MaxAttempts && entityCount <= count && level == lv
        invariant entities[..entityCount] == placed
        invariant PlaceFrom(lv, draws, count, attempts, placed) == target
        decreases MaxAttempts - attempts
      {
        PlaceAttempt(count, draws, attempts);
        placed := entities[..entityCount];
        attempts := attempts + 1;
      }
      PlaceFromDone(lv, draws, count, attempts, placed);
      PlaceFromPlaced(lv, draws, count, 0, []);
    }

    /**
      The collection scan after an accepted move: a star on the player's cell is
      replaced by the last live entity and the count shrinks by one; the score
      gains 10 (in `uint16`) and the collected count 1.
     */
    method CollectAt() returns (collected: bool, ghost k: nat)
      requires entityCount <= entities.Length && Distinct(Stars())
      modifies this`entityCount, this`score, this`starsCollected, entities
      ensures entityCount <= entities.Length
      ensures collected <==> StarOn(old(Stars()), playerCol, playerRow)
      ensures collected ==>
        && k == FindStar(old(Stars()), playerCol, playerRow)
        && k < |old(Stars())| && old(Stars())[k] == Entity(playerCol, playerRow, Star)
        && Stars() == RemoveAt(old(Stars()), k)
        && score == Add16(old(score), PointsPerStar)
        && starsCollected == old(starsCollected) + 1
      ensures !collected ==> Stars() == old(Stars()) && score == old(score) && starsCollected == old(starsCollected)
    {
      ghost var orig := entities[..entityCount];
      assert orig == old(Stars());
      ghost var first := FindStar(orig, playerCol, playerRow);
      k := 0;
      collected := false;
      var i := 0;
      while i < entityCount
        invariant entityCount <= entities.Length
        invariant !collected ==>
          && entityCount == |orig| && i <= entityCount && entities[..entityCount] == orig
          && (forall j :: 0 <= j < i ==> !StarAt(orig[j], playerCol, playerRow))
          && score == old(score) && starsCollected == old(starsCollected)
        invariant collected ==>
          && k == first && k < |orig| && StarAt(orig[k], playerCol, playerRow)
          && entityCount == |orig| - 1 && entities[..entityCount] == RemoveAt(orig, k)
          && k < i <= entityCount + 1
          && score == Add16(old(score), PointsPerStar) && starsCollected == old(starsCollected) + 1
        decreases entityCount + 1 - i
      {
        if collected {
          RemoveAtIndex(orig, k, i);
          assert entities[i] == entities[..entityCount][i] == orig[i];
          assert !At(orig[k], orig[i].col, orig[i].row);
        } else {
          assert entities[i] == orig[i];
        }
        if entities[i].col == playerCol && entities[i].row == playerRow && entities[i].kind == Star {
          ghost var pre := entities[..];
          entities[i] := entities[entityCount - 1];
          entityCount := entityCount - 1;
          assert entities[..entityCount] == orig[i := orig[|orig| - 1]][..|orig| - 1] by {
            assert entities[..] == pre[i := pre[entityCount]];
          }
          SwapOutIsRemoveAt(orig, i);
          score := Add16(score, PointsPerStar);
          starsCollected := starsCollected + 1;
          collected := true;
          k := i;
          assert entities[..entityCount] == RemoveAt(orig, k);
        }
        i := i + 1;
      }
      if collected {
        assert StarAt(old(Stars())[k], playerCol, playerRow);
      }
    }

    /** `initLevels(idx)`: load the level, put the player on its start, place its stars, restart its timer. */
    method InitLevel(idx: nat, now: nat, draws: seq<nat>)
      requires idx < TotalLevels && entities.Length == MaxLevelEntities && score < U16
      requires |draws| >= 2 * MaxAttempts
      modifies this, entities
      ensures Valid()
      ensures levelIndex == idx && level == Catalog(idx) && starsCollected == 0
      ensures playerCol == level.startCol && playerRow == level.startRow
      ensures Stars() == Placement(level, draws, level.starsTotal)
      ensures levelStartTime == now
      ensures score == old(score) && lastMoveTime == old(lastMoveTime)
    {
      LoadLevel(idx, now);
      PlaceEntities(level.starsTotal, draws);
    }

    /** The descriptor part of `initLevels(idx)`: the level, its start, its timer. */
    method LoadLevel(idx: nat, now: nat)
      requires idx < TotalLevels
      modifies this`levelIndex, this`starsCollected, this`level, this`playerCol, this`playerRow, this`levelStartTime
      ensures levelIndex == idx && level == Catalog(idx) && starsCollected == 0
      ensures WellFormed(level) && level.starsTotal <= MaxLevelEntities
      ensures playerCol == level.startCol && playerRow == level.startRow
      ensures levelStartTime == now
    {
      var lv := Catalog(idx);
      levelIndex := idx;
      starsCollected := 0;
      level := lv;
      playerCol := lv.startCol;
      playerRow := lv.startRow;
      levelStartTime := now;
    }

    /** `startGame()` without the state change: score 0, level 0. */
    method StartGame(now: nat, draws: seq<nat>)
      requires entities.Length == MaxLevelEntities
      requires |draws| >= 2 * MaxAttempts
      modifies this, entities
      ensures Valid()
      ensures score == 0 && levelIndex == 0 && starsCollected == 0 && levelStartTime == now
      ensures playerCol == level.startCol && playerRow == level.startRow
      ensures Stars() == Placement(Catalog(0), draws, Catalog(0).starsTotal)
      ensures lastMoveTime == old(lastMoveTime)
    {
      score := 0;
      InitLevel(0, now, draws);
    }

    /** Whole seconds since the level started, as `(millis() - levelStartTime) / 1000`. */
    function SecondsUsed(now: nat): nat
      reads this
    {
      Sub32(now, levelStartTime) / 1000
    }

    /**
      The level-clear branch: the time bonus is added, then the next level is
      loaded, or, after the last level, nothing else changes and victory is
      reported.
     */
    method ClearLevel(now: nat, draws: seq<nat>) returns (victory: bool)
      requires Valid() && |draws| >= 2 * MaxAttempts
      modifies this, entities
      ensures Valid()
      ensures victory <==> old(levelIndex) == TotalLevels - 1
      ensures lastMoveTime == old(lastMoveTime)
      ensures score == Add16(old(score), ClearBonus(old(SecondsUsed(now))))
      ensures victory ==>
        && levelIndex == old(levelIndex) && level == old(level) && levelStartTime == old(levelStartTime)
        && playerCol == old(playerCol) && playerRow == old(playerRow)
        && starsCollected == old(starsCollected) && Stars() == old(Stars())
      ensures !victory ==>
        && levelIndex == old(levelIndex) + 1 && level == Catalog(levelIndex)
        && starsCollected == 0 && levelStartTime == now
        && playerCol == level.startCol && playerRow == level.startRow
        && Stars() == Placement(level, draws, level.starsTotal)
    {
      var timeUsed := Sub32(now, levelStartTime) / 1000;
      score := Add16(score, ClearBonus(timeUsed));
      if levelIndex < TotalLevels - 1 {
        InitLevel(levelIndex + 1, now, draws);
        victory := false;
      } else {
        victory := true;
      }
    }

    /**
      The accepted part of a move: the player steps onto the open cell (c, r),
      the move time is taken, and a star there is collected.
     */
    method MoveAndCollect(c: nat, r: nat, now: nat) returns (collected: bool)
      requires Valid() && c < level.dim && r < level.dim && !IsWall(level, c, r)
      modifies this`playerCol, this`playerRow, this`lastMoveTime
      modifies this`entityCount, this`score, this`starsCollected, entities
      ensures Valid()
      ensures playerCol == c && playerRow == r && lastMoveTime == now
      ensures collected <==> StarOn(old(Stars()), c, r)
      ensures Stars() == AfterScan(old(Stars()), c, r)
      ensures collected ==> |Stars()| == |old(Stars())| - 1 && !Occupied(Stars(), c, r)
      ensures score == if collected then Add16(old(score), PointsPerStar) else old(score)
      ensures starsCollected == old(starsCollected) + if collected then 1 else 0
    {
      ghost var before := Stars();
      playerCol := c;
      playerRow := r;
      lastMoveTime := now;
      PlacedIsValid(level, before);
      ghost var k;
      collected, k := CollectAt();
      if collected {
        assert before[k] == Entity(c, r, Star);
        RemoveAtSound(level, before, k);
        assert Stars() == RemoveAt(before, k);
      } else {
        assert Stars() == before;
      }
    }

    /**
      The exit test after an accepted move: the level clears when the player
      stands on the exit and the quota of stars is met.
     */
    method CheckExit(now: nat, draws: seq<nat>) returns (cleared: bool, victory: bool)
      requires Valid() && |draws| >= 2 * MaxAttempts
      modifies this, entities
      ensures Valid()
      ensures cleared <==>
        && old(playerCol) == old(level).exitCol && old(playerRow) == old(level).exitRow
        && old(starsCollected) >= old(level).starsTotal
      ensures !cleared ==> !victory && unchanged(this) && unchanged(entities)
      ensures victory <==> cleared && old(levelIndex) == TotalLevels - 1
      ensures cleared ==> score == Add16(old(score), ClearBonus(old(SecondsUsed(now))))
      ensures victory ==>
        && levelIndex == old(levelIndex) && level == old(level) && levelStartTime == old(levelStartTime)
        && playerCol == old(playerCol) && playerRow == old(playerRow)
        && starsCollected == old(starsCollected) && Stars() == old(Stars())
      ensures cleared && !victory ==>
        && levelIndex == old(levelIndex) + 1 && level == Catalog(levelIndex)
        && starsCollected == 0 && levelStartTime == now
        && playerCol == level.startCol && playerRow == level.startRow
        && Stars() == Placement(level, draws, level.starsTotal)
      ensures lastMoveTime == old(lastMoveTime)
    {
      cleared, victory := false, false;
      if playerCol == level.exitCol && playerRow == level.exitRow {
        if starsCollected >= level.starsTotal {
          cleared := true;
          victory := ClearLevel(now, draws);
        }
      }
    }

    /** The target cell of a move is on the grid and not a wall. */
    predicate CanEnter(c: int, r: int)
      reads this`level
      requires WellFormed(level)
    {
      0 <= c < level.dim && 0 <= r < level.dim && !IsWall(level, c, r)
    }

    /**
      One step of `handleGamePlay` once a non-zero unit delta has been read: the
      move is applied only to an in-bounds open cell; then a star there is
      collected, and the level clears when the player stands on the exit with
      the quota met.
     */
    method TryMove(dc: int, dr: int, now: nat, draws: seq<nat>) returns (outcome: MoveOutcome)
      requires Valid()
      requires -1 <= dc <= 1 && -1 <= dr <= 1
      requires |draws| >= 2 * MaxAttempts
      modifies this, entities
      ensures Valid()
      ensures outcome.Blocked? <==> !old(CanEnter(playerCol + dc, playerRow + dr))
      ensures outcome.Blocked? ==> unchanged(this) && unchanged(entities)
      ensures outcome.Moved? ==>
        && 0 <= old(playerCol) + dc && 0 <= old(playerRow) + dr
        && Stepped(old(playerCol) + dc, old(playerRow) + dr, outcome, now, draws)
    {
      if CanEnter(playerCol + dc, playerRow + dr) {
        outcome := Advance(playerCol + dc, playerRow + dr, now, draws);
      } else {
        outcome := Blocked;
      }
    }
    /**
      What an accepted move onto the open cell (c, r) does, from the state
      before it to the state after it: the player steps on and the move clock
      restarts; a star there is collected (+10, +1); the level clears exactly
      when the cell is the exit and the quota is met counting that star, which
      adds the time bonus and loads the next level, or on the last level is
      the victory and changes nothing more.
     */
    twostate predicate Stepped(c: nat, r: nat, outcome: MoveOutcome, now: nat, draws: seq<nat>)
      reads this, entities
      requires old(entityCount <= entities.Length) && entityCount <= entities.Length
      requires WellFormed(level) && |draws| >= 2 * MaxAttempts
    {
      && outcome.Moved? && lastMoveTime == now
      && (outcome.collected <==> StarOn(old(Stars()), c, r))
      && (outcome.cleared <==>
        && c == old(level).exitCol && r == old(level).exitRow
        && old(starsCollected) + (if outcome.collected then 1 else 0) >= old(level).starsTotal)
      && (outcome.victory <==> outcome.cleared && old(levelIndex) == TotalLevels - 1)
      && (var collectedScore := if outcome.collected then Add16(old(score), PointsPerStar) else old(score);
          score == if outcome.cleared then Add16(collectedScore, ClearBonus(old(SecondsUsed(now)))) else collectedScore)
      && (!outcome.cleared || outcome.victory ==>
        && levelIndex == old(levelIndex) && level == old(level) && levelStartTime == old(levelStartTime)
        && playerCol == c && playerRow == r
        && starsCollected == old(starsCollected) + (if outcome.collected then 1 else 0)
        && Stars() == AfterScan(old(Stars()), c, r))
      && (outcome.cleared && !outcome.victory ==>
        && levelIndex == old(levelIndex) + 1 && level == Catalog(levelIndex)
        && starsCollected == 0 && levelStartTime == now
        && playerCol == level.startCol && playerRow == level.startRow
        && Stars() == Placement(level, draws, level.starsTotal))
    }

    /** An accepted move onto the open cell (c, r): the collection scan, then the exit test. */
    method Advance(c: nat, r: nat, now: nat, draws: seq<nat>) returns (outcome: MoveOutcome)
      requires Valid() && c < level.dim && r < level.dim && !IsWall(level, c, r)
      requires |draws| >= 2 * MaxAttempts
      modifies this, entities
      ensures Valid() && Stepped(c, r, outcome, now, draws)
    {
      ghost var lv, idx, stars := level, levelIndex, starsCollected;
      var collected := MoveAndCollect(c, r, now);
      assert level == lv && levelIndex == idx && levelStartTime == old(levelStartTime);
      assert starsCollected == stars + (if collected then 1 else 0);
      var cleared, victory := CheckExit(now, draws);
      outcome := Moved(collected, cleared, victory);
    }
  }
}
