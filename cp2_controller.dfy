/**
  The game loop of the second draft (Checkpoint2/lib/GameController): at
  most every 50 ms it refreshes the inputs and runs the handler of the
  current screen. Menu and movement react to rising edges of the direction
  flags only, remembered in the function-static `lastUp`/`lastDown`/... of
  the source, here the controller's fields.

  The game model of this draft never places a star, an enemy or an exit
  (`GameModel.NoPickups`), so the controller keeps that as part of its
  invariant: the level index stays at the first level and no level is ever
  cleared.
 */
module Cp2Controller {
  import opened Uint
  import FinalInput
  import Cp2Audio
  import Cp2Input
  import M = Cp2Model

  const UpdateInterval: nat := 50

  /** A direction is pressed now and was not at the previous check. */
  predicate Edge(pressed: bool, last: bool) {
    pressed && !last
  }

  /**
    The step `handlePlayerMovement` takes, as (column, row) deltas: the
    first rising edge in the order up, down, left, right.
   */
  function MoveDelta(input: Cp2Input.InputState, lastUp: bool, lastDown: bool, lastLeft: bool, lastRight: bool): (d: (int, int))
    ensures d.0 == 0 || d.1 == 0
    ensures -1 <= d.0 <= 1 && -1 <= d.1 <= 1
    ensures d == (0, 0) <==>
      !Edge(input.upPressed, lastUp) && !Edge(input.downPressed, lastDown)
      && !Edge(input.leftPressed, lastLeft) && !Edge(input.rightPressed, lastRight)
    ensures Edge(input.upPressed, lastUp) ==> d == (0, -1)
    ensures d.1 != 0 ==> Edge(input.upPressed, lastUp) || Edge(input.downPressed, lastDown)
  {
    if Edge(input.upPressed, lastUp) then (0, -1)
    else if Edge(input.downPressed, lastDown) then (0, 1)
    else if Edge(input.leftPressed, lastLeft) then (-1, 0)
    else if Edge(input.rightPressed, lastRight) then (1, 0)
    else (0, 0)
  }

  /** Holding a direction moves at most once: with the flags of one check remembered, the same input gives no step at the next. */
  lemma HeldDirectionStepsOnce(input: Cp2Input.InputState, lastUp: bool, lastDown: bool, lastLeft: bool, lastRight: bool)
    ensures MoveDelta(input, input.upPressed, input.downPressed, input.leftPressed, input.rightPressed) == (0, 0)
  {
  }

  class GameController {
    const model: M.GameModel
    const hardware: Cp2Input.Hardware
    var lastUpdateTime: nat
    /** The statics of `processMenuInput`. */
    var menuLastUp: bool
    var menuLastDown: bool
    /** The statics of `handlePlayerMovement`. */
    var moveLastUp: bool
    var moveLastDown: bool
    var moveLastLeft: bool
    var moveLastRight: bool

    ghost predicate Valid()
      reads this, model, model.levels, model.levelState, hardware, hardware.audio
    {
      && model.Valid() && model.NoPickups() && model.currentLevelIndex < M.TotalLevels
      && hardware.Valid()
    }

    constructor (gameModel: M.GameModel, hw: Cp2Input.Hardware)
      requires gameModel.Valid() && gameModel.NoPickups() && gameModel.currentLevelIndex < M.TotalLevels
      requires hw.Valid()
      ensures Valid() && model == gameModel && hardware == hw && lastUpdateTime == 0
      ensures !menuLastUp && !menuLastDown && !moveLastUp && !moveLastDown && !moveLastLeft && !moveLastRight
    {
      model := gameModel;
      hardware := hw;
      lastUpdateTime := 0;
      menuLastUp, menuLastDown := false, false;
      moveLastUp, moveLastDown, moveLastLeft, moveLastRight := false, false, false, false;
    }

    /** `init`: the hardware starts (tilt mode iff the sensor was found), then the startup tune. */
    method Init(sensorFound: bool, now: nat)
      requires Valid() && !hardware.useIMUForGameplay
      modifies hardware`imuAvailable, hardware`useIMUForGameplay, hardware.audio
      ensures Valid() && hardware.IsIMUMode() == sensorFound
      ensures hardware.audio.soundEnabled ==> hardware.audio.sequence == Cp2Audio.StartupSeq
    {
      hardware.Init(sensorFound);
      hardware.Play(Cp2Audio.Startup, now);
    }

    /** `updateSplashScreen`, `updateHighscores` and `updateAbout`: a press returns to the menu. */
    method ReturnToMenuOnPress(now: nat)
      requires Valid()
      modifies model`currentState, hardware.audio
      ensures Valid()
      ensures hardware.currentInput.buttonJustPressed ==> model.currentState == M.Menu
      ensures !hardware.currentInput.buttonJustPressed ==> model.currentState == old(model.currentState) && unchanged(hardware.audio)
    {
      if hardware.currentInput.buttonJustPressed {
        model.currentState := M.Menu;
        hardware.Play(Cp2Audio.MenuSelect, now);
      }
    }

    /** `updatePaused`: a press resumes the game. */
    method ResumeOnPress(now: nat)
      requires Valid()
      modifies model`currentState, hardware.audio
      ensures Valid()
      ensures hardware.currentInput.buttonJustPressed ==> model.currentState == M.Playing
      ensures !hardware.currentInput.buttonJustPressed ==> model.currentState == old(model.currentState) && unchanged(hardware.audio)
    {
      if hardware.currentInput.buttonJustPressed {
        model.currentState := M.Playing;
        hardware.Play(Cp2Audio.MenuSelect, now);
      }
    }

    /** `updateGameOver` and `updateVictory`: a press resets the game, which lands on the menu. */
    method ResetOnPress(now: nat)
      requires Valid()
      modifies model`currentState, model`selectedMenuOption, model`currentLevelIndex, model`score, model`levelStartTime
      modifies hardware.audio
      ensures Valid()
      ensures hardware.currentInput.buttonJustPressed ==>
        model.currentState == M.Menu && model.selectedMenuOption == M.StartGameOption && model.score == 0
      ensures !hardware.currentInput.buttonJustPressed ==> unchanged(model) && unchanged(hardware.audio)
    {
      if hardware.currentInput.buttonJustPressed {
        model.ResetGame();
        hardware.Play(Cp2Audio.MenuSelect, now);
      }
    }

    /** The navigation half of `processMenuInput`: a fresh up selects the previous option, a fresh down the next one. */
    method NavigateMenu(input: Cp2Input.InputState, now: nat)
      requires Valid()
      modifies this`menuLastUp, this`menuLastDown, model`selectedMenuOption, hardware.audio
      ensures Valid()
      ensures menuLastUp == input.upPressed && menuLastDown == input.downPressed
      ensures var o := old(model.selectedMenuOption);
        var afterUp := if Edge(input.upPressed, old(menuLastUp)) then FinalInput.WrapPrev(o, M.MenuOptionsCount) else o;
        && model.selectedMenuOption ==
          (if Edge(input.downPressed, old(menuLastDown)) then FinalInput.WrapNext(afterUp, M.MenuOptionsCount) else afterUp)
        && (Edge(input.upPressed, old(menuLastUp)) && Edge(input.downPressed, old(menuLastDown)) ==> model.selectedMenuOption == o)
    {
      if input.upPressed && !menuLastUp {
        model.SelectPreviousMenuOption();
        hardware.Play(Cp2Audio.MenuMove, now);
      }
      if input.downPressed && !menuLastDown {
        model.SelectNextMenuOption();
        hardware.Play(Cp2Audio.MenuMove, now);
      }
      FinalInput.WrapUndo(old(model.selectedMenuOption), M.MenuOptionsCount);
      menuLastUp := input.upPressed;
      menuLastDown := input.downPressed;
    }

    /**
      `processMenuInput`: navigation on rising edges, so up and down together
      cancel out, then a press confirms the selection.
     */
    method ProcessMenuInput(now: nat)
      requires Valid()
      modifies this`menuLastUp, this`menuLastDown, hardware.audio
      modifies model`selectedMenuOption, model`currentState, model`currentLevelIndex, model`score, model`levelStartTime
      modifies model`playerCol, model`playerRow, model`playerAlive, model.levels, model.levelState
      ensures Valid()
      ensures menuLastUp == hardware.currentInput.upPressed && menuLastDown == hardware.currentInput.downPressed
      ensures var input, o := hardware.currentInput, old(model.selectedMenuOption);
        var afterUp := if Edge(input.upPressed, old(menuLastUp)) then FinalInput.WrapPrev(o, M.MenuOptionsCount) else o;
        model.selectedMenuOption ==
          (if Edge(input.downPressed, old(menuLastDown)) then FinalInput.WrapNext(afterUp, M.MenuOptionsCount) else afterUp)
      ensures !hardware.currentInput.buttonJustPressed ==> model.currentState == old(model.currentState)
      ensures hardware.currentInput.buttonJustPressed ==>
        && (model.selectedMenuOption == M.StartGameOption ==> model.currentState == M.Playing && model.score == 0)
        && (model.selectedMenuOption == M.HighScoresOption ==> model.currentState == M.HighScores)
        && (model.selectedMenuOption == M.SettingsOption ==> model.currentState == M.Settings)
        && (model.selectedMenuOption == M.AboutOption ==> model.currentState == M.About)
    {
      var input := hardware.currentInput;
      NavigateMenu(input, now);
      if input.buttonJustPressed {
        model.ConfirmMenuSelection(now);
        hardware.Play(Cp2Audio.MenuSelect, now);
      }
    }

    /** `processGameplayInput`: a press pauses the game. */
    method ProcessGameplayInput(now: nat)
      requires Valid()
      modifies model`currentState, hardware.audio
      ensures Valid()
      ensures hardware.currentInput.buttonJustPressed ==> model.currentState == M.Paused
      ensures !hardware.currentInput.buttonJustPressed ==> model.currentState == old(model.currentState) && unchanged(hardware.audio)
    {
      if hardware.currentInput.buttonJustPressed {
        model.currentState := M.Paused;
        hardware.Play(Cp2Audio.MenuSelect, now);
      }
    }

    /** The edge detection of `handlePlayerMovement`: the step to try, and the direction flags remembered for the next check. */
    method ReadStep(input: Cp2Input.InputState) returns (deltaX: int, deltaY: int, shouldMove: bool)
      modifies this`moveLastUp, this`moveLastDown, this`moveLastLeft, this`moveLastRight
      ensures (deltaX, deltaY) == MoveDelta(input, old(moveLastUp), old(moveLastDown), old(moveLastLeft), old(moveLastRight))
      ensures shouldMove <==> (deltaX, deltaY) != (0, 0)
      ensures moveLastUp == input.upPressed && moveLastDown == input.downPressed
      ensures moveLastLeft == input.leftPressed && moveLastRight == input.rightPressed
    {
      deltaX, deltaY := 0, 0;
      shouldMove := false;
      if input.upPressed && !moveLastUp {
        deltaY := -1;
        shouldMove := true;
      } else if input.downPressed && !moveLastDown {
        deltaY := 1;
        shouldMove := true;
      } else if input.leftPressed && !moveLastLeft {
        deltaX := -1;
        shouldMove := true;
      } else if input.rightPressed && !moveLastRight {
        deltaX := 1;
        shouldMove := true;
      }
      moveLastUp := input.upPressed;
      moveLastDown := input.downPressed;
      moveLastLeft := input.leftPressed;
      moveLastRight := input.rightPressed;
    }

    /** The move of `handlePlayerMovement`: the signed step reaches `movePlayer` through `uint16_t`, and a move restarts the cooldown. */
    method TryStep(deltaX: int, deltaY: int, now: nat)
      requires Valid() && -1 <= deltaX <= 1 && -1 <= deltaY <= 1
      modifies hardware`lastMoveTime
      modifies model`playerCol, model`playerRow, model`playerAlive, model`currentState, model`currentLevelIndex
      modifies model`score, model`levelStartTime, model`eeprom, model.levels, model.levelState, model.highscores
      ensures Valid()
      ensures model.currentState == old(model.currentState) && model.score == old(model.score)
      ensures var moved := old(model.Passable(deltaX % U16, deltaY % U16));
        && (moved ==>
          && model.playerCol == old(model.playerCol) + deltaX && model.playerRow == old(model.playerRow) + deltaY
          && hardware.lastMoveTime == now)
        && (!moved ==>
          && model.playerCol == old(model.playerCol) && model.playerRow == old(model.playerRow)
          && hardware.lastMoveTime == old(hardware.lastMoveTime))
    {
      M.SignedDeltaArrives(model.playerCol, deltaX);
      M.SignedDeltaArrives(model.playerRow, deltaY);
      var moved := model.MovePlayer(deltaX % U16, deltaY % U16, now);
      if moved {
        hardware.ResetMoveCooldown(now);
      }
    }

    /**
      `handlePlayerMovement`: during the move cooldown nothing happens, not
      even the edge bookkeeping; otherwise the edge flags are refreshed and
      the step of `MoveDelta` is tried, a successful move restarting the
      cooldown.
     */
    method HandlePlayerMovement(now: nat)
      requires Valid()
      modifies this`moveLastUp, this`moveLastDown, this`moveLastLeft, this`moveLastRight, hardware`lastMoveTime
      modifies model`playerCol, model`playerRow, model`playerAlive, model`currentState, model`currentLevelIndex
      modifies model`score, model`levelStartTime, model`eeprom, model.levels, model.levelState, model.highscores
      ensures Valid()
      ensures model.currentState == old(model.currentState) && model.score == old(model.score)
      ensures !old(hardware.CanMove(now)) ==>
        && unchanged(this) && hardware.lastMoveTime == old(hardware.lastMoveTime)
        && model.playerCol == old(model.playerCol) && model.playerRow == old(model.playerRow)
      ensures old(hardware.CanMove(now)) ==>
        && moveLastUp == hardware.currentInput.upPressed && moveLastDown == hardware.currentInput.downPressed
        && moveLastLeft == hardware.currentInput.leftPressed && moveLastRight == hardware.currentInput.rightPressed
      ensures old(hardware.CanMove(now)) ==>
        var d := MoveDelta(hardware.currentInput, old(moveLastUp), old(moveLastDown), old(moveLastLeft), old(moveLastRight));
        var moved := d != (0, 0) && old(model.Passable(d.0 % U16, d.1 % U16));
        && (moved ==>
          && model.playerCol == old(model.playerCol) + d.0 && model.playerRow == old(model.playerRow) + d.1
          && hardware.lastMoveTime == now)
        && (!moved ==>
          && model.playerCol == old(model.playerCol) && model.playerRow == old(model.playerRow)
          && hardware.lastMoveTime == old(hardware.lastMoveTime))
    {
      var input := hardware.currentInput;
      if !hardware.CanMove(now) {
        return;
      }
      var deltaX, deltaY, shouldMove := ReadStep(input);
      if shouldMove {
        TryStep(deltaX, deltaY, now);
      }
    }

    /** The sounds of a finished level: the level tune, at once cut off by the victory tune after the last level. */
    method PlayLevelEndSounds(levelEnded: bool, victory: bool, now: nat)
      requires hardware.Valid()
      modifies hardware.audio
      ensures hardware.Valid()
      ensures !levelEnded || !old(hardware.audio.soundEnabled) ==> unchanged(hardware.audio)
      ensures levelEnded && hardware.audio.soundEnabled ==>
        hardware.audio.playing && hardware.audio.index == 0
        && hardware.audio.sequence == if victory then Cp2Audio.VictorySeq else Cp2Audio.LevelCompleteSeq
    {
      if levelEnded {
        hardware.Play(Cp2Audio.LevelComplete, now);
        if victory {
          hardware.Play(Cp2Audio.Victory, now);
        }
      }
    }

    /**
      `checkGameEvents`: a dead player gets the death tune and nothing else;
      the level tune needs a cleared level, which this draft never reaches,
      so a live player hears nothing new.
     */
    method CheckGameEvents(now: nat)
      requires Valid()
      modifies hardware.audio
      ensures Valid()
      ensures !model.playerAlive && hardware.audio.soundEnabled ==>
        hardware.audio.playing && hardware.audio.sequence == Cp2Audio.PlayerDeathSeq
      ensures model.playerAlive ==> unchanged(hardware.audio)
    {
      if !model.playerAlive {
        hardware.Play(Cp2Audio.PlayerDeath, now);
        return;
      }
      var cleared := model.IsCurrentLevelCleared();
      var onExit := model.At(model.playerCol, model.playerRow) == M.Exit;
      model.NeverCleared();
      PlayLevelEndSounds(cleared && onExit, model.currentState == M.Victory, now);
    }

    /** `updateGameplay`: the pause button, then movement in the same tick, then the events. */
    method UpdateGameplay(now: nat)
      requires Valid()
      modifies this`moveLastUp, this`moveLastDown, this`moveLastLeft, this`moveLastRight, hardware`lastMoveTime, hardware.audio
      modifies model`playerCol, model`playerRow, model`playerAlive, model`currentState, model`currentLevelIndex
      modifies model`score, model`levelStartTime, model`eeprom, model.levels, model.levelState, model.highscores
      ensures Valid()
      ensures model.currentState == if hardware.currentInput.buttonJustPressed then M.Paused else old(model.currentState)
    {
      ProcessGameplayInput(now);
      HandlePlayerMovement(now);
      CheckGameEvents(now);
    }

    /**
      `update`: inside 50 ms of the last run nothing happens; otherwise the
      inputs are refreshed and the current screen's handler runs. The
      settings screen has no handler, so nothing ever leaves it.
     */
    method Update(x: nat, y: nat, reading: bool, tilt: Cp2Input.Direction, now: nat)
      requires Valid()
      modifies this, model, model.levels, model.levelState, model.highscores
      modifies hardware, hardware.joystick, hardware.audio
      ensures Valid()
      ensures Sub32(now, old(lastUpdateTime)) < UpdateInterval ==>
        unchanged(this, model, hardware, hardware.joystick, hardware.audio) && unchanged(model.levels, model.levelState, model.highscores)
      ensures Sub32(now, old(lastUpdateTime)) >= UpdateInterval ==>
        var s, just := old(model.currentState), hardware.currentInput.buttonJustPressed;
        && lastUpdateTime == now
        && hardware.joystick.currentDirection == Cp2Input.Classify(x, y)
        && (s in {M.SplashArt, M.HighScores, M.About, M.Paused, M.Playing} && !just ==> model.currentState == s)
        && (s in {M.SplashArt, M.HighScores, M.About} && just ==> model.currentState == M.Menu)
        && (s == M.Settings ==> model.currentState == M.Settings)
        && (s == M.Paused && just ==> model.currentState == M.Playing)
        && (s == M.Playing && just ==> model.currentState == M.Paused)
        && (s in {M.GameOver, M.Victory} && just ==> model.currentState == M.Menu && model.selectedMenuOption == M.StartGameOption)
        && (s in {M.GameOver, M.Victory} && !just ==> model.currentState == s)
        && (s == M.Menu && !just ==> model.currentState == M.Menu)
    {
      if Sub32(now, lastUpdateTime) < UpdateInterval {
        return;
      }
      lastUpdateTime := now;
      hardware.Update(x, y, reading, tilt, now);
      match model.currentState
      case SplashArt => ReturnToMenuOnPress(now);
      case Menu => ProcessMenuInput(now);
      case Settings =>
      case HighScores => ReturnToMenuOnPress(now);
      case About => ReturnToMenuOnPress(now);
      case Playing => UpdateGameplay(now);
      case Paused => ResumeOnPress(now);
      case GameOver => ResetOnPress(now);
      case Victory => ResetOnPress(now);
    }
  }
}
