/**
  The main loop of the final game (Final/main.cpp): `readInputs`, the audio
  step, the two blink clocks, the global long-press return to the main menu,
  and the dispatch over the seventeen states with one handler per screen.
  LCD text and the handlers' redraw bookkeeping are not modelled; the
  handlers keep the index, state, settings and score logic.

  `now` is `loop`'s `currentTime`; `readInputs` reads the clock again, and
  that later reading is `inputNow`. The other `millis()` readings inside one
  pass of `loop` are `now`.
 */
module FinalGame {
  import opened Uint
  import opened FinalLevels
  import opened FinalMaze
  import opened FinalScores
  import opened FinalAudio
  import opened FinalViewport
  import opened FinalInput

  datatype State =
    | Intro | MenuMain | MenuHighScores | MenuSettings
    | SettingsLcd | SettingsMatrix | SettingsSound | SettingsImu | SettingsResetScores | SettingsBack
    | MenuAbout | MenuHowTo
    | GamePlaying | GamePaused | LevelTransition | GameVictory | NameEntry

  /** The screens the long press does not leave. */
  predicate LongPressExempt(s: State) {
    s == GamePlaying || s == Intro || s == NameEntry
  }

  /** States the `switch` of `loop` has a case for; every other one falls back to the main menu. */
  predicate HasHandler(s: State) {
    s != SettingsBack && s != LevelTransition
  }

  /** Where the main menu's button leads for each entry. */
  function MainTarget(opt: nat): State
    requires opt < MainMenuCount
  {
    [GamePlaying, MenuHighScores, MenuSettings, MenuAbout, MenuHowTo][opt]
  }

  /** Where the settings menu's button leads; the last entry, "Back to Menu", stays in the menu. */
  function SettingsTarget(opt: nat): State
    requires opt < SettingsCount
  {
    [SettingsLcd, SettingsMatrix, SettingsSound, SettingsImu, SettingsResetScores, MenuSettings][opt]
  }

  /** Every main-menu entry leads to a screen of its own, none back to the menu itself. */
  lemma MainTargetsDistinct(i: nat, j: nat)
    requires i < MainMenuCount && j < MainMenuCount
    ensures MainTarget(i) != MenuMain && HasHandler(MainTarget(i))
    ensures MainTarget(i) == MainTarget(j) ==> i == j
  {
  }

  /** A letter of the name after one vertical reading: up the next letter, down the previous one, A and Z wrapping. */
  function EditedLetter(c: char, y: nat): (d: char)
    requires 'A' <= c <= 'Z'
    ensures 'A' <= d <= 'Z'
    ensures JoyCenterMin <= y <= JoyCenterMax ==> d == c
  {
    if y < JoyCenterMin then NextLetter(c) else if y > JoyCenterMax then PrevLetter(c) else c
  }

  /** The name cursor after one horizontal reading: right moves on, left moves back, over three letters. */
  function MovedCursor(i: nat, x: nat): (j: nat)
    requires i < MaxNameLength
    ensures j < MaxNameLength
    ensures !SidewaysX(x) ==> j == i
  {
    CursorsUndo(i);
    if x > JoyCenterMax then NextCursor(i) else if x < JoyCenterMin then PrevCursor(i) else i
  }

  /** Replacing one letter of a capital name by a capital letter keeps it capital. */
  lemma CapitalUpdate(name: string, i: nat, c: char)
    requires CapitalName(name) && i < |name| && 'A' <= c <= 'Z'
    ensures CapitalName(name[i := c])
  {
    var t := name[i := c];
    forall k | 0 <= k < |t| ensures 'A' <= t[k] <= 'Z' {
      if k != i {
        assert t[k] == name[k];
      }
    }
  }

  /**
    `loop` takes `currentTime` before `readInputs` reads the clock again. If
    the millisecond ticks in between while the button is being released, the
    release restarts the debounce timer one millisecond after `currentTime`:
    the button is still debounced as pressed, and the `uint32` difference of
    the long-press test wraps to 2^32 - 1, so the long press fires.
   */
  lemma ReleaseAcrossTickFiresLongPress(b: Button, t: nat)
    requires b.pressed && b.lastReading
    ensures var after := Debounce(b, false, t + 1);
      && after.pressed && after.lastChange == t + 1
      && Sub32(t, after.lastChange) == U32 - 1 && Sub32(t, after.lastChange) > BackToMenuDelay
  {
  }

  class Game {
    var state: State
    var selectedMain: nat
    var selectedSetting: nat
    var pausedOption: nat
    var lcdBrightness: nat
    var matrixBrightness: nat
    var imuEnabled: bool
    var imuAvailable: bool
    var joyX: nat
    var joyY: nat
    var button: Button
    var lastInputMoveTime: nat
    var backToMenuIssuedTime: nat
    var blinkStar: bool
    var blinkPlayer: bool
    var lastStarBlink: nat
    var lastPlayerBlink: nat
    /** The `drawn` flags of the intro and victory screens, which also gate their tunes. */
    var introDrawn: bool
    var victoryDrawn: bool
    /** The function-static cursors of the high-score, how-to, reset and name-entry screens. */
    var highScoreIdx: nat
    var howToPage: bool
    var resetConfirm: bool
    var charIdx: nat
    var currentName: string
    /** EEPROM bytes 0 to 3. */
    var settingsStore: map<nat, nat>
    const maze: Maze
    const audio: Audio
    const scores: HighScores
    const display: Display

    /** Every cursor inside its menu, both brightness levels in [1, 10], a three-letter capital name. */
    ghost predicate Cursors()
      reads this`selectedMain, this`selectedSetting, this`pausedOption, this`highScoreIdx, this`charIdx
      reads this`lcdBrightness, this`matrixBrightness, this`currentName
    {
      && selectedMain < MainMenuCount && selectedSetting < SettingsCount && pausedOption < 2
      && highScoreIdx < HighScoreCount && charIdx < MaxNameLength
      && BrightnessMinUser <= lcdBrightness <= BrightnessMaxUser
      && BrightnessMinUser <= matrixBrightness <= BrightnessMaxUser
      && |currentName| == MaxNameLength && CapitalName(currentName)
    }

    /** What the menu screens rely on: the cursors and the tone scheduler. */
    ghost predicate Settled()
      reads this`selectedMain, this`selectedSetting, this`pausedOption, this`highScoreIdx, this`charIdx
      reads this`lcdBrightness, this`matrixBrightness, this`currentName, audio
    {
      Cursors() && audio.Valid()
    }

    ghost predicate Valid()
      reads this`selectedMain, this`selectedSetting, this`pausedOption, this`highScoreIdx, this`charIdx
      reads this`lcdBrightness, this`matrixBrightness, this`currentName, audio, maze, maze.entities, scores
    {
      Settled() && maze.Valid() && scores.Valid() && display.buffer.Length == MatrixSize
    }

    /** The persistent settings as `saveSettings` writes them. */
    function CurrentSettings(): Settings
      reads this`lcdBrightness, this`matrixBrightness, this`imuEnabled, audio
    {
      Settings(lcdBrightness, matrixBrightness, audio.enabled, imuEnabled)
    }

    /** A menu move is allowed once more than 250 ms have passed since the last one. */
    predicate MenuReady(now: nat)
      reads this`lastInputMoveTime
    {
      Sub32(now, lastInputMoveTime) > MenuMoveCooldown
    }

    /** The step of `handleGamePlay`: the tilt when IMU control is on and the sensor answered, else the stick. */
    function Direction(tilt: Delta): (d: Delta)
      reads this`imuEnabled, this`imuAvailable, this`joyX, this`joyY
      ensures UnitStep(tilt) ==> UnitStep(d)
    {
      if imuEnabled && imuAvailable then tilt else JoyDelta(joyX, joyY)
    }

    /** What `updateMatrixViewport` draws from. */
    function CurrentScene(): Scene
      reads this`blinkStar, this`blinkPlayer, maze, maze.entities
      requires maze.entityCount <= maze.entities.Length
    {
      Scene(maze.level, maze.entities[..maze.entityCount], maze.playerCol, maze.playerRow,
        maze.starsCollected, blinkStar, blinkPlayer)
    }

    /**
      `setup()`: the settings and the high scores are loaded from EEPROM, the
      IMU is used only if it answers, the inputs are read once, and the game
      starts on the intro screen.
     */
    constructor (settingsBytes: map<nat, nat>, scoreCells: map<nat, Entry>, imuBegins: bool, now: nat, reading: bool)
      ensures Valid() && state == Intro
      ensures var s := LoadSettings(settingsBytes);
        lcdBrightness == s.lcdBrightness && matrixBrightness == s.matrixBrightness
        && audio.enabled == s.sound && imuEnabled == s.imu
      ensures imuAvailable == imuBegins
      ensures forall i :: 0 <= i < HighScoreCount ==> scores.table[i] == LoadedEntry(scoreCells, i)
      ensures button == Debounce(Button(false, false, true, 0), reading, now)
    {
      var s := LoadSettings(settingsBytes);
      maze := new Maze();
      audio := new Audio(s.sound);
      var table := new HighScores(scoreCells);
      table.Load();
      scores := table;
      display := new Display();
      state := Intro;
      selectedMain, selectedSetting, pausedOption := 0, 0, 0;
      lcdBrightness, matrixBrightness := s.lcdBrightness, s.matrixBrightness;
      imuEnabled, imuAvailable := s.imu, imuBegins;
      joyX, joyY := 512, 512;
      button := Debounce(Button(false, false, true, 0), reading, now);
      lastInputMoveTime, backToMenuIssuedTime := 0, 0;
      blinkStar, blinkPlayer := false, false;
      lastStarBlink, lastPlayerBlink := 0, 0;
      introDrawn, victoryDrawn := false, false;
      highScoreIdx, howToPage, resetConfirm, charIdx := 0, false, false, 0;
      currentName := "AAA";
      settingsStore := settingsBytes;
    }

    /** `saveSettings`: the four settings bytes are written to EEPROM. */
    method StoreSettings()
      requires BrightnessMinUser <= lcdBrightness <= BrightnessMaxUser
      requires BrightnessMinUser <= matrixBrightness <= BrightnessMaxUser
      modifies this`settingsStore
      ensures settingsStore == SaveSettings(old(settingsStore), CurrentSettings())
      ensures LoadSettings(settingsStore) == CurrentSettings()
    {
      settingsStore := SaveSettings(settingsStore, CurrentSettings());
      SettingsRoundTrip(old(settingsStore), CurrentSettings());
    }

    /** `readInputs`: both stick axes and the debounced button. */
    method ReadInputs(now: nat, x: nat, y: nat, reading: bool)
      modifies this`joyX, this`joyY, this`button
      ensures joyX == x && joyY == y
      ensures button == Debounce(old(button), reading, now)
    {
      joyX, joyY := x, y;
      var lastChange := button.lastChange;
      if reading != button.lastReading {
        lastChange := now;
      }
      var pressed, justPressed := button.pressed, false;
      if Sub32(now, lastChange) > DebounceDelay {
        if reading != pressed {
          pressed := reading;
          if pressed {
            justPressed := true;
          }
        }
      }
      button := Button(pressed, justPressed, reading, lastChange);
    }

    /** The blink clocks of `loop`: stars flip after more than 300 ms, the player after more than 150 ms. */
    method UpdateBlink(now: nat)
      modifies this`blinkStar, this`blinkPlayer, this`lastStarBlink, this`lastPlayerBlink
      ensures Sub32(now, old(lastStarBlink)) > StarBlinkPeriod ==> blinkStar == !old(blinkStar) && lastStarBlink == now
      ensures Sub32(now, old(lastStarBlink)) <= StarBlinkPeriod ==> blinkStar == old(blinkStar) && lastStarBlink == old(lastStarBlink)
      ensures Sub32(now, old(lastPlayerBlink)) > PlayerBlinkPeriod ==> blinkPlayer == !old(blinkPlayer) && lastPlayerBlink == now
      ensures Sub32(now, old(lastPlayerBlink)) <= PlayerBlinkPeriod ==> blinkPlayer == old(blinkPlayer) && lastPlayerBlink == old(lastPlayerBlink)
    {
      if Sub32(now, lastStarBlink) > StarBlinkPeriod {
        blinkStar := !blinkStar;
        lastStarBlink := now;
      }
      if Sub32(now, lastPlayerBlink) > PlayerBlinkPeriod {
        blinkPlayer := !blinkPlayer;
        lastPlayerBlink := now;
      }
    }

    /**
      The global long press: a button held more than 100 ms since the last raw
      change returns every screen but gameplay, intro and name entry to the
      main menu and clears `btnPressed`.
     */
    method LongPress(now: nat)
      modifies this`state, this`backToMenuIssuedTime, this`button
      ensures var fires := old(button).pressed && Sub32(now, old(button).lastChange) > BackToMenuDelay
          && !LongPressExempt(old(state));
        && (fires ==> state == MenuMain && backToMenuIssuedTime == now && button == old(button).(pressed := false))
        && (!fires ==> state == old(state) && backToMenuIssuedTime == old(backToMenuIssuedTime) && button == old(button))
    {
      if button.pressed && Sub32(now, button.lastChange) > BackToMenuDelay {
        if !LongPressExempt(state) {
          state := MenuMain;
          backToMenuIssuedTime := now;
          button := button.(pressed := false);
        }
      }
    }

    /**
      The vertical cursor of the main and settings menus: once the cooldown
      has passed, up selects the next entry and down the previous one, with
      the move tone.
     */
    method VerticalCursor(i: nat, n: nat, now: nat) returns (j: nat)
      requires i < n && audio.Valid()
      modifies this`lastInputMoveTime, audio
      ensures audio.Valid() && audio.enabled == old(audio.enabled)
      ensures j == if old(MenuReady(now)) then MenuStep(i, n, joyY) else i
      ensures lastInputMoveTime ==
        if old(MenuReady(now)) && !(JoyCenterMin <= joyY <= JoyCenterMax) then now else old(lastInputMoveTime)
    {
      j := i;
      if Sub32(now, lastInputMoveTime) > MenuMoveCooldown {
        if joyY < JoyCenterMin {
          j := (i + 1) % n;
          audio.Play(MenuMove, 1, now);
          lastInputMoveTime := now;
        } else if joyY > JoyCenterMax {
          j := (i - 1 + n) % n;
          audio.Play(MenuMove, 1, now);
          lastInputMoveTime := now;
        }
      }
    }

    /**
      The sideways gesture of the toggle, reset, how-to and pause screens:
      once the cooldown has passed, a push to either side is reported, with
      the move tone.
     */
    method SidewaysFlip(now: nat) returns (flip: bool)
      requires audio.Valid()
      modifies this`lastInputMoveTime, audio
      ensures audio.Valid() && audio.enabled == old(audio.enabled)
      ensures flip <==> old(MenuReady(now)) && SidewaysX(joyX)
      ensures lastInputMoveTime == if flip then now else old(lastInputMoveTime)
    {
      flip := false;
      if Sub32(now, lastInputMoveTime) > MenuMoveCooldown {
        if joyX < JoyCenterMin || joyX > JoyCenterMax {
          flip := true;
          audio.Play(MenuMove, 1, now);
          lastInputMoveTime := now;
        }
      }
    }

    /** `handleIntro`: the startup tune on entry, the main menu on a press. */
    method HandleIntro(now: nat)
      requires Settled()
      modifies this`introDrawn, this`state, audio
      ensures Settled()
      ensures state == if button.justPressed then MenuMain else old(state)
      ensures introDrawn == !button.justPressed
      ensures !old(introDrawn) && !button.justPressed && audio.enabled ==> audio.playing && audio.sequence == Startup
      ensures button.justPressed && audio.enabled ==> audio.playing && audio.sequence == MenuSelect
    {
      if !introDrawn {
        audio.Play(Startup, 3, now);
        introDrawn := true;
      }
      if button.justPressed {
        audio.Play(MenuSelect, 2, now);
        state := MenuMain;
        introDrawn := false;
      }
    }

    /**
      `handleMainMenu`: up selects the next entry and down the previous one
      (wrapping over five), at most one move per 250 ms; the button opens the
      selected entry, and "Start Game" starts a new game.
     */
    method HandleMainMenu(now: nat, draws: seq<nat>)
      requires Settled() && maze.entities.Length == MaxLevelEntities && |draws| >= 2 * MaxAttempts
      modifies this`selectedMain, this`lastInputMoveTime, this`state, audio, maze, maze.entities
      ensures Settled()
      ensures selectedMain == if old(MenuReady(now)) then MenuStep(old(selectedMain), MainMenuCount, joyY) else old(selectedMain)
      ensures state == if button.justPressed then MainTarget(selectedMain) else old(state)
      ensures button.justPressed && selectedMain == 0 ==> GameStarted(now, draws)
      ensures !(button.justPressed && selectedMain == 0) ==> unchanged(maze) && unchanged(maze.entities)
    {
      selectedMain := VerticalCursor(selectedMain, MainMenuCount, now);
      if button.justPressed {
        SelectMain(now, draws);
      }
    }

    /**
      The maze right after `startGame` at `now`: score zero, the first level
      with the player on its start cell and the stars the draws place.
     */
    ghost predicate GameStarted(now: nat, draws: seq<nat>)
      reads maze, maze.entities
    {
      && |draws| >= 2 * MaxAttempts
      && maze.Valid() && maze.score == 0 && maze.levelIndex == 0 && maze.starsCollected == 0
      && maze.levelStartTime == now
      && maze.playerCol == maze.level.startCol && maze.playerRow == maze.level.startRow
      && maze.Stars() == Placement(Catalog(0), draws, Catalog(0).starsTotal)
    }

    /** The button of `handleMainMenu`: "Start Game" runs `startGame`, every entry opens its screen. */
    method SelectMain(now: nat, draws: seq<nat>)
      requires Settled() && maze.entities.Length == MaxLevelEntities && |draws| >= 2 * MaxAttempts
      modifies this`state, audio, maze, maze.entities
      ensures Settled() && state == MainTarget(selectedMain)
      ensures selectedMain == 0 ==> GameStarted(now, draws)
      ensures selectedMain != 0 ==> unchanged(maze) && unchanged(maze.entities)
    {
      audio.Play(MenuSelect, 2, now);
      if selectedMain == 0 {
        maze.StartGame(now, draws);
        assert GameStarted(now, draws);
      }
      state := MainTarget(selectedMain);
    }

    /** `handleSettingsMenu`: the same wrapping cursor over six entries; the button opens one. */
    method HandleSettingsMenu(now: nat)
      requires Settled()
      modifies this`selectedSetting, this`lastInputMoveTime, this`state, audio
      ensures Settled()
      ensures selectedSetting == if old(MenuReady(now)) then MenuStep(old(selectedSetting), SettingsCount, joyY) else old(selectedSetting)
      ensures state == if button.justPressed then SettingsTarget(selectedSetting) else old(state)
    {
      selectedSetting := VerticalCursor(selectedSetting, SettingsCount, now);
      if button.justPressed {
        audio.Play(MenuSelect, 2, now);
        state := SettingsTarget(selectedSetting);
      }
    }

    /**
      The slider of `handleSettingsValue`: once the cooldown has passed, left
      lowers and right raises the LCD or matrix brightness within [1, 10]; a
      change sounds the move tone and is saved at once.
     */
    method SlideBrightness(lcd: bool, now: nat)
      requires Settled()
      modifies this`lcdBrightness, this`matrixBrightness, this`lastInputMoveTime, this`settingsStore, audio
      ensures Settled() && audio.enabled == old(audio.enabled)
      ensures var was := if lcd then old(lcdBrightness) else old(matrixBrightness);
        var v := if old(MenuReady(now)) then AdjustBrightness(was, joyX) else was;
        && (lcd ==> lcdBrightness == v && matrixBrightness == old(matrixBrightness))
        && (!lcd ==> matrixBrightness == v && lcdBrightness == old(lcdBrightness))
        && (v != was ==> lastInputMoveTime == now && LoadSettings(settingsStore) == CurrentSettings())
        && (v == was ==> lastInputMoveTime == old(lastInputMoveTime) && settingsStore == old(settingsStore))
    {
      if Sub32(now, lastInputMoveTime) > MenuMoveCooldown {
        var was := if lcd then lcdBrightness else matrixBrightness;
        var v := AdjustBrightness(was, joyX);
        if v != was {
          SetAndSave(lcd, v);
          audio.Play(MenuMove, 1, now);
          lastInputMoveTime := now;
        }
      }
    }

    /** The new LCD or matrix brightness is applied and `saveSettings` writes it. */
    method SetAndSave(lcd: bool, v: nat)
      requires Cursors() && BrightnessMinUser <= v <= BrightnessMaxUser
      modifies this`lcdBrightness, this`matrixBrightness, this`settingsStore
      ensures Cursors()
      ensures lcd ==> lcdBrightness == v && matrixBrightness == old(matrixBrightness)
      ensures !lcd ==> matrixBrightness == v && lcdBrightness == old(lcdBrightness)
      ensures LoadSettings(settingsStore) == CurrentSettings()
    {
      if lcd {
        lcdBrightness := v;
      } else {
        matrixBrightness := v;
      }
      StoreSettings();
    }

    /** `handleSettingsValue`: the slider; the button leaves through `STATE_MENU_SETTINGS_BACK`. */
    method HandleSettingsValue(lcd: bool, now: nat)
      requires Settled()
      modifies this`lcdBrightness, this`matrixBrightness, this`lastInputMoveTime, this`settingsStore, this`state, audio
      ensures Settled()
      ensures var was := if lcd then old(lcdBrightness) else old(matrixBrightness);
        var v := if old(MenuReady(now)) then AdjustBrightness(was, joyX) else was;
        && (lcd ==> lcdBrightness == v && matrixBrightness == old(matrixBrightness))
        && (!lcd ==> matrixBrightness == v && lcdBrightness == old(lcdBrightness))
        && (v != was ==> LoadSettings(settingsStore) == CurrentSettings())
        && (v == was ==> settingsStore == old(settingsStore))
      ensures state == if button.justPressed then SettingsBack else old(state)
    {
      SlideBrightness(lcd, now);
      if button.justPressed {
        audio.Play(MenuSelect, 2, now);
        state := SettingsBack;
      }
    }

    /**
      The flip of `handleSettingsToggle`: once the cooldown has passed, a push
      to either side flips sound or IMU control, saves the settings and then
      sounds the move tone, so turning sound on is heard and turning it off is
      not.
     */
    method FlipSetting(sound: bool, now: nat)
      requires Settled()
      modifies this`imuEnabled, this`lastInputMoveTime, this`settingsStore, audio
      ensures Settled()
      ensures var flip := old(MenuReady(now)) && SidewaysX(joyX);
        && (sound ==> audio.enabled == (old(audio.enabled) != flip) && imuEnabled == old(imuEnabled))
        && (!sound ==> imuEnabled == (old(imuEnabled) != flip) && audio.enabled == old(audio.enabled))
        && (flip ==> lastInputMoveTime == now && LoadSettings(settingsStore) == CurrentSettings())
        && (flip && audio.enabled ==> audio.playing && audio.sequence == MenuMove)
        && (!flip ==> lastInputMoveTime == old(lastInputMoveTime) && settingsStore == old(settingsStore))
    {
      if Sub32(now, lastInputMoveTime) > MenuMoveCooldown {
        if joyX < JoyCenterMin || joyX > JoyCenterMax {
          FlipAndSave(sound);
          ghost var saved := CurrentSettings();
          audio.Play(MenuMove, 1, now);
          assert CurrentSettings() == saved;
          lastInputMoveTime := now;
        }
      }
    }

    /** `*target = !(*target); saveSettings();` for the sound or the IMU flag. */
    method FlipAndSave(sound: bool)
      requires Settled()
      modifies this`imuEnabled, this`settingsStore, audio`enabled
      ensures Settled()
      ensures sound ==> audio.enabled == !old(audio.enabled) && imuEnabled == old(imuEnabled)
      ensures !sound ==> imuEnabled == !old(imuEnabled) && audio.enabled == old(audio.enabled)
      ensures LoadSettings(settingsStore) == CurrentSettings()
    {
      if sound {
        audio.Toggle();
      } else {
        imuEnabled := !imuEnabled;
      }
      StoreSettings();
    }

    /** `handleSettingsToggle`: the flip; the button returns to the settings menu. */
    method HandleSettingsToggle(sound: bool, now: nat)
      requires Settled()
      modifies this`imuEnabled, this`lastInputMoveTime, this`settingsStore, this`state, audio
      ensures Settled()
      ensures var flip := old(MenuReady(now)) && SidewaysX(joyX);
        && (sound ==> audio.enabled == (old(audio.enabled) != flip) && imuEnabled == old(imuEnabled))
        && (!sound ==> imuEnabled == (old(imuEnabled) != flip) && audio.enabled == old(audio.enabled))
        && (flip ==> LoadSettings(settingsStore) == CurrentSettings())
        && (!flip ==> settingsStore == old(settingsStore))
      ensures state == if button.justPressed then MenuSettings else old(state)
    {
      FlipSetting(sound, now);
      if button.justPressed {
        audio.Play(MenuSelect, 2, now);
        state := MenuSettings;
      }
    }

    /**
      `handleSettingsReset`: sideways flips between YES and NO (`confirm` set
      means NO); the button on YES resets and saves the table, and either
      answer returns to the settings menu.
     */
    method HandleSettingsReset(now: nat)
      requires Settled() && scores.Valid()
      modifies this`resetConfirm, this`lastInputMoveTime, this`button, this`state, audio, scores, scores.table
      ensures Settled()
      ensures resetConfirm == (old(resetConfirm) != (old(MenuReady(now)) && SidewaysX(joyX)))
      ensures state == if old(button).justPressed then MenuSettings else old(state)
      ensures old(button).justPressed && !resetConfirm ==>
        forall i :: 0 <= i < HighScoreCount ==>
          scores.table[i] == EmptyEntry && Addr(i) in scores.store && scores.store[Addr(i)] == EmptyEntry
      ensures !(old(button).justPressed && !resetConfirm) ==> unchanged(scores) && unchanged(scores.table)
    {
      var flip := SidewaysFlip(now);
      if flip {
        resetConfirm := !resetConfirm;
      }
      if button.justPressed {
        ConfirmReset(now);
      }
    }

    /** The answer of `handleSettingsReset`: NO consumes the press, YES resets the table; both go back. */
    method ConfirmReset(now: nat)
      requires Settled() && scores.Valid()
      modifies this`button, this`state, audio, scores, scores.table
      ensures Settled() && state == MenuSettings
      ensures !resetConfirm ==>
        forall i :: 0 <= i < HighScoreCount ==>
          scores.table[i] == EmptyEntry && Addr(i) in scores.store && scores.store[Addr(i)] == EmptyEntry
      ensures resetConfirm ==> !button.justPressed && unchanged(scores) && unchanged(scores.table)
    {
      if resetConfirm {
        button := button.(justPressed := false);
        state := MenuSettings;
      } else {
        scores.Reset();
        state := MenuSettings;
      }
      audio.Play(MenuSelect, 2, now);
    }

    /** `handleAbout`: the button returns to the main menu. */
    method HandleAbout()
      modifies this`state
      ensures state == if button.justPressed then MenuMain else old(state)
    {
      if button.justPressed {
        state := MenuMain;
      }
    }

    /** `handleHowTo`: sideways turns the page; the button returns to the main menu on page 0. */
    method HandleHowTo(now: nat)
      requires Settled()
      modifies this`howToPage, this`lastInputMoveTime, this`state, audio
      ensures Settled()
      ensures button.justPressed ==> state == MenuMain && !howToPage
      ensures !button.justPressed ==>
        (state == old(state) && howToPage == (old(howToPage) != (old(MenuReady(now)) && SidewaysX(joyX))))
    {
      var flip := SidewaysFlip(now);
      if flip {
        howToPage := !howToPage;
      }
      if button.justPressed {
        state := MenuMain;
        howToPage := false;
      }
    }

    /** `handleHighScores`: up shows the previous entry and down the next one, wrapping over three. */
    method HandleHighScores(now: nat)
      requires Settled()
      modifies this`highScoreIdx, this`lastInputMoveTime, this`state, audio
      ensures Settled()
      ensures button.justPressed ==> state == MenuMain && highScoreIdx == 0
      ensures !button.justPressed ==>
        (&& state == old(state)
         && highScoreIdx ==
              if !old(MenuReady(now)) then old(highScoreIdx)
              else if joyY < JoyCenterMin then WrapPrev(old(highScoreIdx), HighScoreCount)
              else if joyY > JoyCenterMax then WrapNext(old(highScoreIdx), HighScoreCount)
              else old(highScoreIdx))
    {
      ScrollScores(now);
      if button.justPressed {
        state := MenuMain;
        highScoreIdx := 0;
      }
    }

    /** The cursor of `handleHighScores`, which runs the other way round: up shows the previous entry. */
    method ScrollScores(now: nat)
      requires Settled()
      modifies this`highScoreIdx, this`lastInputMoveTime, audio
      ensures Settled()
      ensures highScoreIdx ==
        if !old(MenuReady(now)) then old(highScoreIdx)
        else if joyY < JoyCenterMin then WrapPrev(old(highScoreIdx), HighScoreCount)
        else if joyY > JoyCenterMax then WrapNext(old(highScoreIdx), HighScoreCount)
        else old(highScoreIdx)
    {
      if Sub32(now, lastInputMoveTime) > MenuMoveCooldown {
        if joyY < JoyCenterMin {
          highScoreIdx := (highScoreIdx - 1 + HighScoreCount) % HighScoreCount;
          audio.Play(MenuMove, 1, now);
          lastInputMoveTime := now;
        } else if joyY > JoyCenterMax {
          highScoreIdx := (highScoreIdx + 1) % HighScoreCount;
          audio.Play(MenuMove, 1, now);
          lastInputMoveTime := now;
        }
      }
    }

    /**
      The move of `handleGamePlay` in direction `d`: nothing before the 200 ms
      cooldown has passed or for a centred input, otherwise the maze's move
      with its tones and the switch to the victory screen.
     */
    method GameMove(now: nat, d: Delta, draws: seq<nat>) returns (outcome: MoveOutcome)
      requires maze.Valid() && audio.Valid() && UnitStep(d) && |draws| >= 2 * MaxAttempts
      modifies this`state, maze, maze.entities, audio
      ensures maze.Valid() && audio.Valid() && audio.enabled == old(audio.enabled)
      ensures Sub32(now, old(maze.lastMoveTime)) <= MoveCooldown || d == Delta(0, 0) ==>
        outcome == Blocked && unchanged(maze) && unchanged(maze.entities)
      ensures outcome.Moved? ==> maze.lastMoveTime == now
      ensures outcome.Moved? ==> (outcome.victory <==> outcome.cleared && old(maze.levelIndex) == TotalLevels - 1)
      ensures state == if outcome.Moved? && outcome.victory then GameVictory else old(state)
    {
      outcome := Blocked;
      if Sub32(now, maze.lastMoveTime) > MoveCooldown {
        if d != Delta(0, 0) {
          outcome := Step(now, d, draws);
        }
      }
    }

    /** The maze's move in direction `d`, then its tones and screen change. */
    method Step(now: nat, d: Delta, draws: seq<nat>) returns (outcome: MoveOutcome)
      requires maze.Valid() && audio.Valid() && UnitStep(d) && |draws| >= 2 * MaxAttempts
      modifies this`state, maze, maze.entities, audio
      ensures maze.Valid() && audio.Valid() && audio.enabled == old(audio.enabled)
      ensures outcome.Blocked? ==> unchanged(maze) && unchanged(maze.entities)
      ensures outcome.Moved? ==> maze.lastMoveTime == now
      ensures outcome.Moved? ==> (outcome.victory <==> outcome.cleared && old(maze.levelIndex) == TotalLevels - 1)
      ensures state == if outcome.Moved? && outcome.victory then GameVictory else old(state)
    {
      outcome := maze.TryMove(d.dc, d.dr, now, draws);
      Announce(outcome, now);
      if outcome.Moved? && outcome.victory {
        state := GameVictory;
      }
    }

    /** The tones of a move: a star, then the level-complete jingle, which cuts the star's off. */
    method Announce(outcome: MoveOutcome, now: nat)
      requires audio.Valid()
      modifies audio
      ensures audio.Valid() && audio.enabled == old(audio.enabled)
      ensures outcome.Moved? && outcome.cleared && audio.enabled ==> audio.playing && audio.sequence == LevelComplete
      ensures outcome.Moved? && outcome.collected && !outcome.cleared && audio.enabled ==>
        audio.playing && audio.sequence == CollectStar
      ensures !outcome.Moved? ==> unchanged(audio)
    {
      if outcome.Moved? {
        if outcome.collected {
          audio.Play(CollectStar, 2, now);
        }
        if outcome.cleared {
          audio.Play(LevelComplete, 4, now);
        }
      }
    }

    /**
      `handleGamePlay`: the move, the frame, then the pause check. A press in
      the tick of the winning move pauses the game instead of showing victory.
     */
    method HandleGamePlay(now: nat, tilt: Delta, draws: seq<nat>) returns (outcome: MoveOutcome)
      requires Valid() && UnitStep(tilt) && |draws| >= 2 * MaxAttempts
      modifies this`state, maze, maze.entities, audio, display.buffer
      ensures Valid()
      ensures Sub32(now, old(maze.lastMoveTime)) <= MoveCooldown ==> outcome == Blocked
      ensures state ==
        if button.justPressed then GamePaused
        else if outcome.Moved? && outcome.victory then GameVictory
        else old(state)
      ensures Shows(display.buffer[..], CurrentScene())
    {
      outcome := GameMove(now, Direction(tilt), draws);
      DrawFrame();
      PauseOnPress(now);
    }

    /** The `updateMatrixViewport` call of `handleGamePlay`: the frame of the current scene. */
    method DrawFrame()
      requires Valid()
      modifies display.buffer
      ensures Valid() && Shows(display.buffer[..], CurrentScene())
    {
      display.Render(CurrentScene());
    }

    /** The pause check at the end of `handleGamePlay`. */
    method PauseOnPress(now: nat)
      requires audio.Valid()
      modifies this`state, audio
      ensures audio.Valid() && audio.enabled == old(audio.enabled)
      ensures state == if button.justPressed then GamePaused else old(state)
      ensures !button.justPressed ==> unchanged(audio)
    {
      if button.justPressed {
        state := GamePaused;
        audio.Play(MenuSelect, 2, now);
      }
    }

    /** `handleGamePaused`: sideways flips Continue/Exit; the button resumes or leaves to the main menu. */
    method HandleGamePaused(now: nat)
      requires Settled()
      modifies this`pausedOption, this`lastInputMoveTime, this`state, audio
      ensures Settled()
      ensures pausedOption == if old(MenuReady(now)) && SidewaysX(joyX) then 1 - old(pausedOption) else old(pausedOption)
      ensures state ==
        if !button.justPressed then old(state)
        else if pausedOption == 0 then GamePlaying
        else MenuMain
    {
      var flip := SidewaysFlip(now);
      if flip {
        pausedOption := if pausedOption == 0 then 1 else 0;
      }
      if button.justPressed {
        audio.Play(MenuSelect, 2, now);
        if pausedOption == 0 {
          state := GamePlaying;
        } else {
          state := MenuMain;
        }
      }
    }

    /** `handleVictory`: the victory tune on entry; the button leads to name entry iff the score makes the table. */
    method HandleVictory(now: nat)
      requires Settled()
      modifies this`victoryDrawn, this`state, audio
      ensures Settled()
      ensures state ==
        if !button.justPressed then old(state)
        else if Qualifies(scores.table[..], maze.score) then NameEntry
        else MenuMain
      ensures victoryDrawn == !button.justPressed
    {
      if !victoryDrawn {
        audio.Play(Victory, 4, now);
        victoryDrawn := true;
      }
      if button.justPressed {
        var isHighScore := scores.IsHighScore(maze.score);
        if isHighScore {
          state := NameEntry;
        } else {
          state := MenuMain;
        }
        victoryDrawn := false;
      }
    }

    /**
      The editing half of `handleNameEntry`: up and down change the letter
      under the cursor (A to Z, wrapping), right and left move the cursor over
      the three letters.
     */
    method EditName(now: nat)
      requires Settled()
      modifies this`currentName, this`charIdx, this`lastInputMoveTime, audio
      ensures Settled()
      ensures !old(MenuReady(now)) ==> currentName == old(currentName) && charIdx == old(charIdx)
      ensures old(MenuReady(now)) ==>
        && currentName == old(currentName)[old(charIdx) := EditedLetter(old(currentName)[old(charIdx)], joyY)]
        && charIdx == MovedCursor(old(charIdx), joyX)
      ensures lastInputMoveTime ==
        if old(MenuReady(now)) && (SidewaysX(joyX) || !(JoyCenterMin <= joyY <= JoyCenterMax)) then now
        else old(lastInputMoveTime)
    {
      if Sub32(now, lastInputMoveTime) > MenuMoveCooldown {
        var letter := EditedLetter(currentName[charIdx], joyY);
        CapitalUpdate(currentName, charIdx, letter);
        currentName := currentName[charIdx := letter];
        charIdx := MovedCursor(charIdx, joyX);
        if SidewaysX(joyX) || !(JoyCenterMin <= joyY <= JoyCenterMax) {
          audio.Play(MenuMove, 1, now);
          lastInputMoveTime := now;
        }
      }
    }

    /**
      `handleNameEntry`: the name is edited; the button inserts the score
      under that name into the table, saves it and shows the table.
     */
    method HandleNameEntry(now: nat)
      requires Settled() && scores.Valid()
      modifies this`currentName, this`charIdx, this`lastInputMoveTime, this`state, audio, scores, scores.table
      ensures Settled()
      ensures button.justPressed ==>
        && state == MenuHighScores
        && scores.table[..] == Inserted(old(scores.table[..]), Entry(currentName, maze.score))
        && forall i :: 0 <= i < HighScoreCount ==> Addr(i) in scores.store && scores.store[Addr(i)] == scores.table[i]
      ensures !button.justPressed ==> state == old(state) && unchanged(scores) && unchanged(scores.table)
    {
      EditName(now);
      if button.justPressed {
        SubmitName(now);
      }
    }

    /** The button half of `handleNameEntry`: the entry goes into the table, the table is saved, the high scores follow. */
    method SubmitName(now: nat)
      requires Settled() && scores.Valid()
      modifies this`state, audio, scores, scores.table
      ensures Settled() && state == MenuHighScores
      ensures scores.table[..] == Inserted(old(scores.table[..]), Entry(currentName, maze.score))
      ensures forall i :: 0 <= i < HighScoreCount ==> Addr(i) in scores.store && scores.store[Addr(i)] == scores.table[i]
    {
      scores.Insert(maze.score, currentName);
      scores.Save();
      audio.Play(MenuSelect, 2, now);
      state := MenuHighScores;
    }

    /** The `switch` of `loop`: one handler per state, the main menu for any state without one. */
    method Dispatch(now: nat, tilt: Delta, draws: seq<nat>)
      requires Valid() && UnitStep(tilt) && |draws| >= 2 * MaxAttempts
      modifies this, maze, maze.entities, audio, scores, scores.table, display.buffer
      ensures Valid()
      ensures !HasHandler(old(state)) ==> state == MenuMain
    {
      if state.Intro? || state.MenuMain? || state.MenuHighScores? || state.MenuAbout? || state.MenuHowTo? {
        MenuScreens(now, draws);
      } else if state.GamePlaying? || state.GamePaused? || state.GameVictory? || state.NameEntry? {
        GameScreens(now, tilt, draws);
      } else if HasHandler(state) {
        SettingsScreens(now);
      } else {
        state := MenuMain;
      }
    }

    /** The cases of the `switch` for the intro and the main-menu screens. */
    method MenuScreens(now: nat, draws: seq<nat>)
      requires Valid() && |draws| >= 2 * MaxAttempts
      modifies this, maze, maze.entities, audio
      ensures Valid()
    {
      match state {
        case Intro => HandleIntro(now);
        case MenuMain => HandleMainMenu(now, draws);
        case MenuHighScores => HandleHighScores(now);
        case MenuAbout => HandleAbout();
        case MenuHowTo => HandleHowTo(now);
        case _ =>
      }
    }

    /** The cases of the `switch` for the settings screens. */
    method SettingsScreens(now: nat)
      requires Valid()
      modifies this`selectedSetting, this`lcdBrightness, this`matrixBrightness, this`imuEnabled
      modifies this`resetConfirm, this`button, this`lastInputMoveTime, this`settingsStore, this`state
      modifies audio, scores, scores.table
      ensures Valid()
    {
      match state {
        case MenuSettings => HandleSettingsMenu(now);
        case SettingsLcd => HandleSettingsValue(true, now);
        case SettingsMatrix => HandleSettingsValue(false, now);
        case SettingsSound => HandleSettingsToggle(true, now);
        case SettingsImu => HandleSettingsToggle(false, now);
        case SettingsResetScores => HandleSettingsReset(now);
        case _ =>
      }
      assert unchanged(maze, maze.entities);
    }

    /** The cases of the `switch` for gameplay, pause, victory and name entry. */
    method GameScreens(now: nat, tilt: Delta, draws: seq<nat>)
      requires Valid() && UnitStep(tilt) && |draws| >= 2 * MaxAttempts
      modifies this, maze, maze.entities, audio, scores, scores.table, display.buffer
      ensures Valid()
    {
      match state {
        case GamePlaying => var _ := HandleGamePlay(now, tilt, draws);
        case GamePaused => HandleGamePaused(now);
        case GameVictory => HandleVictory(now);
        case NameEntry => HandleNameEntry(now);
        case _ =>
      }
    }

    /**
      The work `loop` does before its `switch`: inputs, audio, blink clocks and
      the long press. `now` is `loop`'s `currentTime`; `inputNow` is the later
      `millis()` reading inside `readInputs`.
     */
    method Housekeeping(now: nat, inputNow: nat, x: nat, y: nat, reading: bool)
      requires Settled()
      modifies this`joyX, this`joyY, this`button, audio
      modifies this`blinkStar, this`blinkPlayer, this`lastStarBlink, this`lastPlayerBlink
      modifies this`state, this`backToMenuIssuedTime
      ensures Settled()
    {
      ReadInputs(inputNow, x, y, reading);
      audio.Update(now);
      UpdateBlink(now);
      LongPress(now);
    }

    /**
      One pass of `loop`: inputs, audio, blink clocks, the long press, then the
      handler of the (possibly just changed) state. `tilt` stands for the
      IMU's reading, used only when IMU control is on and the sensor answered;
      `inputNow` is the clock as `readInputs` reads it.
     */
    method Tick(now: nat, inputNow: nat, x: nat, y: nat, reading: bool, tilt: Delta, draws: seq<nat>)
      requires Valid() && UnitStep(tilt) && |draws| >= 2 * MaxAttempts
      modifies this, maze, maze.entities, audio, scores, scores.table, display.buffer
      ensures Valid()
    {
      Housekeeping(now, inputNow, x, y, reading);
      Dispatch(now, tilt, draws);
    }
  }
}
