/**
  The first draft (Checkpoint1/main.cpp): a demo with a main menu, a
  running screen that moves one LED dot with the tilt of the board, and a
  pause menu. The joystick's vertical axis moves through the menus, the
  button (active low, with the pull-up reading HIGH) confirms and pauses,
  and the buzzer beeps on every action. Analog readings, the button level,
  the dot position computed from the tilt, and the clock are parameters; the
  buzzer is the `frequency` field and the LED matrix the set `lit` of
  lit (column, row) positions.
 */
module Cp1Demo {
  import opened Uint
  import FinalInput

  datatype AppState = Splash | MainMenu | Running | PauseMenu

  const JoystickCenter: nat := 512
  const JoystickDeadzone: nat := 250
  const JoystickInterval: nat := 300
  const ButtonDebounceInterval: nat := 60
  const ImuUpdateInterval: nat := 10
  const MatrixMaxIndex: nat := 7
  const MainMenuCount: nat := 1
  const PauseMenuCount: nat := 2
  const SoundFrequency: nat := 1000
  const SoundDuration: nat := 50

  /** `readJoystickAxis`: -1 below the dead zone, 1 above it, 0 inside. */
  function ReadJoystickAxis(val: nat): (m: int)
    ensures m == -1 <==> val < JoystickCenter - JoystickDeadzone
    ensures m == 1 <==> val > JoystickCenter + JoystickDeadzone
    ensures m == 0 <==> 262 <= val <= 762
  {
    if val < JoystickCenter - JoystickDeadzone then -1
    else if val > JoystickCenter + JoystickDeadzone then 1
    else 0
  }

  /** The vertical joystick step the menus take: the axis reading once more than 300 ms have passed since the last step, otherwise none. */
  function JoystickMove(axisY: nat, now: nat, lastJoystick: nat): (m: int)
    ensures -1 <= m <= 1
    ensures Sub64(now, lastJoystick) <= JoystickInterval ==> m == 0
  {
    if Sub64(now, lastJoystick) > JoystickInterval then ReadJoystickAxis(axisY) else 0
  }

  /** One menu step with wrap-around: below the first entry to the last, past the last to the first. */
  function MenuStep(index: nat, move: int, count: nat): (r: nat)
    requires count > 0 && -1 <= move <= 1 && index < count
    ensures r < count
    ensures move == 0 ==> r == index
  {
    if index + move < 0 then count - 1
    else if index + move >= count then 0
    else index + move
  }

  /** The source's update `(index + move + count) % count` is exactly that step. */
  lemma MenuStepIsModulo(index: nat, move: int, count: nat)
    requires count > 0 && -1 <= move <= 1 && index < count
    ensures (index + move + count) % count == MenuStep(index, move, count)
  {
    if index + move < 0 {
      FinalInput.ModBelow(count - 1, count);
    } else if index + move >= count {
      ModDouble(count);
    } else {
      FinalInput.ModOnce(index + move + count, count);
    }
  }

  lemma ModDouble(n: nat)
    requires n > 0
    ensures (n + n) % n == 0
  {
    assert n + n == 2 * n;
  }

  /** A step down is the next entry and a step up the previous one, as the final version's menus wrap. */
  lemma MenuStepWraps(index: nat, move: int, count: nat)
    requires count > 0 && -1 <= move <= 1 && index < count
    ensures move == 1 ==> MenuStep(index, move, count) == FinalInput.WrapNext(index, count)
    ensures move == -1 ==> MenuStep(index, move, count) == FinalInput.WrapPrev(index, count)
  {
    if move == 1 {
      if index + 1 < count {
        FinalInput.ModBelow(index + 1, count);
      } else {
        FinalInput.ModOnce(index + 1, count);
      }
    } else if move == -1 {
      if index == 0 {
        FinalInput.ModBelow(count - 1, count);
      } else {
        FinalInput.ModOnce(index - 1 + count, count);
      }
    }
  }

  /**
    Whether `updateButton` registers a press, as written: a change of the
    reading from HIGH to LOW counts when `timeNow - lastButtonState`, the
    clock minus the previous level read as 0 or 1, exceeds 60 ms.
   */
  predicate RegistersPressAsWritten(now: nat, lastState: bool, reading: bool) {
    reading != lastState && Sub64(now, if lastState then 1 else 0) > ButtonDebounceInterval && lastState && !reading
  }

  /** The evidently intended rule: the HIGH to LOW change counts when the previous change is more than 60 ms old. */
  predicate RegistersPress(now: nat, lastTime: nat, lastState: bool, reading: bool) {
    reading != lastState && Sub64(now, lastTime) > ButtonDebounceInterval && lastState && !reading
  }

  /** Only a HIGH to LOW change is a press, and never one within 60 ms of the previous change. */
  lemma PressIsDebouncedFall(now: nat, lastTime: nat, lastState: bool, reading: bool)
    requires lastTime <= now < U64
    ensures RegistersPress(now, lastTime, lastState, reading) ==> lastState && !reading
    ensures now - lastTime <= ButtonDebounceInterval ==> !RegistersPress(now, lastTime, lastState, reading)
  {
  }

  /**
    A contact bounce: pressed at 1000 ms, a bounce back to HIGH at 1005 ms and
    LOW again at 1010 ms. As written the second fall counts as a second
    press; with the intended rule it does not.
   */
  lemma BounceCountsTwiceAsWritten()
    ensures RegistersPressAsWritten(1000, true, false) && RegistersPress(1000, 0, true, false)
    ensures !RegistersPressAsWritten(1005, false, true) && !RegistersPress(1005, 1000, false, true)
    ensures RegistersPressAsWritten(1010, true, false)
    ensures !RegistersPress(1010, 1005, true, false)
  {
  }

  /**
    When the clock ticks between `loop`'s reading and `updateSound`'s, a
    beep just started is stamped one millisecond after `timeNow`: the
    `uint64_t` age wraps to 2^64 - 1, above 50 ms, so `noTone` cuts the beep
    in the same call.
   */
  lemma BeepCutAcrossTick(t: nat)
    ensures Sub64(t, t + 1) == U64 - 1 && Sub64(t, t + 1) > SoundDuration
  {
  }

  class Demo {
    var appState: AppState
    var mainMenuIndex: nat
    var pauseMenuIndex: nat
    var lastJoystick: nat
    var lastButtonTime: nat
    var lastImuUpdate: nat
    /** The previous button level: `true` is HIGH, released. */
    var lastButtonState: bool
    var btnPressed: bool
    var shouldPlay: bool
    var soundStartTime: nat
    /** The buzzer: 1000 Hz while beeping, 0 once silenced. */
    var frequency: nat
    var dotX: nat
    var dotY: nat
    /** The LED matrix: the (column, row) positions switched on. */
    var lit: set<(nat, nat)>

    ghost predicate Valid()
      reads this
    {
      mainMenuIndex < MainMenuCount && pauseMenuIndex < PauseMenuCount
    }

    constructor ()
      ensures Valid() && appState == Splash && mainMenuIndex == 0 && pauseMenuIndex == 0
      ensures lastButtonState && !btnPressed && !shouldPlay && frequency == 0 && dotX == 3 && dotY == 3 && lit == {}
    {
      appState := Splash;
      mainMenuIndex, pauseMenuIndex := 0, 0;
      lastJoystick, lastButtonTime, lastImuUpdate := 0, 0, 0;
      lastButtonState := true;
      btnPressed := false;
      shouldPlay := false;
      soundStartTime := 0;
      frequency := 0;
      dotX, dotY := 3, 3;
      lit := {};
    }

    /**
      `updateButton`, with the debounce measured from the previous change of
      the reading: a HIGH to LOW change more than 60 ms after the previous
      change sets `btnPressed`; any change restarts the timer.
     */
    method UpdateButton(reading: bool, now: nat)
      modifies this`lastButtonTime, this`lastButtonState, this`btnPressed
      ensures lastButtonState == reading
      ensures lastButtonTime == if reading != old(lastButtonState) then now else old(lastButtonTime)
      ensures btnPressed == (old(btnPressed) || RegistersPress(now, old(lastButtonTime), old(lastButtonState), reading))
    {
      if reading != lastButtonState {
        var previous := lastButtonTime;
        lastButtonTime := now;
        if Sub64(now, previous) > ButtonDebounceInterval {
          if lastButtonState && !reading {
            btnPressed := true;
          }
        }
      }
      lastButtonState := reading;
    }

    /**
      `updateSound`: a requested beep starts, stamped with the clock as
      `updateSound` reads it (`startNow`); then a beep more than 50 ms older
      than `loop`'s `timeNow` (`now`) is silenced, in `uint64_t` arithmetic.
     */
    method UpdateSound(now: nat, startNow: nat)
      modifies this`shouldPlay, this`soundStartTime, this`frequency
      ensures !shouldPlay
      ensures soundStartTime == if old(shouldPlay) then startNow else old(soundStartTime)
      ensures frequency ==
        if Sub64(now, soundStartTime) > SoundDuration then 0
        else if old(shouldPlay) then SoundFrequency else old(frequency)
      ensures old(shouldPlay) && startNow == now ==> frequency == SoundFrequency
    {
      if shouldPlay {
        frequency := SoundFrequency;
        soundStartTime := startNow;
        shouldPlay := false;
      }
      if !shouldPlay && Sub64(now, soundStartTime) > SoundDuration {
        frequency := 0;
      }
    }

    /** `clearMatrix` */
    method ClearMatrix()
      modifies this`lit
      ensures lit == {}
    {
      lit := {};
    }

    /** `drawDot`: the matrix shows the one dot at (x, y), or nothing when it is off the 8x8 grid. */
    method DrawDot(x: nat, y: nat)
      modifies this`lit
      ensures x <= MatrixMaxIndex && y <= MatrixMaxIndex ==> lit == {(x, y)}
      ensures !(x <= MatrixMaxIndex && y <= MatrixMaxIndex) ==> lit == {}
      ensures |lit| <= 1
    {
      ClearMatrix();
      if x <= MatrixMaxIndex && y <= MatrixMaxIndex {
        lit := lit + {(x, y)};
      }
    }

    /** `updateIMU`, with the dot position the tilt maps to as the input: at most every 10 ms the dot takes it. */
    method UpdateIMU(mappedX: nat, mappedY: nat, now: nat)
      modifies this`lastImuUpdate, this`dotX, this`dotY
      ensures Sub64(now, old(lastImuUpdate)) < ImuUpdateInterval ==>
        lastImuUpdate == old(lastImuUpdate) && dotX == old(dotX) && dotY == old(dotY)
      ensures Sub64(now, old(lastImuUpdate)) >= ImuUpdateInterval ==>
        lastImuUpdate == now && dotX == mappedX % U8 && dotY == mappedY % U8
    {
      if Sub64(now, lastImuUpdate) < ImuUpdateInterval {
        return;
      }
      lastImuUpdate := now;
      dotX := mappedX % U8;
      dotY := mappedY % U8;
    }

    /** The joystick step of the two menus: once 300 ms have passed since the last step, the vertical axis moves the index. */
    method MenuMove(axisY: nat, index: nat, count: nat, now: nat) returns (next: nat)
      requires 0 < count && index < count
      modifies this`shouldPlay, this`lastJoystick
      ensures next < count
      ensures var move := JoystickMove(axisY, now, old(lastJoystick));
        && next == MenuStep(index, move, count)
        && (move != 0 ==> shouldPlay && lastJoystick == now)
        && (move == 0 ==> shouldPlay == old(shouldPlay) && lastJoystick == old(lastJoystick))
    {
      var canMove := Sub64(now, lastJoystick) > JoystickInterval;
      var move := if canMove then ReadJoystickAxis(axisY) else 0;
      assert move == JoystickMove(axisY, now, lastJoystick);
      next := index;
      if move != 0 {
        shouldPlay := true;
        next := (index + move + count) % count;
        MenuStepIsModulo(index, move, count);
        lastJoystick := now;
      }
    }

    /** `handleMainMenu`: the joystick moves through the one entry, a press starts the demo. */
    method HandleMainMenu(axisY: nat, now: nat)
      requires Valid()
      modifies this`shouldPlay, this`lastJoystick, this`mainMenuIndex, this`btnPressed, this`appState
      ensures Valid() && !btnPressed && mainMenuIndex == 0
      ensures appState == if old(btnPressed) then Running else old(appState)
      ensures old(btnPressed) ==> shouldPlay
    {
      mainMenuIndex := MenuMove(axisY, mainMenuIndex, MainMenuCount, now);
      if btnPressed {
        shouldPlay := true;
        btnPressed := false;
        appState := Running;
      }
    }

    /** `handleRunning`: the dot follows the tilt, a press opens the pause menu. */
    method HandleRunning(mappedX: nat, mappedY: nat, now: nat)
      modifies this`lastImuUpdate, this`dotX, this`dotY, this`lit, this`shouldPlay, this`btnPressed, this`appState
      ensures !btnPressed && |lit| <= 1
      ensures dotX <= MatrixMaxIndex && dotY <= MatrixMaxIndex ==> lit == {(dotX, dotY)}
      ensures appState == if old(btnPressed) then PauseMenu else old(appState)
      ensures old(btnPressed) ==> shouldPlay
      ensures !old(btnPressed) ==> shouldPlay == old(shouldPlay)
    {
      UpdateIMU(mappedX, mappedY, now);
      DrawDot(dotX, dotY);
      if btnPressed {
        shouldPlay := true;
        btnPressed := false;
        appState := PauseMenu;
      }
    }

    /** `handlePauseMenu`: the joystick picks Resume or Main Menu, a press carries it out. */
    method HandlePauseMenu(axisY: nat, now: nat)
      requires Valid()
      modifies this`shouldPlay, this`lastJoystick, this`pauseMenuIndex, this`btnPressed, this`appState, this`lit
      ensures Valid() && !btnPressed
      ensures var chosen := MenuStep(old(pauseMenuIndex), JoystickMove(axisY, now, old(lastJoystick)), PauseMenuCount);
        && (!old(btnPressed) ==> appState == old(appState) && pauseMenuIndex == chosen && lit == old(lit))
        && (old(btnPressed) && chosen == 0 ==> appState == Running && pauseMenuIndex == 0 && lit == old(lit))
        && (old(btnPressed) && chosen == 1 ==> appState == MainMenu && pauseMenuIndex == 0 && lit == {})
    {
      pauseMenuIndex := MenuMove(axisY, pauseMenuIndex, PauseMenuCount, now);
      if btnPressed {
        btnPressed := false;
        shouldPlay := true;
        if pauseMenuIndex == 0 {
          appState := Running;
        } else {
          pauseMenuIndex := 0;
          appState := MainMenu;
          ClearMatrix();
        }
      }
    }

    /**
      `loop`: the button and the buzzer are updated, then the current
      screen's handler runs; the splash screen, which has none, gives way to
      the main menu.
     */
    method Loop(reading: bool, axisY: nat, mappedX: nat, mappedY: nat, now: nat, soundNow: nat)
      requires Valid()
      modifies this
      ensures Valid()
      ensures var pressed := old(btnPressed) || RegistersPress(now, old(lastButtonTime), old(lastButtonState), reading);
        && (old(appState) == Splash ==> appState == MainMenu && btnPressed == pressed)
        && (old(appState) != Splash ==> !btnPressed)
        && (old(appState) == MainMenu ==> appState == if pressed then Running else MainMenu)
        && (old(appState) == Running ==> appState == if pressed then PauseMenu else Running)
        && (old(appState) == PauseMenu && !pressed ==> appState == PauseMenu)
        && (old(appState) == PauseMenu && pressed ==> appState in {Running, MainMenu} && pauseMenuIndex == 0)
    {
      UpdateButton(reading, now);
      UpdateSound(now, soundNow);
      match appState
      case MainMenu => HandleMainMenu(axisY, now);
      case Running => HandleRunning(mappedX, mappedY, now);
      case PauseMenu => HandlePauseMenu(axisY, now);
      case Splash => appState := MainMenu;
    }
  }
}
