/**
  The input side of the second draft: the joystick driver
  (Checkpoint2/lib/JoystickController), which classifies the stick position
  and debounces the button, and the hardware controller
  (Checkpoint2/lib/HardwareController), which merges the joystick with the
  tilt sensor into one set of input flags, rate-limits moves and forwards
  sound effects to the buzzer driver. Analog readings, the button level,
  the tilt direction and the clock are parameters.
 */
module Cp2Input {
  import opened Uint
  import Cp2Audio

  /** `JoystickDirection`; the tilt sensor's `TiltDirection` has the same five values. */
  datatype Direction = NoDirection | Up | Down | Left | Right

  const CenterMin: nat := 300
  const CenterMax: nat := 700
  const DebounceDelay: nat := 50
  const DefaultReading: nat := 512
  const MoveCooldown: nat := 200

  /** The direction `update` reads off the two axes: the vertical axis first, then the horizontal one. */
  function Classify(x: nat, y: nat): Direction {
    if y < CenterMin then Up
    else if y > CenterMax then Down
    else if x < CenterMin then Left
    else if x > CenterMax then Right
    else NoDirection
  }

  /** The stick reads as centred exactly when both axes are inside the dead zone. */
  lemma CentredIffDeadZone(x: nat, y: nat)
    ensures Classify(x, y) == NoDirection <==> CenterMin <= x <= CenterMax && CenterMin <= y <= CenterMax
  {
  }

  /** A vertical deflection wins whatever the horizontal axis says; a horizontal one counts only with the vertical axis centred. */
  lemma VerticalFirst(x: nat, y: nat, x': nat)
    ensures (y < CenterMin || y > CenterMax) ==> Classify(x, y) == Classify(x', y) && Classify(x, y) in {Up, Down}
    ensures Classify(x, y) in {Left, Right} ==> CenterMin <= y <= CenterMax
  {
  }

  class Joystick {
    var xValue: nat
    var yValue: nat
    var buttonPressed: bool
    var lastButtonState: bool
    var lastDebounceTime: nat
    var currentDirection: Direction
    var lastDirection: Direction
    /** The function-static `lastPressed` of `isButtonJustPressed`. */
    var lastPressed: bool

    constructor ()
      ensures xValue == DefaultReading && yValue == DefaultReading
      ensures !buttonPressed && !lastButtonState && lastDebounceTime == 0 && !lastPressed
      ensures currentDirection == NoDirection && lastDirection == NoDirection
    {
      xValue := DefaultReading;
      yValue := DefaultReading;
      buttonPressed := false;
      lastButtonState := false;
      lastDebounceTime := 0;
      currentDirection := NoDirection;
      lastDirection := NoDirection;
      lastPressed := false;
    }

    /** `hasNewDirection` */
    predicate HasNewDirection()
      reads this`currentDirection, this`lastDirection
    {
      currentDirection != lastDirection && currentDirection != NoDirection
    }

    /**
      `update`: new axis readings and a new direction, the old one kept as
      the last; any change of the raw button reading restarts the debounce
      timer, and the debounced state follows the reading once the timer is
      more than 50 ms old.
     */
    method Update(x: nat, y: nat, reading: bool, now: nat)
      modifies this`xValue, this`yValue, this`lastDirection, this`currentDirection
      modifies this`lastDebounceTime, this`buttonPressed, this`lastButtonState
      ensures xValue == x && yValue == y
      ensures lastDirection == old(currentDirection) && currentDirection == Classify(x, y)
      ensures lastButtonState == reading
      ensures lastDebounceTime == if reading != old(lastButtonState) then now else old(lastDebounceTime)
      ensures buttonPressed == if Sub32(now, lastDebounceTime) > DebounceDelay then reading else old(buttonPressed)
      ensures buttonPressed != old(buttonPressed) ==>
        buttonPressed == reading && reading == old(lastButtonState) && Sub32(now, old(lastDebounceTime)) > DebounceDelay
    {
      xValue := x;
      yValue := y;
      lastDirection := currentDirection;
      if yValue < CenterMin {
        currentDirection := Up;
      } else if yValue > CenterMax {
        currentDirection := Down;
      } else if xValue < CenterMin {
        currentDirection := Left;
      } else if xValue > CenterMax {
        currentDirection := Right;
      } else {
        currentDirection := NoDirection;
      }
      if reading != lastButtonState {
        lastDebounceTime := now;
      }
      if Sub32(now, lastDebounceTime) > DebounceDelay {
        buttonPressed := reading;
      }
      lastButtonState := reading;
    }

    /** `clearDirection`: the current direction is no longer new. */
    method ClearDirection()
      modifies this`lastDirection
      ensures lastDirection == currentDirection && !HasNewDirection()
    {
      lastDirection := currentDirection;
    }

    /** `isButtonJustPressed`: pressed now and not at the previous call, so two calls in a row never both answer yes. */
    method IsButtonJustPressed() returns (justPressed: bool)
      modifies this`lastPressed
      ensures justPressed <==> buttonPressed && !old(lastPressed)
      ensures lastPressed == buttonPressed
      ensures justPressed ==> lastPressed
    {
      justPressed := buttonPressed && !lastPressed;
      lastPressed := buttonPressed;
    }
  }

  /** `InputState`: the flags the game controller reads each tick. */
  datatype InputState = InputState(
    upPressed: bool,
    downPressed: bool,
    leftPressed: bool,
    rightPressed: bool,
    buttonPressed: bool,
    buttonJustPressed: bool)

  /** How many of the four direction flags are set. */
  function DirectionsSet(s: InputState): nat {
    (if s.upPressed then 1 else 0) + (if s.downPressed then 1 else 0)
    + (if s.leftPressed then 1 else 0) + (if s.rightPressed then 1 else 0)
  }

  class Hardware {
    const joystick: Joystick
    const audio: Cp2Audio.AudioController
    /** The tilt sensor's `isAvailable()`: whether its `begin` found the sensor. */
    var imuAvailable: bool
    var useIMUForGameplay: bool
    var lastMoveTime: nat
    var currentInput: InputState

    ghost predicate Valid()
      reads this, audio
    {
      audio.Valid()
    }

    constructor (joy: Joystick, audioCtrl: Cp2Audio.AudioController)
      requires audioCtrl.Valid()
      ensures Valid() && joystick == joy && audio == audioCtrl
      ensures !useIMUForGameplay && !imuAvailable && lastMoveTime == 0
      ensures currentInput == InputState(false, false, false, false, false, false)
    {
      joystick := joy;
      audio := audioCtrl;
      imuAvailable := false;
      useIMUForGameplay := false;
      lastMoveTime := 0;
      currentInput := InputState(false, false, false, false, false, false);
    }

    /** `init`: tilt control is switched on exactly when the sensor starts (`sensorFound`). */
    method Init(sensorFound: bool)
      requires !useIMUForGameplay
      modifies this`imuAvailable, this`useIMUForGameplay
      ensures imuAvailable == sensorFound && useIMUForGameplay == sensorFound && IsIMUMode() == sensorFound
    {
      imuAvailable := sensorFound;
      if sensorFound {
        useIMUForGameplay := true;
      }
    }

    /** `isIMUMode` */
    predicate IsIMUMode()
      reads this`useIMUForGameplay, this`imuAvailable
    {
      useIMUForGameplay && imuAvailable
    }

    /** `canMove`: at least 200 ms since the last move. */
    predicate CanMove(now: nat)
      reads this`lastMoveTime
    {
      Sub32(now, lastMoveTime) >= MoveCooldown
    }

    /** `resetMoveCooldown`: no move is allowed at the same instant. */
    method ResetMoveCooldown(now: nat)
      modifies this`lastMoveTime
      ensures lastMoveTime == now && !CanMove(now)
    {
      lastMoveTime := now;
    }

    /** `setIMUMode`: without the sensor the request is ignored. */
    method SetIMUMode(enabled: bool)
      modifies this`useIMUForGameplay
      ensures imuAvailable ==> useIMUForGameplay == enabled && IsIMUMode() == enabled
      ensures !imuAvailable ==> useIMUForGameplay == old(useIMUForGameplay) && !IsIMUMode()
    {
      if imuAvailable {
        useIMUForGameplay := enabled;
      }
    }

    /**
      `update`: the joystick and the buzzer are updated, every flag is
      cleared, the button flags are taken from the joystick, one direction
      flag is set from the stick and, in tilt mode, the tilt direction is
      OR-ed in.
     */
    method Update(x: nat, y: nat, reading: bool, tilt: Direction, now: nat)
      requires Valid()
      modifies this`currentInput, joystick, audio
      ensures Valid()
      ensures var dir := joystick.currentDirection; var tilted := IsIMUMode();
        && dir == Classify(x, y)
        && (currentInput.upPressed <==> dir == Up || (tilted && tilt == Up))
        && (currentInput.downPressed <==> dir == Down || (tilted && tilt == Down))
        && (currentInput.leftPressed <==> dir == Left || (tilted && tilt == Left))
        && (currentInput.rightPressed <==> dir == Right || (tilted && tilt == Right))
      ensures !IsIMUMode() ==> DirectionsSet(currentInput) <= 1
      ensures currentInput.buttonPressed == joystick.buttonPressed
      ensures currentInput.buttonJustPressed <==> joystick.buttonPressed && !old(joystick.lastPressed)
      ensures joystick.lastPressed == joystick.buttonPressed
    {
      Poll(x, y, reading, now);
      var button := joystick.buttonPressed;
      var just := joystick.IsButtonJustPressed();
      var dir := joystick.currentDirection;
      currentInput := Merge(dir, useIMUForGameplay && imuAvailable, tilt, button, just);
    }

    /** The device half of `update`: the joystick takes its readings and the buzzer advances. */
    method Poll(x: nat, y: nat, reading: bool, now: nat)
      requires Valid()
      modifies joystick, audio
      ensures Valid() && joystick.currentDirection == Classify(x, y)
      ensures joystick.lastPressed == old(joystick.lastPressed)
    {
      joystick.Update(x, y, reading, now);
      audio.Update(now);
    }

    /**
      The flag-building part of `update`: all flags cleared, the button flags
      copied, the stick's direction set and, in tilt mode, the tilt's OR-ed in.
     */
    static method Merge(joyDir: Direction, tilted: bool, tilt: Direction, button: bool, just: bool)
      returns (input: InputState)
      ensures input.upPressed <==> joyDir == Up || (tilted && tilt == Up)
      ensures input.downPressed <==> joyDir == Down || (tilted && tilt == Down)
      ensures input.leftPressed <==> joyDir == Left || (tilted && tilt == Left)
      ensures input.rightPressed <==> joyDir == Right || (tilted && tilt == Right)
      ensures !tilted ==> DirectionsSet(input) <= 1
      ensures input.buttonPressed == button && input.buttonJustPressed == just
    {
      input := InputState(false, false, false, false, false, false);
      input := input.(buttonPressed := button);
      input := input.(buttonJustPressed := just);
      if joyDir == Up {
        input := input.(upPressed := true);
      }
      if joyDir == Down {
        input := input.(downPressed := true);
      }
      if joyDir == Left {
        input := input.(leftPressed := true);
      }
      if joyDir == Right {
        input := input.(rightPressed := true);
      }
      if tilted {
        if tilt == Up {
          input := input.(upPressed := true);
        }
        if tilt == Down {
          input := input.(downPressed := true);
        }
        if tilt == Left {
          input := input.(leftPressed := true);
        }
        if tilt == Right {
          input := input.(rightPressed := true);
        }
      }
    }

    /** The `play...` family: each forwards one sound effect to the buzzer driver. */
    method Play(e: Cp2Audio.SoundEffect, now: nat)
      requires Valid()
      modifies audio
      ensures Valid() && audio.soundEnabled == old(audio.soundEnabled)
      ensures !audio.soundEnabled ==> unchanged(audio)
      ensures audio.soundEnabled ==> audio.playing && audio.sequence == Cp2Audio.TableOf(e) && audio.index == 0
    {
      audio.PlaySound(e, now);
    }
  }
}
