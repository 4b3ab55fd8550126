/**
  Input classification, button debounce, menu index arithmetic and the
  settings bytes of the final game (Final/main.cpp). These are the
  decisions the handlers of the main loop take; the handlers themselves, which
  apply them to the globals, are in FinalGame.
 */
module FinalInput {
  import opened Uint

  const JoyCenterMin: nat := 400
  const JoyCenterMax: nat := 600
  const DebounceDelay: nat := 50
  const MoveCooldown: nat := 200
  const MenuMoveCooldown: nat := 250
  const BackToMenuDelay: nat := 100
  const StarBlinkPeriod: nat := 300
  const PlayerBlinkPeriod: nat := 150
  const BrightnessMinUser: nat := 1
  const BrightnessMaxUser: nat := 10
  const MainMenuCount: nat := 5
  const SettingsCount: nat := 6

  /** A unit step on the grid: `deltaCol`, `deltaRow`. */
  datatype Delta = Delta(dc: int, dr: int)

  /** At most one axis moves, by one cell. */
  predicate UnitStep(d: Delta) {
    (d.dc == 0 && -1 <= d.dr <= 1) || (d.dr == 0 && -1 <= d.dc <= 1)
  }

  /** The joystick branch of `handleGamePlay`: the Y axis is read first, up is row - 1. */
  function JoyDelta(x: nat, y: nat): (d: Delta)
    ensures UnitStep(d)
    ensures (y < JoyCenterMin || y > JoyCenterMax) ==> d.dc == 0 && d.dr != 0
    ensures d == Delta(0, 0) <==> JoyCenterMin <= x <= JoyCenterMax && JoyCenterMin <= y <= JoyCenterMax
  {
    if y < JoyCenterMin then Delta(0, -1)
    else if y > JoyCenterMax then Delta(0, 1)
    else if x < JoyCenterMin then Delta(-1, 0)
    else if x > JoyCenterMax then Delta(1, 0)
    else Delta(0, 0)
  }

  /** Stick pushed to either side on the X axis, the flip gesture of the toggles. */
  predicate SidewaysX(x: nat) {
    x < JoyCenterMin || x > JoyCenterMax
  }

  /** `(i + 1) % n` */
  function WrapNext(i: nat, n: nat): (j: nat)
    requires n > 0
    ensures j < n
  {
    (i + 1) % n
  }

  /** `(i - 1 + n) % n` */
  function WrapPrev(i: nat, n: nat): (j: nat)
    requires n > 0
    ensures j < n
  {
    (i - 1 + n) % n
  }

  lemma ModBelow(x: int, n: int)
    requires 0 <= x < n
    ensures x % n == x
  {
  }

  lemma ModOnce(x: int, n: int)
    requires 0 < n <= x < 2 * n
    ensures x % n == x - n
  {
    assert x == n + (x - n);
  }

  /** The two directions undo each other, and each wraps at its end. */
  lemma WrapUndo(i: nat, n: nat)
    requires 0 <= i < n
    ensures WrapPrev(WrapNext(i, n), n) == i && WrapNext(WrapPrev(i, n), n) == i
    ensures WrapNext(n - 1, n) == 0 && WrapPrev(0, n) == n - 1
  {
    ModOnce(n, n);
    ModBelow(n - 1, n);
    if i + 1 < n {
      ModBelow(i + 1, n);
      ModOnce(i + n, n);
    } else {
      ModOnce(i + 1, n);
    }
    if i > 0 {
      ModOnce(i - 1 + n, n);
      ModBelow(i, n);
    } else {
      ModBelow(n - 1, n);
    }
  }

  /** A menu cursor after one vertical reading: up selects the next entry, down the previous one. */
  function MenuStep(i: nat, n: nat, y: nat): (j: nat)
    requires i < n
    ensures j < n
    ensures JoyCenterMin <= y <= JoyCenterMax ==> j == i
  {
    if y < JoyCenterMin then WrapNext(i, n) else if y > JoyCenterMax then WrapPrev(i, n) else i
  }

  /** The brightness slider: left lowers and right raises by one, never leaving [1, 10]. */
  function AdjustBrightness(v: nat, x: nat): (r: nat)
    ensures BrightnessMinUser <= v <= BrightnessMaxUser ==> BrightnessMinUser <= r <= BrightnessMaxUser
    ensures r == v || r == v + 1 || r + 1 == v
    ensures x < JoyCenterMin ==> r == (if v > BrightnessMinUser then v - 1 else v)
    ensures x > JoyCenterMax ==> r == (if v < BrightnessMaxUser then v + 1 else v)
    ensures JoyCenterMin <= x <= JoyCenterMax ==> r == v
  {
    if x < JoyCenterMin && v > BrightnessMinUser then v - 1
    else if x > JoyCenterMax && v < BrightnessMaxUser then v + 1
    else v
  }

  /** The button globals `readInputs` maintains. */
  datatype Button = Button(pressed: bool, justPressed: bool, lastReading: bool, lastChange: nat)

  /**
    `readInputs` for the button (`reading` is true while the pin is LOW): a
    change of the raw reading restarts the debounce clock; once the reading has
    been stable for more than 50 ms it becomes the pressed state, and a new
    press raises `justPressed` for this tick only.
   */
  function Debounce(b: Button, reading: bool, now: nat): (r: Button)
    ensures r.lastReading == reading
    ensures r.lastChange == if reading != b.lastReading then now else b.lastChange
    ensures r.pressed == (if Sub32(now, r.lastChange) > DebounceDelay then reading else b.pressed)
    ensures r.justPressed <==> r.pressed && !b.pressed
  {
    var lastChange := if reading != b.lastReading then now else b.lastChange;
    var stable := Sub32(now, lastChange) > DebounceDelay;
    var pressed := if stable && reading != b.pressed then reading else b.pressed;
    Button(pressed, stable && reading != b.pressed && pressed, reading, lastChange)
  }

  /** A reading that has just changed is never taken over: bounces are ignored. */
  lemma BouncesIgnored(b: Button, reading: bool, now: nat)
    requires reading != b.lastReading
    ensures Debounce(b, reading, now).pressed == b.pressed
    ensures !Debounce(b, reading, now).justPressed
  {
  }

  /** Two ticks in a row never both report a new press. */
  lemma NoTwoPressesInARow(b: Button, r1: bool, t1: nat, r2: bool, t2: nat)
    ensures Debounce(b, r1, t1).justPressed ==> !Debounce(Debounce(b, r1, t1), r2, t2).justPressed
  {
  }

  /**
    The long press clears `btnPressed` to consume the press, but while the
    button stays down the next `readInputs` takes the stable reading again and
    reports a fresh press.
   */
  lemma ConsumedPressReappears(b: Button, now: nat)
    requires b.lastReading && Sub32(now, b.lastChange) > DebounceDelay
    ensures Debounce(b.(pressed := false), true, now).justPressed
  {
  }

  /** The four settings bytes at EEPROM addresses 0 to 3. */
  datatype Settings = Settings(lcdBrightness: nat, matrixBrightness: nat, sound: bool, imu: bool)

  const LcdAddress: nat := 0
  const MatrixAddress: nat := 1
  const SoundAddress: nat := 2
  const ImuAddress: nat := 3

  /** An EEPROM byte; a cell never written reads 0xFF. */
  function ReadByte(store: map<nat, nat>, a: nat): nat {
    if a in store then store[a] else 0xFF
  }

  /** `loadSettings`: brightness constrained to [1, 10], the flags on only for a stored 1. */
  function LoadSettings(store: map<nat, nat>): (s: Settings)
    ensures BrightnessMinUser <= s.lcdBrightness <= BrightnessMaxUser
    ensures BrightnessMinUser <= s.matrixBrightness <= BrightnessMaxUser
    ensures s.sound <==> ReadByte(store, SoundAddress) == 1
    ensures s.imu <==> ReadByte(store, ImuAddress) == 1
  {
    Settings(
      Clamp(ReadByte(store, LcdAddress), BrightnessMinUser, BrightnessMaxUser) as nat,
      Clamp(ReadByte(store, MatrixAddress), BrightnessMinUser, BrightnessMaxUser) as nat,
      ReadByte(store, SoundAddress) == 1,
      ReadByte(store, ImuAddress) == 1)
  }

  /** `saveSettings`: the four bytes written over whatever the store held. */
  function SaveSettings(store: map<nat, nat>, s: Settings): (m: map<nat, nat>)
    ensures forall a :: a in store ==> a in m
    ensures forall a :: a in store && a > ImuAddress ==> m[a] == store[a]
  {
    store[LcdAddress := s.lcdBrightness][MatrixAddress := s.matrixBrightness]
      [SoundAddress := if s.sound then 1 else 0][ImuAddress := if s.imu then 1 else 0]
  }

  /** Settings in range survive a save and a load unchanged. */
  lemma SettingsRoundTrip(store: map<nat, nat>, s: Settings)
    requires BrightnessMinUser <= s.lcdBrightness <= BrightnessMaxUser
    requires BrightnessMinUser <= s.matrixBrightness <= BrightnessMaxUser
    ensures LoadSettings(SaveSettings(store, s)) == s
  {
  }

  /** A board whose settings were never saved starts at full brightness, silent, on the joystick. */
  lemma ErasedSettings()
    ensures LoadSettings(map[]) == Settings(BrightnessMaxUser, BrightnessMaxUser, false, false)
  {
  }
}
