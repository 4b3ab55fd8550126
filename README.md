# Maze Master — a verified model of the game logic

Maze Master is an Arduino maze game in three drafts. The player steers a dot
through walled mazes shown on an 8x8 LED matrix and collects blinking stars.
Once the level's quota is collected, the player leaves through the exit.
An LCD shows menus and the score, a buzzer plays tone sequences, and the
input is a joystick with a push button, optionally with a tilt sensor.

The project models the game logic of all three drafts in Dafny. The source
changes global variables and class fields step by step, so the model is
imperative: Dafny classes whose fields are those variables, and methods with
`modifies` clauses and loop invariants. Each method is proved against
specification functions, and lemmas state the properties of those functions.

- **Final version** (`Final/main.cpp`). It has six modules:
  - `FinalLevels`: the three mazes and the wall test.
  - `FinalAudio`: the tone scheduler.
  - `FinalInput`: joystick reading, button debouncing, menu cursors and the settings stored in EEPROM.
  - `FinalMaze`: star placement, movement, star collection, the exit and the time bonus.
  - `FinalScores`: the high-score table and its EEPROM image.
  - `FinalViewport`: the 8x8 frame buffer.

  `FinalGame` ties them into the `loop` state machine: one handler per screen, the blink clocks, the long-press return to the menu and the fallback for unknown states.
- **Second draft** (`Checkpoint2/lib`). `Cp2Model` models the grid-based `GameModel`: a 3x16x16 cell array decoded from row masks, and a checksummed score table in EEPROM. The other modules are:
  - `Cp2Audio`: the buzzer driver.
  - `Cp2Matrix`: the matrix renderer with its 8-byte buffer.
  - `Cp2Input`: the joystick and the hardware controller.
  - `Cp2Controller`: the rate-limited game controller.
- **First draft** (`Checkpoint1/main.cpp`). `Cp1Demo` models the three-state menu/run/pause demo.
- `Uint` holds the helpers for fixed-width integer arithmetic: the `uint32_t` timestamp differences that wrap, the `uint16_t` score, and the narrowing casts.

**How the model treats the hardware**

- The clock (`millis()`) is a parameter. In the Final `loop`, `now` is the `currentTime` read at the top of `loop`, and `inputNow` is the later reading inside `readInputs`. In the Checkpoint1 `loop`, `now` is `timeNow` and `soundNow` is the reading `updateSound` takes when it starts a beep.
- `random()` is an oracle sequence `draws`: attempt `k` of the placement loop reads `draws[2k]` and `draws[2k+1]`, reduced modulo the maze side.
- The analog stick readings, the button level and the tilt direction are parameters.
- EEPROM is a map from address to byte or record.
- The buzzer is the frequency last started, or 0 when it is silent.
- The LED matrix is the byte buffer (Final, second draft) or the set of lit cells (first draft).

Where the code and its comments disagree, the model follows the code. Four cases where the code evidently does not do what was intended are listed under "Findings". For each, the model keeps the code's behaviour in an as-written member and uses the corrected behaviour elsewhere. Five more behaviours of the code are modelled as written:

- The Final long-press gesture measures from the last change of the raw button reading, not from the start of the press.
- The Final settings "Back to Menu" entry stays in the settings menu. A press in the brightness slider leads to `STATE_MENU_SETTINGS_BACK`, a state without a handler, and the `loop` fallback then sends it to the main menu.
- The Checkpoint1 `loop` reads `timeNow` before `updateSound` stamps a new beep with a second reading (`soundNow`). When the two differ, the beep's `uint64_t` age wraps and the beep is cut in the same call (`Cp1Demo.BeepCutAcrossTick`).
- The Final `loop` reads the clock before `readInputs` reads it again. When the two readings differ by a millisecond and the button is released in between, the long-press test wraps around and sends the game to the main menu (`FinalGame.ReleaseAcrossTickFiresLongPress`).
- The Final high-score load has no checksum. On an erased EEPROM the table reads as `0xFFFF` scores, which no `uint16_t` score can beat (`FinalScores.ErasedTableNeverQualifies`).

## Model

| member | source | states |
|---|---|---|
| FinalLevels.Catalog | Final/main.cpp:489-523 | each level index gives a well-formed maze: side 8, 12 or 16, quota 2, 6 or 10, exit column 6, 10 or 14, start (1,1), exit row side - 2, any index above 1 giving the third |
| FinalLevels.PictureBit | Final/main.cpp:212-267 | each row picture is the firmware's 16-bit row mask read MSB first: a column is `#` exactly when its bit is set |
| FinalLevels.IsWall | Final/main.cpp:445-452 | a cell is a wall when it lies off the level's side in either coordinate, or when its row picture shows `#` there |
| FinalLevels.WallIsMaskBit | Final/main.cpp:445-452 | inside the grid, a cell is a wall exactly when bit 15 - c of row r's 16-bit mask is set (MSB is column 0) |
| FinalLevels.Distance | Final/main.cpp:467-468 | the Manhattan distance is 0 exactly when the two cells coincide |
| FinalLevels.StartAndExitOpen | Final/main.cpp:212-267 | in every level the start and the exit cell are open, so the player never starts in a wall and the exit is reachable as a cell |
| FinalLevels.FirstLevelScenario | Final/main.cpp:212-229 | first level: side 8, start (1,1), exit (6,6), quota 2; (0,0) is a wall, (1,1) is open, anything off the grid is a wall |
| FinalAudio.Audio.constructor | Final/main.cpp:195-201 | silent, nothing playing, sound on or off as loaded |
| FinalAudio.Audio.Play | Final/main.cpp:339-354 | with sound off nothing changes; otherwise whatever plays is replaced by the new sequence from index 0, its first tone sounding from now |
| FinalAudio.Audio.Update | Final/main.cpp:356-372 | nothing changes until the current tone's duration has elapsed; then the index advances by exactly one, playing stops exactly when the index reaches the count, and otherwise the next tone starts now |
| FinalAudio.Audio.Toggle | Final/main.cpp:830 | the sound setting flips and the scheduler stays consistent |
| FinalInput.JoyDelta | Final/main.cpp:1001-1004 | the stick step is a unit step, never diagonal; a vertical deflection always gives a vertical step; no step exactly when both axes are in the dead zone |
| FinalInput.WrapNext | Final/main.cpp:622 | `(i + 1) % n` stays below n |
| FinalInput.WrapPrev | Final/main.cpp:626 | `(i - 1 + n) % n` stays below n |
| FinalInput.WrapUndo | Final/main.cpp:620-630 | next and previous undo each other; the last entry is followed by the first and the first is preceded by the last |
| FinalInput.MenuStep | Final/main.cpp:620-630 | a vertical reading keeps the cursor inside the menu and leaves it alone in the dead zone |
| FinalInput.AdjustBrightness | Final/main.cpp:774-782 | the slider moves by at most one, left lowers and right raises, and a value in [1, 10] stays in [1, 10] |
| FinalInput.Debounce | Final/main.cpp:424-443 | the debounce timer restarts on any change of the reading; the pressed state follows the reading only when the timer is over 50 ms old; a press is new exactly when it was not pressed before |
| FinalInput.BouncesIgnored | Final/main.cpp:429-441 | a reading that has just changed never changes the pressed state and never reports a new press |
| FinalInput.NoTwoPressesInARow | Final/main.cpp:433-441 | two consecutive ticks never both report a new press |
| FinalInput.ConsumedPressReappears | Final/main.cpp:429-441 | a press the long-press gesture has cleared is reported again while the button stays held |
| FinalInput.LoadSettings | Final/main.cpp:374-386 | both brightness values land in [1, 10]; the sound and tilt flags are on exactly when their stored byte is 1 |
| FinalInput.SaveSettings | Final/main.cpp:388-393 | every address the store held is still there, and every address above the four settings bytes keeps its value |
| FinalInput.SettingsRoundTrip | Final/main.cpp:374-393 | settings in range survive a save followed by a load unchanged |
| FinalInput.ErasedSettings | Final/main.cpp:374-386 | a board whose settings were never saved starts at full brightness, with sound off and tilt control off |
| FinalMaze.RandomBelow | Final/main.cpp:460-461 | the oracle's draw reduced to a coordinate lies below the maze side |
| FinalMaze.AttemptPlaced | Final/main.cpp:463-485 | one attempt of the placement loop keeps the placed stars a possible outcome of the loop |
| FinalMaze.ValidIsPlaced | Final/main.cpp:455-487 | valid stars on distinct cells pass the loop's wall, distance and overlap tests in order |
| FinalMaze.PlacedIsValid | Final/main.cpp:455-487 | stars the loop accepts are off walls, at distance 3 or more from the start and 2 or more from the exit, on pairwise distinct cells |
| FinalMaze.PlaceFromStep | Final/main.cpp:458-486 | one unfolding of the loop: attempt k draws its cell from the oracle and tests it against the stars so far |
| FinalMaze.PlaceFromDone | Final/main.cpp:458 | the loop stops once the quota is met or 100 attempts are spent |
| FinalMaze.PlaceFromPlaced | Final/main.cpp:458-486 | whatever the draws, the loop only appends stars that pass all its tests |
| FinalMaze.PlaceFromLength | Final/main.cpp:458-486 | the loop never exceeds the quota and accepts at most one star per remaining attempt |
| FinalMaze.PlacementSound | Final/main.cpp:455-487 | the stars of `placeEntities` are valid, distinct, at most the quota and at most 100, and never on the start or the exit |
| FinalMaze.RemoveAtIndex | Final/main.cpp:1023-1024 | swap-with-last removal shortens the list by one and moves the last star into the removed slot |
| FinalMaze.FindStar | Final/main.cpp:1020-1021 | the scan's first star on the cell: below the length exactly when a star is there, a star on the cell, and no star on the cell before it |
| FinalMaze.SwapOutIsRemoveAt | Final/main.cpp:1023-1024 | overwriting the star with the last entity and shortening the list is exactly `RemoveAt` |
| FinalMaze.RemoveAtMultiset | Final/main.cpp:1023-1024 | the removal takes away exactly the removed star, and the rest stay as the same multiset |
| FinalMaze.RemoveAtDistinct | Final/main.cpp:1020-1028 | after the removal the stars stay distinct and none is left on the collected cell |
| FinalMaze.RemoveAtSound | Final/main.cpp:1020-1028 | the removal keeps the placement valid, drops exactly the collected star and leaves none on its cell |
| FinalMaze.ClearBonus | Final/main.cpp:1037-1039 | the intended bonus: 6000 less 100 per whole second while positive, otherwise 0, never above 6000 |
| FinalMaze.BonusAsWritten | Final/main.cpp:1037-1038 | the bonus as the `uint32_t` subtraction computes it is a 32-bit value |
| FinalMaze.ScoreAfterClearAsWritten | Final/main.cpp:1039 | the `uint16_t` score after adding the wrapped bonus is a 16-bit value |
| FinalMaze.BonusAgreesWithinMinute | Final/main.cpp:1037-1039 | up to 60 seconds the code's bonus equals the intended one |
| FinalMaze.BonusWrapsAfterMinute | Final/main.cpp:1037-1039 | after 61 s the code's bonus is 2^32 - 100, and a score of 1000 drops to 900 where the intended bonus leaves it at 1000 |
| FinalMaze.ClearBonusMonotone | Final/main.cpp:1037-1039 | a slower clear never earns a larger bonus |
| FinalMaze.Maze.constructor | Final/main.cpp:170-189 | power-on values: level 0, score 0, no stars, player at (0,0), timers 0 |
| FinalMaze.Maze.FindOverlap | Final/main.cpp:473-480 | the duplicate test answers yes exactly when a live entity sits on the cell |
| FinalMaze.Maze.PlaceAttempt | Final/main.cpp:459-485 | one loop iteration on the entity array does what the placement function's step does, and stays within the quota |
| FinalMaze.Maze.PlaceEntities | Final/main.cpp:455-487 | the entity array ends up holding exactly the placement for the oracle's draws, within the quota |
| FinalMaze.Maze.CollectAt | Final/main.cpp:1020-1029 | a star is collected exactly when one is on the player's cell; the first such star is removed by swap-with-last, and score +10 (16-bit) and collected +1; otherwise stars, score and count are unchanged |
| FinalMaze.Maze.InitLevel | Final/main.cpp:489-523 | loads level idx from the catalog, zeroes the collected count, puts the player on the start, places the stars and restarts the level timer, keeping the score |
| FinalMaze.Maze.LoadLevel | Final/main.cpp:489-522 | the level's descriptor is the catalog entry for the index (well-formed, at most 10 stars), its collected count 0, the player on its start, the level timer restarted |
| FinalMaze.Maze.StartGame | Final/main.cpp:525-530 | score 0, first level loaded with its stars, player on its start, timer restarted |
| FinalMaze.Maze.ClearLevel | Final/main.cpp:1035-1048 | the clamped bonus is added; after the third level it is a victory and the maze stays put, otherwise the next level is loaded fresh |
| FinalMaze.Maze.MoveAndCollect | Final/main.cpp:1015-1029 | the player moves onto the open target and the move clock restarts; a star is collected exactly when one is there, and then the first star on the cell leaves by swap-with-last (none left on the cell), the score gains 10 in 16 bits and the count 1; otherwise stars, score and count are unchanged |
| FinalMaze.Maze.CheckExit | Final/main.cpp:1031-1050 | the level clears exactly when the player is on the exit and the quota is met; otherwise nothing changes; a clear adds the clamped time bonus and loads the next catalog level with its placed stars, or on the last level is the victory and leaves the maze as it was |
| FinalMaze.Maze.TryMove | Final/main.cpp:1007-1053 | a move is blocked exactly when its target is off the grid or a wall, and a blocked move changes nothing; any other move has exactly the effect `Stepped` describes for its target (collection, clear test, score, next level or victory) |
| FinalMaze.Maze.Advance | Final/main.cpp:1015-1050 | an accepted move onto (c, r) has exactly the `Stepped` effect: a star is collected iff one is on the cell; the level clears iff the cell is the exit and the quota is met counting that star; the score is +10 for the star then + the clamped bonus for a clear; without a clear or on the victory the level, timer and player position (on the target) stay and the stars are the scan's result; a clear before the last level loads the next catalog level with its placed stars |
| FinalScores.FirstBelow | Final/main.cpp:1200-1202 | the first slot the score beats: every slot before it is at least the score, and the slot itself is below it |
| FinalScores.QualifiesIffSlot | Final/main.cpp:1132-1138 | the victory screen's test (some entry is beaten) holds exactly when an insertion slot exists |
| FinalScores.QualifiesIffBeatsLast | Final/main.cpp:1132-1138 | on a descending table, beating some entry is the same as beating the last one |
| FinalScores.InsertedSound | Final/main.cpp:1200-1211 | insertion keeps three entries and descending order, puts the new entry in its slot, and changes nothing when no entry is beaten |
| FinalScores.InsertedSlots | Final/main.cpp:1203-1208 | entries above the slot stay, the new entry takes the slot, and entries below move down one |
| FinalScores.InsertedMultiset | Final/main.cpp:1200-1211 | insertion drops exactly the last entry and adds the new one |
| FinalScores.SanitizeChar | Final/main.cpp:401 | the load's character check as written (`&&` binds tighter than `\|\|`) on the AVR's signed `char`: characters below 'A' and bytes of 0x80 or above (negative) become '-', capitals stay, and the characters between 'Z' and 0x80 become '-' only when the score is non-zero |
| FinalScores.SanitizeName | Final/main.cpp:400-402 | every character of a loaded name goes through that check, and the length is kept |
| FinalScores.SanitizeShowable | Final/main.cpp:400-402 | a name of capitals and dashes passes the check unchanged |
| FinalScores.SaveLoadRoundTrip | Final/main.cpp:395-414 | saving then loading gives back every entry whose name is showable |
| FinalScores.ErasedTableNeverQualifies | Final/main.cpp:395-406 | with nothing stored, each entry loads as "---" with score 0xFFFF, and no 16-bit score qualifies for the table |
| FinalScores.NextLetter | Final/main.cpp:1167-1168 | letter up stays within 'A'..'Z' |
| FinalScores.PrevLetter | Final/main.cpp:1171-1172 | letter down stays within 'A'..'Z' |
| FinalScores.LettersUndo | Final/main.cpp:1166-1174 | letter up and letter down undo each other; after 'Z' comes 'A' and before 'A' comes 'Z' |
| FinalScores.CursorsUndo | Final/main.cpp:1177-1183 | the name cursor stays below 3 and its two moves undo each other |
| FinalScores.HighScores.constructor | Final/main.cpp:192 | the table as the board starts it, with the EEPROM contents given |
| FinalScores.HighScores.IsHighScore | Final/main.cpp:1132-1138 | the loop answers yes exactly when the score beats some entry |
| FinalScores.HighScores.Insert | Final/main.cpp:1200-1211 | the table becomes the insertion of the new entry (unchanged when nothing is beaten) |
| FinalScores.HighScores.PutAt | Final/main.cpp:1203-1208 | entries from the slot on move down, the last falls off, and the new entry takes the slot |
| FinalScores.HighScores.ShiftDown | Final/main.cpp:1203-1205 | entries up to the slot stay and the ones after it take their predecessor's value |
| FinalScores.HighScores.Save | Final/main.cpp:408-414 | entry i is written at address 20 + 6i, and every other address keeps its content |
| FinalScores.HighScores.Load | Final/main.cpp:395-406 | every slot is read from its address and its name sanitised |
| FinalScores.HighScores.Reset | Final/main.cpp:416-422 | every slot is "---" with score 0 (a descending table), and each is saved at its address |
| FinalViewport.MaskIsShift | Final/main.cpp:553 | the bit of column c is `1 << (7 - c)` |
| FinalViewport.LitOr | Final/main.cpp:553 | OR-ing in a column's bit lights that column and leaves every other column as it was |
| FinalViewport.ViewOffset | Final/main.cpp:537-543 | the window offset is 0 on mazes of side 8 or less and otherwise lies in [0, side - 8] |
| FinalViewport.PlayerInWindow | Final/main.cpp:540-543 | the player is always inside the window, and in its middle where the maze allows |
| FinalViewport.StarsOnlyOnBlink | Final/main.cpp:545-585 | off the star blink phase, a lit cell is a wall, the exit before the quota is met, or the player on its phase |
| FinalViewport.PlayerDrawn | Final/main.cpp:579-585 | on the player's blink phase, the player's cell is lit wherever the player stands |
| FinalViewport.Display.constructor | Final/main.cpp:204 | an 8-byte frame buffer |
| FinalViewport.Display.DrawCell | Final/main.cpp:565-566 | OR-ing one cell lights that cell if it is in the window and leaves every other cell as it was |
| FinalViewport.Display.DrawWalls | Final/main.cpp:534-558 | after the clear and the wall pass, a cell is lit exactly when it shows a wall of the maze |
| FinalViewport.Display.DrawStars | Final/main.cpp:560-570 | the star pass adds exactly the live stars inside the window |
| FinalViewport.Display.Render | Final/main.cpp:532-591 | the buffer shows the scene: walls, the stars on their phase, the exit (steady before the quota, then blinking) and the player on its phase |
| FinalGame.MainTarget | Final/main.cpp:676-682 | the main-menu entries Start, High Scores, Settings, About and How to Play lead to gameplay, the score table, settings, about and how-to, in that order |
| FinalGame.SettingsTarget | Final/main.cpp:743-761 | the settings entries lead to the LCD slider, the matrix slider, the sound and tilt toggles and the reset prompt; the last entry, Back, leads to the settings menu itself |
| FinalGame.MainTargetsDistinct | Final/main.cpp:676-682 | each main-menu entry opens a different screen with a handler, never the menu itself |
| FinalGame.EditedLetter | Final/main.cpp:1166-1174 | a vertical reading keeps the letter in 'A'..'Z' and leaves it alone in the dead zone |
| FinalGame.MovedCursor | Final/main.cpp:1177-1183 | a horizontal reading keeps the cursor below 3 and leaves it alone in the dead zone |
| FinalGame.CapitalUpdate | Final/main.cpp:1166-1174 | replacing a letter of a capital name by a capital keeps it capital |
| FinalGame.Game.Direction | Final/main.cpp:987-1005 | the step source is the tilt when tilt control is on and the sensor answered, else the stick; a unit tilt step gives a unit step |
| FinalGame.Game.constructor | Final/main.cpp:1220-1259 | `setup`: the loaded settings applied, the sensor's availability recorded, the score table loaded from EEPROM, the inputs read once, the intro screen |
| FinalGame.Game.StoreSettings | Final/main.cpp:388-393 | the store holds the saved bytes and loads back the current settings |
| FinalGame.Game.ReadInputs | Final/main.cpp:424-443 | the axes take the new readings and the button is debounced |
| FinalGame.Game.UpdateBlink | Final/main.cpp:1268-1277 | stars flip after more than 300 ms and the player after more than 150 ms, each restarting its clock; otherwise both stay |
| FinalGame.Game.LongPress | Final/main.cpp:1279-1286 | a press held over 100 ms since the last reading change returns every screen except gameplay, intro and name entry to the main menu and consumes the press; otherwise nothing changes |
| FinalGame.Game.VerticalCursor | Final/main.cpp:620-630 | after 250 ms the vertical reading steps the cursor with wrap-around and restarts the menu clock; otherwise the cursor stays |
| FinalGame.Game.SidewaysFlip | Final/main.cpp:828-836 | after 250 ms a sideways reading asks for a flip and restarts the menu clock; otherwise no flip |
| FinalGame.Game.HandleIntro | Final/main.cpp:594-614 | the startup tune on entry; a press goes to the main menu with the select tune |
| FinalGame.Game.HandleMainMenu | Final/main.cpp:616-684 | the cursor wraps over 5 entries; a press opens the selected screen, and "Start Game" starts a game |
| FinalGame.Game.SelectMain | Final/main.cpp:671-683 | the press goes to the selected entry's screen; "Start Game" loads the first level with score 0; other entries leave the maze alone |
| FinalGame.Game.HandleSettingsMenu | Final/main.cpp:686-764 | the cursor wraps over 6 entries; a press opens the selected setting |
| FinalGame.Game.SlideBrightness | Final/main.cpp:774-791 | the chosen brightness moves by the slider rule, the other stays; a change restarts the menu clock and is saved |
| FinalGame.Game.SetAndSave | Final/main.cpp:784-790 | the new brightness is applied and the store loads back the current settings |
| FinalGame.Game.HandleSettingsValue | Final/main.cpp:766-812 | the slider, saved on a change; a press leaves for the settings "back" state |
| FinalGame.Game.FlipSetting | Final/main.cpp:828-836 | a sideways reading flips the sound or tilt flag, saves it and plays the move tune; otherwise nothing changes |
| FinalGame.Game.FlipAndSave | Final/main.cpp:830-831 | the chosen flag flips, the other stays, and the store loads back the current settings |
| FinalGame.Game.HandleSettingsToggle | Final/main.cpp:814-843 | the flip, saved; a press returns to the settings menu |
| FinalGame.Game.HandleSettingsReset | Final/main.cpp:845-884 | a sideways reading flips the confirmation; a press returns to the settings menu, and on the reset answer every slot is "---"/0 in the table and in EEPROM; otherwise the table is untouched |
| FinalGame.Game.ConfirmReset | Final/main.cpp:866-883 | the "no" answer consumes the press and keeps the table; the "yes" answer resets and saves it; both return to the settings menu |
| FinalGame.Game.HandleAbout | Final/main.cpp:886-904 | a press returns to the main menu |
| FinalGame.Game.HandleHowTo | Final/main.cpp:906-938 | a sideways reading turns the page; a press returns to the main menu on page 0 |
| FinalGame.Game.HandleHighScores | Final/main.cpp:940-979 | up shows the previous entry and down the next one, wrapping over 3; a press returns to the main menu and resets the index |
| FinalGame.Game.ScrollScores | Final/main.cpp:960-972 | the high-score cursor after one reading, wrapping over 3 |
| FinalGame.Game.GameMove | Final/main.cpp:983-1053 | within the 200 ms cooldown, or with no step, nothing moves; a move restarts the move clock; victory exactly when the last level is cleared, and then the state becomes victory |
| FinalGame.Game.Step | Final/main.cpp:1007-1051 | a blocked move changes nothing; a move restarts the move clock; victory exactly when the last level is cleared, switching to the victory screen; the sound setting is kept |
| FinalGame.Game.Announce | Final/main.cpp:1027-1035 | a clear plays the level-complete tune, cutting off the star tune; a collection that does not clear plays the star tune; a blocked move plays nothing |
| FinalGame.Game.HandleGamePlay | Final/main.cpp:981-1078 | within the cooldown nothing moves; a press pauses (winning over a victory in the same tick), a victory shows the victory screen, and the frame shows the current scene |
| FinalGame.Game.DrawFrame | Final/main.cpp:1070 | the matrix buffer shows the current scene |
| FinalGame.Game.PauseOnPress | Final/main.cpp:1072-1077 | a press pauses with the select tune; otherwise nothing changes |
| FinalGame.Game.HandleGamePaused | Final/main.cpp:1080-1111 | a sideways reading flips Continue/Exit; a press resumes on Continue and goes to the main menu on Exit |
| FinalGame.Game.HandleVictory | Final/main.cpp:1113-1147 | the victory tune on entry; a press leads to name entry exactly when the score beats some entry, otherwise to the main menu |
| FinalGame.Game.EditName | Final/main.cpp:1163-1194 | after 250 ms the current letter moves with wrap-around and the cursor moves over three letters; otherwise the name and cursor stay |
| FinalGame.Game.HandleNameEntry | Final/main.cpp:1149-1217 | a press inserts (name, score) into the table, saves every slot and shows the high scores; otherwise the table is untouched |
| FinalGame.Game.SubmitName | Final/main.cpp:1195-1215 | the entry (name, current score) goes into the table at the first slot it beats, the last entry falling off; every slot is saved; the high scores are shown next |
| FinalGame.Game.Dispatch | Final/main.cpp:1290-1339 | the game invariant is kept, and a state without a handler falls back to the main menu |
| FinalGame.Game.MenuScreens | Final/main.cpp:1291-1296 | the intro and main-menu cases keep the game invariant |
| FinalGame.Game.SettingsScreens | Final/main.cpp:1300-1317 | the settings cases keep the game invariant |
| FinalGame.Game.GameScreens | Final/main.cpp:1324-1335 | the gameplay, pause, victory and name-entry cases keep the game invariant |
| FinalGame.ReleaseAcrossTickFiresLongPress | Final/main.cpp:1262-1286 | a button still debounced as pressed and released one millisecond after `loop`'s `currentTime` restarts its debounce timer after `currentTime`; the `uint32_t` difference wraps to 2^32 - 1, so the long press fires |
| FinalGame.Game.Housekeeping | Final/main.cpp:1262-1286 | reading inputs at `readInputs`' own clock reading, advancing the audio, the blink clocks and the long press keep the inputs and settings consistent |
| FinalGame.Game.Tick | Final/main.cpp:1261-1340 | one pass of `loop` keeps the game invariant: settings in range, the maze and its stars valid, the table sorted, the audio consistent |
| Cp2Model.LevelData | Checkpoint2/lib/GameModel/GameModel.cpp:26-91 | each level stores sixteen row masks |
| Cp2Model.IsInBounds | Checkpoint2/lib/GameModel/GameModel.hpp:53-55 | a cell is in bounds when both coordinates, as `int16_t`, lie in [0, side) |
| Cp2Model.Initial | Checkpoint2/lib/GameModel/GameModel.cpp:24-96 | each level as set up: its rows, a positive star quota, nothing collected, a side between 8 and 16 |
| Cp2Model.SignedDeltaArrives | Checkpoint2/lib/GameController/GameController.cpp:203 | a signed step passed through `uint16_t` and narrowed back to `int16_t` gives the signed target, so -1 arrives as a step back |
| Cp2Model.ClearPoints | Checkpoint2/lib/GameModel/GameModel.cpp:298-309 | a clear is worth 100 points, plus 50 under 30 whole seconds or 25 under 60 |
| Cp2Model.ClearPointsMonotone | Checkpoint2/lib/GameModel/GameModel.cpp:298-309 | a faster clear never earns fewer points, and the award lies between 100 and 150 |
| Cp2Model.Checksum | Checkpoint2/lib/GameModel/GameModel.cpp:343-352 | the checksum of a table is the XOR of all four bytes of every score |
| Cp2Model.ChecksumUpdate | Checkpoint2/lib/GameModel/GameModel.cpp:343-352 | replacing one score changes the checksum by the XOR of the old and new score's bytes |
| Cp2Model.XorOfOneChanged | Checkpoint2/lib/GameModel/GameModel.cpp:346-349 | changing one of four bytes changes their XOR |
| Cp2Model.WordXorSeesByte | Checkpoint2/lib/GameModel/GameModel.cpp:346-349 | two words differing in exactly one byte have different byte XORs |
| Cp2Model.ByteFlipDetected | Checkpoint2/lib/GameModel/GameModel.cpp:354-366 | a record with one byte of one score changed fails the load's check |
| Cp2Model.ErasedWordCancels | Checkpoint2/lib/GameModel/GameModel.cpp:343-352 | the four 0xFF bytes of an erased word cancel to 0 |
| Cp2Model.ErasedRejected | Checkpoint2/lib/GameModel/GameModel.cpp:354-366 | an erased record (all 0xFF) fails the check, so a fresh board resets the table |
| Cp2Model.Booted | Checkpoint2/lib/GameModel/GameModel.cpp:354-384 | a boot load always yields a table of three scores |
| Cp2Model.SavedTableSurvivesBoot | Checkpoint2/lib/GameModel/GameModel.cpp:354-377 | a table saved at the load address comes back intact at the next boot, and nothing is rewritten |
| Cp2Model.BootAsWrittenLosesTable | Checkpoint2/lib/GameModel/GameModel.cpp:340 | with saves at address 0 and loads from address 100, the next boot starts from a zero table and overwrites the saved one with zeros |
| Cp2Model.FirstBeaten | Checkpoint2/lib/GameModel/GameModel.cpp:330-331 | the first slot the score beats: every slot before it is at least the score, and the slot is below it |
| Cp2Model.GameModel.IsNewHighscore | Checkpoint2/lib/GameModel/GameModel.cpp:323-325 | a score is new when it is strictly above the last entry of the table |
| Cp2Model.NewHighscoreIffBeatsSome | Checkpoint2/lib/GameModel/GameModel.cpp:323-325 | on a descending table, beating the last entry is the same as beating some entry |
| Cp2Model.InsertedSlots | Checkpoint2/lib/GameModel/GameModel.cpp:330-337 | entries above the slot stay, the new score takes the slot, and entries below move down one |
| Cp2Model.InsertedSound | Checkpoint2/lib/GameModel/GameModel.cpp:327-341 | insertion keeps three entries, descending order, and the new score in its slot |
| Cp2Model.InsertedMultiset | Checkpoint2/lib/GameModel/GameModel.cpp:327-341 | insertion drops exactly the last entry and adds the new score |
| Cp2Model.GameModel.IsCurrentLevelCleared | Checkpoint2/lib/GameModel/GameModel.cpp:248-250 | the current level is cleared when its collected stars reach its quota |
| Cp2Model.GameModel.NeverCleared | Checkpoint2/lib/GameModel/GameModel.cpp:248-250 | the shipped levels hold no stars, so the level-cleared test never holds |
| Cp2Model.GameModel.constructor | Checkpoint2/lib/GameModel/GameModel.cpp:5-22 | splash screen, first option, score 0, level 0, player alive at (1,1), every cell decoded, and the table as a boot from the stored address yields it |
| Cp2Model.GameModel.InitializeLevels | Checkpoint2/lib/GameModel/GameModel.cpp:24-109 | each level takes its table entry, and every cell is a wall exactly when bit 15 - col of its row mask is set, otherwise empty |
| Cp2Model.GameModel.FillLevel | Checkpoint2/lib/GameModel/GameModel.cpp:98-107 | one level's cells are decoded and the other levels are untouched |
| Cp2Model.GameModel.FillRow | Checkpoint2/lib/GameModel/GameModel.cpp:99-106 | one row's cells are decoded and every other cell is untouched |
| Cp2Model.GameModel.FindPlayerMark | Checkpoint2/lib/GameModel/GameModel.cpp:112-123 | the search finds the first player mark in row-major order over rows and columns 1..15, or reports that there is none |
| Cp2Model.GameModel.ResetPlayerToLevelStart | Checkpoint2/lib/GameModel/GameModel.cpp:111-130 | the player stands on the first player mark, which becomes empty, or at (1,1) when there is none; the player is alive |
| Cp2Model.GameModel.SelectNextMenuOption | Checkpoint2/lib/GameModel/GameModel.cpp:144-146 | the next option, wrapping over 4 |
| Cp2Model.GameModel.SelectPreviousMenuOption | Checkpoint2/lib/GameModel/GameModel.cpp:148-154 | the previous option, from the first to the last, which undoes the next-option step |
| Cp2Model.GameModel.ConfirmMenuSelection | Checkpoint2/lib/GameModel/GameModel.cpp:156-173 | "Start Game" starts a game at level 0 with score 0; the other options show their screens and leave the levels alone |
| Cp2Model.GameModel.StartNewGame | Checkpoint2/lib/GameModel/GameModel.cpp:175-186 | playing, level 0, score 0, every level's collected count 0, the room timer started, the player alive |
| Cp2Model.GameModel.ResetStarCounts | Checkpoint2/lib/GameModel/GameModel.cpp:180-182 | every level's collected count is back to 0 |
| Cp2Model.GameModel.ResetGame | Checkpoint2/lib/GameModel/GameModel.cpp:188-194 | menu on its first option, level 0, score 0, timer 0 |
| Cp2Model.GameModel.MovePlayer | Checkpoint2/lib/GameModel/GameModel.cpp:200-233 | a move happens exactly when the player is alive and the target is in bounds and not a wall; a refused move changes nothing; an enemy cell kills the player and ends the game |
| Cp2Model.GameModel.Arrive | Checkpoint2/lib/GameModel/GameModel.cpp:221-230 | an enemy kills the player and offers the score to the table, which is saved when it takes the score; a star becomes empty, adds 10 points and one to the level's count; the exit of a cleared level adds the clear points and advances, to victory past the last level; any other cell changes nothing; the player stays put unless the level changes |
| Cp2Model.GameModel.KillPlayer | Checkpoint2/lib/GameModel/GameModel.cpp:235-238 | the player dies and the game is over; a score that beats the last entry is inserted and the table saved at the load address; otherwise the table and the EEPROM are untouched |
| Cp2Model.GameModel.SetGameOver | Checkpoint2/lib/GameModel/GameModel.cpp:403-405 | game over; a score that beats the last entry is inserted and the table saved at the load address; otherwise the table and the EEPROM are untouched |
| Cp2Model.GameModel.SetVictory | Checkpoint2/lib/GameModel/GameModel.cpp:398-401 | victory; a score that beats the last entry is inserted and the table saved at the load address; otherwise the table and the EEPROM are untouched |
| Cp2Model.GameModel.CollectStarAt | Checkpoint2/lib/GameModel/GameModel.cpp:268-276 | collects exactly on a star cell: the cell becomes empty, the count +1 and the score +10; every other cell and level is untouched; elsewhere nothing changes |
| Cp2Model.GameModel.AddScore | Checkpoint2/lib/GameModel/GameModel.cpp:294-296 | the score grows by the points, modulo 2^32 |
| Cp2Model.GameModel.CalculateLevelClearBonus | Checkpoint2/lib/GameModel/GameModel.cpp:298-309 | the score grows by 150, 125 or 100 for under 30, under 60 or more whole seconds |
| Cp2Model.GameModel.AdvanceToNextLevel | Checkpoint2/lib/GameModel/GameModel.cpp:252-262 | the clear points are added and the level index advances. Past the last level it is a victory, and a score that beats the last entry is inserted and saved. Otherwise the player stands alive on the next level's first `PLAYER` cell, which is emptied, or on (1, 1) when there is none, and the room timer restarts |
| Cp2Model.GameModel.AddHighScore | Checkpoint2/lib/GameModel/GameModel.cpp:327-341 | a score above the last entry is inserted and the table saved (at the load address 100, not at 0 as written); any other changes nothing |
| Cp2Model.GameModel.PutAt | Checkpoint2/lib/GameModel/GameModel.cpp:332-335 | entries from the slot on move down, the last falls off, and the new score takes the slot |
| Cp2Model.GameModel.CalculateChecksum | Checkpoint2/lib/GameModel/GameModel.cpp:343-352 | the loop computes the XOR of all four bytes of every score |
| Cp2Model.GameModel.LoadHighScores | Checkpoint2/lib/GameModel/GameModel.cpp:354-367 | an intact record is copied in; anything else resets the table to zeros and saves it |
| Cp2Model.GameModel.SaveHighScores | Checkpoint2/lib/GameModel/GameModel.cpp:369-377 | the table and its checksum are written at the address |
| Cp2Model.GameModel.ResetHighScores | Checkpoint2/lib/GameModel/GameModel.cpp:379-384 | every entry is 0 and the zero table is saved (at the load address 100, not at 0 as written) |
| Cp2Audio.CountsMatchTables | Checkpoint2/lib/AudioController/AudioController.cpp:103-134 | the count passed for each effect equals its table's length and is positive, so no table is read past its end |
| Cp2Audio.AudioController.constructor | Checkpoint2/lib/AudioController/AudioController.cpp:49-58 | sound on, nothing playing, silent |
| Cp2Audio.AudioController.Update | Checkpoint2/lib/AudioController/AudioController.cpp:65-81 | nothing changes unless sound is on, a sequence plays and its tone is due; then the index advances by one, and at the end playing stops and the sequence is dropped, otherwise the next tone starts |
| Cp2Audio.AudioController.StartSequence | Checkpoint2/lib/AudioController/AudioController.cpp:83-92 | with sound off nothing changes; otherwise the sequence starts at its first tone |
| Cp2Audio.AudioController.PlayNextTone | Checkpoint2/lib/AudioController/AudioController.cpp:94-101 | the tone at the index starts now if there is one; otherwise nothing changes |
| Cp2Audio.AudioController.PlaySound | Checkpoint2/lib/AudioController/AudioController.cpp:103-134 | with sound off nothing changes; otherwise whatever plays is cut off and the effect's table starts from its first tone |
| Cp2Audio.AudioController.StopSound | Checkpoint2/lib/AudioController/AudioController.cpp:136-141 | nothing plays, index 0, no sequence, silent |
| Cp2Audio.AudioController.EnableSound | Checkpoint2/lib/AudioController/AudioController.cpp:143-145 | sound is on and nothing resumes |
| Cp2Audio.AudioController.DisableSound | Checkpoint2/lib/AudioController/AudioController.cpp:147-150 | sound is off, nothing plays, the index is 0 with no sequence held, and the buzzer is silent |
| Cp2Matrix.LitCleared | Checkpoint2/lib/MatrixRenderer/MatrixRenderer.cpp:35 | the intended clear `&= ~mask` switches off that column and no other |
| Cp2Matrix.WallLostAsWritten | Checkpoint2/lib/MatrixRenderer/MatrixRenderer.cpp:35 | with `!mask`, clearing column 1 of a row lit at column 0 also darkens column 0; the intended clear keeps it |
| Cp2Matrix.OffsetIsViewOffset | Checkpoint2/lib/MatrixRenderer/MatrixRenderer.cpp:141-158 | on the game's levels the clamped offset equals the final version's window, so it lies in [0, side - 8] |
| Cp2Matrix.SideWallsOnly | Checkpoint2/lib/GameModel/GameModel.cpp:28 | the first level's row mask has walls in columns 0 and 7 and none in columns 2 to 6 |
| Cp2Matrix.FirstLevelRowOne | Checkpoint2/lib/MatrixRenderer/MatrixRenderer.cpp:160-170 | on the first level with the player at (1, 1), window row 1 should light columns 0, 1 and 7 and no column from 2 to 6 |
| Cp2Matrix.FrameRowLostAsWritten | Checkpoint2/lib/MatrixRenderer/MatrixRenderer.cpp:160-176 | with `setPixel` as written, that window row ends as 0x01 instead of 0xC1: neither the left wall nor the player is drawn |
| Cp2Matrix.PlayerShown | Checkpoint2/lib/MatrixRenderer/MatrixRenderer.cpp:160-170 | with `setPixel`'s clear corrected, a player inside the level is always inside the window and lit |
| Cp2Matrix.MatrixRenderer.constructor | Checkpoint2/lib/MatrixRenderer/MatrixRenderer.cpp:3-10 | a zeroed 8-byte buffer, splash state, no menu option, frame 0 |
| Cp2Matrix.MatrixRenderer.Init | Checkpoint2/lib/MatrixRenderer/MatrixRenderer.cpp:12-16 | full brightness and a blank matrix |
| Cp2Matrix.MatrixRenderer.UpdateDisplay | Checkpoint2/lib/MatrixRenderer/MatrixRenderer.cpp:18-22 | the driver shows the buffer |
| Cp2Matrix.MatrixRenderer.Clear | Checkpoint2/lib/MatrixRenderer/MatrixRenderer.cpp:24-27 | the buffer and the driver are blank |
| Cp2Matrix.MatrixRenderer.SetPixel | Checkpoint2/lib/MatrixRenderer/MatrixRenderer.cpp:29-37 | off the matrix nothing changes; otherwise pixel (x, y) takes the state and every other pixel keeps its value (the clear as intended) |
| Cp2Matrix.MatrixRenderer.DrawBuffer | Checkpoint2/lib/MatrixRenderer/MatrixRenderer.cpp:39-44 | the buffer becomes the first eight bytes of the frame and is shown |
| Cp2Matrix.MatrixRenderer.SetBrightness | Checkpoint2/lib/MatrixRenderer/MatrixRenderer.cpp:46-51 | for any `uint8_t` request, the intensity is the request capped at 15 |
| Cp2Matrix.MatrixRenderer.DrawSplashAnimation | Checkpoint2/lib/MatrixRenderer/MatrixRenderer.cpp:88-100 | after more than 200 ms the frame counter steps modulo 4 and restarts its clock; otherwise both stay |
| Cp2Matrix.MatrixRenderer.RenderMenu | Checkpoint2/lib/MatrixRenderer/MatrixRenderer.cpp:102-112 | a new selection blanks the matrix; the same selection changes nothing |
| Cp2Matrix.MatrixRenderer.DrawViewRow | Checkpoint2/lib/MatrixRenderer/MatrixRenderer.cpp:161-176 | with `setPixel`'s clear corrected, one window row shows the player's cell and the wall bits, and other rows are untouched |
| Cp2Matrix.MatrixRenderer.RenderViewport | Checkpoint2/lib/MatrixRenderer/MatrixRenderer.cpp:134-181 | with `setPixel`'s clear corrected, every window cell is lit exactly when it is the player or a wall of the level, and the driver shows the buffer |
| Cp2Matrix.MatrixRenderer.Render | Checkpoint2/lib/MatrixRenderer/MatrixRenderer.cpp:53-82 | the screen is remembered; a change of screen restarts the animation at frame 0, and on the splash screen a due frame then steps it; in play the buffer shows the viewport and is displayed; in the menu the selection is remembered; a change to any screen but play leaves the matrix blank, and an unchanged screen without a picture is left alone |
| Cp2Input.Classify | Checkpoint2/lib/JoystickController/JoystickController.cpp:28-38 | up below 300 on Y, else down above 700 on Y, else left below 300 on X, else right above 700 on X, else none |
| Cp2Input.CentredIffDeadZone | Checkpoint2/lib/JoystickController/JoystickController.cpp:28-38 | the stick reads as centred exactly when both axes are in [300, 700] |
| Cp2Input.VerticalFirst | Checkpoint2/lib/JoystickController/JoystickController.cpp:28-38 | a vertical deflection wins whatever the horizontal axis says; a horizontal direction needs a centred vertical axis |
| Cp2Input.Joystick.constructor | Checkpoint2/lib/JoystickController/JoystickController.cpp:3-16 | readings 512, button released, no direction |
| Cp2Input.Joystick.Update | Checkpoint2/lib/JoystickController/JoystickController.cpp:22-52 | the new direction is classified and the old one kept as the last; the button follows the reading only after more than 50 ms without a change |
| Cp2Input.Joystick.HasNewDirection | Checkpoint2/lib/JoystickController/JoystickController.cpp:58-60 | the direction is new when it differs from the last one and is not none |
| Cp2Input.Joystick.ClearDirection | Checkpoint2/lib/JoystickController/JoystickController.cpp:62-64 | the direction is no longer new |
| Cp2Input.Joystick.IsButtonJustPressed | Checkpoint2/lib/JoystickController/JoystickController.cpp:70-75 | yes exactly when pressed now and not at the previous call, so two calls in a row never both say yes |
| Cp2Input.Hardware.constructor | Checkpoint2/lib/HardwareController/HardwareController.cpp:3-9 | no sensor, tilt off, move clock 0, no input flags |
| Cp2Input.Hardware.Init | Checkpoint2/lib/HardwareController/HardwareController.cpp:11-17 | tilt mode is on exactly when the sensor starts |
| Cp2Input.Hardware.CanMove | Checkpoint2/lib/HardwareController/HardwareController.cpp:55-57 | a move is allowed once at least 200 ms have passed since the last one, in `uint32_t` arithmetic |
| Cp2Input.Hardware.ResetMoveCooldown | Checkpoint2/lib/HardwareController/HardwareController.cpp:59-61 | the move clock is now, so no move is allowed at the same instant |
| Cp2Input.Hardware.SetIMUMode | Checkpoint2/lib/HardwareController/HardwareController.cpp:79-85 | with the sensor, tilt mode follows the request; without it nothing changes and tilt mode stays off |
| Cp2Input.Hardware.IsIMUMode | Checkpoint2/lib/HardwareController/HardwareController.cpp:83-85 | tilt mode is on when it was requested and the sensor is available |
| Cp2Input.Hardware.Update | Checkpoint2/lib/HardwareController/HardwareController.cpp:19-49 | each direction flag is set exactly when the stick or (in tilt mode) the tilt points that way; without tilt at most one is set; the button flags come from the joystick |
| Cp2Input.Hardware.Poll | Checkpoint2/lib/HardwareController/HardwareController.cpp:20-25 | the stick's direction is the one its readings classify to, the press history is untouched, and the buzzer stays consistent |
| Cp2Input.Hardware.Merge | Checkpoint2/lib/HardwareController/HardwareController.cpp:27-48 | the flags are cleared, the button flags copied, the stick's direction set and the tilt's OR-ed in only in tilt mode |
| Cp2Input.Hardware.Play | Checkpoint2/lib/HardwareController/HardwareController.cpp:63-77 | each effect request starts that effect's table, or changes nothing with sound off |
| Cp2Controller.MoveDelta | Checkpoint2/lib/GameController/GameController.cpp:184-196 | a step only on a rising edge, in the order up, down, left, right; never diagonal; up is row - 1 |
| Cp2Controller.HeldDirectionStepsOnce | Checkpoint2/lib/GameController/GameController.cpp:182-201 | with the flags of one check remembered, holding the same input gives no step at the next |
| Cp2Controller.GameController.constructor | Checkpoint2/lib/GameController/GameController.cpp:3-12 | the model and hardware wired, the update clock 0, every remembered flag off |
| Cp2Controller.GameController.Init | Checkpoint2/lib/GameController/GameController.cpp:14-17 | tilt mode exactly when the sensor starts, then the startup tune |
| Cp2Controller.GameController.ReturnToMenuOnPress | Checkpoint2/lib/GameController/GameController.cpp:80-112 | splash, high scores and about: a press returns to the menu; otherwise nothing changes |
| Cp2Controller.GameController.ResumeOnPress | Checkpoint2/lib/GameController/GameController.cpp:120-126 | paused: a press resumes play |
| Cp2Controller.GameController.ResetOnPress | Checkpoint2/lib/GameController/GameController.cpp:128-142 | game over and victory: a press resets the game to the menu on its first option with score 0 |
| Cp2Controller.GameController.NavigateMenu | Checkpoint2/lib/GameController/GameController.cpp:146-159 | a fresh up selects the previous option and a fresh down the next; both together cancel out; the flags are remembered |
| Cp2Controller.GameController.ProcessMenuInput | Checkpoint2/lib/GameController/GameController.cpp:144-165 | the edge-triggered navigation, then a press confirms the selected option |
| Cp2Controller.GameController.ProcessGameplayInput | Checkpoint2/lib/GameController/GameController.cpp:167-173 | a press pauses the game |
| Cp2Controller.GameController.ReadStep | Checkpoint2/lib/GameController/GameController.cpp:179-201 | the step is the edge-triggered delta, a move is asked for exactly when it is non-zero, and the four flags are remembered |
| Cp2Controller.GameController.TryStep | Checkpoint2/lib/GameController/GameController.cpp:203-205 | the signed step, passed as `uint16_t`, moves the player exactly when the target is passable, and a move restarts the cooldown |
| Cp2Controller.GameController.HandlePlayerMovement | Checkpoint2/lib/GameController/GameController.cpp:175-206 | within the 200 ms cooldown nothing happens; otherwise the edge-triggered step moves the player when passable, restarting the cooldown |
| Cp2Controller.GameController.PlayLevelEndSounds | Checkpoint2/lib/GameController/GameController.cpp:215-221 | a finished level plays the level tune, cut off at once by the victory tune after the last level |
| Cp2Controller.GameController.CheckGameEvents | Checkpoint2/lib/GameController/GameController.cpp:208-223 | a dead player gets the death tune; a live one on the shipped levels hears nothing |
| Cp2Controller.GameController.UpdateGameplay | Checkpoint2/lib/GameController/GameController.cpp:114-118 | a press pauses, and movement is still evaluated in the same tick |
| Cp2Controller.GameController.Update | Checkpoint2/lib/GameController/GameController.cpp:38-78 | under 50 ms since the last run nothing changes; otherwise each state's transition on a press (splash, high scores, about to menu; paused to playing; playing to paused; game over and victory reset to the menu) and settings never left |
| Cp1Demo.ReadJoystickAxis | Checkpoint1/main.cpp:87-92 | -1 below 262, 1 above 762, 0 in between |
| Cp1Demo.JoystickMove | Checkpoint1/main.cpp:186-187 | the step is -1, 0 or 1, and 0 within 300 ms of the last step |
| Cp1Demo.MenuStep | Checkpoint1/main.cpp:191 | the new index stays below the count and is unchanged without a move |
| Cp1Demo.MenuStepIsModulo | Checkpoint1/main.cpp:191 | `(index + move + count) % count` is exactly the wrapped step |
| Cp1Demo.MenuStepWraps | Checkpoint1/main.cpp:191 | a step of 1 is the next entry and a step of -1 the previous one, both wrapping |
| Cp1Demo.PressIsDebouncedFall | Checkpoint1/main.cpp:94-106 | only a HIGH to LOW change registers a press, and never within 60 ms of the previous change (as intended) |
| Cp1Demo.BounceCountsTwiceAsWritten | Checkpoint1/main.cpp:100 | subtracting the boolean state lets a bounce 10 ms after a press register again, which the intended test rejects |
| Cp1Demo.Demo.constructor | Checkpoint1/main.cpp:50-85 | splash state, indices 0, button released, no sound, dot at (3,3), matrix dark |
| Cp1Demo.Demo.UpdateButton | Checkpoint1/main.cpp:94-106 | the reading is remembered, a change restarts the button clock, and a debounced fall sets the press flag |
| Cp1Demo.BeepCutAcrossTick | Checkpoint1/main.cpp:171-183 | a beep stamped one millisecond after `loop`'s `timeNow` has a `uint64_t` age of 2^64 - 1, so it is cut at once |
| Cp1Demo.Demo.UpdateSound | Checkpoint1/main.cpp:171-183 | a requested beep starts, stamped with `updateSound`'s own clock reading; the buzzer is silenced when the beep's age at `loop`'s `timeNow` exceeds 50 ms, so with equal readings a new beep sounds |
| Cp1Demo.Demo.ClearMatrix | Checkpoint1/main.cpp:108-112 | no LED is lit |
| Cp1Demo.Demo.DrawDot | Checkpoint1/main.cpp:114-119 | exactly the dot is lit when it is on the 8x8 grid, nothing otherwise, never more than one LED |
| Cp1Demo.Demo.UpdateIMU | Checkpoint1/main.cpp:121-142 | at most every 10 ms the dot takes the mapped position, as 8-bit values |
| Cp1Demo.Demo.MenuMove | Checkpoint1/main.cpp:186-193 | the index takes the wrapped joystick step; a step requests a beep and restarts the joystick clock |
| Cp1Demo.Demo.HandleMainMenu | Checkpoint1/main.cpp:185-201 | a press starts the demo with a beep and is consumed |
| Cp1Demo.Demo.HandleRunning | Checkpoint1/main.cpp:203-212 | the dot follows the tilt, lighting at most one LED; a press opens the pause menu |
| Cp1Demo.Demo.HandlePauseMenu | Checkpoint1/main.cpp:214-235 | the joystick picks an entry; a press on Resume runs, on Main Menu returns with the index reset and the matrix cleared; the press is consumed |
| Cp1Demo.Demo.Loop | Checkpoint1/main.cpp:260-285 | the splash (unhandled) state becomes the main menu; each handled state moves on a press as above and consumes it |

## Left out

- LCD output: every `lcd` call, the text, the icons and the `drawn`/`lastOpt` redraw bookkeeping of the Final handlers, `updateLCD` of the first draft, and `Checkpoint2/lib/LCDRenderer`. They are output only.
- Driver calls (`tone`, `noTone`, `lc.*`, `pinMode`, `Wire`, `analogRead`, `digitalRead`): the buzzer is a frequency field, the matrix a buffer, the readings parameters.
- The floating-point tilt code (`Checkpoint2/lib/IMUController`, the tilt branch of `handleGamePlay`, the `atan2`/`map` of the first draft's `updateIMU`): the tilt direction, the tilt step or the mapped dot position is an input.
- `applyLCDBrightness`/`applyMatrixBrightness`: they scale through Arduino's `map` to PWM values and touch only the hardware.
- `random()` and `randomSeed`: replaced by the oracle sequence; the model requires at least 200 draws, two per attempt.
- The two `millis()` calls inside one Final handler, and the two inside `readInputs`, are each modelled as one instant.
- `Level::getMaxBitPosition` (`16 - dimension`): nothing calls it.
- `GameController::addRenderer`/`renderAll`: dynamic allocation and virtual dispatch. `addRenderer` also writes one slot past the array it allocates. The second draft's `Render` is modelled as called directly.
- `mpu.begin()` in the first draft's main menu: sensor start-up, not game logic.
- The unused controller fields `highscoreScrollIndex`, `settingsSelectedOption` and `matrixBrightness` of the second draft.
- In `renderViewport`, the early `return` for cells past the level edge and the `rows != nullptr` test cannot trigger on the shipped levels (every side is at least 8 and every level has rows). The model does not keep them.
- The second draft's shipped levels place no stars, enemies or exits in `levelState`. The model carries this as an invariant (`NoPickups`), so a level is never cleared there and the `levels[3]` read after a victory is unreachable.
- The byte layout of `EEPROM.get`/`put`: EEPROM holds whole entries or records at their addresses.
- FinalGame.Game.GameMove: does not restate that a move happens exactly when its target is enterable, nor the move's effect on the maze; `FinalMaze.Maze.TryMove` states both in full (through `Stepped`), and repeating them here made the proof too costly.
- FinalGame.Game.Step: same as `GameMove`; the target and position facts are stated by `FinalMaze.Maze.TryMove` only.
- FinalGame.Game.Tick: states that one pass of `loop` keeps the game invariant; the effect of each screen is stated by its handler (`HandleMainMenu`, `HandleGamePlay`, ...), the fallback by `Dispatch`.
- FinalGame.Game.MenuScreens: keeps the invariant only; the effects are stated by `HandleIntro` and `HandleMainMenu`.
- FinalGame.Game.SettingsScreens: keeps the invariant only; the effects are stated by the settings handlers.
- FinalGame.Game.GameScreens: keeps the invariant only; the effects are stated by the gameplay, pause, victory and name-entry handlers.
- FinalGame.Game.Housekeeping: keeps the invariant only; the effects are stated by `ReadInputs`, `UpdateBlink` and `LongPress`.
- FinalGame.Game.HandleGamePlay: does not restate the move's effect on the maze; `GameMove` and `FinalMaze.Maze.TryMove` state it.

## Findings

| source | as written | input that shows it | evidently intended | confidence | as-written member | corrected member |
|---|---|---|---|---|---|---|
| Final/main.cpp:1037-1039 | `uint32_t bonus = 6000 - timeUsed * 100; if (bonus > 0) currentScore += bonus;` wraps below zero, and the `uint16_t` score then loses points | a level cleared after 61 s with score 1000: bonus 2^32 - 100, score becomes 900 | the bonus stops at 0 after 60 s | not executed | FinalMaze.BonusWrapsAfterMinute | FinalMaze.Maze.ClearLevel |
| Checkpoint2/lib/GameModel/GameModel.cpp:340 | `addHighScore` and `resetHighScores` (line 383) save at address 0, while the constructor (line 21) loads from `eepromAddress` = 100 | any table saved during play: the next boot fails the check at 100, resets to zeros and overwrites the table at 0 | save and load at the same address | not executed | Cp2Model.BootAsWrittenLosesTable | Cp2Model.SavedTableSurvivesBoot |
| Checkpoint2/lib/MatrixRenderer/MatrixRenderer.cpp:35 | `displayBuffer[y] &= !(1 << (7 - x))`: the logical not gives 0, clearing the whole row. Since `renderViewport` draws each row left to right, only the pixels right of a row's last open cell survive, and the player is usually not drawn | row 0x80 (column 0 lit), `setPixel(1, y, false)`: column 0 goes dark as well. On the first level with the player at (1, 1), window row 1 ends as 0x01 instead of 0xC1 | `&= ~(1 << (7 - x))`, clearing one pixel | not executed | Cp2Matrix.WallLostAsWritten, Cp2Matrix.FrameRowLostAsWritten | Cp2Matrix.MatrixRenderer.SetPixel |
| Checkpoint1/main.cpp:100 | `timeNow - lastButtonState > buttonDebounceInterval` subtracts the boolean state, so the test passes at any time after the first 60 ms | press at 1000 ms, bounce up at 1005, down again at 1010: a second press registers | a time stamp of the previous change, saved before line 98 overwrites it, so that changes within 60 ms of it are ignored | not executed | Cp1Demo.BounceCountsTwiceAsWritten | Cp1Demo.Demo.UpdateButton |
