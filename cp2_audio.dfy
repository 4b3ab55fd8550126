/**
  The buzzer driver of the second draft (Checkpoint2/lib/AudioController):
  eight sound effects, each a table of tones; `playSound` cuts off whatever
  plays and starts the effect's table, `update` moves to the next tone when
  the current one's time is up. The buzzer is the `frequency` field: the
  tone last started, 0 for silence.
 */
module Cp2Audio {
  import opened Uint
  import FinalAudio

  datatype SoundEffect = MenuMove | MenuSelect | CollectCup | PlayerDeath | LevelComplete | GameOver | Victory | Startup

  const MenuMoveSeq: seq<FinalAudio.Tone> := [FinalAudio.Tone(800, 50)]
  const MenuSelectSeq: seq<FinalAudio.Tone> := [FinalAudio.Tone(1200, 100), FinalAudio.Tone(1500, 150)]
  const CollectCupSeq: seq<FinalAudio.Tone> := [FinalAudio.Tone(1000, 80), FinalAudio.Tone(1200, 80)]
  const PlayerDeathSeq: seq<FinalAudio.Tone> := [FinalAudio.Tone(800, 150), FinalAudio.Tone(600, 150), FinalAudio.Tone(400, 300)]
  const LevelCompleteSeq: seq<FinalAudio.Tone> :=
    [FinalAudio.Tone(1000, 100), FinalAudio.Tone(1200, 100), FinalAudio.Tone(1500, 100), FinalAudio.Tone(2000, 200)]
  const GameOverSeq: seq<FinalAudio.Tone> := [FinalAudio.Tone(600, 200), FinalAudio.Tone(500, 200), FinalAudio.Tone(400, 400)]
  const VictorySeq: seq<FinalAudio.Tone> :=
    [FinalAudio.Tone(1500, 100), FinalAudio.Tone(1800, 100), FinalAudio.Tone(2100, 100), FinalAudio.Tone(2500, 300)]
  const StartupSeq: seq<FinalAudio.Tone> := [FinalAudio.Tone(1000, 100), FinalAudio.Tone(1500, 100), FinalAudio.Tone(2000, 150)]

  /** The table `playSound` starts for an effect. */
  function TableOf(e: SoundEffect): seq<FinalAudio.Tone> {
    match e
    case MenuMove => MenuMoveSeq
    case MenuSelect => MenuSelectSeq
    case CollectCup => CollectCupSeq
    case PlayerDeath => PlayerDeathSeq
    case LevelComplete => LevelCompleteSeq
    case GameOver => GameOverSeq
    case Victory => VictorySeq
    case Startup => StartupSeq
  }

  /** The tone count `playSound` passes along with the table, written out separately in the switch. */
  function CountOf(e: SoundEffect): nat {
    match e
    case MenuMove => 1
    case MenuSelect => 2
    case CollectCup => 2
    case PlayerDeath => 3
    case LevelComplete => 4
    case GameOver => 3
    case Victory => 4
    case Startup => 3
  }

  /** Every count matches its table, so no sequence is read past its end, and none is empty. */
  lemma CountsMatchTables(e: SoundEffect)
    ensures 0 < CountOf(e) == |TableOf(e)|
  {
    match e
    case MenuMove =>
    case MenuSelect =>
    case CollectCup =>
    case PlayerDeath =>
    case LevelComplete =>
    case GameOver =>
    case Victory =>
    case Startup =>
  }

  class AudioController {
    var soundEnabled: bool
    var playing: bool
    var index: nat
    var total: nat
    var toneStart: nat
    var toneDuration: nat
    /** `currentSequence`; the empty sequence stands for `nullptr`. */
    var sequence: seq<FinalAudio.Tone>
    /** The buzzer: frequency of the tone last started, 0 once silenced. */
    var frequency: nat

    ghost predicate Valid()
      reads this
    {
      && (playing ==>
        && index < total <= |sequence|
        && frequency == sequence[index].frequency && toneDuration == sequence[index].duration)
      && (!playing ==> frequency == 0)
    }

    /** Tones of the running sequence not yet finished: what `update` counts down. */
    function Remaining(): nat
      reads this
    {
      if playing && index <= total then total - index else 0
    }

    constructor ()
      ensures Valid() && soundEnabled && !playing && frequency == 0 && sequence == []
    {
      soundEnabled := true;
      playing := false;
      index := 0;
      total := 0;
      toneStart := 0;
      toneDuration := 0;
      sequence := [];
      frequency := 0;
    }

    /**
      `update`: once the current tone's time is up the buzzer is silenced and
      the index moves on; past the last tone the sequence is dropped,
      otherwise the next tone starts.
     */
    method Update(now: nat)
      requires Valid()
      modifies this
      ensures Valid() && soundEnabled == old(soundEnabled) && total == old(total)
      ensures var due := old(playing) && soundEnabled && Sub32(now, old(toneStart)) >= old(toneDuration);
        && (!due ==> unchanged(this))
        && (due ==> index == old(index) + 1 && Remaining() == old(Remaining()) - 1)
        && (due ==> (playing <==> index < total))
        && (due && playing ==> sequence == old(sequence) && toneStart == now)
        && (due && !playing ==> sequence == [])
    {
      if !soundEnabled || !playing {
        return;
      }
      if Sub32(now, toneStart) >= toneDuration {
        frequency := 0;
        index := index + 1;
        if index >= total {
          playing := false;
          sequence := [];
          return;
        }
        PlayNextTone(now);
      }
    }

    /** `startSequence`: with sound off nothing happens; otherwise the table's first tone starts. */
    method StartSequence(s: seq<FinalAudio.Tone>, count: nat, now: nat)
      requires 0 < count <= |s| && !playing && frequency == 0
      modifies this
      ensures Valid() && soundEnabled == old(soundEnabled)
      ensures !soundEnabled ==> unchanged(this)
      ensures soundEnabled ==>
        && playing && sequence == s && total == count && index == 0
        && frequency == s[0].frequency && toneStart == now && Remaining() == count
    {
      if !soundEnabled {
        return;
      }
      sequence := s;
      total := count;
      index := 0;
      playing := true;
      PlayNextTone(now);
    }

    /** `playNextToneInSequence`: the tone at the index starts, if there is one. */
    method PlayNextTone(now: nat)
      requires total <= |sequence|
      modifies this`frequency, this`toneStart, this`toneDuration
      ensures index < total ==>
        frequency == sequence[index].frequency && toneStart == now && toneDuration == sequence[index].duration
      ensures index >= total ==> unchanged(this)
    {
      if index >= total {
        return;
      }
      var t := sequence[index];
      frequency := t.frequency;
      toneStart := now;
      toneDuration := t.duration;
    }

    /** `playSound`: with sound on, whatever plays is cut off and the effect's table starts from its first tone. */
    method PlaySound(e: SoundEffect, now: nat)
      requires Valid()
      modifies this
      ensures Valid() && soundEnabled == old(soundEnabled)
      ensures !soundEnabled ==> unchanged(this)
      ensures soundEnabled ==>
        && playing && sequence == TableOf(e) && index == 0 && total == |TableOf(e)|
        && frequency == TableOf(e)[0].frequency && toneStart == now
    {
      if !soundEnabled {
        return;
      }
      StopSound();
      CountsMatchTables(e);
      StartSequence(TableOf(e), CountOf(e), now);
    }

    /** `stopSound`. */
    method StopSound()
      modifies this`playing, this`index, this`sequence, this`frequency
      ensures !playing && index == 0 && sequence == [] && frequency == 0
    {
      playing := false;
      index := 0;
      sequence := [];
      frequency := 0;
    }

    /** `enableSound`: later effects play; nothing resumes. */
    method EnableSound()
      requires Valid()
      modifies this`soundEnabled
      ensures Valid() && soundEnabled
    {
      soundEnabled := true;
    }

    /** `disableSound`: silences the buzzer at once and keeps it silent. */
    method DisableSound()
      modifies this`soundEnabled, this`playing, this`index, this`sequence, this`frequency
      ensures Valid() && !soundEnabled && !playing && index == 0 && sequence == [] && frequency == 0
    {
      soundEnabled := false;
      StopSound();
    }
  }
}
