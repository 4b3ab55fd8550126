/**
  Tone scheduler of the final game (Final/main.cpp): `playSoundSequence`
  starts an indexed list of tones, `updateAudio` moves to the next tone each
  time the current one's duration has elapsed and stops after the last one.
  The buzzer itself is the `frequency` field: the tone last started, 0 for
  silence.
 */
module FinalAudio {
  import opened Uint

  datatype Tone = Tone(frequency: nat, duration: nat)

  const MenuMove: seq<Tone> := [Tone(800, 50)]
  const MenuSelect: seq<Tone> := [Tone(1200, 100), Tone(1500, 150)]
  const CollectStar: seq<Tone> := [Tone(1000, 80), Tone(1200, 80)]
  const LevelComplete: seq<Tone> := [Tone(1000, 100), Tone(1200, 100), Tone(1500, 100), Tone(2000, 200)]
  const Victory: seq<Tone> := [Tone(1500, 100), Tone(1800, 100), Tone(2100, 100), Tone(2500, 300)]
  const Startup: seq<Tone> := [Tone(1000, 200), Tone(1500, 200), Tone(2000, 200)]

  class Audio {
    /** `settingSoundEnabled` */
    var enabled: bool
    var playing: bool
    var sequence: seq<Tone>
    var total: nat
    var index: nat
    var toneStart: nat
    var toneDuration: nat
    /** The buzzer: frequency of the tone last started, 0 once stopped. */
    var frequency: nat

    ghost predicate Valid()
      reads this
    {
      && total <= |sequence|
      && (playing ==>
        && index < total
        && frequency == sequence[index].frequency && toneDuration == sequence[index].duration)
      && (!playing ==> frequency == 0)
    }

    /** Tones still to be started or finished: the measure `updateAudio` brings down. */
    function Remaining(): nat
      reads this
    {
      if playing && index <= total then total - index else 0
    }

    constructor (soundOn: bool)
      ensures Valid() && enabled == soundOn && !playing && frequency == 0 && index == 0
    {
      enabled := soundOn;
      playing := false;
      sequence := [];
      total := 0;
      index := 0;
      toneStart := 0;
      toneDuration := 0;
      frequency := 0;
    }

    /**
      `playSoundSequence`: with sound off nothing happens; otherwise whatever
      plays is cut off and the new sequence starts at its first tone.
     */
    method Play(s: seq<Tone>, count: nat, now: nat)
      requires Valid() && 0 < count <= |s|
      modifies this
      ensures Valid() && enabled == old(enabled)
      ensures !enabled ==> unchanged(this)
      ensures enabled ==>
        && playing && sequence == s && total == count && index == 0
        && frequency == s[0].frequency && toneStart == now && toneDuration == s[0].duration
        && Remaining() == count
    {
      if !enabled {
        return;
      }
      playing := true;
      sequence := s;
      total := count;
      index := 0;
      frequency := s[0].frequency;
      toneStart := now;
      toneDuration := s[0].duration;
    }

    /**
      `updateAudio`: once the current tone's time is up, the index moves on;
      past the last tone the buzzer falls silent, otherwise the next tone starts.
     */
    method Update(now: nat)
      requires Valid()
      modifies this
      ensures Valid() && enabled == old(enabled) && sequence == old(sequence) && total == old(total)
      ensures var due := old(playing) && enabled && Sub32(now, old(toneStart)) >= old(toneDuration);
        && (!due ==> unchanged(this))
        && (due ==> index == old(index) + 1 && Remaining() == old(Remaining()) - 1)
        && (due ==> (playing <==> index < total))
        && (due && playing ==> toneStart == now && frequency == sequence[index].frequency)
    {
      if !playing || !enabled {
        return;
      }
      if Sub32(now, toneStart) >= toneDuration {
        index := index + 1;
        if index >= total {
          playing := false;
          frequency := 0;
        } else {
          frequency := sequence[index].frequency;
          toneStart := now;
          toneDuration := sequence[index].duration;
        }
      }
    }

    /** The sound toggle of the settings menu flips the flag and touches nothing else. */
    method Toggle()
      requires Valid()
      modifies this`enabled
      ensures Valid() && enabled == !old(enabled)
    {
      enabled := !enabled;
    }
  }
}
