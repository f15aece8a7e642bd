/** The transport: the per-frame gate that fires a step once its deadline has
    passed, and what a run of consecutive steps does to the playhead and the
    arpeggiator. */
module Transport {
  import opened Wrappers
  import opened Config
  import opened Grid
  import opened Sequencer

  /** The tempo in beats per minute: the tempo control's value, or the default without one. */
  function Bpm(tempo: Option<real>): (bpm: real)
    requires tempo.Some? ==> tempo.value > 0.0
    ensures bpm > 0.0
    ensures tempo.Some? ==> bpm == tempo.value
    ensures tempo.None? ==> bpm == DefaultBpm
  {
    tempo.GetOr(DefaultBpm)
  }

  /** Length of one sixteenth-note step in milliseconds. */
  function StepDuration(bpm: real): (ms: real)
    requires bpm > 0.0
    ensures ms > 0.0
    ensures ms * bpm == 15000.0
  {
    (60.0 / bpm) * 1000.0 / 4.0
  }

  /** One animation frame at time `now` (milliseconds). While playing and once
      the deadline has passed, one step is played and the next deadline is
      set one step after `now`; in every other case nothing changes. */
  function Frame(s: Machine, now: real, tempo: Option<real>): (o: Outcome)
    requires Playable(s)
    requires tempo.Some? ==> tempo.value > 0.0
    ensures !(s.isPlaying && now >= s.nextStepTime) ==> o == Outcome(s, NoSound)
    ensures s.isPlaying && now >= s.nextStepTime ==>
      o.sound == PlayStep(s).sound
      && o.state == PlayStep(s).state.(nextStepTime := now + StepDuration(Bpm(tempo)))
    ensures Playable(o.state)
    ensures Valid(s) ==> Valid(o.state)
  {
    if s.isPlaying && now >= s.nextStepTime then
      var step := PlayStep(s);
      Outcome(step.state.(nextStepTime := now + StepDuration(Bpm(tempo))), step.sound)
    else
      Outcome(s, NoSound)
  }

  /** A fired frame moves the deadline strictly past `now`, never backwards, and
      measures it from `now`: a late frame pushes every later step back by its
      lateness instead of catching up. */
  lemma FrameDeadlineFromNow(s: Machine, now: real, tempo: Option<real>)
    requires Playable(s)
    requires tempo.Some? ==> tempo.value > 0.0
    requires s.isPlaying && now >= s.nextStepTime
    ensures Frame(s, now, tempo).state.nextStepTime > now
    ensures Frame(s, now, tempo).state.nextStepTime
      == s.nextStepTime + StepDuration(Bpm(tempo)) + (now - s.nextStepTime)
    ensures Frame(s, now, tempo).state.nextStepTime >= s.nextStepTime + StepDuration(Bpm(tempo))
  {
  }

  /** A second frame at the same instant as a fired frame does not fire again. */
  lemma FrameFiresOncePerInstant(s: Machine, now: real, tempo: Option<real>)
    requires Playable(s)
    requires tempo.Some? ==> tempo.value > 0.0
    ensures var o := Frame(s, now, tempo);
      Frame(o.state, now, tempo) == Outcome(o.state, NoSound)
  {
  }

  /** The state after `n` consecutive steps. */
  function Steps(s: Machine, n: nat): (t: Machine)
    requires Playable(s)
    ensures Playable(t)
    ensures Valid(s) ==> Valid(t)
    decreases n
  {
    if n == 0 then s else Steps(PlayStep(s).state, n - 1)
  }

  /** With audio started, `n` steps move the playhead `n` columns on, wrapping
      modulo the column count, advance the arpeggio counter by `n` exactly when
      the arpeggiator is on, and change nothing else. */
  lemma {:induction false} StepsAdvance(s: Machine, n: nat)
    requires Playable(s)
    requires s.isAudioStarted
    ensures Steps(s, n).currentStep == (s.currentStep + n) % Cols
    ensures Steps(s, n).arpIndex == s.arpIndex + (if s.isArpActive then n else 0)
    ensures Steps(s, n).(currentStep := s.currentStep, arpIndex := s.arpIndex) == s
    decreases n
  {
    if n > 0 {
      var t := PlayStep(s).state;
      StepsAdvance(t, n - 1);
      assert (t.currentStep + (n - 1)) % Cols == (s.currentStep + n) % Cols;
    }
  }

  /** Before audio has started, steps change nothing at all. */
  lemma {:induction false} StepsWithoutAudio(s: Machine, n: nat)
    requires Playable(s)
    requires !s.isAudioStarted
    ensures Steps(s, n) == s
    decreases n
  {
    if n > 0 {
      StepsWithoutAudio(PlayStep(s).state, n - 1);
    }
  }

  /** Any whole number of bars brings the playhead back to where it started. */
  lemma WholeBarsReturnPlayhead(s: Machine, bars: nat)
    requires Playable(s)
    ensures Steps(s, bars * Cols).currentStep == s.currentStep
  {
    var n := bars * Cols;
    if s.isAudioStarted {
      StepsAdvance(s, n);
      assert (s.currentStep + bars * Cols) % Cols == s.currentStep % Cols by {
        ModuloOfWholeBars(s.currentStep, bars);
      }
    } else {
      StepsWithoutAudio(s, n);
    }
  }

  /** Adding whole bars does not change a column index modulo the bar length. */
  lemma {:induction false} ModuloOfWholeBars(c: nat, bars: nat)
    ensures (c + bars * Cols) % Cols == c % Cols
    decreases bars
  {
    if bars > 0 {
      ModuloOfWholeBars(c, bars - 1);
      assert c + bars * Cols == (c + (bars - 1) * Cols) + Cols;
    }
  }

  /** The note played at step `k` of a run with the arpeggiator on: the
      highest pitch of column `(c + k) mod Cols` raised by arpeggio offset
      `(a + k) mod 8`, where c and a are the playhead and counter at the start. */
  lemma ArpeggioAtStep(s: Machine, k: nat, row: int)
    requires Playable(s)
    requires s.isAudioStarted && s.isArpActive
    requires LowestActive(s.grid[(s.currentStep + k) % Cols], row)
    ensures PlayStep(Steps(s, k)).sound
      == Trigger(NoteMidi[row] + ArpPattern[(s.arpIndex + k) % |ArpPattern|])
  {
    StepsAdvance(s, k);
    var t := Steps(s, k);
    assert t.grid == s.grid;
    assert !Silent(t.grid[t.currentStep]);
  }
}
