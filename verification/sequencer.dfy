/** The sequencer's state and the transitions the user and the transport make
    on it. Each transition returns the new state together with the sound it
    asks the synthesiser for, instead of calling the synthesiser. */
module Sequencer {
  import opened Wrappers
  import opened Config
  import opened Grid

  /** What a transition asks of the synthesiser: nothing, a note to play
      (given as a MIDI note number), or a quick fade to silence. */
  datatype Sound = NoSound | Trigger(midi: int) | Mute

  /** The whole mutable state of the sequencer. `nextStepTime` is in milliseconds. */
  datatype Machine = Machine(
    grid: Pattern,
    currentStep: nat,
    isPlaying: bool,
    isArpActive: bool,
    isAudioStarted: bool,
    arpIndex: nat,
    nextStepTime: real)

  /** A transition's result: the next state and the sound it emits. */
  datatype Outcome = Outcome(state: Machine, sound: Sound)

  /** What a step needs: a grid of the fixed shape and a playhead on one of its columns. */
  predicate Playable(s: Machine) {
    WellShaped(s.grid) && s.currentStep < Cols
  }

  /** The sequencer's invariant: playable, monophonic, and never playing without audio. */
  predicate Valid(s: Machine) {
    Playable(s) && AtMostOnePerColumn(s.grid) && (s.isPlaying ==> s.isAudioStarted)
  }

  /** The state after start-up: empty grid, stopped, arpeggiator off, audio not started. */
  method Setup() returns (s: Machine)
    ensures Valid(s)
    ensures AllOff(s.grid)
    ensures !s.isPlaying && !s.isArpActive && !s.isAudioStarted
    ensures s.currentStep == 0 && s.arpIndex == 0 && s.nextStepTime == 0.0
  {
    var g := InitGrid();
    s := Machine(g, 0, false, false, false, 0, 0.0);
  }

  /** The arpeggio offset the next step applies: zero with the arpeggiator off. */
  function ArpOffset(s: Machine): (d: int)
    ensures 0 <= d <= 12
    ensures !s.isArpActive ==> d == 0
  {
    ArpPatternWithinOctave();
    if s.isArpActive then ArpPattern[s.arpIndex % |ArpPattern|] else 0
  }

  /** One step of the transport. Without audio nothing happens. Otherwise the
      topmost active row of the current column is played, raised by the
      arpeggio offset when the arpeggiator is on; the arpeggio counter moves
      on every step while the arpeggiator is on, rest or note; and the
      playhead advances, wrapping after the last column. */
  function PlayStep(s: Machine): (o: Outcome)
    requires Playable(s)
    ensures Playable(o.state)
    ensures !s.isAudioStarted ==> o == Outcome(s, NoSound)
    ensures s.isAudioStarted ==> o.state.currentStep == (s.currentStep + 1) % Cols
    ensures s.isAudioStarted && s.isArpActive ==> o.state.arpIndex == s.arpIndex + 1
    ensures !s.isArpActive ==> o.state.arpIndex == s.arpIndex
    ensures o.state.(currentStep := s.currentStep, arpIndex := s.arpIndex) == s
    ensures o.sound != Mute
    ensures o.sound.Trigger? <==> s.isAudioStarted && !Silent(s.grid[s.currentStep])
    ensures o.sound.Trigger? ==> forall row :: LowestActive(s.grid[s.currentStep], row) ==>
      o.sound.midi == NoteMidi[row] + ArpOffset(s)
    ensures o.sound.Trigger? ==> LowestMidi <= o.sound.midi <= HighestMidi
    ensures Valid(s) ==> Valid(o.state)
  {
    if !s.isAudioStarted then
      Outcome(s, NoSound)
    else
      var next := (s.currentStep + 1) % Cols;
      var arp := if s.isArpActive then s.arpIndex + 1 else s.arpIndex;
      var sound := match FirstActive(s.grid[s.currentStep], 0)
        case Some(row) => Trigger(NoteMidi[row] + ArpOffset(s))
        case None => NoSound;
      NoteMidiIsChromaticDescent();
      FirstActiveIsLowestActive(s.grid[s.currentStep]);
      Outcome(s.(currentStep := next, arpIndex := arp), sound)
  }

  /** A played note is the highest pitch of the column, shifted by the arpeggio offset. */
  lemma PlayStepSoundsHighestPitch(s: Machine, k: int)
    requires Playable(s)
    requires PlayStep(s).sound.Trigger?
    requires 0 <= k < Rows && s.grid[s.currentStep][k]
    ensures NoteMidi[k] + ArpOffset(s) <= PlayStep(s).sound.midi
  {
    var col := s.grid[s.currentStep];
    var row := FirstActive(col, 0).value;
    FirstActiveIsLowestActive(col);
    LowestActiveIsHighestPitch(col, row);
  }

  /** A press on grid cell (c, r). The grid is toggled; when the sequencer is
      stopped, audio has started and the arpeggiator is off, a press that
      switches a cell on also previews that row's note. */
  function Press(s: Machine, c: int, r: int): (o: Outcome)
    requires WellShaped(s.grid)
    ensures o.state == s.(grid := Toggle(s.grid, c, r))
    ensures o.sound != Mute
    ensures o.sound.Trigger? <==>
      0 <= c < Cols && 0 <= r < Rows && !s.grid[c][r]
      && !s.isPlaying && s.isAudioStarted && !s.isArpActive
    ensures o.sound.Trigger? ==> o.sound.midi == NoteMidi[r]
    ensures Valid(s) ==> Valid(o.state)
  {
    var g := Toggle(s.grid, c, r);
    if 0 <= c < Cols && 0 <= r < Rows && !s.grid[c][r]
      && !s.isPlaying && s.isAudioStarted && !s.isArpActive
    then
      Outcome(s.(grid := g), Trigger(NoteMidi[r]))
    else
      Outcome(s.(grid := g), NoSound)
  }

  /** The start/stop button, pressed at time `now`. Audio is started and the
      play flag flips; starting rewinds the playhead and the arpeggio and
      schedules the first step for `now`; stopping fades the voice out. */
  function TogglePlay(s: Machine, now: real): (o: Outcome)
    ensures o.state.isAudioStarted
    ensures o.state.isPlaying == !s.isPlaying
    ensures o.state.grid == s.grid && o.state.isArpActive == s.isArpActive
    ensures o.state.isPlaying ==>
      o.state.currentStep == 0 && o.state.arpIndex == 0 && o.state.nextStepTime == now
      && o.sound == NoSound
    ensures !o.state.isPlaying ==>
      o.state.(isPlaying := s.isPlaying, isAudioStarted := s.isAudioStarted) == s
      && o.sound == Mute
    ensures Valid(s) ==> Valid(o.state)
  {
    var playing := !s.isPlaying;
    if playing then
      Outcome(s.(isAudioStarted := true, isPlaying := true, currentStep := 0, arpIndex := 0,
                 nextStepTime := now), NoSound)
    else
      Outcome(s.(isAudioStarted := true, isPlaying := false), Mute)
  }

  /** The arpeggiator button: flips the arpeggiator and nothing else. */
  function ToggleArp(s: Machine): (t: Machine)
    ensures t.isArpActive == !s.isArpActive
    ensures t.(isArpActive := s.isArpActive) == s
    ensures Valid(s) ==> Valid(t)
  {
    s.(isArpActive := !s.isArpActive)
  }

  /** Pressing the arpeggiator button twice changes nothing. */
  lemma ToggleArpTwiceIsIdentity(s: Machine)
    ensures ToggleArp(ToggleArp(s)) == s
  {
  }

  /** The clear button: every cell off, the rest of the state untouched. */
  function ClearPressed(s: Machine): (t: Machine)
    ensures AllOff(t.grid)
    ensures t.(grid := s.grid) == s
    ensures Valid(s) ==> Valid(t)
  {
    s.(grid := Clear(s.grid))
  }

  /** The randomise button, with the random numbers it draws given as `draws`. */
  function RandomizePressed(s: Machine, draws: seq<ColumnDraw>): (t: Machine)
    requires WellShaped(s.grid)
    requires ValidDraws(draws)
    ensures WellShaped(t.grid)
    ensures forall k :: 0 <= k < Cols && Fills(draws[k]) ==> OnlyRow(t.grid[k], DrawnRow(draws[k]))
    ensures forall k :: 0 <= k < Cols && !Fills(draws[k]) ==> Silent(t.grid[k])
    ensures AtMostOnePerColumn(t.grid)
    ensures t.(grid := s.grid) == s
    ensures Valid(s) ==> Valid(t)
  {
    s.(grid := Randomize(s.grid, draws))
  }
}
