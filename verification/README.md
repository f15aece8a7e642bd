# Bass step sequencer — state machine model

A Dafny model of the monophonic bass step sequencer in `sketch.js`: a grid of
16 steps by 12 pitch rows (B1 down to C1), a playhead that a per-frame gate
advances at a sixteenth-note rate, and an arpeggiator that raises each played
note by an interval from a fixed eight-step pattern. The state is one
immutable record (`Sequencer.Machine`). Every user action and every transport
step is a pure function that returns the next state together with the sound it
asks of the synthesiser (`Sequencer.Sound`): nothing, a MIDI note to trigger,
or a fade to silence.

Modules:

- `Config` holds the grid size, the MIDI note of each row, the arpeggio pattern and the default tempo.
- `Grid` holds the note pattern: start-up initialisation, clear, the cell toggle, randomise and the search for the topmost active row.
- `Sequencer` holds the state record and the transitions: step, cell press, start/stop, arpeggiator, clear and randomise buttons.
- `Transport` holds the frame gate, the tempo-to-step-length rule, and lemmas about runs of consecutive steps.
- `Wrappers` holds the `Option` type.

Behaviour of this sequencer that differs from what a step sequencer is often assumed to do:

- The next deadline is set to `now + step` and not to `old deadline + step` (`sketch.js:104`). So a late frame delays every later step, and the deadlines drift; `Transport.FrameDeadlineFromNow` states this.
- Toggling a cell twice restores the grid only when its column held no other note. Pressing a cell empties its column first (`sketch.js:234`). `Grid.ToggleTwiceRestoresIff` states both directions.
- Randomising has no density parameter. Each column gets one note when its first draw exceeds 0.3 (`sketch.js:280`).
- Stopping fades the single oscillator over 0.1 s (`sketch.js:259`). The model emits `Mute`.
- This sequencer has one voice. It has no chord pads, no voice pool, no transpose and no UP/DOWN arpeggio patterns.

## Model

| member | source | states |
|---|---|---|
| Config.NoteMidiIsChromaticDescent | sketch.js:12 | there is one MIDI note per row, and row r sounds 35 - r, so pitch falls strictly going down the grid |
| Config.ArpPatternWithinOctave | sketch.js:23 | the arpeggio pattern has eight entries, each an offset between 0 and 12 semitones above the base note |
| Grid.InitGrid | sketch.js:39-43 | start-up builds a 16 x 12 grid with every cell off, which trivially has at most one note per column |
| Grid.Clear | sketch.js:271-275 | clearing switches every cell off and keeps the number of columns and each column's length |
| Grid.Toggle | sketch.js:232-237 | a press outside the grid changes nothing; a press on an active cell empties its column; a press on an inactive cell leaves exactly that row on in its column; no other column changes; at most one note per column is preserved |
| Grid.ToggleTwiceRestoresIff | sketch.js:233-237 | on any well-shaped grid, pressing the same cell twice gives back the original grid if and only if its column held no note in another row |
| Grid.DrawnRow | sketch.js:281 | the row drawn from a random number in [0, 12) is its floor, a valid row index |
| Grid.Place | sketch.js:280-282 | one column's draw switches on its drawn row when the gate exceeds 0.3, and leaves every other row of the column as it was |
| Grid.Scatter | sketch.js:279-284 | walking the columns in order from a start column, each later column receives its own draw, and the earlier columns are untouched |
| Grid.Randomize | sketch.js:277-284 | after randomising, a column whose gate exceeds 0.3 holds exactly its drawn row, every other column is silent, and the grid keeps its shape and one note per column |
| Grid.FirstActive | sketch.js:155-161 | the search returns the first active row at or after the start row, or reports that none of those rows is on |
| Grid.FirstActiveIsLowestActive | sketch.js:155-161 | the search from row 0 finds nothing exactly when the column is silent, and otherwise finds the topmost active row |
| Grid.LowestActiveIsHighestPitch | sketch.js:155-164 | the topmost active row has the highest MIDI note among the column's active rows |
| Sequencer.Setup | sketch.js:15-43 | the start-up state has an empty grid, playback, arpeggiator and audio off, playhead, arpeggio counter and deadline at zero, and satisfies the invariant |
| Sequencer.ArpOffset | sketch.js:166-172 | the interval added to a note lies in [0, 12], and is zero when the arpeggiator is off |
| Sequencer.PlayStep | sketch.js:152-179 | without audio a step changes nothing and sounds nothing; with audio the playhead advances modulo 16; the arpeggio counter grows by one with the arpeggiator on, for a note or a rest, and stays put with it off; a note sounds exactly when the current column is not silent, and is the topmost row's note plus the arpeggio offset, within [24, 47]; nothing else changes and the invariant is kept |
| Sequencer.PlayStepSoundsHighestPitch | sketch.js:155-172 | the note a step plays is at least every active row's note in that column, shifted by the same arpeggio offset |
| Sequencer.Press | sketch.js:232-242 | a press toggles the cell; it previews the row's note exactly when it switches a cell on while the sequencer is stopped, audio has started and the arpeggiator is off; the invariant is kept |
| Sequencer.TogglePlay | sketch.js:247-261 | start/stop always starts audio and flips playing; starting rewinds the playhead and the arpeggio counter and schedules the first step now; stopping changes nothing else and fades the voice out; the grid and the arpeggiator flag are untouched |
| Sequencer.ToggleArp | sketch.js:263-264 | the arpeggiator button flips the arpeggiator flag and changes nothing else |
| Sequencer.ToggleArpTwiceIsIdentity | sketch.js:263-264 | pressing the arpeggiator button twice restores the state |
| Sequencer.ClearPressed | sketch.js:271-275 | the clear button switches every cell off and leaves the rest of the state untouched |
| Sequencer.RandomizePressed | sketch.js:277-284 | the randomise button leaves each column holding exactly its drawn row when its gate exceeds 0.3 and silent otherwise, and changes nothing but the grid |
| Transport.Bpm | sketch.js:102 | the tempo is the control's value when there is a control, and 120 otherwise |
| Transport.StepDuration | sketch.js:103 | a step lasts 15000 / bpm milliseconds, one sixteenth note |
| Transport.Frame | sketch.js:98-106 | a frame plays a step only while playing and once the deadline has passed, then sets the next deadline one step after now; any other frame changes nothing |
| Transport.FrameDeadlineFromNow | sketch.js:100-104 | a fired frame puts the deadline after now and at least one step after the old deadline, later by exactly the frame's lateness |
| Transport.FrameFiresOncePerInstant | sketch.js:100-105 | a second frame at the same instant as the first plays nothing and changes nothing |
| Transport.Steps | sketch.js:152-179 | any number of consecutive steps keeps the playhead on a column of the grid, and keeps the sequencer invariant (one note per column, never playing without audio) |
| Transport.StepsAdvance | sketch.js:166-178 | after n steps with audio, the playhead has moved n columns modulo 16, the arpeggio counter has grown by n exactly when the arpeggiator is on, and nothing else has changed |
| Transport.StepsWithoutAudio | sketch.js:153 | before audio has started, any number of steps leaves the state unchanged |
| Transport.WholeBarsReturnPlayhead | sketch.js:178 | any whole number of 16-step bars brings the playhead back to its starting column |
| Transport.ArpeggioAtStep | sketch.js:163-172 | with the arpeggiator on, step k of a run plays the topmost note of column (c + k) mod 16, raised by pattern entry (a + k) mod 8 |

## Left out

- Synth parameters (`sketch.js:181-225`) are left out: waveform, portamento, filter, resonance, volume and decay. They are floating-point settings of an audio library. A played note is the MIDI number in `Trigger`.
- `setupSynth` and the MIDI-to-frequency conversion (`sketch.js:67-92`, `sketch.js:169`) are left out. They wrap the audio library.
- Grid drawing and the rest of `draw` (`sketch.js:94-96`, `sketch.js:109-150`) are left out. They are canvas rendering.
- Mouse hit-testing (`sketch.js:228-231`) is left out. `Sequencer.Press` takes the column and row directly, and keeps the source's range guard (`sketch.js:232`).
- Button and slider wiring is left out (`sketch.js:45-61`, `sketch.js:256-258`, `sketch.js:265-268`). The tempo control becomes an optional parameter of `Transport.Frame`.
- `random()` is not modelled as a generator. `Grid.Randomize` takes a gate draw and a row pick for every column as input, and ignores the pick when the gate is not above 0.3. The source draws the row only for a column whose gate passes; the possible outcomes are the same. Draws are exact reals, so the 0.3 threshold is exactly 3/10 rather than the nearest double.
- The clock and the audio context are left out: `millis()`, `getAudioContext().resume()` and `userStartAudio()`. The time is the parameter `now`.
- Time and tempo arithmetic is exact real arithmetic. In the source, `millis()`, the step length and the deadline are doubles, and the tempo control's text value is converted to a number by the division. So `Transport.StepDuration`'s `15000 / bpm` and `Transport.FrameDeadlineFromNow`'s "later by exactly the frame's lateness" hold in the source only up to rounding.
- Transport.Bpm: a tempo control reading zero or less is excluded by its precondition. In the source such a value would give an infinite or negative step length.
- Transport.Steps: it runs consecutive fired steps, not frames. The time between steps belongs to `Transport.Frame`.
- The arpeggio counter is an unbounded natural number. The source's counter is a floating-point number that stays exact for far more steps than any session plays.
