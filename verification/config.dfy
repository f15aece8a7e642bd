/** Fixed configuration of the bass step sequencer: grid size, the pitch of
    each grid row and the arpeggiator's interval pattern. */
module Config {

  /** Number of steps (grid columns) in one bar. */
  const Cols: nat := 16

  /** Number of pitch rows in each step. */
  const Rows: nat := 12

  /** MIDI note of each row, top row first: B1 down to C1. */
  const NoteMidi: seq<int> := [35, 34, 33, 32, 31, 30, 29, 28, 27, 26, 25, 24]

  /** Semitone offsets the arpeggiator cycles through, one per step. */
  const ArpPattern: seq<int> := [0, 3, 7, 10, 12, 10, 7, 3]

  /** Tempo used when no tempo control is present. */
  const DefaultBpm: real := 120.0

  /** A column of a randomised grid gets a note when its first draw exceeds this. */
  const FillThreshold: real := 0.3

  /** Lowest and highest note the sequencer can ever sound. */
  const LowestMidi: int := 24
  const HighestMidi: int := 47

  /** Row r sounds 35 - r: one semitone lower per row going down. */
  lemma NoteMidiIsChromaticDescent()
    ensures |NoteMidi| == Rows
    ensures forall r :: 0 <= r < Rows ==> NoteMidi[r] == 35 - r
  {
  }

  /** Every arpeggio offset lies within one octave above the base note. */
  lemma ArpPatternWithinOctave()
    ensures |ArpPattern| == 8
    ensures forall k :: 0 <= k < |ArpPattern| ==> 0 <= ArpPattern[k] <= 12
  {
  }
}
