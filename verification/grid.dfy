/** The note pattern: a grid of steps (columns) by pitch rows, `g[c][r]`
    meaning "row r sounds at step c", and the edits the user makes to it. */
module Grid {
  import opened Wrappers
  import opened Config

  type Column = seq<bool>
  type Pattern = seq<Column>

  /** The fixed shape: `Cols` columns of `Rows` cells each. */
  predicate WellShaped(g: Pattern) {
    |g| == Cols && forall c :: 0 <= c < |g| ==> |g[c]| == Rows
  }

  /** No cell of the column is on. */
  predicate Silent(col: Column) {
    forall r :: 0 <= r < |col| ==> !col[r]
  }

  /** Row `r` is the one and only cell of the column that is on. */
  predicate OnlyRow(col: Column, r: int) {
    0 <= r < |col| && forall i :: 0 <= i < |col| ==> (col[i] <==> i == r)
  }

  /** At most one cell of the column is on. */
  predicate Mono(col: Column) {
    forall i, j :: 0 <= i < |col| && 0 <= j < |col| && col[i] && col[j] ==> i == j
  }

  /** The sequencer is monophonic: every step holds at most one note. */
  predicate AtMostOnePerColumn(g: Pattern) {
    forall c :: 0 <= c < |g| ==> Mono(g[c])
  }

  /** Every cell of the grid is off. */
  predicate AllOff(g: Pattern) {
    forall c :: 0 <= c < |g| ==> Silent(g[c])
  }

  /** `row` is the topmost (lowest-index) cell of the column that is on. */
  predicate LowestActive(col: Column, row: int) {
    0 <= row < |col| && col[row] && forall k :: 0 <= k < row ==> !col[k]
  }

  /** Builds the empty grid column by column, row by row, as the sequencer does at start-up. */
  method InitGrid() returns (g: Pattern)
    ensures WellShaped(g)
    ensures AllOff(g)
    ensures AtMostOnePerColumn(g)
  {
    g := [];
    var c := 0;
    while c < Cols
      invariant 0 <= c <= Cols
      invariant |g| == c
      invariant forall k :: 0 <= k < c ==> |g[k]| == Rows && Silent(g[k])
    {
      var col: Column := [];
      var r := 0;
      while r < Rows
        invariant 0 <= r <= Rows
        invariant |col| == r
        invariant Silent(col)
      {
        col := col + [false];
        r := r + 1;
      }
      g := g + [col];
      c := c + 1;
    }
  }

  /** Switches every cell off; the shape of the grid is kept. */
  function Clear(g: Pattern): (t: Pattern)
    ensures |t| == |g|
    ensures forall c :: 0 <= c < |g| ==> |t[c]| == |g[c]|
    ensures AllOff(t)
    ensures WellShaped(g) ==> WellShaped(t)
    ensures AtMostOnePerColumn(t)
  {
    seq(|g|, c requires 0 <= c < |g| => seq(|g[c]|, _ => false))
  }

  /** A press on cell (c, r). A press outside the grid changes nothing. Otherwise
      the column is emptied, and the pressed cell is switched on unless it was
      on before, so a column never holds more than the pressed note. */
  function Toggle(g: Pattern, c: int, r: int): (t: Pattern)
    requires WellShaped(g)
    ensures WellShaped(t)
    ensures !(0 <= c < Cols && 0 <= r < Rows) ==> t == g
    ensures 0 <= c < Cols && 0 <= r < Rows && g[c][r] ==> Silent(t[c])
    ensures 0 <= c < Cols && 0 <= r < Rows && !g[c][r] ==> OnlyRow(t[c], r)
    ensures forall k :: 0 <= k < |g| && k != c ==> t[k] == g[k]
    ensures AtMostOnePerColumn(g) ==> AtMostOnePerColumn(t)
  {
    if 0 <= c < Cols && 0 <= r < Rows then
      var wasActive := g[c][r];
      var emptied := seq(Rows, _ => false);
      g[c := if wasActive then emptied else emptied[r := true]]
    else
      g
  }

  /** Toggling the same cell twice restores the grid exactly when the column
      held no note other than that cell: pressing a second row of a column
      replaces its note, and the second press then empties the column. */
  lemma ToggleTwiceRestoresIff(g: Pattern, c: int, r: int)
    requires WellShaped(g)
    requires 0 <= c < Cols && 0 <= r < Rows
    ensures Toggle(Toggle(g, c, r), c, r) == g <==>
      forall i :: 0 <= i < Rows && i != r ==> !g[c][i]
  {
    var t := Toggle(Toggle(g, c, r), c, r);
    if forall i :: 0 <= i < Rows && i != r ==> !g[c][i] {
      assert t[c] == g[c];
      assert forall k :: 0 <= k < Cols ==> t[k] == g[k];
    } else {
      var i :| 0 <= i < Rows && i != r && g[c][i];
      assert !t[c][i];
    }
  }

  /** The two random numbers drawn for one column when the grid is randomised:
      `gate` in [0, 1) decides whether the column gets a note, `pick` in
      [0, Rows) chooses its row. */
  datatype ColumnDraw = ColumnDraw(gate: real, pick: real)

  predicate ValidDraw(d: ColumnDraw) {
    0.0 <= d.gate < 1.0 && 0.0 <= d.pick < Rows as real
  }

  predicate ValidDraws(draws: seq<ColumnDraw>) {
    |draws| == Cols && forall k :: 0 <= k < |draws| ==> ValidDraw(draws[k])
  }

  /** The column receives a note. */
  predicate Fills(d: ColumnDraw) {
    d.gate > FillThreshold
  }

  /** The row chosen by the draw, rounded down. */
  function DrawnRow(d: ColumnDraw): (r: int)
    requires ValidDraw(d)
    ensures 0 <= r < Rows
    ensures r as real <= d.pick < r as real + 1.0
  {
    d.pick.Floor
  }

  /** What one column's draw does to that column: switches its drawn row on if the draw fills. */
  function Place(col: Column, d: ColumnDraw): (t: Column)
    requires |col| == Rows
    requires ValidDraw(d)
    ensures |t| == Rows
    ensures forall i :: 0 <= i < Rows && i != DrawnRow(d) ==> t[i] == col[i]
    ensures t[DrawnRow(d)] == (col[DrawnRow(d)] || Fills(d))
  {
    if Fills(d) then col[DrawnRow(d) := true] else col
  }

  /** Placing a draw in a silent column leaves it silent, or holding only the drawn row. */
  lemma PlaceInSilentColumn(col: Column, d: ColumnDraw)
    requires |col| == Rows && Silent(col)
    requires ValidDraw(d)
    ensures Fills(d) ==> OnlyRow(Place(col, d), DrawnRow(d))
    ensures !Fills(d) ==> Silent(Place(col, d))
    ensures Mono(Place(col, d))
  {
  }

  /** Applies the draws of columns `c` onward, in column order. */
  function Scatter(g: Pattern, draws: seq<ColumnDraw>, c: nat): (t: Pattern)
    requires WellShaped(g)
    requires ValidDraws(draws)
    requires c <= Cols
    decreases Cols - c
    ensures WellShaped(t)
    ensures forall k :: 0 <= k < c ==> t[k] == g[k]
    ensures forall k :: c <= k < Cols ==> t[k] == Place(g[k], draws[k])
  {
    if c == Cols then
      g
    else
      Scatter(g[c := Place(g[c], draws[c])], draws, c + 1)
  }

  /** Clears the grid, then gives each column whose draw fills the single note it drew. */
  function Randomize(g: Pattern, draws: seq<ColumnDraw>): (t: Pattern)
    requires WellShaped(g)
    requires ValidDraws(draws)
    ensures WellShaped(t)
    ensures AtMostOnePerColumn(t)
    ensures forall k :: 0 <= k < Cols && Fills(draws[k]) ==> OnlyRow(t[k], DrawnRow(draws[k]))
    ensures forall k :: 0 <= k < Cols && !Fills(draws[k]) ==> Silent(t[k])
  {
    var cleared := Clear(g);
    var t := Scatter(cleared, draws, 0);
    assert forall k :: 0 <= k < Cols ==>
      (Fills(draws[k]) ==> OnlyRow(t[k], DrawnRow(draws[k])))
      && (!Fills(draws[k]) ==> Silent(t[k])) && Mono(t[k]) by {
      forall k | 0 <= k < Cols
        ensures Fills(draws[k]) ==> OnlyRow(t[k], DrawnRow(draws[k]))
        ensures !Fills(draws[k]) ==> Silent(t[k])
        ensures Mono(t[k])
      {
        PlaceInSilentColumn(cleared[k], draws[k]);
      }
    }
    t
  }

  /** Searches the column from row `from` downward for the first cell that is on. */
  function FirstActive(col: Column, from: nat): (r: Option<nat>)
    requires from <= |col|
    decreases |col| - from
    ensures r.Some? ==> from <= r.value < |col| && col[r.value]
    ensures r.Some? ==> forall k :: from <= k < r.value ==> !col[k]
    ensures r.None? ==> forall k :: from <= k < |col| ==> !col[k]
  {
    if from == |col| then None
    else if col[from] then Some(from)
    else FirstActive(col, from + 1)
  }

  /** A search from the top finds the topmost active row, and finds nothing only in a silent column. */
  lemma FirstActiveIsLowestActive(col: Column)
    ensures FirstActive(col, 0).None? <==> Silent(col)
    ensures forall row :: LowestActive(col, row) <==> FirstActive(col, 0) == Some(row)
  {
  }

  /** Because row pitches descend, the topmost active row is the highest pitch
      of the column. */
  lemma LowestActiveIsHighestPitch(col: Column, row: int)
    requires |col| == Rows
    requires LowestActive(col, row)
    ensures forall k :: 0 <= k < Rows && col[k] ==> NoteMidi[k] <= NoteMidi[row]
  {
    NoteMidiIsChromaticDescent();
  }
}
