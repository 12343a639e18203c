/** The symbols read from the sheet: a grid of cell strings, one list per
    row, flattened row by row into the list of symbols to price. */
module SymbolGrid {
  import opened Results

  /** The `values` of a read response: a list of rows of cell strings. */
  type Grid = seq<seq<string>>

  /** Number of cells in the grid: the sum of its row lengths. */
  function CellCount(g: Grid): nat
  {
    if |g| == 0 then 0 else |g[0]| + CellCount(g[1..])
  }

  /** The grid read row-major into one list of cells. */
  function Flatten(g: Grid): (r: seq<string>)
    ensures |r| == CellCount(g)
  {
    if |g| == 0 then [] else g[0] + Flatten(g[1..])
  }

  /** The cells of a response, where a response without `values` counts as
      the empty grid. */
  function ReadSymbols(values: Option<Grid>): (symbols: seq<string>)
    ensures values.None? ==> symbols == []
    ensures values.Some? ==> |symbols| == CellCount(values.value)
  {
    match values
    case None => []
    case Some(g) => Flatten(g)
  }

  /** Flattening distributes over appending rows. */
  lemma {:induction false} FlattenAppend(a: Grid, b: Grid)
    ensures Flatten(a + b) == Flatten(a) + Flatten(b)
    decreases |a|
  {
    if |a| == 0 {
      assert a + b == b;
    } else {
      assert (a + b)[1..] == a[1..] + b;
      FlattenAppend(a[1..], b);
    }
  }

  /** Cell `j` of row `i` sits at position `CellCount(g[..i]) + j` of the
      flattened list: after the cells of the rows before it. */
  predicate AtRowMajorPosition(g: Grid, i: nat, j: nat)
    requires i < |g| && j < |g[i]|
  {
    CellCount(g[..i]) + j < |Flatten(g)| && Flatten(g)[CellCount(g[..i]) + j] == g[i][j]
  }

  lemma {:induction false} FlattenCell(g: Grid, i: nat, j: nat)
    requires i < |g| && j < |g[i]|
    ensures AtRowMajorPosition(g, i, j)
    decreases i
  {
    if i > 0 {
      assert g[..i][1..] == g[1..][..i - 1];
      assert CellCount(g[..i]) == |g[0]| + CellCount(g[1..][..i - 1]);
      FlattenCell(g[1..], i - 1, j);
    }
  }

  /** Every cell of the grid is found at its row-major position. Together
      with the length in `Flatten`'s contract this determines the list. */
  lemma FlattenIsRowMajor(g: Grid)
    ensures forall i: nat, j: nat :: i < |g| && j < |g[i]| ==> AtRowMajorPosition(g, i, j)
  {
    forall i: nat, j: nat | i < |g| && j < |g[i]| {
      FlattenCell(g, i, j);
    }
  }

  /** The nested comprehension `[item for sublist in values for item in
      sublist]`, one cell at a time. */
  method FlattenRows(g: Grid) returns (flat: seq<string>)
    ensures flat == Flatten(g)
  {
    flat := [];
    var i := 0;
    while i < |g|
      invariant 0 <= i <= |g|
      invariant flat == Flatten(g[..i])
    {
      var j := 0;
      while j < |g[i]|
        invariant 0 <= j <= |g[i]|
        invariant flat == Flatten(g[..i]) + g[i][..j]
      {
        flat := flat + [g[i][j]];
        j := j + 1;
      }
      assert g[i][..j] == g[i];
      assert g[..i + 1] == g[..i] + [g[i]];
      FlattenAppend(g[..i], [g[i]]);
      assert Flatten([g[i]]) == g[i] + Flatten([]);
      i := i + 1;
    }
    assert g[..i] == g;
  }
}
