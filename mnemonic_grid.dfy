/**
 * The grid in which the account scripts print a mnemonic
 * (scripts/create_account.py and scripts/recover_account.py share the same
 * loop): rows of five words, each word with its 1-based position.
 */
module MnemonicGrid {
  /** One printed cell: a word and its 1-based position. */
  datatype Cell = Cell(position: int, word: string)

  function Min(a: int, b: int): int {
    if a < b then a else b
  }

  /** The words with their positions, 1 to n, in order: what the grid must show. */
  function Labelled(words: seq<string>): (cells: seq<Cell>)
    ensures |cells| == |words|
    ensures forall k :: 0 <= k < |words| ==> cells[k] == Cell(k + 1, words[k])
  {
    seq(|words|, k requires 0 <= k < |words| => Cell(k + 1, words[k]))
  }

  /** The cells of the rows, read row by row. */
  function Flatten(rows: seq<seq<Cell>>): seq<Cell> {
    if rows == [] then [] else Flatten(rows[..|rows| - 1]) + rows[|rows| - 1]
  }

  /** Row r of the grid holds words 5r+1 to 5r+5 (fewer in the last row), with their positions. */
  predicate RowsFit(rows: seq<seq<Cell>>, words: seq<string>) {
    forall r :: 0 <= r < |rows| ==>
      |rows[r]| == Min(5, |words| - 5 * r) &&
      forall j :: 0 <= j < |rows[r]| ==> 5 * r + j < |words| && rows[r][j] == Cell(5 * r + j + 1, words[5 * r + j])
  }

  /** The shape of the grid: ⌈n/5⌉ rows, each as `RowsFit` describes. */
  predicate IsGrid(rows: seq<seq<Cell>>, words: seq<string>) {
    |rows| == (|words| + 4) / 5 && RowsFit(rows, words)
  }

  /** The row of the cells from position i up to `end`. */
  function Row(words: seq<string>, i: nat, end: nat): (row: seq<Cell>)
    requires i <= end <= |words|
    ensures |row| == end - i
    ensures forall j :: 0 <= j < end - i ==> row[j] == Cell(i + j + 1, words[i + j])
  {
    seq(end - i, j requires 0 <= j < end - i => Cell(i + j + 1, words[i + j]))
  }

  /** Appending the next row keeps the grid's shape. */
  lemma RowsFitStep(words: seq<string>, rows: seq<seq<Cell>>, i: nat)
    requires i == 5 * |rows| && i < |words|
    requires RowsFit(rows, words)
    ensures RowsFit(rows + [Row(words, i, Min(i + 5, |words|))], words)
  {
    var next := rows + [Row(words, i, Min(i + 5, |words|))];
    forall r | 0 <= r < |next|
      ensures |next[r]| == Min(5, |words| - 5 * r)
      ensures forall j :: 0 <= j < |next[r]| ==> 5 * r + j < |words| && next[r][j] == Cell(5 * r + j + 1, words[5 * r + j])
    {
      if r < |rows| { assert next[r] == rows[r]; }
    }
  }

  /** Appending the next row extends what the grid lists by that row's words. */
  lemma FlattenStep(words: seq<string>, rows: seq<seq<Cell>>, i: nat)
    requires i < |words| && Flatten(rows) == Labelled(words)[..i]
    ensures var end := Min(i + 5, |words|);
      Flatten(rows + [Row(words, i, end)]) == Labelled(words)[..end]
  {
    var end := Min(i + 5, |words|);
    var row := Row(words, i, end);
    assert (rows + [row])[..|rows|] == rows;
    assert Flatten(rows + [row]) == Flatten(rows) + row;
    var cells := Labelled(words);
    assert cells[..end] == cells[..i] + row by {
      forall k | 0 <= k < end ensures cells[..end][k] == (cells[..i] + row)[k] {
        if k >= i { assert row[k - i] == Cell(k + 1, words[k]); }
      }
    }
  }

  /**
   * `for i in range(0, len(words), 5)`: the rows of the grid. Every row has
   * one to five cells and, read in order, the rows list each word once,
   * with its position.
   */
  method Grid(words: seq<string>) returns (rows: seq<seq<Cell>>)
    ensures IsGrid(rows, words)
    ensures forall r :: 0 <= r < |rows| ==> 0 < |rows[r]| <= 5
    ensures Flatten(rows) == Labelled(words)
  {
    rows := [];
    var i := 0;
    while i < |words|
      invariant i == 5 * |rows|
      invariant |rows| <= (|words| + 4) / 5
      invariant RowsFit(rows, words)
      invariant Flatten(rows) == Labelled(words)[..Min(i, |words|)]
      decreases |words| - i
    {
      var end := Min(i + 5, |words|);
      var chunk := words[i..end];
      var row := seq(|chunk|, j requires 0 <= j < |chunk| => Cell(i + j + 1, chunk[j]));
      assert row == Row(words, i, end);
      RowsFitStep(words, rows, i);
      FlattenStep(words, rows, i);
      rows := rows + [row];
      i := i + 5;
    }
    assert Labelled(words)[..|words|] == Labelled(words);
  }
}
