/** Row-major enumeration of the cells of a module grid, keeping the cells
    a predicate selects. The shape renderer and both paths of the SVG
    reconstruction walk their grids this way: rows outer, columns inner,
    one drawing per selected cell. */
module Grid {

  /** `a` comes before `b` in row-major order. */
  predicate Before(a: (nat, nat), b: (nat, nat)) {
    a.0 < b.0 || (a.0 == b.0 && a.1 < b.1)
  }

  predicate Ordered(cs: seq<(nat, nat)>) {
    forall i, j :: 0 <= i < j < |cs| ==> Before(cs[i], cs[j])
  }

  /** The kept cells of row `row` among its first `cols` columns. */
  function RowCells(row: nat, cols: nat, keep: (nat, nat) -> bool): seq<(nat, nat)> {
    if cols == 0 then []
    else RowCells(row, cols - 1, keep) + (if keep(row, cols - 1) then [(row, cols - 1)] else [])
  }

  /** The kept cells of the first `rows` rows, `cols` columns each. */
  function Cells(rows: nat, cols: nat, keep: (nat, nat) -> bool): seq<(nat, nat)> {
    if rows == 0 then []
    else Cells(rows - 1, cols, keep) + RowCells(rows - 1, cols, keep)
  }

  /** Every cell of a row's enumeration lies in that row, inside the grid,
      and is kept. */
  lemma {:induction false} RowCellsSound(row: nat, cols: nat, keep: (nat, nat) -> bool)
    ensures forall k :: 0 <= k < |RowCells(row, cols, keep)| ==>
      RowCells(row, cols, keep)[k].0 == row && RowCells(row, cols, keep)[k].1 < cols &&
      keep(RowCells(row, cols, keep)[k].0, RowCells(row, cols, keep)[k].1)
  {
    if cols > 0 {
      RowCellsSound(row, cols - 1, keep);
    }
  }

  /** Every enumerated cell lies inside the grid and is kept. */
  lemma {:induction false} CellsSound(rows: nat, cols: nat, keep: (nat, nat) -> bool)
    ensures forall k :: 0 <= k < |Cells(rows, cols, keep)| ==>
      Cells(rows, cols, keep)[k].0 < rows && Cells(rows, cols, keep)[k].1 < cols &&
      keep(Cells(rows, cols, keep)[k].0, Cells(rows, cols, keep)[k].1)
  {
    if rows > 0 {
      CellsSound(rows - 1, cols, keep);
      RowCellsSound(rows - 1, cols, keep);
    }
  }

  lemma {:induction false} RowCellsComplete(row: nat, cols: nat, keep: (nat, nat) -> bool, c: nat)
    requires c < cols && keep(row, c)
    ensures (row, c) in RowCells(row, cols, keep)
  {
    if c < cols - 1 {
      RowCellsComplete(row, cols - 1, keep, c);
    }
  }

  /** A cell is enumerated exactly when it lies in the grid and is kept;
      with `Ordered`, each such cell appears once. */
  lemma {:induction false} CellsExactly(rows: nat, cols: nat, keep: (nat, nat) -> bool, r: nat, c: nat)
    ensures (r, c) in Cells(rows, cols, keep) <==> r < rows && c < cols && keep(r, c)
  {
    CellsSound(rows, cols, keep);
    if rows > 0 && r < rows && c < cols && keep(r, c) {
      if r < rows - 1 {
        CellsExactly(rows - 1, cols, keep, r, c);
      } else {
        RowCellsComplete(r, cols, keep, c);
      }
    }
  }

  lemma {:induction false} RowCellsOrdered(row: nat, cols: nat, keep: (nat, nat) -> bool)
    ensures Ordered(RowCells(row, cols, keep))
  {
    if cols > 0 {
      RowCellsOrdered(row, cols - 1, keep);
      RowCellsSound(row, cols - 1, keep);
    }
  }

  /** The enumeration is strictly increasing in row-major order, so no
      cell is visited twice. */
  lemma {:induction false} CellsOrdered(rows: nat, cols: nat, keep: (nat, nat) -> bool)
    ensures Ordered(Cells(rows, cols, keep))
  {
    if rows > 0 {
      CellsOrdered(rows - 1, cols, keep);
      RowCellsOrdered(rows - 1, cols, keep);
      CellsSound(rows - 1, cols, keep);
      RowCellsSound(rows - 1, cols, keep);
    }
  }

  /** One drawing per cell, in the cells' order. */
  function MapCells<T>(f: (nat, nat) -> T, cs: seq<(nat, nat)>): (r: seq<T>)
    ensures |r| == |cs|
    ensures forall k :: 0 <= k < |cs| ==> r[k] == f(cs[k].0, cs[k].1)
  {
    seq(|cs|, k requires 0 <= k < |cs| => f(cs[k].0, cs[k].1))
  }

  lemma MapCellsAppend<T>(f: (nat, nat) -> T, a: seq<(nat, nat)>, b: seq<(nat, nat)>)
    ensures MapCells(f, a + b) == MapCells(f, a) + MapCells(f, b)
  {
  }

  /** The kept cells a row-major walk of an n-column grid has visited
      before reaching cell (row, col). */
  function CellsUpTo(n: nat, keep: (nat, nat) -> bool, row: nat, col: nat): seq<(nat, nat)> {
    Cells(row, n, keep) + RowCells(row, col, keep)
  }

  /** Visiting cell (row, col) adds it exactly when it is kept. */
  lemma CellsUpToNext(n: nat, keep: (nat, nat) -> bool, row: nat, col: nat)
    ensures CellsUpTo(n, keep, row, col + 1) ==
      CellsUpTo(n, keep, row, col) + (if keep(row, col) then [(row, col)] else [])
  {
  }

  /** Finishing a row is starting the next one. */
  lemma CellsUpToNextRow(n: nat, keep: (nat, nat) -> bool, row: nat)
    ensures CellsUpTo(n, keep, row, n) == CellsUpTo(n, keep, row + 1, 0)
  {
    assert Cells(row + 1, n, keep) + RowCells(row + 1, 0, keep) == Cells(row + 1, n, keep);
  }

  /** After the last row the walk has visited the whole grid. */
  lemma CellsUpToEnd(n: nat, rows: nat, keep: (nat, nat) -> bool)
    ensures CellsUpTo(n, keep, rows, 0) == Cells(rows, n, keep)
  {
    assert Cells(rows, n, keep) + RowCells(rows, 0, keep) == Cells(rows, n, keep);
  }
}
