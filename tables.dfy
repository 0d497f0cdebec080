/**
 * The pandas tables of the benchmark results: rows are graph names,
 * columns are index names, and each cell holds a number (milliseconds,
 * megabytes or a negative sentinel code). A cell missing from `cells` is
 * NaN, which is what pandas puts where a join or an append has no value.
 */
module Tables {
  import opened Text

  datatype Table = Table(rows: seq<string>, cols: seq<string>, cells: map<(string, string), real>)

  /** The cell at row g and column i; None is NaN. */
  function At(t: Table, g: string, i: string): Option<real>
  {
    if (g, i) in t.cells then Some(t.cells[(g, i)]) else None
  }

  /** The row labels of a table, as a set (pandas sorts an unequal union, so order is not kept). */
  function RowSet(t: Table): set<string>
  {
    set g | g in t.rows
  }

  /** The column labels of a table, as a set. */
  function ColSet(t: Table): set<string>
  {
    set i | i in t.cols
  }

  /** Every (row, column) pair of the given labels. */
  function Grid(rows: seq<string>, cols: seq<string>): set<(string, string)>
  {
    set g, i | g in rows && i in cols :: (g, i)
  }

  /** A table over the given labels with every cell set to v (`DataFrame(...).fillna(v)`). */
  function Filled(rows: seq<string>, cols: seq<string>, v: real): (r: Table)
    ensures r.rows == rows && r.cols == cols
    ensures forall g, i :: At(r, g, i) == (if g in rows && i in cols then Some(v) else None)
  {
    Table(rows, cols, map k | k in Grid(rows, cols) :: v)
  }

  /** `df.at[g, i] = v`: one cell set; a new row or column label is added (filled with NaN). */
  function SetCell(t: Table, g: string, i: string, v: Option<real>): (r: Table)
    ensures At(r, g, i) == v
    ensures forall h, j :: (h, j) != (g, i) ==> At(r, h, j) == At(t, h, j)
    ensures forall h :: h in r.rows <==> h in t.rows || h == g
    ensures forall j :: j in r.cols <==> j in t.cols || j == i
  {
    Table(
      if g in t.rows then t.rows else t.rows + [g],
      if i in t.cols then t.cols else t.cols + [i],
      if v.Some? then t.cells[(g, i) := v.value] else t.cells - {(g, i)})
  }

  /** Every label of `s` except the first occurrence of x (`list.remove`). */
  function Remove(s: seq<string>, x: string): (r: seq<string>)
    ensures x !in s ==> r == s
    ensures x in s ==> |r| == |s| - 1
    ensures forall y :: y != x ==> (y in r <==> y in s)
  {
    if |s| == 0 then []
    else if s[0] == x then s[1..]
    else [s[0]] + Remove(s[1..], x)
  }

  /** The labels with every occurrence of x dropped (`df.drop(index=x)`). */
  function Without(s: seq<string>, x: string): (r: seq<string>)
    ensures x !in r
    ensures forall y :: y != x ==> (y in r <==> y in s)
  {
    if |s| == 0 then []
    else if s[0] == x then Without(s[1..], x)
    else [s[0]] + Without(s[1..], x)
  }

  /** The labels with every x replaced by y (`df.rename(index={x: y})`). */
  function Relabel(s: seq<string>, x: string, y: string): (r: seq<string>)
    ensures |r| == |s|
    ensures forall k :: 0 <= k < |s| ==> r[k] == (if s[k] == x then y else s[k])
  {
    if |s| == 0 then [] else [if s[0] == x then y else s[0]] + Relabel(s[1..], x, y)
  }

  /** Keys of the cells after renaming row x to y. */
  function RowRenamedKeys(cells: map<(string, string), real>, x: string, y: string): set<(string, string)>
  {
    (set k | k in cells && k.0 != x) + (set k | k in cells && k.0 == x :: (y, k.1))
  }

  /** `df.rename(index={x: y})`: row x is now called y; a table without row x is left as it is. */
  function RenameRow(t: Table, x: string, y: string): (r: Table)
    ensures r.cols == t.cols && r.rows == Relabel(t.rows, x, y)
  {
    Table(Relabel(t.rows, x, y), t.cols,
      map k | k in RowRenamedKeys(t.cells, x, y) :: if k.0 == y && (x, k.1) in t.cells then t.cells[(x, k.1)] else t.cells[k])
  }

  /** Row y of the renamed table holds row x's cells; row x is gone; other rows keep their cells. */
  lemma RenameRowCells(t: Table, x: string, y: string, g: string, i: string)
    ensures At(RenameRow(t, x, y), g, i) ==
      (if x == y then At(t, g, i)
       else if g == y && (x, i) in t.cells then At(t, x, i)
       else if g == x then None
       else At(t, g, i))
  {
    if g == y && (x, i) in t.cells {
      assert (y, i) in RowRenamedKeys(t.cells, x, y);
    }
  }

  /** Renaming x to a new label y and back gives the labels back. */
  lemma {:induction false} RelabelBack(s: seq<string>, x: string, y: string)
    requires y !in s
    ensures Relabel(Relabel(s, x, y), y, x) == s
    decreases |s|
  {
    if |s| > 0 {
      RelabelBack(s[1..], x, y);
      var once := Relabel(s, x, y);
      assert once[1..] == Relabel(s[1..], x, y);
      assert Relabel(once, y, x) == [s[0]] + Relabel(once[1..], y, x);
      assert [s[0]] + s[1..] == s;
    }
  }

  /** Renaming row x to a row name the table does not use, and back, restores every cell. */
  lemma RenameRowBack(t: Table, x: string, y: string)
    requires forall i :: (y, i) !in t.cells
    ensures forall g, i :: At(RenameRow(RenameRow(t, x, y), y, x), g, i) == At(t, g, i)
  {
    forall g, i
      ensures At(RenameRow(RenameRow(t, x, y), y, x), g, i) == At(t, g, i)
    {
      RenameRowCells(RenameRow(t, x, y), y, x, g, i);
      RenameRowCells(t, x, y, g, i);
      RenameRowCells(t, x, y, y, i);
    }
  }

  /** Keys of the cells after renaming column x to y. */
  function ColRenamedKeys(cells: map<(string, string), real>, x: string, y: string): set<(string, string)>
  {
    (set k | k in cells && k.1 != x) + (set k | k in cells && k.1 == x :: (k.0, y))
  }

  /** `df.rename(columns={x: y})`. */
  function RenameCol(t: Table, x: string, y: string): (r: Table)
    ensures r.rows == t.rows && r.cols == Relabel(t.cols, x, y)
  {
    Table(t.rows, Relabel(t.cols, x, y),
      map k | k in ColRenamedKeys(t.cells, x, y) :: if k.1 == y && (k.0, x) in t.cells then t.cells[(k.0, x)] else t.cells[k])
  }

  /** Column y of the renamed table holds column x's cells; column x is gone. */
  lemma RenameColCells(t: Table, x: string, y: string, g: string, i: string)
    ensures At(RenameCol(t, x, y), g, i) ==
      (if x == y then At(t, g, i)
       else if i == y && (g, x) in t.cells then At(t, g, x)
       else if i == x then None
       else At(t, g, i))
  {
    if i == y && (g, x) in t.cells {
      assert (g, y) in ColRenamedKeys(t.cells, x, y);
    }
  }

  /** Renaming column x to a column name the table does not use, and back, restores every cell. */
  lemma RenameColBack(t: Table, x: string, y: string)
    requires forall g :: (g, y) !in t.cells
    ensures forall g, i :: At(RenameCol(RenameCol(t, x, y), y, x), g, i) == At(t, g, i)
  {
    forall g, i
      ensures At(RenameCol(RenameCol(t, x, y), y, x), g, i) == At(t, g, i)
    {
      RenameColCells(RenameCol(t, x, y), y, x, g, i);
      RenameColCells(t, x, y, g, i);
      RenameColCells(t, x, y, g, y);
    }
  }

  /** `df.drop(index=g)`: the row and its cells are gone, the rest is kept. */
  function DropRow(t: Table, g: string): (r: Table)
    ensures r.cols == t.cols && r.rows == Without(t.rows, g)
    ensures forall h, i :: At(r, h, i) == (if h == g then None else At(t, h, i))
  {
    Table(Without(t.rows, g), t.cols, map k | k in t.cells && k.0 != g :: t.cells[k])
  }

  /** `df.drop(columns=i)`. */
  function DropCol(t: Table, i: string): (r: Table)
    ensures r.rows == t.rows && r.cols == Without(t.cols, i)
    ensures forall g, j :: At(r, g, j) == (if j == i then None else At(t, g, j))
  {
    Table(t.rows, Without(t.cols, i), map k | k in t.cells && k.1 != i :: t.cells[k])
  }

  /** The labels of b that a does not have, in b's order. */
  function Missing(a: seq<string>, b: seq<string>): (r: seq<string>)
    ensures forall x :: x in r <==> x in b && x !in a
  {
    if |b| == 0 then []
    else if b[|b| - 1] in a then Missing(a, b[..|b| - 1])
    else Missing(a, b[..|b| - 1]) + [b[|b| - 1]]
  }

  /** `list(dict.fromkeys(a + b))`: a followed by b's new labels, without repeats. */
  function Union(a: seq<string>, b: seq<string>): (r: seq<string>)
    ensures forall x :: x in r <==> x in a || x in b
  {
    a + Missing(a, b)
  }

  /**
   * `a.join(b)`: a's rows, a's columns then b's, and b's cells for the rows
   * a has. pandas raises when the tables share a column (None).
   */
  function JoinColumns(a: Table, b: Table): (r: Option<Table>)
    ensures r.None? <==> exists i :: i in a.cols && i in b.cols
    ensures r.Some? ==> r.value.rows == a.rows && r.value.cols == a.cols + b.cols
    ensures r.Some? ==> forall g, i :: At(r.value, g, i) ==
                          (if i in a.cols then At(a, g, i) else if g in a.rows && i in b.cols then At(b, g, i) else None)
  {
    if exists i :: i in a.cols && i in b.cols then None
    else
      Some(Table(a.rows, a.cols + b.cols,
        map k | k in (set k | k in a.cells && k.1 in a.cols) + (set k | k in b.cells && k.0 in a.rows && k.1 in b.cols) ::
          if k in a.cells && k.1 in a.cols then a.cells[k] else b.cells[k]))
  }

  /** A column of value v added to every row (`df[i] = v`). */
  function AddColumn(t: Table, i: string, v: real): (r: Table)
    ensures r.rows == t.rows
    ensures i in r.cols && forall j :: j in r.cols <==> j in t.cols || j == i
    ensures forall g, j :: At(r, g, j) == (if j == i && g in t.rows then Some(v) else At(t, g, j))
  {
    Table(t.rows, if i in t.cols then t.cols else t.cols + [i],
      map k | k in (set k | k in t.cells && !(k.1 == i && k.0 in t.rows)) + (set g | g in t.rows :: (g, i)) ::
        if k.1 == i && k.0 in t.rows then v else t.cells[k])
  }

  /** A row of value v added for every column (`df.loc[g] = v`). */
  function AddRow(t: Table, g: string, v: real): (r: Table)
    ensures r.cols == t.cols
    ensures g in r.rows && forall h :: h in r.rows <==> h in t.rows || h == g
    ensures forall h, j :: At(r, h, j) == (if h == g && j in t.cols then Some(v) else At(t, h, j))
  {
    Table(if g in t.rows then t.rows else t.rows + [g], t.cols,
      map k | k in (set k | k in t.cells && !(k.0 == g && k.1 in t.cols)) + (set j | j in t.cols :: (g, j)) ::
        if k.0 == g && k.1 in t.cols then v else t.cells[k])
  }

  /**
   * `a.append(b)`: b's rows below a's, over the union of the columns; a
   * cell a row's own table lacks is NaN. When both tables hold the same
   * row, pandas keeps two rows of that name; the model keeps b's.
   */
  function AppendRows(a: Table, b: Table): (r: Table)
    ensures r.rows == a.rows + b.rows && r.cols == Union(a.cols, b.cols)
    ensures forall g, i :: At(r, g, i) ==
              (if g in b.rows then (if i in b.cols then At(b, g, i) else None)
               else if g in a.rows && i in a.cols then At(a, g, i) else None)
  {
    Table(a.rows + b.rows, Union(a.cols, b.cols),
      map k | k in (set k | k in a.cells && k.0 in a.rows && k.0 !in b.rows && k.1 in a.cols) +
                   (set k | k in b.cells && k.0 in b.rows && k.1 in b.cols) ::
        if k.0 in b.rows then b.cells[k] else a.cells[k])
  }

  /** `a + b`: cell-wise sum over the union of labels; NaN wherever either side is NaN. */
  function Plus(a: Table, b: Table): (r: Table)
    ensures r.rows == Union(a.rows, b.rows) && r.cols == Union(a.cols, b.cols)
    ensures forall g, i :: At(r, g, i) ==
              (if At(a, g, i).Some? && At(b, g, i).Some? then Some(At(a, g, i).value + At(b, g, i).value) else None)
  {
    Table(Union(a.rows, b.rows), Union(a.cols, b.cols),
      map k | k in a.cells && k in b.cells :: a.cells[k] + b.cells[k])
  }

  /** `a + b` is indexed by the union of both tables' rows and of their columns. */
  lemma PlusLabels(a: Table, b: Table)
    ensures RowSet(Plus(a, b)) == RowSet(a) + RowSet(b) && ColSet(Plus(a, b)) == ColSet(a) + ColSet(b)
  {
    var r := Plus(a, b);
    assert forall g :: g in RowSet(r) <==> g in r.rows;
    assert forall i :: i in ColSet(r) <==> i in r.cols;
  }

  /** Every cell replaced by f of it; NaN stays NaN. */
  function MapCells(t: Table, f: real -> real): (r: Table)
    ensures r.rows == t.rows && r.cols == t.cols
    ensures forall g, i :: At(r, g, i) == (if At(t, g, i).Some? then Some(f(At(t, g, i).value)) else None)
  {
    Table(t.rows, t.cols, map k | k in t.cells :: f(t.cells[k]))
  }

  /** Every cell of row g replaced by f of it; other rows unchanged. */
  function MapRow(t: Table, g: string, f: real -> real): (r: Table)
    ensures r.rows == t.rows && r.cols == t.cols
    ensures forall h, i :: At(r, h, i) ==
              (if h == g && At(t, h, i).Some? then Some(f(At(t, h, i).value)) else At(t, h, i))
  {
    Table(t.rows, t.cols, map k | k in t.cells :: if k.0 == g then f(t.cells[k]) else t.cells[k])
  }

  /**
   * `t.loc[g] = src.loc[g]`: row g of t takes src's row, aligned on the
   * column labels; a column src does not have becomes NaN.
   */
  function CopyRow(t: Table, src: Table, g: string): (r: Table)
    ensures r.cols == t.cols
    ensures forall h, j :: At(r, h, j) ==
              (if h == g && j in t.cols then (if j in src.cols then At(src, g, j) else None) else At(t, h, j))
  {
    Table(if g in t.rows then t.rows else t.rows + [g], t.cols,
      map k | k in (set k | k in t.cells && !(k.0 == g && k.1 in t.cols)) +
                   (set j | j in t.cols && j in src.cols && (g, j) in src.cells :: (g, j)) ::
        if k.0 == g && k.1 in t.cols then src.cells[k] else t.cells[k])
  }

  /** `(df.loc[g] == v).any()`: some cell of row g holds v. */
  predicate RowHas(t: Table, g: string, v: real)
  {
    exists i :: i in t.cols && At(t, g, i) == Some(v)
  }
}
