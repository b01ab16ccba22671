/** The tabular data of the glioma datasets: a frame of named columns whose
    cells are strings, numbers or missing values, column-wise rewriting, and
    min-max scaling of numeric columns. */
module Tables {
  import opened Wrappers

  /** A cell as read from the CSV file: a string, a number, or NaN. */
  datatype Cell = Text(s: string) | Num(x: real) | Missing

  type Row = map<string, Cell>

  /** The columns in file order and the rows. */
  datatype Frame = Frame(columns: seq<string>, rows: seq<Row>)

  datatype TableError =
    | MissingColumn   // KeyError: a selected column is not in the frame
    | NotNumeric      // ValueError: a string where the scaler needs a number
    | NoRows          // ValueError: the scaler is fitted on zero samples

  /** Every row has a cell for every column and for nothing else. */
  predicate WellFormed(df: Frame) {
    forall i :: 0 <= i < |df.rows| ==> df.rows[i].Keys == set c | c in df.columns
  }

  /** The cells of one column, top to bottom. */
  function Column(df: Frame, col: string): (cells: seq<Cell>)
    requires WellFormed(df) && col in df.columns
    ensures |cells| == |df.rows|
    ensures forall i :: 0 <= i < |df.rows| ==> col in df.rows[i] && cells[i] == df.rows[i][col]
  {
    seq(|df.rows|, i requires 0 <= i < |df.rows| => df.rows[i][col])
  }

  /** `df[col] = df[col].<op>`: the column rewritten cell by cell. */
  function MapColumn(df: Frame, col: string, g: Cell -> Cell): (r: Frame)
    ensures r.columns == df.columns && |r.rows| == |df.rows|
    ensures forall i :: 0 <= i < |df.rows| ==> r.rows[i].Keys == df.rows[i].Keys
    ensures forall i, c :: 0 <= i < |df.rows| && c in df.rows[i] ==>
      r.rows[i][c] == (if c == col then g(df.rows[i][c]) else df.rows[i][c])
    ensures WellFormed(df) ==> WellFormed(r)
  {
    Frame(df.columns, seq(|df.rows|, i requires 0 <= i < |df.rows| =>
      if col in df.rows[i] then df.rows[i][col := g(df.rows[i][col])] else df.rows[i]))
  }

  /** `df[col] = cells`: the column replaced by new cells. */
  function SetColumn(df: Frame, col: string, cells: seq<Cell>): (r: Frame)
    requires |cells| == |df.rows|
    ensures r.columns == df.columns && |r.rows| == |df.rows|
    ensures forall i :: 0 <= i < |df.rows| ==> r.rows[i] == df.rows[i][col := cells[i]]
  {
    Frame(df.columns, seq(|df.rows|, i requires 0 <= i < |df.rows| => df.rows[i][col := cells[i]]))
  }

  /** The numbers of a column, in order, skipping missing values. */
  function NumsOf(cells: seq<Cell>): (xs: seq<real>)
    ensures |xs| <= |cells|
    ensures forall x :: x in xs <==> Num(x) in cells
  {
    if cells == [] then []
    else
      var rest := NumsOf(cells[1..]);
      assert forall c :: c in cells <==> c == cells[0] || c in cells[1..];
      (if cells[0].Num? then [cells[0].x] else []) + rest
  }

  function MinOf(xs: seq<real>): (m: real)
    requires xs != []
    ensures m in xs && forall x :: x in xs ==> m <= x
  {
    if |xs| == 1 then xs[0]
    else
      var m := MinOf(xs[1..]);
      assert forall x :: x in xs <==> x == xs[0] || x in xs[1..];
      if xs[0] <= m then xs[0] else m
  }

  function MaxOf(xs: seq<real>): (m: real)
    requires xs != []
    ensures m in xs && forall x :: x in xs ==> x <= m
  {
    if |xs| == 1 then xs[0]
    else
      var m := MaxOf(xs[1..]);
      assert forall x :: x in xs <==> x == xs[0] || x in xs[1..];
      if xs[0] >= m then xs[0] else m
  }

  /** The min-max formula: `(x - min) / (max - min)`, and 0 for a constant column. */
  function Scale(x: real, lo: real, hi: real): real {
    if hi == lo then 0.0 else (x - lo) / (hi - lo)
  }

  /** A value between the column's minimum and maximum lands in [0, 1],
      the minimum on 0 and a non-constant maximum on 1. */
  lemma ScaleBounds(x: real, lo: real, hi: real)
    requires lo <= x <= hi
    ensures 0.0 <= Scale(x, lo, hi) <= 1.0
    ensures x == lo ==> Scale(x, lo, hi) == 0.0
    ensures x == hi && lo < hi ==> Scale(x, lo, hi) == 1.0
  {
    if hi != lo {
      var q := (x - lo) / (hi - lo);
      assert q * (hi - lo) == x - lo;
    }
  }

  /** Scaling keeps the order of the values of one column. */
  lemma ScaleMonotone(x: real, y: real, lo: real, hi: real)
    requires lo <= hi && x <= y
    ensures Scale(x, lo, hi) <= Scale(y, lo, hi)
  {
    if hi != lo {
      var d := hi - lo;
      assert (y - lo) / d - (x - lo) / d == (y - x) / d;
    }
  }

  /** `MinMaxScaler().fit_transform` on one column: NaN is ignored when
      fitting and stays NaN; a string cannot be scaled. */
  function ScaleCells(cells: seq<Cell>): (r: Result<seq<Cell>, TableError>)
    ensures r.Ok? <==> forall c :: c in cells ==> !c.Text?
    ensures r.Ok? ==> |r.value| == |cells|
  {
    if exists c :: c in cells && c.Text? then Err(NotNumeric)
    else
      var xs := NumsOf(cells);
      if xs == [] then Ok(cells)
      else
        var lo := MinOf(xs);
        var hi := MaxOf(xs);
        Ok(seq(|cells|, i requires 0 <= i < |cells| =>
          if cells[i].Num? then Num(Scale(cells[i].x, lo, hi)) else cells[i]))
  }

  /** Every scaled number lies in [0, 1], missing values stay missing, and
      the order of the numbers is kept. */
  lemma ScaleCellsSpec(cells: seq<Cell>)
    requires ScaleCells(cells).Ok?
    ensures var r := ScaleCells(cells).value;
      && (forall i :: 0 <= i < |cells| ==> (r[i].Num? <==> cells[i].Num?) && (r[i] == Missing <==> cells[i] == Missing))
      && (forall i :: 0 <= i < |cells| && r[i].Num? ==> 0.0 <= r[i].x <= 1.0)
      && (forall i, j :: 0 <= i < |cells| && 0 <= j < |cells| && cells[i].Num? && cells[j].Num? && cells[i].x <= cells[j].x
            ==> r[i].x <= r[j].x)
  {
    var xs := NumsOf(cells);
    var r := ScaleCells(cells).value;
    if xs != [] {
      var lo := MinOf(xs);
      var hi := MaxOf(xs);
      forall i | 0 <= i < |cells| && cells[i].Num?
        ensures 0.0 <= r[i].x <= 1.0
      {
        assert cells[i] in cells;
        assert cells[i].x in xs;
        ScaleBounds(cells[i].x, lo, hi);
      }
      forall i, j | 0 <= i < |cells| && 0 <= j < |cells| && cells[i].Num? && cells[j].Num? && cells[i].x <= cells[j].x
        ensures r[i].x <= r[j].x
      {
        assert cells[i] in cells;
        assert cells[i].x in xs;
        ScaleMonotone(cells[i].x, cells[j].x, lo, hi);
      }
    }
  }

  /** `df[cols] = MinMaxScaler().fit_transform(df[cols])`: the columns are
      selected (KeyError for a missing one), checked, then each scaled on
      its own. */
  function ScaleColumns(df: Frame, cols: seq<string>): (r: Result<Frame, TableError>)
    requires WellFormed(df)
    ensures r.Ok? ==> r.value.columns == df.columns && |r.value.rows| == |df.rows| && WellFormed(r.value)
  {
    if exists c :: c in cols && c !in df.columns then Err(MissingColumn)
    else if |df.rows| == 0 then Err(NoRows)
    else if exists c, i :: c in cols && 0 <= i < |df.rows| && df.rows[i][c].Text? then Err(NotNumeric)
    else Ok(ScaleEach(df, cols))
  }

  /** One column scaled on its own. */
  function ScaledColumn(df: Frame, col: string): (cells: seq<Cell>)
    requires WellFormed(df) && col in df.columns
    requires forall i :: 0 <= i < |df.rows| ==> !df.rows[i][col].Text?
    ensures |cells| == |df.rows|
  {
    var column := Column(df, col);
    assert forall c :: c in column ==> !c.Text?;
    ScaleCells(column).value
  }

  function ScaleEach(df: Frame, cols: seq<string>): (r: Frame)
    requires WellFormed(df) && forall c :: c in cols ==> c in df.columns
    requires forall c, i :: c in cols && 0 <= i < |df.rows| ==> !df.rows[i][c].Text?
    ensures r.columns == df.columns && |r.rows| == |df.rows|
    ensures forall i :: 0 <= i < |df.rows| ==> r.rows[i].Keys == df.rows[i].Keys
    ensures WellFormed(r)
  {
    Frame(df.columns, seq(|df.rows|, i requires 0 <= i < |df.rows| =>
      map c | c in df.rows[i] :: if c in cols then ScaledColumn(df, c)[i] else df.rows[i][c]))
  }

  /** Scaling leaves the other columns alone; in a scaled column, missing
      values stay missing and every number lies in [0, 1]. */
  lemma ScaleEachSpec(df: Frame, cols: seq<string>, i: nat, c: string)
    requires WellFormed(df) && forall c :: c in cols ==> c in df.columns
    requires forall c, i :: c in cols && 0 <= i < |df.rows| ==> !df.rows[i][c].Text?
    requires i < |df.rows| && c in df.columns
    ensures var r := ScaleEach(df, cols);
      && (c !in cols ==> r.rows[i][c] == df.rows[i][c])
      && (c in cols ==> (r.rows[i][c] == Missing <==> df.rows[i][c] == Missing))
      && (c in cols ==> !r.rows[i][c].Text? && (r.rows[i][c].Num? ==> 0.0 <= r.rows[i][c].x <= 1.0))
  {
    if c in cols {
      ScaleCellsSpec(Column(df, c));
    }
  }
}
