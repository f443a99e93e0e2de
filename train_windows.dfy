/** ai_service/train.py, the data preparation before training: the feature
    columns of the angle table, and the loop that cuts the table into
    non-overlapping 30-row windows labelled by their first row. */
module TrainWindows {

  /** A table cell as read from the CSV: a number, an empty/NaN cell, or text. */
  datatype Cell = Number(v: real) | Missing | Text(s: string)

  /** A data frame: its column names, and each row as a map from column name to cell. */
  datatype Table = Table(columns: seq<string>, rows: seq<map<string, Cell>>)

  /** Every row has a cell in every column. */
  predicate WellFormed(t: Table)
  {
    forall i :: 0 <= i < |t.rows| ==> forall c :: c in t.columns ==> c in t.rows[i]
  }

  const LabelColumn := "Label"
  const NonFeatureColumns: seq<string> := [LabelColumn, "side"]

  const SeqLength: nat := 30

  /** The columns other than Label and side, in their original order. */
  function FeatureColumns(cols: seq<string>): (r: seq<string>)
    ensures |r| <= |cols|
  {
    if cols == [] then []
    else (if cols[0] in NonFeatureColumns then [] else [cols[0]]) + FeatureColumns(cols[1..])
  }

  /** A column is a feature column exactly when it is neither Label nor side. */
  lemma {:induction false} FeatureColumnsMembership(cols: seq<string>, c: string)
    ensures c in FeatureColumns(cols) <==> c in cols && c !in NonFeatureColumns
  {
    if cols != [] {
      FeatureColumnsMembership(cols[1..], c);
      assert c in cols <==> c == cols[0] || c in cols[1..];
    }
  }

  /** Every feature column is a column of the table. */
  lemma FeatureColumnsAreColumns(cols: seq<string>)
    ensures forall c :: c in FeatureColumns(cols) ==> c in cols
  {
    forall c | c in FeatureColumns(cols) ensures c in cols {
      FeatureColumnsMembership(cols, c);
    }
  }

  /** Filtering commutes with concatenation, so the kept columns keep their relative order. */
  lemma {:induction false} FeatureColumnsKeepOrder(a: seq<string>, b: seq<string>)
    ensures FeatureColumns(a + b) == FeatureColumns(a) + FeatureColumns(b)
  {
    if a == [] {
      assert a + b == b;
    } else {
      assert (a + b)[0] == a[0] && (a + b)[1..] == a[1..] + b;
      FeatureColumnsKeepOrder(a[1..], b);
      var head := if a[0] in NonFeatureColumns then [] else [a[0]];
      calc {
        FeatureColumns(a + b);
        head + FeatureColumns(a[1..] + b);
        head + (FeatureColumns(a[1..]) + FeatureColumns(b));
        (head + FeatureColumns(a[1..])) + FeatureColumns(b);
        FeatureColumns(a) + FeatureColumns(b);
      }
    }
  }

  /** pd.to_numeric(errors='coerce') followed by np.nan_to_num: numbers are
      kept, empty and non-numeric cells become 0. */
  function ToNumber(cell: Cell): (x: real)
    ensures cell.Number? ==> x == cell.v
    ensures !cell.Number? ==> x == 0.0
  {
    match cell
    case Number(v) => v
    case _ => 0.0
  }

  /** The feature values of row j. */
  function RowFeatures(t: Table, j: nat): (r: seq<real>)
    requires WellFormed(t) && j < |t.rows|
    ensures |r| == |FeatureColumns(t.columns)|
  {
    var features := FeatureColumns(t.columns);
    FeatureColumnsAreColumns(t.columns);
    seq(|features|, c requires 0 <= c < |features| => ToNumber(t.rows[j][features[c]]))
  }

  /** The window of SeqLength consecutive rows starting at row `start`. */
  function WindowAt(t: Table, start: nat): (w: seq<seq<real>>)
    requires WellFormed(t) && start + SeqLength <= |t.rows|
    ensures |w| == SeqLength
  {
    seq(SeqLength, r requires 0 <= r < SeqLength => RowFeatures(t, start + r))
  }

  /** The windows the loop produces: one per full block of SeqLength rows. */
  function WindowsOf(t: Table): (xs: seq<seq<seq<real>>>)
    requires WellFormed(t)
  {
    seq(|t.rows| / SeqLength, w requires 0 <= w < |t.rows| / SeqLength => WindowAt(t, w * SeqLength))
  }

  /** The labels the loop produces: the Label cell of each window's first row. */
  function LabelsOf(t: Table): (ys: seq<Cell>)
    requires WellFormed(t) && LabelColumn in t.columns
  {
    seq(|t.rows| / SeqLength, w requires 0 <= w < |t.rows| / SeqLength => t.rows[w * SeqLength][LabelColumn])
  }

  /** The windowing loop: i runs over 0, 30, 60, ... while a full window fits. */
  method MakeWindows(t: Table) returns (xs: seq<seq<seq<real>>>, ys: seq<Cell>)
    requires WellFormed(t) && LabelColumn in t.columns
    ensures |xs| == |ys| == |t.rows| / SeqLength
    ensures xs == WindowsOf(t) && ys == LabelsOf(t)
  {
    xs, ys := [], [];
    var i := 0;
    while i < |t.rows| - SeqLength + 1
      invariant i == |xs| * SeqLength <= |t.rows| && |ys| == |xs|
      invariant forall w :: 0 <= w < |xs| ==> xs[w] == WindowAt(t, w * SeqLength)
      invariant forall w :: 0 <= w < |ys| ==> ys[w] == t.rows[w * SeqLength][LabelColumn]
      decreases |t.rows| - i
    {
      var window := WindowAt(t, i);
      var firstLabel := t.rows[i][LabelColumn];
      xs := xs + [window];
      ys := ys + [firstLabel];
      i := i + SeqLength;
    }
    assert |xs| == |t.rows| / SeqLength;
  }

  /** The windows are contiguous and disjoint: every row before the dropped
      tail sits in exactly one window, window j / 30 at offset j % 30. */
  lemma RowLiesInOneWindow(t: Table, j: nat)
    requires WellFormed(t) && j < |WindowsOf(t)| * SeqLength
    ensures WindowsOf(t)[j / SeqLength][j % SeqLength] == RowFeatures(t, j)
  {
    var w := j / SeqLength;
    assert w < |WindowsOf(t)|;
    assert w * SeqLength + j % SeqLength == j;
  }

  /** The rows past the last full window are dropped: fewer than 30 of them,
      and removing them changes neither windows nor labels. */
  lemma TrailingRowsDropped(t: Table)
    requires WellFormed(t) && LabelColumn in t.columns
    ensures var kept := |WindowsOf(t)| * SeqLength;
            && |t.rows| - kept < SeqLength
            && WindowsOf(Table(t.columns, t.rows[..kept])) == WindowsOf(t)
            && LabelsOf(Table(t.columns, t.rows[..kept])) == LabelsOf(t)
  {
    var kept := |WindowsOf(t)| * SeqLength;
    var u := Table(t.columns, t.rows[..kept]);
    assert |u.rows| / SeqLength == |t.rows| / SeqLength;
    forall j | 0 <= j < kept ensures RowFeatures(u, j) == RowFeatures(t, j) {
      assert u.rows[j] == t.rows[j];
    }
    forall w | 0 <= w < |t.rows| / SeqLength ensures WindowsOf(u)[w] == WindowsOf(t)[w] {
      assert forall r :: 0 <= r < SeqLength ==> WindowAt(u, w * SeqLength)[r] == WindowAt(t, w * SeqLength)[r];
    }
  }

  /** Only a window's first row supplies its label: the Label cells of the other rows are ignored. */
  lemma LabelFromFirstRowOnly(t: Table, u: Table)
    requires WellFormed(t) && WellFormed(u) && LabelColumn in t.columns
    requires u.columns == t.columns && |u.rows| == |t.rows|
    requires forall j :: 0 <= j < |t.rows| && j % SeqLength == 0 ==> u.rows[j][LabelColumn] == t.rows[j][LabelColumn]
    ensures LabelsOf(u) == LabelsOf(t)
  {
    forall w | 0 <= w < |t.rows| / SeqLength ensures LabelsOf(u)[w] == LabelsOf(t)[w] {
      assert (w * SeqLength) % SeqLength == 0;
    }
  }
}
