/** list(zip(*rows)): the transposition the reader uses to turn rows into
    column-major storage and back again. */
module Pivot {

  /** The length of the shortest row, where zip stops; 0 when there are no rows. */
  function MinWidth<T>(rows: seq<seq<T>>): (w: nat)
    ensures forall i :: 0 <= i < |rows| ==> w <= |rows[i]|
    ensures rows != [] ==> exists i :: 0 <= i < |rows| && w == |rows[i]|
    ensures rows == [] ==> w == 0
  {
    if rows == [] then 0
    else if |rows| == 1 then |rows[0]|
    else
      var m := MinWidth(rows[1..]);
      if |rows[0]| <= m then |rows[0]| else m
  }

  /** list(zip(*rows)): column j holds cell j of every row, in row order, and
      there are as many columns as the shortest row has cells. */
  function Zip<T>(rows: seq<seq<T>>): (cols: seq<seq<T>>)
    ensures |cols| == MinWidth(rows)
    ensures forall j :: 0 <= j < |cols| ==> |cols[j]| == |rows|
    ensures forall j, i :: 0 <= j < |cols| && 0 <= i < |rows| ==> cols[j][i] == rows[i][j]
  {
    var w := MinWidth(rows);
    seq(w, j requires 0 <= j < w => seq(|rows|, i requires 0 <= i < |rows| => rows[i][j]))
  }

  /** Every row has exactly w cells. */
  predicate Rectangular<T>(rows: seq<seq<T>>, w: nat)
  {
    forall i :: 0 <= i < |rows| ==> |rows[i]| == w
  }

  lemma MinWidthRectangular<T>(rows: seq<seq<T>>, w: nat)
    requires rows != [] && Rectangular(rows, w)
    ensures MinWidth(rows) == w
  {
  }

  /** The columns of a table of at least one row are all as long as the table. */
  lemma ZipRectangular<T>(rows: seq<seq<T>>)
    ensures Rectangular(Zip(rows), |rows|)
  {
  }

  /** Transposing twice gives the rows back, provided every row has the same
      number of cells and there is at least one cell. */
  lemma ZipZip<T>(rows: seq<seq<T>>, w: nat)
    requires rows != [] && w > 0 && Rectangular(rows, w)
    ensures Zip(Zip(rows)) == rows
  {
    MinWidthRectangular(rows, w);
    var cols := Zip(rows);
    MinWidthRectangular(cols, |rows|);
    var back := Zip(cols);
    assert |back| == |rows|;
    forall i | 0 <= i < |rows| ensures back[i] == rows[i] {
      assert |back[i]| == w;
    }
  }

  /** list.pop(p) for a position within the list. */
  function RemoveAt<T>(s: seq<T>, p: nat): (r: seq<T>)
    requires p < |s|
    ensures |r| == |s| - 1
    ensures forall i :: 0 <= i < |r| ==> r[i] == (if i < p then s[i] else s[i + 1])
  {
    s[..p] + s[p + 1..]
  }

  /** Removing row p of column-major data by transpose, pop, transpose removes
      entry p from every column; when p was the only row, no column is left. */
  lemma ZipRemoveRow<T>(cols: seq<seq<T>>, n: nat, p: nat)
    requires cols != [] && Rectangular(cols, n) && p < n
    ensures Zip(RemoveAt(Zip(cols), p)) ==
            if n == 1 then [] else seq(|cols|, j requires 0 <= j < |cols| => RemoveAt(cols[j], p))
  {
    MinWidthRectangular(cols, n);
    var rows := Zip(cols);
    var rest := RemoveAt(rows, p);
    if n > 1 {
      assert Rectangular(rest, |cols|);
      MinWidthRectangular(rest, |cols|);
      var got := Zip(rest);
      var want := seq(|cols|, j requires 0 <= j < |cols| => RemoveAt(cols[j], p));
      assert |got| == |want|;
      forall j | 0 <= j < |cols| ensures got[j] == want[j] {
        assert |got[j]| == n - 1 == |want[j]|;
        forall i | 0 <= i < n - 1 ensures got[j][i] == want[j][i] {
          assert got[j][i] == rest[i][j];
        }
      }
    }
  }

  /** Transposing columns gives rows that each hold one cell per column. */
  lemma ZipRows<T>(cols: seq<seq<T>>)
    ensures Rectangular(Zip(cols), |cols|)
  {
  }

  /** Popping row q of the rows of some columns and transposing back: read
      again as rows, the result is the old rows without row q, every other
      row unchanged and in order; when the popped row was the last one, no
      column is left. */
  lemma ZipPop<T>(cols: seq<seq<T>>, q: nat)
    requires cols != [] && q < |Zip(cols)|
    ensures |Zip(cols)| == 1 ==> Zip(RemoveAt(Zip(cols), q)) == []
    ensures |Zip(cols)| > 1 ==> Zip(Zip(RemoveAt(Zip(cols), q))) == RemoveAt(Zip(cols), q)
  {
    var rows := Zip(cols);
    ZipRows(cols);
    var rest := RemoveAt(rows, q);
    assert Rectangular(rest, |cols|);
    if |rows| > 1 {
      ZipZip(rest, |cols|);
    }
  }
}
