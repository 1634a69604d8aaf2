/** Tables as the pipeline sees them: a table is a sequence of rows, a row maps
    column names to cells, `df[mask]` keeps the rows a mask accepts, and a data
    frame is an object whose columns are assigned in place. */
module Frames {

  datatype Option<+T> = None | Some(value: T)

  datatype Result<+T, +E> = Ok(value: T) | Err(error: E)

  /** One cell: a number (integers included), pandas' missing value, or text. */
  datatype Cell = Num(x: real) | NaN | Text(s: string)

  /** A row maps column names to cells. */
  type Row = map<string, Cell>

  /** `np.isfinite` on a cell. Cells hold no infinities, so among numeric
      cells only the missing value fails. */
  predicate IsFinite(c: Cell)
    ensures c.NaN? ==> !IsFinite(c)
    ensures c.Num? ==> IsFinite(c)
  {
    c.Num?
  }

  /** Every row has the column (pandas raises KeyError otherwise). */
  predicate HasColumn(rows: seq<Row>, name: string) {
    forall r :: r in rows ==> name in r
  }

  /** Every row has the column and it holds no text, so comparing it with a
      number or asking whether it is finite does not raise TypeError. */
  predicate NumericColumn(rows: seq<Row>, name: string) {
    forall r: Row :: r in rows ==> name in r && !r[name].Text?
  }

  /** `df[name]`, as a list of cells in row order. */
  function Column(rows: seq<Row>, name: string): (column: seq<Cell>)
    requires HasColumn(rows, name)
    ensures |column| == |rows|
    ensures forall i :: 0 <= i < |rows| ==> name in rows[i] && column[i] == rows[i][name]
  {
    seq(|rows|, i requires 0 <= i < |rows| => assert rows[i] in rows; rows[i][name])
  }

  /** `df[mask]`: the rows that the mask accepts, in their original order. */
  function Where(rows: seq<Row>, mask: Row -> bool): (kept: seq<Row>)
    ensures |kept| <= |rows|
    ensures forall r :: r in kept <==> r in rows && mask(r)
  {
    if rows == [] then []
    else if mask(rows[0]) then [rows[0]] + Where(rows[1..], mask)
    else Where(rows[1..], mask)
  }

  /** The positions from `from` on of the rows that the mask accepts, ascending. */
  function KeptPositionsFrom(rows: seq<Row>, mask: Row -> bool, from: nat): (ps: seq<nat>)
    requires from <= |rows|
    ensures forall k :: 0 <= k < |ps| ==> from <= ps[k] < |rows| && mask(rows[ps[k]])
    ensures forall k, l :: 0 <= k < l < |ps| ==> ps[k] < ps[l]
    ensures forall i :: from <= i < |rows| && mask(rows[i]) ==> i in ps
    decreases |rows| - from
  {
    if from == |rows| then []
    else if mask(rows[from]) then [from] + KeptPositionsFrom(rows, mask, from + 1)
    else KeptPositionsFrom(rows, mask, from + 1)
  }

  /** The positions of the rows that the mask accepts, ascending. */
  function KeptPositions(rows: seq<Row>, mask: Row -> bool): seq<nat> {
    KeptPositionsFrom(rows, mask, 0)
  }

  /** The rows at the given positions, in the order of the positions. */
  function At(rows: seq<Row>, ps: seq<nat>): seq<Row>
    requires forall k :: 0 <= k < |ps| ==> ps[k] < |rows|
  {
    seq(|ps|, k requires 0 <= k < |ps| => rows[ps[k]])
  }

  lemma AtCons(rows: seq<Row>, p: nat, ps: seq<nat>)
    requires p < |rows| && forall k :: 0 <= k < |ps| ==> ps[k] < |rows|
    ensures At(rows, [p] + ps) == [rows[p]] + At(rows, ps)
  {
  }

  lemma {:induction false} WhereFromIsSubsequence(rows: seq<Row>, mask: Row -> bool, from: nat)
    requires from <= |rows|
    ensures Where(rows[from..], mask) == At(rows, KeptPositionsFrom(rows, mask, from))
    decreases |rows| - from
  {
    if from < |rows| {
      var tail := rows[from..];
      assert tail[0] == rows[from] && tail[1..] == rows[from + 1..];
      WhereFromIsSubsequence(rows, mask, from + 1);
      if mask(rows[from]) {
        AtCons(rows, from, KeptPositionsFrom(rows, mask, from + 1));
      }
    }
  }

  /** `df[mask]` is the subsequence of the rows at exactly the positions the
      mask accepts: rows are neither changed nor reordered. */
  lemma WhereIsSubsequence(rows: seq<Row>, mask: Row -> bool)
    ensures Where(rows, mask) == At(rows, KeptPositions(rows, mask))
  {
    assert rows[0..] == rows;
    WhereFromIsSubsequence(rows, mask, 0);
  }

  /** Selecting from a concatenation selects from each part. */
  lemma {:induction false} WhereConcat(a: seq<Row>, b: seq<Row>, mask: Row -> bool)
    ensures Where(a + b, mask) == Where(a, mask) + Where(b, mask)
  {
    if a != [] {
      assert (a + b)[1..] == a[1..] + b;
      WhereConcat(a[1..], b, mask);
    } else {
      assert a + b == b;
    }
  }

  /** A mask that accepts every row keeps the table as it is. */
  lemma {:induction false} WhereAll(rows: seq<Row>, mask: Row -> bool)
    requires forall r :: r in rows ==> mask(r)
    ensures Where(rows, mask) == rows
  {
    if rows != [] {
      assert forall r :: r in rows[1..] ==> r in rows;
      WhereAll(rows[1..], mask);
    }
  }

  /** A mask that accepts no row keeps nothing. */
  lemma {:induction false} WhereNone(rows: seq<Row>, mask: Row -> bool)
    requires forall r :: r in rows ==> !mask(r)
    ensures Where(rows, mask) == []
  {
    if rows != [] {
      assert forall r :: r in rows[1..] ==> r in rows;
      WhereNone(rows[1..], mask);
    }
  }

  /** Two selections in a row are one selection by both masks. */
  lemma {:induction false} WhereThenWhere(rows: seq<Row>, first: Row -> bool, second: Row -> bool, both: Row -> bool)
    requires forall r :: both(r) == (first(r) && second(r))
    ensures Where(Where(rows, first), second) == Where(rows, both)
  {
    if rows != [] {
      WhereThenWhere(rows[1..], first, second, both);
    }
  }

  /** The table after `df[name] = values`. */
  function WithColumn(rows: seq<Row>, name: string, values: seq<Cell>): (after: seq<Row>)
    requires |values| == |rows|
    ensures |after| == |rows|
  {
    seq(|rows|, i requires 0 <= i < |rows| => rows[i][name := values[i]])
  }

  /** After `df[name] = values` every row gains (or overwrites) the column
      with its own value, and keeps every other column as it was. */
  lemma WithColumnEffect(rows: seq<Row>, name: string, values: seq<Cell>)
    requires |values| == |rows|
    ensures var after := WithColumn(rows, name, values);
      forall i :: 0 <= i < |rows| ==>
        && after[i].Keys == rows[i].Keys + {name}
        && after[i][name] == values[i]
        && forall c :: c in rows[i] && c != name ==> after[i][c] == rows[i][c]
  {
  }

  /** Assigning a column twice leaves the second assignment's values. */
  lemma WithColumnTwice(rows: seq<Row>, name: string, first: seq<Cell>, second: seq<Cell>)
    requires |first| == |rows| && |second| == |rows|
    ensures WithColumn(WithColumn(rows, name, first), name, second) == WithColumn(rows, name, second)
  {
    var twice := WithColumn(WithColumn(rows, name, first), name, second);
    forall i | 0 <= i < |rows|
      ensures twice[i] == rows[i][name := second[i]]
    {
      assert rows[i][name := first[i]][name := second[i]] == rows[i][name := second[i]];
    }
  }

  /** A pandas data frame: a table whose columns are assigned in place. */
  class DataFrame {
    var rows: seq<Row>

    constructor (rows: seq<Row>)
      ensures this.rows == rows
    {
      this.rows := rows;
    }

    /** `df[name] = values`: raises ValueError unless there is one value per
        row; otherwise adds or overwrites that one column and nothing else. */
    method SetColumn(name: string, values: seq<Cell>) returns (ok: bool)
      modifies this
      ensures ok <==> |values| == |old(rows)|
      ensures !ok ==> rows == old(rows)
      ensures ok ==> rows == WithColumn(old(rows), name, values)
      ensures |rows| == |old(rows)|
      ensures ok ==> forall i :: 0 <= i < |rows| ==>
                rows[i].Keys == old(rows)[i].Keys + {name} && rows[i][name] == values[i]
      ensures forall i, c :: 0 <= i < |rows| && c != name && c in rows[i] ==> rows[i][c] == old(rows)[i][c]
    {
      ok := |values| == |rows|;
      if ok {
        rows := WithColumn(rows, name, values);
      }
    }
  }
}
