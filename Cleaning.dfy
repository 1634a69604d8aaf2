/** Stage A cleaning: dropping rows with missing values and rows outside the
    plausible geographic and time window. */
module Cleaning {
  import opened Frames

  const Latitude := "Lat Dec Deg"
  const Longitude := "Long Dec Deg"
  const Datetime := "Datetime"

  /** The mask of `feasible`: `(df[column] > greaterThan) & (df[column] < lessThan)`;
      a missing value compares false on both sides. */
  function Between(column: string, greaterThan: real, lessThan: real): (mask: Row -> bool)
    ensures forall r: Row :: mask(r) ==> column in r && r[column].Num?
    ensures forall r: Row :: column in r && r[column].NaN? ==> !mask(r)
    ensures forall r: Row :: column in r && r[column] in {Num(greaterThan), Num(lessThan)} ==> !mask(r)
  {
    (r: Row) => column in r && r[column].Num? && greaterThan < r[column].x < lessThan
  }

  /** `feasible`: keeps exactly the rows whose value lies strictly inside the
      open interval; a row at either endpoint, or missing the value, goes. */
  function Feasible(rows: seq<Row>, column: string, greaterThan: real, lessThan: real): (kept: seq<Row>)
    requires NumericColumn(rows, column)
    ensures forall r: Row :: r in kept <==>
              r in rows && r[column].Num? && greaterThan < r[column].x < lessThan
    ensures NumericColumn(kept, column)
  {
    Where(rows, Between(column, greaterThan, lessThan))
  }

  /** `feasible` returns the input's rows, unchanged and in order, at exactly
      the positions whose value lies inside the interval. */
  lemma FeasibleKeepsOrder(rows: seq<Row>, column: string, greaterThan: real, lessThan: real)
    requires NumericColumn(rows, column)
    ensures var ps := KeptPositions(rows, Between(column, greaterThan, lessThan));
      && (forall i :: 0 <= i < |rows| ==>
            (i in ps <==> rows[i][column].Num? && greaterThan < rows[i][column].x < lessThan))
      && (forall k, l :: 0 <= k < l < |ps| ==> ps[k] < ps[l])
      && Feasible(rows, column, greaterThan, lessThan) == At(rows, ps)
  {
    WhereIsSubsequence(rows, Between(column, greaterThan, lessThan));
  }

  /** A row on the boundary is dropped: the comparisons are strict. */
  lemma FeasibleDropsEndpoints(rows: seq<Row>, column: string, greaterThan: real, lessThan: real)
    requires NumericColumn(rows, column)
    ensures forall i :: 0 <= i < |rows| && rows[i][column] in {Num(greaterThan), Num(lessThan)} ==>
              rows[i] !in Feasible(rows, column, greaterThan, lessThan)
  {
  }

  /** The three `feasible` calls of Stage A, chained. */
  function BoundingBox(rows: seq<Row>): (kept: seq<Row>)
    requires NumericColumn(rows, Latitude) && NumericColumn(rows, Longitude) && NumericColumn(rows, Datetime)
    ensures forall r: Row :: r in kept ==> r in rows && InBox(r)
  {
    var byLatitude := Feasible(rows, Latitude, 21.0, 22.0);
    var byLongitude := Feasible(byLatitude, Longitude, -159.0, -157.0);
    Feasible(byLongitude, Datetime, 946651738.0, 1514731738.0)
  }

  /** The mask of all three bounds at once: latitude in (21, 22), longitude
      in (-159, -157) and the timestamp in (946651738, 1514731738). */
  function InBox(r: Row): bool {
    Between(Latitude, 21.0, 22.0)(r) && Between(Longitude, -159.0, -157.0)(r)
      && Between(Datetime, 946651738.0, 1514731738.0)(r)
  }

  /** The chain keeps a row iff it lies inside all three intervals, and keeps
      the survivors in their original order: it is one selection by the box. */
  lemma BoundingBoxIsOneSelection(rows: seq<Row>)
    requires NumericColumn(rows, Latitude) && NumericColumn(rows, Longitude) && NumericColumn(rows, Datetime)
    ensures BoundingBox(rows) == Where(rows, InBox)
  {
    var latLong := (r: Row) => Between(Latitude, 21.0, 22.0)(r) && Between(Longitude, -159.0, -157.0)(r);
    WhereThenWhere(rows, Between(Latitude, 21.0, 22.0), Between(Longitude, -159.0, -157.0), latLong);
    WhereThenWhere(rows, latLong, Between(Datetime, 946651738.0, 1514731738.0), InBox);
  }

  /** The mask of `no_nans` after the columns seen so far: each is finite. */
  function AllFinite(columns: seq<string>): Row -> bool {
    (r: Row) => forall c :: c in columns ==> c in r && IsFinite(r[c])
  }

  /** `no_nans`: one selection per listed column, each dropping the rows where
      that column is missing. The result keeps a row iff every listed column
      is finite in it, in the original order. */
  method NoNans(rows: seq<Row>, columns: seq<string>) returns (kept: seq<Row>)
    requires forall c :: c in columns ==> NumericColumn(rows, c)
    ensures kept == Where(rows, AllFinite(columns))
    ensures forall r: Row :: r in kept <==> r in rows && forall c :: c in columns ==> c in r && r[c].Num?
  {
    kept := rows;
    assert kept == Where(rows, AllFinite(columns[..0])) by {
      WhereAll(rows, AllFinite(columns[..0]));
    }
    for j := 0 to |columns|
      invariant kept == Where(rows, AllFinite(columns[..j]))
    {
      var column := columns[j];
      assert columns[..j + 1] == columns[..j] + [column];
      WhereThenWhere(rows, AllFinite(columns[..j]), r => column in r && IsFinite(r[column]), AllFinite(columns[..j + 1]));
      kept := Where(kept, r => column in r && IsFinite(r[column]));
    }
    assert columns[..|columns|] == columns;
  }
}
