/** Stage A enrichment: one Dark Sky forecast request per row, the answers
    collected into per-field lists, and the lists added to the frame as
    columns. The HTTP request and the JSON decoding are a function `fetch`
    from the request URL to the first entry of the answer's daily data
    (None when the answer has none); the text of a cell, `str(...)`, is a
    function `show`, and the text of a whole list a function `listText`. */
module Weather {
  import opened Frames
  import Cleaning

  /** `lists_for_darksky_api`: walks the rows in order and appends each row's
      timestamp, latitude and longitude to three parallel lists. */
  method ListsForDarkskyApi(rows: seq<Row>, datetime: string, latitude: string, longitude: string)
    returns (dates: seq<Cell>, latitudes: seq<Cell>, longitudes: seq<Cell>)
    requires HasColumn(rows, datetime) && HasColumn(rows, latitude) && HasColumn(rows, longitude)
    ensures |dates| == |rows| && |latitudes| == |rows| && |longitudes| == |rows|
    ensures dates == Column(rows, datetime)
    ensures latitudes == Column(rows, latitude)
    ensures longitudes == Column(rows, longitude)
  {
    dates, latitudes, longitudes := [], [], [];
    for i := 0 to |rows|
      invariant dates == Column(rows[..i], datetime)
      invariant latitudes == Column(rows[..i], latitude)
      invariant longitudes == Column(rows[..i], longitude)
    {
      assert rows[i] in rows;
      dates := dates + [rows[i][datetime]];
      latitudes := latitudes + [rows[i][latitude]];
      longitudes := longitudes + [rows[i][longitude]];
    }
    assert rows[..|rows|] == rows;
  }

  const ForecastEndpoint := "https://api.darksky.net/forecast/"

  /** The request for one row: the endpoint, the key, then "lat,long,date".
      Nothing separates the key from the latitude. */
  function Request(key: string, latitude: string, longitude: string, date: string): (url: string)
    ensures ForecastEndpoint + key <= url
    ensures url[|ForecastEndpoint + key|..] == latitude + "," + longitude + "," + date
  {
    ForecastEndpoint + key + latitude + "," + longitude + "," + date
  }

  /** The request for every row, in row order. */
  function Requests(key: string, dates: seq<Cell>, latitudes: seq<Cell>, longitudes: seq<Cell>,
                    show: Cell -> string): (urls: seq<string>)
    requires |latitudes| >= |dates| && |longitudes| >= |dates|
    ensures |urls| == |dates|
    ensures forall n :: 0 <= n < |dates| ==>
              urls[n] == Request(key, show(latitudes[n]), show(longitudes[n]), show(dates[n]))
  {
    seq(|dates|, n requires 0 <= n < |dates| =>
      Request(key, show(latitudes[n]), show(longitudes[n]), show(dates[n])))
  }

  /** Because the key runs straight into the latitude, two different keys
      can produce the same request. */
  lemma RequestKeyIsNotDelimited()
    ensures Request("k1", "21.3", "-157.8", "1500000000") == Request("k", "121.3", "-157.8", "1500000000")
  {
  }

  /** The nine fields read from each answer, in the order they are read. */
  const WeatherFields: seq<string> := ["precipIntensity", "precipIntensityMax", "temperatureHigh",
    "temperatureLow", "dewPoint", "humidity", "pressure", "windSpeed", "windBearing"]

  /** `daily.data[0]` of one answer. */
  type Daily = map<string, Cell>

  /** What ends the whole run: an answer without a daily entry (IndexError or
      KeyError), or a daily entry without one of the fields (KeyError). */
  datatype FetchError = NoDailyData(row: nat) | MissingField(row: nat, field: string)

  /** The index of the first field absent from the entry, or |fields| when all are present. */
  function FirstMissing(fields: seq<string>, daily: Daily): (k: nat)
    ensures k <= |fields|
    ensures forall j :: 0 <= j < k ==> fields[j] in daily
    ensures k < |fields| ==> fields[k] !in daily
  {
    if fields == [] then 0
    else if fields[0] !in daily then 0
    else 1 + FirstMissing(fields[1..], daily)
  }

  /** The answer has a daily entry holding all nine fields. */
  predicate Complete(answer: Option<Daily>)
    ensures Complete(answer) <==> answer.Some? && forall f :: f in WeatherFields ==> f in answer.value
  {
    answer.Some? && FirstMissing(WeatherFields, answer.value) == |WeatherFields|
  }

  /** The error raised at row `n` by an incomplete answer. */
  function RowError(n: nat, answer: Option<Daily>): (error: FetchError)
    requires !Complete(answer)
    ensures error.row == n
    ensures error.NoDailyData? <==> answer.None?
    ensures error.MissingField? ==>
              exists k :: 0 <= k < |WeatherFields| && error.field == WeatherFields[k]
                          && WeatherFields[k] !in answer.value
                          && forall j :: 0 <= j < k ==> WeatherFields[j] in answer.value
  {
    if answer.None? then NoDailyData(n)
    else MissingField(n, WeatherFields[FirstMissing(WeatherFields, answer.value)])
  }

  /** The nine weather lists of a run in which every answer is complete:
      list k holds field k of each answer, in row order. */
  function WeatherLists(urls: seq<string>, fetch: string -> Option<Daily>): (lists: seq<seq<Cell>>)
    requires forall n :: 0 <= n < |urls| ==> Complete(fetch(urls[n]))
    ensures |lists| == 9
    ensures forall k :: 0 <= k < 9 ==> |lists[k]| == |urls|
  {
    seq(9, k requires 0 <= k < 9 =>
      seq(|urls|, n requires 0 <= n < |urls| => FieldOf(fetch(urls[n]), k)))
  }

  /** Nine lists that agree with the answers field by field are the weather lists. */
  lemma WeatherListsPointwise(lists: seq<seq<Cell>>, urls: seq<string>, fetch: string -> Option<Daily>)
    requires forall n :: 0 <= n < |urls| ==> Complete(fetch(urls[n]))
    requires |lists| == 9 && forall k :: 0 <= k < 9 ==> |lists[k]| == |urls|
    requires forall k, n :: 0 <= k < 9 && 0 <= n < |urls| ==> lists[k][n] == FieldOf(fetch(urls[n]), k)
    ensures lists == WeatherLists(urls, fetch)
  {
    var all := WeatherLists(urls, fetch);
    forall k | 0 <= k < 9
      ensures lists[k] == all[k]
    {
      assert forall n :: 0 <= n < |urls| ==> lists[k][n] == all[k][n];
    }
  }

  /** Field `k` of a complete answer. */
  function FieldOf(answer: Option<Daily>, k: nat): (c: Cell)
    requires Complete(answer) && k < 9
    ensures WeatherFields[k] in answer.value && c == answer.value[WeatherFields[k]]
  {
    assert FirstMissing(WeatherFields, answer.value) == 9;
    answer.value[WeatherFields[k]]
  }

  /** `query_darksky`: one request per row, in row order; the n-th element of
      each of the nine lists is that field of the n-th answer. The tenth list,
      cloudCover_1, is never appended to and comes back empty. The first
      incomplete answer ends the run. */
  method QueryDarksky(key: string, dates: seq<Cell>, latitudes: seq<Cell>, longitudes: seq<Cell>,
                      show: Cell -> string, fetch: string -> Option<Daily>)
    returns (result: Result<seq<seq<Cell>>, FetchError>)
    requires |latitudes| >= |dates| && |longitudes| >= |dates|
    ensures var urls := Requests(key, dates, latitudes, longitudes, show);
      result.Ok? <==> forall n :: 0 <= n < |dates| ==> Complete(fetch(urls[n]))
    ensures result.Ok? ==>
      var urls := Requests(key, dates, latitudes, longitudes, show);
      && |result.value| == 10
      && result.value[9] == []
      && (forall k :: 0 <= k < 9 ==> |result.value[k]| == |dates|)
      && (forall k, n :: 0 <= k < 9 && 0 <= n < |dates| ==>
            result.value[k][n] == fetch(urls[n]).value[WeatherFields[k]])
    ensures result.Err? ==>
      var urls := Requests(key, dates, latitudes, longitudes, show);
      var n := result.error.row;
      && n < |dates|
      && (forall m :: 0 <= m < n ==> Complete(fetch(urls[m])))
      && !Complete(fetch(urls[n]))
      && result.error == RowError(n, fetch(urls[n]))
  {
    ghost var urls := Requests(key, dates, latitudes, longitudes, show);
    var lists: seq<seq<Cell>> := [[], [], [], [], [], [], [], [], []];
    for n := 0 to |dates|
      invariant |lists| == 9
      invariant forall m :: 0 <= m < n ==> Complete(fetch(urls[m]))
      invariant forall k :: 0 <= k < 9 ==> |lists[k]| == n
      invariant forall k, m :: 0 <= k < 9 && 0 <= m < n ==>
                  lists[k][m] == fetch(urls[m]).value[WeatherFields[k]]
    {
      var url := Request(key, show(latitudes[n]), show(longitudes[n]), show(dates[n]));
      assert url == urls[n];
      var answer := fetch(url);
      if answer.None? {
        return Err(NoDailyData(n));
      }
      var missing := FirstMissing(WeatherFields, answer.value);
      if missing < |WeatherFields| {
        return Err(MissingField(n, WeatherFields[missing]));
      }
      assert Complete(fetch(urls[n]));
      var daily := answer.value;
      lists := seq(9, k requires 0 <= k < 9 => lists[k] + [daily[WeatherFields[k]]]);
    }
    result := Ok(lists + [[]]);
  }

  /** The frame after `add_list_to_df` has added every list: list x becomes
      the column named `str(x)`, a later list overwriting an earlier one of
      the same name. */
  function ColumnsAdded(rows: seq<Row>, lists: seq<seq<Cell>>, listText: seq<Cell> -> string): (after: seq<Row>)
    requires forall x :: x in lists ==> |x| == |rows|
    ensures |after| == |rows|
    decreases |lists|
  {
    if lists == [] then rows
    else
      var last := lists[|lists| - 1];
      assert last in lists;
      WithColumn(ColumnsAdded(rows, lists[..|lists| - 1], listText), listText(last), last)
  }

  /** The names of the columns the lists become. */
  function Names(lists: seq<seq<Cell>>, listText: seq<Cell> -> string): set<string> {
    set x | x in lists :: listText(x)
  }

  /** No later list has the same name as list j, so list j's column survives. */
  predicate LastWithItsName(lists: seq<seq<Cell>>, listText: seq<Cell> -> string, j: nat)
    requires j < |lists|
  {
    forall l :: j < l < |lists| ==> listText(lists[l]) != listText(lists[j])
  }

  /** Adding the lists keeps the row count, adds exactly the lists' names as
      columns, leaves every other column as it was, and gives each list that
      is last with its name its own values, row by row. */
  lemma {:induction false} ColumnsAddedEffect(rows: seq<Row>, lists: seq<seq<Cell>>, listText: seq<Cell> -> string)
    requires forall x :: x in lists ==> |x| == |rows|
    ensures var after := ColumnsAdded(rows, lists, listText);
      forall i :: 0 <= i < |rows| ==>
        && after[i].Keys == rows[i].Keys + Names(lists, listText)
        && (forall c :: c in rows[i] && c !in Names(lists, listText) ==> after[i][c] == rows[i][c])
        && (forall j :: 0 <= j < |lists| && LastWithItsName(lists, listText, j) ==>
              after[i][listText(lists[j])] == lists[j][i])
    decreases |lists|
  {
    if lists != [] {
      var init, last := lists[..|lists| - 1], lists[|lists| - 1];
      assert lists == init + [last];
      assert Names(lists, listText) == Names(init, listText) + {listText(last)} by {
        forall x | x in lists ensures x in init || x == last {
          var j :| 0 <= j < |lists| && lists[j] == x;
          if j < |lists| - 1 { assert init[j] == x; }
        }
      }
      ColumnsAddedEffect(rows, init, listText);
      var before := ColumnsAdded(rows, init, listText);
      var after := ColumnsAdded(rows, lists, listText);
      assert after == WithColumn(before, listText(last), last);
      forall i | 0 <= i < |rows|
        ensures after[i].Keys == rows[i].Keys + Names(lists, listText)
        ensures forall c :: c in rows[i] && c !in Names(lists, listText) ==> after[i][c] == rows[i][c]
        ensures forall j :: 0 <= j < |lists| && LastWithItsName(lists, listText, j) ==>
                  after[i][listText(lists[j])] == lists[j][i]
      {
        assert after[i] == before[i][listText(last) := last[i]];
        forall j | 0 <= j < |lists| - 1 && LastWithItsName(lists, listText, j)
          ensures after[i][listText(lists[j])] == lists[j][i]
        {
          assert LastWithItsName(init, listText, j);
          assert init[j] == lists[j];
        }
      }
    }
  }

  /** `add_list_to_df`: adds the lists one after another; the first list whose
      length differs from the row count raises ValueError, leaving the columns
      added before it in place. */
  method AddListToDf(df: DataFrame, lists: seq<seq<Cell>>, listText: seq<Cell> -> string)
    returns (failed: Option<nat>)
    modifies df
    ensures failed.None? <==> forall x :: x in lists ==> |x| == |old(df.rows)|
    ensures failed.Some? ==>
      && failed.value < |lists|
      && |lists[failed.value]| != |old(df.rows)|
      && forall l :: 0 <= l < failed.value ==> |lists[l]| == |old(df.rows)|
    ensures var added := if failed.Some? then failed.value else |lists|;
      added <= |lists| && df.rows == ColumnsAdded(old(df.rows), lists[..added], listText)
  {
    for j := 0 to |lists|
      invariant forall l :: 0 <= l < j ==> |lists[l]| == |old(df.rows)|
      invariant df.rows == ColumnsAdded(old(df.rows), lists[..j], listText)
    {
      assert lists[..j + 1][..j] == lists[..j];
      var ok := df.SetColumn(listText(lists[j]), lists[j]);
      if !ok {
        return Some(j);
      }
    }
    assert lists[..|lists|] == lists;
    return None;
  }

  /** What ends Stage A's enrichment. */
  datatype EnrichError = Fetch(error: FetchError) | LengthMismatch(list: nat)

  /** Stage A from the bounded table on: build the three lists, query the
      forecasts, add the ten lists as columns. Because cloudCover_1 is always
      empty, the last addition raises on every table that has a row. */
  method EnrichWithWeather(df: DataFrame, key: string, show: Cell -> string,
                           fetch: string -> Option<Daily>, listText: seq<Cell> -> string)
    returns (error: Option<EnrichError>)
    requires HasColumn(df.rows, Cleaning.Datetime)
    requires HasColumn(df.rows, Cleaning.Latitude) && HasColumn(df.rows, Cleaning.Longitude)
    modifies df
    ensures error.None? <==> old(df.rows) == []
    ensures error.None? ==> df.rows == old(df.rows)
    ensures error.Some? && error.value.Fetch? ==> df.rows == old(df.rows)
    ensures var rows := old(df.rows);
      var urls := Requests(key, Column(rows, Cleaning.Datetime), Column(rows, Cleaning.Latitude),
                           Column(rows, Cleaning.Longitude), show);
      (rows != [] && forall n :: 0 <= n < |rows| ==> Complete(fetch(urls[n]))) ==>
        && error == Some(LengthMismatch(9))
        && df.rows == ColumnsAdded(rows, WeatherLists(urls, fetch), listText)
    ensures var rows := old(df.rows);
      var urls := Requests(key, Column(rows, Cleaning.Datetime), Column(rows, Cleaning.Latitude),
                           Column(rows, Cleaning.Longitude), show);
      (error.Some? && error.value.Fetch?) <==> exists n :: 0 <= n < |rows| && !Complete(fetch(urls[n]))
    ensures error.Some? && error.value.Fetch? ==>
      var rows := old(df.rows);
      var urls := Requests(key, Column(rows, Cleaning.Datetime), Column(rows, Cleaning.Latitude),
                           Column(rows, Cleaning.Longitude), show);
      var n := error.value.error.row;
      && n < |rows|
      && (forall m :: 0 <= m < n ==> Complete(fetch(urls[m])))
      && !Complete(fetch(urls[n]))
      && error.value.error == RowError(n, fetch(urls[n]))
    ensures error.Some? && error.value.LengthMismatch? ==> error.value.list == 9
  {
    var dates, latitudes, longitudes := ListsForDarkskyApi(df.rows, Cleaning.Datetime, Cleaning.Latitude, Cleaning.Longitude);
    var weather := QueryDarksky(key, dates, latitudes, longitudes, show, fetch);
    if weather.Err? {
      return Some(Fetch(weather.error));
    }
    ghost var urls := Requests(key, dates, latitudes, longitudes, show);
    WeatherListsPointwise(weather.value[..9], urls, fetch);
    var failed := AddListToDf(df, weather.value, listText);
    if failed.Some? {
      return Some(LengthMismatch(failed.value));
    }
    assert weather.value[9] in weather.value;
    return None;
  }
}
