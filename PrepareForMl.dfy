/** Stage B feature engineering: the safe/unsafe label and the month taken
    from the sample date. */
module PrepareForMl {
  import opened Frames

  const EntResults := "Ent Results"
  const CpResult := "CP Result"
  const Date := "Date"
  const Month := "Month"

  /** `value >= threshold` on a cell; a missing value compares false. */
  predicate AtLeast(c: Cell, threshold: real)
    requires !c.Text?
  {
    c.Num? && c.x >= threshold
  }

  /** The label `categorize` gives one sample: 1 (unsafe) iff the Enterococcus
      count is at least 130 and the Clostridium perfringens count at least 2. */
  function SafetyLabel(ent: Cell, cp: Cell): (category: int)
    requires !ent.Text? && !cp.Text?
    ensures category == 0 || category == 1
    ensures category == 1 <==> AtLeast(ent, 130.0) && AtLeast(cp, 2.0)
  {
    if AtLeast(ent, 130.0) then
      if AtLeast(cp, 2.0) then 1 else 0
    else 0
  }

  lemma SafetyLabelExamples()
    ensures SafetyLabel(Num(130.0), Num(2.0)) == 1
    ensures SafetyLabel(Num(129.0), Num(5.0)) == 0
    ensures SafetyLabel(Num(500.0), Num(1.0)) == 0
    ensures SafetyLabel(NaN, Num(5.0)) == 0
  {
  }

  /** The label column: one label per row, in row order. */
  function Labels(rows: seq<Row>): (labels: seq<Cell>)
    requires NumericColumn(rows, EntResults) && NumericColumn(rows, CpResult)
    ensures |labels| == |rows|
  {
    seq(|rows|, i requires 0 <= i < |rows| =>
      assert rows[i] in rows; Num(SafetyLabel(rows[i][EntResults], rows[i][CpResult]) as real))
  }

  /** `categorize`: appends one label per row, in row order, then assigns the
      list to the column `category` of the frame, in place. */
  method Categorize(df: DataFrame, category: string)
    requires NumericColumn(df.rows, EntResults) && NumericColumn(df.rows, CpResult)
    modifies df
    ensures df.rows == WithColumn(old(df.rows), category, Labels(old(df.rows)))
  {
    var cats: seq<Cell> := [];
    for i := 0 to |df.rows|
      invariant cats == Labels(df.rows)[..i]
    {
      assert df.rows[i] in df.rows;
      var unsafe := if AtLeast(df.rows[i][EntResults], 130.0) then
                     if AtLeast(df.rows[i][CpResult], 2.0) then 1 else 0
                   else 0;
      cats := cats + [Num(unsafe as real)];
    }
    var ok := df.SetColumn(category, cats);
    assert ok;
  }

  /** After `categorize` the frame has as many rows as before, the category
      column holds 0 or 1 in every row, 1 exactly where both thresholds are
      met, and every other column is unchanged. */
  lemma CategorizedFrame(rows: seq<Row>, category: string)
    requires NumericColumn(rows, EntResults) && NumericColumn(rows, CpResult)
    ensures var after := WithColumn(rows, category, Labels(rows));
      && |after| == |rows|
      && forall i :: 0 <= i < |rows| ==>
           && after[i].Keys == rows[i].Keys + {category}
           && (after[i][category] == Num(0.0) || after[i][category] == Num(1.0))
           && (after[i][category] == Num(1.0) <==>
                 AtLeast(rows[i][EntResults], 130.0) && AtLeast(rows[i][CpResult], 2.0))
           && (forall c :: c in rows[i] && c != category ==> after[i][c] == rows[i][c])
  {
    var after := WithColumn(rows, category, Labels(rows));
    forall i | 0 <= i < |rows|
      ensures after[i][category] == Num(0.0) || after[i][category] == Num(1.0)
      ensures after[i][category] == Num(1.0) <==>
                AtLeast(rows[i][EntResults], 130.0) && AtLeast(rows[i][CpResult], 2.0)
    {
      assert rows[i] in rows;
      var unsafe := SafetyLabel(rows[i][EntResults], rows[i][CpResult]);
      assert after[i][category] == Num(unsafe as real);
    }
  }

  predicate IsDigit(c: char) {
    '0' <= c <= '9'
  }

  predicate AllDigits(s: string) {
    forall i :: 0 <= i < |s| ==> IsDigit(s[i])
  }

  /** The pattern `(\d+)/` matches at position `p`, its digits ending just
      before the slash at position `e`; the group is `s[p..e]`. */
  predicate MatchAt(s: string, p: int, e: int) {
    0 <= p < e < |s| && AllDigits(s[p..e]) && s[e] == '/'
  }

  /** Where the run of digits starting at `i` ends. */
  function DigitRunEnd(s: string, i: nat): (e: nat)
    requires i <= |s|
    ensures i <= e <= |s|
    ensures AllDigits(s[i..e])
    ensures e == |s| || !IsDigit(s[e])
    decreases |s| - i
  {
    if i < |s| && IsDigit(s[i]) then DigitRunEnd(s, i + 1) else i
  }

  /** The span of the first match of `(\d+)/` at or after position `i`,
      scanning run by run as the regular-expression search does. */
  function FirstMatchFrom(s: string, i: nat): (m: Option<(nat, nat)>)
    requires i <= |s|
    ensures m.Some? ==> i <= m.value.0 && MatchAt(s, m.value.0, m.value.1)
    decreases |s| - i
  {
    if i == |s| then None
    else if !IsDigit(s[i]) then
      FirstMatchFrom(s, i + 1)
    else
      var e := DigitRunEnd(s, i);
      if e < |s| && s[e] == '/' then Some((i, e))
      else
        FirstMatchFrom(s, e)
  }

  /** Inside a run of digits that is not followed by `/`, no position
      starts a match. */
  lemma NoMatchInRun(s: string, i: nat, p: int, f: int)
    requires i < |s| && i <= p < DigitRunEnd(s, i)
    requires var e := DigitRunEnd(s, i); e == |s| || s[e] != '/'
    ensures !MatchAt(s, p, f)
  {
    var e := DigitRunEnd(s, i);
    if p < f < e {
      assert s[i..e][f - i] == s[f];
    } else if e < f < |s| {
      assert s[p..f][e - p] == s[e];
    }
  }

  /** The search finds the leftmost match at or after `i`, and finds none
      only when there is none. */
  lemma {:induction false} FirstMatchFromIsFirst(s: string, i: nat)
    requires i <= |s|
    ensures var m := FirstMatchFrom(s, i);
      m.Some? ==> forall p, e :: i <= p < m.value.0 ==> !MatchAt(s, p, e)
    ensures FirstMatchFrom(s, i).None? ==> forall p, e :: i <= p ==> !MatchAt(s, p, e)
    decreases |s| - i
  {
    if i < |s| {
      if !IsDigit(s[i]) {
        FirstMatchFromIsFirst(s, i + 1);
        forall e ensures !MatchAt(s, i, e) {
          if i < e < |s| {
            assert s[i..e][0] == s[i];
          }
        }
      } else {
        var e := DigitRunEnd(s, i);
        if !(e < |s| && s[e] == '/') {
          FirstMatchFromIsFirst(s, e);
          forall p, f | i <= p < e ensures !MatchAt(s, p, f) {
            NoMatchInRun(s, i, p, f);
          }
        }
      }
    }
  }

  /** `re.findall(r"(\d+)/", s)[0]`: the month token, or None where findall
      returns an empty list and indexing it raises IndexError. */
  function MonthToken(s: string): (token: Option<string>)
    ensures token.Some? ==> |token.value| > 0 && AllDigits(token.value)
    ensures token.None? <==> forall p, e :: !MatchAt(s, p, e)
  {
    FirstMatchFromIsFirst(s, 0);
    match FirstMatchFrom(s, 0)
    case None => None
    case Some((p, e)) => Some(s[p..e])
  }

  /** A digit just before a match starts a match too. */
  lemma MatchExtendsLeft(s: string, p: int, e: int)
    requires MatchAt(s, p, e) && p > 0
    ensures IsDigit(s[p - 1]) ==> MatchAt(s, p - 1, e)
  {
    if IsDigit(s[p - 1]) {
      assert s[p - 1..e] == [s[p - 1]] + s[p..e];
    }
  }

  /** The token is the first maximal run of digits that is immediately
      followed by `/`: it is digits, the character after it is the slash,
      the character before it is not a digit, and no earlier position starts
      a match. Without a token, no position starts a match. */
  lemma MonthTokenIsFirstMaximalRun(s: string)
    ensures MonthToken(s).None? <==> forall p, e :: !MatchAt(s, p, e)
    ensures MonthToken(s).Some? ==>
      exists p, e :: && MatchAt(s, p, e)
                     && MonthToken(s).value == s[p..e]
                     && (p == 0 || !IsDigit(s[p - 1]))
                     && forall q, f :: q < p ==> !MatchAt(s, q, f)
  {
    var m := FirstMatchFrom(s, 0);
    FirstMatchFromIsFirst(s, 0);
    if m.Some? {
      var (p, e) := m.value;
      if p > 0 {
        MatchExtendsLeft(s, p, e);
      }
      assert MatchAt(s, p, e) && MonthToken(s).value == s[p..e];
    }
  }

  /** A US-style date "MM/DD/YYYY" gives its month digits. */
  lemma {:induction false} MonthOfUsDate(mm: string, rest: string)
    requires |mm| > 0 && AllDigits(mm)
    ensures MonthToken(mm + "/" + rest) == Some(mm)
  {
    var s := mm + "/" + rest;
    assert s[..|mm|] == mm && s[|mm|] == '/';
    assert MatchAt(s, 0, |mm|);
    var m := FirstMatchFrom(s, 0);
    assert m.Some? && m.value.0 == 0;
  }

  /** The decimal value of a digit string, as `pd.to_numeric` reads it. */
  function DigitsValue(t: string): (value: nat)
    requires AllDigits(t)
    ensures |t| == 1 ==> value == (t[0] - '0') as nat
    ensures |t| == 2 ==> value == 10 * (t[0] - '0') as nat + (t[1] - '0') as nat
  {
    if t == [] then 0
    else DigitsValue(t[..|t| - 1]) * 10 + (t[|t| - 1] - '0') as nat
  }

  /** The month is not range-checked: "13/01/2020" yields month 13. */
  lemma MonthThirteenIsKept()
    ensures MonthToken("13/01/2020") == Some("13")
    ensures DigitsValue("13") == 13
  {
    MonthOfUsDate("13", "01/2020");
    assert "13" + "/" + "01/2020" == "13/01/2020";
    assert "13"[..1] == "1";
  }

  /** Why the month step fails at a row: its Date is not text (TypeError
      in `re.findall`), or no run of digits in it is followed by `/`. */
  datatype MonthError = DateNotText(row: nat) | NoMonthToken(row: nat)

  /** The month cell of one Date cell, or the error the step raises. */
  function MonthOf(date: Cell, row: nat): (month: Result<Cell, MonthError>)
    ensures month.Ok? <==> date.Text? && MonthToken(date.s).Some?
    ensures month.Err? ==> month.error.row == row && (month.error.DateNotText? <==> !date.Text?)
    ensures month.Ok? ==> month.value.Num? && 0.0 <= month.value.x && month.value.x.Floor as real == month.value.x
  {
    if !date.Text? then Err(DateNotText(row))
    else match MonthToken(date.s)
      case None => Err(NoMonthToken(row))
      case Some(t) =>
        assert AllDigits(t) by { MonthTokenIsFirstMaximalRun(date.s); }
        Ok(Num(DigitsValue(t) as real))
  }

  /** The Month column, given that every row has a token. */
  function Months(rows: seq<Row>): (months: seq<Cell>)
    requires HasColumn(rows, Date)
    requires forall i :: 0 <= i < |rows| ==> MonthOf(rows[i][Date], i).Ok?
    ensures |months| == |rows|
  {
    seq(|rows|, i requires 0 <= i < |rows| => MonthOf(rows[i][Date], i).value)
  }

  /** The token loop of the month step: the digits of every Date's month
      token, in row order, or the error raised at the first row without one. */
  method MonthTokens(rows: seq<Row>) returns (result: Result<seq<string>, MonthError>)
    requires HasColumn(rows, Date)
    ensures result.Ok? <==> forall i :: 0 <= i < |rows| ==> MonthOf(rows[i][Date], i).Ok?
    ensures result.Err? ==>
      var n := result.error.row;
      && n < |rows|
      && (forall i :: 0 <= i < n ==> MonthOf(rows[i][Date], i).Ok?)
      && MonthOf(rows[n][Date], n) == Err(result.error)
    ensures result.Ok? ==>
      && |result.value| == |rows|
      && (forall j :: 0 <= j < |rows| ==>
            rows[j][Date].Text? && MonthToken(rows[j][Date].s) == Some(result.value[j]))
      && forall j :: 0 <= j < |rows| ==>
           AllDigits(result.value[j]) && MonthOf(rows[j][Date], j) == Ok(Num(DigitsValue(result.value[j]) as real))
  {
    var tokens: seq<string> := [];
    for i := 0 to |rows|
      invariant |tokens| == i
      invariant forall j :: 0 <= j < i ==>
                  rows[j][Date].Text? && MonthToken(rows[j][Date].s) == Some(tokens[j])
      invariant forall j :: 0 <= j < i ==>
                  AllDigits(tokens[j]) && MonthOf(rows[j][Date], j) == Ok(Num(DigitsValue(tokens[j]) as real))
    {
      assert rows[i] in rows;
      var date := rows[i][Date];
      if !date.Text? {
        return Err(DateNotText(i));
      }
      var token := MonthToken(date.s);
      if token.None? {
        return Err(NoMonthToken(i));
      }
      MonthTokenIsFirstMaximalRun(date.s);
      tokens := tokens + [token.value];
    }
    result := Ok(tokens);
  }

  /** The month step of `convert_month_to_continuous`: extracts the token of
      every Date in order, assigns the tokens to the Month column, converts
      them to numbers in place, and returns the rows whose Month is finite.
      The first row without a token raises before the frame is touched. */
  method ConvertMonth(df: DataFrame) returns (result: Result<seq<Row>, MonthError>)
    requires HasColumn(df.rows, Date)
    modifies df
    ensures result.Ok? <==> forall i :: 0 <= i < |old(df.rows)| ==> MonthOf(old(df.rows)[i][Date], i).Ok?
    ensures result.Err? ==>
      && df.rows == old(df.rows)
      && var n := result.error.row;
         && n < |df.rows|
         && (forall i :: 0 <= i < n ==> MonthOf(df.rows[i][Date], i).Ok?)
         && MonthOf(df.rows[n][Date], n) == Err(result.error)
    ensures result.Ok? ==>
      && df.rows == WithColumn(old(df.rows), Month, Months(old(df.rows)))
      && result.value == Where(df.rows, (r: Row) => Month in r && IsFinite(r[Month]))
  {
    var rows := df.rows;
    var found := MonthTokens(rows);
    if found.Err? {
      return Err(found.error);
    }
    var tokens := found.value;
    var texts := seq(|tokens|, j requires 0 <= j < |tokens| => Text(tokens[j]));
    var ok := df.SetColumn(Month, texts);
    assert ok;
    var months := seq(|tokens|, j requires 0 <= j < |tokens| => Num(DigitsValue(tokens[j]) as real));
    assert months == Months(rows);
    ok := df.SetColumn(Month, months);
    assert ok;
    WithColumnTwice(rows, Month, texts, months);
    result := Ok(Where(df.rows, (r: Row) => Month in r && IsFinite(r[Month])));
  }

  /** Every token is digits, so every Month is a number: the finiteness
      filter of the month step drops no row and keeps the order. */
  lemma MonthFilterKeepsEveryRow(rows: seq<Row>)
    requires HasColumn(rows, Date)
    requires forall i :: 0 <= i < |rows| ==> MonthOf(rows[i][Date], i).Ok?
    ensures var withMonth := WithColumn(rows, Month, Months(rows));
      && Where(withMonth, (r: Row) => Month in r && IsFinite(r[Month])) == withMonth
      && forall i :: 0 <= i < |rows| ==> withMonth[i][Month].Num? && withMonth[i][Month].x >= 0.0
  {
    var withMonth := WithColumn(rows, Month, Months(rows));
    forall r | r in withMonth ensures Month in r && IsFinite(r[Month]) {
      var i :| 0 <= i < |withMonth| && withMonth[i] == r;
      assert rows[i] in rows;
    }
    WhereAll(withMonth, (r: Row) => Month in r && IsFinite(r[Month]));
  }
}
