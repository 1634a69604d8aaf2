/** Stage C: the random train/test split, undersampling of the majority
    class, and the evaluation counts and ratios. The random shuffle is a
    permutation of the row positions and the random draw an injective list
    of indices, both given as arguments. */
module WaterQualityMl {
  import opened Frames

  /** Python's `int()` on a number: truncation toward zero. */
  function Truncate(x: real): (t: int)
    ensures x >= 0.0 ==> 0 <= t && t as real <= x < t as real + 1.0
    ensures x < 0.0 ==> t <= 0 && t as real - 1.0 < x <= t as real
  {
    if x >= 0.0 then x.Floor else -((-x).Floor)
  }

  /** A slice bound as Python reads it: a negative bound counts from the
      end, and the result is clamped to the table. */
  function SliceBound(k: int, n: nat): (b: nat)
    ensures b <= n
    ensures 0 <= k <= n ==> b == k
  {
    if k < 0 then (if k + n < 0 then 0 else k + n)
    else if k > n then n
    else k
  }

  /** The positions 0, 1, ..., n - 1. */
  function Range(n: nat): seq<nat> {
    seq(n, i => i)
  }

  /** `perm` lists every position 0..n-1 exactly once: an order that
      `df.sample(frac=1)` can draw. */
  predicate IsPermutation(perm: seq<nat>, n: nat) {
    && |perm| == n
    && (forall k :: 0 <= k < n ==> perm[k] < n)
    && multiset(perm) == multiset(Range(n))
  }

  /** Each position occurs once among 0..n-1. */
  lemma {:induction false} RangeOnce(n: nat, i: nat)
    requires i < n
    ensures multiset(Range(n))[i] == 1
  {
    assert Range(n) == Range(n - 1) + [n - 1];
    if i < n - 1 {
      RangeOnce(n - 1, i);
    } else {
      assert i !in Range(n - 1);
    }
  }

  /** Taking the largest position out of a permutation leaves a
      permutation of the smaller range. */
  lemma DropLargest(perm: seq<nat>, n: nat, k: nat)
    requires IsPermutation(perm, n) && k < n && perm[k] == n - 1
    ensures IsPermutation(perm[..k] + perm[k + 1..], n - 1)
  {
    var last := n - 1;
    var rest := perm[..k] + perm[k + 1..];
    assert perm == perm[..k] + [last] + perm[k + 1..];
    assert Range(n) == Range(last) + [last];
    assert multiset(perm) == multiset(rest) + multiset{last};
    assert multiset(Range(n)) == multiset(Range(last)) + multiset{last};
    forall x ensures multiset(rest)[x] == multiset(Range(last))[x] {
      assert (multiset(rest) + multiset{last})[x] == (multiset(Range(last)) + multiset{last})[x];
    }
    assert multiset(rest) == multiset(Range(last));
    forall j | 0 <= j < |rest| ensures rest[j] < last {
      assert rest[j] in multiset(Range(last));
      assert rest[j] in Range(last);
    }
  }

  /** A permutation of a non-empty range holds its largest position. */
  lemma LargestAt(perm: seq<nat>, n: nat) returns (k: nat)
    requires IsPermutation(perm, n) && n > 0
    ensures k < n && perm[k] == n - 1
  {
    assert Range(n)[n - 1] == n - 1;
    assert n - 1 in multiset(perm);
    k :| 0 <= k < n && perm[k] == n - 1;
  }

  /** Reordering the rows by a permutation keeps the same rows, as many
      times each. */
  lemma {:induction false} PermutedMultiset(rows: seq<Row>, perm: seq<nat>)
    requires IsPermutation(perm, |rows|)
    ensures multiset(At(rows, perm)) == multiset(rows)
    decreases |rows|
  {
    var n := |rows|;
    if n > 0 {
      var last := n - 1;
      var k := LargestAt(perm, n);
      var rest := perm[..k] + perm[k + 1..];
      DropLargest(perm, n, k);
      var init := rows[..last];
      PermutedMultiset(init, rest);
      var shorter := At(init, rest);
      AtWithoutLargest(rows, perm, k);
      InsertedMultiset(shorter, rows[last], k);
      assert init + [rows[last]] == rows;
    }
  }

  /** Inserting a row anywhere adds it once to the multiset. */
  lemma InsertedMultiset(s: seq<Row>, x: Row, k: nat)
    requires k <= |s|
    ensures multiset(s[..k] + [x] + s[k..]) == multiset(s) + multiset{x}
  {
    assert s == s[..k] + s[k..];
  }

  /** Reordering by a permutation whose entry k is the last position puts
      the last row at k, and the others in the order of the remaining
      entries. */
  lemma AtWithoutLargest(rows: seq<Row>, perm: seq<nat>, k: nat)
    requires |rows| > 0 && IsPermutation(perm, |rows|) && k < |rows| && perm[k] == |rows| - 1
    requires IsPermutation(perm[..k] + perm[k + 1..], |rows| - 1)
    ensures var shorter := At(rows[..|rows| - 1], perm[..k] + perm[k + 1..]);
      At(rows, perm) == shorter[..k] + [rows[|rows| - 1]] + shorter[k..]
  {
  }

  /** Scaling a size by a fraction keeps it between 0 and the size; scaling
      by 1 or more does not shrink it. */
  lemma ScaledBounds(x: real, p: real)
    requires x >= 0.0
    ensures 0.0 <= p <= 1.0 ==> 0.0 <= x * p <= x
    ensures p >= 1.0 ==> x * p >= x
  {
    assert x * p - x == x * (p - 1.0);
    if p >= 1.0 {
      assert x * (p - 1.0) >= 0.0;
    } else if p >= 0.0 {
      assert x * p >= 0.0 && x * (1.0 - p) >= 0.0;
    }
  }

  /** Truncating a value between 0 and `n` gives its floor, again between 0
      and `n`; truncating `n` or more gives `n` or more. */
  lemma TruncateBounds(x: real, n: nat)
    ensures 0.0 <= x <= n as real ==> 0 <= Truncate(x) <= n && Truncate(x) == x.Floor
    ensures x >= n as real ==> Truncate(x) >= n
  {
    assert x.Floor as real <= x < x.Floor as real + 1.0;
  }

  /** The position where `train_test_split` cuts the shuffled table:
      `int(n * percenttrain)`, read as a slice bound. */
  function Cut(n: nat, percentTrain: real): (cut: nat)
    ensures cut <= n
    ensures 0.0 <= percentTrain <= 1.0 ==> cut == (n as real * percentTrain).Floor
    ensures percentTrain >= 1.0 ==> cut == n
  {
    var scaled := n as real * percentTrain;
    ScaledBounds(n as real, percentTrain);
    TruncateBounds(scaled, n);
    SliceBound(Truncate(scaled), n)
  }

  /** `train_test_split`: shuffles the rows by `perm`, then slices the first
      `int(n * percenttrain)` rows off as the training set and keeps the rest
      as the test set. */
  function TrainTestSplit(rows: seq<Row>, percentTrain: real, perm: seq<nat>): (split: (seq<Row>, seq<Row>))
    requires IsPermutation(perm, |rows|)
    ensures split.0 + split.1 == At(rows, perm)
    ensures 0.0 <= percentTrain <= 1.0 ==>
              |split.0| == (|rows| as real * percentTrain).Floor && |split.1| == |rows| - |split.0|
  {
    var shuffled := At(rows, perm);
    var cut := Cut(|rows|, percentTrain);
    assert shuffled == shuffled[..cut] + shuffled[cut..];
    (shuffled[..cut], shuffled[cut..])
  }

  /** The split partitions the table: together the two parts hold exactly
      the input's rows, and every input position lands in exactly one part. */
  lemma SplitIsPartition(rows: seq<Row>, percentTrain: real, perm: seq<nat>)
    requires IsPermutation(perm, |rows|)
    ensures var (train, test) := TrainTestSplit(rows, percentTrain, perm);
      multiset(train) + multiset(test) == multiset(rows)
    ensures var cut := Cut(|rows|, percentTrain);
      forall i :: 0 <= i < |rows| ==> multiset(perm[..cut])[i] + multiset(perm[cut..])[i] == 1
  {
    var (train, test) := TrainTestSplit(rows, percentTrain, perm);
    PermutedMultiset(rows, perm);
    assert multiset(train + test) == multiset(train) + multiset(test);
    var cut := Cut(|rows|, percentTrain);
    assert perm == perm[..cut] + perm[cut..];
    forall i | 0 <= i < |rows| ensures multiset(perm[..cut])[i] + multiset(perm[cut..])[i] == 1 {
      RangeOnce(|rows|, i);
    }
  }

  /** The rows whose `category` equals the number `value`; a missing or
      text label equals no number. */
  function LabelIs(category: string, value: real): Row -> bool {
    (r: Row) => category in r && r[category] == Num(value)
  }

  /** `choice` draws `size` distinct indices below `population`, as
      `np.random.choice(..., replace=False)` does. */
  predicate IsDraw(choice: seq<nat>, size: nat, population: nat) {
    && |choice| == size
    && (forall k :: 0 <= k < size ==> choice[k] < population)
    && (forall k, l :: 0 <= k < l < size ==> choice[k] != choice[l])
  }

  /** Sampling without replacement raises ValueError when asked for more
      rows than there are. */
  datatype SampleError = LargerThanPopulation(wanted: nat, available: nat)

  /** The label-1 rows, in their original order. */
  function Minority(rows: seq<Row>, category: string): (minority: seq<Row>)
    ensures |minority| <= |rows|
    ensures forall r :: r in minority <==> r in rows && LabelIs(category, 1.0)(r)
  {
    Where(rows, LabelIs(category, 1.0))
  }

  /** The positions of the label-0 rows, ascending. */
  function MajorityPositions(rows: seq<Row>, category: string): (ps: seq<nat>)
    ensures |ps| == |Where(rows, LabelIs(category, 0.0))|
    ensures forall k :: 0 <= k < |ps| ==> ps[k] < |rows| && LabelIs(category, 0.0)(rows[ps[k]])
    ensures forall k, l :: 0 <= k < l < |ps| ==> ps[k] < ps[l]
  {
    WhereIsSubsequence(rows, LabelIs(category, 0.0));
    KeptPositions(rows, LabelIs(category, 0.0))
  }

  /** The label-0 rows at the drawn indices into the label-0 positions,
      in draw order: `traindf.loc[random_indices]`. */
  function Drawn(rows: seq<Row>, category: string, choice: seq<nat>): (sample: seq<Row>)
    requires forall k :: 0 <= k < |choice| ==> choice[k] < |MajorityPositions(rows, category)|
    ensures |sample| == |choice|
    ensures forall k :: 0 <= k < |choice| ==> LabelIs(category, 0.0)(sample[k])
  {
    var majority := MajorityPositions(rows, category);
    seq(|choice|, k requires 0 <= k < |choice| => rows[majority[choice[k]]])
  }

  /** Distinct draws pick distinct label-0 rows of the input. */
  lemma DrawnAreDistinctRows(rows: seq<Row>, category: string, choice: seq<nat>)
    requires IsDraw(choice, |choice|, |MajorityPositions(rows, category)|)
    ensures var majority := MajorityPositions(rows, category);
      forall k, l :: 0 <= k < l < |choice| ==> majority[choice[k]] != majority[choice[l]]
    ensures var majority := MajorityPositions(rows, category);
      forall k :: 0 <= k < |choice| ==> Drawn(rows, category, choice)[k] == rows[majority[choice[k]]]
  {
    var majority := MajorityPositions(rows, category);
    forall k, l | 0 <= k < l < |choice| ensures majority[choice[k]] != majority[choice[l]] {
      if choice[k] < choice[l] {
        assert majority[choice[k]] < majority[choice[l]];
      } else {
        assert majority[choice[l]] < majority[choice[k]];
      }
    }
  }

  /** `undersample`: all label-1 rows in their original order, followed by
      the drawn label-0 rows; drawing more rows than there are label-0 rows
      is an error. */
  function Undersample(rows: seq<Row>, category: string, choice: seq<nat>): (balanced: Result<seq<Row>, SampleError>)
    requires HasColumn(rows, category)
    requires var minority, majority := |Minority(rows, category)|, |MajorityPositions(rows, category)|;
             minority <= majority ==> IsDraw(choice, minority, majority)
    ensures balanced.Ok? <==> |Minority(rows, category)| <= |MajorityPositions(rows, category)|
    ensures balanced.Err? ==>
      balanced.error == LargerThanPopulation(|Minority(rows, category)|, |MajorityPositions(rows, category)|)
    ensures balanced.Ok? ==>
      && |balanced.value| == 2 * |Minority(rows, category)|
      && balanced.value == Minority(rows, category) + Drawn(rows, category, choice)
  {
    var minority, majority := Minority(rows, category), MajorityPositions(rows, category);
    if |minority| > |majority| then Err(LargerThanPopulation(|minority|, |majority|))
    else Ok(minority + Drawn(rows, category, choice))
  }

  /** The balanced table holds as many label-1 as label-0 rows, both equal
      to the input's label-1 count, and keeps every label-1 row. */
  lemma UndersampleBalances(rows: seq<Row>, category: string, choice: seq<nat>)
    requires HasColumn(rows, category)
    requires var minority, majority := |Minority(rows, category)|, |MajorityPositions(rows, category)|;
             minority <= majority ==> IsDraw(choice, minority, majority)
    ensures var balanced, minority := Undersample(rows, category, choice), Minority(rows, category);
      balanced.Ok? ==>
        && Where(balanced.value, LabelIs(category, 1.0)) == minority
        && |Where(balanced.value, LabelIs(category, 0.0))| == |minority|
  {
    var balanced := Undersample(rows, category, choice);
    if balanced.Ok? {
      SelectionCounts(Minority(rows, category), Drawn(rows, category, choice),
                      LabelIs(category, 1.0), LabelIs(category, 0.0));
    }
  }

  /** Rows that all pass one of two exclusive masks, followed by rows that
      all pass the other: each mask selects exactly its own part. */
  lemma SelectionCounts(first: seq<Row>, second: seq<Row>, one: Row -> bool, other: Row -> bool)
    requires forall r :: !(one(r) && other(r))
    requires forall r :: r in first ==> one(r)
    requires forall k :: 0 <= k < |second| ==> other(second[k])
    ensures Where(first + second, one) == first
    ensures Where(first + second, other) == second
  {
    WhereConcat(first, second, one);
    WhereConcat(first, second, other);
    WhereAll(first, one);
    WhereNone(first, other);
    WhereAll(second, other);
    WhereNone(second, one);
  }

  /** The seven counters of `calculate_accuracy`. */
  datatype Confusion = Confusion(correct: nat, misclassification: nat, truePositive: nat,
                                 falsePositive: nat, specificity: nat, falseNegative: nat,
                                 predictedYes: nat)

  /** `prediction == label`, comparing an integer with a cell as Python
      compares numbers; a missing or text label equals no prediction. */
  predicate Matches(prediction: int, truth: Cell) {
    truth == Num(prediction as real)
  }

  function Indicator(b: bool): nat {
    if b then 1 else 0
  }

  /** One pass of the loop body of `calculate_accuracy`. */
  function CountOne(c: Confusion, prediction: int, truth: Cell): (after: Confusion)
    ensures after.correct + after.misclassification == c.correct + c.misclassification + 1
    ensures (prediction == 0 || prediction == 1) && (truth == Num(0.0) || truth == Num(1.0)) ==>
              after.truePositive + after.falsePositive + after.specificity + after.falseNegative
                == c.truePositive + c.falsePositive + c.specificity + c.falseNegative + 1
    ensures after.predictedYes == c.predictedYes + 1 <==> prediction == 1
    ensures prediction != 1 ==> after.predictedYes == c.predictedYes
  {
    Confusion(
      c.correct + Indicator(Matches(prediction, truth)),
      c.misclassification + Indicator(!Matches(prediction, truth)),
      c.truePositive + Indicator(prediction == 1 && Matches(1, truth)),
      c.falsePositive + Indicator(prediction == 1 && Matches(0, truth)),
      c.specificity + Indicator(prediction == 0 && Matches(0, truth)),
      c.falseNegative + Indicator(prediction == 0 && Matches(1, truth)),
      c.predictedYes + Indicator(prediction == 1))
  }

  /** The counters after the loop has seen every (prediction, label) pair. */
  function Tally(predictions: seq<int>, labels: seq<Cell>): (counts: Confusion)
    requires |predictions| == |labels|
    ensures counts.correct + counts.misclassification == |labels|
    ensures counts.truePositive + counts.falsePositive <= counts.predictedYes <= |labels|
  {
    if labels == [] then Confusion(0, 0, 0, 0, 0, 0, 0)
    else
      var n := |labels| - 1;
      CountOne(Tally(predictions[..n], labels[..n]), predictions[n], labels[n])
  }

  /** How many labels are the number `value`. */
  function CountOf(labels: seq<Cell>, value: real): nat {
    if labels == [] then 0
    else CountOf(labels[..|labels| - 1], value) + Indicator(labels[|labels| - 1] == Num(value))
  }

  /** The counters add up over any (prediction, label) pairs. */
  lemma {:induction false} TallyIdentities(predictions: seq<int>, labels: seq<Cell>)
    requires |predictions| == |labels|
    ensures var c := Tally(predictions, labels);
      && c.correct + c.misclassification == |labels|
      && ((forall i :: 0 <= i < |labels| ==> predictions[i] == 0 || predictions[i] == 1) ==>
            && c.truePositive + c.falseNegative == CountOf(labels, 1.0)
            && c.falsePositive + c.specificity == CountOf(labels, 0.0))
      && ((forall i :: 0 <= i < |labels| ==> labels[i] == Num(0.0) || labels[i] == Num(1.0)) ==>
            c.predictedYes == c.truePositive + c.falsePositive)
  {
    if labels != [] {
      var n := |labels| - 1;
      TallyIdentities(predictions[..n], labels[..n]);
      var before := Tally(predictions[..n], labels[..n]);
      assert Tally(predictions, labels) == CountOne(before, predictions[n], labels[n]);
      assert CountOf(labels, 1.0) == CountOf(labels[..n], 1.0) + Indicator(labels[n] == Num(1.0));
      assert CountOf(labels, 0.0) == CountOf(labels[..n], 0.0) + Indicator(labels[n] == Num(0.0));
    }
  }

  /** Counting a column's labels counts the rows that carry them. */
  lemma {:induction false} CountOfColumn(test: seq<Row>, category: string, value: real)
    requires HasColumn(test, category)
    ensures CountOf(Column(test, category), value) == |Where(test, LabelIs(category, value))|
  {
    if test != [] {
      var n := |test| - 1;
      var init := test[..n];
      assert test == init + [test[n]];
      assert forall r :: r in init ==> r in test;
      var column := Column(test, category);
      assert column[..n] == Column(init, category);
      CountOfColumn(init, category, value);
      WhereConcat(init, [test[n]], LabelIs(category, value));
      assert CountOf(column, value) == CountOf(column[..n], value) + Indicator(column[n] == Num(value));
      assert |Where([test[n]], LabelIs(category, value))| == Indicator(column[n] == Num(value));
    }
  }

  /** The counters add up: every test row is correct or misclassified; with
      0/1 predictions the true positives and false negatives are the
      label-1 rows and the false positives and true negatives the label-0
      rows; with 0/1 labels every predicted yes is a true or false positive. */
  lemma ConfusionIdentities(test: seq<Row>, category: string, predictions: seq<int>)
    requires HasColumn(test, category) && |predictions| == |test|
    ensures var c := Tally(predictions, Column(test, category));
      && c.correct + c.misclassification == |test|
      && ((forall i :: 0 <= i < |test| ==> predictions[i] == 0 || predictions[i] == 1) ==>
            && c.truePositive + c.falseNegative == |Where(test, LabelIs(category, 1.0))|
            && c.falsePositive + c.specificity == |Where(test, LabelIs(category, 0.0))|)
      && ((forall r :: r in test ==> r[category] == Num(0.0) || r[category] == Num(1.0)) ==>
            c.predictedYes == c.truePositive + c.falsePositive)
  {
    var labels := Column(test, category);
    TallyIdentities(predictions, labels);
    CountOfColumn(test, category, 1.0);
    CountOfColumn(test, category, 0.0);
    assert forall i :: 0 <= i < |test| ==> test[i] in test;
  }

  datatype Metrics = Metrics(accuracy: real, errorRate: real, recall: real, falsePositiveRate: real,
                             specificity: real, precision: real, prevalence: real)

  /** The ratio whose zero denominator raises ZeroDivisionError. */
  datatype Metric = Accuracy | ErrorRate | Recall | FalsePositiveRate | Specificity | Precision | Prevalence

  /** The seven printed ratios, computed in print order; the first one
      whose denominator is zero ends the run. */
  function Ratios(numTest: nat, numYes: nat, numNo: nat, c: Confusion): (report: Result<Metrics, Metric>)
    ensures report.Ok? <==> numTest > 0 && numYes > 0 && numNo > 0 && c.predictedYes > 0
    ensures report.Err? ==>
      report.error == (if numTest == 0 then Accuracy else if numYes == 0 then Recall
                       else if numNo == 0 then FalsePositiveRate else Precision)
    ensures report.Ok? ==>
      && report.value.accuracy * numTest as real == c.correct as real
      && report.value.errorRate * numTest as real == c.misclassification as real
      && report.value.recall * numYes as real == c.truePositive as real
      && report.value.falsePositiveRate * numNo as real == c.falsePositive as real
      && report.value.specificity * numNo as real == c.specificity as real
      && report.value.precision * c.predictedYes as real == c.truePositive as real
      && report.value.prevalence * numTest as real == numYes as real
  {
    if numTest == 0 then Err(Accuracy)
    else
      var accuracy := c.correct as real / numTest as real;
      var errorRate := c.misclassification as real / numTest as real;
      if numYes == 0 then Err(Recall)
      else
        var recall := c.truePositive as real / numYes as real;
        if numNo == 0 then Err(FalsePositiveRate)
        else
          var falsePositiveRate := c.falsePositive as real / numNo as real;
          var specificity := c.specificity as real / numNo as real;
          if c.predictedYes == 0 then Err(Precision)
          else
            var precision := c.truePositive as real / c.predictedYes as real;
            var prevalence := numYes as real / numTest as real;
            Ok(Metrics(accuracy, errorRate, recall, falsePositiveRate, specificity, precision, prevalence))
  }

  /** With consistent counts the complementary ratios sum to one. */
  lemma RatiosComplement(numTest: nat, numYes: nat, numNo: nat, c: Confusion)
    requires c.correct + c.misclassification == numTest
    requires c.falsePositive + c.specificity == numNo
    requires Ratios(numTest, numYes, numNo, c).Ok?
    ensures var m := Ratios(numTest, numYes, numNo, c).value;
      m.accuracy + m.errorRate == 1.0 && m.falsePositiveRate + m.specificity == 1.0
  {
    var m := Ratios(numTest, numYes, numNo, c).value;
    assert m.accuracy + m.errorRate == (c.correct + c.misclassification) as real / numTest as real;
    assert m.falsePositiveRate + m.specificity == (c.falsePositive + c.specificity) as real / numNo as real;
  }

  /** `calculate_accuracy`: counts the label-1 and label-0 test rows, walks
      the test rows in order incrementing the seven counters, then computes
      the ratios. */
  method CalculateAccuracy(test: seq<Row>, category: string, predictions: seq<int>)
    returns (numYes: nat, numNo: nat, counts: Confusion, report: Result<Metrics, Metric>)
    requires HasColumn(test, category)
    requires |predictions| >= |test|
    ensures numYes == |Where(test, LabelIs(category, 1.0))|
    ensures numNo == |Where(test, LabelIs(category, 0.0))|
    ensures counts == Tally(predictions[..|test|], Column(test, category))
    ensures counts.correct + counts.misclassification == |test|
    ensures report == Ratios(|test|, numYes, numNo, counts)
  {
    numYes := |Where(test, LabelIs(category, 1.0))|;
    numNo := |Where(test, LabelIs(category, 0.0))|;
    counts := Confusion(0, 0, 0, 0, 0, 0, 0);
    var labels := Column(test, category);
    for i := 0 to |test|
      invariant counts == Tally(predictions[..i], labels[..i])
    {
      assert predictions[..i + 1][..i] == predictions[..i];
      assert labels[..i + 1][..i] == labels[..i];
      counts := CountRow(counts, predictions[i], labels[i]);
    }
    assert labels[..|test|] == labels;
    ConfusionIdentities(test, category, predictions[..|test|]);
    report := Ratios(|test|, numYes, numNo, counts);
  }

  /** The loop body of `calculate_accuracy` on one test row: the seven
      counters are incremented independently. */
  method CountRow(counts: Confusion, prediction: int, truth: Cell) returns (next: Confusion)
    ensures next == CountOne(counts, prediction, truth)
  {
    next := counts;
    if Matches(prediction, truth) { next := next.(correct := next.correct + 1); }
    if !Matches(prediction, truth) { next := next.(misclassification := next.misclassification + 1); }
    if prediction == 1 && Matches(1, truth) { next := next.(truePositive := next.truePositive + 1); }
    if prediction == 1 && Matches(0, truth) { next := next.(falsePositive := next.falsePositive + 1); }
    if prediction == 0 && Matches(0, truth) { next := next.(specificity := next.specificity + 1); }
    if prediction == 0 && Matches(1, truth) { next := next.(falseNegative := next.falseNegative + 1); }
    if prediction == 1 { next := next.(predictedYes := next.predictedYes + 1); }
  }

  /** The counters for predictions [1, 0, 1, 1] against labels [1, 0, 0, 1]. */
  lemma ExampleCounts()
    ensures Tally([1, 0, 1, 1], [Num(1.0), Num(0.0), Num(0.0), Num(1.0)]) == Confusion(3, 1, 2, 1, 1, 0, 3)
  {
    var labels := [Num(1.0), Num(0.0), Num(0.0), Num(1.0)];
    var p := [1, 0, 1, 1];
    assert p[..3] == [1, 0, 1] && labels[..3] == [Num(1.0), Num(0.0), Num(0.0)];
    assert [1, 0, 1][..2] == [1, 0] && [Num(1.0), Num(0.0), Num(0.0)][..2] == [Num(1.0), Num(0.0)];
    assert [1, 0][..1] == [1] && [Num(1.0), Num(0.0)][..1] == [Num(1.0)];
    assert Tally([1], [Num(1.0)]) == Confusion(1, 0, 1, 0, 0, 0, 1);
    assert Tally([1, 0], [Num(1.0), Num(0.0)]) == Confusion(2, 0, 1, 0, 1, 0, 1);
    assert Tally([1, 0, 1], [Num(1.0), Num(0.0), Num(0.0)]) == Confusion(2, 1, 1, 1, 1, 0, 2);
  }

  /** Predictions [1, 0, 1, 1] against labels [1, 0, 0, 1] give accuracy
      3/4, recall 2/2, false-positive rate 1/2 and precision 2/3. */
  lemma EvaluationExample()
    ensures var report := Ratios(4, 2, 2, Tally([1, 0, 1, 1], [Num(1.0), Num(0.0), Num(0.0), Num(1.0)]));
      && report.Ok?
      && report.value.accuracy == 0.75
      && report.value.recall == 1.0
      && report.value.falsePositiveRate == 0.5
      && report.value.precision * 3.0 == 2.0
  {
    ExampleCounts();
  }
}
