/**
  The neighbourhood-average baseline. `AveragePricePerNeighborhoodRegressor`
  and `AveragePricePerNeighborhoodExtractor` fit the same state with the same
  code: the mean sale price of each neighbourhood and the mean of all prices.
  The regressor predicts a row's neighbourhood mean, falling back to the
  global mean; the extractor writes the same value into a new column.
 */
module NeighborhoodAverage {
  import opened Wrappers
  import opened Frames
  import opened Stats

  /** The grouping column both estimators read. */
  const Neighborhood := "Neighborhood"

  /** The column the extractor adds; the spelling is the one the estimator uses. */
  const AverageColumn := "AveragePriceInNeihborhood"

  /** Estimator state: before `fit` there are no `means_` and no `global_mean_`. */
  datatype Estimator = Unfitted | Fitted(means: map<Cell, real>, globalMean: real)

  /** Running sum and row count of one group while the rows are scanned. */
  datatype Acc = Acc(sum: real, count: nat)

  /** The tally entries agree with the reference sums and counts of every group. */
  ghost predicate Tallied(keys: seq<Cell>, y: seq<real>, t: map<Cell, Acc>)
    requires |keys| == |y|
  {
    && t.Keys == Groups(keys)
    && forall k :: k in t ==>
      && t[k].count > 0
      && t[k].count == |GroupTargets(keys, y, k)|
      && t[k].sum == Sum(GroupTargets(keys, y, k))
  }

  /** Adds the target `v` of one row with key `k` to the running tally. */
  function Record(t: map<Cell, Acc>, k: Cell, v: real): map<Cell, Acc>
  {
    if k.Missing? then t
    else if k in t then t[k := Acc(t[k].sum + v, t[k].count + 1)]
    else t[k := Acc(v, 1)]
  }

  /** After recording the last row, the entry of group `g` has the sum and count of all its rows. */
  lemma RecordLastRowEntry(keys: seq<Cell>, y: seq<real>, t: map<Cell, Acc>, g: Cell)
    requires |keys| == |y| > 0
    requires Tallied(keys[..|keys| - 1], y[..|y| - 1], t)
    requires g in Record(t, keys[|keys| - 1], y[|y| - 1])
    ensures var e := Record(t, keys[|keys| - 1], y[|y| - 1])[g];
      && e.count > 0
      && e.count == |GroupTargets(keys, y, g)|
      && e.sum == Sum(GroupTargets(keys, y, g))
  {
    var n := |keys| - 1;
    var k, v := keys[n], y[n];
    var before := GroupTargets(keys[..n], y[..n], g);
    if g == k {
      assert GroupTargets(keys, y, g) == before + [v];
      SumAppend(before, v);
      if g !in t {
        GroupTargetsOutsideGroups(keys[..n], y[..n], g);
      }
    } else {
      assert GroupTargets(keys, y, g) == before;
    }
  }

  /** Recording the last row extends a tally of the other rows to a tally of all of them. */
  lemma RecordLastRow(keys: seq<Cell>, y: seq<real>, t: map<Cell, Acc>)
    requires |keys| == |y| > 0
    requires Tallied(keys[..|keys| - 1], y[..|y| - 1], t)
    ensures Tallied(keys, y, Record(t, keys[|keys| - 1], y[|y| - 1]))
  {
    var t' := Record(t, keys[|keys| - 1], y[|y| - 1]);
    GroupsOfLastRow(keys);
    assert t'.Keys == Groups(keys);
    forall g | g in t'
      ensures t'[g].count > 0
      ensures t'[g].count == |GroupTargets(keys, y, g)|
      ensures t'[g].sum == Sum(GroupTargets(keys, y, g))
    {
      RecordLastRowEntry(keys, y, t, g);
    }
  }

  /**
    One left-to-right pass of the group-by: for each non-null key the sum and
    number of targets of its rows. Null keys open no group.
   */
  function Tally(keys: seq<Cell>, y: seq<real>): (t: map<Cell, Acc>)
    requires |keys| == |y|
    ensures Tallied(keys, y, t)
  {
    if |keys| == 0 then map[]
    else
      var n := |keys| - 1;
      var t := Tally(keys[..n], y[..n]);
      RecordLastRow(keys, y, t);
      Record(t, keys[n], y[n])
  }

  /**
    `fit(X, y)`: reads the neighbourhood column, pairs it row by row with the
    targets, and stores the mean target of every non-null neighbourhood and
    the mean of all targets, null-neighbourhood rows included.
   */
  function Fit(X: Frame, y: seq<real>): (r: Result<Estimator, Error>)
    requires Valid(X)
    requires Neighborhood in X.names && X.height == |y| ==> |y| > 0
    ensures r.Success? <==> Neighborhood in X.names && X.height == |y|
    ensures Neighborhood !in X.names ==> r == Failure(MissingColumn(Neighborhood))
    ensures Neighborhood in X.names && X.height != |y| ==> r == Failure(LengthMismatch(X.height, |y|))
    ensures r.Success? ==>
      var keys := X.cols[Neighborhood];
      && r.value.Fitted?
      && r.value.means.Keys == Groups(keys)
      && (forall k :: k in r.value.means ==>
            |GroupTargets(keys, y, k)| > 0 && r.value.means[k] == Mean(GroupTargets(keys, y, k)))
      && r.value.globalMean == Mean(y)
  {
    var keys :- Column(X, Neighborhood);
    if |keys| != |y| then Failure(LengthMismatch(|keys|, |y|))
    else
      var t := Tally(keys, y);
      Success(Fitted(map k | k in t :: t[k].sum / t[k].count as real, Sum(y) / |y| as real))
  }

  /** `get_average`: the stored mean of a known neighbourhood, else the global mean. */
  function Average(means: map<Cell, real>, globalMean: real, k: Cell): (r: real)
    ensures k in means ==> r == means[k]
    ensures k !in means ==> r == globalMean
    ensures r in means.Values || r == globalMean
  {
    if k in means then means[k] else globalMean
  }

  /**
    `predict(X)`: one prediction per row of X, in row order. The column is
    read first; `get_average`, which needs the fitted state, only runs when
    there is at least one row.
   */
  function Predict(est: Estimator, X: Frame): (r: Result<seq<real>, Error>)
    requires Valid(X)
    ensures r.Success? <==> Neighborhood in X.names && (X.height == 0 || est.Fitted?)
    ensures Neighborhood !in X.names ==> r == Failure(MissingColumn(Neighborhood))
    ensures Neighborhood in X.names && X.height > 0 && est.Unfitted? ==> r == Failure(NotFitted)
    ensures r.Success? ==> |r.value| == X.height
    ensures r.Success? && est.Fitted? ==>
      var keys := X.cols[Neighborhood];
      && (forall i :: 0 <= i < |keys| && keys[i] in est.means ==> r.value[i] == est.means[keys[i]])
      && (forall i :: 0 <= i < |keys| && keys[i] !in est.means ==> r.value[i] == est.globalMean)
  {
    var keys :- Column(X, Neighborhood);
    if |keys| == 0 then Success([])
    else match est
      case Unfitted => Failure(NotFitted)
      case Fitted(means, globalMean) =>
        Success(seq(|keys|, i requires 0 <= i < |keys| => Average(means, globalMean, keys[i])))
  }

  /**
    The extractor's `transform(X)`: the frame X with the neighbourhood average
    of each row in the column `AveragePriceInNeihborhood`.
   */
  function Transform(est: Estimator, X: Frame): (r: Result<Frame, Error>)
    requires Valid(X)
    ensures r.Success? <==> Neighborhood in X.names && (X.height == 0 || est.Fitted?)
    ensures r.Success? ==>
      && Valid(r.value) && r.value.height == X.height
      && (AverageColumn in X.names ==> r.value.names == X.names)
      && (AverageColumn !in X.names ==> r.value.names == X.names + [AverageColumn])
      && (forall n :: n in X.cols && n != AverageColumn ==> r.value.cols[n] == X.cols[n])
  {
    var keys :- Column(X, Neighborhood);
    if |keys| == 0 then Success(Assign(X, AverageColumn, []))
    else match est
      case Unfitted => Failure(NotFitted)
      case Fitted(means, globalMean) =>
        Success(Assign(X, AverageColumn,
          seq(|keys|, i requires 0 <= i < |keys| => Num(Average(means, globalMean, keys[i])))))
  }

  /**
    Fitting then predicting, stated against the reference definitions alone:
    a row whose neighbourhood occurred in training gets the mean price of the
    training rows of that neighbourhood; any other row, a null one included,
    gets the mean of all training prices.
   */
  lemma FitThenPredict(X: Frame, y: seq<real>, Z: Frame)
    requires Valid(X) && |y| > 0 && Fit(X, y).Success?
    requires Valid(Z) && Neighborhood in Z.names
    ensures Predict(Fit(X, y).value, Z).Success?
    ensures
      var p := Predict(Fit(X, y).value, Z).value;
      var train := X.cols[Neighborhood];
      var keys := Z.cols[Neighborhood];
      && |p| == Z.height
      && (forall i :: 0 <= i < |keys| && keys[i] in Groups(train) ==>
            p[i] == Mean(GroupTargets(train, y, keys[i])))
      && (forall i :: 0 <= i < |keys| && keys[i] !in Groups(train) ==> p[i] == Mean(y))
  {
  }

  /** A null neighbourhood is never a group, so a null row is always predicted the global mean. */
  lemma NullRowGetsGlobalMean(X: Frame, y: seq<real>, Z: Frame, i: nat)
    requires Valid(X) && |y| > 0 && Fit(X, y).Success?
    requires Valid(Z) && Neighborhood in Z.names && i < Z.height
    requires Z.cols[Neighborhood][i] == Missing
    ensures Predict(Fit(X, y).value, Z).Success?
    ensures Predict(Fit(X, y).value, Z).value[i] == Mean(y)
  {
    FitThenPredict(X, y, Z);
  }

  /** Every prediction of a fitted model lies within the range of the training prices. */
  lemma PredictionsWithinTargetRange(X: Frame, y: seq<real>, Z: Frame, lo: real, hi: real)
    requires Valid(X) && |y| > 0 && Fit(X, y).Success?
    requires Valid(Z) && Neighborhood in Z.names
    requires forall i :: 0 <= i < |y| ==> lo <= y[i] <= hi
    ensures Predict(Fit(X, y).value, Z).Success?
    ensures
      var p := Predict(Fit(X, y).value, Z).value;
      forall i :: 0 <= i < |p| ==> lo <= p[i] <= hi
  {
    FitThenPredict(X, y, Z);
    var train := X.cols[Neighborhood];
    var keys := Z.cols[Neighborhood];
    var p := Predict(Fit(X, y).value, Z).value;
    forall i | 0 <= i < |p|
      ensures lo <= p[i] <= hi
    {
      if keys[i] in Groups(train) {
        var g := GroupTargets(train, y, keys[i]);
        GroupTargetsFromRows(train, y, keys[i]);
        var j :| 0 <= j < |train| && !train[j].Missing? && train[j] == keys[i];
        GroupTargetsNonEmpty(train, y, j);
        forall m | 0 <= m < |g|
          ensures lo <= g[m] <= hi
        {
          assert g[m] in g;
        }
        MeanWithinBounds(g, lo, hi);
      } else {
        MeanWithinBounds(y, lo, hi);
      }
    }
  }

  /** Predictions depend on the neighbourhood column only: frames that agree on it get equal results. */
  lemma PredictReadsOnlyNeighborhood(est: Estimator, X: Frame, Z: Frame)
    requires Valid(X) && Valid(Z)
    requires Neighborhood in X.names && Neighborhood in Z.names
    requires X.cols[Neighborhood] == Z.cols[Neighborhood]
    ensures Predict(est, X) == Predict(est, Z)
  {
  }

  /**
    Given the same fitted state, the extractor succeeds exactly when the
    regressor does, its new column holds the regressor's predictions row by
    row, and every other column is left as it was.
   */
  lemma ExtractorAgreesWithRegressor(est: Estimator, X: Frame)
    requires Valid(X)
    ensures Transform(est, X).Success? <==> Predict(est, X).Success?
    ensures Transform(est, X).Failure? ==> Transform(est, X).error == Predict(est, X).error
    ensures Transform(est, X).Success? ==>
      var f := Transform(est, X).value;
      var p := Predict(est, X).value;
      && |f.cols[AverageColumn]| == |p|
      && (forall i :: 0 <= i < |p| ==> f.cols[AverageColumn][i] == Num(p[i]))
      && (forall n :: n in X.cols && n != AverageColumn ==> f.cols[n] == X.cols[n])
  {
  }

  /** A one-column frame of neighbourhoods. */
  function NeighborhoodFrame(keys: seq<Cell>): Frame
  {
    Frame([Neighborhood], map[Neighborhood := keys], |keys|)
  }

  lemma NeighborhoodFrameValid(keys: seq<Cell>)
    ensures Valid(NeighborhoodFrame(keys)) && Neighborhood in NeighborhoodFrame(keys).names
    ensures NeighborhoodFrame(keys).cols[Neighborhood] == keys
  {
    assert [Neighborhood][..0] == [];
  }

  /** The groups and group targets of the training rows (a, 100), (a, 200), (b, 300). */
  lemma ExampleGroupTargets(a: Cell, b: Cell)
    requires !a.Missing? && !b.Missing? && a != b
    ensures Groups([a, a, b]) == {a, b}
    ensures GroupTargets([a, a, b], [100.0, 200.0, 300.0], a) == [100.0, 200.0]
    ensures GroupTargets([a, a, b], [100.0, 200.0, 300.0], b) == [300.0]
  {
    var y := [100.0, 200.0, 300.0];
    var keys := [a, a, b];
    assert keys[0] == a && keys[2] == b;
    assert [a][..0] == [] && [100.0][..0] == [];
    assert GroupTargets([a], [100.0], a) == [100.0];
    assert GroupTargets([a], [100.0], b) == [];
    assert [a, a][..1] == [a] && [100.0, 200.0][..1] == [100.0];
    assert GroupTargets([a, a], [100.0, 200.0], a) == [100.0, 200.0];
    assert GroupTargets([a, a], [100.0, 200.0], b) == [];
    assert keys[..2] == [a, a] && y[..2] == [100.0, 200.0];
  }

  /** The means the worked example averages. */
  lemma ExampleMeans()
    ensures Mean([100.0, 200.0]) == 150.0
    ensures Mean([300.0]) == 300.0
    ensures Mean([100.0, 200.0, 300.0]) == 200.0
  {
    assert [100.0, 200.0, 300.0][..2] == [100.0, 200.0];
    assert [100.0, 200.0][..1] == [100.0] && [100.0][..0] == [] && [300.0][..0] == [];
  }

  /** Fitting rows (a, 100), (a, 200), (b, 300) stores means {a: 150, b: 300} and global mean 200. */
  lemma ExampleFit(a: Cell, b: Cell)
    requires !a.Missing? && !b.Missing? && a != b
    ensures Valid(NeighborhoodFrame([a, a, b]))
    ensures var r := Fit(NeighborhoodFrame([a, a, b]), [100.0, 200.0, 300.0]);
      && r.Success? && r.value.Fitted?
      && r.value.means.Keys == {a, b}
      && r.value.means[a] == 150.0 && r.value.means[b] == 300.0
      && r.value.globalMean == 200.0
  {
    NeighborhoodFrameValid([a, a, b]);
    ExampleGroupTargets(a, b);
    ExampleMeans();
  }

  /** Predicting rows a, b and an unseen c from means {a: 150, b: 300} and global mean 200. */
  lemma ExamplePredict(est: Estimator, a: Cell, b: Cell, c: Cell)
    requires est.Fitted? && est.means.Keys == {a, b} && c != a && c != b
    requires est.means[a] == 150.0 && est.means[b] == 300.0 && est.globalMean == 200.0
    ensures Valid(NeighborhoodFrame([a, b, c]))
    ensures Predict(est, NeighborhoodFrame([a, b, c])) == Success([150.0, 300.0, 200.0])
  {
    NeighborhoodFrameValid([a, b, c]);
    var p := Predict(est, NeighborhoodFrame([a, b, c]));
    assert p.Success? && |p.value| == 3;
    assert p.value[0] == 150.0 && p.value[1] == 300.0 && p.value[2] == 200.0;
    assert p.value == [150.0, 300.0, 200.0];
  }

  /**
    The worked example: after fitting (a, 100), (a, 200), (b, 300), the rows
    a, b and an unseen c are predicted 150, 300 and 200.
   */
  lemma ThreeRowExample(a: Cell, b: Cell, c: Cell)
    requires !a.Missing? && !b.Missing? && a != b && c != a && c != b
    ensures Valid(NeighborhoodFrame([a, a, b])) && Valid(NeighborhoodFrame([a, b, c]))
    ensures Predict(Fit(NeighborhoodFrame([a, a, b]), [100.0, 200.0, 300.0]).value, NeighborhoodFrame([a, b, c]))
         == Success([150.0, 300.0, 200.0])
  {
    ExampleFit(a, b);
    ExamplePredict(Fit(NeighborhoodFrame([a, a, b]), [100.0, 200.0, 300.0]).value, a, b, c);
  }
}
