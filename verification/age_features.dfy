/**
  `AgeExtractor.transform`: on a copy of the frame, three age columns are
  derived from the year of sale,
    HouseAge    = YrSold - YearBuilt
    RemodAddAge = YrSold - YearRemodAdd
    GarageAge   = YrSold - GarageYrBlt
  Subtraction is pandas' element-wise subtraction. A missing operand gives a
  missing age. A column holding text has object dtype, and pandas subtracts such
  columns only on the rows where both operands are present: the subtraction
  fails when one of those rows holds text, and a text cell facing a missing one
  gives a missing age.
 */
module AgeFeatures {
  import opened Wrappers
  import opened Frames

  const YrSold := "YrSold"
  const YearBuilt := "YearBuilt"
  const YearRemodAdd := "YearRemodAdd"
  const GarageYrBlt := "GarageYrBlt"
  const HouseAge := "HouseAge"
  const RemodAddAge := "RemodAddAge"
  const GarageAge := "GarageAge"

  /** The three derived columns are distinct from each other and from the year columns. */
  lemma AgeNamesDistinct()
    ensures HouseAge !in {YrSold, YearBuilt, YearRemodAdd, GarageYrBlt, RemodAddAge, GarageAge}
    ensures RemodAddAge !in {YrSold, YearBuilt, YearRemodAdd, GarageYrBlt, GarageAge}
    ensures GarageAge !in {YrSold, YearBuilt, YearRemodAdd, GarageYrBlt}
  {
    assert HouseAge[0] == 'H' && RemodAddAge[0] == 'R' && GarageAge[0] == 'G';
    assert YrSold[0] == 'Y' && YearBuilt[0] == 'Y' && YearRemodAdd[0] == 'Y' && GarageYrBlt[0] == 'G';
    assert |GarageAge| == 9 && |GarageYrBlt| == 11;
  }

  /** A column of numbers and missing values only, as a numeric dtype holds. */
  predicate Numeric(col: seq<Cell>) {
    forall i :: 0 <= i < |col| ==> !col[i].Text?
  }

  /**
    `a - b` raises no TypeError: every row where both cells are present holds
    two numbers. Rows with a missing cell are not subtracted at all.
   */
  predicate Subtractable(a: seq<Cell>, b: seq<Cell>)
    requires |a| == |b|
  {
    forall i :: 0 <= i < |a| ==> a[i].Missing? || b[i].Missing? || (a[i].Num? && b[i].Num?)
  }

  /** Difference of two numeric cells; missing when either operand is missing. */
  function Minus(a: Cell, b: Cell): Cell
  {
    match (a, b)
    case (Num(x), Num(z)) => Num(x - z)
    case _ => Missing
  }

  /** `d` is the row-by-row difference `a - b` of two numeric columns. */
  ghost predicate IsDifference(d: seq<Cell>, a: seq<Cell>, b: seq<Cell>)
  {
    && |d| == |a| == |b|
    && forall i :: 0 <= i < |d| ==>
      && (a[i].Num? && b[i].Num? ==> d[i] == Num(a[i].value - b[i].value))
      && (a[i].Missing? || b[i].Missing? ==> d[i] == Missing)
  }

  /**
    `f[minuend] - f[subtrahend]`: reads both operand columns, left first, and
    subtracts them row by row; a row holding text on a side fails the whole
    subtraction unless the other side of that row is missing.
   */
  function Difference(f: Frame, minuend: string, subtrahend: string): (r: Result<seq<Cell>, Error>)
    requires Valid(f)
    ensures r.Success? <==>
      && minuend in f.names && subtrahend in f.names
      && Subtractable(f.cols[minuend], f.cols[subtrahend])
    ensures minuend !in f.names ==> r == Failure(MissingColumn(minuend))
    ensures minuend in f.names && subtrahend !in f.names ==> r == Failure(MissingColumn(subtrahend))
    ensures r.Failure? && minuend in f.names && subtrahend in f.names ==> r.error == OperandType(minuend, subtrahend)
    ensures r.Success? ==> IsDifference(r.value, f.cols[minuend], f.cols[subtrahend])
  {
    var left :- Column(f, minuend);
    var right :- Column(f, subtrahend);
    if !Subtractable(left, right) then Failure(OperandType(minuend, subtrahend))
    else Success(seq(|left|, i requires 0 <= i < |left| => Minus(left[i], right[i])))
  }

  /** Two numeric columns always subtract: a TypeError needs a text cell. */
  lemma NumericColumnsSubtract(f: Frame, minuend: string, subtrahend: string)
    requires Valid(f) && minuend in f.names && subtrahend in f.names
    requires Numeric(f.cols[minuend]) && Numeric(f.cols[subtrahend])
    ensures Difference(f, minuend, subtrahend).Success?
  {
  }

  /**
    The row-wise rule: the subtraction fails exactly when some row has two
    present cells of which one is text; a text cell facing a missing cell
    yields a missing difference in that row.
   */
  lemma TextFailsOnlyAgainstPresentCell(f: Frame, minuend: string, subtrahend: string)
    requires Valid(f) && minuend in f.names && subtrahend in f.names
    ensures Difference(f, minuend, subtrahend).Failure? <==>
      exists i :: 0 <= i < f.height
        && !f.cols[minuend][i].Missing? && !f.cols[subtrahend][i].Missing?
        && (f.cols[minuend][i].Text? || f.cols[subtrahend][i].Text?)
    ensures Difference(f, minuend, subtrahend).Success? ==>
      forall i :: 0 <= i < f.height && f.cols[minuend][i].Text? ==>
        Difference(f, minuend, subtrahend).value[i] == Missing
  {
  }

  /**
    A sale year [2008, missing] against a build year [missing, text]: no row
    has both cells present, so nothing is subtracted and both ages are missing.
   */
  lemma TextFacingMissingExample(t: string)
    ensures var f := Frame([YrSold, YearBuilt],
                           map[YrSold := [Num(2008.0), Missing], YearBuilt := [Missing, Text(t)]], 2);
      Valid(f) && Difference(f, YrSold, YearBuilt) == Success([Missing, Missing])
  {
    var f := Frame([YrSold, YearBuilt],
                   map[YrSold := [Num(2008.0), Missing], YearBuilt := [Missing, Text(t)]], 2);
    assert |YrSold| == 6 && |YearBuilt| == 9;
    assert [YrSold, YearBuilt][..1] == [YrSold];
    assert Valid(f);
    var d := Difference(f, YrSold, YearBuilt);
    assert d.Success?;
    assert d.value == [Missing, Missing];
  }

  /** Setting three columns one after the other sets all three. */
  lemma ExtendsThree(f: Frame, g: Frame, h: Frame, k: Frame, a: string, b: string, c: string)
    requires Extends(f, g, {a}) && Extends(g, h, {b}) && Extends(h, k, {c})
    ensures Extends(f, k, {a, b, c})
  {
    ExtendsCompose(f, g, h, {a}, {b});
    ExtendsCompose(f, h, k, {a} + {b}, {c});
    assert {a} + {b} + {c} == {a, b, c};
  }

  /** Assigns the three age columns, in the source's order. */
  function SetAges(X: Frame, houseAge: seq<Cell>, remodAddAge: seq<Cell>, garageAge: seq<Cell>): (r: Frame)
    requires Valid(X) && |houseAge| == |remodAddAge| == |garageAge| == X.height
    ensures Extends(X, r, {HouseAge, RemodAddAge, GarageAge})
    ensures r.cols[HouseAge] == houseAge
    ensures r.cols[RemodAddAge] == remodAddAge
    ensures r.cols[GarageAge] == garageAge
    ensures IsPrefix(X.names, r.names)
  {
    var withHouse := Assign(X, HouseAge, houseAge);
    var withRemod := Assign(withHouse, RemodAddAge, remodAddAge);
    var out := Assign(withRemod, GarageAge, garageAge);
    AgeNamesDistinct();
    ExtendsThree(X, withHouse, withRemod, out, HouseAge, RemodAddAge, GarageAge);
    PrefixTransitive(X.names, withHouse.names, withRemod.names);
    PrefixTransitive(X.names, withRemod.names, out.names);
    out
  }

  /** The four year columns the transform reads. */
  predicate HasYears(f: Frame)
  {
    YrSold in f.names && YearBuilt in f.names && YearRemodAdd in f.names && GarageYrBlt in f.names
  }

  /**
    `AgeExtractor.transform(X)`: a copy of X with the three age columns set.
    The source assigns each age before reading the operands of the next; as
    no age column is an operand, reading all operands from X is the same, and
    the errors still arise in the source's order.
   */
  function Transform(X: Frame): (r: Result<Frame, Error>)
    requires Valid(X)
    ensures r.Success? <==>
      && HasYears(X)
      && Subtractable(X.cols[YrSold], X.cols[YearBuilt])
      && Subtractable(X.cols[YrSold], X.cols[YearRemodAdd])
      && Subtractable(X.cols[YrSold], X.cols[GarageYrBlt])
    ensures r.Failure? && r.error.MissingColumn? ==>
      r.error.column in [YrSold, YearBuilt, YearRemodAdd, GarageYrBlt] && r.error.column !in X.names
    ensures r.Failure? ==> r.error.MissingColumn? || r.error.OperandType?
    ensures YrSold !in X.names ==> r == Failure(MissingColumn(YrSold))
    ensures YrSold in X.names && YearBuilt !in X.names ==> r == Failure(MissingColumn(YearBuilt))
    ensures r.Success? ==>
      && Extends(X, r.value, {HouseAge, RemodAddAge, GarageAge})
      && IsDifference(r.value.cols[HouseAge], X.cols[YrSold], X.cols[YearBuilt])
      && IsDifference(r.value.cols[RemodAddAge], X.cols[YrSold], X.cols[YearRemodAdd])
      && IsDifference(r.value.cols[GarageAge], X.cols[YrSold], X.cols[GarageYrBlt])
    ensures r.Success? ==> IsPrefix(X.names, r.value.names)
  {
    var houseAge :- Difference(X, YrSold, YearBuilt);
    var remodAddAge :- Difference(X, YrSold, YearRemodAdd);
    var garageAge :- Difference(X, YrSold, GarageYrBlt);
    Success(SetAges(X, houseAge, remodAddAge, garageAge))
  }
}
