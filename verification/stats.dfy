/**
  Reference definitions of what a group-by average means: the arithmetic mean
  of a list of targets, the set of groups a key column holds, and the targets
  that belong to one group. The fitted model is proved against these.
 */
module Stats {
  import opened Frames

  /** The sum of a list of reals, accumulated left to right. */
  function Sum(s: seq<real>): real
  {
    if |s| == 0 then 0.0 else Sum(s[..|s| - 1]) + s[|s| - 1]
  }

  /** The arithmetic mean; undefined for an empty list. */
  function Mean(s: seq<real>): real
    requires |s| > 0
  {
    Sum(s) / |s| as real
  }

  /** The groups of a key column: its distinct values, nulls excluded as a group-by excludes them. */
  ghost function Groups(keys: seq<Cell>): set<Cell>
  {
    set i | 0 <= i < |keys| && !keys[i].Missing? :: keys[i]
  }

  /** The targets of the rows whose key is `k`, in row order. */
  function GroupTargets(keys: seq<Cell>, y: seq<real>, k: Cell): seq<real>
    requires |keys| == |y|
  {
    if |keys| == 0 then []
    else
      var n := |keys| - 1;
      if keys[n] == k then GroupTargets(keys[..n], y[..n], k) + [y[n]]
      else GroupTargets(keys[..n], y[..n], k)
  }

  lemma {:induction false} SumBounds(s: seq<real>, lo: real, hi: real)
    requires forall i :: 0 <= i < |s| ==> lo <= s[i] <= hi
    ensures |s| as real * lo <= Sum(s) <= |s| as real * hi
  {
    if |s| > 0 {
      SumBounds(s[..|s| - 1], lo, hi);
    }
  }

  /** A mean lies between any lower and upper bound of the values averaged. */
  lemma MeanWithinBounds(s: seq<real>, lo: real, hi: real)
    requires |s| > 0
    requires forall i :: 0 <= i < |s| ==> lo <= s[i] <= hi
    ensures lo <= Mean(s) <= hi
  {
    SumBounds(s, lo, hi);
    var n := |s| as real;
    assert lo * n <= Sum(s) <= hi * n;
    assert Mean(s) * n == Sum(s);
  }

  /** Every target of a group is the target of some row with that key. */
  lemma {:induction false} GroupTargetsFromRows(keys: seq<Cell>, y: seq<real>, k: Cell)
    requires |keys| == |y|
    ensures forall v :: v in GroupTargets(keys, y, k) ==>
      exists i :: 0 <= i < |keys| && keys[i] == k && y[i] == v
  {
    if |keys| > 0 {
      var n := |keys| - 1;
      GroupTargetsFromRows(keys[..n], y[..n], k);
      forall v | v in GroupTargets(keys, y, k)
        ensures exists i :: 0 <= i < |keys| && keys[i] == k && y[i] == v
      {
        if v in GroupTargets(keys[..n], y[..n], k) {
          var i :| 0 <= i < n && keys[..n][i] == k && y[..n][i] == v;
          assert keys[i] == k && y[i] == v;
        } else {
          assert keys[n] == k && y[n] == v;
        }
      }
    }
  }

  /** A group that occurs in the key column has at least one target. */
  lemma {:induction false} GroupTargetsNonEmpty(keys: seq<Cell>, y: seq<real>, i: nat)
    requires |keys| == |y| && i < |keys|
    ensures |GroupTargets(keys, y, keys[i])| > 0
  {
    var n := |keys| - 1;
    if i < n {
      GroupTargetsNonEmpty(keys[..n], y[..n], i);
    }
  }

  /** A non-null key that is not a group of the column selects no targets. */
  lemma {:induction false} GroupTargetsOutsideGroups(keys: seq<Cell>, y: seq<real>, k: Cell)
    requires |keys| == |y|
    requires !k.Missing? && k !in Groups(keys)
    ensures GroupTargets(keys, y, k) == []
  {
    if |keys| > 0 {
      var n := |keys| - 1;
      assert keys[n] != k by {
        assert keys[n] in Groups(keys) || keys[n].Missing?;
      }
      assert Groups(keys[..n]) <= Groups(keys) by {
        forall g | g in Groups(keys[..n]) ensures g in Groups(keys) {
          var i :| 0 <= i < n && !keys[..n][i].Missing? && keys[..n][i] == g;
          assert keys[i] == g;
        }
      }
      GroupTargetsOutsideGroups(keys[..n], y[..n], k);
    }
  }

  /** The groups of a column are those of all rows but the last, plus the last key unless it is null. */
  lemma GroupsOfLastRow(keys: seq<Cell>)
    requires |keys| > 0
    ensures Groups(keys) == Groups(keys[..|keys| - 1]) + (if keys[|keys| - 1].Missing? then {} else {keys[|keys| - 1]})
  {
    var n := |keys| - 1;
    assert keys == keys[..n] + [keys[n]];
  }

  /** Appending a value adds it to the sum. */
  lemma SumAppend(s: seq<real>, x: real)
    ensures Sum(s + [x]) == Sum(s) + x
  {
    assert (s + [x])[..|s|] == s;
  }
}
