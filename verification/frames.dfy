/**
  A column-oriented table in the manner of a pandas DataFrame: an ordered list
  of distinct column names, one column of cells per name, all of one height.
  Only the two table operations the modelled code uses are defined here:
  reading a column (`X[name]`) and assigning one (`X[name] = column`).
 */
module Frames {
  import opened Wrappers

  /** One table cell: a missing value (NaN/None), a number, or a text label. */
  datatype Cell = Missing | Num(value: real) | Text(text: string)

  /** The exceptions the modelled code can raise. */
  datatype Error =
    | MissingColumn(column: string)            // KeyError from `X[column]`
    | LengthMismatch(rows: nat, targets: nat)  // ValueError building a frame from unequal columns
    | NotFitted                                // AttributeError: `means_` read before `fit`
    | OperandType(left: string, right: string) // TypeError subtracting a text cell

  datatype Frame = Frame(names: seq<string>, cols: map<string, seq<Cell>>, height: nat)

  /** No name occurs twice. */
  predicate Distinct(names: seq<string>)
  {
    |names| == 0 || (names[|names| - 1] !in names[..|names| - 1] && Distinct(names[..|names| - 1]))
  }

  /** The shape every DataFrame has: distinct names, one column per name, equal heights. */
  ghost predicate Valid(f: Frame) {
    && Distinct(f.names)
    && (forall n :: n in f.cols <==> n in f.names)
    && (forall n :: n in f.cols ==> |f.cols[n]| == f.height)
  }

  /** `f[name]`: the named column, or a KeyError when the frame has no such column. */
  function Column(f: Frame, name: string): (r: Result<seq<Cell>, Error>)
    requires Valid(f)
    ensures r.Success? <==> name in f.names
    ensures r.Success? ==> |r.value| == f.height && r.value == f.cols[name]
    ensures r.Failure? ==> r.error == MissingColumn(name)
  {
    if name in f.cols then Success(f.cols[name]) else Failure(MissingColumn(name))
  }

  /**
    `f[name] = col`: an existing column is replaced where it stands, a new one
    is appended after the last column; every other column keeps its cells.
   */
  function Assign(f: Frame, name: string, col: seq<Cell>): (r: Frame)
    requires Valid(f) && |col| == f.height
    ensures Extends(f, r, {name})
    ensures name in r.cols && r.cols[name] == col
    ensures name in f.names ==> r.names == f.names
    ensures name !in f.names ==> r.names == f.names + [name]
    ensures IsPrefix(f.names, r.names)
  {
    if name in f.cols then
      Frame(f.names, f.cols[name := col], f.height)
    else
      var names := f.names + [name];
      assert names[..|f.names|] == f.names;
      Frame(names, f.cols[name := col], f.height)
  }

  /**
    `g` is a well-formed frame that is `f` with the columns `added` set: the
    same number of rows and every other column unchanged.
   */
  ghost predicate Extends(f: Frame, g: Frame, added: set<string>)
  {
    && Valid(g) && g.height == f.height
    && g.cols.Keys == f.cols.Keys + added
    && (forall n :: n in f.cols && n !in added ==> n in g.cols && g.cols[n] == f.cols[n])
  }

  /** Setting columns in two steps sets the union of both steps' columns. */
  lemma ExtendsCompose(f: Frame, g: Frame, h: Frame, a: set<string>, b: set<string>)
    requires Extends(f, g, a) && Extends(g, h, b)
    ensures Extends(f, h, a + b)
  {
  }

  /** The columns `a` come first, in this order, among the columns `b`. */
  ghost predicate IsPrefix(a: seq<string>, b: seq<string>)
  {
    |a| <= |b| && b[..|a|] == a
  }

  lemma PrefixTransitive(a: seq<string>, b: seq<string>, c: seq<string>)
    requires IsPrefix(a, b) && IsPrefix(b, c)
    ensures IsPrefix(a, c)
  {
    assert c[..|a|] == c[..|b|][..|a|];
  }
}
