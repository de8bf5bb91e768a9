/** An already-loaded table in the shape of a pandas DataFrame: one
    sequence of cells per column name, and a row count. */
module Frames {

  /** A cell: a parsed number, or any other (textual) value such as a
      material name, a KPI name or a date. */
  datatype Value = Num(x: real) | Text(s: string)

  /** The columns by name, and the number of rows. */
  datatype Frame = Frame(cols: map<string, seq<Value>>, height: nat)

  /** No name occurs twice. */
  predicate Distinct(names: seq<string>)
  {
    forall i, j | 0 <= i < j < |names| :: names[i] != names[j]
  }

  /** Every column has one cell per row. */
  predicate WellFormed(f: Frame)
  {
    forall n | n in f.cols :: |f.cols[n]| == f.height
  }

  /** `df[name] = col`: overwrites the column `name`, or adds it. */
  function SetColumn(f: Frame, name: string, col: seq<Value>): (r: Frame)
    requires WellFormed(f) && |col| == f.height
    ensures WellFormed(r) && r.height == f.height
    ensures r.cols == f.cols[name := col]
  {
    Frame(f.cols[name := col], f.height)
  }

  predicate IsNumeric(col: seq<Value>)
  {
    forall i | 0 <= i < |col| :: col[i].Num?
  }

  predicate IsNumericColumn(f: Frame, name: string)
  {
    name in f.cols && IsNumeric(f.cols[name])
  }

  /** The numbers of a numeric column. */
  function Reals(col: seq<Value>): (r: seq<real>)
    requires IsNumeric(col)
    ensures |r| == |col| && forall i | 0 <= i < |col| :: col[i] == Num(r[i])
  {
    seq(|col|, i requires 0 <= i < |col| && IsNumeric(col) => col[i].x)
  }

  /** A numeric column holding the given numbers. */
  function Nums(rs: seq<real>): (r: seq<Value>)
    ensures IsNumeric(r) && Reals(r) == rs
  {
    seq(|rs|, i requires 0 <= i < |rs| => Num(rs[i]))
  }
}
