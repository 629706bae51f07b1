/** Cells, tables and the error type shared by every attribute.

    A node-level table of one basin is a matrix whose rows are nodes (in
    topology order) and whose columns are time steps.  A floating-point NaN
    of the original pipeline is the `Missing` cell here; every other value is
    an exact real number. */
module Values {

  /** One cell of a node x time table. */
  datatype Val = Missing | Num(r: real)

  /** One row of a table, or a time-indexed reach series. */
  type Series = seq<Val>

  /** Rows are nodes, columns are time steps. */
  type Matrix = seq<Series>

  datatype Option<T> = None | Some(value: T)

  /** The exceptions the pipeline lets escape. */
  datatype Error =
    | KeyError(key: string)     // a dictionary or label lookup that fails
    | ValueError(key: string)   // a column inserted under a name the table already has

  datatype Result<T> = Ok(value: T) | Err(error: Error)

  /** Every row of `m` has `cols` cells. */
  predicate HasColumns(m: Matrix, cols: nat)
  {
    forall i :: 0 <= i < |m| ==> |m[i]| == cols
  }

  /** `m` has `rows` rows of `cols` cells each. */
  predicate IsMatrix(m: Matrix, rows: nat, cols: nat)
  {
    |m| == rows && HasColumns(m, cols)
  }

  /** Column `t` of `m`: the values of every node at time step `t`. */
  function Column(m: Matrix, t: nat): (c: Series)
    requires forall i :: 0 <= i < |m| ==> t < |m[i]|
    ensures |c| == |m|
    ensures forall i :: 0 <= i < |m| ==> c[i] == m[i][t]
  {
    seq(|m|, i requires 0 <= i < |m| => m[i][t])
  }

  /** The cells of `m` row after row, as numpy's `.values` flattening reads them. */
  function Flatten(m: Matrix): (s: Series)
  {
    if m == [] then [] else m[0] + Flatten(m[1..])
  }

  /** The cells of a five-row table. */
  lemma FlattenFive(m: Matrix)
    requires |m| == 5
    ensures Flatten(m) == m[0] + m[1] + m[2] + m[3] + m[4]
  {
    var t1 := m[1..];
    var t2 := t1[1..];
    var t3 := t2[1..];
    var t4 := t3[1..];
    assert t4[1..] == [];
    assert Flatten(t4) == m[4];
    assert Flatten(t3) == m[3] + Flatten(t4);
    assert Flatten(t2) == m[2] + Flatten(t3);
    assert Flatten(t1) == m[1] + Flatten(t2);
  }

  /** A cell of `m` is a cell of `Flatten(m)`, and the other way round. */
  lemma {:induction false} FlattenCells(m: Matrix, v: Val)
    ensures v in Flatten(m) <==> exists i, t :: 0 <= i < |m| && 0 <= t < |m[i]| && m[i][t] == v
  {
    if m != [] {
      FlattenCells(m[1..], v);
      if v in Flatten(m[1..]) {
        var i, t :| 0 <= i < |m[1..]| && 0 <= t < |m[1..][i]| && m[1..][i][t] == v;
        assert m[i + 1][t] == v;
      }
      if exists i, t :: 0 <= i < |m| && 0 <= t < |m[i]| && m[i][t] == v {
        var i, t :| 0 <= i < |m| && 0 <= t < |m[i]| && m[i][t] == v;
        if i > 0 {
          assert m[1..][i - 1][t] == v;
        } else {
          assert v in m[0];
        }
      }
    }
  }

  /** NaN-propagating difference. */
  function Sub(a: Val, b: Val): (d: Val)
  {
    if a.Num? && b.Num? then Num(a.r - b.r) else Missing
  }

  /** NaN-propagating product. */
  function Mul(a: Val, b: Val): (p: Val)
  {
    if a.Num? && b.Num? then Num(a.r * b.r) else Missing
  }

  /** NaN-propagating sum. */
  function Add(a: Val, b: Val): (s: Val)
  {
    if a.Num? && b.Num? then Num(a.r + b.r) else Missing
  }

  /** Every cell of `s` plus `v`, NaN-propagating. */
  function Offset(s: Series, v: Val): (r: Series)
    ensures |r| == |s| && forall i :: 0 <= i < |s| ==> r[i] == Add(s[i], v)
  {
    seq(|s|, i requires 0 <= i < |s| => Add(s[i], v))
  }
}
