/** The node x time table the pipeline edits in place (a pandas DataFrame
    indexed by node id), with the three in-place edits the attributes apply:
    blanking the rows of listed nodes (`.loc[labels, :] = nan`), turning exact
    zeros into NaN (`replace(0.0, nan, inplace = True)`) and blanking the cells
    where another table is NaN (`mask(other.isna(), nan, inplace = True)`). */
module Frames {
  import opened Values

  /** A row of `n` missing cells. */
  function Blank(n: nat): (s: Series)
    ensures |s| == n && forall t :: 0 <= t < n ==> s[t] == Missing
  {
    seq(n, t => Missing)
  }

  /** `m` with the rows whose label is in `labels` made entirely missing. */
  function MaskRows(m: Matrix, index: seq<string>, labels: seq<string>): (r: Matrix)
    requires |index| == |m|
    ensures |r| == |m| && forall i :: 0 <= i < |m| ==> |r[i]| == |m[i]|
  {
    seq(|m|, i requires 0 <= i < |m| => if index[i] in labels then Blank(|m[i]|) else m[i])
  }

  /** A cell equal to zero becomes missing; any other cell is kept as it is. */
  function ZeroToMissing(v: Val): (w: Val)
  {
    if v == Num(0.0) then Missing else v
  }

  /** `ZeroToMissing` applied to every cell. */
  function ReplaceZeroCells(m: Matrix): (r: Matrix)
    ensures |r| == |m| && forall i :: 0 <= i < |m| ==> |r[i]| == |m[i]|
  {
    seq(|m|, i requires 0 <= i < |m| => seq(|m[i]|, t requires 0 <= t < |m[i]| => ZeroToMissing(m[i][t])))
  }

  /** `m` made missing wherever `other` is missing. */
  function MaskLike(m: Matrix, other: Matrix): (r: Matrix)
    requires |m| == |other| && forall i :: 0 <= i < |m| ==> |m[i]| == |other[i]|
    ensures |r| == |m| && forall i :: 0 <= i < |m| ==> |r[i]| == |m[i]|
  {
    seq(|m|, i requires 0 <= i < |m| =>
      seq(|m[i]|, t requires 0 <= t < |m[i]| => if other[i][t] == Missing then Missing else m[i][t]))
  }

  /** Every cell of a listed node is missing afterwards; every other cell is untouched. */
  lemma MaskRowsCells(m: Matrix, index: seq<string>, labels: seq<string>, i: nat, t: nat)
    requires |index| == |m| && i < |m| && t < |m[i]|
    ensures index[i] in labels ==> MaskRows(m, index, labels)[i][t] == Missing
    ensures index[i] !in labels ==> MaskRows(m, index, labels)[i][t] == m[i][t]
  {
  }

  /** Exact zeros, and only they, are removed: there is no tolerance. */
  lemma ReplaceZeroCellsExact(m: Matrix, i: nat, t: nat)
    requires i < |m| && t < |m[i]|
    ensures ReplaceZeroCells(m)[i][t] == Missing <==> m[i][t] == Missing || m[i][t] == Num(0.0)
    ensures m[i][t].Num? && m[i][t].r != 0.0 ==> ReplaceZeroCells(m)[i][t] == m[i][t]
  {
  }

  /** The result of `MaskLike` is missing exactly where either table is. */
  lemma MaskLikeCells(m: Matrix, other: Matrix, i: nat, t: nat)
    requires |m| == |other| && forall j :: 0 <= j < |m| ==> |m[j]| == |other[j]|
    requires i < |m| && t < |m[i]|
    ensures MaskLike(m, other)[i][t] == Missing <==> m[i][t] == Missing || other[i][t] == Missing
    ensures other[i][t].Num? ==> MaskLike(m, other)[i][t] == m[i][t]
  {
  }

  /** Blanking the invalid nodes and then the zeros, done twice, is the same as
      done once. */
  lemma CleanIdempotent(m: Matrix, index: seq<string>, labels: seq<string>)
    requires |index| == |m|
    ensures var once := ReplaceZeroCells(MaskRows(m, index, labels));
            ReplaceZeroCells(MaskRows(once, index, labels)) == once
  {
    var once := ReplaceZeroCells(MaskRows(m, index, labels));
    var twice := ReplaceZeroCells(MaskRows(once, index, labels));
    assert |twice| == |once|;
    forall i | 0 <= i < |once| ensures twice[i] == once[i] {
      assert |twice[i]| == |once[i]|;
      forall t | 0 <= t < |once[i]| ensures twice[i][t] == once[i][t] {
        MaskRowsCells(m, index, labels, i, t);
        MaskRowsCells(once, index, labels, i, t);
      }
    }
  }

  /** The two edits commute: the zeros may be removed before or after the
      invalid nodes are blanked. */
  lemma CleanCommutes(m: Matrix, index: seq<string>, labels: seq<string>)
    requires |index| == |m|
    ensures ReplaceZeroCells(MaskRows(m, index, labels)) == MaskRows(ReplaceZeroCells(m), index, labels)
  {
    var a := ReplaceZeroCells(MaskRows(m, index, labels));
    var b := MaskRows(ReplaceZeroCells(m), index, labels);
    assert |a| == |b|;
    forall i | 0 <= i < |a| ensures a[i] == b[i] {
      assert |a[i]| == |b[i]|;
      forall t | 0 <= t < |a[i]| ensures a[i][t] == b[i][t] {
        MaskRowsCells(m, index, labels, i, t);
        MaskRowsCells(ReplaceZeroCells(m), index, labels, i, t);
      }
    }
  }

  /** A label of `labels` that is not in `index`, if there is one. */
  function MissingLabel(index: seq<string>, labels: seq<string>): (r: Option<string>)
    ensures r.None? <==> forall l :: l in labels ==> l in index
    ensures r.Some? ==> r.value in labels && r.value !in index
  {
    if labels == [] then None
    else if labels[0] !in index then Some(labels[0])
    else MissingLabel(index, labels[1..])
  }

  /** A table of node rows labelled by node id, edited in place. */
  /** A node-level table: row labels, the `reachid` column at position 0 once
      `create_reach_dict` has inserted it, and the time-step columns. */
  class Frame {
    var index: seq<string>
    var reachColumn: Option<seq<string>>
    var cells: Matrix

    predicate Valid()
      reads this
    {
      |index| == |cells| && (reachColumn.Some? ==> |reachColumn.value| == |index|)
    }

    /** `frame.shape[1]`: the `reachid` column once inserted, then the time
        steps (counted on the first row; a table without rows has none). */
    function ColumnCount(): nat
      reads this
    {
      (if reachColumn.Some? then 1 else 0) + (if cells == [] then 0 else |cells[0]|)
    }

    constructor (index: seq<string>, cells: Matrix)
      requires |index| == |cells|
      ensures Valid()
      ensures this.index == index && this.cells == cells && reachColumn == None
    {
      this.index := index;
      this.cells := cells;
      reachColumn := None;
    }

    /** `frame.insert(0, "reachid", ids)`: the table gains the column at
        position 0, and its time-step columns are untouched; pandas raises
        ValueError when the table already has a `reachid` column. */
    method InsertReachColumn(ids: seq<string>) returns (err: Option<Error>)
      requires Valid() && |ids| == |index|
      modifies this
      ensures Valid() && index == old(index) && cells == old(cells)
      ensures err.Some? <==> old(reachColumn).Some?
      ensures err.Some? ==> err.value == ValueError("reachid") && reachColumn == old(reachColumn)
      ensures err.None? ==> reachColumn == Some(ids) && ColumnCount() == old(ColumnCount()) + 1
    {
      if reachColumn.Some? {
        return Some(ValueError("reachid"));
      }
      reachColumn := Some(ids);
      return None;
    }

    /** `frame.loc[labels, :] = nan`: a label that is not a row label raises
        KeyError and leaves the table as it was. */
    method MaskNodes(labels: seq<string>) returns (err: Option<Error>)
      requires Valid()
      modifies this
      ensures Valid() && index == old(index) && reachColumn == old(reachColumn)
      ensures err.None? <==> forall l :: l in labels ==> l in index
      ensures err.Some? ==> err.value.key in labels && err.value.key !in index && cells == old(cells)
      ensures err.None? ==> cells == MaskRows(old(cells), index, labels)
    {
      var missing := MissingLabel(index, labels);
      if missing.Some? {
        return Some(KeyError(missing.value));
      }
      cells := MaskRows(cells, index, labels);
      return None;
    }

    /** `frame.replace(0.0, nan, inplace = True)`. */
    method ReplaceZeros()
      requires Valid()
      modifies this
      ensures Valid() && index == old(index) && reachColumn == old(reachColumn)
      ensures cells == ReplaceZeroCells(old(cells))
    {
      cells := ReplaceZeroCells(cells);
    }

    /** `frame.mask(other.isna(), nan, inplace = True)`, `other` aligned by position. */
    method MaskWhereMissing(other: Matrix)
      requires Valid()
      requires |other| == |cells| && forall i :: 0 <= i < |cells| ==> |other[i]| == |cells[i]|
      modifies this
      ensures Valid() && index == old(index) && reachColumn == old(reachColumn)
      ensures cells == MaskLike(old(cells), other)
    {
      cells := MaskLike(cells, other);
    }
  }
}
