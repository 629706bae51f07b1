/** The water-surface elevation attribute: the stage of every node with its
    zeros blanked and the node's base elevation added, grouped by reach, and
    the reach mean of every time step. */
module Wse {
  import opened Values
  import opened Stats
  import opened Frames
  import opened Utilities

  /** The node-level and reach-level elevations, keyed like the reach groups. */
  datatype Wse = Wse(wseNode: map<string, Matrix>, wseReach: map<string, Series>)

  /** `node_data.add(base_data["elev"], axis = "index")`: the base elevation of
      each node added to every cell of its row, rows aligned by position. */
  function AddBase(m: Matrix, elev: Series): (r: Matrix)
    requires |elev| == |m|
    ensures |r| == |m| && forall i :: 0 <= i < |m| ==> |r[i]| == |m[i]|
  {
    seq(|m|, i requires 0 <= i < |m| => Offset(m[i], elev[i]))
  }

  /** The node elevations of the basin before grouping. */
  function NodeWse(raw: Matrix, elev: Series): (m: Matrix)
    requires |elev| == |raw|
    ensures |m| == |raw| && forall i :: 0 <= i < |raw| ==> |m[i]| == |raw[i]|
  {
    AddBase(ReplaceZeroCells(raw), elev)
  }

  /** A node elevation is present exactly when the stage is present and not
      zero and the base elevation is present; it is then stage plus base, with
      the same base at every time step. */
  lemma NodeWseCell(raw: Matrix, elev: Series, i: nat, t: nat)
    requires |elev| == |raw| && i < |raw| && t < |raw[i]|
    ensures var w := NodeWse(raw, elev)[i][t];
            (w.Num? <==> raw[i][t].Num? && raw[i][t].r != 0.0 && elev[i].Num?) &&
            (w.Num? ==> w.r == raw[i][t].r + elev[i].r)
  {
    ReplaceZeroCellsExact(raw, i, t);
  }

  /** `Wse(file, topology, basin_num)` once the file is read: `raw` holds the
      stage of every topology node at `cols` time steps and `elev` the node
      base elevations, both in topology order. */
  method NewWse(topology: seq<TopoRecord>, raw: Matrix, elev: Series, basin: string, cols: nat) returns (w: Wse)
    requires IsMatrix(raw, |topology|, cols) && |elev| == |topology|
    ensures w.wseNode == CreateReachDict(NodeWse(raw, elev), topology, basin)
    ensures forall k :: k in w.wseNode ==> HasColumns(w.wseNode[k], cols)
    ensures w.wseReach == CreateMeanSeries(w.wseNode, cols)
  {
    var nodeData := new Frame(NodeIds(topology), raw);
    nodeData.ReplaceZeros();
    var df := AddBase(nodeData.cells, elev);
    var withBase := new Frame(nodeData.index, df);
    var grouped := CreateReachDictOn(withBase, topology, basin);
    var wseNode := grouped.value;
    GroupsHaveColumns(df, topology, basin, cols);
    w := Wse(wseNode, CreateMeanSeries(wseNode, cols));
  }
}
