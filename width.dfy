/** The width attribute: one width per node, read from the basin shapefile,
    repeated across every time step, and the reach mean of every time step. */
module Width {
  import opened Values
  import opened Stats
  import opened Utilities

  /** The number of time steps of the node-level tables. */
  const TimeSteps: nat := 9862

  /** One record of the width shapefile: coordinates, width, node index. */
  datatype ShpRecord = ShpRecord(x: real, y: real, width: Val, index: int)

  /** The node-level and reach-level widths, keyed like the reach groups. */
  datatype Width = Width(widthNode: map<string, Matrix>, widthReach: map<string, Series>)

  /** `m` has a row per record and `TimeSteps` columns, and every cell of row
      `i` holds the width of record `i`. */
  predicate Tiled(m: Matrix, rows: seq<ShpRecord>)
  {
    |m| == |rows| && HasColumns(m, TimeSteps) &&
    forall i, t :: 0 <= i < |rows| && 0 <= t < TimeSteps ==> m[i][t] == rows[i].width
  }

  /** The width of every node of a reach, repeated across the time steps. */
  function TileWidths(rows: seq<ShpRecord>): (m: Matrix)
    ensures Tiled(m, rows)
  {
    seq(|rows|, i requires 0 <= i < |rows| => seq(TimeSteps, t => rows[i].width))
  }

  /** `_create_node_dict`: for every reach, a table with one row per node, in
      the order of the reach's records, whose every cell at time steps
      0 .. TimeSteps - 1 is the node's width. */
  method CreateNodeDict(dfDict: map<string, seq<ShpRecord>>) returns (nodeDict: map<string, Matrix>)
    ensures nodeDict.Keys == dfDict.Keys
    ensures forall k :: k in dfDict ==> Tiled(nodeDict[k], dfDict[k])
  {
    nodeDict := map[];
    var todo := dfDict.Keys;
    while todo != {}
      invariant todo <= dfDict.Keys
      invariant nodeDict.Keys == dfDict.Keys - todo
      invariant forall k :: k in nodeDict ==> Tiled(nodeDict[k], dfDict[k])
      decreases todo
    {
      var key :| key in todo;
      nodeDict := nodeDict[key := TileWidths(dfDict[key])];
      todo := todo - {key};
    }
  }

  /** The widths of the nodes of a reach, as a series. */
  function Widths(rows: seq<ShpRecord>): (s: Series)
    ensures |s| == |rows| && forall i :: 0 <= i < |rows| ==> s[i] == rows[i].width
  {
    seq(|rows|, i requires 0 <= i < |rows| => rows[i].width)
  }

  /** The reach width is the same at every time step: the NaN-skipping mean of
      the reach's node widths. */
  lemma ReachWidthConstant(m: Matrix, rows: seq<ShpRecord>, t: nat)
    requires Tiled(m, rows) && t < TimeSteps
    ensures ColumnMeans(m, TimeSteps)[t] == NanMean(Widths(rows))
  {
    assert Column(m, t) == Widths(rows);
  }

  /** `Width(file, topology, basin_num)` once the shapefile is read: one record
      per topology node, in topology order. */
  method NewWidth(topology: seq<TopoRecord>, records: seq<ShpRecord>, basin: string) returns (w: Width)
    requires |records| == |topology|
    ensures w.widthNode.Keys == ReachKeys(topology, basin) && w.widthReach.Keys == ReachKeys(topology, basin)
    ensures forall k :: k in w.widthNode ==> Tiled(w.widthNode[k], CreateReachDict(records, topology, basin)[k])
    ensures forall k :: k in w.widthReach ==> |w.widthReach[k]| == TimeSteps
    ensures forall k, t :: k in w.widthReach && 0 <= t < TimeSteps ==>
              w.widthReach[k][t] == NanMean(Widths(CreateReachDict(records, topology, basin)[k]))
  {
    var dfDict := CreateReachDict(records, topology, basin);
    var widthNode := CreateNodeDict(dfDict);
    assert forall k :: k in widthNode ==> HasColumns(widthNode[k], TimeSteps);
    var widthReach := CreateMeanSeries(widthNode, TimeSteps);
    forall k, t | k in widthReach && 0 <= t < TimeSteps
      ensures widthReach[k][t] == NanMean(Widths(dfDict[k]))
    {
      ReachWidthConstant(widthNode[k], dfDict[k], t);
    }
    w := Width(widthNode, widthReach);
  }
}
