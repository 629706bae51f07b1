/** The slope attribute: for every reach and every time step, the negated
    least-squares gradient of node elevation against the node's distance from
    the first node of the reach, and the same slope broadcast back to every
    node of the reach wherever that node has an elevation. */
module Slope {
  import opened Values
  import opened Stats
  import opened Frames
  import opened Utilities
  import opened Regression

  /** A node position, in the (latitude, longitude) order of the distance call. */
  datatype Coord = Coord(lat: real, lon: real)

  function Position(node: TopoRecord): Coord
  {
    Coord(node.lat, node.lon)
  }

  /** The slope attribute of a basin, keyed like the reach groups. */
  datatype Slope = Slope(coordDict: map<string, seq<TopoRecord>>, slopeReach: map<string, Series>,
                         slopeNode: map<string, Matrix>)

  /** `coord_dict`: the topology records grouped by reach, keyed `basin_reachid`. */
  function CoordDict(topology: seq<TopoRecord>, basin: string): map<string, seq<TopoRecord>>
  {
    CreateReachDict(topology, topology, basin)
  }

  /** Every record of a reach's coordinates belongs to that reach, and the
      records keep their topology order. */
  lemma CoordDictHoldsReach(topology: seq<TopoRecord>, basin: string, r: string, j: nat)
    requires r in ReachIds(topology)
    ensures ReachKey(basin, r) in CoordDict(topology, basin)
    ensures j < |CoordDict(topology, basin)[ReachKey(basin, r)]| ==>
              CoordDict(topology, basin)[ReachKey(basin, r)][j] == topology[Positions(topology, r)[j]] &&
              CoordDict(topology, basin)[ReachKey(basin, r)][j].reachId == r
  {
  }

  /** `_create_node_distance_list`: the distance of every node of a reach from
      the reach's first node, measured by `dist` (the geodesic distance in
      metres in the original). */
  function NodeDistances(coords: seq<TopoRecord>, dist: (Coord, Coord) -> real): (ds: seq<real>)
    requires |coords| > 0
    ensures |ds| == |coords|
  {
    var start := Position(coords[0]);
    seq(|coords|, i requires 0 <= i < |coords| => dist(start, Position(coords[i])))
  }

  /** Each distance is measured from the first node, and the first node lies at
      distance zero from itself for any distance that puts a point at zero from itself. */
  lemma NodeDistancesFromStart(coords: seq<TopoRecord>, dist: (Coord, Coord) -> real)
    requires |coords| > 0
    ensures forall i :: 0 <= i < |coords| ==>
              NodeDistances(coords, dist)[i] == dist(Position(coords[0]), Position(coords[i]))
    ensures (forall p :: dist(p, p) == 0.0) ==> NodeDistances(coords, dist)[0] == 0.0
  {
  }

  /** The regression of every time step of a reach is defined. */
  predicate ReachFits(wse: Matrix, ds: seq<real>, cols: nat)
  {
    |wse| == |ds| && HasColumns(wse, cols) &&
    forall t :: 0 <= t < cols ==> RegressionDefined(Column(wse, t), ds)
  }

  /** `_calculate_reach`: the slope of every time step of one reach. */
  function CalculateReach(wse: Matrix, coords: seq<TopoRecord>, dist: (Coord, Coord) -> real, cols: nat): (slopes: Series)
    requires |coords| > 0 && ReachFits(wse, NodeDistances(coords, dist), cols)
    ensures |slopes| == cols
    ensures forall t :: 0 <= t < cols ==>
              slopes[t] == ApplyLinearRegression(Column(wse, t), NodeDistances(coords, dist))
    ensures forall t :: 0 <= t < cols ==>
              (slopes[t] == Missing <==> |Present(Column(wse, t))| < MinHeights)
  {
    var ds := NodeDistances(coords, dist);
    seq(cols, t requires 0 <= t < cols => ApplyLinearRegression(Column(wse, t), ds))
  }

  /** Every reach that has both elevations and coordinates can be fitted. */
  predicate SlopeInputsFit(wseNode: map<string, Matrix>, coordDict: map<string, seq<TopoRecord>>,
                           dist: (Coord, Coord) -> real, cols: nat)
  {
    forall k :: k in wseNode && k in coordDict ==>
      |coordDict[k]| > 0 && ReachFits(wseNode[k], NodeDistances(coordDict[k], dist), cols)
  }

  /** `_create_reach_dict`, run reach after reach: the slope series of every
      reach of `wseNode`.  A reach without coordinates raises KeyError. */
  method CreateReachSlopes(wseNode: map<string, Matrix>, coordDict: map<string, seq<TopoRecord>>,
                           dist: (Coord, Coord) -> real, cols: nat) returns (r: Result<map<string, Series>>)
    requires SlopeInputsFit(wseNode, coordDict, dist, cols)
    ensures r.Err? <==> exists k :: k in wseNode && k !in coordDict
    ensures r.Err? ==> r.error.key in wseNode && r.error.key !in coordDict
    ensures r.Ok? ==> r.value.Keys == wseNode.Keys
    ensures r.Ok? ==> forall k :: k in wseNode ==> r.value[k] == CalculateReach(wseNode[k], coordDict[k], dist, cols)
  {
    var slopes: map<string, Series> := map[];
    var todo := wseNode.Keys;
    while todo != {}
      invariant todo <= wseNode.Keys
      invariant slopes.Keys == wseNode.Keys - todo
      invariant forall k :: k in slopes ==> k in coordDict
      invariant forall k :: k in slopes ==> slopes[k] == CalculateReach(wseNode[k], coordDict[k], dist, cols)
      decreases todo
    {
      var key :| key in todo;
      if key !in coordDict {
        return Err(KeyError(key));
      }
      slopes := slopes[key := CalculateReach(wseNode[key], coordDict[key], dist, cols)];
      todo := todo - {key};
    }
    return Ok(slopes);
  }

  /** `m` is the reach slope series on every node row, missing wherever the
      node has no elevation. */
  predicate Broadcast(m: Matrix, wse: Matrix, slopes: Series)
  {
    |m| == |wse| &&
    forall i :: 0 <= i < |m| ==>
      (|m[i]| == |wse[i]| == |slopes| &&
       forall t :: 0 <= t < |slopes| ==> m[i][t] == (if wse[i][t] == Missing then Missing else slopes[t]))
  }

  /** `np.tile(series, (rows, 1))`: the series on each of `rows` rows. */
  function Repeat(s: Series, rows: nat): (m: Matrix)
    ensures |m| == rows && forall i :: 0 <= i < rows ==> m[i] == s
  {
    seq(rows, i => s)
  }

  /** `_create_node_dict`: the slope series of every reach repeated on every
      node of the reach, then blanked wherever the node's elevation is missing. */
  method CreateNodeSlopes(slopeReach: map<string, Series>, wseNode: map<string, Matrix>,
                          coordDict: map<string, seq<TopoRecord>>, cols: nat) returns (nodeDict: map<string, Matrix>)
    requires forall k :: k in slopeReach ==>
               k in wseNode && k in coordDict && |coordDict[k]| == |wseNode[k]| &&
               |slopeReach[k]| == cols && HasColumns(wseNode[k], cols)
    ensures nodeDict.Keys == slopeReach.Keys
    ensures forall k :: k in nodeDict ==> Broadcast(nodeDict[k], wseNode[k], slopeReach[k])
  {
    nodeDict := map[];
    var todo := slopeReach.Keys;
    while todo != {}
      invariant todo <= slopeReach.Keys
      invariant nodeDict.Keys == slopeReach.Keys - todo
      invariant forall k :: k in nodeDict ==> Broadcast(nodeDict[k], wseNode[k], slopeReach[k])
      decreases todo
    {
      var key :| key in todo;
      var wse := wseNode[key];
      var nodeDf := new Frame(NodeIds(coordDict[key]), Repeat(slopeReach[key], |wse|));
      nodeDf.MaskWhereMissing(wse);
      forall i, t | 0 <= i < |wse| && 0 <= t < cols
        ensures nodeDf.cells[i][t] == (if wse[i][t] == Missing then Missing else slopeReach[key][t])
      {
        MaskLikeCells(Repeat(slopeReach[key], |wse|), wse, i, t);
      }
      nodeDict := nodeDict[key := nodeDf.cells];
      todo := todo - {key};
    }
  }

  /** `Slope(topology, wse_node, basin_num, invalid_nodes)`.  `invalidNodes` is
      accepted and not used, as in the original: the slope of a reach is fitted
      over all its nodes with an elevation. */
  method NewSlope(topology: seq<TopoRecord>, wseNode: map<string, Matrix>, basin: string,
                  invalidNodes: map<string, seq<string>>, dist: (Coord, Coord) -> real, cols: nat)
    returns (r: Result<Slope>)
    requires SlopeInputsFit(wseNode, CoordDict(topology, basin), dist, cols)
    ensures r.Err? <==> exists k :: k in wseNode && k !in ReachKeys(topology, basin)
    ensures r.Ok? ==> r.value.coordDict == CoordDict(topology, basin)
    ensures r.Ok? ==> r.value.slopeReach.Keys == wseNode.Keys && r.value.slopeNode.Keys == wseNode.Keys
    ensures r.Ok? ==> forall k :: k in wseNode ==>
              r.value.slopeReach[k] == CalculateReach(wseNode[k], r.value.coordDict[k], dist, cols) &&
              Broadcast(r.value.slopeNode[k], wseNode[k], r.value.slopeReach[k])
  {
    var coordDict := CoordDict(topology, basin);
    var reach := CreateReachSlopes(wseNode, coordDict, dist, cols);
    if reach.Err? {
      return Err(reach.error);
    }
    var node := CreateNodeSlopes(reach.value, wseNode, coordDict, cols);
    return Ok(Slope(coordDict, reach.value, node));
  }

  /** The first time step of the reach in the slope tests, with the node
      distances of the test (about 616.72 m apart): slope 0.01325 to five places. */
  lemma TestReachExample()
    ensures var heights := [Num(33.5), Num(23.8), Num(15.85), Num(4.40), Num(2.35)];
            var dists := [0.0, 616.72336, 1233.44672, 1850.170079, 2466.893423];
            RegressionDefined(heights, dists) &&
            var s := ApplyLinearRegression(heights, dists);
            s.Num? && 0.013245 < s.r < 0.013255
  {
    TestDistancesSlope([Num(33.5), Num(23.8), Num(15.85), Num(4.40), Num(2.35)]);
  }

  /** The node distances of the test reach, to the precision the regression test gives them. */
  function TestDistances(): (ds: seq<real>)
    ensures |ds| == 5
  {
    [0.0, 616.72336, 1233.44672, 1850.170079, 2466.893423]
  }

  /** The spread of the test distances about their mean 1233.4467164. */
  const TestSpread: real := 9508692461315652563.0 / 2500000000000.0

  /** At the test distances the slope of five present heights is a fixed
      weighted sum of them: each height weighted by its distance's offset from
      the mean distance, negated and divided by the spread. */
  lemma TestDistancesSlope(heights: Series)
    requires |heights| == 5 && AllPresent(heights)
    ensures RegressionDefined(heights, TestDistances())
    ensures ApplyLinearRegression(heights, TestDistances()) ==
              Num(-(-1233.4467164 * heights[0].r - 616.7233564 * heights[1].r + 0.0000036 * heights[2].r
                    + 616.7233626 * heights[3].r + 1233.4467066 * heights[4].r) / TestSpread)
  {
    var ds := TestDistances();
    AllPresentKept(heights, ds);
    var ys := Present(heights);
    Sum5(ds);
    assert Mean(ds) == 1233.4467164;
    SumSqDev5(ds, 1233.4467164);
    assert Sxx(ds) == TestSpread;
    SumCross5(ds, ys, 1233.4467164, Mean(ys));
  }

  /** Test column 1 at the test distances has slope 0.01199 to five places. */
  lemma TestReachColumn1()
    ensures var heights := [Num(30.0), Num(22.0), Num(13.12), Num(4.15), Num(1.95)];
            RegressionDefined(heights, TestDistances()) &&
            var s := ApplyLinearRegression(heights, TestDistances());
            s.Num? && 0.011985 < s.r < 0.011995
  {
    TestDistancesSlope([Num(30.0), Num(22.0), Num(13.12), Num(4.15), Num(1.95)]);
  }

  /** Test column 2 at the test distances has slope 0.01154 to five places. */
  lemma TestReachColumn2()
    ensures var heights := [Num(28.75), Num(20.0), Num(10.0), Num(3.33), Num(1.50)];
            RegressionDefined(heights, TestDistances()) &&
            var s := ApplyLinearRegression(heights, TestDistances());
            s.Num? && 0.011535 < s.r < 0.011545
  {
    TestDistancesSlope([Num(28.75), Num(20.0), Num(10.0), Num(3.33), Num(1.50)]);
  }

  /** Test column 3 at the test distances has slope 0.01022 to five places. */
  lemma TestReachColumn3()
    ensures var heights := [Num(25.0), Num(18.6), Num(8.6), Num(3.05), Num(1.25)];
            RegressionDefined(heights, TestDistances()) &&
            var s := ApplyLinearRegression(heights, TestDistances());
            s.Num? && 0.010215 < s.r < 0.010225
  {
    TestDistancesSlope([Num(25.0), Num(18.6), Num(8.6), Num(3.05), Num(1.25)]);
  }

  /** Test column 4 at the test distances has slope 0.00985 to five places. */
  lemma TestReachColumn4()
    ensures var heights := [Num(24.3), Num(17.0), Num(5.43), Num(2.75), Num(1.05)];
            RegressionDefined(heights, TestDistances()) &&
            var s := ApplyLinearRegression(heights, TestDistances());
            s.Num? && 0.009845 < s.r < 0.009855
  {
    TestDistancesSlope([Num(24.3), Num(17.0), Num(5.43), Num(2.75), Num(1.05)]);
  }
}
