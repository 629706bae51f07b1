/** The helpers every attribute shares: grouping the node rows of a basin by
    reach (`create_reach_dict`), the per-reach time series of node means
    (`create_mean_series`) and the header search of the text readers
    (`get_line_num`). */
module Utilities {
  import opened Values
  import opened Stats
  import opened Frames

  /** One row of the topology table, indexed by node id. */
  datatype TopoRecord = TopoRecord(nodeId: string, lon: real, lat: real, reachId: string, dsLink: string)

  /** The node ids of the topology, in topology order: the row labels of every
      node-level table. */
  function NodeIds(topology: seq<TopoRecord>): (ids: seq<string>)
    ensures |ids| == |topology| && forall i :: 0 <= i < |topology| ==> ids[i] == topology[i].nodeId
  {
    seq(|topology|, i requires 0 <= i < |topology| => topology[i].nodeId)
  }

  /** The reach id of every node, in topology order: the `reachid` column
      that `create_reach_dict` inserts into its argument. */
  function ReachIdColumn(topology: seq<TopoRecord>): (ids: seq<string>)
    ensures |ids| == |topology| && forall i :: 0 <= i < |topology| ==> ids[i] == topology[i].reachId
    ensures forall i :: 0 <= i < |topology| ==> ids[i] in ReachIds(topology)
  {
    seq(|topology|, i requires 0 <= i < |topology| => topology[i].reachId)
  }

  /** The dictionary key of a reach: basin number, underscore, reach id. */
  function ReachKey(basin: string, reachId: string): (k: string)
    ensures |k| == |basin| + 1 + |reachId|
  {
    basin + "_" + reachId
  }

  /** The reach id a key of `basin` names. */
  function ReachOf(basin: string, key: string): string
    requires |key| > |basin|
  {
    key[|basin| + 1..]
  }

  /** Keys of one basin name their reach unambiguously. */
  lemma ReachOfKey(basin: string, reachId: string)
    ensures ReachOf(basin, ReachKey(basin, reachId)) == reachId
  {
    assert ReachKey(basin, reachId)[|basin| + 1..] == reachId;
  }

  /** The distinct reach ids of the topology. */
  function ReachIds(topology: seq<TopoRecord>): set<string>
  {
    set i | 0 <= i < |topology| :: topology[i].reachId
  }

  /** The positions, in increasing order, of the nodes of reach `reachId`. */
  function Positions(topology: seq<TopoRecord>, reachId: string): (ps: seq<nat>)
    ensures forall j :: 0 <= j < |ps| ==> ps[j] < |topology| && topology[ps[j]].reachId == reachId
    ensures forall i :: 0 <= i < |topology| && topology[i].reachId == reachId ==> i in ps
    ensures forall j, j' :: 0 <= j < j' < |ps| ==> ps[j] < ps[j']
  {
    if topology == [] then []
    else
      var last := |topology| - 1;
      Positions(topology[..last], reachId) + (if topology[last].reachId == reachId then [last] else [])
  }

  /** The rows at positions `ps`, in that order. */
  function Select<T>(rows: seq<T>, ps: seq<nat>): (g: seq<T>)
    requires forall j :: 0 <= j < |ps| ==> ps[j] < |rows|
    ensures |g| == |ps| && forall j :: 0 <= j < |ps| ==> g[j] == rows[ps[j]]
  {
    seq(|ps|, j requires 0 <= j < |ps| => rows[ps[j]])
  }

  /** The rows of the nodes of reach `reachId`, in topology order. */
  function Group<T>(rows: seq<T>, topology: seq<TopoRecord>, reachId: string): seq<T>
    requires |rows| == |topology|
  {
    Select(rows, Positions(topology, reachId))
  }

  /** The keys `create_reach_dict` produces for `basin`: one per distinct reach. */
  function ReachKeys(topology: seq<TopoRecord>, basin: string): set<string>
  {
    set r | r in ReachIds(topology) :: ReachKey(basin, r)
  }

  /** `create_reach_dict`: the rows of a node-level table grouped by the reach
      of their node, each group under the key `basin_reachid`.  The reach id
      column the original inserts for the grouping is taken from the topology
      by position and never enters the rows, so the groups hold the data
      columns only. */
  function CreateReachDict<T>(rows: seq<T>, topology: seq<TopoRecord>, basin: string): (d: map<string, seq<T>>)
    requires |rows| == |topology|
    ensures d.Keys == ReachKeys(topology, basin)
    ensures forall r :: r in ReachIds(topology) ==> d[ReachKey(basin, r)] == Group(rows, topology, r)
  {
    map k | k in ReachKeys(topology, basin) :: Group(rows, topology, ReachOf(basin, k))
  }

  /** `create_reach_dict` on a node table held in place: the table gains the
      topology's `reachid` column at position 0 and keeps its time-step
      columns, and the result groups its rows by that column.  A table that
      already has the column makes pandas raise ValueError. */
  method CreateReachDictOn(df: Frame, topology: seq<TopoRecord>, basin: string) returns (r: Result<map<string, Matrix>>)
    requires df.Valid() && |df.index| == |topology|
    modifies df
    ensures df.Valid() && df.index == old(df.index) && df.cells == old(df.cells)
    ensures r.Err? <==> old(df.reachColumn).Some?
    ensures r.Err? ==> r.error == ValueError("reachid") && df.reachColumn == old(df.reachColumn)
    ensures r.Ok? ==> df.reachColumn == Some(ReachIdColumn(topology)) && df.ColumnCount() == old(df.ColumnCount()) + 1
    ensures r.Ok? ==> r.value == CreateReachDict(df.cells, topology, basin)
  {
    var err := df.InsertReachColumn(ReachIdColumn(topology));
    if err.Some? {
      return Err(err.value);
    }
    return Ok(CreateReachDict(df.cells, topology, basin));
  }

  /** Every row lands in exactly one group: the one keyed by its own reach. */
  lemma RowInExactlyOneGroup<T>(rows: seq<T>, topology: seq<TopoRecord>, basin: string, i: nat, r: string)
    requires |rows| == |topology| && i < |rows| && r in ReachIds(topology)
    ensures ReachKey(basin, topology[i].reachId) in CreateReachDict(rows, topology, basin)
    ensures i in Positions(topology, r) <==> r == topology[i].reachId
  {
    if i in Positions(topology, r) {
      var j :| 0 <= j < |Positions(topology, r)| && Positions(topology, r)[j] == i;
    }
  }

  /** Grouping keeps the topology order of the rows within a group, and the
      group of a reach holds as many rows as the reach has nodes. */
  lemma GroupKeepsOrder<T>(rows: seq<T>, topology: seq<TopoRecord>, basin: string, r: string, j: nat, j': nat)
    requires |rows| == |topology| && r in ReachIds(topology)
    requires j < j' < |Positions(topology, r)|
    ensures var g := CreateReachDict(rows, topology, basin)[ReachKey(basin, r)];
            |g| == |Positions(topology, r)| &&
            g[j] == rows[Positions(topology, r)[j]] && g[j'] == rows[Positions(topology, r)[j']] &&
            Positions(topology, r)[j] < Positions(topology, r)[j']
  {
  }

  /** Two tables grouped over the same topology and basin get the same keys and
      groups of the same sizes: the node-level attributes of a basin line up
      reach by reach. */
  lemma SameGroupShape<T, U>(rows: seq<T>, other: seq<U>, topology: seq<TopoRecord>, basin: string)
    requires |rows| == |other| == |topology|
    ensures CreateReachDict(rows, topology, basin).Keys == CreateReachDict(other, topology, basin).Keys
    ensures forall k :: k in CreateReachDict(rows, topology, basin) ==>
              |CreateReachDict(rows, topology, basin)[k]| == |CreateReachDict(other, topology, basin)[k]|
  {
    forall k | k in CreateReachDict(rows, topology, basin)
      ensures |CreateReachDict(rows, topology, basin)[k]| == |CreateReachDict(other, topology, basin)[k]|
    {
      var r :| r in ReachIds(topology) && k == ReachKey(basin, r);
    }
  }

  /** Grouping keeps the columns: the groups of a table with `cols` columns
      have `cols` columns. */
  lemma GroupsHaveColumns(m: Matrix, topology: seq<TopoRecord>, basin: string, cols: nat)
    requires |m| == |topology| && HasColumns(m, cols)
    ensures forall k :: k in CreateReachDict(m, topology, basin) ==> HasColumns(CreateReachDict(m, topology, basin)[k], cols)
  {
    var d := CreateReachDict(m, topology, basin);
    forall k | k in d ensures HasColumns(d[k], cols) {
      var r :| r in ReachIds(topology) && k == ReachKey(basin, r);
    }
  }

  /** There are exactly as many groups as distinct reach ids. */
  lemma GroupCount<T>(rows: seq<T>, topology: seq<TopoRecord>, basin: string)
    requires |rows| == |topology|
    ensures |CreateReachDict(rows, topology, basin).Keys| == |ReachIds(topology)|
  {
    KeyImageSize(ReachIds(topology), basin);
  }

  lemma {:induction false} KeyImageSize(ids: set<string>, basin: string)
    ensures |set r | r in ids :: ReachKey(basin, r)| == |ids|
    decreases |ids|
  {
    if ids != {} {
      var r0 :| r0 in ids;
      var rest := ids - {r0};
      KeyImageSize(rest, basin);
      var keys := set r | r in ids :: ReachKey(basin, r);
      var restKeys := set r | r in rest :: ReachKey(basin, r);
      assert keys == restKeys + {ReachKey(basin, r0)};
      if ReachKey(basin, r0) in restKeys {
        var r1 :| r1 in rest && ReachKey(basin, r1) == ReachKey(basin, r0);
        ReachOfKey(basin, r0);
        ReachOfKey(basin, r1);
      }
    }
  }

  /** `create_mean_series`: for each reach, the NaN-skipping mean over its nodes
      of every time step. */
  function CreateMeanSeries(groups: map<string, Matrix>, cols: nat): (means: map<string, Series>)
    requires forall k :: k in groups ==> HasColumns(groups[k], cols)
    ensures means.Keys == groups.Keys
    ensures forall k :: k in groups ==> |means[k]| == cols
  {
    map k | k in groups :: ColumnMeans(groups[k], cols)
  }

  /** Each reach mean is the mean of the reach's present node values at that
      time step, and is missing exactly when none is present. */
  lemma MeanSeriesValue(groups: map<string, Matrix>, cols: nat, k: string, t: nat)
    requires forall k :: k in groups ==> HasColumns(groups[k], cols)
    requires k in groups && t < cols
    ensures var v := CreateMeanSeries(groups, cols)[k][t];
            var xs := Present(Column(groups[k], t));
            (v == Missing <==> forall i :: 0 <= i < |groups[k]| ==> groups[k][i][t] == Missing) &&
            (v.Num? ==> |xs| > 0 && v.r == Mean(xs))
  {
  }

  /** The means of a 5 x 10 table holding 0 .. 49 row by row are 20 .. 29. */
  lemma MeanSeriesExample()
    ensures var m := seq(5, i requires 0 <= i < 5 => seq(10, t requires 0 <= t < 10 => Num((10 * i + t) as real)));
            var means := CreateMeanSeries(map["1" := m], 10)["1"];
            forall t :: 0 <= t < 10 ==> means[t] == Num((20 + t) as real)
  {
    var m := seq(5, i requires 0 <= i < 5 => seq(10, t requires 0 <= t < 10 => Num((10 * i + t) as real)));
    var means := CreateMeanSeries(map["1" := m], 10)["1"];
    forall t | 0 <= t < 10 ensures means[t] == Num((20 + t) as real) {
      var c := Column(m, t);
      var xs := [t as real, (10 + t) as real, (20 + t) as real, (30 + t) as real, (40 + t) as real];
      PresentOfFive(c, xs);
      Sum5(xs);
    }
  }

  /** `Present` of five present cells. */
  lemma PresentOfFive(c: Series, xs: seq<real>)
    requires |c| == |xs| == 5 && forall i :: 0 <= i < 5 ==> c[i] == Num(xs[i])
    ensures Present(c) == xs
  {
    var c1 := c[1..];
    var c2 := c1[1..];
    var c3 := c2[1..];
    var c4 := c3[1..];
    assert c4[1..] == [];
    assert Present(c4) == [xs[4]];
    assert Present(c3) == [xs[3]] + Present(c4);
    assert Present(c2) == [xs[2]] + Present(c3);
    assert Present(c1) == [xs[1]] + Present(c2);
  }

  /** `phrase in line`: `phrase` occurs in `line` as a contiguous substring. */
  predicate Contains(line: string, phrase: string)
  {
    exists i :: 0 <= i <= |line| - |phrase| && OccursAt(line, phrase, i)
  }

  /** `phrase` occurs in `line` starting at position `i`. */
  predicate OccursAt(line: string, phrase: string, i: int)
    requires 0 <= i <= |line| - |phrase|
  {
    line[i..i + |phrase|] == phrase
  }

  /** `get_line_num`: the 0-based number of the first line holding `phrase`,
      or nothing when no line holds it. */
  method GetLineNum(lines: seq<string>, phrase: string) returns (num: Option<nat>)
    ensures num.Some? ==> num.value < |lines| && Contains(lines[num.value], phrase)
    ensures num.Some? ==> forall j :: 0 <= j < num.value ==> !Contains(lines[j], phrase)
    ensures num.None? ==> forall j :: 0 <= j < |lines| ==> !Contains(lines[j], phrase)
  {
    var n := 0;
    while n < |lines|
      invariant n <= |lines|
      invariant forall j :: 0 <= j < n ==> !Contains(lines[j], phrase)
    {
      if Contains(lines[n], phrase) {
        return Some(n);
      }
      n := n + 1;
    }
    return None;
  }
}
