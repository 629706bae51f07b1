/** The discharge attribute: the node discharges of a basin, with the nodes
    listed as invalid for the basin and all exact zeros blanked, grouped by
    reach and reduced to one prior mean (qhat) and one standard deviation
    (qsd) per reach.  The standard deviation is carried as its square. */
module Discharge {
  import opened Values
  import opened Stats
  import opened Frames
  import opened Utilities

  /** The reach-level discharge attributes, keyed like the reach groups. */
  datatype Discharge = Discharge(qhatReach: map<string, Val>, qsdSquaredReach: map<string, Val>)

  /** The node discharges once the invalid nodes and the zeros are blanked. */
  function CleanDischarge(raw: Matrix, topology: seq<TopoRecord>, invalid: seq<string>): (m: Matrix)
    requires |raw| == |topology|
    ensures |m| == |raw| && forall i :: 0 <= i < |raw| ==> |m[i]| == |raw[i]|
  {
    ReplaceZeroCells(MaskRows(raw, NodeIds(topology), invalid))
  }

  /** The prior mean discharge of a reach: the NaN-skipping mean of all its cells. */
  function Qhat(m: Matrix): (q: Val)
  {
    NanMean(Flatten(m))
  }

  /** The square of the reach's discharge standard deviation: the NaN-skipping
      population variance of all its cells. */
  function QsdSquared(m: Matrix): (q: Val)
  {
    NanVariance(Flatten(m))
  }

  /** `_calculate_qhat_qsd`: for every reach, the NaN-skipping mean and
      (squared) population standard deviation of all its cells, every node and
      every time step together. */
  method CalculateQhatQsd(data: map<string, Matrix>) returns (qhat: map<string, Val>, qsdSquared: map<string, Val>)
    ensures qhat.Keys == data.Keys && qsdSquared.Keys == data.Keys
    ensures forall k :: k in data ==> qhat[k] == Qhat(data[k]) && qsdSquared[k] == QsdSquared(data[k])
  {
    qhat, qsdSquared := map[], map[];
    var todo := data.Keys;
    while todo != {}
      invariant todo <= data.Keys
      invariant qhat.Keys == data.Keys - todo && qsdSquared.Keys == data.Keys - todo
      invariant forall k :: k in qhat ==> qhat[k] == Qhat(data[k]) && qsdSquared[k] == QsdSquared(data[k])
      decreases todo
    {
      var key :| key in todo;
      qhat := qhat[key := Qhat(data[key])];
      qsdSquared := qsdSquared[key := QsdSquared(data[key])];
      todo := todo - {key};
    }
  }

  /** `Discharge(file, topology, basin_num, invalid_nodes)` once the file is
      read: `raw` holds one row per topology node.  An unknown basin or an
      invalid node that is not in the topology raises KeyError. */
  method NewDischarge(topology: seq<TopoRecord>, raw: Matrix, basin: string,
                      invalidNodes: map<string, seq<string>>) returns (r: Result<Discharge>)
    requires |raw| == |topology|
    ensures r.Err? <==> basin !in invalidNodes || exists l :: l in invalidNodes[basin] && l !in NodeIds(topology)
    ensures r.Ok? ==>
              var groups := CreateReachDict(CleanDischarge(raw, topology, invalidNodes[basin]), topology, basin);
              r.value.qhatReach.Keys == ReachKeys(topology, basin) &&
              r.value.qsdSquaredReach.Keys == ReachKeys(topology, basin) &&
              forall k :: k in groups ==>
                r.value.qhatReach[k] == Qhat(groups[k]) && r.value.qsdSquaredReach[k] == QsdSquared(groups[k])
  {
    if basin !in invalidNodes {
      return Err(KeyError(basin));
    }
    var qNode := new Frame(NodeIds(topology), raw);
    var err := qNode.MaskNodes(invalidNodes[basin]);
    if err.Some? {
      return Err(err.value);
    }
    qNode.ReplaceZeros();
    var grouped := CreateReachDictOn(qNode, topology, basin);
    var groups := grouped.value;
    var qhat, qsdSquared := CalculateQhatQsd(groups);
    return Ok(Discharge(qhat, qsdSquared));
  }

  /** The values recorded for invalid nodes play no part: two inputs that
      differ only in the rows of invalid nodes give the same reach groups. */
  lemma InvalidNodesIgnored(raw: Matrix, raw': Matrix, topology: seq<TopoRecord>, invalid: seq<string>)
    requires |raw| == |raw'| == |topology|
    requires forall i :: 0 <= i < |raw| ==> |raw[i]| == |raw'[i]|
    requires forall i :: 0 <= i < |raw| && topology[i].nodeId !in invalid ==> raw[i] == raw'[i]
    ensures CleanDischarge(raw, topology, invalid) == CleanDischarge(raw', topology, invalid)
  {
    var ids := NodeIds(topology);
    var a, b := MaskRows(raw, ids, invalid), MaskRows(raw', ids, invalid);
    assert |a| == |b|;
    forall i | 0 <= i < |a| ensures a[i] == b[i] {
      if ids[i] in invalid {
        assert a[i] == Blank(|raw[i]|) == b[i];
      }
    }
  }

  /** A recorded zero counts as no observation: replacing it by a missing
      cell changes nothing. */
  lemma ZeroIsNoObservation(raw: Matrix, topology: seq<TopoRecord>, invalid: seq<string>, i: nat, t: nat)
    requires |raw| == |topology| && i < |raw| && t < |raw[i]| && raw[i][t] == Num(0.0)
    ensures CleanDischarge(raw[i := raw[i][t := Missing]], topology, invalid) == CleanDischarge(raw, topology, invalid)
  {
    var raw' := raw[i := raw[i][t := Missing]];
    var ids := NodeIds(topology);
    var a, b := CleanDischarge(raw', topology, invalid), CleanDischarge(raw, topology, invalid);
    assert |a| == |b|;
    forall j | 0 <= j < |a| ensures a[j] == b[j] {
      assert |a[j]| == |b[j]|;
      forall u | 0 <= u < |a[j]| ensures a[j][u] == b[j][u] {
        MaskRowsCells(raw', ids, invalid, j, u);
        MaskRowsCells(raw, ids, invalid, j, u);
      }
    }
  }

  /** A reach with no present discharge anywhere gets a missing qhat and a
      missing qsd (and raises nothing); one present value is enough for both
      to be present. */
  lemma AllMissingReach(m: Matrix)
    ensures NanMean(Flatten(m)) == Missing <==> forall i, t :: 0 <= i < |m| && 0 <= t < |m[i]| ==> m[i][t] == Missing
    ensures NanVariance(Flatten(m)) == Missing <==> NanMean(Flatten(m)) == Missing
  {
    var s := Flatten(m);
    if forall i, t :: 0 <= i < |m| && 0 <= t < |m[i]| ==> m[i][t] == Missing {
      forall j | 0 <= j < |s| ensures s[j] == Missing {
        if s[j] != Missing {
          FlattenCells(m, s[j]);
        }
      }
    } else {
      var i, t :| 0 <= i < |m| && 0 <= t < |m[i]| && m[i][t] != Missing;
      FlattenCells(m, m[i][t]);
    }
  }

  /** The present values of the reach in the discharge tests: 0 .. 24 in a
      5 x 5 table with the cells holding 0, 8, 9 and 12 missing. */
  function ExampleReach(): Matrix
  {
    [[Missing, Num(1.0), Num(2.0), Num(3.0), Num(4.0)],
     [Num(5.0), Num(6.0), Num(7.0), Missing, Missing],
     [Num(10.0), Num(11.0), Missing, Num(13.0), Num(14.0)],
     [Num(15.0), Num(16.0), Num(17.0), Num(18.0), Num(19.0)],
     [Num(20.0), Num(21.0), Num(22.0), Num(23.0), Num(24.0)]]
  }

  lemma ExampleRow0(m: Matrix)
    requires m == ExampleReach()
    ensures var xs := Present(m[0]);
            |xs| == 4 && Sum(xs) == 10.0 && SumSq(xs) == 30.0
  {
    assert m[0] == [Missing, Num(1.0), Num(2.0), Num(3.0), Num(4.0)];
    assert Present([Missing, Num(1.0), Num(2.0), Num(3.0), Num(4.0)]) == [1.0, 2.0, 3.0, 4.0];
    assert Sum([1.0, 2.0, 3.0, 4.0]) == 10.0 && SumSq([1.0, 2.0, 3.0, 4.0]) == 30.0;
  }

  lemma ExampleRow1(m: Matrix)
    requires m == ExampleReach()
    ensures var xs := Present(m[1]);
            |xs| == 3 && Sum(xs) == 18.0 && SumSq(xs) == 110.0
  {
    assert m[1] == [Num(5.0), Num(6.0), Num(7.0), Missing, Missing];
    assert Present([Num(5.0), Num(6.0), Num(7.0), Missing, Missing]) == [5.0, 6.0, 7.0];
    assert Sum([5.0, 6.0, 7.0]) == 18.0 && SumSq([5.0, 6.0, 7.0]) == 110.0;
  }

  lemma ExampleRow2(m: Matrix)
    requires m == ExampleReach()
    ensures var xs := Present(m[2]);
            |xs| == 4 && Sum(xs) == 48.0 && SumSq(xs) == 586.0
  {
    assert m[2] == [Num(10.0), Num(11.0), Missing, Num(13.0), Num(14.0)];
    assert Present([Num(10.0), Num(11.0), Missing, Num(13.0), Num(14.0)]) == [10.0, 11.0, 13.0, 14.0];
    assert Sum([10.0, 11.0, 13.0, 14.0]) == 48.0 && SumSq([10.0, 11.0, 13.0, 14.0]) == 586.0;
  }

  lemma ExampleRow3(m: Matrix)
    requires m == ExampleReach()
    ensures var xs := Present(m[3]);
            |xs| == 5 && Sum(xs) == 85.0 && SumSq(xs) == 1455.0
  {
    assert m[3] == [Num(15.0), Num(16.0), Num(17.0), Num(18.0), Num(19.0)];
    assert Present([Num(15.0), Num(16.0), Num(17.0), Num(18.0), Num(19.0)]) == [15.0, 16.0, 17.0, 18.0, 19.0];
    assert Sum([15.0, 16.0, 17.0, 18.0, 19.0]) == 85.0 && SumSq([15.0, 16.0, 17.0, 18.0, 19.0]) == 1455.0;
  }

  lemma ExampleRow4(m: Matrix)
    requires m == ExampleReach()
    ensures var xs := Present(m[4]);
            |xs| == 5 && Sum(xs) == 110.0 && SumSq(xs) == 2430.0
  {
    assert m[4] == [Num(20.0), Num(21.0), Num(22.0), Num(23.0), Num(24.0)];
    assert Present([Num(20.0), Num(21.0), Num(22.0), Num(23.0), Num(24.0)]) == [20.0, 21.0, 22.0, 23.0, 24.0];
    assert Sum([20.0, 21.0, 22.0, 23.0, 24.0]) == 110.0 && SumSq([20.0, 21.0, 22.0, 23.0, 24.0]) == 2430.0;
  }

  /** The present values of a five-row table, row after row. */
  lemma PresentFive(m: Matrix)
    requires |m| == 5
    ensures Present(Flatten(m)) == Present(m[0]) + Present(m[1]) + Present(m[2]) + Present(m[3]) + Present(m[4])
  {
    FlattenFive(m);
    PresentAppend(m[0] + m[1] + m[2] + m[3], m[4]);
    PresentAppend(m[0] + m[1] + m[2], m[3]);
    PresentAppend(m[0] + m[1], m[2]);
    PresentAppend(m[0], m[1]);
  }

  /** Sums over five pieces, piece by piece. */
  lemma SumsOfFive(a: seq<real>, b: seq<real>, c: seq<real>, d: seq<real>, e: seq<real>)
    ensures Sum(a + b + c + d + e) == Sum(a) + Sum(b) + Sum(c) + Sum(d) + Sum(e)
    ensures SumSq(a + b + c + d + e) == SumSq(a) + SumSq(b) + SumSq(c) + SumSq(d) + SumSq(e)
  {
    SumAppend(a + b + c + d, e);
    SumAppend(a + b + c, d);
    SumAppend(a + b, c);
    SumAppend(a, b);
    SumSqAppend(a + b + c + d, e);
    SumSqAppend(a + b + c, d);
    SumSqAppend(a + b, c);
    SumSqAppend(a, b);
  }

  /** The discharge test: qhat = 271/21 and qsd squared = 23390/441. */
  lemma QhatQsdExample(m: Matrix)
    requires m == ExampleReach()
    ensures NanMean(Flatten(m)) == Num(271.0 / 21.0)
    ensures NanVariance(Flatten(m)) == Num(23390.0 / 441.0)
  {
    ExampleRows(m);
    ExampleStats(m);
  }

  lemma ExampleRows(m: Matrix)
    requires m == ExampleReach()
    ensures |m| == 5
    ensures |Present(m[0])| == 4 && Sum(Present(m[0])) == 10.0 && SumSq(Present(m[0])) == 30.0
    ensures |Present(m[1])| == 3 && Sum(Present(m[1])) == 18.0 && SumSq(Present(m[1])) == 110.0
    ensures |Present(m[2])| == 4 && Sum(Present(m[2])) == 48.0 && SumSq(Present(m[2])) == 586.0
    ensures |Present(m[3])| == 5 && Sum(Present(m[3])) == 85.0 && SumSq(Present(m[3])) == 1455.0
    ensures |Present(m[4])| == 5 && Sum(Present(m[4])) == 110.0 && SumSq(Present(m[4])) == 2430.0
  {
    ExampleRow0(m);
    ExampleRow1(m);
    ExampleRow2(m);
    ExampleRow3(m);
    ExampleRow4(m);
  }

  lemma ExampleStats(m: Matrix)
    requires |m| == 5
    requires |Present(m[0])| == 4 && Sum(Present(m[0])) == 10.0 && SumSq(Present(m[0])) == 30.0
    requires |Present(m[1])| == 3 && Sum(Present(m[1])) == 18.0 && SumSq(Present(m[1])) == 110.0
    requires |Present(m[2])| == 4 && Sum(Present(m[2])) == 48.0 && SumSq(Present(m[2])) == 586.0
    requires |Present(m[3])| == 5 && Sum(Present(m[3])) == 85.0 && SumSq(Present(m[3])) == 1455.0
    requires |Present(m[4])| == 5 && Sum(Present(m[4])) == 110.0 && SumSq(Present(m[4])) == 2430.0
    ensures NanMean(Flatten(m)) == Num(271.0 / 21.0)
    ensures NanVariance(Flatten(m)) == Num(23390.0 / 441.0)
  {
    StatsFromRows(m, [4, 3, 4, 5, 5], [10.0, 18.0, 48.0, 85.0, 110.0], [30.0, 110.0, 586.0, 1455.0, 2430.0]);
    assert 4611.0 / 21.0 - Sq(271.0 / 21.0) == 23390.0 / 441.0;
  }

  /** NaN-skipping mean and variance of a five-row table from the count, sum
      and sum of squares of the present values of each row. */
  lemma StatsFromRows(m: Matrix, counts: seq<nat>, sums: seq<real>, squares: seq<real>)
    requires |m| == |counts| == |sums| == |squares| == 5
    requires forall i :: 0 <= i < 5 ==>
               |Present(m[i])| == counts[i] && Sum(Present(m[i])) == sums[i] && SumSq(Present(m[i])) == squares[i]
    requires counts[0] + counts[1] + counts[2] + counts[3] + counts[4] > 0
    ensures var n := counts[0] + counts[1] + counts[2] + counts[3] + counts[4];
            var total := sums[0] + sums[1] + sums[2] + sums[3] + sums[4];
            var sq := squares[0] + squares[1] + squares[2] + squares[3] + squares[4];
            NanMean(Flatten(m)) == Num(total / (n as real)) &&
            NanVariance(Flatten(m)) == Num(sq / (n as real) - Sq(total / (n as real)))
  {
    PresentFive(m);
    SumsOfFive(Present(m[0]), Present(m[1]), Present(m[2]), Present(m[3]), Present(m[4]));
    NanStatsFromSums(Flatten(m), counts[0] + counts[1] + counts[2] + counts[3] + counts[4],
                     sums[0] + sums[1] + sums[2] + sums[3] + sums[4],
                     squares[0] + squares[1] + squares[2] + squares[3] + squares[4]);
  }
}
