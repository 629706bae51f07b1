/** The d_x_area attribute: the change in cross-sectional area of a reach,
    width times the departure of the water-surface elevation from its median.
    At node level the median is taken across the nodes of each time step, at
    reach level across the time steps of the reach series. */
module Dxarea {
  import opened Values
  import opened Stats
  import opened Median

  /** The node-level and reach-level d_x_area, keyed like the reach groups. */
  datatype Dxarea = Dxarea(dxareaNode: map<string, Matrix>, dxareaReach: map<string, Series>)

  /** `wse.median(axis = 0, skipna = True)` of a node table: the NaN-skipping
      median over the nodes of every time step. */
  function ColumnMedians(wse: Matrix, cols: nat): (med: Series)
    requires HasColumns(wse, cols)
    ensures |med| == cols
    ensures forall t :: 0 <= t < cols ==> med[t] == NanMedian(Column(wse, t))
  {
    seq(cols, t requires 0 <= t < cols => NanMedian(Column(wse, t)))
  }

  /** `_calculate_dxa` on node tables: `width * (wse - median of the column)`,
      cell by cell, tables aligned by position. */
  function DxaNode(wse: Matrix, width: Matrix, cols: nat): (d: Matrix)
    requires |width| == |wse| && HasColumns(wse, cols) && HasColumns(width, cols)
    ensures IsMatrix(d, |wse|, cols)
  {
    var med := ColumnMedians(wse, cols);
    seq(|wse|, i requires 0 <= i < |wse| =>
      seq(cols, t requires 0 <= t < cols => Mul(width[i][t], Sub(wse[i][t], med[t]))))
  }

  /** `_calculate_dxa` on reach series: `width * (wse - median of the series)`. */
  function DxaReach(wse: Series, width: Series): (d: Series)
    requires |width| == |wse|
    ensures |d| == |wse|
  {
    var med := NanMedian(wse);
    seq(|wse|, t requires 0 <= t < |wse| => Mul(width[t], Sub(wse[t], med)))
  }

  /** A node's d_x_area is missing exactly where its width or its elevation is
      missing (an all-missing column raises nothing), and is otherwise the
      width times the elevation's departure from the median of the present
      elevations of that time step. */
  lemma DxaNodeCell(wse: Matrix, width: Matrix, cols: nat, i: nat, t: nat)
    requires |width| == |wse| && HasColumns(wse, cols) && HasColumns(width, cols)
    requires i < |wse| && t < cols
    ensures var d := DxaNode(wse, width, cols)[i][t];
            (d == Missing <==> width[i][t] == Missing || wse[i][t] == Missing) &&
            (d.Num? ==> |Present(Column(wse, t))| > 0 &&
                        d.r == width[i][t].r * (wse[i][t].r - MedianOf(Present(Column(wse, t)))))
  {
    var c := Column(wse, t);
    assert c[i] == wse[i][t];
    PresentEmptyIff(c);
  }

  /** A time step's d_x_area is missing exactly where the width or the
      elevation is missing, and is otherwise the width times the elevation's
      departure from the median of the reach's present elevations. */
  lemma DxaReachCell(wse: Series, width: Series, t: nat)
    requires |width| == |wse| && t < |wse|
    ensures var d := DxaReach(wse, width)[t];
            (d == Missing <==> width[t] == Missing || wse[t] == Missing) &&
            (d.Num? ==> |Present(wse)| > 0 && d.r == width[t].r * (wse[t].r - MedianOf(Present(wse))))
  {
    PresentEmptyIff(wse);
    var d := DxaReach(wse, width)[t];
    assert d == Mul(width[t], Sub(wse[t], NanMedian(wse)));
  }

  /** With an odd number of present elevations at a time step, some node sits
      exactly on the median: its d_x_area is zero wherever its width is present. */
  lemma MedianNodeZero(wse: Matrix, width: Matrix, cols: nat, t: nat)
    requires |width| == |wse| && HasColumns(wse, cols) && HasColumns(width, cols) && t < cols
    requires |Present(Column(wse, t))| % 2 == 1
    ensures exists i :: 0 <= i < |wse| && wse[i][t].Num? &&
              (width[i][t].Num? ==> DxaNode(wse, width, cols)[i][t] == Num(0.0))
  {
    var c := Column(wse, t);
    var med := MedianOf(Present(c));
    MedianOddIsMember(Present(c));
    PresentMembers(c, med);
    var i :| 0 <= i < |c| && c[i] == Num(med);
    assert wse[i][t] == Num(med);
    assert DxaNode(wse, width, cols)[i][t] == Mul(width[i][t], Sub(Num(med), Num(med)));
  }

  /** The present values of a raised series are the raised present values. */
  lemma {:induction false} PresentRaise(s: Series, c: real)
    ensures Present(Offset(s, Num(c))) == Shift(Present(s), c)
  {
    if s != [] {
      calc {
        Present(Offset(s, Num(c)));
      == { assert Offset(s, Num(c)) == [Add(s[0], Num(c))] + Offset(s[1..], Num(c)); }
        Present([Add(s[0], Num(c))] + Offset(s[1..], Num(c)));
      == { PresentRaise(s[1..], c); RaiseHead(s[0], s[1..], Offset(s[1..], Num(c)), c); }
        Shift(Present([s[0]] + s[1..]), c);
      == { assert [s[0]] + s[1..] == s; }
        Shift(Present(s), c);
      }
    }
  }

  /** One step of `PresentRaise`: a head cell raised in front of a tail
      whose present values are already raised. */
  lemma RaiseHead(v: Val, rest: Series, raisedRest: Series, c: real)
    requires Present(raisedRest) == Shift(Present(rest), c)
    ensures Present([Add(v, Num(c))] + raisedRest) == Shift(Present([v] + rest), c)
  {
    var h := Add(v, Num(c));
    PresentCons(v, rest);
    PresentCons(h, raisedRest);
    if v.Num? {
      assert h == Num(v.r + c);
      ShiftCons(v.r, Present(rest), c);
      assert Present([v] + rest) == [v.r] + Present(rest);
      assert Present([h] + raisedRest) == [v.r + c] + Present(raisedRest);
    } else {
      assert h == Missing;
      assert Present([v] + rest) == Present(rest);
      assert Present([h] + raisedRest) == Present(raisedRest);
    }
  }

  /** Raising every elevation raises the NaN-skipping median by as much. */
  lemma MedianRaise(s: Series, c: real)
    ensures NanMedian(Offset(s, Num(c))) == Add(NanMedian(s), Num(c))
  {
    PresentRaise(s, c);
    PresentEmptyIff(s);
    PresentEmptyIff(Offset(s, Num(c)));
    if Present(s) != [] {
      MedianShift(Present(s), c);
    }
  }

  /** The reach d_x_area does not depend on the datum of the elevations:
      raising every elevation by the same amount leaves it unchanged. */
  lemma DxaReachDatumFree(wse: Series, width: Series, c: real)
    requires |width| == |wse|
    ensures DxaReach(Offset(wse, Num(c)), width) == DxaReach(wse, width)
  {
    MedianRaise(wse, c);
  }

  /** Every present value of `m` raised by `c`. */
  function RaiseAll(m: Matrix, c: real): (r: Matrix)
    ensures |r| == |m| && forall i :: 0 <= i < |m| ==> r[i] == Offset(m[i], Num(c))
  {
    seq(|m|, i requires 0 <= i < |m| => Offset(m[i], Num(c)))
  }

  /** The node d_x_area does not depend on the datum of the elevations either. */
  lemma DxaNodeDatumFree(wse: Matrix, width: Matrix, cols: nat, c: real)
    requires |width| == |wse| && HasColumns(wse, cols) && HasColumns(width, cols)
    ensures HasColumns(RaiseAll(wse, c), cols)
    ensures DxaNode(RaiseAll(wse, c), width, cols) == DxaNode(wse, width, cols)
  {
    var raised := RaiseAll(wse, c);
    forall t | 0 <= t < cols
      ensures ColumnMedians(raised, cols)[t] == Add(ColumnMedians(wse, cols)[t], Num(c))
    {
      assert Column(raised, t) == Offset(Column(wse, t), Num(c));
      MedianRaise(Column(wse, t), c);
    }
    var a, b := DxaNode(raised, width, cols), DxaNode(wse, width, cols);
    forall i | 0 <= i < |wse| ensures a[i] == b[i] {
      forall t | 0 <= t < cols ensures a[i][t] == b[i][t] {
        assert raised[i][t] == Add(wse[i][t], Num(c));
        DepartureRaised(wse[i][t], ColumnMedians(wse, cols)[t], c);
      }
    }
  }

  /** Raising an elevation and its median alike keeps the departure. */
  lemma DepartureRaised(v: Val, med: Val, c: real)
    ensures Sub(Add(v, Num(c)), Add(med, Num(c))) == Sub(v, med)
  {
  }

  /** The median of a column of three present elevations, highest first. */
  lemma ThreeNodeMedian(wse: Matrix, cols: nat, t: nat)
    requires |wse| == 3 && HasColumns(wse, cols) && t < cols
    requires forall i :: 0 <= i < 3 ==> wse[i][t].Num?
    requires wse[0][t].r > wse[1][t].r > wse[2][t].r
    ensures ColumnMedians(wse, cols)[t] == wse[1][t]
  {
    var c := Column(wse, t);
    var c1 := c[1..];
    var c2 := c1[1..];
    assert c2[1..] == [];
    assert Present(c2) == [wse[2][t].r];
    assert Present(c1) == [wse[1][t].r] + Present(c2);
    assert Present(c) == [wse[0][t].r, wse[1][t].r, wse[2][t].r];
    MedianOfFalling(Present(c));
  }

  /** The elevation table of the node-level d_x_area test: three nodes falling
      down the reach at five time steps. */
  function ExampleWse(): Matrix
  {
    [[Num(33.5), Num(30.0), Num(28.75), Num(25.0), Num(24.3)],
     [Num(23.8), Num(22.0), Num(20.0), Num(18.6), Num(17.0)],
     [Num(15.85), Num(13.12), Num(10.0), Num(8.6), Num(5.43)]]
  }

  /** A 3 x 5 table of 30-metre widths. */
  function ExampleWidth(): Matrix
  {
    var row := [Num(30.0), Num(30.0), Num(30.0), Num(30.0), Num(30.0)];
    [row, row, row]
  }

  /** The node-level test: the middle node is the median of every time step,
      so its row is zero and the others are 30 times their distance from it. */
  lemma NodeExample(wse: Matrix, width: Matrix)
    requires wse == ExampleWse() && width == ExampleWidth()
    ensures DxaNode(wse, width, 5) ==
              [[Num(291.0), Num(240.0), Num(262.5), Num(192.0), Num(219.0)],
               [Num(0.0), Num(0.0), Num(0.0), Num(0.0), Num(0.0)],
               [Num(-238.5), Num(-266.4), Num(-300.0), Num(-300.0), Num(-347.1)]]
  {
    ExampleMedians(wse);
    NodeExampleTop(wse, width);
    NodeExampleMiddle(wse, width);
    NodeExampleBottom(wse, width);
  }

  /** The medians of the test table are the elevations of its middle node. */
  lemma ExampleMedians(wse: Matrix)
    requires wse == ExampleWse()
    ensures ColumnMedians(wse, 5) == wse[1]
  {
    forall t | 0 <= t < 5 ensures ColumnMedians(wse, 5)[t] == wse[1][t] {
      ThreeNodeMedian(wse, 5, t);
    }
  }

  lemma NodeExampleTop(wse: Matrix, width: Matrix)
    requires wse == ExampleWse() && width == ExampleWidth() && ColumnMedians(wse, 5) == wse[1]
    ensures DxaNode(wse, width, 5)[0] == [Num(291.0), Num(240.0), Num(262.5), Num(192.0), Num(219.0)]
  {
  }

  lemma NodeExampleMiddle(wse: Matrix, width: Matrix)
    requires wse == ExampleWse() && width == ExampleWidth() && ColumnMedians(wse, 5) == wse[1]
    ensures DxaNode(wse, width, 5)[1] == [Num(0.0), Num(0.0), Num(0.0), Num(0.0), Num(0.0)]
  {
  }

  lemma NodeExampleBottom(wse: Matrix, width: Matrix)
    requires wse == ExampleWse() && width == ExampleWidth() && ColumnMedians(wse, 5) == wse[1]
    ensures DxaNode(wse, width, 5)[2] == [Num(-238.5), Num(-266.4), Num(-300.0), Num(-300.0), Num(-347.1)]
  {
  }

  /** The reach-level test: the median of the series is its third value,
      19.58333, and every time step is 30 times its departure from it. */
  lemma ReachExample()
    ensures var wse := [Num(24.38333), Num(21.70666), Num(19.58333), Num(17.4), Num(15.57666)];
            var width := [Num(30.0), Num(30.0), Num(30.0), Num(30.0), Num(30.0)];
            DxaReach(wse, width) == [Num(144.0), Num(63.6999), Num(0.0), Num(-65.4999), Num(-120.2001)]
  {
    var wse := [Num(24.38333), Num(21.70666), Num(19.58333), Num(17.4), Num(15.57666)];
    var w1 := wse[1..];
    var w2 := w1[1..];
    var w3 := w2[1..];
    var w4 := w3[1..];
    assert w4[1..] == [];
    assert Present(wse) == [24.38333, 21.70666, 19.58333, 17.4, 15.57666];
    MedianOfFalling(Present(wse));
  }

  /** `_create_dxa_node_dict`: the d_x_area table of every reach of the width
      dictionary, its elevations looked up under the same key; a key missing
      from the elevations raises KeyError. */
  method CreateDxaNodeDict(widthNode: map<string, Matrix>, wseNode: map<string, Matrix>, cols: nat)
    returns (r: Result<map<string, Matrix>>)
    requires forall k :: k in widthNode && k in wseNode ==>
               |widthNode[k]| == |wseNode[k]| && HasColumns(wseNode[k], cols) && HasColumns(widthNode[k], cols)
    ensures r.Err? <==> exists k :: k in widthNode && k !in wseNode
    ensures r.Err? ==> r.error.key in widthNode && r.error.key !in wseNode
    ensures r.Ok? ==> r.value.Keys == widthNode.Keys
    ensures r.Ok? ==> forall k :: k in widthNode ==> r.value[k] == DxaNode(wseNode[k], widthNode[k], cols)
  {
    var dxaDict: map<string, Matrix> := map[];
    var todo := widthNode.Keys;
    while todo != {}
      invariant todo <= widthNode.Keys
      invariant dxaDict.Keys == widthNode.Keys - todo
      invariant forall k :: k in dxaDict ==> k in wseNode && dxaDict[k] == DxaNode(wseNode[k], widthNode[k], cols)
      decreases todo
    {
      var key :| key in todo;
      if key !in wseNode {
        return Err(KeyError(key));
      }
      dxaDict := dxaDict[key := DxaNode(wseNode[key], widthNode[key], cols)];
      todo := todo - {key};
    }
    return Ok(dxaDict);
  }

  /** `_create_dxa_reach_dict`: the d_x_area series of every reach of the width
      dictionary; a key missing from the elevations raises KeyError. */
  method CreateDxaReachDict(widthReach: map<string, Series>, wseReach: map<string, Series>)
    returns (r: Result<map<string, Series>>)
    requires forall k :: k in widthReach && k in wseReach ==> |widthReach[k]| == |wseReach[k]|
    ensures r.Err? <==> exists k :: k in widthReach && k !in wseReach
    ensures r.Err? ==> r.error.key in widthReach && r.error.key !in wseReach
    ensures r.Ok? ==> r.value.Keys == widthReach.Keys
    ensures r.Ok? ==> forall k :: k in widthReach ==> r.value[k] == DxaReach(wseReach[k], widthReach[k])
  {
    var reachDict: map<string, Series> := map[];
    var todo := widthReach.Keys;
    while todo != {}
      invariant todo <= widthReach.Keys
      invariant reachDict.Keys == widthReach.Keys - todo
      invariant forall k :: k in reachDict ==> k in wseReach && reachDict[k] == DxaReach(wseReach[k], widthReach[k])
      decreases todo
    {
      var key :| key in todo;
      if key !in wseReach {
        return Err(KeyError(key));
      }
      reachDict := reachDict[key := DxaReach(wseReach[key], widthReach[key])];
      todo := todo - {key};
    }
    return Ok(reachDict);
  }

  /** `Dxarea(width, wse, topology)`: the node dictionary, then the reach
      dictionary; the first missing elevation key raises KeyError. */
  method NewDxarea(widthNode: map<string, Matrix>, widthReach: map<string, Series>,
                   wseNode: map<string, Matrix>, wseReach: map<string, Series>, cols: nat)
    returns (r: Result<Dxarea>)
    requires forall k :: k in widthNode && k in wseNode ==>
               |widthNode[k]| == |wseNode[k]| && HasColumns(wseNode[k], cols) && HasColumns(widthNode[k], cols)
    requires forall k :: k in widthReach && k in wseReach ==> |widthReach[k]| == |wseReach[k]|
    ensures r.Err? <==> (exists k :: k in widthNode && k !in wseNode) || (exists k :: k in widthReach && k !in wseReach)
    ensures r.Ok? ==> r.value.dxareaNode.Keys == widthNode.Keys && r.value.dxareaReach.Keys == widthReach.Keys
    ensures r.Ok? ==> forall k :: k in widthNode ==> r.value.dxareaNode[k] == DxaNode(wseNode[k], widthNode[k], cols)
    ensures r.Ok? ==> forall k :: k in widthReach ==> r.value.dxareaReach[k] == DxaReach(wseReach[k], widthReach[k])
  {
    var node := CreateDxaNodeDict(widthNode, wseNode, cols);
    if node.Err? {
      return Err(node.error);
    }
    var reach := CreateDxaReachDict(widthReach, wseReach);
    if reach.Err? {
      return Err(reach.error);
    }
    return Ok(Dxarea(node.value, reach.value));
  }
}
