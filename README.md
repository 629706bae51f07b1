# Attribute pipeline of the SWOT/SoS river extractor

This project models the attribute pipeline under `app/attributes/`. The
pipeline turns the node × time tables of one basin into the per-reach
attributes of the SWORD-of-Science priors:

- **Grouping.** Every node-level table is split into one table per reach,
  keyed `basin_reachid` (`create_reach_dict`). Each reach also gets a time
  series of node means (`create_mean_series`).
- **Discharge.** Rows of invalid nodes and exact zeros are blanked. Each
  reach then gets the NaN-skipping mean (qhat) and population standard
  deviation (qsd) of all its cells.
- **Water-surface elevation (wse).** Zeros are blanked, and each node's
  base elevation is added to its row.
- **Width.** Each node's shapefile width is repeated across
  `TIME_STEPS = 9862` time steps.
- **Slope.** For every time step, the slope is the negated least-squares
  gradient of node elevation against distance from the reach's first node.
  It needs at least five elevations. It is then broadcast back to the nodes
  and blanked wherever a node has no elevation.
- **d_x_area.** Width times the departure of the elevation from its median.
  At node level the median is taken across the nodes of each time step; at
  reach level it is taken over the time series.

## How the model is built

- **Cells and tables.**
  - A cell is `Val = Missing | Num(r)`, and NaN is `Missing`.
  - A table is a sequence of node rows of time-step cells.
  - The per-reach dictionaries are Dafny maps.
- **Arithmetic.**
  - Values are exact reals.
  - The standard deviation is carried as its square: `qsdSquared` is the
    population variance.
- **Modules.** Each source file has a module (`Utilities`, `Discharge`,
  `Wse`, `Width`, `Slope`, `Dxarea`). Five shared modules sit underneath:
  - `Values`: cells, the `KeyError` and `ValueError` errors and `Result`.
  - `Stats`: NaN-skipping mean and variance.
  - `Median`: insertion sort and the median.
  - `Regression`: closed-form least squares.
  - `Frames`: the pandas table edits made in place (class `Frame`), and the
    functions on values that define them.
- **In-place edits.** The pandas edits made in place live in the class
  `Frames.Frame`:
  - `.loc[labels, :] = nan` is `MaskNodes`;
  - `replace(0, nan, inplace = True)` is `ReplaceZeros`;
  - `mask(other.isna(), nan, inplace = True)` is `MaskWhereMissing`;
  - `insert(0, "reachid", ...)` is `InsertReachColumn`. `create_reach_dict`
    on a frame is `Utilities.CreateReachDictOn`. `NewDischarge` and `NewWse`
    call it, so their tables gain the `reachid` column as in the source.
- **Loops.** The loops that fill a dictionary reach by reach are methods
  with loop invariants:
  - `Discharge.CalculateQhatQsd`, `Width.CreateNodeDict`;
  - `Slope.CreateReachSlopes`, `Slope.CreateNodeSlopes`;
  - `Dxarea.CreateDxaNodeDict`, `Dxarea.CreateDxaReachDict`;
  - `Utilities.GetLineNum`.
- **Dictionary lookups.** A lookup that raises `KeyError` in the original
  returns `Err(KeyError(key))`.
- **Inputs.** The file readers are not modelled; the constructors take what
  the readers would return:
  - `Discharge.NewDischarge` and `Wse.NewWse` take the topology (a sequence
    of `(nodeid, lon, lat, reachid, dslink)` records) and the raw node
    tables, one row per topology node in topology order. `Wse.NewWse` also
    takes the base elevations, one per node;
  - `Width.NewWidth` takes the topology and the shapefile records, one per
    topology node in topology order;
  - `Slope.NewSlope` takes the topology and the grouped `wseNode`
    dictionary built by `Wse`;
  - `Dxarea.NewDxarea` takes no topology. It takes the grouped width and wse
    dictionaries, node and reach, built by `Width` and `Wse`.
- **Geodesic distance.** The distance is a function parameter `dist`.
  Statements that need `dist(p, p) == 0` take it as a premise.
- **Where the code and its comments or tests disagree**, the model follows
  the code:
  - the node-level d_x_area median is taken across the nodes of each time
    step (`median(axis = 0)`, Dxarea.py:57), although the comment at
    Dxarea.py:52 speaks of the median across time;
  - the width tables have 9862 columns, positions `0 .. 9861`
    (Width.py:48-51), while the width test (tests/test_Width.py:34-35)
    expects 9362 columns from 500;
  - the comment at Slope.py:40 speaks of removing invalid nodes, but the
    `invalid_nodes` argument of `Slope` is accepted and never used.
- **Zero blanking.** Discharge and wse replace a value with NaN only when it
  is exactly zero (Discharge.py:36, Wse.py:30). Only discharge blanks invalid
  nodes (Discharge.py:35).

## Model

The functions that define a result are described through the lemmas that
characterise them, which cite the same lines:
- `Discharge.Qhat` and `Discharge.QsdSquared` through `Stats.NanMean`,
  `Stats.NanVariance`, `Discharge.CalculateQhatQsd` and
  `Discharge.AllMissingReach`;
- `Slope.CoordDict` through `Slope.CoordDictHoldsReach`;
- `Wse.AddBase` through `Wse.NodeWseCell`;
- `Frames.MaskRows`, `Frames.ReplaceZeroCells` and `Frames.MaskLike` through
  `Frames.MaskRowsCells`, `Frames.ReplaceZeroCellsExact` and
  `Frames.MaskLikeCells`.

| member | source | states |
|---|---|---|
| Utilities.Positions | app/attributes/Utilities.py:23 | the positions picked for a reach are exactly the topology rows of that reach, in increasing order |
| Utilities.CreateReachDict | app/attributes/Utilities.py:16-30 | the keys are `basin_reachid` for exactly the distinct reach ids, and each group is the reach's rows in topology order, without the reach id column |
| Utilities.ReachIdColumn | app/attributes/Utilities.py:20 | the inserted column holds each node's reach id, in topology order |
| Utilities.CreateReachDictOn | app/attributes/Utilities.py:16-30 | the argument table gains the topology's `reachid` column (one more column, the time steps kept), and the result is the reach grouping of its rows; if the table already has the column, ValueError |
| Utilities.ReachOfKey | app/attributes/Utilities.py:24 | the reach id can be read back from a key, so distinct reaches get distinct keys |
| Utilities.RowInExactlyOneGroup | app/attributes/Utilities.py:20-24 | every row's own reach key is a key of the result, and the row is selected into the group of reach r iff r is its reach |
| Utilities.GroupKeepsOrder | app/attributes/Utilities.py:23-24 | rows of a group keep their relative topology order, and the group has one row per node of the reach |
| Utilities.SameGroupShape | app/attributes/Utilities.py:23-28 | two tables grouped over the same topology get the same keys and groups of equal row counts |
| Utilities.GroupsHaveColumns | app/attributes/Utilities.py:26-28 | grouping keeps the data columns: each group has the column count of the input |
| Utilities.GroupCount | app/attributes/Utilities.py:23-24 | the number of groups equals the number of distinct reach ids |
| Utilities.CreateMeanSeries | app/attributes/Utilities.py:8-14 | keys are kept, and each series has one entry per time step |
| Utilities.MeanSeriesValue | app/attributes/Utilities.py:12 | each entry is missing iff every node is missing at that step, and otherwise is the mean of the present node values |
| Utilities.MeanSeriesExample | tests/test_Utilities.py:57-65 | the means of the 5 × 10 table 0 .. 49 are 20 .. 29 |
| Utilities.GetLineNum | app/attributes/Utilities.py:71-75 | returns the 0-based number of the first line containing the phrase, or None when no line contains it |
| Values.FlattenCells | app/attributes/Discharge.py:57 | a value is a cell of the flattened `.values` array iff it is a cell of the table |
| Stats.PresentEmptyIff | app/attributes/Discharge.py:52-57 | no value survives the NaN skip iff every cell is missing |
| Stats.MeanIsBalancePoint | app/attributes/Discharge.py:57 | the deviations from c sum to zero iff c is the mean |
| Stats.MeanOfConstant | app/attributes/Utilities.py:12 | values that all equal v have mean v |
| Stats.NanMean | app/attributes/Discharge.py:57 | np.nanmean is missing iff every cell is missing |
| Stats.NanVariance | app/attributes/Discharge.py:61 | the squared np.nanstd is missing iff every cell is missing, and is never negative |
| Stats.VarianceNonNegative | app/attributes/Discharge.py:61 | the population variance is never negative, so qsd is its square root |
| Stats.VarianceIdentity | app/attributes/Discharge.py:61 | the variance is the mean of the squares minus the square of the mean |
| Stats.VarianceZeroIff | app/attributes/Discharge.py:61 | qsd is zero iff all present values are equal |
| Stats.ColumnMeans | app/attributes/Utilities.py:12 | one mean per column, missing iff the column is all missing |
| Median.InsertSorted | app/attributes/Dxarea.py:57 | inserting into a sorted sequence keeps it sorted and adds exactly the new value |
| Median.SortSorted | app/attributes/Dxarea.py:57 | the sort used by the median is ascending and is a permutation of its input |
| Median.SortedUnique | app/attributes/Dxarea.py:57 | two sorted permutations of the same values are equal, so the sorted order is unique |
| Median.MedianIgnoresOrder | app/attributes/Dxarea.py:57 | the median depends only on the multiset of values, not on node order |
| Median.MedianOddIsMember | app/attributes/Dxarea.py:57 | with an odd count the median is one of the values |
| Median.MedianBounds | app/attributes/Dxarea.py:57 | the median lies between some value and some value (the minimum and maximum) |
| Median.MedianShift | app/attributes/Dxarea.py:57 | raising every value by c raises the median by c |
| Median.SortFalling | app/attributes/Dxarea.py:57 | sorting strictly falling values reverses them |
| Median.MedianOfFalling | app/attributes/Dxarea.py:57 | for an odd number of strictly falling values the median is the middle one |
| Median.NanMedian | app/attributes/Dxarea.py:57 | the skipna median is missing iff every cell is missing |
| Regression.SxxZeroIff | app/attributes/Slope.py:136-139 | the distance spread is zero iff all kept distances are equal, the one case the closed form Sxy/Sxx cannot resolve |
| Regression.CrossOnLine | app/attributes/Slope.py:139 | for points on a line of gradient a, the co-spread is a times the spread |
| Regression.OlsRecoversLine | app/attributes/Slope.py:139 | least squares recovers the gradient of points that lie exactly on a line |
| Regression.KeptOnLine | app/attributes/Slope.py:129-135 | masking heights and distances by the same positions keeps points on their line |
| Regression.ApplyLinearRegression | app/attributes/Slope.py:122-142 | the slope is missing iff fewer than five heights are present |
| Regression.SlopeOfFallingLine | app/attributes/Slope.py:139-142 | heights falling at rate s per unit distance at the kept nodes give slope s (the negated gradient) |
| Regression.FallingHeightsPositiveSlope | app/attributes/Slope.py:128-142 | when the kept distances strictly increase and the kept heights strictly decrease, on a line or not, the slope is present and positive |
| Regression.DiscordantSlopePositive | app/attributes/Slope.py:128-142 | when every two kept points are discordant (the farther one is lower), the fit is defined and the slope is present and positive |
| Regression.PairSumIdentity | app/attributes/Slope.py:139 | the sum over all pairs of points of the product of their differences is n times the sum of products minus the product of the sums |
| Regression.SxyFromPairs | app/attributes/Slope.py:139 | n times the co-spread of the fit equals that sum over pairs |
| Regression.DiscordantSxyNegative | app/attributes/Slope.py:139 | over pairwise discordant points the co-spread is negative |
| Regression.MissingNodeIgnored | app/attributes/Slope.py:128-135 | a node with a missing height takes no part in the fit, whatever its distance |
| Regression.AllPresentKept | app/attributes/Slope.py:129-135 | with every height present, every distance is kept in order |
| Regression.UnitSpacingExample | tests/test_Slope.py:28-30 | the first test column at distances 0 .. 4 has slope exactly 8.17 |
| Frames.MissingLabel | app/attributes/Discharge.py:35 | finds a label that is not a row label iff there is one |
| Frames.MaskRowsCells | app/attributes/Discharge.py:35 | every cell of a listed node is missing afterwards, and every other cell is untouched |
| Frames.ReplaceZeroCellsExact | app/attributes/Discharge.py:36 | a cell is missing afterwards iff it was missing or exactly zero, and non-zero values are kept |
| Frames.MaskLikeCells | app/attributes/Slope.py:79 | a cell is missing afterwards iff it or the mask's cell was missing, and is kept where the mask is present |
| Frames.CleanIdempotent | app/attributes/Discharge.py:35-36 | blanking invalid nodes and zeros twice gives the same table as once |
| Frames.CleanCommutes | app/attributes/Discharge.py:35-36 | the two blanking edits commute |
| Frames.Frame.InsertReachColumn | app/attributes/Utilities.py:20 | the table gains the given `reachid` column at position 0, its column count grows by one, and its labels and time-step columns are kept; if the column already exists, ValueError and the table is unchanged |
| Frames.Frame.MaskNodes | app/attributes/Discharge.py:35 | KeyError iff a listed node is not a row label, with the table unchanged; otherwise exactly the listed rows are blanked |
| Frames.Frame.ReplaceZeros | app/attributes/Discharge.py:36 | the table becomes its zero-blanked form, and the row labels are kept |
| Frames.Frame.MaskWhereMissing | app/attributes/Slope.py:79 | the table becomes its masked form, and the row labels are kept |
| Discharge.CleanDischarge | app/attributes/Discharge.py:35-36 | blanking keeps the shape of the discharge table |
| Discharge.CalculateQhatQsd | app/attributes/Discharge.py:44-65 | both result maps have exactly the input keys, and hold the NaN-skipping mean and squared population sd of every reach's cells |
| Discharge.NewDischarge | app/attributes/Discharge.py:27-42 | KeyError iff the basin has no invalid-node list or an invalid node is not in the topology; otherwise the keys are the reach keys, and qhat and qsd are computed from the cleaned, grouped table |
| Discharge.InvalidNodesIgnored | app/attributes/Discharge.py:35 | the values recorded for invalid nodes do not affect the cleaned table |
| Discharge.ZeroIsNoObservation | app/attributes/Discharge.py:36 | a recorded zero is treated exactly like a missing value |
| Discharge.AllMissingReach | app/attributes/Discharge.py:52-62 | qhat is missing iff every cell of the reach is missing, and qsd is missing exactly when qhat is |
| Discharge.QhatQsdExample | tests/test_Discharge.py:16-26 | the test reach has qhat 271/21 and qsd squared 23390/441 |
| Wse.NodeWse | app/attributes/Wse.py:30-31 | zero blanking and the base offset keep the shape of the stage table |
| Wse.NodeWseCell | app/attributes/Wse.py:30-31 | a node elevation is present iff the stage is present and non-zero and the base is present, and it is then stage plus base, with the same base at every step |
| Wse.NewWse | app/attributes/Wse.py:23-35 | wse_node is the reach grouping of the offset table with the input's columns, and wse_reach is its mean series |
| Width.TileWidths | app/attributes/Width.py:48-51 | one row per record and 9862 columns, every cell of row i holding record i's width |
| Width.CreateNodeDict | app/attributes/Width.py:39-58 | exactly the input keys, each reach's width table tiled across all time steps in record order |
| Width.ReachWidthConstant | app/attributes/Width.py:37 | the reach width at any time step is the NaN-skipping mean of the node widths, the same at every step |
| Width.NewWidth | app/attributes/Width.py:27-37 | the node and reach keys are the reach keys; node tables are tiled and reach series are constant means |
| Slope.CoordDictHoldsReach | app/attributes/Slope.py:41-42 | every reach has a key in coord_dict, and its records are that reach's topology rows in order |
| Slope.NodeDistances | app/attributes/Slope.py:98-107 | one distance per node of the reach |
| Slope.NodeDistancesFromStart | app/attributes/Slope.py:98-120 | each distance is measured from the first node, and the first node's distance is 0 when dist(p, p) = 0 |
| Slope.CalculateReach | app/attributes/Slope.py:86-96 | one slope per time step, the regression of that step's column on the reach's node distances; missing iff fewer than five heights are present at that step |
| Slope.CreateReachSlopes | app/attributes/Slope.py:48-61 | KeyError iff a wse reach has no coordinates; otherwise exactly wse_node's keys, each with its reach's slope series |
| Slope.Repeat | app/attributes/Slope.py:69 | the series is repeated on each of the given rows |
| Slope.CreateNodeSlopes | app/attributes/Slope.py:63-84 | exactly slope_reach's keys; each node table has one row per node, missing where wse is missing and the reach slope elsewhere |
| Slope.NewSlope | app/attributes/Slope.py:35-46 | KeyError iff a wse reach is not a reach of the topology; otherwise slope_reach and slope_node have wse_node's keys, with the per-reach slopes broadcast and re-masked |
| Slope.TestReachExample | tests/test_Slope.py:58-64 | the test column at the test distances has slope 0.01325 to five places |
| Slope.TestDistancesSlope | app/attributes/Slope.py:122-142 | at the test distances, the slope of five present heights is the fixed weighted sum of the heights (weights the distances' offsets from their mean), negated and divided by the distances' spread |
| Slope.TestReachColumn1 | tests/test_Slope.py:82 | the second test column at the test distances has slope 0.01199 to five places |
| Slope.TestReachColumn2 | tests/test_Slope.py:83 | the third test column at the test distances has slope 0.01154 to five places |
| Slope.TestReachColumn3 | tests/test_Slope.py:84 | the fourth test column at the test distances has slope 0.01022 to five places |
| Slope.TestReachColumn4 | tests/test_Slope.py:85 | the fifth test column at the test distances has slope 0.00985 to five places |
| Dxarea.ColumnMedians | app/attributes/Dxarea.py:57 | one median per time step, taken across the nodes of that step |
| Dxarea.DxaNode | app/attributes/Dxarea.py:49-60 | the node result has the shape of the inputs |
| Dxarea.DxaReach | app/attributes/Dxarea.py:49-60 | the reach result has the length of the inputs |
| Dxarea.DxaNodeCell | app/attributes/Dxarea.py:57-60 | a cell is missing iff the width or wse is missing, and is otherwise width × (wse − median of the step's present elevations) |
| Dxarea.DxaReachCell | app/attributes/Dxarea.py:57-60 | an entry is missing iff the width or wse is missing, and is otherwise width × (wse − median of the present series) |
| Dxarea.MedianNodeZero | app/attributes/Dxarea.py:57-60 | with an odd number of present elevations, some node has a present elevation and gets 0 wherever its width is present |
| Dxarea.MedianRaise | app/attributes/Dxarea.py:57 | raising a series by c raises its skipna median by c |
| Dxarea.DxaReachDatumFree | app/attributes/Dxarea.py:57-60 | the reach d_x_area does not depend on the elevation datum |
| Dxarea.DxaNodeDatumFree | app/attributes/Dxarea.py:57-60 | the node d_x_area does not depend on the elevation datum |
| Dxarea.ThreeNodeMedian | app/attributes/Dxarea.py:57 | for three nodes with strictly falling elevations, the step's median is the middle node |
| Dxarea.NodeExample | tests/test_Dxarea.py:21-35 | the node test table gives the expected rows, with the middle row all zero |
| Dxarea.ReachExample | tests/test_Dxarea.py:37-49 | the reach test series gives 144, 63.6999, 0, −65.4999, −120.2001 |
| Dxarea.CreateDxaNodeDict | app/attributes/Dxarea.py:28-37 | KeyError iff a width reach has no wse; otherwise exactly width_node's keys, each with its node d_x_area |
| Dxarea.CreateDxaReachDict | app/attributes/Dxarea.py:39-47 | KeyError iff a width reach has no wse series; otherwise exactly width_reach's keys, each with its reach d_x_area |
| Dxarea.NewDxarea | app/attributes/Dxarea.py:21-26 | KeyError iff either lookup misses; otherwise both dictionaries as above |

## Left out

- **File readers.** These are not modelled; their results are inputs:
  `extract_node_data_txt`, `extract_node_data_shp`, `_extract_base_data`,
  and the topology CSV reader. The module writing NetCDF output and the
  glue modules that build file paths and call the constructors are not part
  of this model.
- **Width's table edits.** Width's input is a sequence of shapefile records,
  not a `Frame`, so two in-place edits there are left out:
  - the `reachid` insert into the table built at Width.py:32;
  - the drop of `x`, `y` and `index` from each group (Width.py:45).

  Width.py:33 is the only use of that table, and the drop only removes
  columns that are not used again. The `reachid` insert on the tables of
  Discharge and Wse is modelled (`Utilities.CreateReachDictOn`).
- **Concurrency.** The process pool that fits the reaches' slopes is modelled
  as a sequential loop over the reaches.
- **Geodesic distance.** The distance is a parameter `dist`, not the
  ellipsoid computation.
- **Floating point.** Exact reals replace floats. The test values that are
  proved are proved as exact values or as five-place bounds:
  - the mean series of tests/test_Utilities.py:57-65;
  - qhat and qsd of tests/test_Discharge.py:16-26;
  - the five slopes 0.01325, 0.01199, 0.01154, 0.01022 and 0.00985 of
    tests/test_Slope.py:64 and 81-85, each at the rounded distances of
    tests/test_Slope.py:60;
  - the d_x_area rows and series of tests/test_Dxarea.py:21-49.
- **Geodesic test values.** The distances of tests/test_Slope.py:45 and
  52-56 come from the ellipsoid computation, which `dist` abstracts, so they
  are not proved. For the same reason the slopes of tests/test_Slope.py:81-85
  and 105-109 are proved at the rounded distances of tests/test_Slope.py:60,
  not at distances computed from the test coordinates.
- **Square roots.** qsd is carried as its square, `qsdSquared`.
- **Label alignment.** pandas aligns tables by label; the model aligns them
  by position. Matching shapes are preconditions:
  - the index alignment of the `reachid` insert;
  - `add` of the base elevations;
  - `mask` in Slope;
  - `subtract` and `multiply` in d_x_area;
  - the width and wse tables having the same time steps.
- Regression.ApplyLinearRegression: when all kept distances are equal
  (`Sxx = 0`), scikit-learn returns a gradient of 0. The model requires
  instead that this does not happen (`RegressionDefined`).
- Slope.CalculateReach: requires the fit of every time step to be defined
  (`ReachFits`), for the same reason.
- Slope.CreateReachSlopes: requires every reach's fits to be defined
  (`SlopeInputsFit`), for the same reason.
- Slope.NewSlope: requires every reach's fits to be defined, for the same
  reason.
- **Column labels.** Column labels and index names are not modelled; rows
  and time steps are positions. The width shapefile is assumed to hold
  exactly the fields `x`, `y`, width and `index`.
- Utilities.GetLineNum: the caller's `get_line_num(...) + 1` fails when the
  phrase is missing. That failure belongs to the readers, which are left out.
- **Test data files.** The reach counts of the grouping test (62 reaches,
  43 rows in `008_2483`) depend on a topology data file that is not part of
  this model. `Utilities.GroupCount` states the general rule.
- **Key order.** Dictionary order (pandas sorts the groupby keys) is not
  modelled; the dictionaries are maps.
