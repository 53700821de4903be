/** The data side of the Plotly dashboard (players/player_10/tools/dashboard/builder.py):
    the file-name slug, and the four aggregations that turn a list of run
    results into the heatmap, the per-altruism score buckets, the
    per-altruism component means and the Pareto points. Each aggregation
    fills its buckets in one pass over the results and then reads them out
    in sorted key order. */
module DashboardBuilder {
  import opened Common
  import opened Sorting
  import FlexibleRunner
  import RunMetrics
  import opened SweepAnalysis

  // ---------------------------------------------------------------------
  // Slugs
  // ---------------------------------------------------------------------

  /** The characters `[a-z0-9_-]` a slug may hold. */
  predicate SlugChar(c: char)
  {
    'a' <= c <= 'z' || '0' <= c <= '9' || c == '_' || c == '-'
  }

  predicate IsDash(c: char)
  {
    c == '-'
  }

  /** `s` without its leading characters outside `[a-z0-9_-]`. */
  function DropNonSlug(s: string): (r: string)
    ensures |r| <= |s|
    ensures r == s[|s| - |r|..]
  {
    if s != [] && !SlugChar(s[0]) then DropNonSlug(s[1..]) else s
  }

  /** `re.sub(r'[^a-z0-9_-]+', '-', s)`: every maximal run of characters
      outside the slug alphabet becomes one '-'. */
  function Collapse(s: string): (r: string)
    ensures forall k :: 0 <= k < |r| ==> SlugChar(r[k])
    decreases |s|
  {
    if s == [] then []
    else if SlugChar(s[0]) then [s[0]] + Collapse(s[1..])
    else "-" + Collapse(DropNonSlug(s[1..]))
  }

  /** `_slugify`: `None` and the empty string become "run"; otherwise the
      value is stripped of whitespace, lower-cased, its runs of other
      characters replaced by '-', stripped of '-', and "run" if nothing is
      left. */
  function Slugify(value: Option<string>): string
  {
    var v := if value == None || value == Some("") then "run" else value.value;
    var s := FlexibleRunner.Trim(Collapse(RunMetrics.Lower(FlexibleRunner.Trim(v, FlexibleRunner.IsSpace))), IsDash);
    if s == "" then "run" else s
  }

  /** A string of slug characters is its own collapse. */
  lemma {:induction false} CollapseSlug(s: string)
    requires forall k :: 0 <= k < |s| ==> SlugChar(s[k])
    ensures Collapse(s) == s
  {
    if s != [] {
      CollapseSlug(s[1..]);
    }
  }

  /** A string without upper-case letters is its own lower case. */
  lemma LowerSlug(s: string)
    requires forall k :: 0 <= k < |s| ==> SlugChar(s[k])
    ensures RunMetrics.Lower(s) == s
  {
    assert forall k :: 0 <= k < |s| ==> RunMetrics.LowerChar(s[k]) == s[k];
  }

  /** Trimming keeps a stretch of the string. */
  lemma TrimInside(s: string, p: char -> bool)
    ensures var t := FlexibleRunner.Trim(s, p);
      forall k :: 0 <= k < |t| ==> t[k] in s
  {
    FlexibleRunner.TrimStartSpec(s, p);
    var u := FlexibleRunner.TrimStart(s, p);
    FlexibleRunner.TrimEndSpec(u, p);
    var t := FlexibleRunner.TrimEnd(u, p);
    forall k | 0 <= k < |t| ensures t[k] in s {
      assert t[k] == u[k] == s[|s| - |u| + k];
    }
  }

  /** A slug is never empty, holds only `[a-z0-9_-]`, and neither starts
      nor ends with '-'; `None` and "" give "run". */
  lemma SlugShape(value: Option<string>)
    ensures var r := Slugify(value);
      r != [] &&
      (forall k :: 0 <= k < |r| ==> SlugChar(r[k])) &&
      r[0] != '-' && r[|r| - 1] != '-'
    ensures value == None || value == Some("") ==> Slugify(value) == "run"
  {
    var v := if value == None || value == Some("") then "run" else value.value;
    var c := Collapse(RunMetrics.Lower(FlexibleRunner.Trim(v, FlexibleRunner.IsSpace)));
    var s := FlexibleRunner.Trim(c, IsDash);
    TrimInside(c, IsDash);
    FlexibleRunner.TrimEnds(c, IsDash);
    if value == None || value == Some("") {
      assert v == "run";
      var t := FlexibleRunner.Trim(v, FlexibleRunner.IsSpace);
      FlexibleRunner.TrimClean(v, FlexibleRunner.IsSpace);
      LowerSlug(t);
      CollapseSlug(t);
      FlexibleRunner.TrimClean(t, IsDash);
    }
  }

  /** Slugifying a slug changes nothing. */
  lemma SlugifyIdempotent(value: Option<string>)
    ensures Slugify(Some(Slugify(value))) == Slugify(value)
  {
    var s := Slugify(value);
    assert s != [] && (forall k :: 0 <= k < |s| ==> SlugChar(s[k])) && s[0] != '-' && s[|s| - 1] != '-' by {
      SlugShape(value);
    }
    assert FlexibleRunner.Trim(s, FlexibleRunner.IsSpace) == s by {
      assert !FlexibleRunner.IsSpace(s[0]) && !FlexibleRunner.IsSpace(s[|s| - 1]);
      FlexibleRunner.TrimClean(s, FlexibleRunner.IsSpace);
    }
    assert RunMetrics.Lower(s) == s by { LowerSlug(s); }
    assert Collapse(s) == s by { CollapseSlug(s); }
    assert FlexibleRunner.Trim(s, IsDash) == s by { FlexibleRunner.TrimClean(s, IsDash); }
    assert Some(s) != None && Some(s) != Some("");
  }

  // ---------------------------------------------------------------------
  // What the dashboard reads from a result
  // ---------------------------------------------------------------------

  /** The fields of one run result the aggregations read, each `None` when
      the result or its configuration lacks it or holds `None`:
      `_config_value` for the four knobs, `_metric_value` for the scores,
      and the score breakdown with `None` for a value `float()` rejects. */
  datatype Run = Run(
    altruism: Option<real>,
    tau: Option<real>,
    epsFresh: Option<real>,
    epsMono: Option<real>,
    totalScore: Option<real>,
    p10Total: Option<real>,
    p10Individual: Option<real>,
    early: Option<bool>,
    breakdown: ODict<string, Option<real>>)

  /** `_metric_value(result, 'early_termination')`: the flag as 1.0 or 0.0. */
  function EarlyValue(r: Run): Option<real>
  {
    match r.early
    case None => None
    case Some(b) => Some(if b then 1.0 else 0.0)
  }

  /** `xs` with `x` added unless already there: `set.add`, and the key
      order of a dictionary that gains `x`. */
  function AddNew<T(==)>(xs: seq<T>, x: T): seq<T>
  {
    if x in xs then xs else xs + [x]
  }

  /** The distinct elements of `xs` in order of first appearance. */
  function Distinct<T(==,!new)>(xs: seq<T>): (r: seq<T>)
    ensures forall x :: x in r <==> x in xs
    ensures forall i, j :: 0 <= i < j < |r| ==> r[i] != r[j]
  {
    if xs == [] then [] else AddNew(Distinct(xs[..|xs| - 1]), xs[|xs| - 1])
  }

  lemma DistinctSnoc<T(!new)>(xs: seq<T>, x: T)
    ensures Distinct(xs + [x]) == AddNew(Distinct(xs), x)
  {
    assert (xs + [x])[..|xs|] == xs;
  }

  /** `sorted(xs)` on numbers. */
  function Ascending(xs: seq<real>): (r: seq<real>)
    ensures |r| == |xs| && multiset(r) == multiset(xs)
  {
    SortBy(xs, (a: real, b: real) => a <= b)
  }

  /** Sorting distinct numbers gives them in strictly increasing order. */
  lemma AscendingStrict(xs: seq<real>)
    requires forall i, j :: 0 <= i < j < |xs| ==> xs[i] != xs[j]
    ensures forall i, j :: 0 <= i < j < |Ascending(xs)| ==> Ascending(xs)[i] < Ascending(xs)[j]
    ensures forall x :: x in Ascending(xs) <==> x in xs
  {
    var leq := (a: real, b: real) => a <= b;
    assert TotalPreorder(leq);
    SortBySorted(xs, leq);
    SortByInjective(xs, leq, (x: real) => x);
    forall x ensures x in Ascending(xs) <==> x in xs {
      assert x in Ascending(xs) <==> x in multiset(Ascending(xs));
    }
  }

  // ---------------------------------------------------------------------
  // Heatmap
  // ---------------------------------------------------------------------

  /** The (row, column, metric) samples of the results that have all three,
      in order. */
  function Samples(results: seq<Run>, row: Run -> Option<real>, col: Run -> Option<real>,
                   metric: Run -> Option<real>): (r: seq<(real, real, real)>)
    ensures |r| <= |results|
  {
    if results == [] then []
    else
      var x := results[|results| - 1];
      var rest := Samples(results[..|results| - 1], row, col, metric);
      if row(x).Some? && col(x).Some? && metric(x).Some? then rest + [(row(x).value, col(x).value, metric(x).value)]
      else rest
  }

  /** Result `x` has the row, column and metric values of `t`. */
  predicate Hit(x: Run, row: Run -> Option<real>, col: Run -> Option<real>, metric: Run -> Option<real>,
                t: (real, real, real))
  {
    row(x) == Some(t.0) && col(x) == Some(t.1) && metric(x) == Some(t.2)
  }

  /** A sample comes from a result with all three values, and every such
      result gives one. */
  lemma {:induction false} SamplesSpec(results: seq<Run>, row: Run -> Option<real>, col: Run -> Option<real>,
                                       metric: Run -> Option<real>, t: (real, real, real))
    ensures t in Samples(results, row, col, metric) <==>
      exists k :: 0 <= k < |results| && Hit(results[k], row, col, metric, t)
  {
    if results != [] {
      var n := |results| - 1;
      SamplesSpec(results[..n], row, col, metric, t);
      if t in Samples(results[..n], row, col, metric) {
        var k :| 0 <= k < n && Hit(results[..n][k], row, col, metric, t);
        assert results[k] == results[..n][k];
      }
      if exists k :: 0 <= k < |results| && Hit(results[k], row, col, metric, t) {
        var k :| 0 <= k < |results| && Hit(results[k], row, col, metric, t);
        if k < n {
          assert results[..n][k] == results[k];
        }
      }
    }
  }

  lemma SamplesSnoc(results: seq<Run>, row: Run -> Option<real>, col: Run -> Option<real>,
                    metric: Run -> Option<real>, k: nat)
    requires k < |results|
    ensures var x := results[k];
      Samples(results[..k + 1], row, col, metric) ==
        Samples(results[..k], row, col, metric) +
        (if row(x).Some? && col(x).Some? && metric(x).Some? then [(row(x).value, col(x).value, metric(x).value)] else [])
  {
    assert results[..k + 1][..k] == results[..k];
  }

  function Rows(s: seq<(real, real, real)>): (r: seq<real>)
    ensures |r| == |s| && forall k :: 0 <= k < |s| ==> r[k] == s[k].0
  {
    seq(|s|, k requires 0 <= k < |s| => s[k].0)
  }

  function Cols(s: seq<(real, real, real)>): (r: seq<real>)
    ensures |r| == |s| && forall k :: 0 <= k < |s| ==> r[k] == s[k].1
  {
    seq(|s|, k requires 0 <= k < |s| => s[k].1)
  }

  /** The samples as ((row, column), metric) pairs: `matrix[row][col].append(metric)`. */
  function Cells(s: seq<(real, real, real)>): (r: seq<((real, real), real)>)
    ensures |r| == |s| && forall k :: 0 <= k < |s| ==> r[k] == ((s[k].0, s[k].1), s[k].2)
  {
    seq(|s|, k requires 0 <= k < |s| => ((s[k].0, s[k].1), s[k].2))
  }

  /** A bucket's mean, `None` for an empty bucket. */
  function CellOf(bucket: seq<real>): Option<real>
  {
    if bucket == [] then None else Some(Sum(bucket) / (|bucket| as real))
  }

  /** The cell at (`r`, `c`): the mean of the metrics sampled there. */
  function Cell(s: seq<(real, real, real)>, r: real, c: real): Option<real>
  {
    CellOf(ValuesFor(Cells(s), (r, c)))
  }

  /** The cells of row `r`, one per column. */
  function RowOf(s: seq<(real, real, real)>, r: real, cols: seq<real>): (row: seq<Option<real>>)
    ensures |row| == |cols| && forall j :: 0 <= j < |cols| ==> row[j] == Cell(s, r, cols[j])
  {
    seq(|cols|, j requires 0 <= j < |cols| => Cell(s, r, cols[j]))
  }

  /** One cell per (row, column), in the given orders. */
  function Grid(s: seq<(real, real, real)>, rows: seq<real>, cols: seq<real>): (g: seq<seq<Option<real>>>)
    ensures |g| == |rows| && forall i :: 0 <= i < |rows| ==> g[i] == RowOf(s, rows[i], cols)
  {
    seq(|rows|, i requires 0 <= i < |rows| => RowOf(s, rows[i], cols))
  }

  lemma RowOfSnoc(s: seq<(real, real, real)>, r: real, cols: seq<real>, j: nat)
    requires j < |cols|
    ensures RowOf(s, r, cols[..j + 1]) == RowOf(s, r, cols[..j]) + [Cell(s, r, cols[j])]
  {
  }

  lemma GridSnoc(s: seq<(real, real, real)>, rows: seq<real>, cols: seq<real>, i: nat)
    requires i < |rows|
    ensures Grid(s, rows[..i + 1], cols) == Grid(s, rows[..i], cols) + [RowOf(s, rows[i], cols)]
  {
  }

  datatype Heatmap = Heatmap(rows: seq<real>, cols: seq<real>, grid: seq<seq<Option<real>>>)

  /** `_compute_heatmap_data`: `None` when no result has all three values;
      otherwise the sorted rows and columns and the grid of bucket means. */
  function HeatmapData(results: seq<Run>, row: Run -> Option<real>, col: Run -> Option<real>,
                       metric: Run -> Option<real>): Option<Heatmap>
  {
    var s := Samples(results, row, col, metric);
    var rows := Distinct(Rows(s));
    var cols := Distinct(Cols(s));
    if rows == [] || cols == [] then None
    else
      var rowOrder := Ascending(rows);
      var colOrder := Ascending(cols);
      Some(Heatmap(rowOrder, colOrder, Grid(s, rowOrder, colOrder)))
  }

  /** The buckets and the row and column sets after a pass over samples. */
  ghost function Pass(s: seq<(real, real, real)>): (ODict<(real, real), seq<real>>, seq<real>, seq<real>)
  {
    (AppendAll([], Cells(s)), Distinct(Rows(s)), Distinct(Cols(s)))
  }

  lemma PassSnoc(s: seq<(real, real, real)>, t: (real, real, real))
    ensures Pass(s + [t]) == (AppendTo(Pass(s).0, (t.0, t.1), t.2), AddNew(Pass(s).1, t.0), AddNew(Pass(s).2, t.1))
  {
    assert Cells(s + [t])[..|s|] == Cells(s);
    assert Rows(s + [t]) == Rows(s) + [t.0];
    assert Cols(s + [t]) == Cols(s) + [t.1];
    DistinctSnoc(Rows(s), t.0);
    DistinctSnoc(Cols(s), t.1);
  }

  /** The bucket the pass fills for (`r`, `c`) holds the metrics sampled there. */
  lemma BucketOf(s: seq<(real, real, real)>, r: real, c: real)
    ensures ListOf(AppendAll([], Cells(s)), (r, c)) == ValuesFor(Cells(s), (r, c))
  {
    AppendAllListOf([], Cells(s), (r, c));
    var empty: ODict<(real, real), seq<real>> := [];
    assert !HasKey(empty, (r, c));
  }

  /** One more result: the pass gains its sample, if it has one. */
  lemma PassStep(results: seq<Run>, row: Run -> Option<real>, col: Run -> Option<real>,
                 metric: Run -> Option<real>, k: nat)
    requires k < |results|
    ensures var x := results[k];
      var p := Pass(Samples(results[..k], row, col, metric));
      Pass(Samples(results[..k + 1], row, col, metric)) ==
        if row(x).Some? && col(x).Some? && metric(x).Some?
        then (AppendTo(p.0, (row(x).value, col(x).value), metric(x).value), AddNew(p.1, row(x).value), AddNew(p.2, col(x).value))
        else p
  {
    var x := results[k];
    SamplesSnoc(results, row, col, metric, k);
    var s := Samples(results[..k], row, col, metric);
    if row(x).Some? && col(x).Some? && metric(x).Some? {
      PassSnoc(s, (row(x).value, col(x).value, metric(x).value));
    } else {
      assert Samples(results[..k + 1], row, col, metric) == s + [];
      assert s + [] == s;
    }
  }

  /** The first loop of `_compute_heatmap_data`: each result with all
      three values adds its metric to the bucket of its (row, column) and
      its row and column to the row and column sets. */
  method FillBuckets(results: seq<Run>, row: Run -> Option<real>, col: Run -> Option<real>,
                     metric: Run -> Option<real>)
    returns (matrix: ODict<(real, real), seq<real>>, rows: seq<real>, cols: seq<real>)
    ensures (matrix, rows, cols) == Pass(Samples(results, row, col, metric))
  {
    matrix, rows, cols := [], [], [];
    for k := 0 to |results|
      invariant (matrix, rows, cols) == Pass(Samples(results[..k], row, col, metric))
    {
      var x := results[k];
      PassStep(results, row, col, metric, k);
      var rowValue, colValue, metricValue := row(x), col(x), metric(x);
      if rowValue.None? || colValue.None? || metricValue.None? {
        continue;
      }
      matrix := AppendTo(matrix, (rowValue.value, colValue.value), metricValue.value);
      rows := AddNew(rows, rowValue.value);
      cols := AddNew(cols, colValue.value);
    }
    assert results[..|results|] == results;
  }

  /** The second loop of `_compute_heatmap_data`: for each row and then
      each column, in the sorted orders, the mean of the bucket or `None`. */
  method ReadGrid(ghost s: seq<(real, real, real)>, matrix: ODict<(real, real), seq<real>>,
                  rowOrder: seq<real>, colOrder: seq<real>) returns (grid: seq<seq<Option<real>>>)
    requires matrix == AppendAll([], Cells(s))
    ensures grid == Grid(s, rowOrder, colOrder)
  {
    grid := [];
    for i := 0 to |rowOrder|
      invariant grid == Grid(s, rowOrder[..i], colOrder)
    {
      var rowData: seq<Option<real>> := [];
      for j := 0 to |colOrder|
        invariant rowData == RowOf(s, rowOrder[i], colOrder[..j])
      {
        var bucket := ListOf(matrix, (rowOrder[i], colOrder[j]));
        BucketOf(s, rowOrder[i], colOrder[j]);
        RowOfSnoc(s, rowOrder[i], colOrder, j);
        if bucket != [] {
          rowData := rowData + [Some(Sum(bucket) / (|bucket| as real))];
        } else {
          rowData := rowData + [None];
        }
      }
      assert colOrder[..|colOrder|] == colOrder;
      GridSnoc(s, rowOrder, colOrder, i);
      grid := grid + [rowData];
    }
    assert rowOrder[..|rowOrder|] == rowOrder;
  }

  /** `_compute_heatmap_data`: the buckets, `None` without rows or columns,
      otherwise the grid in sorted row and column order. */
  method ComputeHeatmapData(results: seq<Run>, row: Run -> Option<real>, col: Run -> Option<real>,
                            metric: Run -> Option<real>) returns (r: Option<Heatmap>)
    ensures r == HeatmapData(results, row, col, metric)
  {
    var matrix, rows, cols := FillBuckets(results, row, col, metric);
    ghost var s := Samples(results, row, col, metric);
    if rows == [] || cols == [] {
      return None;
    }
    var rowOrder := Ascending(rows);
    var colOrder := Ascending(cols);
    var grid := ReadGrid(s, matrix, rowOrder, colOrder);
    r := Some(Heatmap(rowOrder, colOrder, grid));
  }

  /** There are samples exactly when some result has all three values. */
  lemma SamplesEmpty(results: seq<Run>, row: Run -> Option<real>, col: Run -> Option<real>,
                     metric: Run -> Option<real>)
    ensures Samples(results, row, col, metric) == [] <==>
      forall k :: 0 <= k < |results| ==> row(results[k]).None? || col(results[k]).None? || metric(results[k]).None?
  {
    var s := Samples(results, row, col, metric);
    if s != [] {
      SamplesSpec(results, row, col, metric, s[0]);
    }
    forall k | 0 <= k < |results| && row(results[k]).Some? && col(results[k]).Some? && metric(results[k]).Some?
      ensures s != []
    {
      var x := results[k];
      SamplesSpec(results, row, col, metric, (row(x).value, col(x).value, metric(x).value));
    }
  }

  /** The heatmap is `None` exactly when no result has a row, a column and
      a metric value. */
  lemma HeatmapNone(results: seq<Run>, row: Run -> Option<real>, col: Run -> Option<real>,
                    metric: Run -> Option<real>)
    ensures HeatmapData(results, row, col, metric) == None <==>
      forall k :: 0 <= k < |results| ==> row(results[k]).None? || col(results[k]).None? || metric(results[k]).None?
  {
    var s := Samples(results, row, col, metric);
    SamplesEmpty(results, row, col, metric);
    if s != [] {
      assert Rows(s)[0] in Distinct(Rows(s));
      assert Cols(s)[0] in Distinct(Cols(s));
    }
  }

  /** `x` is a sampled row value exactly when some result with all three
      values has row `x`. */
  lemma RowsSpec(results: seq<Run>, row: Run -> Option<real>, col: Run -> Option<real>,
                 metric: Run -> Option<real>, x: real)
    ensures x in Rows(Samples(results, row, col, metric)) <==>
      exists k :: 0 <= k < |results| && row(results[k]) == Some(x) && col(results[k]).Some? && metric(results[k]).Some?
  {
    var s := Samples(results, row, col, metric);
    if x in Rows(s) {
      var idx :| 0 <= idx < |s| && Rows(s)[idx] == x;
      SamplesSpec(results, row, col, metric, s[idx]);
    }
    if exists k :: 0 <= k < |results| && row(results[k]) == Some(x) && col(results[k]).Some? && metric(results[k]).Some? {
      var k :| 0 <= k < |results| && row(results[k]) == Some(x) && col(results[k]).Some? && metric(results[k]).Some?;
      var t := (x, col(results[k]).value, metric(results[k]).value);
      SamplesSpec(results, row, col, metric, t);
      var idx :| 0 <= idx < |s| && s[idx] == t;
      assert Rows(s)[idx] == x;
    }
  }

  /** `y` is a sampled column value exactly when some result with all
      three values has column `y`. */
  lemma ColsSpec(results: seq<Run>, row: Run -> Option<real>, col: Run -> Option<real>,
                 metric: Run -> Option<real>, y: real)
    ensures y in Cols(Samples(results, row, col, metric)) <==>
      exists k :: 0 <= k < |results| && row(results[k]).Some? && col(results[k]) == Some(y) && metric(results[k]).Some?
  {
    var s := Samples(results, row, col, metric);
    if y in Cols(s) {
      var idx :| 0 <= idx < |s| && Cols(s)[idx] == y;
      SamplesSpec(results, row, col, metric, s[idx]);
    }
    if exists k :: 0 <= k < |results| && row(results[k]).Some? && col(results[k]) == Some(y) && metric(results[k]).Some? {
      var k :| 0 <= k < |results| && row(results[k]).Some? && col(results[k]) == Some(y) && metric(results[k]).Some?;
      var t := (row(results[k]).value, y, metric(results[k]).value);
      SamplesSpec(results, row, col, metric, t);
      var idx :| 0 <= idx < |s| && s[idx] == t;
      assert Cols(s)[idx] == y;
    }
  }

  /** The heatmap's rows are the row values of the results that have all
      three values, each once and in increasing order; likewise its columns;
      and the grid has one cell per row and column. */
  lemma HeatmapAxes(results: seq<Run>, row: Run -> Option<real>, col: Run -> Option<real>,
                    metric: Run -> Option<real>, h: Heatmap)
    requires HeatmapData(results, row, col, metric) == Some(h)
    ensures forall i, j :: 0 <= i < j < |h.rows| ==> h.rows[i] < h.rows[j]
    ensures forall i, j :: 0 <= i < j < |h.cols| ==> h.cols[i] < h.cols[j]
    ensures forall x :: x in h.rows <==>
      exists k :: 0 <= k < |results| && row(results[k]) == Some(x) && col(results[k]).Some? && metric(results[k]).Some?
    ensures forall y :: y in h.cols <==>
      exists k :: 0 <= k < |results| && row(results[k]).Some? && col(results[k]) == Some(y) && metric(results[k]).Some?
    ensures |h.grid| == |h.rows| && forall i :: 0 <= i < |h.rows| ==> |h.grid[i]| == |h.cols|
  {
    var s := Samples(results, row, col, metric);
    var rows := Distinct(Rows(s));
    var cols := Distinct(Cols(s));
    assert h == Heatmap(Ascending(rows), Ascending(cols), Grid(s, Ascending(rows), Ascending(cols)));
    AscendingStrict(rows);
    AscendingStrict(cols);
    forall x ensures x in h.rows <==>
      exists k :: 0 <= k < |results| && row(results[k]) == Some(x) && col(results[k]).Some? && metric(results[k]).Some?
    {
      assert x in h.rows <==> x in Rows(s);
      RowsSpec(results, row, col, metric, x);
    }
    forall y ensures y in h.cols <==>
      exists k :: 0 <= k < |results| && row(results[k]).Some? && col(results[k]) == Some(y) && metric(results[k]).Some?
    {
      assert y in h.cols <==> y in Cols(s);
      ColsSpec(results, row, col, metric, y);
    }
  }

  /** A cell's bucket holds metric `m` exactly when some result has that
      row, that column and metric `m`. */
  lemma BucketSpec(results: seq<Run>, row: Run -> Option<real>, col: Run -> Option<real>,
                   metric: Run -> Option<real>, r: real, c: real, m: real)
    ensures m in ValuesFor(Cells(Samples(results, row, col, metric)), (r, c)) <==>
      exists k :: 0 <= k < |results| && Hit(results[k], row, col, metric, (r, c, m))
  {
    var s := Samples(results, row, col, metric);
    ValuesForSpec(Cells(s), (r, c), m);
    SamplesSpec(results, row, col, metric, (r, c, m));
    if ((r, c), m) in Cells(s) {
      var k :| 0 <= k < |s| && Cells(s)[k] == ((r, c), m);
      assert s[k] == (r, c, m);
    }
    if (r, c, m) in s {
      var k :| 0 <= k < |s| && s[k] == (r, c, m);
      assert Cells(s)[k] == ((r, c), m);
    }
  }

  /** A cell is `None` exactly when no result has its row, its column and a
      metric; otherwise it is the mean of those metrics, so it lies between
      the smallest and the largest of them. */
  lemma HeatmapCell(results: seq<Run>, row: Run -> Option<real>, col: Run -> Option<real>,
                    metric: Run -> Option<real>, h: Heatmap, i: nat, j: nat)
    requires HeatmapData(results, row, col, metric) == Some(h)
    requires i < |h.rows| && j < |h.cols|
    ensures |h.grid| == |h.rows| && |h.grid[i]| == |h.cols|
    ensures var bucket := ValuesFor(Cells(Samples(results, row, col, metric)), (h.rows[i], h.cols[j]));
      (h.grid[i][j] == None <==> bucket == []) &&
      (h.grid[i][j] != None ==>
        (bucket != [] && h.grid[i][j] == Some(Mean(bucket)) && MinOf(bucket) <= h.grid[i][j].value <= MaxOf(bucket)))
  {
    var s := Samples(results, row, col, metric);
    var bucket := ValuesFor(Cells(s), (h.rows[i], h.cols[j]));
    HeatmapGrid(results, row, col, metric, h);
    GridCell(s, h.rows, h.cols, i, j);
    if bucket != [] {
      MeanBounds(bucket, MinOf(bucket), MaxOf(bucket));
    }
  }

  lemma HeatmapGrid(results: seq<Run>, row: Run -> Option<real>, col: Run -> Option<real>,
                    metric: Run -> Option<real>, h: Heatmap)
    requires HeatmapData(results, row, col, metric) == Some(h)
    ensures h.grid == Grid(Samples(results, row, col, metric), h.rows, h.cols)
  {
  }

  lemma GridCell(s: seq<(real, real, real)>, rows: seq<real>, cols: seq<real>, i: nat, j: nat)
    requires i < |rows| && j < |cols|
    ensures |Grid(s, rows, cols)| == |rows| && |Grid(s, rows, cols)[i]| == |cols|
    ensures Grid(s, rows, cols)[i][j] == CellOf(ValuesFor(Cells(s), (rows[i], cols[j])))
  {
    assert Grid(s, rows, cols)[i] == RowOf(s, rows[i], cols);
  }

  // ---------------------------------------------------------------------
  // Dictionaries read out in sorted key order
  // ---------------------------------------------------------------------

  /** Sorting the pairs of a dictionary with distinct keys: the result is
      sorted, its keys stay distinct, and it answers every lookup as the
      dictionary did. */
  lemma SortedDict<K(!new), V(!new)>(d: ODict<K, V>, leq: ((K, V), (K, V)) -> bool)
    requires DistinctKeys(d) && TotalPreorder(leq)
    ensures SortedBy(SortBy(d, leq), leq)
    ensures DistinctKeys(SortBy(d, leq))
    ensures forall k :: HasKey(SortBy(d, leq), k) <==> HasKey(d, k)
    ensures forall k :: HasKey(d, k) ==> Get(SortBy(d, leq), k) == Get(d, k)
  {
    var first := (p: (K, V)) => p.0;
    assert Injective(d, first);
    SortBySorted(d, leq);
    SortByInjective(d, leq, first);
    var e := SortBy(d, leq);
    assert DistinctKeys(e) by {
      forall i, j | 0 <= i < j < |e| ensures e[i].0 != e[j].0 {
        assert first(e[i]) != first(e[j]);
      }
    }
    forall k ensures (HasKey(e, k) <==> HasKey(d, k)) && (HasKey(d, k) ==> Get(e, k) == Get(d, k)) {
      SameGetUnderPermutation(d, e, k);
    }
  }

  /** Pairs ordered by their (numeric) key. */
  predicate KeyLeq<V>(p: (real, V), q: (real, V))
  {
    p.0 <= q.0
  }

  // ---------------------------------------------------------------------
  // Scores by altruism
  // ---------------------------------------------------------------------

  function AltruismOf(x: Run): Option<real> { x.altruism }
  function TotalOf(x: Run): Option<real> { x.totalScore }
  function P10TotalOf(x: Run): Option<real> { x.p10Total }

  /** The values `f` has on the results whose `keyOf` is `q`, in order,
      skipping the results where `f` has none. */
  function Picked<K(==)>(results: seq<Run>, keyOf: Run -> Option<K>, q: K, f: Run -> Option<real>): (r: seq<real>)
    ensures |r| <= |results|
  {
    if results == [] then []
    else
      var x := results[|results| - 1];
      Picked(results[..|results| - 1], keyOf, q, f) + (if keyOf(x) == Some(q) && f(x).Some? then [f(x).value] else [])
  }

  lemma PickedSnoc<K>(results: seq<Run>, keyOf: Run -> Option<K>, q: K, f: Run -> Option<real>, k: nat)
    requires k < |results|
    ensures Picked(results[..k + 1], keyOf, q, f) ==
      Picked(results[..k], keyOf, q, f) + (if keyOf(results[k]) == Some(q) && f(results[k]).Some? then [f(results[k]).value] else [])
  {
    assert results[..k + 1][..k] == results[..k];
  }

  /** Some result with key `q` has value `v`. */
  ghost predicate Picks<K>(results: seq<Run>, keyOf: Run -> Option<K>, q: K, f: Run -> Option<real>, v: real)
  {
    exists k :: 0 <= k < |results| && keyOf(results[k]) == Some(q) && f(results[k]) == Some(v)
  }

  lemma PicksSnoc<K>(results: seq<Run>, keyOf: Run -> Option<K>, q: K, f: Run -> Option<real>, v: real)
    requires results != []
    ensures var n := |results| - 1;
      Picks(results, keyOf, q, f, v) <==>
        Picks(results[..n], keyOf, q, f, v) || (keyOf(results[n]) == Some(q) && f(results[n]) == Some(v))
  {
    assert forall k :: 0 <= k < |results| - 1 ==> results[..|results| - 1][k] == results[k];
  }

  /** A value is picked exactly when some result with key `q` has it. */
  lemma {:induction false} PickedSpec<K>(results: seq<Run>, keyOf: Run -> Option<K>, q: K, f: Run -> Option<real>, v: real)
    ensures v in Picked(results, keyOf, q, f) <==> exists k :: 0 <= k < |results| && keyOf(results[k]) == Some(q) && f(results[k]) == Some(v)
  {
    if results != [] {
      var n := |results| - 1;
      var front := results[..n];
      var x := results[n];
      var p := Picked(front, keyOf, q, f);
      var tail := if keyOf(x) == Some(q) && f(x).Some? then [f(x).value] else [];
      assert Picked(results, keyOf, q, f) == p + tail;
      assert v in p <==> Picks(front, keyOf, q, f, v) by {
        PickedSpec(front, keyOf, q, f, v);
      }
      assert v in tail <==> keyOf(x) == Some(q) && f(x) == Some(v);
      PicksSnoc(results, keyOf, q, f, v);
    }
  }

  /** The two lists `_collect_scores_by_altruism` keeps per altruism. */
  datatype Scores = Scores(total: seq<real>, player10: seq<real>)

  /** The buckets after the results, key order that of first creation: a
      result with an altruism value appends its total score, then its
      Player10 score, to that altruism's lists, creating the bucket on the
      first append. */
  function ScoreBuckets(results: seq<Run>): ODict<real, Scores>
  {
    if results == [] then []
    else
      var b := ScoreBuckets(results[..|results| - 1]);
      var x := results[|results| - 1];
      if x.altruism.None? then b
      else
        var a := x.altruism.value;
        var b1 := if x.totalScore.Some? then
          var prior := GetOr(b, a, Scores([], []));
          Put(b, a, prior.(total := prior.total + [x.totalScore.value]))
        else b;
        if x.p10Total.Some? then
          var prior := GetOr(b1, a, Scores([], []));
          Put(b1, a, prior.(player10 := prior.player10 + [x.p10Total.value]))
        else b1
  }

  /** `_collect_scores_by_altruism`: `None` without any bucket, otherwise the
      buckets sorted by altruism. */
  function ScoresByAltruism(results: seq<Run>): Option<ODict<real, Scores>>
  {
    var b := ScoreBuckets(results);
    if b == [] then None else Some(SortBy(b, KeyLeq))
  }

  lemma ScoreBucketsSnoc(results: seq<Run>, k: nat)
    requires k < |results|
    ensures var b := ScoreBuckets(results[..k]);
      var x := results[k];
      ScoreBuckets(results[..k + 1]) ==
        if x.altruism.None? then b
        else
          var a := x.altruism.value;
          var b1 := if x.totalScore.Some? then
            var prior := GetOr(b, a, Scores([], []));
            Put(b, a, prior.(total := prior.total + [x.totalScore.value]))
          else b;
          if x.p10Total.Some? then
            var prior := GetOr(b1, a, Scores([], []));
            Put(b1, a, prior.(player10 := prior.player10 + [x.p10Total.value]))
          else b1
  {
    assert results[..k + 1][..k] == results[..k];
  }

  /** The loop of `_collect_scores_by_altruism`. */
  method CollectScoresByAltruism(results: seq<Run>) returns (r: Option<ODict<real, Scores>>)
    ensures r == ScoresByAltruism(results)
  {
    var buckets: ODict<real, Scores> := [];
    for k := 0 to |results|
      invariant buckets == ScoreBuckets(results[..k])
    {
      ScoreBucketsSnoc(results, k);
      var x := results[k];
      var altruism := x.altruism;
      if altruism.None? {
        continue;
      }
      var totalValue := x.totalScore;
      if totalValue.Some? {
        var prior := GetOr(buckets, altruism.value, Scores([], []));
        buckets := Put(buckets, altruism.value, prior.(total := prior.total + [totalValue.value]));
      }
      var p10Value := x.p10Total;
      if p10Value.Some? {
        var prior := GetOr(buckets, altruism.value, Scores([], []));
        buckets := Put(buckets, altruism.value, prior.(player10 := prior.player10 + [p10Value.value]));
      }
    }
    assert results[..|results|] == results;
    if buckets == [] {
      return None;
    }
    r := Some(SortBy(buckets, KeyLeq));
  }

  /** Altruism `a` has a bucket exactly when some result with that altruism
      has a total or a Player10 score, and the bucket holds those scores in
      order; no altruism has two buckets. */
  lemma {:induction false} ScoreBucketsSpec(results: seq<Run>, a: real)
    ensures DistinctKeys(ScoreBuckets(results))
    ensures HasKey(ScoreBuckets(results), a) <==>
      Picked(results, AltruismOf, a, TotalOf) != [] || Picked(results, AltruismOf, a, P10TotalOf) != []
    ensures GetOr(ScoreBuckets(results), a, Scores([], [])) ==
      Scores(Picked(results, AltruismOf, a, TotalOf), Picked(results, AltruismOf, a, P10TotalOf))
  {
    if results != [] {
      var n := |results| - 1;
      var x := results[n];
      var b := ScoreBuckets(results[..n]);
      ScoreBucketsSpec(results[..n], a);
      assert results[..n + 1] == results;
      ScoreBucketsSnoc(results, n);
      PickedSnoc(results, AltruismOf, a, TotalOf, n);
      PickedSnoc(results, AltruismOf, a, P10TotalOf, n);
      if x.altruism.Some? {
        var c := x.altruism.value;
        ScoreBucketsSpec(results[..n], c);
        var prior := GetOr(b, c, Scores([], []));
        var b1 := if x.totalScore.Some? then Put(b, c, prior.(total := prior.total + [x.totalScore.value])) else b;
        if x.totalScore.Some? {
          PutThenGet(b, c, prior.(total := prior.total + [x.totalScore.value]), a);
          PutKeepsDistinct(b, c, prior.(total := prior.total + [x.totalScore.value]));
        }
        if x.p10Total.Some? {
          var prior1 := GetOr(b1, c, Scores([], []));
          PutThenGet(b1, c, prior1.(player10 := prior1.player10 + [x.p10Total.value]), a);
          PutThenGet(b1, c, prior1.(player10 := prior1.player10 + [x.p10Total.value]), c);
          PutKeepsDistinct(b1, c, prior1.(player10 := prior1.player10 + [x.p10Total.value]));
          if x.totalScore.Some? {
            PutThenGet(b, c, prior.(total := prior.total + [x.totalScore.value]), c);
          }
        }
      }
    }
  }

  /** A result with an altruism value and a total or Player10 score gives
      its altruism a bucket. */
  lemma ScoredResultHasBucket(results: seq<Run>, k: nat)
    requires k < |results| && results[k].altruism.Some?
    requires results[k].totalScore.Some? || results[k].p10Total.Some?
    ensures HasKey(ScoreBuckets(results), results[k].altruism.value)
  {
    var a := results[k].altruism.value;
    ScoreBucketsSpec(results, a);
    if results[k].totalScore.Some? {
      PickedSpec(results, AltruismOf, a, TotalOf, results[k].totalScore.value);
    } else {
      PickedSpec(results, AltruismOf, a, P10TotalOf, results[k].p10Total.value);
    }
  }

  /** Every bucket comes from a result with that altruism and a score. */
  lemma BucketHasScoredResult(results: seq<Run>, a: real) returns (k: nat)
    requires HasKey(ScoreBuckets(results), a)
    ensures k < |results| && results[k].altruism == Some(a)
    ensures results[k].totalScore.Some? || results[k].p10Total.Some?
  {
    ScoreBucketsSpec(results, a);
    var t := Picked(results, AltruismOf, a, TotalOf);
    var u := Picked(results, AltruismOf, a, P10TotalOf);
    if t != [] {
      PickedSpec(results, AltruismOf, a, TotalOf, t[0]);
      k :| 0 <= k < |results| && AltruismOf(results[k]) == Some(a) && TotalOf(results[k]) == Some(t[0]);
    } else {
      PickedSpec(results, AltruismOf, a, P10TotalOf, u[0]);
      k :| 0 <= k < |results| && AltruismOf(results[k]) == Some(a) && P10TotalOf(results[k]) == Some(u[0]);
    }
  }

  /** `_collect_scores_by_altruism` is `None` exactly when no result has an
      altruism value together with a total or a Player10 score. */
  lemma ScoresByAltruismNone(results: seq<Run>)
    ensures ScoresByAltruism(results) == None <==>
      forall k :: 0 <= k < |results| ==> results[k].altruism.None? || (results[k].totalScore.None? && results[k].p10Total.None?)
  {
    var b := ScoreBuckets(results);
    if b != [] {
      assert HasKey(b, b[0].0) by { assert Keys(b)[0] == b[0].0; }
      var k := BucketHasScoredResult(results, b[0].0);
    }
    forall k | 0 <= k < |results| && results[k].altruism.Some? && (results[k].totalScore.Some? || results[k].p10Total.Some?)
      ensures b != []
    {
      ScoredResultHasBucket(results, k);
    }
  }

  /** Otherwise its keys increase, and each holds the total and the
      Player10 scores of the results with that altruism, in order. */
  lemma ScoresByAltruismSpec(results: seq<Run>, d: ODict<real, Scores>)
    requires ScoresByAltruism(results) == Some(d)
    ensures forall i, j :: 0 <= i < j < |d| ==> d[i].0 < d[j].0
    ensures forall i :: 0 <= i < |d| ==>
      d[i].1 == Scores(Picked(results, AltruismOf, d[i].0, TotalOf), Picked(results, AltruismOf, d[i].0, P10TotalOf))
  {
    var b := ScoreBuckets(results);
    ScoreBucketsSpec(results, 0.0);
    assert TotalPreorder(KeyLeq<Scores>);
    SortedDict(b, KeyLeq);
    forall i | 0 <= i < |d|
      ensures d[i].1 == Scores(Picked(results, AltruismOf, d[i].0, TotalOf), Picked(results, AltruismOf, d[i].0, P10TotalOf))
    {
      GetUnique(d, i);
      ScoreBucketsSpec(results, d[i].0);
    }
  }

  /** Its keys are exactly the altruisms of the results with a total or a
      Player10 score. */
  lemma ScoresByAltruismKeys(results: seq<Run>, d: ODict<real, Scores>)
    requires ScoresByAltruism(results) == Some(d)
    ensures forall a :: HasKey(d, a) <==>
      exists k :: 0 <= k < |results| && results[k].altruism == Some(a) && (results[k].totalScore.Some? || results[k].p10Total.Some?)
  {
    var b := ScoreBuckets(results);
    ScoreBucketsSpec(results, 0.0);
    assert TotalPreorder(KeyLeq<Scores>);
    SortedDict(b, KeyLeq);
    forall a ensures HasKey(d, a) <==>
      exists k :: 0 <= k < |results| && results[k].altruism == Some(a) && (results[k].totalScore.Some? || results[k].p10Total.Some?)
    {
      if HasKey(d, a) {
        var k := BucketHasScoredResult(results, a);
      }
      if exists k :: 0 <= k < |results| && results[k].altruism == Some(a) && (results[k].totalScore.Some? || results[k].p10Total.Some?) {
        var k :| 0 <= k < |results| && results[k].altruism == Some(a) && (results[k].totalScore.Some? || results[k].p10Total.Some?);
        ScoredResultHasBucket(results, k);
      }
    }
  }

  // ---------------------------------------------------------------------
  // Component means by altruism
  // ---------------------------------------------------------------------

  /** The keys of `COMPONENT_LABELS`, in order. */
  const ComponentKeys: seq<string> := ["importance", "coherence", "freshness", "nonmonotonousness"]

  /** `breakdown.get(key)` as a number: `None` when absent, `None` or not
      convertible. */
  function ComponentOf(x: Run, key: string): Option<real>
  {
    if HasKey(x.breakdown, key) then Get(x.breakdown, key) else None
  }

  /** `sums[a][key]` and `counts[a][key]` of the nested default dictionaries. */
  function SumAt(sums: ODict<real, ODict<string, real>>, a: real, key: string): real
  {
    GetOr(GetOr(sums, a, []), key, 0.0)
  }

  function CountAt(counts: ODict<real, ODict<string, nat>>, a: real, key: string): nat
  {
    GetOr(GetOr(counts, a, []), key, 0)
  }

  /** `sums[a][key] += v`. */
  function AddSum(sums: ODict<real, ODict<string, real>>, a: real, key: string, v: real): ODict<real, ODict<string, real>>
  {
    var inner := GetOr(sums, a, []);
    Put(sums, a, Put(inner, key, GetOr(inner, key, 0.0) + v))
  }

  /** `counts[a][key] += 1`. */
  function AddCount(counts: ODict<real, ODict<string, nat>>, a: real, key: string): ODict<real, ODict<string, nat>>
  {
    var inner := GetOr(counts, a, []);
    Put(counts, a, Put(inner, key, GetOr(inner, key, 0) + 1))
  }

  lemma AddSumKeys(sums: ODict<real, ODict<string, real>>, a: real, key: string, v: real, b: real)
    requires DistinctKeys(sums)
    ensures DistinctKeys(AddSum(sums, a, key, v))
    ensures HasKey(AddSum(sums, a, key, v), b) <==> HasKey(sums, b) || b == a
  {
    var inner := GetOr(sums, a, []);
    var updated := Put(inner, key, GetOr(inner, key, 0.0) + v);
    PutThenGet(sums, a, updated, b);
    PutKeepsDistinct(sums, a, updated);
  }

  lemma AddSumAt(sums: ODict<real, ODict<string, real>>, a: real, key: string, v: real, b: real, q: string)
    ensures SumAt(AddSum(sums, a, key, v), b, q) == SumAt(sums, b, q) + (if b == a && q == key then v else 0.0)
  {
    var inner := GetOr(sums, a, []);
    var cur := GetOr(inner, key, 0.0);
    var updated := Put(inner, key, cur + v);
    assert AddSum(sums, a, key, v) == Put(sums, a, updated);
    var innerB := GetOr(Put(sums, a, updated), b, []);
    assert innerB == if b == a then updated else GetOr(sums, b, []) by {
      PutThenGetOr(sums, a, updated, b, []);
    }
    if b == a {
      assert GetOr(updated, q, 0.0) == if q == key then cur + v else GetOr(inner, q, 0.0) by {
        PutThenGetOr(inner, key, cur + v, q, 0.0);
      }
    }
  }

  lemma AddCountAt(counts: ODict<real, ODict<string, nat>>, a: real, key: string, b: real, q: string)
    ensures CountAt(AddCount(counts, a, key), b, q) == CountAt(counts, b, q) + (if b == a && q == key then 1 else 0)
  {
    var inner := GetOr(counts, a, []);
    var cur := GetOr(inner, key, 0);
    var updated := Put(inner, key, cur + 1);
    assert AddCount(counts, a, key) == Put(counts, a, updated);
    var innerB := GetOr(Put(counts, a, updated), b, []);
    assert innerB == if b == a then updated else GetOr(counts, b, []) by {
      PutThenGetOr(counts, a, updated, b, []);
    }
    if b == a {
      assert GetOr(updated, q, 0) == if q == key then cur + 1 else GetOr(inner, q, 0) by {
        PutThenGetOr(inner, key, cur + 1, q, 0);
      }
    }
  }

  /** The inner loop of `_component_means_by_altruism` over `keys`, for a
      result `x` of altruism `a`. */
  function AddComponents(sums: ODict<real, ODict<string, real>>, counts: ODict<real, ODict<string, nat>>,
                         a: real, x: Run, keys: seq<string>): (ODict<real, ODict<string, real>>, ODict<real, ODict<string, nat>>)
  {
    if keys == [] then (sums, counts)
    else
      var (s, c) := AddComponents(sums, counts, a, x, keys[..|keys| - 1]);
      var key := keys[|keys| - 1];
      match ComponentOf(x, key)
      case None => (s, c)
      case Some(v) => (AddSum(s, a, key, v), AddCount(c, a, key))
  }

  /** Both dictionaries after the results: each result with an altruism
      value adds each of its component values. */
  function ComponentTotals(results: seq<Run>): (ODict<real, ODict<string, real>>, ODict<real, ODict<string, nat>>)
  {
    if results == [] then ([], [])
    else
      var (s, c) := ComponentTotals(results[..|results| - 1]);
      var x := results[|results| - 1];
      if x.altruism.None? then (s, c) else AddComponents(s, c, x.altruism.value, x, ComponentKeys)
  }

  /** The mean kept for (`a`, `key`): the sum over the count, 0.0 without
      values. */
  function MeanAt(sums: ODict<real, ODict<string, real>>, counts: ODict<real, ODict<string, nat>>, a: real, key: string): real
  {
    var c := CountAt(counts, a, key);
    if c != 0 then SumAt(sums, a, key) / (c as real) else 0.0
  }

  function Column(sums: ODict<real, ODict<string, real>>, counts: ODict<real, ODict<string, nat>>,
                  altruisms: seq<real>, key: string): (r: seq<real>)
    ensures |r| == |altruisms| && forall i :: 0 <= i < |altruisms| ==> r[i] == MeanAt(sums, counts, altruisms[i], key)
  {
    seq(|altruisms|, i requires 0 <= i < |altruisms| => MeanAt(sums, counts, altruisms[i], key))
  }

  /** One series per component key, in `COMPONENT_LABELS` order. */
  function Series(sums: ODict<real, ODict<string, real>>, counts: ODict<real, ODict<string, nat>>,
                  altruisms: seq<real>): (r: ODict<string, seq<real>>)
    ensures |r| == |ComponentKeys|
    ensures forall n :: 0 <= n < |ComponentKeys| ==> r[n] == (ComponentKeys[n], Column(sums, counts, altruisms, ComponentKeys[n]))
  {
    seq(|ComponentKeys|, n requires 0 <= n < |ComponentKeys| => (ComponentKeys[n], Column(sums, counts, altruisms, ComponentKeys[n])))
  }

  datatype ComponentMeans = ComponentMeans(altruisms: seq<real>, series: ODict<string, seq<real>>)

  /** `_component_means_by_altruism`: `None` when no sum was kept; otherwise
      the sorted altruisms and each component's series of means. */
  function ComponentMeansByAltruism(results: seq<Run>): Option<ComponentMeans>
  {
    var (sums, counts) := ComponentTotals(results);
    if sums == [] then None
    else
      var altruisms := Ascending(Keys(sums));
      Some(ComponentMeans(altruisms, Series(sums, counts, altruisms)))
  }

  lemma AddComponentsSnoc(sums: ODict<real, ODict<string, real>>, counts: ODict<real, ODict<string, nat>>,
                          a: real, x: Run, m: nat)
    requires m < |ComponentKeys|
    ensures var (s, c) := AddComponents(sums, counts, a, x, ComponentKeys[..m]);
      var key := ComponentKeys[m];
      AddComponents(sums, counts, a, x, ComponentKeys[..m + 1]) ==
        match ComponentOf(x, key)
        case None => (s, c)
        case Some(v) => (AddSum(s, a, key, v), AddCount(c, a, key))
  {
    var keys := ComponentKeys[..m + 1];
    assert keys[..|keys| - 1] == ComponentKeys[..m] && keys[|keys| - 1] == ComponentKeys[m];
    AddComponentsLast(sums, counts, a, x, keys);
  }

  lemma AddComponentsLast(sums: ODict<real, ODict<string, real>>, counts: ODict<real, ODict<string, nat>>,
                          a: real, x: Run, keys: seq<string>)
    requires keys != []
    ensures var (s, c) := AddComponents(sums, counts, a, x, keys[..|keys| - 1]);
      var key := keys[|keys| - 1];
      AddComponents(sums, counts, a, x, keys) ==
        match ComponentOf(x, key)
        case None => (s, c)
        case Some(v) => (AddSum(s, a, key, v), AddCount(c, a, key))
  {
  }

  lemma ComponentTotalsSnoc(results: seq<Run>, k: nat)
    requires k < |results|
    ensures var (s, c) := ComponentTotals(results[..k]);
      var x := results[k];
      ComponentTotals(results[..k + 1]) == if x.altruism.None? then (s, c) else AddComponents(s, c, x.altruism.value, x, ComponentKeys)
  {
    assert results[..k + 1][..k] == results[..k];
  }

  /** The first loop of `_component_means_by_altruism`: every component
      value of every result with an altruism value goes into the sums and
      counts. */
  method FillComponentTotals(results: seq<Run>)
    returns (sums: ODict<real, ODict<string, real>>, counts: ODict<real, ODict<string, nat>>)
    ensures (sums, counts) == ComponentTotals(results)
  {
    sums, counts := [], [];
    for k := 0 to |results|
      invariant (sums, counts) == ComponentTotals(results[..k])
    {
      ComponentTotalsSnoc(results, k);
      var x := results[k];
      var altruism := x.altruism;
      if altruism.None? {
        continue;
      }
      ghost var start := (sums, counts);
      for m := 0 to |ComponentKeys|
        invariant (sums, counts) == AddComponents(start.0, start.1, altruism.value, x, ComponentKeys[..m])
      {
        AddComponentsSnoc(start.0, start.1, altruism.value, x, m);
        var key := ComponentKeys[m];
        var value := ComponentOf(x, key);
        if value.None? {
          continue;
        }
        sums := AddSum(sums, altruism.value, key, value.value);
        counts := AddCount(counts, altruism.value, key);
      }
      assert ComponentKeys[..|ComponentKeys|] == ComponentKeys;
    }
    assert results[..|results|] == results;
  }

  lemma ColumnSnoc(sums: ODict<real, ODict<string, real>>, counts: ODict<real, ODict<string, nat>>,
                   altruisms: seq<real>, key: string, i: nat)
    requires i < |altruisms|
    ensures Column(sums, counts, altruisms[..i + 1], key) == Column(sums, counts, altruisms[..i], key) + [MeanAt(sums, counts, altruisms[i], key)]
  {
  }

  /** Appending to the list under the key at position `i` of a dictionary
      with distinct keys changes that entry only. */
  lemma AppendToAt<K, V>(d: ODict<K, seq<V>>, i: nat, v: V)
    requires DistinctKeys(d) && i < |d|
    ensures AppendTo(d, d[i].0, v) == d[i := (d[i].0, d[i].1 + [v])]
  {
    var k := d[i].0;
    GetUnique(d, i);
    var e := Put(d, k, d[i].1 + [v]);
    PutShape(d, k, d[i].1 + [v]);
    PutKeepsDistinct(d, k, d[i].1 + [v]);
    PutThenGet(d, k, d[i].1 + [v], k);
    GetUnique(e, i);
    forall j | 0 <= j < |d| && j != i ensures e[j] == d[j] {
    }
  }

  /** The series once the first `i` altruisms are read out for every key
      and the `i`-th for the keys before position `m`. */
  ghost predicate SeriesUpTo(series: ODict<string, seq<real>>, sums: ODict<real, ODict<string, real>>,
                             counts: ODict<real, ODict<string, nat>>, altruisms: seq<real>, i: nat, m: nat)
    requires i < |altruisms|
  {
    |series| == |ComponentKeys| &&
    forall n :: 0 <= n < |ComponentKeys| ==>
      series[n] == (ComponentKeys[n], Column(sums, counts, altruisms[..if n < m then i + 1 else i], ComponentKeys[n]))
  }

  /** One pass of the inner loop of the second loop of
      `_component_means_by_altruism`: altruism `i` appends to each
      component's series its mean, or 0.0 when the component had no value
      there. */
  method AppendMeans(series0: ODict<string, seq<real>>, sums: ODict<real, ODict<string, real>>,
                     counts: ODict<real, ODict<string, nat>>, altruisms: seq<real>, i: nat)
    returns (series: ODict<string, seq<real>>)
    requires i < |altruisms| && series0 == Series(sums, counts, altruisms[..i])
    ensures series == Series(sums, counts, altruisms[..i + 1])
  {
    series := series0;
    for m := 0 to |ComponentKeys|
      invariant SeriesUpTo(series, sums, counts, altruisms, i, m)
    {
      var key := ComponentKeys[m];
      var count := CountAt(counts, altruisms[i], key);
      var mean := if count != 0 then SumAt(sums, altruisms[i], key) / (count as real) else 0.0;
      SeriesStep(series, sums, counts, altruisms, i, m);
      series := AppendTo(series, key, mean);
    }
  }

  /** Appending altruism `i`'s mean for the key at position `m` moves the
      series one key on. */
  lemma SeriesStep(series: ODict<string, seq<real>>, sums: ODict<real, ODict<string, real>>,
                   counts: ODict<real, ODict<string, nat>>, altruisms: seq<real>, i: nat, m: nat)
    requires i < |altruisms| && m < |ComponentKeys| && SeriesUpTo(series, sums, counts, altruisms, i, m)
    ensures SeriesUpTo(AppendTo(series, ComponentKeys[m], MeanAt(sums, counts, altruisms[i], ComponentKeys[m])),
                       sums, counts, altruisms, i, m + 1)
  {
    var key := ComponentKeys[m];
    var mean := MeanAt(sums, counts, altruisms[i], key);
    assert DistinctKeys(series) by {
      assert forall n :: 0 <= n < |series| ==> series[n].0 == ComponentKeys[n];
    }
    var next := AppendTo(series, key, mean);
    assert next == series[m := (key, series[m].1 + [mean])] by {
      AppendToAt(series, m, mean);
    }
    assert series[m].1 + [mean] == Column(sums, counts, altruisms[..i + 1], key) by {
      ColumnSnoc(sums, counts, altruisms, key, i);
    }
    forall n | 0 <= n < |ComponentKeys|
      ensures next[n] == (ComponentKeys[n], Column(sums, counts, altruisms[..if n < m + 1 then i + 1 else i], ComponentKeys[n]))
    {
      if n != m {
        assert next[n] == series[n];
      }
    }
  }

  /** The second loop of `_component_means_by_altruism`: the series start
      empty, one per component key, and each altruism in order appends its
      means. */
  method ReadSeries(sums: ODict<real, ODict<string, real>>, counts: ODict<real, ODict<string, nat>>,
                    altruisms: seq<real>) returns (series: ODict<string, seq<real>>)
    ensures series == Series(sums, counts, altruisms)
  {
    series := [];
    for n := 0 to |ComponentKeys|
      invariant series == Series(sums, counts, [])[..n]
    {
      series := series + [(ComponentKeys[n], [])];
    }
    for i := 0 to |altruisms|
      invariant series == Series(sums, counts, altruisms[..i])
    {
      series := AppendMeans(series, sums, counts, altruisms, i);
    }
    assert altruisms[..|altruisms|] == altruisms;
  }

  /** `_component_means_by_altruism`. */
  method ComputeComponentMeans(results: seq<Run>) returns (r: Option<ComponentMeans>)
    ensures r == ComponentMeansByAltruism(results)
  {
    var sums, counts := FillComponentTotals(results);
    if sums == [] {
      return None;
    }
    var altruisms := Ascending(Keys(sums));
    var series := ReadSeries(sums, counts, altruisms);
    r := Some(ComponentMeans(altruisms, series));
  }

  /** The values of component `key` on the results with altruism `a`, in
      order. */
  function ComponentValues(results: seq<Run>, a: real, key: string): (r: seq<real>)
    ensures |r| <= |results|
  {
    if results == [] then []
    else
      var x := results[|results| - 1];
      ComponentValues(results[..|results| - 1], a, key) +
        (if x.altruism == Some(a) && ComponentOf(x, key).Some? then [ComponentOf(x, key).value] else [])
  }

  /** Result `x` has altruism `a` and some component value. */
  predicate HasComponent(x: Run, a: real)
  {
    x.altruism == Some(a) && exists n :: 0 <= n < |ComponentKeys| && ComponentOf(x, ComponentKeys[n]).Some?
  }

  /** The component keys are distinct, so a key is among the first `m`
      exactly when it is among the first `m - 1` or is the `m`-th, not both. */
  lemma KeyBefore(m: nat, q: string)
    requires 0 < m <= |ComponentKeys|
    ensures q in ComponentKeys[..m] <==> q in ComponentKeys[..m - 1] || q == ComponentKeys[m - 1]
    ensures q == ComponentKeys[m - 1] ==> q !in ComponentKeys[..m - 1]
  {
    assert ComponentKeys[..m] == ComponentKeys[..m - 1] + [ComponentKeys[m - 1]];
    assert |ComponentKeys[0]| == 10 && |ComponentKeys[1]| == 9 && |ComponentKeys[2]| == 9 && |ComponentKeys[3]| == 17;
    assert ComponentKeys[1][0] != ComponentKeys[2][0];
  }

  /** The inner loop over the first `m` component keys gives altruism `a`
      sums exactly when one of those components of `x` has a value. */
  lemma {:induction false} AddComponentsKeys(sums: ODict<real, ODict<string, real>>, counts: ODict<real, ODict<string, nat>>,
                                             a: real, x: Run, m: nat, b: real)
    requires m <= |ComponentKeys| && DistinctKeys(sums)
    ensures DistinctKeys(AddComponents(sums, counts, a, x, ComponentKeys[..m]).0)
    ensures HasKey(AddComponents(sums, counts, a, x, ComponentKeys[..m]).0, b) <==>
      HasKey(sums, b) || (b == a && exists n :: 0 <= n < m && ComponentOf(x, ComponentKeys[n]).Some?)
  {
    if m > 0 {
      AddComponentsKeys(sums, counts, a, x, m - 1, b);
      AddComponentsSnoc(sums, counts, a, x, m - 1);
      var s := AddComponents(sums, counts, a, x, ComponentKeys[..m - 1]).0;
      var key := ComponentKeys[m - 1];
      if ComponentOf(x, key).Some? {
        AddSumKeys(s, a, key, ComponentOf(x, key).value, b);
      }
    }
  }

  /** The inner loop adds each present component value of `x` to its sum
      under `a`, once, and changes no other sum. */
  lemma {:induction false} AddComponentsSum(sums: ODict<real, ODict<string, real>>, counts: ODict<real, ODict<string, nat>>,
                                            a: real, x: Run, m: nat, b: real, q: string)
    requires m <= |ComponentKeys|
    ensures SumAt(AddComponents(sums, counts, a, x, ComponentKeys[..m]).0, b, q) ==
      SumAt(sums, b, q) + (if b == a && q in ComponentKeys[..m] && ComponentOf(x, q).Some? then ComponentOf(x, q).value else 0.0)
  {
    if m > 0 {
      AddComponentsSum(sums, counts, a, x, m - 1, b, q);
      AddComponentsSnoc(sums, counts, a, x, m - 1);
      var s := AddComponents(sums, counts, a, x, ComponentKeys[..m - 1]).0;
      var key := ComponentKeys[m - 1];
      KeyBefore(m, q);
      if ComponentOf(x, key).Some? {
        AddSumAt(s, a, key, ComponentOf(x, key).value, b, q);
      }
    }
  }

  /** The inner loop counts each present component value of `x` under `a`,
      once, and changes no other count. */
  lemma {:induction false} AddComponentsCount(sums: ODict<real, ODict<string, real>>, counts: ODict<real, ODict<string, nat>>,
                                              a: real, x: Run, m: nat, b: real, q: string)
    requires m <= |ComponentKeys|
    ensures CountAt(AddComponents(sums, counts, a, x, ComponentKeys[..m]).1, b, q) ==
      CountAt(counts, b, q) + (if b == a && q in ComponentKeys[..m] && ComponentOf(x, q).Some? then 1 else 0)
  {
    if m > 0 {
      AddComponentsCount(sums, counts, a, x, m - 1, b, q);
      AddComponentsSnoc(sums, counts, a, x, m - 1);
      var c := AddComponents(sums, counts, a, x, ComponentKeys[..m - 1]).1;
      var key := ComponentKeys[m - 1];
      KeyBefore(m, q);
      if ComponentOf(x, key).Some? {
        AddCountAt(c, a, key, b, q);
      }
    }
  }

  lemma ComponentValuesSnoc(results: seq<Run>, a: real, key: string, k: nat)
    requires k < |results|
    ensures ComponentValues(results[..k + 1], a, key) == ComponentValues(results[..k], a, key) +
      (if results[k].altruism == Some(a) && ComponentOf(results[k], key).Some? then [ComponentOf(results[k], key).value] else [])
  {
    assert results[..k + 1][..k] == results[..k];
  }

  /** Some result of altruism `b` has a component value. */
  predicate AnyComponent(results: seq<Run>, b: real)
  {
    exists k :: 0 <= k < |results| && HasComponent(results[k], b)
  }

  lemma AnyComponentSnoc(results: seq<Run>, b: real)
    requires results != []
    ensures AnyComponent(results, b) <==>
      AnyComponent(results[..|results| - 1], b) || HasComponent(results[|results| - 1], b)
  {
    assert forall k :: 0 <= k < |results| - 1 ==> results[..|results| - 1][k] == results[k];
  }

  /** After the first loop, altruism `b` has sums exactly when some result
      of altruism `b` has a component value, and no altruism has two
      entries. */
  lemma {:induction false} ComponentTotalsKeys(results: seq<Run>, b: real)
    ensures DistinctKeys(ComponentTotals(results).0)
    ensures HasKey(ComponentTotals(results).0, b) <==> exists k :: 0 <= k < |results| && HasComponent(results[k], b)
  {
    if results != [] {
      var n := |results| - 1;
      var x := results[n];
      var (s, c) := ComponentTotals(results[..n]);
      assert DistinctKeys(s) && (HasKey(s, b) <==> AnyComponent(results[..n], b)) by {
        ComponentTotalsKeys(results[..n], b);
      }
      assert ComponentTotals(results) == if x.altruism.None? then (s, c) else AddComponents(s, c, x.altruism.value, x, ComponentKeys) by {
        assert results[..n + 1] == results;
        ComponentTotalsSnoc(results, n);
      }
      if x.altruism.Some? {
        assert ComponentKeys[..|ComponentKeys|] == ComponentKeys;
        AddComponentsKeys(s, c, x.altruism.value, x, |ComponentKeys|, b);
      }
      AnyComponentSnoc(results, b);
    }
  }

  /** After the first loop, the sum and the count kept for (`b`, `q`) are
      those of the values of component `q` on the results of altruism `b`. */
  lemma {:induction false} ComponentTotalsAt(results: seq<Run>, b: real, q: string)
    requires q in ComponentKeys
    ensures SumAt(ComponentTotals(results).0, b, q) == Sum(ComponentValues(results, b, q))
    ensures CountAt(ComponentTotals(results).1, b, q) == |ComponentValues(results, b, q)|
  {
    if results != [] {
      var n := |results| - 1;
      var x := results[n];
      ComponentTotalsAt(results[..n], b, q);
      assert results[..n + 1] == results;
      ComponentTotalsSnoc(results, n);
      ComponentValuesSnoc(results, b, q, n);
      var front := ComponentValues(results[..n], b, q);
      var tail: seq<real> := if x.altruism == Some(b) && ComponentOf(x, q).Some? then [ComponentOf(x, q).value] else [];
      SumAppend(front, tail);
      var (s, c) := ComponentTotals(results[..n]);
      if x.altruism.Some? {
        assert ComponentKeys[..|ComponentKeys|] == ComponentKeys;
        AddComponentsSum(s, c, x.altruism.value, x, |ComponentKeys|, b, q);
        AddComponentsCount(s, c, x.altruism.value, x, |ComponentKeys|, b, q);
      }
    }
  }

  /** `_component_means_by_altruism` is `None` exactly when no result has
      both an altruism value and a component value. */
  lemma ComponentMeansNone(results: seq<Run>)
    ensures ComponentMeansByAltruism(results) == None <==>
      forall k, a :: 0 <= k < |results| ==> !HasComponent(results[k], a)
  {
    var sums := ComponentTotals(results).0;
    if sums != [] {
      assert HasKey(sums, sums[0].0) by { assert Keys(sums)[0] == sums[0].0; }
      ComponentTotalsKeys(results, sums[0].0);
    }
    forall k, a | 0 <= k < |results| && HasComponent(results[k], a) ensures sums != [] {
      ComponentTotalsKeys(results, a);
    }
  }

  /** Otherwise the altruisms are those of the results with a component
      value, each once and in increasing order. */
  lemma ComponentMeansAltruisms(results: seq<Run>, cm: ComponentMeans)
    requires ComponentMeansByAltruism(results) == Some(cm)
    ensures forall i, j :: 0 <= i < j < |cm.altruisms| ==> cm.altruisms[i] < cm.altruisms[j]
    ensures forall a :: a in cm.altruisms <==> exists k :: 0 <= k < |results| && HasComponent(results[k], a)
  {
    var sums := ComponentTotals(results).0;
    ComponentTotalsKeys(results, 0.0);
    assert forall i, j :: 0 <= i < j < |Keys(sums)| ==> Keys(sums)[i] != Keys(sums)[j];
    AscendingStrict(Keys(sums));
    forall a ensures a in cm.altruisms <==> exists k :: 0 <= k < |results| && HasComponent(results[k], a) {
      ComponentTotalsKeys(results, a);
    }
  }

  /** The series of each component, in `COMPONENT_LABELS` order, holds per
      altruism the mean of that component's values on the results of that
      altruism, 0.0 when there are none. */
  lemma ComponentMeansSeries(results: seq<Run>, cm: ComponentMeans)
    requires ComponentMeansByAltruism(results) == Some(cm)
    ensures |cm.series| == |ComponentKeys|
    ensures forall n :: 0 <= n < |ComponentKeys| ==>
      cm.series[n].0 == ComponentKeys[n] && |cm.series[n].1| == |cm.altruisms| &&
      forall i :: 0 <= i < |cm.altruisms| ==> cm.series[n].1[i] == Mean(ComponentValues(results, cm.altruisms[i], ComponentKeys[n]))
  {
    forall n, i | 0 <= n < |ComponentKeys| && 0 <= i < |cm.altruisms|
      ensures cm.series[n].1[i] == Mean(ComponentValues(results, cm.altruisms[i], ComponentKeys[n]))
    {
      ComponentTotalsAt(results, cm.altruisms[i], ComponentKeys[n]);
    }
  }

  // ---------------------------------------------------------------------
  // Pareto points
  // ---------------------------------------------------------------------

  /** The (altruism, tau, fresh, mono) key of a result, `None` when any of
      the four is missing. */
  function ConfigKey(x: Run): Option<Key>
  {
    if x.altruism.Some? && x.tau.Some? && x.epsFresh.Some? && x.epsMono.Some?
    then Some(Key(x.altruism.value, x.tau.value, x.epsFresh.value, x.epsMono.value))
    else None
  }

  function P10IndividualOf(x: Run): Option<real> { x.p10Individual }

  /** The six running totals `_aggregate_pareto_points` keeps per key. */
  datatype Tallies = Tallies(totalSum: real, totalCount: nat, p10Sum: real, p10Count: nat, earlySum: real, earlyCount: nat)

  const NoTallies := Tallies(0.0, 0, 0.0, 0, 0.0, 0)

  /** `groups[key]['total_sum'] += v; groups[key]['total_count'] += 1`. */
  function AddTotal(g: ODict<Key, Tallies>, key: Key, v: real): ODict<Key, Tallies>
  {
    var t := GetOr(g, key, NoTallies);
    Put(g, key, t.(totalSum := t.totalSum + v, totalCount := t.totalCount + 1))
  }

  /** The same for the Player10 individual score. */
  function AddP10(g: ODict<Key, Tallies>, key: Key, v: real): ODict<Key, Tallies>
  {
    var t := GetOr(g, key, NoTallies);
    Put(g, key, t.(p10Sum := t.p10Sum + v, p10Count := t.p10Count + 1))
  }

  /** The same for the early-termination flag. */
  function AddEarly(g: ODict<Key, Tallies>, key: Key, v: real): ODict<Key, Tallies>
  {
    var t := GetOr(g, key, NoTallies);
    Put(g, key, t.(earlySum := t.earlySum + v, earlyCount := t.earlyCount + 1))
  }

  /** One result: with a full key, it adds its total score, its Player10
      individual score and its early-termination flag, each when present,
      the first addition creating the group. */
  function AddResult(g: ODict<Key, Tallies>, x: Run): ODict<Key, Tallies>
  {
    match ConfigKey(x)
    case None => g
    case Some(key) =>
      var g1 := if x.totalScore.Some? then AddTotal(g, key, x.totalScore.value) else g;
      var g2 := if x.p10Individual.Some? then AddP10(g1, key, x.p10Individual.value) else g1;
      if EarlyValue(x).Some? then AddEarly(g2, key, EarlyValue(x).value) else g2
  }

  /** The groups after the results, in order of creation. */
  function ParetoGroups(results: seq<Run>): ODict<Key, Tallies>
  {
    if results == [] then [] else AddResult(ParetoGroups(results[..|results| - 1]), results[|results| - 1])
  }

  /** One point of the Pareto chart: the key, the means, and the number of
      runs with a total score. */
  datatype Point = Point(key: Key, total: real, player10: real, early: Option<real>, runs: nat)

  /** A group becomes a point when it has a total and a Player10 score. */
  predicate Plotted(t: Tallies)
  {
    t.totalCount != 0 && t.p10Count != 0
  }

  function PointOf(key: Key, t: Tallies): Point
    requires Plotted(t)
  {
    Point(key, t.totalSum / (t.totalCount as real), t.p10Sum / (t.p10Count as real),
          if t.earlyCount != 0 then Some(t.earlySum / (t.earlyCount as real)) else None, t.totalCount)
  }

  /** The points of the plotted groups, in group order. */
  function PointsOf(groups: ODict<Key, Tallies>): (r: seq<Point>)
    ensures |r| <= |groups|
  {
    if groups == [] then []
    else
      var (key, t) := groups[|groups| - 1];
      PointsOf(groups[..|groups| - 1]) + (if Plotted(t) then [PointOf(key, t)] else [])
  }

  /** Python's `<=` on the tuple (altruism, tau, fresh, mono). */
  predicate KeyLe(a: Key, b: Key)
  {
    a.altruism < b.altruism || (a.altruism == b.altruism &&
      (a.tau < b.tau || (a.tau == b.tau &&
        (a.epsFresh < b.epsFresh || (a.epsFresh == b.epsFresh && a.epsMono <= b.epsMono)))))
  }

  predicate PointLeq(p: Point, q: Point)
  {
    KeyLe(p.key, q.key)
  }

  /** `_aggregate_pareto_points`: `None` without plotted groups, otherwise
      their points sorted by key. */
  function ParetoPoints(results: seq<Run>): Option<seq<Point>>
  {
    var points := PointsOf(ParetoGroups(results));
    if points == [] then None else Some(SortBy(points, PointLeq))
  }

  lemma ParetoGroupsSnoc(results: seq<Run>, k: nat)
    requires k < |results|
    ensures ParetoGroups(results[..k + 1]) == AddResult(ParetoGroups(results[..k]), results[k])
  {
    assert results[..k + 1][..k] == results[..k];
  }

  /** The first loop of `_aggregate_pareto_points`. */
  method FillParetoGroups(results: seq<Run>) returns (groups: ODict<Key, Tallies>)
    ensures groups == ParetoGroups(results)
  {
    groups := [];
    for k := 0 to |results|
      invariant groups == ParetoGroups(results[..k])
    {
      ParetoGroupsSnoc(results, k);
      var x := results[k];
      var key := ConfigKey(x);
      if key.None? {
        continue;
      }
      var totalValue := x.totalScore;
      if totalValue.Some? {
        groups := AddTotal(groups, key.value, totalValue.value);
      }
      var p10Value := x.p10Individual;
      if p10Value.Some? {
        groups := AddP10(groups, key.value, p10Value.value);
      }
      var earlyValue := EarlyValue(x);
      if earlyValue.Some? {
        groups := AddEarly(groups, key.value, earlyValue.value);
      }
    }
    assert results[..|results|] == results;
  }

  /** The second loop of `_aggregate_pareto_points`: a point per group with
      a total and a Player10 score, in group order. */
  method CollectPoints(groups: ODict<Key, Tallies>) returns (points: seq<Point>)
    ensures points == PointsOf(groups)
  {
    points := [];
    for i := 0 to |groups|
      invariant points == PointsOf(groups[..i])
    {
      assert groups[..i + 1][..i] == groups[..i];
      var (key, data) := groups[i];
      if data.totalCount == 0 || data.p10Count == 0 {
        continue;
      }
      var early := if data.earlyCount != 0 then Some(data.earlySum / (data.earlyCount as real)) else None;
      points := points + [Point(key, data.totalSum / (data.totalCount as real), data.p10Sum / (data.p10Count as real), early, data.totalCount)];
    }
    assert groups[..|groups|] == groups;
  }

  /** `_aggregate_pareto_points`: the groups, their points, and the points
      sorted by key. */
  method AggregateParetoPoints(results: seq<Run>) returns (r: Option<seq<Point>>)
    ensures r == ParetoPoints(results)
  {
    var groups := FillParetoGroups(results);
    var points := CollectPoints(groups);
    if points == [] {
      return None;
    }
    r := Some(SortBy(points, PointLeq));
  }

  /** `d[k] = w` seen through `d.get(q, default)`. */
  lemma PutGetOr<K, V>(d: ODict<K, V>, k: K, w: V, q: K, default: V)
    ensures GetOr(Put(d, k, w), q, default) == if q == k then w else GetOr(d, q, default)
  {
    PutThenGet(d, k, w, q);
  }

  /** What a result adds to a running sum, and to a count, for a key: its
      value when it has the key and the value is present. */
  function Extra(hit: bool, v: Option<real>): real { if hit && v.Some? then v.value else 0.0 }
  function Tick(hit: bool, v: Option<real>): nat { if hit && v.Some? then 1 else 0 }

  lemma AddTotalAt(g: ODict<Key, Tallies>, key: Key, v: real, q: Key)
    ensures var t := GetOr(g, q, NoTallies);
      GetOr(AddTotal(g, key, v), q, NoTallies) == if q == key then t.(totalSum := t.totalSum + v, totalCount := t.totalCount + 1) else t
  {
    var t := GetOr(g, key, NoTallies);
    var w := t.(totalSum := t.totalSum + v, totalCount := t.totalCount + 1);
    assert AddTotal(g, key, v) == Put(g, key, w);
    PutGetOr(g, key, w, q, NoTallies);
  }

  lemma AddP10At(g: ODict<Key, Tallies>, key: Key, v: real, q: Key)
    ensures var t := GetOr(g, q, NoTallies);
      GetOr(AddP10(g, key, v), q, NoTallies) == if q == key then t.(p10Sum := t.p10Sum + v, p10Count := t.p10Count + 1) else t
  {
    var t := GetOr(g, key, NoTallies);
    var w := t.(p10Sum := t.p10Sum + v, p10Count := t.p10Count + 1);
    assert AddP10(g, key, v) == Put(g, key, w);
    PutGetOr(g, key, w, q, NoTallies);
  }

  lemma AddEarlyAt(g: ODict<Key, Tallies>, key: Key, v: real, q: Key)
    ensures var t := GetOr(g, q, NoTallies);
      GetOr(AddEarly(g, key, v), q, NoTallies) == if q == key then t.(earlySum := t.earlySum + v, earlyCount := t.earlyCount + 1) else t
  {
    var t := GetOr(g, key, NoTallies);
    var w := t.(earlySum := t.earlySum + v, earlyCount := t.earlyCount + 1);
    assert AddEarly(g, key, v) == Put(g, key, w);
    PutGetOr(g, key, w, q, NoTallies);
  }

  /** One result adds to the tallies of its own key only. */
  lemma AddResultAt(g: ODict<Key, Tallies>, x: Run, q: Key)
    ensures var t := GetOr(g, q, NoTallies);
      var r := GetOr(AddResult(g, x), q, NoTallies);
      var hit := ConfigKey(x) == Some(q);
      r.totalSum == t.totalSum + Extra(hit, x.totalScore) && r.totalCount == t.totalCount + Tick(hit, x.totalScore) &&
      r.p10Sum == t.p10Sum + Extra(hit, x.p10Individual) && r.p10Count == t.p10Count + Tick(hit, x.p10Individual) &&
      r.earlySum == t.earlySum + Extra(hit, EarlyValue(x)) && r.earlyCount == t.earlyCount + Tick(hit, EarlyValue(x))
  {
    if ConfigKey(x).Some? {
      var key := ConfigKey(x).value;
      var g1 := if x.totalScore.Some? then AddTotal(g, key, x.totalScore.value) else g;
      var g2 := if x.p10Individual.Some? then AddP10(g1, key, x.p10Individual.value) else g1;
      if x.totalScore.Some? {
        AddTotalAt(g, key, x.totalScore.value, q);
      }
      if x.p10Individual.Some? {
        AddP10At(g1, key, x.p10Individual.value, q);
      }
      if EarlyValue(x).Some? {
        AddEarlyAt(g2, key, EarlyValue(x).value, q);
      }
    }
  }

  lemma AddKeys(g: ODict<Key, Tallies>, key: Key, w: Tallies, q: Key)
    requires DistinctKeys(g)
    ensures DistinctKeys(Put(g, key, w))
    ensures HasKey(Put(g, key, w), q) <==> HasKey(g, q) || q == key
  {
    PutThenGet(g, key, w, q);
    PutKeepsDistinct(g, key, w);
  }

  lemma AddTotalKeys(g: ODict<Key, Tallies>, key: Key, v: real, q: Key)
    requires DistinctKeys(g)
    ensures DistinctKeys(AddTotal(g, key, v))
    ensures HasKey(AddTotal(g, key, v), q) <==> HasKey(g, q) || q == key
  {
    var t := GetOr(g, key, NoTallies);
    var w := t.(totalSum := t.totalSum + v, totalCount := t.totalCount + 1);
    assert AddTotal(g, key, v) == Put(g, key, w);
    AddKeys(g, key, w, q);
  }

  lemma AddP10Keys(g: ODict<Key, Tallies>, key: Key, v: real, q: Key)
    requires DistinctKeys(g)
    ensures DistinctKeys(AddP10(g, key, v))
    ensures HasKey(AddP10(g, key, v), q) <==> HasKey(g, q) || q == key
  {
    var t := GetOr(g, key, NoTallies);
    var w := t.(p10Sum := t.p10Sum + v, p10Count := t.p10Count + 1);
    assert AddP10(g, key, v) == Put(g, key, w);
    AddKeys(g, key, w, q);
  }

  lemma AddEarlyKeys(g: ODict<Key, Tallies>, key: Key, v: real, q: Key)
    requires DistinctKeys(g)
    ensures DistinctKeys(AddEarly(g, key, v))
    ensures HasKey(AddEarly(g, key, v), q) <==> HasKey(g, q) || q == key
  {
    var t := GetOr(g, key, NoTallies);
    var w := t.(earlySum := t.earlySum + v, earlyCount := t.earlyCount + 1);
    assert AddEarly(g, key, v) == Put(g, key, w);
    AddKeys(g, key, w, q);
  }

  /** One result creates at most the group of its own key, and keeps the
      keys distinct. */
  lemma AddResultKeys(g: ODict<Key, Tallies>, x: Run, q: Key)
    requires DistinctKeys(g)
    ensures DistinctKeys(AddResult(g, x))
    ensures HasKey(AddResult(g, x), q) <==> (HasKey(g, q) ||
      (ConfigKey(x) == Some(q) && (x.totalScore.Some? || x.p10Individual.Some? || EarlyValue(x).Some?)))
  {
    if ConfigKey(x).Some? {
      var key := ConfigKey(x).value;
      var g1 := if x.totalScore.Some? then AddTotal(g, key, x.totalScore.value) else g;
      var g2 := if x.p10Individual.Some? then AddP10(g1, key, x.p10Individual.value) else g1;
      if x.totalScore.Some? {
        AddTotalKeys(g, key, x.totalScore.value, q);
      }
      if x.p10Individual.Some? {
        AddP10Keys(g1, key, x.p10Individual.value, q);
      }
      if EarlyValue(x).Some? {
        AddEarlyKeys(g2, key, EarlyValue(x).value, q);
      }
    }
  }

  /** The tallies of key `q` are the sums and the counts of the total
      scores, the Player10 individual scores and the early-termination flags
      of the results with that key. */
  lemma {:induction false} ParetoTotalAt(results: seq<Run>, q: Key)
    ensures var r := GetOr(ParetoGroups(results), q, NoTallies);
      var vs := Picked(results, ConfigKey, q, TotalOf);
      r.totalSum == Sum(vs) && r.totalCount == |vs|
  {
    if results != [] {
      var n := |results| - 1;
      var x := results[n];
      ParetoTotalAt(results[..n], q);
      assert results[..n + 1] == results;
      ParetoGroupsSnoc(results, n);
      AddResultAt(ParetoGroups(results[..n]), x, q);
      PickedSnoc(results, ConfigKey, q, TotalOf, n);
      SumAppend(Picked(results[..n], ConfigKey, q, TotalOf), if ConfigKey(x) == Some(q) && TotalOf(x).Some? then [TotalOf(x).value] else []);
    }
  }

  lemma {:induction false} ParetoP10At(results: seq<Run>, q: Key)
    ensures var r := GetOr(ParetoGroups(results), q, NoTallies);
      var vs := Picked(results, ConfigKey, q, P10IndividualOf);
      r.p10Sum == Sum(vs) && r.p10Count == |vs|
  {
    if results != [] {
      var n := |results| - 1;
      var x := results[n];
      ParetoP10At(results[..n], q);
      assert results[..n + 1] == results;
      ParetoGroupsSnoc(results, n);
      AddResultAt(ParetoGroups(results[..n]), x, q);
      PickedSnoc(results, ConfigKey, q, P10IndividualOf, n);
      SumAppend(Picked(results[..n], ConfigKey, q, P10IndividualOf), if ConfigKey(x) == Some(q) && P10IndividualOf(x).Some? then [P10IndividualOf(x).value] else []);
    }
  }

  lemma {:induction false} ParetoEarlyAt(results: seq<Run>, q: Key)
    ensures var r := GetOr(ParetoGroups(results), q, NoTallies);
      var vs := Picked(results, ConfigKey, q, EarlyValue);
      r.earlySum == Sum(vs) && r.earlyCount == |vs|
  {
    if results != [] {
      var n := |results| - 1;
      var x := results[n];
      ParetoEarlyAt(results[..n], q);
      assert results[..n + 1] == results;
      ParetoGroupsSnoc(results, n);
      AddResultAt(ParetoGroups(results[..n]), x, q);
      PickedSnoc(results, ConfigKey, q, EarlyValue, n);
      SumAppend(Picked(results[..n], ConfigKey, q, EarlyValue), if ConfigKey(x) == Some(q) && EarlyValue(x).Some? then [EarlyValue(x).value] else []);
    }
  }

  /** Key `q` has a group exactly when some result with that key has a
      total, a Player10 individual score or an early-termination flag; no
      key has two groups. */
  lemma {:induction false} ParetoGroupsKeys(results: seq<Run>, q: Key)
    ensures DistinctKeys(ParetoGroups(results))
    ensures HasKey(ParetoGroups(results), q) <==>
      Picked(results, ConfigKey, q, TotalOf) != [] || Picked(results, ConfigKey, q, P10IndividualOf) != [] ||
      Picked(results, ConfigKey, q, EarlyValue) != []
  {
    if results != [] {
      var n := |results| - 1;
      var x := results[n];
      ParetoGroupsKeys(results[..n], q);
      assert results[..n + 1] == results;
      ParetoGroupsSnoc(results, n);
      AddResultKeys(ParetoGroups(results[..n]), x, q);
      PickedSnoc(results, ConfigKey, q, TotalOf, n);
      PickedSnoc(results, ConfigKey, q, P10IndividualOf, n);
      PickedSnoc(results, ConfigKey, q, EarlyValue, n);
    }
  }

  /** Python's tuple order is a total order on keys. */
  lemma KeyLeOrder()
    ensures TotalPreorder(PointLeq)
    ensures forall a, b :: KeyLe(a, b) && KeyLe(b, a) ==> a == b
  {
  }

  function PointKey(p: Point): Key { p.key }

  lemma PointsOfSnoc(groups: ODict<Key, Tallies>, i: nat)
    requires i < |groups|
    ensures PointsOf(groups[..i + 1]) == PointsOf(groups[..i]) + (if Plotted(groups[i].1) then [PointOf(groups[i].0, groups[i].1)] else [])
  {
    assert groups[..i + 1][..i] == groups[..i];
  }

  /** A point comes from a plotted group, and every plotted group gives one. */
  lemma {:induction false} PointsOfSpec(groups: ODict<Key, Tallies>, p: Point)
    ensures p in PointsOf(groups) <==>
      exists i :: 0 <= i < |groups| && Plotted(groups[i].1) && p == PointOf(groups[i].0, groups[i].1)
  {
    if groups != [] {
      var n := |groups| - 1;
      PointsOfSpec(groups[..n], p);
      assert groups[..n + 1] == groups;
      PointsOfSnoc(groups, n);
      if exists i :: 0 <= i < n && Plotted(groups[..n][i].1) && p == PointOf(groups[..n][i].0, groups[..n][i].1) {
        var i :| 0 <= i < n && Plotted(groups[..n][i].1) && p == PointOf(groups[..n][i].0, groups[..n][i].1);
        assert groups[i] == groups[..n][i];
      }
      if exists i :: 0 <= i < |groups| && Plotted(groups[i].1) && p == PointOf(groups[i].0, groups[i].1) {
        var i :| 0 <= i < |groups| && Plotted(groups[i].1) && p == PointOf(groups[i].0, groups[i].1);
        if i < n {
          assert groups[..n][i] == groups[i];
        }
      }
    }
  }

  /** Groups with distinct keys give points with distinct keys. */
  lemma {:induction false} PointsOfDistinct(groups: ODict<Key, Tallies>)
    requires DistinctKeys(groups)
    ensures Injective(PointsOf(groups), PointKey)
  {
    if groups != [] {
      var n := |groups| - 1;
      PointsOfDistinct(groups[..n]);
      assert groups[..n + 1] == groups;
      PointsOfSnoc(groups, n);
      var front := PointsOf(groups[..n]);
      if Plotted(groups[n].1) {
        forall j | 0 <= j < |front| ensures front[j].key != groups[n].0 {
          PointsOfSpec(groups[..n], front[j]);
          var i :| 0 <= i < n && Plotted(groups[..n][i].1) && front[j] == PointOf(groups[..n][i].0, groups[..n][i].1);
        }
      }
    }
  }

  /** The point of a plotted key `q`: the means of its total scores, of its
      Player10 individual scores and of its early-termination flags (`None`
      without any), and the number of its total scores. */
  function PointFor(results: seq<Run>, q: Key): Point
  {
    var t := Picked(results, ConfigKey, q, TotalOf);
    var e := Picked(results, ConfigKey, q, EarlyValue);
    Point(q, Mean(t), Mean(Picked(results, ConfigKey, q, P10IndividualOf)), if e == [] then None else Some(Mean(e)), |t|)
  }

  /** Key `q` is plotted: some result with that key has a total score, and
      some has a Player10 individual score. */
  predicate PlottedKey(results: seq<Run>, q: Key)
  {
    Picked(results, ConfigKey, q, TotalOf) != [] && Picked(results, ConfigKey, q, P10IndividualOf) != []
  }

  /** The points before sorting are those of the plotted keys. */
  lemma PointsMember(results: seq<Run>, p: Point)
    ensures p in PointsOf(ParetoGroups(results)) <==> PlottedKey(results, p.key) && p == PointFor(results, p.key)
  {
    var g := ParetoGroups(results);
    var q := p.key;
    ParetoGroupsKeys(results, q);
    ParetoTotalAt(results, q);
    ParetoP10At(results, q);
    ParetoEarlyAt(results, q);
    PointsOfSpec(g, p);
    if p in PointsOf(g) {
      var i :| 0 <= i < |g| && Plotted(g[i].1) && p == PointOf(g[i].0, g[i].1);
      GetUnique(g, i);
    }
    if PlottedKey(results, q) && p == PointFor(results, q) {
      var i := HasKeyIndex(g, q);
      GetUnique(g, i);
    }
  }

  /** A key is plotted exactly when a result with that key has a total
      score and a result with that key has a Player10 individual score. */
  lemma PlottedKeySpec(results: seq<Run>, q: Key)
    ensures PlottedKey(results, q) <==>
      (exists k :: 0 <= k < |results| && ConfigKey(results[k]) == Some(q) && results[k].totalScore.Some?) &&
      (exists k :: 0 <= k < |results| && ConfigKey(results[k]) == Some(q) && results[k].p10Individual.Some?)
  {
    var t := Picked(results, ConfigKey, q, TotalOf);
    var p := Picked(results, ConfigKey, q, P10IndividualOf);
    if t != [] {
      PickedSpec(results, ConfigKey, q, TotalOf, t[0]);
    }
    if p != [] {
      PickedSpec(results, ConfigKey, q, P10IndividualOf, p[0]);
    }
    if exists k :: 0 <= k < |results| && ConfigKey(results[k]) == Some(q) && results[k].totalScore.Some? {
      var k :| 0 <= k < |results| && ConfigKey(results[k]) == Some(q) && results[k].totalScore.Some?;
      PickedSpec(results, ConfigKey, q, TotalOf, results[k].totalScore.value);
    }
    if exists k :: 0 <= k < |results| && ConfigKey(results[k]) == Some(q) && results[k].p10Individual.Some? {
      var k :| 0 <= k < |results| && ConfigKey(results[k]) == Some(q) && results[k].p10Individual.Some?;
      PickedSpec(results, ConfigKey, q, P10IndividualOf, results[k].p10Individual.value);
    }
  }

  /** `_aggregate_pareto_points` is `None` exactly when no key is plotted. */
  lemma ParetoNone(results: seq<Run>)
    ensures ParetoPoints(results) == None <==> forall q :: !PlottedKey(results, q)
  {
    var points := PointsOf(ParetoGroups(results));
    if points != [] {
      PointsMember(results, points[0]);
    }
    forall q | PlottedKey(results, q) ensures points != [] {
      PointsMember(results, PointFor(results, q));
    }
  }

  /** Otherwise it holds one point per plotted key, that key's means and
      run count, in strictly increasing key order. */
  lemma ParetoSpec(results: seq<Run>, points: seq<Point>)
    requires ParetoPoints(results) == Some(points)
    ensures forall i, j :: 0 <= i < j < |points| ==> KeyLe(points[i].key, points[j].key) && points[i].key != points[j].key
    ensures forall i :: 0 <= i < |points| ==> PlottedKey(results, points[i].key) && points[i] == PointFor(results, points[i].key)
    ensures forall q :: PlottedKey(results, q) ==> exists i :: 0 <= i < |points| && points[i].key == q
  {
    var g := ParetoGroups(results);
    var unsorted := PointsOf(g);
    ParetoGroupsKeys(results, Key(0.0, 0.0, 0.0, 0.0));
    PointsOfDistinct(g);
    KeyLeOrder();
    SortBySorted(unsorted, PointLeq);
    SortByInjective(unsorted, PointLeq, PointKey);
    forall i | 0 <= i < |points| ensures PlottedKey(results, points[i].key) && points[i] == PointFor(results, points[i].key) {
      assert points[i] in multiset(points);
      PointsMember(results, points[i]);
    }
    forall q | PlottedKey(results, q) ensures exists i :: 0 <= i < |points| && points[i].key == q {
      var p := PointFor(results, q);
      PointsMember(results, p);
      assert p in multiset(unsorted);
      var i :| 0 <= i < |points| && points[i] == p;
    }
  }
}
