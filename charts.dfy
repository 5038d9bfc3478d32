/** Chart rendering (`generate_visualizations`): which columns get a
    distribution chart, and the image files written for them. Rendering
    itself is abstract: a chart is its title and the values it plots. */
module Charts {
  import opened Text
  import opened Analysis
  import opened Files

  /** At most this many charts are drawn (`columns[:3]`). */
  const MaxCharts: nat := 3

  /** The numeric columns, in declared order (`select_dtypes(include=[np.number])`). */
  function NumericColumns(cols: seq<Column>): (r: seq<Column>)
    ensures |r| <= |cols|
    ensures forall k :: 0 <= k < |r| ==> r[k].kind == Numeric
  {
    if cols == [] then []
    else (if cols[0].kind == Numeric then [cols[0]] else []) + NumericColumns(cols[1..])
  }

  /** The charted columns: the numeric ones, cut to the first `MaxCharts`. */
  function ChartColumns(cols: seq<Column>): (r: seq<Column>)
    ensures |r| <= MaxCharts
    ensures forall k :: 0 <= k < |r| ==> r[k].kind == Numeric
  {
    var numeric := NumericColumns(cols);
    if |numeric| <= MaxCharts then numeric else numeric[..MaxCharts]
  }

  /** Filtering commutes with concatenation. */
  lemma {:induction false} NumericConcat(a: seq<Column>, b: seq<Column>)
    ensures NumericColumns(a + b) == NumericColumns(a) + NumericColumns(b)
  {
    if a == [] {
      assert a + b == b;
    } else {
      assert (a + b)[1..] == a[1..] + b;
      NumericConcat(a[1..], b);
    }
  }

  /** No numeric column is filtered out and nothing else is left in. */
  lemma {:induction false} NumericColumnsEmpty(cols: seq<Column>)
    ensures NumericColumns(cols) == [] <==> forall i :: 0 <= i < |cols| ==> cols[i].kind != Numeric
  {
    if cols != [] {
      NumericColumnsEmpty(cols[1..]);
      assert forall i :: 1 <= i < |cols| ==> cols[i] == cols[1..][i - 1];
    }
  }

  /** A table without numeric columns gets no chart, and a table with one gets
      at least one. */
  lemma NoNumericNoCharts(cols: seq<Column>)
    ensures ChartColumns(cols) == [] <==> forall i :: 0 <= i < |cols| ==> cols[i].kind != Numeric
  {
    NumericColumnsEmpty(cols);
  }

  /** An independent description of the selection: walk the columns in order
      and take each numeric one while fewer than `budget` are taken. */
  function ScanUntilCap(cols: seq<Column>, budget: nat): seq<Column>
  {
    if cols == [] || budget == 0 then []
    else if cols[0].kind == Numeric then [cols[0]] + ScanUntilCap(cols[1..], budget - 1)
    else ScanUntilCap(cols[1..], budget)
  }

  /** The filtered columns cut to `budget` are what the scan takes. */
  lemma {:induction false} PrefixIsScan(cols: seq<Column>, budget: nat)
    ensures var n := NumericColumns(cols);
            (if |n| <= budget then n else n[..budget]) == ScanUntilCap(cols, budget)
  {
    if cols != [] && budget > 0 {
      var next := if cols[0].kind == Numeric then budget - 1 else budget;
      PrefixIsScan(cols[1..], next);
    }
  }

  /** The charted columns are those the in-order scan takes with a budget of
      `MaxCharts`, and there are min(`MaxCharts`, number of numeric columns). */
  lemma ChartsAreScan(cols: seq<Column>)
    ensures ChartColumns(cols) == ScanUntilCap(cols, MaxCharts)
    ensures |ChartColumns(cols)| == if |NumericColumns(cols)| <= MaxCharts then |NumericColumns(cols)| else MaxCharts
  {
    PrefixIsScan(cols, MaxCharts);
  }

  /** The numeric column at index `i` is charted exactly when fewer than
      `MaxCharts` numeric columns come before it, and then it is chart number
      `k`, `k` being the number of numeric columns before it. */
  lemma ChartedAt(cols: seq<Column>, i: nat)
    requires i < |cols| && cols[i].kind == Numeric
    ensures var k := |NumericColumns(cols[..i])|;
            (k < MaxCharts <==> k < |ChartColumns(cols)|) &&
            (k < MaxCharts ==> ChartColumns(cols)[k] == cols[i])
  {
    assert cols == cols[..i] + cols[i..];
    NumericConcat(cols[..i], cols[i..]);
    assert NumericColumns(cols[i..]) == [cols[i]] + NumericColumns(cols[i..][1..]);
  }

  /** Every chart comes from a numeric column of the table, the `k`-th chart
      from the column with `k` numeric columns before it. */
  lemma {:induction false} ChartedFrom(cols: seq<Column>, k: nat)
    requires k < |NumericColumns(cols)|
    ensures exists i :: 0 <= i < |cols| && cols[i] == NumericColumns(cols)[k] &&
                        |NumericColumns(cols[..i])| == k
  {
    var rest := NumericColumns(cols[1..]);
    var head := if cols[0].kind == Numeric then [cols[0]] else [];
    assert NumericColumns(cols) == head + rest;
    if cols[0].kind == Numeric && k == 0 {
      assert cols[..0] == [];
      assert NumericColumns(cols[..0]) == [];
    } else {
      var k' := k - |head|;
      assert NumericColumns(cols)[k] == rest[k'];
      ChartedFrom(cols[1..], k');
      var j :| 0 <= j < |cols[1..]| && cols[1..][j] == rest[k'] && |NumericColumns(cols[1..][..j])| == k';
      var prefix := cols[..j + 1];
      assert prefix[0] == cols[0] && prefix[1..] == cols[1..][..j];
      assert NumericColumns(prefix) == head + NumericColumns(cols[1..][..j]);
      assert cols[j + 1] == NumericColumns(cols)[k];
    }
  }

  /** The image file of a chart (`f"{col}.png"`). */
  function ChartFileName(c: Column): string
  {
    c.name + ".png"
  }

  /** The chart of a column: its title and the non-missing values it plots. */
  function ChartOf(c: Column): Content
  {
    Chart("Distribution of " + c.name, Present(c.cells))
  }

  /** The image files that charting `cols` in order leaves behind (a later
      chart of the same file name replaces an earlier one). */
  function ChartFiles(cols: seq<Column>): map<string, Content>
  {
    if cols == [] then map[]
    else ChartFiles(cols[..|cols| - 1])[ChartFileName(cols[|cols| - 1]) := ChartOf(cols[|cols| - 1])]
  }

  /** The files written are named after the charted columns, one per column
      at most. */
  lemma {:induction false} ChartFilesKeys(cols: seq<Column>)
    ensures ChartFiles(cols).Keys == set c | c in cols :: ChartFileName(c)
    ensures |ChartFiles(cols).Keys| <= |cols|
  {
    if cols != [] {
      var init := cols[..|cols| - 1];
      ChartFilesKeys(init);
      assert cols == init + [cols[|cols| - 1]];
      assert (set c | c in cols :: ChartFileName(c)) ==
             (set c | c in init :: ChartFileName(c)) + {ChartFileName(cols[|cols| - 1])};
    }
  }

  /** Charting a table writes at most `MaxCharts` image files, each of them
      for a numeric column. */
  lemma ChartFilesBound(cols: seq<Column>)
    ensures |ChartFiles(ChartColumns(cols)).Keys| <= MaxCharts
    ensures forall name <- ChartFiles(ChartColumns(cols)).Keys ::
              exists c :: c in ChartColumns(cols) && c.kind == Numeric && name == ChartFileName(c)
  {
    ChartFilesKeys(ChartColumns(cols));
  }

  /** No two columns share a name. */
  predicate DistinctNames(cols: seq<Column>)
  {
    forall i, j :: 0 <= i < j < |cols| ==> cols[i].name != cols[j].name
  }

  /** Two chart files have the same name only for the same column name. */
  lemma ChartFileNameInjective(a: Column, b: Column)
    ensures ChartFileName(a) == ChartFileName(b) <==> a.name == b.name
  {
    assert ChartFileName(a)[..|a.name|] == a.name;
    assert ChartFileName(b)[..|b.name|] == b.name;
  }

  /** Columns with distinct names leave one file each. */
  lemma {:induction false} ChartFilesCount(cols: seq<Column>)
    requires DistinctNames(cols)
    ensures |ChartFiles(cols).Keys| == |cols|
  {
    if cols != [] {
      var n := |cols| - 1;
      var init := cols[..n];
      assert DistinctNames(init) by {
        forall i, j | 0 <= i < j < |init| ensures init[i].name != init[j].name {
          assert init[i] == cols[i] && init[j] == cols[j];
        }
      }
      ChartFilesCount(init);
      forall c | c in init
        ensures c.name != cols[n].name
      {
        var i :| 0 <= i < |init| && init[i] == c;
        assert cols[i].name != cols[n].name;
      }
      FreshChartName(init, cols[n]);
    }
  }

  /** A column whose name no column of `cols` has gets a file name that
      charting `cols` does not write. */
  lemma FreshChartName(cols: seq<Column>, d: Column)
    requires forall c | c in cols :: c.name != d.name
    ensures ChartFileName(d) !in ChartFiles(cols)
  {
    ChartFilesKeys(cols);
    forall c | c in cols
      ensures ChartFileName(c) != ChartFileName(d)
    {
      ChartFileNameInjective(c, d);
    }
  }

  /** With distinct names, each column's file holds that column's chart. */
  lemma {:induction false} ChartFilesValues(cols: seq<Column>, c: Column)
    requires DistinctNames(cols) && c in cols
    ensures ChartFileName(c) in ChartFiles(cols) && ChartFiles(cols)[ChartFileName(c)] == ChartOf(c)
  {
    var n := |cols| - 1;
    var init := cols[..n];
    if c != cols[n] {
      assert c in init by {
        var i :| 0 <= i < |cols| && cols[i] == c;
        assert i != n && init[i] == c;
      }
      assert DistinctNames(init) by {
        forall i, j | 0 <= i < j < |init| ensures init[i].name != init[j].name {
          assert init[i] == cols[i] && init[j] == cols[j];
        }
      }
      ChartFilesValues(init, c);
      var i :| 0 <= i < |init| && init[i] == c;
      assert cols[i].name != cols[n].name;
      ChartFileNameInjective(c, cols[n]);
    }
  }

  /** On a loaded table the charted columns have distinct names, so there is
      exactly one image file per charted column. */
  lemma ChartsOnePerColumn(t: Table)
    requires WellFormed(t)
    ensures DistinctNames(ChartColumns(t.columns))
    ensures |ChartFiles(ChartColumns(t.columns)).Keys| == |ChartColumns(t.columns)|
  {
    var cols := t.columns;
    var charts := ChartColumns(cols);
    var numeric := NumericColumns(cols);
    forall a, b | 0 <= a < b < |charts|
      ensures charts[a].name != charts[b].name
    {
      ChartedFrom(cols, a);
      ChartedFrom(cols, b);
      var i :| 0 <= i < |cols| && cols[i] == numeric[a] && |NumericColumns(cols[..i])| == a;
      var j :| 0 <= j < |cols| && cols[j] == numeric[b] && |NumericColumns(cols[..j])| == b;
      assert charts[a] == cols[i] && charts[b] == cols[j];
      if i < j {
        assert cols[i].name != cols[j].name;
      } else {
        assert i != j;
        assert cols[j].name != cols[i].name;
      }
    }
    ChartFilesCount(charts);
  }

  /** Saving the chart of column `i` over the files of the first `i` charts
      gives the files of the first `i + 1`. */
  lemma ChartFilesStep(before: map<string, Content>, cols: seq<Column>, i: nat)
    requires i < |cols|
    ensures (before + ChartFiles(cols[..i]))[ChartFileName(cols[i]) := ChartOf(cols[i])] ==
            before + ChartFiles(cols[..i + 1])
  {
    assert cols[..i + 1][..i] == cols[..i];
  }

  /** Draws and saves one chart per charted column, in order. */
  method GenerateVisualizations(t: Table, dir: Directory)
    modifies dir
    ensures dir.files == old(dir.files) + ChartFiles(ChartColumns(t.columns))
  {
    var selected := ChartColumns(t.columns);
    ghost var before := dir.files;
    for i := 0 to |selected|
      invariant dir.files == before + ChartFiles(selected[..i])
    {
      var col := selected[i];
      ChartFilesStep(before, selected, i);
      dir.Save(col.name + ".png", Chart("Distribution of " + col.name, Present(col.cells)));
    }
    assert selected[..|selected|] == selected;
  }
}
