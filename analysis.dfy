/** The loaded table and the missing-value part of the generic analysis
    (`df.isnull().sum()` in `analyze_data`). */
module Analysis {
  import opened Text

  /** The inferred kind of a column; only `Numeric` is charted
      (`select_dtypes(include=[np.number])`). */
  datatype Kind = Numeric | Textual | Categorical

  /** A named column; a cell is `None` where the entry is missing. The cell
      values themselves stay opaque: no statistic is computed from them here. */
  datatype Column = Column(name: string, kind: Kind, cells: seq<Option<string>>)

  /** A table: its row count and its columns in declared order. */
  datatype Table = Table(rows: nat, columns: seq<Column>)

  /** What a loaded table always satisfies: every column has one cell per row,
      and column names are unique. */
  predicate WellFormed(t: Table) {
    (forall c <- t.columns :: |c.cells| == t.rows) &&
    (forall i, j :: 0 <= i < j < |t.columns| ==> t.columns[i].name != t.columns[j].name)
  }

  /** The number of missing cells of a column (`isnull().sum()` for it). */
  function MissingCount(cells: seq<Option<string>>): (n: nat)
    ensures n <= |cells|
  {
    if cells == [] then 0
    else MissingCount(cells[..|cells| - 1]) + (if cells[|cells| - 1].None? then 1 else 0)
  }

  /** The positions of the missing cells. */
  function MissingPositions(cells: seq<Option<string>>): set<int>
  {
    set i | 0 <= i < |cells| && cells[i].None?
  }

  /** The count is the number of positions at which a cell is missing. */
  lemma {:induction false} MissingCountIsPositions(cells: seq<Option<string>>)
    ensures MissingCount(cells) == |MissingPositions(cells)|
  {
    if cells != [] {
      var n := |cells| - 1;
      var init := cells[..n];
      MissingCountIsPositions(init);
      if cells[n].None? {
        assert MissingPositions(cells) == MissingPositions(init) + {n};
      } else {
        assert MissingPositions(cells) == MissingPositions(init);
      }
    }
  }

  /** A column has no missing count exactly when every cell is present, and a
      count equal to its length exactly when every cell is missing. */
  lemma {:induction false} MissingCountExtremes(cells: seq<Option<string>>)
    ensures MissingCount(cells) == 0 <==> forall i :: 0 <= i < |cells| ==> cells[i].Some?
    ensures MissingCount(cells) == |cells| <==> forall i :: 0 <= i < |cells| ==> cells[i].None?
  {
    if cells != [] {
      var n := |cells| - 1;
      var init := cells[..n];
      MissingCountExtremes(init);
      assert forall i :: 0 <= i < n ==> cells[i] == init[i];
    }
  }

  /** The non-missing cells, in order (`df[col].dropna()`). */
  function Present(cells: seq<Option<string>>): (r: seq<string>)
  {
    if cells == [] then []
    else Present(cells[..|cells| - 1]) +
         (if cells[|cells| - 1].Some? then [cells[|cells| - 1].value] else [])
  }

  /** Dropping the missing cells removes exactly the counted ones. */
  lemma {:induction false} PresentLength(cells: seq<Option<string>>)
    ensures |Present(cells)| + MissingCount(cells) == |cells|
  {
    if cells != [] {
      PresentLength(cells[..|cells| - 1]);
    }
  }

  /** `dropna()` keeps a value exactly when some cell holds it. */
  lemma {:induction false} PresentKeeps(cells: seq<Option<string>>)
    ensures forall x :: x in Present(cells) <==> Some(x) in cells
  {
    if cells != [] {
      var n := |cells| - 1;
      var init := cells[..n];
      PresentKeeps(init);
      assert cells == init + [cells[n]];
    }
  }

  /** `dropna()` of two runs of cells is the `dropna()` of each, in order: so
      the kept values keep their relative order. */
  lemma {:induction false} PresentConcat(a: seq<Option<string>>, b: seq<Option<string>>)
    ensures Present(a + b) == Present(a) + Present(b)
  {
    if b == [] {
      assert a + b == a;
    } else {
      var n := |b| - 1;
      assert (a + b)[..|a + b| - 1] == a + b[..n];
      PresentConcat(a, b[..n]);
    }
  }

  /** The missing-value series: one (column name, missing count) entry per
      column, in column order. */
  function MissingValues(t: Table): (r: seq<(string, nat)>)
    ensures |r| == |t.columns|
    ensures forall i :: 0 <= i < |r| ==>
              r[i].0 == t.columns[i].name && r[i].1 <= |t.columns[i].cells|
  {
    seq(|t.columns|, i requires 0 <= i < |t.columns| =>
      (t.columns[i].name, MissingCount(t.columns[i].cells)))
  }

  /** Each count of a loaded table lies in [0, row count], and is the number of
      missing positions of its column. */
  lemma MissingWithinRows(t: Table, i: nat)
    requires WellFormed(t) && i < |t.columns|
    ensures MissingValues(t)[i].1 <= t.rows
    ensures MissingValues(t)[i].1 == |MissingPositions(t.columns[i].cells)|
  {
    assert t.columns[i] in t.columns;
    MissingCountIsPositions(t.columns[i].cells);
  }

  /** The sum of the counts of a missing-value series. */
  function TotalMissing(r: seq<(string, nat)>): nat
  {
    if r == [] then 0 else TotalMissing(r[..|r| - 1]) + r[|r| - 1].1
  }

  /** A series whose every count is at most `bound` sums to at most
      `bound` times its length. */
  lemma {:induction false} TotalMissingAtMost(r: seq<(string, nat)>, bound: nat)
    requires forall i :: 0 <= i < |r| ==> r[i].1 <= bound
    ensures TotalMissing(r) <= bound * |r|
  {
    if r != [] {
      var init := r[..|r| - 1];
      TotalMissingAtMost(init, bound);
      assert bound * |r| == bound * |init| + bound;
    }
  }

  /** All counts together are at most rows times columns. */
  lemma TotalMissingBound(t: Table)
    requires WellFormed(t)
    ensures TotalMissing(MissingValues(t)) <= t.rows * |t.columns|
  {
    forall i | 0 <= i < |t.columns|
      ensures MissingValues(t)[i].1 <= t.rows
    {
      MissingWithinRows(t, i);
    }
    TotalMissingAtMost(MissingValues(t), t.rows);
  }
}
