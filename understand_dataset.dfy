/**
 * `DataSetAnalyzer` (src/analysis/understandDataset.py): an analyzer owns one
 * `results` dictionary for its whole life; `analyze` writes its keys one by
 * one and returns that same dictionary.
 *
 * Only what can be stated exactly is modelled: the keys written, the shape,
 * the head, the per-column null and distinct counts, the dtype labels, the
 * value counts of categorical columns and the duplicate-row count. Entries
 * holding floating-point statistics record only which columns they cover.
 */
module UnderstandDataset {
  import opened Python
  import opened Frames

  // ---------------------------------------------------------------------
  // Counts over one column

  /** `series.isnull().sum()` */
  function NullCount(cells: seq<Cell>): (n: nat)
    ensures n <= |cells|
  {
    if cells == [] then 0 else (if cells[0].Missing? then 1 else 0) + NullCount(cells[1..])
  }

  /** No null at all gives 0, only nulls gives the length, and conversely. */
  lemma {:induction false} NullCountExtremes(cells: seq<Cell>)
    ensures NullCount(cells) == 0 <==> forall i :: 0 <= i < |cells| ==> !cells[i].Missing?
    ensures NullCount(cells) == |cells| <==> forall i :: 0 <= i < |cells| ==> cells[i].Missing?
  {
    if cells != [] {
      NullCountExtremes(cells[1..]);
      assert forall i :: 1 <= i < |cells| ==> cells[i] == cells[1..][i - 1];
    }
  }

  /** The distinct non-null values of a column. */
  function DistinctValues(cells: seq<Cell>): set<Cell>
  {
    if cells == [] then {}
    else (if cells[0].Missing? then {} else {cells[0]}) + DistinctValues(cells[1..])
  }

  lemma {:induction false} InDistinctValues(cells: seq<Cell>, v: Cell)
    ensures v in DistinctValues(cells) <==> !v.Missing? && v in cells
  {
    if cells != [] {
      InDistinctValues(cells[1..], v);
      assert cells == [cells[0]] + cells[1..];
    }
  }

  /** `series.nunique()`: nulls are not counted. */
  function UniqueCount(cells: seq<Cell>): nat
  {
    |DistinctValues(cells)|
  }

  /** A column has at most as many distinct values as non-null cells. */
  lemma {:induction false} UniqueCountBound(cells: seq<Cell>)
    ensures UniqueCount(cells) + NullCount(cells) <= |cells|
  {
    if cells != [] {
      UniqueCountBound(cells[1..]);
      var head: set<Cell> := if cells[0].Missing? then {} else {cells[0]};
      assert |head + DistinctValues(cells[1..])| <= |head| + |DistinctValues(cells[1..])|;
    }
  }

  function Occurrences(cells: seq<Cell>, v: Cell): nat
  {
    if cells == [] then 0 else (if cells[0] == v then 1 else 0) + Occurrences(cells[1..], v)
  }

  lemma {:induction false} OccursIffPresent(cells: seq<Cell>, v: Cell)
    ensures Occurrences(cells, v) > 0 <==> v in cells
  {
    if cells != [] {
      OccursIffPresent(cells[1..], v);
      assert cells == [cells[0]] + cells[1..];
    }
  }

  /** `series.value_counts().to_dict()`: each non-null value with its number of occurrences. */
  function ValueCounts(cells: seq<Cell>): map<Cell, nat>
  {
    map v | v in DistinctValues(cells) :: Occurrences(cells, v)
  }

  /** The value counts list exactly the non-null values present, each at least once. */
  lemma ValueCountsShape(cells: seq<Cell>)
    ensures forall v :: v in ValueCounts(cells) <==> !v.Missing? && v in cells
    ensures forall v :: v in ValueCounts(cells) ==> ValueCounts(cells)[v] >= 1
  {
    forall v ensures v in ValueCounts(cells) <==> !v.Missing? && v in cells {
      InDistinctValues(cells, v);
    }
    forall v | v in ValueCounts(cells) ensures ValueCounts(cells)[v] >= 1 {
      InDistinctValues(cells, v);
      OccursIffPresent(cells, v);
    }
  }

  // ---------------------------------------------------------------------
  // Duplicate rows

  /** `df.duplicated().sum()`: rows equal, cell by cell, to some earlier row. */
  function DuplicateCount(rows: seq<seq<Cell>>): nat
  {
    if rows == [] then 0
    else
      var init := rows[..|rows| - 1];
      DuplicateCount(init) + (if rows[|rows| - 1] in init then 1 else 0)
  }

  function RowSet(rows: seq<seq<Cell>>): set<seq<Cell>>
  {
    if rows == [] then {} else RowSet(rows[..|rows| - 1]) + {rows[|rows| - 1]}
  }

  lemma {:induction false} InRowSet(rows: seq<seq<Cell>>, x: seq<Cell>)
    ensures x in RowSet(rows) <==> x in rows
  {
    if rows != [] {
      InRowSet(rows[..|rows| - 1], x);
      assert rows == rows[..|rows| - 1] + [rows[|rows| - 1]];
    }
  }

  /** Every row is either the first of its kind or a duplicate. */
  lemma {:induction false} DuplicatesAndDistinctRows(rows: seq<seq<Cell>>)
    ensures DuplicateCount(rows) + |RowSet(rows)| == |rows|
  {
    if rows != [] {
      var init, last := rows[..|rows| - 1], rows[|rows| - 1];
      DuplicatesAndDistinctRows(init);
      InRowSet(init, last);
      if last in init {
        assert RowSet(rows) == RowSet(init);
      } else {
        assert |RowSet(init) + {last}| == |RowSet(init)| + 1;
      }
    }
  }

  /** At most every row but one is a duplicate. */
  lemma DuplicateBound(rows: seq<seq<Cell>>)
    ensures DuplicateCount(rows) <= if rows == [] then 0 else |rows| - 1
  {
    DuplicatesAndDistinctRows(rows);
    if rows != [] {
      InRowSet(rows, rows[0]);
      assert rows[0] in RowSet(rows);
    }
  }

  // ---------------------------------------------------------------------
  // The report

  /** The value stored under one key of `results`. */
  datatype Report =
    | Info(text: string)
    | Shape(rowCount: nat, columnCount: nat)
    | Head(headColumns: seq<string>, headRows: seq<seq<Cell>>)
    | Counts(counts: map<string, nat>)
    | Labels(labels: map<string, string>)
    | Keyed(keys: set<string>)
    | Frequencies(frequencies: map<string, map<Cell, nat>>)
    | Count(n: nat)

  /** The keys `analyze` writes into `results`. */
  datatype Key =
    | BasicInfo | ShapeKey | FirstRows | MissingValues | DescriptiveStats | DataTypes
    | MemoryUsage | UniqueValues | NumericAnalysis | CategoricalAnalysis | DuplicateRows | CorrelationMatrix

  /** The text of each key in the Python dictionary. */
  function KeyName(k: Key): string
  {
    match k
    case BasicInfo => "Basic Info"
    case ShapeKey => "Shape"
    case FirstRows => "First Rows"
    case MissingValues => "Missing Values"
    case DescriptiveStats => "Descriptive Stats"
    case DataTypes => "Data Types"
    case MemoryUsage => "Memory Usage"
    case UniqueValues => "Unique Values"
    case NumericAnalysis => "Numeric Analysis"
    case CategoricalAnalysis => "Categorical Analysis"
    case DuplicateRows => "Duplicate Rows"
    case CorrelationMatrix => "Correlation Matrix"
  }

  const AnalysisFailed := "Error during dataset analysis: "
  const NoColumns := "Cannot describe a DataFrame without columns"

  function ColumnSet(df: DataFrame): set<string>
  {
    set c | c in df.columns
  }

  function NumericColumns(df: DataFrame): set<string>
  {
    set c | c in df.columns && IsNumeric(DTypeOf(df, c))
  }

  function CategoricalColumns(df: DataFrame): set<string>
  {
    set c | c in df.columns && IsCategorical(DTypeOf(df, c))
  }

  /** `df.head()`: the first five rows. */
  function HeadRows(df: DataFrame): seq<seq<Cell>>
  {
    if |df.rows| <= 5 then df.rows else df.rows[..5]
  }

  /** `df.isnull().sum().to_dict()` */
  function MissingCounts(df: DataFrame): (m: map<string, nat>)
    ensures m.Keys == ColumnSet(df)
    ensures forall c :: c in m ==> m[c] <= |df.rows|
  {
    map c | c in df.columns :: NullCount(ColumnCells(df, c))
  }

  /** `df.dtypes.apply(str).to_dict()` */
  function TypeLabels(df: DataFrame): (m: map<string, string>)
    ensures m.Keys == ColumnSet(df)
  {
    map c | c in df.columns :: DTypeName(DTypeOf(df, c))
  }

  /** `df.nunique().to_dict()` */
  function UniqueCounts(df: DataFrame): (m: map<string, nat>)
    ensures m.Keys == ColumnSet(df)
  {
    map c | c in df.columns :: UniqueCount(ColumnCells(df, c))
  }

  /** `value_counts().to_dict()` for every categorical column. */
  function CategoryFrequencies(df: DataFrame): (m: map<string, map<Cell, nat>>)
    ensures m.Keys == CategoricalColumns(df)
  {
    map c | c in CategoricalColumns(df) :: ValueCounts(ColumnCells(df, c))
  }

  /**
   * `results` after the assignments made before `describe` runs: `df.info`
   * prints and returns None, so "Basic Info" holds the text "None".
   */
  function WithOverview(m: map<Key, Report>, df: DataFrame): map<Key, Report>
  {
    m[BasicInfo := Info("None")]
     [ShapeKey := Shape(|df.rows|, |df.columns|)]
     [FirstRows := Head(df.columns, HeadRows(df))]
     [MissingValues := Counts(MissingCounts(df))]
  }

  /**
   * `results` after the assignments made from `describe` on, on a frame
   * that has columns; the correlation matrix only when a column is numeric.
   */
  function WithProfile(m: map<Key, Report>, df: DataFrame): map<Key, Report>
  {
    var p := m[DescriptiveStats := Keyed(ColumnSet(df))]
              [DataTypes := Labels(TypeLabels(df))]
              [MemoryUsage := Keyed({"Index"} + ColumnSet(df))]
              [UniqueValues := Counts(UniqueCounts(df))]
              [NumericAnalysis := Keyed(NumericColumns(df))]
              [CategoricalAnalysis := Frequencies(CategoryFrequencies(df))]
              [DuplicateRows := Count(DuplicateCount(df.rows))];
    if NumericColumns(df) != {} then p[CorrelationMatrix := Keyed(NumericColumns(df))] else p
  }

  /** The keys every call writes, and the ones a call that gets past `describe` adds. */
  const OverviewKeys: set<Key> := {BasicInfo, ShapeKey, FirstRows, MissingValues}
  const ProfileKeys: set<Key> :=
    {DescriptiveStats, DataTypes, MemoryUsage, UniqueValues, NumericAnalysis, CategoricalAnalysis, DuplicateRows}

  /** The dictionary that backs `self.results`. */
  class ResultsDict {
    var entries: map<Key, Report>

    constructor ()
      ensures entries == map[]
    {
      entries := map[];
    }

    method Set(key: Key, value: Report)
      modifies this
      ensures entries == old(entries)[key := value]
    {
      entries := entries[key := value];
    }
  }

  class DataSetAnalyzer {
    const results: ResultsDict

    /** `results` is created once, empty, with the analyzer. */
    constructor ()
      ensures fresh(results) && results.entries == map[]
    {
      results := new ResultsDict();
    }

    /**
     * `analyze(df)`. On a frame with columns every key is (re)written and the
     * very `results` object is returned; on a frame without columns
     * `describe` raises after the overview keys were written, and those stay.
     * Keys of earlier calls that this call does not write are never removed.
     */
    method Analyze(df: DataFrame) returns (r: Result<ResultsDict>)
      modifies results
      ensures |df.columns| == 0 ==>
        r == Err(Wrap(AnalysisFailed, Raise(ValueError, NoColumns)))
        && results.entries == WithOverview(old(results.entries), df)
      ensures |df.columns| > 0 ==>
        r == Ok(results) && results.entries == WithProfile(WithOverview(old(results.entries), df), df)
    {
      results.Set(BasicInfo, Info("None"));
      results.Set(ShapeKey, Shape(|df.rows|, |df.columns|));
      results.Set(FirstRows, Head(df.columns, HeadRows(df)));
      results.Set(MissingValues, Counts(MissingCounts(df)));
      if |df.columns| == 0 {
        return Err(Wrap(AnalysisFailed, Raise(ValueError, NoColumns)));
      }
      results.Set(DescriptiveStats, Keyed(ColumnSet(df)));
      results.Set(DataTypes, Labels(TypeLabels(df)));
      results.Set(MemoryUsage, Keyed({"Index"} + ColumnSet(df)));
      results.Set(UniqueValues, Counts(UniqueCounts(df)));
      var numeric := NumericColumns(df);
      results.Set(NumericAnalysis, Keyed(numeric));
      results.Set(CategoricalAnalysis, Frequencies(CategoryFrequencies(df)));
      results.Set(DuplicateRows, Count(DuplicateCount(df.rows)));
      if numeric != {} {
        results.Set(CorrelationMatrix, Keyed(numeric));
      }
      r := Ok(results);
    }
  }

  // ---------------------------------------------------------------------
  // What the census promises

  /** The counts stored per column never exceed the row count; nulls and distinct values share the rows. */
  lemma CensusCountsBounded(df: DataFrame, c: string)
    requires c in df.columns
    ensures var cells := ColumnCells(df, c);
      NullCount(cells) <= |df.rows| && UniqueCount(cells) + NullCount(cells) <= |df.rows|
  {
    UniqueCountBound(ColumnCells(df, c));
  }

  /** The keys present after a call: the earlier ones, the overview, and the profile if there are columns. */
  lemma KeysAfterAnalyze(m: map<Key, Report>, df: DataFrame)
    ensures WithOverview(m, df).Keys == m.Keys + OverviewKeys
    ensures WithProfile(WithOverview(m, df), df).Keys ==
      m.Keys + OverviewKeys + ProfileKeys + (if NumericColumns(df) != {} then {CorrelationMatrix} else {})
  {
  }

  /** The correlation matrix is written exactly when some column is numeric. */
  lemma CorrelationIffNumeric(m: map<Key, Report>, df: DataFrame)
    requires CorrelationMatrix !in m
    ensures CorrelationMatrix in WithProfile(m, df) <==> exists c :: c in df.columns && IsNumeric(DTypeOf(df, c))
  {
    if exists c :: c in df.columns && IsNumeric(DTypeOf(df, c)) {
      var c :| c in df.columns && IsNumeric(DTypeOf(df, c));
      assert c in NumericColumns(df);
    }
  }

  /** The numeric and categorical analyses cover disjoint sets of columns, as the dtypes select them. */
  lemma AnalysisColumns(m: map<Key, Report>, df: DataFrame)
    ensures WithProfile(m, df)[NumericAnalysis].keys == NumericColumns(df)
    ensures WithProfile(m, df)[CategoricalAnalysis].frequencies.Keys == CategoricalColumns(df)
    ensures forall c :: c in NumericColumns(df) ==> c !in CategoricalColumns(df)
  {
    var p := WithProfile(m, df);
    assert p[NumericAnalysis] == Keyed(NumericColumns(df));
    assert p[CategoricalAnalysis] == Frequencies(CategoryFrequencies(df));
  }

  /** The duplicate count stored is at most the number of rows less one. */
  lemma StoredDuplicateBound(m: map<Key, Report>, df: DataFrame)
    requires |df.rows| > 0
    ensures WithProfile(m, df)[DuplicateRows].n < |df.rows|
  {
    DuplicateBound(df.rows);
  }

  /**
   * A correlation matrix from an earlier call survives a later call on a
   * frame without numeric columns: the dictionary is never cleared.
   */
  lemma StaleCorrelationSurvives(earlier: map<Key, Report>, df: DataFrame)
    requires CorrelationMatrix in earlier
    requires forall c :: c in df.columns ==> !IsNumeric(DTypeOf(df, c))
    ensures var after := WithProfile(WithOverview(earlier, df), df);
      CorrelationMatrix in after && after[CorrelationMatrix] == earlier[CorrelationMatrix]
  {
    assert NumericColumns(df) == {};
  }

  /** A failing call on a frame without columns keeps every key it does not write, with its value. */
  lemma FailureKeepsEntries(earlier: map<Key, Report>, df: DataFrame, k: Key)
    requires |df.columns| == 0 && k in earlier && k !in OverviewKeys
    ensures k in WithOverview(earlier, df) && WithOverview(earlier, df)[k] == earlier[k]
    ensures WithOverview(earlier, df)[ShapeKey] == Shape(|df.rows|, 0)
  {
  }
}
