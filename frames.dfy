/**
 * The pandas DataFrame as the analyzer, the CSV loader and the database
 * reader see it: named columns with a dtype each, and rows of cells.
 */
module Frames {

  /** One cell. `Missing` stands for NaN, None and NaT alike (what `isnull` reports). */
  datatype Cell =
    | Missing
    | IntVal(i: int)
    | RealVal(r: real)
    | BoolVal(b: bool)
    | TextVal(s: string)
    | TimeVal(ns: int)

  datatype DType = Int64 | Float64 | Boolean | Object | Category | DateTime64

  /** `str(dtype)` */
  function DTypeName(t: DType): string
  {
    match t
    case Int64 => "int64"
    case Float64 => "float64"
    case Boolean => "bool"
    case Object => "object"
    case Category => "category"
    case DateTime64 => "datetime64[ns]"
  }

  /** `select_dtypes(include=['number'])`: integers and floats, not booleans. */
  predicate IsNumeric(t: DType)
  {
    t == Int64 || t == Float64
  }

  /** `select_dtypes(include=['object', 'category'])` */
  predicate IsCategorical(t: DType)
  {
    t == Object || t == Category
  }

  datatype Frame = Frame(columns: seq<string>, dtypes: seq<DType>, rows: seq<seq<Cell>>)

  /** One dtype per column, no column name twice, every row as wide as the header. */
  predicate WellFormed(f: Frame)
  {
    && |f.dtypes| == |f.columns|
    && (forall i, j :: 0 <= i < j < |f.columns| ==> f.columns[i] != f.columns[j])
    && (forall k :: 0 <= k < |f.rows| ==> |f.rows[k]| == |f.columns|)
  }

  type DataFrame = f: Frame | WellFormed(f) witness Frame([], [], [])

  /** `df.empty`: no rows or no columns. */
  predicate IsEmpty(f: Frame)
  {
    |f.rows| == 0 || |f.columns| == 0
  }

  /** The position of the column named `c`. */
  function IndexOf(f: DataFrame, c: string): (j: nat)
    requires c in f.columns
    ensures j < |f.columns| && f.columns[j] == c
  {
    var j :| 0 <= j < |f.columns| && f.columns[j] == c;
    j
  }

  /** `df[c]` as the sequence of its cells. */
  function ColumnCells(f: DataFrame, c: string): (cells: seq<Cell>)
    requires c in f.columns
    ensures |cells| == |f.rows|
  {
    var j := IndexOf(f, c);
    seq(|f.rows|, k requires 0 <= k < |f.rows| => f.rows[k][j])
  }

  function DTypeOf(f: DataFrame, c: string): DType
    requires c in f.columns
  {
    f.dtypes[IndexOf(f, c)]
  }
}
