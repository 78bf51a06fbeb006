/**
 * `TransformData.transform` (src/databaseOperations/transform_database.py):
 * drop the "On Time" rows, parse the date and timestamp columns, derive the
 * delay in minutes and the weekday name, rename two columns, and average the
 * delays per train into a summary table; then write both tables as CSV.
 *
 * A table is a header (`columns`) and a sequence of rows of a fixed record
 * shape; a field whose column is not in the header plays no part.
 */
module TransformDatabase {
  import opened Python
  import opened Text
  import Calendar

  /** A `date` or `timeStamp` cell: null, still text, or a parsed `datetime64[ns]` value. */
  datatype Temporal = Missing | Raw(text: string) | Stamp(ns: int)

  datatype Row = Row(
    trainId: Option<int>,
    direction: Option<string>,
    origin: Option<string>,
    nextStation: Option<string>,
    date: Temporal,
    status: Option<string>,
    timeStamp: Temporal,
    delayMinutes: Option<nat>,
    dayOfWeek: Option<string>)

  datatype Table = Table(columns: seq<string>, rows: seq<Row>)

  /** One row of `delay_summary`: a train and the mean of its delays (null when it has none). */
  datatype SummaryRow = SummaryRow(trainId: int, avgDelayMinutes: Option<real>)

  datatype Summary = Summary(columns: seq<string>, rows: seq<SummaryRow>)

  const OnTime := "On Time"
  const ErrorPrefix := "Error during data transformation: "

  // ---------------------------------------------------------------------
  // Step 1: df[df['status'] != 'On Time']

  /** A null status compares unequal to 'On Time', so only the exact text is dropped. */
  predicate IsOnTime(r: Row)
  {
    r.status == Some(OnTime)
  }

  function DropOnTime(rows: seq<Row>): (kept: seq<Row>)
    ensures |kept| <= |rows|
    ensures forall i :: 0 <= i < |kept| ==> !IsOnTime(kept[i])
    ensures forall i :: 0 <= i < |kept| ==> kept[i] in rows
  {
    if rows == [] then []
    else (if IsOnTime(rows[0]) then [] else [rows[0]]) + DropOnTime(rows[1..])
  }

  /** The filter works row by row: it distributes over concatenation, so order is kept. */
  lemma {:induction false} DropOnTimeConcat(a: seq<Row>, b: seq<Row>)
    ensures DropOnTime(a + b) == DropOnTime(a) + DropOnTime(b)
  {
    if a != [] {
      assert (a + b)[0] == a[0];
      assert (a + b)[1..] == a[1..] + b;
      DropOnTimeConcat(a[1..], b);
    } else {
      assert a + b == b;
    }
  }

  /** Every row whose status is not exactly 'On Time' (other casings, null) survives. */
  lemma KeepsOtherRows(rows: seq<Row>, i: nat)
    requires i < |rows| && !IsOnTime(rows[i])
    ensures rows[i] in DropOnTime(rows)
  {
    var before, after := rows[..i], rows[i + 1..];
    assert rows == before + ([rows[i]] + after);
    DropOnTimeConcat(before, [rows[i]] + after);
    DropOnTimeConcat([rows[i]], after);
    assert DropOnTime([rows[i]]) == [rows[i]] by {
      assert [rows[i]][1..] == [];
    }
  }

  // ---------------------------------------------------------------------
  // Step 2: pd.to_datetime on 'date' (format '%Y-%m-%d') and on 'timeStamp'

  /** The texts `pd.to_datetime` reads as NaT before any format applies: the empty string and pandas' NaT spellings. */
  const NaTTexts: set<string> := {"", "NaT", "nat", "NAT", "nan", "NaN", "NAN"}

  /**
   * One cell through a datetime parser: nulls and NaT texts become null,
   * datetimes stay as they are, any other text goes to the parser.
   */
  function ParseCell(c: Temporal, parse: string -> Result<int>): Result<Temporal>
  {
    match c
    case Missing => Ok(Missing)
    case Stamp(n) => Ok(Stamp(n))
    case Raw(s) =>
      if s in NaTTexts then Ok(Missing)
      else
        match parse(s)
        case Ok(n) => Ok(Stamp(n))
        case Err(e) => Err(e)
  }

  /**
   * A cell parses to a datetime exactly when it is one already or is text the
   * parser accepts, and to null exactly when it is null or a NaT text; the
   * parser's error is the cell's error.
   */
  lemma ParseCellCases(c: Temporal, parse: string -> Result<int>)
    ensures ParseCell(c, parse) == Ok(Missing) <==> c.Missing? || (c.Raw? && c.text in NaTTexts)
    ensures ParseCell(c, parse).Ok? && ParseCell(c, parse).value.Stamp? <==>
      c.Stamp? || (c.Raw? && c.text !in NaTTexts && parse(c.text).Ok?)
    ensures c.Raw? && c.text !in NaTTexts && parse(c.text).Err? ==> ParseCell(c, parse) == Err(parse(c.text).error)
    ensures ParseCell(c, parse).Ok? ==> !ParseCell(c, parse).value.Raw?
  {
  }

  /**
   * A whole column through the parser: every cell converted, or the error of
   * the first cell that does not parse.
   */
  function ParseColumn(cells: seq<Temporal>, parse: string -> Result<int>): (r: Result<seq<Temporal>>)
    ensures r.Ok? ==> |r.value| == |cells|
    ensures r.Ok? ==> forall i :: 0 <= i < |cells| ==> ParseCell(cells[i], parse) == Ok(r.value[i])
    ensures r.Err? ==> exists k :: 0 <= k < |cells| && ParseCell(cells[k], parse) == Err(r.error)
                                   && forall j :: 0 <= j < k ==> ParseCell(cells[j], parse).Ok?
  {
    if cells == [] then Ok([])
    else
      match ParseCell(cells[0], parse)
      case Err(e) => Err(e)
      case Ok(c) =>
        match ParseColumn(cells[1..], parse)
        case Err(e) =>
          ghost var k :| 0 <= k < |cells| - 1 && ParseCell(cells[1..][k], parse) == Err(e)
                         && forall j :: 0 <= j < k ==> ParseCell(cells[1..][j], parse).Ok?;
          assert ParseCell(cells[k + 1], parse) == Err(e);
          assert forall j :: 0 <= j < k + 1 ==> ParseCell(cells[j], parse).Ok? by {
            forall j | 0 <= j < k + 1 ensures ParseCell(cells[j], parse).Ok? {
              if j > 0 { assert cells[j] == cells[1..][j - 1]; }
            }
          }
          Err(e)
        case Ok(rest) => Ok([c] + rest)
  }

  /** A column parses exactly when each of its cells does. */
  lemma ParseColumnOkIff(cells: seq<Temporal>, parse: string -> Result<int>)
    ensures ParseColumn(cells, parse).Ok? <==> forall i :: 0 <= i < |cells| ==> ParseCell(cells[i], parse).Ok?
  {
  }

  function DateCells(rows: seq<Row>): (cells: seq<Temporal>)
    ensures |cells| == |rows| && forall i :: 0 <= i < |rows| ==> cells[i] == rows[i].date
  {
    seq(|rows|, i requires 0 <= i < |rows| => rows[i].date)
  }

  function TimeStampCells(rows: seq<Row>): (cells: seq<Temporal>)
    ensures |cells| == |rows| && forall i :: 0 <= i < |rows| ==> cells[i] == rows[i].timeStamp
  {
    seq(|rows|, i requires 0 <= i < |rows| => rows[i].timeStamp)
  }

  /** `df['date'] = cells`: the column replaced, every other field kept. */
  function SetDates(rows: seq<Row>, cells: seq<Temporal>): (r: seq<Row>)
    requires |cells| == |rows|
    ensures |r| == |rows| && forall i :: 0 <= i < |rows| ==> r[i] == rows[i].(date := cells[i])
  {
    seq(|rows|, i requires 0 <= i < |rows| => rows[i].(date := cells[i]))
  }

  /** `df['timeStamp'] = cells` */
  function SetTimeStamps(rows: seq<Row>, cells: seq<Temporal>): (r: seq<Row>)
    requires |cells| == |rows|
    ensures |r| == |rows| && forall i :: 0 <= i < |rows| ==> r[i] == rows[i].(timeStamp := cells[i])
  {
    seq(|rows|, i requires 0 <= i < |rows| => rows[i].(timeStamp := cells[i]))
  }

  // ---------------------------------------------------------------------
  // Step 3: df['status'].str.extract(r'(\d+)').astype(float)

  /** The longest prefix of `s` made of digits. */
  function DigitPrefix(s: string): (p: string)
    ensures p <= s && AllDigits(p)
    ensures |p| == |s| || !IsDigit(s[|p|])
  {
    if s != [] && IsDigit(s[0]) then [s[0]] + DigitPrefix(s[1..]) else []
  }

  predicate NoDigit(s: string)
  {
    forall i :: 0 <= i < |s| ==> !IsDigit(s[i])
  }

  /**
   * The value of the leftmost maximal run of decimal digits in `s`, as the
   * first match of `\d+` captures it; None when `s` holds no digit.
   */
  function FirstDigitRun(s: string): (r: Option<nat>)
    ensures r.None? <==> NoDigit(s)
  {
    if s == [] then None
    else if IsDigit(s[0]) then Some(DecimalValue(DigitPrefix(s)))
    else FirstDigitRun(s[1..])
  }

  lemma {:induction false} DigitPrefixOfRun(digits: string, suffix: string)
    requires AllDigits(digits)
    requires suffix == [] || !IsDigit(suffix[0])
    ensures DigitPrefix(digits + suffix) == digits
  {
    if digits != [] {
      assert (digits + suffix)[1..] == digits[1..] + suffix;
      DigitPrefixOfRun(digits[1..], suffix);
    } else {
      assert digits + suffix == suffix;
    }
  }

  /**
   * Reading back a delay written into a status: the number written after a
   * digit-free prefix and before a non-digit is the delay extracted.
   */
  lemma {:induction false} DelayRoundTrip(prefix: string, n: nat, suffix: string)
    requires NoDigit(prefix)
    requires suffix == [] || !IsDigit(suffix[0])
    ensures FirstDigitRun(prefix + DecimalText(n) + suffix) == Some(n)
  {
    var s := prefix + DecimalText(n) + suffix;
    if prefix == [] {
      assert s == DecimalText(n) + suffix;
      DigitPrefixOfRun(DecimalText(n), suffix);
      DecimalRoundTrip(n);
    } else {
      assert !IsDigit(s[0]);
      assert s[1..] == prefix[1..] + DecimalText(n) + suffix;
      DelayRoundTrip(prefix[1..], n, suffix);
    }
  }

  lemma LateThreeMinutes()
    ensures FirstDigitRun("late 3 min") == Some(3)
  {
    assert DecimalText(3) == "3";
    DelayRoundTrip("late ", 3, " min");
    assert "late " + "3" + " min" == "late 3 min";
  }

  /** The delay of a row: the first digit run of its status; null for a null status. */
  function Delay(r: Row): (d: Option<nat>)
    ensures d.Some? ==> r.status.Some? && FirstDigitRun(r.status.value) == d
    ensures d.None? <==> r.status.None? || NoDigit(r.status.value)
  {
    match r.status
    case None => None
    case Some(s) => FirstDigitRun(s)
  }

  function AddDelays(rows: seq<Row>): (r: seq<Row>)
    ensures |r| == |rows| && forall i :: 0 <= i < |rows| ==> r[i] == rows[i].(delayMinutes := Delay(rows[i]))
  {
    seq(|rows|, i requires 0 <= i < |rows| => rows[i].(delayMinutes := Delay(rows[i])))
  }

  // ---------------------------------------------------------------------
  // Step 3 (cont.): df['date'].dt.day_name()

  /** The weekday of a parsed cell; NaT and anything unparsed give null. */
  function DayOf(c: Temporal): (name: Option<string>)
    ensures name.Some? <==> c.Stamp?
    ensures c.Stamp? ==> name.value in Calendar.DayNames
  {
    match c
    case Stamp(n) => Some(Calendar.DayName(n))
    case _ => None
  }

  function AddDayNames(rows: seq<Row>): (r: seq<Row>)
    ensures |r| == |rows| && forall i :: 0 <= i < |rows| ==> r[i] == rows[i].(dayOfWeek := DayOf(rows[i].date))
  {
    seq(|rows|, i requires 0 <= i < |rows| => rows[i].(dayOfWeek := DayOf(rows[i].date)))
  }

  // ---------------------------------------------------------------------
  // Column names: assignment of new columns and step 4, the rename

  const RequiredColumns := ["status", "date", "timeStamp", "train_id"]

  /** `df[c] = ...` appends the column `c` unless it is already there. */
  function AddColumn(cols: seq<string>, c: string): (r: seq<string>)
    ensures c in r && forall x :: x in cols ==> x in r
    ensures forall x :: x in r ==> x in cols || x == c
  {
    if c in cols then cols else cols + [c]
  }

  function RenameColumn(c: string): string
  {
    if c == "next_station" then "nextStation"
    else if c == "origin" then "originStation"
    else c
  }

  /** `rename(columns={'next_station': 'nextStation', 'origin': 'originStation'})` */
  function RenameColumns(cols: seq<string>): (r: seq<string>)
    ensures |r| == |cols| && forall i :: 0 <= i < |cols| ==> r[i] == RenameColumn(cols[i])
  {
    seq(|cols|, i requires 0 <= i < |cols| => RenameColumn(cols[i]))
  }

  /**
   * The rename touches exactly the two old names: they are gone afterwards,
   * their new names take their places, and every other name stays where it was.
   */
  lemma RenameEffect(cols: seq<string>)
    ensures "next_station" !in RenameColumns(cols) && "origin" !in RenameColumns(cols)
    ensures forall i :: 0 <= i < |cols| && cols[i] == "next_station" ==> RenameColumns(cols)[i] == "nextStation"
    ensures forall i :: 0 <= i < |cols| && cols[i] == "origin" ==> RenameColumns(cols)[i] == "originStation"
    ensures forall i :: 0 <= i < |cols| && cols[i] != "next_station" && cols[i] != "origin" ==>
      RenameColumns(cols)[i] == cols[i]
  {
  }

  /** A name the rename neither removes nor produces is present after it exactly when it was before. */
  lemma RenameKeeps(cols: seq<string>, c: string)
    requires c != "next_station" && c != "origin" && c != "nextStation" && c != "originStation"
    ensures c in RenameColumns(cols) <==> c in cols
  {
    var r := RenameColumns(cols);
    if c in cols {
      var i :| 0 <= i < |cols| && cols[i] == c;
      assert r[i] == c;
    }
    if c in r {
      var i :| 0 <= i < |r| && r[i] == c;
      assert cols[i] == c;
    }
  }

  const RawColumns := ["train_id", "direction", "origin", "next_station", "date", "status", "timeStamp"]
  const CleanColumns := ["train_id", "direction", "originStation", "nextStation", "date", "status",
                         "timeStamp", "delay_minutes", "day_of_week"]

  /** The column names of the train-status dataset after the transform. */
  lemma CleanColumnsOfRawColumns()
    ensures RenameColumns(AddColumn(AddColumn(RawColumns, "delay_minutes"), "day_of_week")) == CleanColumns
  {
    assert "delay_minutes" !in RawColumns;
    var withDelay := RawColumns + ["delay_minutes"];
    assert "day_of_week" !in withDelay;
  }

  // ---------------------------------------------------------------------
  // Step 5: df.groupby('train_id')['delay_minutes'].mean().reset_index()

  /** The non-null delays of the rows of train `id`, in row order. */
  function Delays(rows: seq<Row>, id: int): seq<nat>
  {
    if rows == [] then []
    else
      (if rows[0].trainId == Some(id) && rows[0].delayMinutes.Some? then [rows[0].delayMinutes.value] else [])
      + Delays(rows[1..], id)
  }

  lemma {:induction false} DelaysEmptyIff(rows: seq<Row>, id: int)
    ensures Delays(rows, id) == [] <==>
      forall i :: 0 <= i < |rows| && rows[i].trainId == Some(id) ==> rows[i].delayMinutes.None?
  {
    if rows != [] {
      DelaysEmptyIff(rows[1..], id);
      assert forall i :: 1 <= i < |rows| ==> rows[i] == rows[1..][i - 1];
    }
  }

  function Sum(ds: seq<nat>): nat
  {
    if ds == [] then 0 else ds[0] + Sum(ds[1..])
  }

  /** The mean that skips nulls: None (NaN) for a group without a delay. */
  function Mean(ds: seq<nat>): (m: Option<real>)
    ensures m.None? <==> ds == []
    ensures m.Some? ==> m.value * (|ds| as real) == Sum(ds) as real
  {
    if ds == [] then None else Some((Sum(ds) as real) / (|ds| as real))
  }

  lemma {:induction false} SumBounds(ds: seq<nat>, lo: nat, hi: nat)
    requires forall i :: 0 <= i < |ds| ==> lo <= ds[i] <= hi
    ensures |ds| * lo <= Sum(ds) <= |ds| * hi
  {
    if ds != [] {
      var rest := ds[1..];
      assert forall i :: 0 <= i < |rest| ==> rest[i] == ds[i + 1];
      SumBounds(rest, lo, hi);
      assert Sum(ds) == ds[0] + Sum(rest);
      OneMoreTimes(|rest|, lo);
      OneMoreTimes(|rest|, hi);
    }
  }

  lemma OneMoreTimes(n: nat, x: nat)
    ensures (n + 1) * x == n * x + x
  {
  }

  /** The mean lies between any lower and upper bound of the delays it averages. */
  lemma MeanBetween(ds: seq<nat>, lo: nat, hi: nat)
    requires ds != []
    requires forall i :: 0 <= i < |ds| ==> lo <= ds[i] <= hi
    ensures lo as real <= Mean(ds).value <= hi as real
  {
    SumBounds(ds, lo, hi);
    QuotientBounds(Sum(ds), |ds|, lo, hi);
  }

  lemma QuotientBounds(total: nat, count: nat, lo: nat, hi: nat)
    requires count > 0 && count * lo <= total <= count * hi
    ensures lo as real <= (total as real) / (count as real) <= hi as real
  {
    var n := count as real;
    var q := (total as real) / n;
    CastProduct(lo, count);
    CastProduct(hi, count);
    assert q * n == total as real;
    ScaleCancels(lo as real, q, n);
    ScaleCancels(q, hi as real, n);
  }

  lemma CastProduct(a: nat, b: nat)
    ensures (a * b) as real == (a as real) * (b as real)
  {
  }

  lemma ScaleCancels(a: real, b: real, n: real)
    requires n > 0.0 && a * n <= b * n
    ensures a <= b
  {
  }

  /** The distinct non-null train ids (groupby drops null keys). */
  function TrainIds(rows: seq<Row>): set<int>
  {
    if rows == [] then {}
    else (match rows[0].trainId case None => {} case Some(x) => {x}) + TrainIds(rows[1..])
  }

  lemma {:induction false} InTrainIds(rows: seq<Row>, x: int)
    ensures x in TrainIds(rows) <==> exists i :: 0 <= i < |rows| && rows[i].trainId == Some(x)
  {
    if rows != [] {
      InTrainIds(rows[1..], x);
      if exists i :: 0 <= i < |rows| && rows[i].trainId == Some(x) {
        var i :| 0 <= i < |rows| && rows[i].trainId == Some(x);
        if i > 0 { assert rows[1..][i - 1] == rows[i]; }
      }
      if exists i :: 0 <= i < |rows[1..]| && rows[1..][i].trainId == Some(x) {
        var i :| 0 <= i < |rows[1..]| && rows[1..][i].trainId == Some(x);
        assert rows[i + 1] == rows[1..][i];
      }
    }
  }

  predicate Increasing(s: seq<int>)
  {
    forall i, j :: 0 <= i < j < |s| ==> s[i] < s[j]
  }

  function Insert(s: seq<int>, x: int): (r: seq<int>)
    requires Increasing(s)
    ensures Increasing(r)
    ensures forall y :: y in r <==> y in s || y == x
  {
    if s == [] then [x]
    else if x < s[0] then [x] + s
    else if x == s[0] then s
    else
      var tail := Insert(s[1..], x);
      assert forall y :: y in tail ==> s[0] < y by {
        forall y | y in tail ensures s[0] < y {
          if y in s[1..] {
            var k :| 0 <= k < |s[1..]| && s[1..][k] == y;
            assert s[k + 1] == y;
          }
        }
      }
      var r := [s[0]] + tail;
      assert forall i, j :: 0 <= i < j < |r| ==> r[i] < r[j] by {
        forall i, j | 0 <= i < j < |r| ensures r[i] < r[j] {
          assert r[j] == tail[j - 1];
          if i > 0 { assert r[i] == tail[i - 1]; }
          else { assert tail[j - 1] in tail; }
        }
      }
      r
  }

  /** The group keys in ascending order, each once. */
  function SortedIds(rows: seq<Row>): (ids: seq<int>)
    ensures Increasing(ids)
    ensures forall x :: x in ids <==> x in TrainIds(rows)
  {
    if rows == [] then []
    else
      match rows[0].trainId
      case None => SortedIds(rows[1..])
      case Some(x) => Insert(SortedIds(rows[1..]), x)
  }

  /**
   * The summary: one row per distinct non-null train id of `rows`, in
   * ascending order, holding the mean of that train's non-null delays.
   */
  function Summarize(rows: seq<Row>): (s: seq<SummaryRow>)
    ensures forall i, j :: 0 <= i < j < |s| ==> s[i].trainId < s[j].trainId
    ensures forall x :: x in TrainIds(rows) <==> exists i :: 0 <= i < |s| && s[i].trainId == x
    ensures forall i :: 0 <= i < |s| ==> s[i].avgDelayMinutes == Mean(Delays(rows, s[i].trainId))
  {
    var ids := SortedIds(rows);
    var s := seq(|ids|, i requires 0 <= i < |ids| => SummaryRow(ids[i], Mean(Delays(rows, ids[i]))));
    assert forall x :: x in ids <==> exists i :: 0 <= i < |s| && s[i].trainId == x by {
      forall x | x in ids ensures exists i :: 0 <= i < |s| && s[i].trainId == x {
        var i :| 0 <= i < |ids| && ids[i] == x;
        assert s[i].trainId == x;
      }
    }
    s
  }

  /** A train's mean is null exactly when none of its rows has a delay. */
  lemma SummaryNullMean(rows: seq<Row>, i: nat)
    requires i < |Summarize(rows)|
    ensures Summarize(rows)[i].avgDelayMinutes.None? <==>
      forall k :: 0 <= k < |rows| && rows[k].trainId == Some(Summarize(rows)[i].trainId) ==> rows[k].delayMinutes.None?
  {
    DelaysEmptyIff(rows, Summarize(rows)[i].trainId);
  }

  const SummaryColumns := ["train_id", "avg_delay_minutes"]

  /** `reset_index()` gives the key and the value column; the rename changes the latter. */
  function SummaryHeader(): (cols: seq<string>)
    ensures cols == SummaryColumns
  {
    var cols := ["train_id", "delay_minutes"];
    seq(|cols|, i requires 0 <= i < |cols| => if cols[i] == "delay_minutes" then "avg_delay_minutes" else cols[i])
  }

  // ---------------------------------------------------------------------
  // The whole transform

  /**
   * What a cleaned row holds in terms of the input row it comes from: the
   * same id, direction, stations and status; the parsed date and timestamp;
   * the extracted delay; and the weekday of the parsed date.
   */
  predicate CleanedFrom(raw: Row, clean: Row, parseTimestamp: string -> Result<int>)
  {
    clean.trainId == raw.trainId && clean.direction == raw.direction && clean.origin == raw.origin
    && clean.nextStation == raw.nextStation && clean.status == raw.status
    && ParseCell(raw.date, Calendar.ToDatetime) == Ok(clean.date)
    && ParseCell(raw.timeStamp, parseTimestamp) == Ok(clean.timeStamp)
    && clean.delayMinutes == Delay(raw)
    && clean.dayOfWeek == DayOf(clean.date)
  }

  /** The weekday of a cleaned row is the calendar weekday of the date text it was parsed from. */
  lemma CleanedWeekday(raw: Row, clean: Row, parseTimestamp: string -> Result<int>)
    requires CleanedFrom(raw, clean, parseTimestamp)
    requires raw.date.Raw? && raw.date.text !in NaTTexts
    ensures Calendar.ParseIsoDate(raw.date.text).Some?
    ensures var d := Calendar.ParseIsoDate(raw.date.text).value;
            d.year >= 1 && clean.dayOfWeek == Some(Calendar.DayNames[Calendar.WeekdayIndex(d)])
  {
    var d := Calendar.ParseIsoDate(raw.date.text).value;
    Calendar.DayNameOfMidnight(d);
  }

  /** An empty or NaT date text keeps its row, with a null date and a null weekday. */
  lemma NaTDateKeepsRow(raw: Row, clean: Row, parseTimestamp: string -> Result<int>)
    requires CleanedFrom(raw, clean, parseTimestamp)
    requires raw.date.Raw? && raw.date.text in NaTTexts
    ensures clean.date == Missing && clean.dayOfWeek == None
  {
  }

  lemma CleanedRows(kept: seq<Row>, dates: seq<Temporal>, stamps: seq<Temporal>,
                    parseTimestamp: string -> Result<int>)
    requires ParseColumn(DateCells(kept), Calendar.ToDatetime) == Ok(dates)
    requires |stamps| == |kept|
    requires ParseColumn(TimeStampCells(SetDates(kept, dates)), parseTimestamp) == Ok(stamps)
    ensures var clean := AddDayNames(AddDelays(SetTimeStamps(SetDates(kept, dates), stamps)));
      |clean| == |kept| && forall i :: 0 <= i < |kept| ==> CleanedFrom(kept[i], clean[i], parseTimestamp)
  {
    var clean := AddDayNames(AddDelays(SetTimeStamps(SetDates(kept, dates), stamps)));
    forall i | 0 <= i < |kept|
      ensures CleanedFrom(kept[i], clean[i], parseTimestamp)
    {
      assert ParseCell(DateCells(kept)[i], Calendar.ToDatetime) == Ok(dates[i]);
      assert ParseCell(TimeStampCells(SetDates(kept, dates))[i], parseTimestamp) == Ok(stamps[i]);
    }
  }

  function KeyError(key: string): PyError
  {
    Raise(Python.KeyError, "'" + key + "'")
  }

  /**
   * `df.to_csv(f"{df_wheresave}/df.csv")` then
   * `delay_summary.to_csv(f"{df_wheresave}/delay_summary.csv")`: the second
   * write is attempted only when the first succeeds.
   */
  method WriteOutputs(dfWheresave: string, toCsv: string -> Option<PyError>)
    returns (failure: Option<PyError>, written: seq<string>)
    ensures written == [dfWheresave + "/df.csv"] || written == [dfWheresave + "/df.csv", dfWheresave + "/delay_summary.csv"]
    ensures |written| == 2 <==> toCsv(dfWheresave + "/df.csv").None?
    ensures failure == (if |written| == 1 then toCsv(written[0]) else toCsv(written[1]))
  {
    var detailPath, summaryPath := dfWheresave + "/df.csv", dfWheresave + "/delay_summary.csv";
    written := [detailPath];
    failure := toCsv(detailPath);
    if failure.Some? {
      return;
    }
    written := [detailPath, summaryPath];
    failure := toCsv(summaryPath);
  }

  /**
   * `TransformData().transform(df, df_wheresave)`. `parseTimestamp` is the
   * free-form `pd.to_datetime` for one timestamp text; `toCsv` is the outcome
   * of writing a CSV file at a path. `written` lists the paths written.
   */
  /** The columns and cells steps 1 and 2 need are there and parse. */
  predicate Cleanable(df: Table, parseTimestamp: string -> Result<int>)
  {
    "status" in df.columns && "date" in df.columns && "timeStamp" in df.columns
    && ParseColumn(DateCells(DropOnTime(df.rows)), Calendar.ToDatetime).Ok?
    && ParseColumn(TimeStampCells(DropOnTime(df.rows)), parseTimestamp).Ok?
  }

  /**
   * `clean` is the table after steps 1 to 4: one row for each row that
   * survives the filter, in order, each cleaned from it, and the header with
   * the two derived columns added and the two names replaced.
   */
  predicate IsCleaningOf(df: Table, clean: Table, parseTimestamp: string -> Result<int>)
  {
    var kept := DropOnTime(df.rows);
    && |clean.rows| == |kept|
    && (forall i :: 0 <= i < |kept| ==> CleanedFrom(kept[i], clean.rows[i], parseTimestamp))
    && clean.columns == RenameColumns(AddColumn(AddColumn(df.columns, "delay_minutes"), "day_of_week"))
  }

  /**
   * Steps 1 to 4 of the transform on the frame, in place and in order; the
   * result is the frame or the exception the first failing step raises.
   */
  method CleanFrame(df: Table, parseTimestamp: string -> Result<int>) returns (r: Result<Table>)
    ensures r.Ok? <==> Cleanable(df, parseTimestamp)
    ensures r.Ok? ==> IsCleaningOf(df, r.value, parseTimestamp)
    ensures "status" !in df.columns ==> r == Err(KeyError("status"))
    ensures "status" in df.columns && "date" !in df.columns ==> r == Err(KeyError("date"))
    ensures "status" in df.columns && "date" in df.columns
            && ParseColumn(DateCells(DropOnTime(df.rows)), Calendar.ToDatetime).Err? ==>
      r == Err(ParseColumn(DateCells(DropOnTime(df.rows)), Calendar.ToDatetime).error)
  {
    if "status" !in df.columns {
      return Err(KeyError("status"));
    }
    var table := df.(rows := DropOnTime(df.rows));

    if "date" !in table.columns {
      return Err(KeyError("date"));
    }
    var dates := ParseColumn(DateCells(table.rows), Calendar.ToDatetime);
    if dates.Err? {
      return Err(dates.error);
    }
    table := table.(rows := SetDates(table.rows, dates.value));
    assert TimeStampCells(table.rows) == TimeStampCells(DropOnTime(df.rows));

    if "timeStamp" !in table.columns {
      return Err(KeyError("timeStamp"));
    }
    var stamps := ParseColumn(TimeStampCells(table.rows), parseTimestamp);
    if stamps.Err? {
      return Err(stamps.error);
    }
    table := table.(rows := SetTimeStamps(table.rows, stamps.value));

    table := table.(rows := AddDelays(table.rows), columns := AddColumn(table.columns, "delay_minutes"));
    table := table.(rows := AddDayNames(table.rows), columns := AddColumn(table.columns, "day_of_week"));
    table := table.(columns := RenameColumns(table.columns));
    CleanedRows(DropOnTime(df.rows), dates.value, stamps.value, parseTimestamp);
    r := Ok(table);
  }

  /**
   * `TransformData().transform(df, df_wheresave)`. `parseTimestamp` is the
   * free-form `pd.to_datetime` for one timestamp text; `toCsv` is the outcome
   * of writing a CSV file at a path. `written` lists the paths written.
   * Every exception leaves re-wrapped, with the original as its cause.
   */
  method Transform(df: Table, dfWheresave: string, parseTimestamp: string -> Result<int>,
                   toCsv: string -> Option<PyError>)
    returns (r: Result<(Table, Summary)>, written: seq<string>)
    ensures r.Ok? <==>
      Cleanable(df, parseTimestamp) && "train_id" in df.columns
      && toCsv(dfWheresave + "/df.csv").None? && toCsv(dfWheresave + "/delay_summary.csv").None?
    ensures r.Ok? ==>
      IsCleaningOf(df, r.value.0, parseTimestamp)
      && r.value.1 == Summary(SummaryColumns, Summarize(r.value.0.rows))
    ensures r.Err? ==>
      r.error.kind == Exception && r.error.cause.Some? && r.error.msg == ErrorPrefix + r.error.cause.value.msg
    ensures "status" !in df.columns ==> r == Err(Wrap(ErrorPrefix, KeyError("status")))
    ensures "status" in df.columns && "date" in df.columns
            && ParseColumn(DateCells(DropOnTime(df.rows)), Calendar.ToDatetime).Err? ==>
      r == Err(Wrap(ErrorPrefix, ParseColumn(DateCells(DropOnTime(df.rows)), Calendar.ToDatetime).error))
    ensures written != [] <==> Cleanable(df, parseTimestamp) && "train_id" in df.columns
    ensures r.Ok? ==> written == [dfWheresave + "/df.csv", dfWheresave + "/delay_summary.csv"]
    ensures written != [] ==>
      (written[0] == dfWheresave + "/df.csv" && |written| <= 2
       && (|written| == 2 ==> written[1] == dfWheresave + "/delay_summary.csv" && toCsv(written[0]).None?))
  {
    written := [];
    var cleaned := CleanFrame(df, parseTimestamp);
    if cleaned.Err? {
      return Err(Wrap(ErrorPrefix, cleaned.error)), written;
    }
    var table := cleaned.value;
    RenameKeeps(AddColumn(AddColumn(df.columns, "delay_minutes"), "day_of_week"), "train_id");
    if "train_id" !in table.columns {
      return Err(Wrap(ErrorPrefix, KeyError("train_id"))), written;
    }
    var summary := Summary(SummaryHeader(), Summarize(table.rows));

    var failure;
    failure, written := WriteOutputs(dfWheresave, toCsv);
    if failure.Some? {
      return Err(Wrap(ErrorPrefix, failure.value)), written;
    }
    r := Ok((table, summary));
  }

  // ---------------------------------------------------------------------
  // A worked example: three status events of two trains on 2016-01-01

  function Event(id: int, status: string, stamp: string): Row
  {
    Row(Some(id), Some("N"), Some("Trenton"), Some("Stenton"), Raw("2016-01-01"), Some(status),
        Raw(stamp), None, None)
  }

  /** The on-time event is dropped; the other two keep their order. */
  lemma ExampleFilter()
    ensures DropOnTime([Event(1, "1 min", "2016-01-01 00:01:00"),
                        Event(1, OnTime, "2016-01-01 00:02:00"),
                        Event(2, "3 min", "2016-01-01 00:03:00")])
         == [Event(1, "1 min", "2016-01-01 00:01:00"), Event(2, "3 min", "2016-01-01 00:03:00")]
  {
    var a, b, c := Event(1, "1 min", "2016-01-01 00:01:00"), Event(1, OnTime, "2016-01-01 00:02:00"),
                   Event(2, "3 min", "2016-01-01 00:03:00");
    assert [a, b, c][1..] == [b, c] && [b, c][1..] == [c] && [c][1..] == [];
    assert a.status != Some(OnTime) by { assert a.status.value[0] == '1'; }
    assert c.status != Some(OnTime) by { assert c.status.value[0] == '3'; }
    assert DropOnTime([c]) == [c];
    assert DropOnTime([b, c]) == [c];
    assert DropOnTime([a, b, c]) == [a] + [c];
  }

  /** The kept events carry delays of 1 and 3 minutes. */
  lemma ExampleDelays()
    ensures Delay(Event(1, "1 min", "2016-01-01 00:01:00")) == Some(1)
    ensures Delay(Event(2, "3 min", "2016-01-01 00:03:00")) == Some(3)
  {
    assert DecimalText(1) == "1" && DecimalText(3) == "3";
    DelayRoundTrip("", 1, " min");
    DelayRoundTrip("", 3, " min");
    assert "" + "1" + " min" == "1 min" && "" + "3" + " min" == "3 min";
  }

  /** Whatever else the cleaned rows hold, ids 1 and 2 with delays 1 and 3 average to 1.0 and 3.0. */
  lemma ExampleSummary(clean: seq<Row>)
    requires |clean| == 2
    requires clean[0].trainId == Some(1) && clean[0].delayMinutes == Some(1)
    requires clean[1].trainId == Some(2) && clean[1].delayMinutes == Some(3)
    ensures Summarize(clean) == [SummaryRow(1, Some(1.0)), SummaryRow(2, Some(3.0))]
  {
    var rest := clean[1..];
    assert rest[1..] == [];
    assert SortedIds(rest) == [2];
    assert SortedIds(clean) == [1, 2];
    assert Delays(rest, 1) == [] && Delays(rest, 2) == [3];
    assert Delays(clean, 1) == [1] && Delays(clean, 2) == [3];
    assert Sum([1]) == 1 && Sum([3]) == 3 by {
      assert [1][1..] == [] && [3][1..] == [];
    }
    var s := Summarize(clean);
    assert |s| == 2;
    assert s[0] == SummaryRow(1, Some(1.0));
    assert s[1] == SummaryRow(2, Some(3.0));
  }

  /** Matching is case-sensitive: a lower-case "on time" status is kept and has no delay. */
  lemma LowerCaseOnTimeKept()
    ensures DropOnTime([Event(1, "on time", "2016-01-01 00:02:00")]) == [Event(1, "on time", "2016-01-01 00:02:00")]
    ensures Delay(Event(1, "on time", "2016-01-01 00:02:00")) == None
  {
    var e := Event(1, "on time", "2016-01-01 00:02:00");
    assert [e][1..] == [];
    assert NoDigit("on time");
  }
}
