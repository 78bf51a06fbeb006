/**
 * `CSVLoader.load_csv` (src/analysis/load_from_csv.py): read a CSV file into
 * a DataFrame, refusing non-string paths, paths that are not regular files
 * and files that give an empty frame.
 *
 * `pd.read_csv` is a parameter: `readCsv(ReadCall(path, delimiter))` is the
 * frame it builds or the exception it raises.
 */
module LoadFromCsv {
  import opened Python
  import opened Frames

  /** The one `pd.read_csv(path, delimiter=delimiter)` call. */
  datatype ReadCall = ReadCall(path: string, delimiter: string)

  const LoadFailed := "Error while loading CSV file: "

  /** The `delimiter` a call of `load_csv` gets when it does not pass one. */
  const Comma := ","

  /** The inner exception `load_csv` raises before its `except` clause wraps it. */
  function LoadInner(filePath: Arg, fs: FileSystem, readCsv: ReadCall -> Result<DataFrame>, delimiter: string)
    : Traced<ReadCall, DataFrame>
  {
    if !filePath.Str? then
      Traced(None, Err(Raise(TypeError, "The file path must be a string. Provided: " + TypeRepr(filePath))))
    else if !fs.IsFile(filePath.s) then
      Traced(None, Err(Raise(FileNotFoundError, "CSV file not found: " + filePath.s)))
    else
      var call := ReadCall(filePath.s, delimiter);
      match readCsv(call)
      case Err(e) => Traced(Some(call), Err(e))
      case Ok(df) =>
        if IsEmpty(df) then Traced(Some(call), Err(Raise(ValueError, "The CSV file at " + filePath.s + " is empty.")))
        else Traced(Some(call), Ok(df))
  }

  /**
   * `load_csv(file_path, delimiter=",")`. Every failure, its own checks and
   * the reader's alike, leaves as an `Exception` with the prefix and the
   * original as its cause; a frame comes back only when it is not empty.
   * A call without a delimiter is `LoadCsv(filePath, fs, readCsv, Comma)`.
   */
  function LoadCsv(filePath: Arg, fs: FileSystem, readCsv: ReadCall -> Result<DataFrame>, delimiter: string)
    : (t: Traced<ReadCall, DataFrame>)
    ensures !filePath.Str? ==>
      t == Traced(None, Err(Wrap(LoadFailed, Raise(TypeError, "The file path must be a string. Provided: " + TypeRepr(filePath)))))
    ensures filePath.Str? && !fs.IsFile(filePath.s) ==>
      t == Traced(None, Err(Wrap(LoadFailed, Raise(FileNotFoundError, "CSV file not found: " + filePath.s))))
    ensures t.call.Some? <==> filePath.Str? && fs.IsFile(filePath.s)
    ensures t.call.Some? ==>
      && t.call.value == ReadCall(filePath.s, delimiter)
      && t.result == match readCsv(t.call.value)
                     case Err(e) => Err(Wrap(LoadFailed, e))
                     case Ok(df) =>
                       if IsEmpty(df) then Err(Wrap(LoadFailed, Raise(ValueError, "The CSV file at " + filePath.s + " is empty.")))
                       else Ok(df)
    ensures t.result.Ok? ==> !IsEmpty(t.result.value) && |t.result.value.rows| > 0 && |t.result.value.columns| > 0
  {
    var inner := LoadInner(filePath, fs, readCsv, delimiter);
    match inner.result
    case Ok(df) => inner
    case Err(e) => Traced(inner.call, Err(Wrap(LoadFailed, e)))
  }

  /**
   * Whatever goes wrong, the caller sees a plain `Exception` whose message
   * starts with the prefix and whose cause is the specific error; a path
   * naming a directory is reported as a missing file.
   */
  lemma LoadCsvErrors(filePath: Arg, fs: FileSystem, readCsv: ReadCall -> Result<DataFrame>, delimiter: string)
    ensures var t := LoadCsv(filePath, fs, readCsv, delimiter);
      t.result.Err? ==>
        && t.result.error.kind == Exception
        && t.result.error.cause.Some?
        && t.result.error.msg == LoadFailed + t.result.error.cause.value.msg
    ensures filePath.Str? && fs.IsDir(filePath.s) ==>
      LoadCsv(filePath, fs, readCsv, delimiter).result.error.cause.value.kind == FileNotFoundError
  {
  }

  /** Without a delimiter argument the reader is asked for a comma-separated file. */
  lemma DefaultDelimiter(path: string, fs: FileSystem, readCsv: ReadCall -> Result<DataFrame>)
    requires fs.IsFile(path)
    ensures LoadCsv(Str(path), fs, readCsv, Comma).call == Some(ReadCall(path, ","))
  {
  }
}
