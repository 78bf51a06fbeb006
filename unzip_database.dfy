/**
 * `UnzipFile.unzip` (src/databaseOperations/unzip_database.py): validate the
 * two paths, then extract every member of the archive into the directory.
 *
 * The extraction itself (`zipfile.ZipFile(...).extractall(...)`) is a
 * parameter; the model records whether it was attempted and what it reported.
 */
module UnzipDatabase {
  import opened Python

  /** The one `extractall` call: which archive, into which directory. */
  datatype Extraction = Extraction(zipPath: string, extractTo: string)

  /** What opening and extracting the archive did. */
  datatype ExtractOutcome =
    | Extracted
    | NotAZip                 // `zipfile.BadZipFile`
    | Failed(error: PyError)  // any other exception

  const BadArchive := "The file is not a valid zip file or is corrupted: "
  const ExtractionFailed := "An unexpected error occurred during extraction: "

  /**
   * `unzip(zip_path, extract_to)`. The four checks raise before the archive
   * is opened, without a cause; a corrupt archive is re-raised as a fresh
   * BadZipFile without a cause; any other failure is wrapped.
   */
  function Unzip(zipPath: Arg, extractTo: Arg, fs: FileSystem, extract: Extraction -> ExtractOutcome)
    : (t: Traced<Extraction, ()>)
    ensures !zipPath.Str? ==>
      t == Traced(None, Err(Raise(TypeError, "The zip file path must be a string. Provided type: " + TypeRepr(zipPath))))
    ensures zipPath.Str? && !extractTo.Str? ==>
      t == Traced(None, Err(Raise(TypeError, "The extraction path must be a string. Provided type: " + TypeRepr(extractTo))))
    ensures zipPath.Str? && extractTo.Str? && !fs.Exists(zipPath.s) ==>
      t == Traced(None, Err(Raise(FileNotFoundError, "The specified zip file does not exist: " + zipPath.s)))
    ensures zipPath.Str? && extractTo.Str? && fs.Exists(zipPath.s) && !fs.IsDir(extractTo.s) ==>
      t == Traced(None, Err(Raise(NotADirectoryError, "The extraction path is not a valid directory: " + extractTo.s)))
    ensures t.call.Some? <==> zipPath.Str? && extractTo.Str? && fs.Exists(zipPath.s) && fs.IsDir(extractTo.s)
    ensures t.call.Some? ==>
      && t.call.value == Extraction(zipPath.s, extractTo.s)
      && t.result == match extract(t.call.value)
                     case Extracted => Ok(())
                     case NotAZip => Err(Raise(BadZipFile, BadArchive + zipPath.s))
                     case Failed(e) => Err(Wrap(ExtractionFailed, e))
  {
    if !zipPath.Str? then
      Traced(None, Err(Raise(TypeError, "The zip file path must be a string. Provided type: " + TypeRepr(zipPath))))
    else if !extractTo.Str? then
      Traced(None, Err(Raise(TypeError, "The extraction path must be a string. Provided type: " + TypeRepr(extractTo))))
    else if !fs.Exists(zipPath.s) then
      Traced(None, Err(Raise(FileNotFoundError, "The specified zip file does not exist: " + zipPath.s)))
    else if !fs.IsDir(extractTo.s) then
      Traced(None, Err(Raise(NotADirectoryError, "The extraction path is not a valid directory: " + extractTo.s)))
    else
      var call := Extraction(zipPath.s, extractTo.s);
      var result := match extract(call)
        case Extracted => Ok(())
        case NotAZip => Err(Raise(BadZipFile, BadArchive + zipPath.s))
        case Failed(e) => Err(Wrap(ExtractionFailed, e));
      Traced(Some(call), result)
  }

  /**
   * The call succeeds exactly when both paths are valid and the archive
   * extracts; only the generic failure carries a cause, and it is the
   * library's own exception.
   */
  lemma UnzipOutcome(zipPath: Arg, extractTo: Arg, fs: FileSystem, extract: Extraction -> ExtractOutcome)
    ensures var t := Unzip(zipPath, extractTo, fs, extract);
      && (t.result.Ok? <==>
            zipPath.Str? && extractTo.Str? && fs.Exists(zipPath.s) && fs.IsDir(extractTo.s)
            && extract(Extraction(zipPath.s, extractTo.s)).Extracted?)
      && (t.result.Err? ==>
            (t.result.error.cause.Some? <==> t.result.error.kind == Exception)
            && t.result.error.kind in {TypeError, FileNotFoundError, NotADirectoryError, BadZipFile, Exception})
      && (t.result.Err? && t.result.error.cause.Some? ==>
            extract(Extraction(zipPath.s, extractTo.s)) == Failed(t.result.error.cause.value))
  {
  }

  /** The extraction directory must exist as a directory: an existing regular file is refused too. */
  lemma FileAsTargetRefused(zipPath: string, extractTo: string, fs: FileSystem, extract: Extraction -> ExtractOutcome)
    requires fs.Exists(zipPath) && fs.IsFile(extractTo)
    ensures Unzip(Str(zipPath), Str(extractTo), fs, extract).result.error.kind == NotADirectoryError
  {
  }
}
