/**
 * `LoadFromDrive.load` as defined a second time in
 * src/databaseOperations/load_database.py. The file is a copy of the ingest
 * module, so this `load` is the ingest `load`: every property proved there
 * (argument checks, id extraction, download request, error wrapping) holds
 * of it unchanged.
 */
module LoadDatabase {
  import opened Python
  import IngestFromDrive

  /** `load(url, save_archive, name)` of the second copy. */
  function Load(url: Arg, saveArchive: string, name: Arg, fs: FileSystem,
                gdown: IngestFromDrive.Download -> Option<PyError>): (r: Traced<IngestFromDrive.Download, ()>)
    ensures r == IngestFromDrive.Load(url, saveArchive, name, fs, gdown)
  {
    IngestFromDrive.Load(url, saveArchive, name, fs, gdown)
  }

  /** The second copy downloads exactly what the id extraction finds, to `<save_archive>/<name>.zip`. */
  lemma CopyDownloadsSameRequest(url: string, saveArchive: string, name: string, fs: FileSystem,
                                 gdown: IngestFromDrive.Download -> Option<PyError>)
    requires fs.Exists(saveArchive)
    ensures var r := Load(Str(url), saveArchive, Str(name), fs, gdown);
      match IngestFromDrive.ExtractFileId(url)
      case None => r.call.None? && r.result.Err? && r.result.error.cause.value.kind == ValueError
      case Some(id) => r.call == Some(IngestFromDrive.Download(IngestFromDrive.DownloadBase + id, saveArchive + "/" + name + ".zip"))
  {
  }
}
