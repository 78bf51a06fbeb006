/**
 * `LoadFromDrive.load` (src/databaseOperations/ingest_from_drive.py): validate
 * the arguments, pull the file id out of a Google Drive sharing link, build
 * the direct-download link and the save path, and hand both to `gdown`.
 */
module IngestFromDrive {
  import opened Python
  import opened Text

  /** The segment that precedes the file id in a sharing link. */
  const Marker := "/d/"
  const DownloadBase := "https://drive.google.com/uc?id="
  const DownloadFailed := "An error occurred while downloading the file: "

  /** The one call `gdown.download(link, save_path)` makes. */
  datatype Download = Download(link: string, savePath: string)

  /** The longest prefix of `s` that holds no '/'. */
  function BeforeSlash(s: string): (r: string)
    ensures r <= s && '/' !in r
    ensures |r| == |s| || s[|r|] == '/'
  {
    if s == [] || s[0] == '/' then [] else [s[0]] + BeforeSlash(s[1..])
  }

  /**
   * `url.split('/d/')[1].split('/')[0]`, with None standing for the
   * IndexError raised when `url` holds no "/d/".
   */
  function ExtractFileId(url: string): (id: Option<string>)
    ensures id.None? <==> Find(url, Marker).None?
  {
    var parts := Split(url, Marker);
    if |parts| < 2 then None else Some(Split(parts[1], "/")[0])
  }

  lemma {:induction false} BeforeSlashAt(s: string, k: nat)
    requires k < |s| && s[k] == '/'
    ensures BeforeSlash(s[..k]) == BeforeSlash(s)
  {
    if k > 0 && s[0] != '/' {
      BeforeSlashAt(s[1..], k - 1);
      assert s[..k][1..] == s[1..][..k - 1];
    }
  }

  lemma {:induction false} BeforeSlashOfFree(id: string, tail: string)
    requires '/' !in id
    requires tail == [] || tail[0] == '/'
    ensures BeforeSlash(id + tail) == id
  {
    if id != [] {
      assert (id + tail)[1..] == id[1..] + tail;
      assert id[0] in id;
      BeforeSlashOfFree(id[1..], tail);
    } else {
      assert id + tail == tail;
    }
  }

  /** A '/' at index `i` is an occurrence of the separator "/" there. */
  lemma SlashOccurs(s: string, i: int)
    ensures 0 <= i < |s| && s[i] == '/' ==> OccursAt(s, "/", i)
  {
    if 0 <= i < |s| && s[i] == '/' {
      assert s[i..i + 1] == [s[i]];
    }
  }

  /** The first piece of `s.split('/')` is the text before the first '/'. */
  lemma SplitSlashHead(s: string)
    ensures Split(s, "/")[0] == BeforeSlash(s)
  {
    var b := BeforeSlash(s);
    SlashOccurs(s, |b|);
    match Find(s, "/")
    case None =>
    case Some(i) =>
      assert s[i] == s[i..i + 1][0] == '/';
  }

  /**
   * The file id is the text after the first "/d/" up to the next '/' or the
   * end of the link.
   */
  lemma FileIdIsTextAfterFirstMarker(url: string)
    ensures Find(url, Marker).Some? ==>
      var i := Find(url, Marker).value;
      ExtractFileId(url) == Some(BeforeSlash(url[i + |Marker|..]))
  {
    match Find(url, Marker)
    case None =>
    case Some(i) =>
      var rest := url[i + |Marker|..];
      var parts := Split(url, Marker);
      assert parts[1] == Split(rest, Marker)[0];
      SplitSlashHead(parts[1]);
      match Find(rest, Marker)
      case None =>
      case Some(k) =>
        assert OccursAt(rest, Marker, k);
        assert rest[k] == rest[k..k + |Marker|][0] == Marker[0] == '/';
        BeforeSlashAt(rest, k);
  }

  /**
   * Round trip: the id that was put after the first "/d/" is the id read
   * back. The prefix must hold no "/d/" and must not end in "/d", for then
   * its own "/d" and the '/' of the marker would form an earlier "/d/".
   */
  lemma FileIdRoundTrip(prefix: string, id: string, tail: string)
    requires Free(prefix, Marker) && !EndsWith(prefix, "/d")
    requires '/' !in id
    requires tail == [] || tail[0] == '/'
    ensures ExtractFileId(prefix + Marker + id + tail) == Some(id)
  {
    var url := prefix + Marker + id + tail;
    var p := |prefix|;
    MarkerFirstAt(prefix, id + tail);
    assert url == prefix + Marker + (id + tail);
    FileIdIsTextAfterFirstMarker(url);
    assert url[p + 3..] == id + tail;
    BeforeSlashOfFree(id, tail);
  }

  lemma MarkerFirstAt(prefix: string, rest: string)
    requires Free(prefix, Marker) && !EndsWith(prefix, "/d")
    ensures Find(prefix + Marker + rest, Marker) == Some(|prefix|)
  {
    var url := prefix + Marker + rest;
    var p := |prefix|;
    assert OccursAt(url, Marker, p) by { assert url[p..p + 3] == Marker; }
    forall j | 0 <= j < p ensures !OccursAt(url, Marker, j) {
      NoEarlierMarker(prefix, rest, j);
    }
  }

  lemma NoEarlierMarker(prefix: string, rest: string, j: nat)
    requires Free(prefix, Marker) && !EndsWith(prefix, "/d")
    requires j < |prefix|
    ensures !OccursAt(prefix + Marker + rest, Marker, j)
  {
    var url := prefix + Marker + rest;
    var p := |prefix|;
    if j + 3 <= p {
      assert url[j..j + 3] == prefix[j..j + 3];
      assert !OccursAt(prefix, Marker, j);
    } else if j == p - 2 {
      assert url[j..j + 3] == [prefix[p - 2], prefix[p - 1], '/'];
      assert prefix[p - 2..] == [prefix[p - 2], prefix[p - 1]];
    } else {
      assert j == p - 1 && url[j + 1] == '/';
      assert url[j..j + 3][1] == url[j + 1];
      assert Marker[1] == 'd';
    }
  }

  /**
   * A prefix ending in "/d" shadows the intended id: the segment read is
   * the letter "d" between the two markers' slashes.
   */
  lemma PrefixEndingInSlashDShadowsId()
    ensures ExtractFileId("x/d" + Marker + "ID/") == Some("d")
  {
    var url := "x/d" + Marker + "ID/";
    assert OccursAt(url, Marker, 1) by { assert url[1..4] == Marker; }
    assert !OccursAt(url, Marker, 0) by { assert url[0] == 'x'; }
    assert Find(url, Marker) == Some(1);
    FileIdIsTextAfterFirstMarker(url);
    assert url[4..] == "d" + "/ID/";
    BeforeSlashOfFree("d", "/ID/");
  }

  /**
   * `LoadFromDrive().load(url, save_archive, name)`. The three checks run in
   * this order and before anything else; only a link with a "/d/" segment
   * reaches the download. Errors from the id extraction and from `gdown`
   * reach the caller re-wrapped by the outer handler.
   */
  function Load(url: Arg, saveArchive: string, name: Arg, fs: FileSystem,
                gdown: Download -> Option<PyError>): (r: Traced<Download, ()>)
    ensures !url.Str? ==>
      r == Traced(None, Err(Raise(TypeError, "The URL must be a string. Provided type: " + TypeRepr(url))))
    ensures url.Str? && !name.Str? ==>
      r == Traced(None, Err(Raise(TypeError, "The file name must be a string. Provided type: " + TypeRepr(name))))
    ensures url.Str? && name.Str? && !fs.Exists(saveArchive) ==>
      r == Traced(None, Err(Raise(FileNotFoundError, "The specified save directory does not exist: " + saveArchive)))
    ensures r.call.Some? <==> url.Str? && name.Str? && fs.Exists(saveArchive) && ExtractFileId(url.s).Some?
    ensures r.call.Some? ==>
      r.call.value == Download(DownloadBase + ExtractFileId(url.s).value, saveArchive + "/" + name.s + ".zip")
    ensures url.Str? && name.Str? && fs.Exists(saveArchive) && ExtractFileId(url.s).None? ==>
      r.result == Err(Wrap(DownloadFailed, Raise(ValueError, "Invalid Google Drive URL format: " + url.s)))
    ensures r.call.Some? ==>
      r.result == (match gdown(r.call.value) case None => Ok(()) case Some(e) => Err(Wrap(DownloadFailed, e)))
  {
    if !url.Str? then
      Traced(None, Err(Raise(TypeError, "The URL must be a string. Provided type: " + TypeRepr(url))))
    else if !name.Str? then
      Traced(None, Err(Raise(TypeError, "The file name must be a string. Provided type: " + TypeRepr(name))))
    else if !fs.Exists(saveArchive) then
      Traced(None, Err(Raise(FileNotFoundError, "The specified save directory does not exist: " + saveArchive)))
    else
      match ExtractFileId(url.s)
      case None =>
        Traced(None, Err(Wrap(DownloadFailed, Raise(ValueError, "Invalid Google Drive URL format: " + url.s))))
      case Some(fileId) =>
        var request := Download(DownloadBase + fileId, saveArchive + "/" + name.s + ".zip");
        match gdown(request)
        case None => Traced(Some(request), Ok(()))
        case Some(e) => Traced(Some(request), Err(Wrap(DownloadFailed, e)))
  }

  /** A link whose id segment is empty (".../d//view") is downloaded, not rejected. */
  lemma EmptyIdAccepted(prefix: string, rest: string, saveArchive: string, name: string,
                        fs: FileSystem, gdown: Download -> Option<PyError>)
    requires Free(prefix, Marker) && !EndsWith(prefix, "/d")
    requires fs.Exists(saveArchive)
    ensures Load(Str(prefix + Marker + "/" + rest), saveArchive, Str(name), fs, gdown).call
         == Some(Download(DownloadBase, saveArchive + "/" + name + ".zip"))
  {
    FileIdRoundTrip(prefix, "", "/" + rest);
    assert prefix + Marker + "" + ("/" + rest) == prefix + Marker + "/" + rest;
    assert DownloadBase + "" == DownloadBase;
  }
}
