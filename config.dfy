/**
 * The configuration package (src/config/__init__.py): walk up from the
 * package's directory to the project root, choose a YAML file in its
 * `configs` directory, read it, and pick the `etl_config` settings.
 *
 * Absolute paths are sequences of components below the root `/`. Listing
 * the configs directory, opening the file and parsing YAML are parameters.
 */
module Config {
  import opened Python
  import opened Text

  /** An absolute path as its components: `/a/b` is `["a", "b"]`, the root is `[]`. */
  type Path = seq<string>

  const ProjectName := "Data-Wharehouse-ETL"

  /** `Path.name`: the last component; the root's name is empty. */
  function Name(p: Path): string
  {
    if p == [] then "" else p[|p| - 1]
  }

  /** `Path.parent`: the path without its last component; the root is its own parent. */
  function Parent(p: Path): (q: Path)
    ensures |q| == if p == [] then 0 else |p| - 1
    ensures q == p[..|q|]
  {
    if p == [] then [] else p[..|p| - 1]
  }

  /** `Parent` applied `n` times. */
  function Ancestor(p: Path, n: nat): Path
  {
    if n == 0 then p else Ancestor(Parent(p), n - 1)
  }

  /** No ancestor-or-self of `p` is called like the project. */
  predicate Unrooted(p: Path)
  {
    forall k :: 0 <= k < |p| ==> p[k] != ProjectName
  }

  /**
   * The walk at module import: climb from `current` until a directory named
   * like the project. It gives the nearest such ancestor-or-self; where
   * there is none the walk reaches the root and the source loop never ends
   * (see `WalkNeverEnds`), which the model reports as None.
   */
  method FindMainDir(current: Path) returns (r: Option<Path>)
    ensures r.None? <==> Unrooted(current)
    ensures r.Some? ==>
      && |r.value| <= |current| && r.value == current[..|r.value|]
      && Name(r.value) == ProjectName
      && forall k :: |r.value| <= k < |current| ==> current[k] != ProjectName
  {
    var dir := current;
    while Name(dir) != ProjectName && dir != []
      invariant |dir| <= |current| && dir == current[..|dir|]
      invariant forall k :: |dir| <= k < |current| ==> current[k] != ProjectName
      decreases |dir|
    {
      dir := Parent(dir);
    }
    if Name(dir) == ProjectName {
      r := Some(dir);
    } else {
      assert dir == [];
      r := None;
    }
  }

  /** Without a directory named like the project on the way up, no number of steps reaches one. */
  lemma {:induction false} WalkNeverEnds(current: Path, n: nat)
    requires Unrooted(current)
    ensures Name(Ancestor(current, n)) != ProjectName
    ensures Unrooted(Ancestor(current, n))
  {
    if n > 0 {
      WalkNeverEnds(Parent(current), n - 1);
    } else if current != [] {
      assert current[|current| - 1] != ProjectName;
    }
  }

  /** `str(path)` for an absolute path. */
  function PathText(p: Path): string
  {
    "/" + JoinWith(p, "/")
  }

  /** `CONFIGDIR`: the `configs` directory of the project root. */
  function ConfigDir(mainDir: Path): string
  {
    PathJoin(PathText(mainDir), "configs")
  }

  /**
   * `CONFIGDIR` names the child `configs` of the project root, whenever the
   * root's own name does not end in a separator (true of the root the walk
   * finds, whose name is the project's).
   */
  lemma ConfigDirIsChild(mainDir: Path)
    requires mainDir == [] || (Name(mainDir) != "" && Name(mainDir)[|Name(mainDir)| - 1] != '/')
    ensures ConfigDir(mainDir) == PathText(mainDir + ["configs"])
    ensures Parent(mainDir + ["configs"]) == mainDir && Name(mainDir + ["configs"]) == "configs"
  {
    var child := mainDir + ["configs"];
    assert child[..|child| - 1] == mainDir;
    if mainDir == [] {
      assert child == ["configs"];
    } else {
      JoinSnoc(mainDir, "configs", "/");
      LastOfJoin(mainDir, "/");
      var t := PathText(mainDir);
      var name := Name(mainDir);
      assert t[|t| - 1] == name[|name| - 1];
    }
  }

  /** A join ends with its last piece. */
  lemma LastOfJoin(parts: seq<string>, sep: string)
    requires |parts| >= 1
    ensures var j := JoinWith(parts, sep); var last := parts[|parts| - 1];
      |j| >= |last| && j[|j| - |last|..] == last
  {
    var last := parts[|parts| - 1];
    if |parts| > 1 {
      var init := parts[..|parts| - 1];
      assert parts == init + [last];
      JoinSnoc(init, last, sep);
    }
  }

  const NoYaml := "No YAML configuration file found in the directory."

  /**
   * The `for con in os.listdir(CONFIGDIR)` loop of `config_yaml_reader`.
   * Its first iteration either picks the entry (a `.yaml` name) and breaks,
   * or raises, so only the first entry is ever looked at; an empty listing
   * leaves `file_path` as the caller gave it.
   */
  method SelectConfigFile(dir: string, listing: seq<string>, filePath: Option<string>) returns (r: Result<Option<string>>)
    ensures listing == [] ==> r == Ok(filePath)
    ensures listing != [] && EndsWith(listing[0], ".yaml") ==> r == Ok(Some(PathJoin(dir, listing[0])))
    ensures listing != [] && !EndsWith(listing[0], ".yaml") ==> r == Err(Raise(FileNotFoundError, NoYaml))
  {
    r := Ok(filePath);
    for i := 0 to |listing|
      invariant i == 0 && r == Ok(filePath)
    {
      if EndsWith(listing[i], ".yaml") {
        r := Ok(Some(PathJoin(dir, listing[i])));
        break;
      } else {
        return Err(Raise(FileNotFoundError, NoYaml));
      }
    }
  }

  /**
   * What the loop was meant to do, going by its comments: choose the first
   * `.yaml` entry wherever it stands, and raise only when there is none.
   */
  function FirstYaml(dir: string, listing: seq<string>, filePath: Option<string>): (r: Result<Option<string>>)
    ensures listing == [] ==> r == Ok(filePath)
    ensures listing != [] ==>
      (r.Err? <==> forall i :: 0 <= i < |listing| ==> !EndsWith(listing[i], ".yaml"))
    ensures r.Err? ==> r.error == Raise(FileNotFoundError, NoYaml)
    ensures listing != [] && r.Ok? ==>
      exists i :: 0 <= i < |listing| && EndsWith(listing[i], ".yaml") && r.value == Some(PathJoin(dir, listing[i]))
        && forall j :: 0 <= j < i ==> !EndsWith(listing[j], ".yaml")
  {
    if listing == [] then Ok(filePath)
    else if EndsWith(listing[0], ".yaml") then Ok(Some(PathJoin(dir, listing[0])))
    else if |listing| == 1 then Err(Raise(FileNotFoundError, NoYaml))
    else
      var rest := FirstYaml(dir, listing[1..], filePath);
      if rest.Ok? then
        var i :| 0 <= i < |listing| - 1 && EndsWith(listing[1..][i], ".yaml") && rest.value == Some(PathJoin(dir, listing[1..][i]))
          && forall j :: 0 <= j < i ==> !EndsWith(listing[1..][j], ".yaml");
        assert EndsWith(listing[i + 1], ".yaml") && forall j :: 0 <= j < i + 1 ==> !EndsWith(listing[j], ".yaml");
        rest
      else
        assert forall i :: 1 <= i < |listing| ==> listing[i] == listing[1..][i - 1];
        rest
  }

  /** The loop and the search agree whenever the first entry decides, or the listing is empty. */
  lemma SearchAgreesOnFirstEntry(dir: string, listing: seq<string>, filePath: Option<string>)
    requires listing == [] || EndsWith(listing[0], ".yaml")
    ensures FirstYaml(dir, listing, filePath) == (if listing == [] then Ok(filePath) else Ok(Some(PathJoin(dir, listing[0]))))
  {
  }

  /**
   * A YAML file listed after another entry: the loop as written raises
   * "No YAML configuration file found", while the search it was meant to be
   * picks the file.
   */
  method LaterYamlRefused(dir: string) returns (asWritten: Result<Option<string>>, intended: Result<Option<string>>)
    ensures asWritten == Err(Raise(FileNotFoundError, NoYaml))
    ensures intended == Ok(Some(PathJoin(dir, "config.yaml")))
  {
    var listing := ["README.md", "config.yaml"];
    assert EndsWith(listing[1], ".yaml") by {
      assert "config.yaml"[|"config.yaml"| - |".yaml"|..] == ".yaml";
    }
    assert !EndsWith(listing[0], ".yaml") by {
      assert "README.md"[|"README.md"| - |".yaml"|..][0] == 'M';
    }
    assert listing[1..] == ["config.yaml"];
    asWritten := SelectConfigFile(dir, listing, None);
    intended := FirstYaml(dir, listing, None);
  }

  /** A parsed YAML document, as far as the settings lookup cares. */
  datatype Yaml = Null | Scalar(text: string) | Mapping(fields: map<string, Yaml>)

  /** What `yaml.safe_load` did with the file's text. */
  datatype YamlOutcome = Parsed(doc: Yaml) | YamlError(msg: string)

  /** The error `open(None, 'r')` raises when the listing was empty and no path was given. */
  const NoPathGiven := "expected str, bytes or os.PathLike object, not NoneType"

  /**
   * `config_yaml_reader(file_path)` for the root `mainDir` the import found,
   * listing `CONFIGDIR` and choosing the file by the corrected search `FirstYaml`. A missing configs directory, a refused listing and an
   * unreadable file re-raise their own exception unchanged; a YAML syntax
   * error becomes a ValueError without a cause.
   */
  method ConfigYamlReader(mainDir: Path, filePath: Option<string>,
                          listDir: string -> Result<seq<string>>,
                          readFile: string -> Result<string>,
                          safeLoad: string -> YamlOutcome)
    returns (r: Result<Yaml>, openedPath: Option<string>)
    ensures listDir(ConfigDir(mainDir)).Err? ==> r == Err(listDir(ConfigDir(mainDir)).error) && openedPath.None?
    ensures listDir(ConfigDir(mainDir)).Ok? ==>
      var listing := listDir(ConfigDir(mainDir)).value;
      && (listing != [] && (forall i :: 0 <= i < |listing| ==> !EndsWith(listing[i], ".yaml")) ==>
            r == Err(Raise(FileNotFoundError, NoYaml)) && openedPath.None?)
      && (listing == [] && filePath.None? ==> r == Err(Raise(TypeError, NoPathGiven)) && openedPath.None?)
      && (listing == [] ==> openedPath == filePath)
      && (listing != [] ==>
            (openedPath.Some? <==> exists i :: 0 <= i < |listing| && EndsWith(listing[i], ".yaml")))
      && (listing != [] && openedPath.Some? ==>
            exists i :: 0 <= i < |listing| && EndsWith(listing[i], ".yaml") && openedPath == Some(PathJoin(ConfigDir(mainDir), listing[i]))
              && forall j :: 0 <= j < i ==> !EndsWith(listing[j], ".yaml"))
    ensures openedPath.Some? ==>
      r == match readFile(openedPath.value)
           case Err(e) => Err(e)
           case Ok(text) =>
             match safeLoad(text)
             case Parsed(doc) => Ok(doc)
             case YamlError(m) => Err(Raise(ValueError, "Error parsing YAML file: " + m))
  {
    var configDir := ConfigDir(mainDir);
    openedPath := None;
    var listing := listDir(configDir);
    if listing.Err? {
      return Err(listing.error), None;
    }
    var chosen := FirstYaml(configDir, listing.value, filePath);
    if chosen.Err? {
      return Err(chosen.error), None;
    }
    if chosen.value.None? {
      return Err(Raise(TypeError, NoPathGiven)), None;
    }
    openedPath := chosen.value;
    var text := readFile(openedPath.value);
    if text.Err? {
      return Err(text.error), openedPath;
    }
    match safeLoad(text.value)
    case Parsed(doc) =>
      r := Ok(doc);
    case YamlError(m) =>
      r := Err(Raise(ValueError, "Error parsing YAML file: " + m));
  }

  /** `doc[key]` */
  function Subscript(doc: Yaml, key: string): (r: Result<Yaml>)
    ensures r.Ok? <==> doc.Mapping? && key in doc.fields
    ensures r.Ok? ==> r.value == doc.fields[key]
  {
    match doc
    case Null => Err(Raise(TypeError, "'NoneType' object is not subscriptable"))
    case Scalar(_) => Err(Raise(TypeError, "string indices must be integers"))
    case Mapping(fields) =>
      if key in fields then Ok(fields[key]) else Err(Raise(KeyError, "'" + key + "'"))
  }

  /** The settings read at import, in the order they are read. */
  const SettingKeys: seq<string> := [
    "dataset_url", "archive_dir", "database_name", "extracted_dir", "db_path", "query",
    "avg_delay_file", "train_status_file", "visualize_output_dir", "data_wharesave", "csv_data"]

  /** `section[k]` for each key in turn; the first failing lookup stops the import. */
  function LookupAll(section: Yaml, keys: seq<string>): (r: Result<seq<Yaml>>)
    ensures r.Ok? <==> forall i :: 0 <= i < |keys| ==> Subscript(section, keys[i]).Ok?
    ensures r.Ok? ==> |r.value| == |keys| && forall i :: 0 <= i < |keys| ==> Subscript(section, keys[i]) == Ok(r.value[i])
    ensures r.Err? ==>
      exists i :: (0 <= i < |keys| && Subscript(section, keys[i]) == Err(r.error)
                   && forall j :: 0 <= j < i ==> Subscript(section, keys[j]).Ok?)
  {
    if keys == [] then Ok([])
    else
      match Subscript(section, keys[0])
      case Err(e) => Err(e)
      case Ok(v) =>
        match LookupAll(section, keys[1..])
        case Err(e) =>
          var i :| 0 <= i < |keys| - 1 && Subscript(section, keys[1..][i]) == Err(e)
            && forall j :: 0 <= j < i ==> Subscript(section, keys[1..][j]).Ok?;
          assert Subscript(section, keys[i + 1]) == Err(e);
          assert forall j :: 0 <= j < i + 1 ==> Subscript(section, keys[j]).Ok? by {
            forall j | 0 <= j < i + 1 ensures Subscript(section, keys[j]).Ok? {
              if j > 0 { assert keys[j] == keys[1..][j - 1]; }
            }
          }
          Err(e)
        case Ok(vs) =>
          assert forall i :: 1 <= i < |keys| ==> keys[i] == keys[1..][i - 1];
          Ok([v] + vs)
  }

  /** The module-level settings: `configs["etl_config"][k]` for every key. */
  function Settings(configs: Yaml): (r: Result<seq<Yaml>>)
    ensures r.Ok? <==>
      (&& configs.Mapping? && "etl_config" in configs.fields
       && configs.fields["etl_config"].Mapping?
       && forall k :: k in SettingKeys ==> k in configs.fields["etl_config"].fields)
    ensures r.Ok? ==>
      (&& |r.value| == |SettingKeys|
       && forall i :: 0 <= i < |SettingKeys| ==> r.value[i] == configs.fields["etl_config"].fields[SettingKeys[i]])
  {
    var section :- Subscript(configs, "etl_config");
    var r := LookupAll(section, SettingKeys);
    assert r.Ok? ==> forall k :: k in SettingKeys ==> k in section.fields by {
      if r.Ok? {
        forall k | k in SettingKeys ensures k in section.fields {
          var i :| 0 <= i < |SettingKeys| && SettingKeys[i] == k;
          assert Subscript(section, SettingKeys[i]).Ok?;
        }
      }
    }
    r
  }

  /** An empty file parses to None, and importing the settings then fails with a TypeError. */
  lemma EmptyConfigFails()
    ensures Settings(Null) == Err(Raise(TypeError, "'NoneType' object is not subscriptable"))
  {
  }
}
