# Data-Wharehouse-ETL in Dafny

A model of the logic in the Data-Wharehouse-ETL pipeline, with proofs about it. The pipeline is a Python ETL job that:

- downloads an archive from a Google Drive sharing link;
- unzips it and reads train-status rows out of its SQLite database;
- cleans the rows;
- averages each train's delays;
- writes both tables as CSV;
- profiles the cleaned table.

The Python code is mostly glue around pandas, sqlite3, gdown, zipfile and PyYAML. The model keeps the logic around those libraries. That means:

- the order of the argument checks;
- the exact exceptions, their messages and their causes;
- the parsing of Drive links, dates and delays;
- the filter, the rename and the group-by mean of the transform;
- the state of the SQLite extractor and of the analyzer's `results` dictionary;
- the stage sequence of the pipeline;
- the lookup of the configuration file.

Every library call and every file-system fact is a parameter of the model:

- `FileSystem` answers exists, is-dir, is-file and size.
- The stage, download, extraction, query, read, write and parse outcomes are functions handed in by the caller.

A Python exception is a `PyError(kind, msg, cause)`. The pattern `raise Exception(f"...{e}") from e` appears as `Wrap(prefix, e)`. A bare `raise X(msg)` appears as `Raise(X, msg)`.

The model has one Dafny module per source file:

| module | source file |
|---|---|
| `TransformDatabase` | `transform_database.py` |
| `IngestFromDrive` | `ingest_from_drive.py` |
| `LoadDatabase` | `load_database.py` |
| `ExtractDatabase` | `extract_database.py` |
| `UnderstandDataset` | `understandDataset.py` |
| `Pipeline` | `run.py` |
| `CommonTools` | `common_tools.py` |
| `UnzipDatabase` | `unzip_database.py` |
| `LoadFromCsv` | `load_from_csv.py` |
| `Config` | `config/__init__.py` |

Four shared modules support them:

- `Python`: exceptions, `Result`/`Option`, arguments and the file system.
- `Text`: string splitting, stripping and decimal text.
- `Frames`: a generic DataFrame.
- `Calendar`: the proleptic Gregorian calendar behind `%Y-%m-%d` and `day_name()`. A date is a four-digit year, then a month and a day of one or two digits each, as pandas' ISO 8601 reader takes them.

The code follows its source's form:

- The stateful parts are classes and methods with loops:
  - `SQLiteExtractor` with its `connection` field;
  - `DataSetAnalyzer` with its persistent `results` dictionary;
  - the pipeline's stage loop;
  - the walk to the project root;
  - the configuration-file loop.
- The guard chains and the string handling are functions.

## Model

| member | source | states |
|---|---|---|
| TransformDatabase.DropOnTime | src/databaseOperations/transform_database.py:65 | no kept row has status exactly "On Time"; every kept row comes from the input and there are at most as many |
| TransformDatabase.DropOnTimeConcat | src/databaseOperations/transform_database.py:65 | the filter distributes over concatenation, so the kept rows keep their input order |
| TransformDatabase.KeepsOtherRows | src/databaseOperations/transform_database.py:65 | every row whose status is not exactly "On Time" is kept, including other casings and a null status |
| TransformDatabase.LowerCaseOnTimeKept | src/databaseOperations/transform_database.py:65 | a lower-case "on time" row survives the filter and has a null delay |
| TransformDatabase.ExampleFilter | src/databaseOperations/transform_database.py:65 | example: on three events the on-time one is dropped and the other two stay in order |
| TransformDatabase.ParseColumn | src/databaseOperations/transform_database.py:69-70 | a parsed column has one converted cell per input cell; a failure is the error of the first cell that does not parse |
| TransformDatabase.ParseColumnOkIff | src/databaseOperations/transform_database.py:69-70 | a column parses exactly when every cell does |
| TransformDatabase.ParseCellCases | src/databaseOperations/transform_database.py:69-70 | a cell becomes null exactly when it is null, empty or a NaT spelling ("NaT", "nat", "NAT", "nan", "NaN", "NAN"); it becomes a datetime exactly when it is one or the parser accepts its text; otherwise it fails with the parser's error |
| Calendar.ToDatetime | src/databaseOperations/transform_database.py:69 | `format='%Y-%m-%d'` succeeds exactly on a valid date (four-digit year, one- or two-digit month and day) inside the nanosecond range, giving that date's midnight; text that does not parse is a ValueError |
| Calendar.ParseFields | src/databaseOperations/transform_database.py:69 | any four-digit year with a month and a day of one or two digits each gives the date the fields name, or nothing when that is not a calendar date |
| Calendar.UnpaddedFieldsAccepted | src/databaseOperations/transform_database.py:69 | example: "2016-1-1" parses to the same midnight as "2016-01-01" |
| Calendar.ParseFormatRoundTrip | src/databaseOperations/transform_database.py:69 | every valid date written zero-padded as YYYY-MM-DD parses back to itself |
| Calendar.NextDateIsNextDay | src/databaseOperations/transform_database.py:69 | the calendar's next date is one epoch day later, so the day count has no gaps or repeats |
| TransformDatabase.FirstDigitRun | src/databaseOperations/transform_database.py:75 | the first `\d+` match is absent exactly when the status holds no digit |
| TransformDatabase.DelayRoundTrip | src/databaseOperations/transform_database.py:75 | a number written after a digit-free prefix and before a non-digit is read back as the delay |
| TransformDatabase.LateThreeMinutes | src/databaseOperations/transform_database.py:75 | example: "late 3 min" gives a delay of 3 |
| TransformDatabase.ExampleDelays | src/databaseOperations/transform_database.py:75 | example: "1 min" and "3 min" give delays of 1 and 3 |
| TransformDatabase.Delay | src/databaseOperations/transform_database.py:75 | a row's delay is null exactly when its status is null or holds no digit; otherwise it is the first digit run |
| TransformDatabase.AddDelays | src/databaseOperations/transform_database.py:75 | the row count is kept and each row gets its own delay, with nothing else changed |
| TransformDatabase.DayOf | src/databaseOperations/transform_database.py:76 | a weekday name is present exactly for a parsed date, and it is one of the seven English names |
| Calendar.DayNameOfMidnight | src/databaseOperations/transform_database.py:76 | the weekday of a parsed date is the one counted from Thursday 1970-01-01 |
| Calendar.NextDayName | src/databaseOperations/transform_database.py:76 | the day after a date has the next weekday name |
| Calendar.NewYear2016IsFriday | src/databaseOperations/transform_database.py:69-76 | example: "2016-01-01" parses and is a Friday |
| TransformDatabase.AddDayNames | src/databaseOperations/transform_database.py:76 | the row count is kept and each row gets the weekday of its own date, with nothing else changed |
| TransformDatabase.CleanedWeekday | src/databaseOperations/transform_database.py:69-76 | the weekday of a cleaned row is the calendar weekday of the date text it came from, when that text is not empty or NaT |
| TransformDatabase.NaTDateKeepsRow | src/databaseOperations/transform_database.py:69-76 | a row whose date text is empty or NaT is kept with a null date and a null weekday |
| TransformDatabase.AddColumn | src/databaseOperations/transform_database.py:75-76 | assigning a column adds exactly that name and keeps every other |
| TransformDatabase.RenameColumns | src/databaseOperations/transform_database.py:80-83 | the rename keeps the header's length and renames position by position |
| TransformDatabase.RenameEffect | src/databaseOperations/transform_database.py:80-83 | next_station becomes nextStation and origin becomes originStation; the old names are gone and every other name stays in place |
| TransformDatabase.RenameKeeps | src/databaseOperations/transform_database.py:80-83 | a name the rename neither removes nor produces is present afterwards exactly when it was before |
| TransformDatabase.CleanColumnsOfRawColumns | src/databaseOperations/transform_database.py:75-83 | example: the raw train-status header becomes the cleaned header with the two derived columns |
| TransformDatabase.CleanedRows | src/databaseOperations/transform_database.py:69-76 | the parse and derive steps keep the filtered row count, and each output row is cleaned from the row at the same position |
| TransformDatabase.SortedIds | src/databaseOperations/transform_database.py:87 | the group keys are strictly increasing and are exactly the distinct non-null train ids |
| TransformDatabase.Summarize | src/databaseOperations/transform_database.py:87 | one summary row per distinct non-null train id, in ascending order, each holding the mean of that train's non-null delays |
| TransformDatabase.Mean | src/databaseOperations/transform_database.py:87 | the mean is null exactly for a group with no delay; otherwise mean times count equals the sum |
| TransformDatabase.MeanBetween | src/databaseOperations/transform_database.py:87 | the mean lies between any lower and upper bound of the delays it averages |
| TransformDatabase.SummaryNullMean | src/databaseOperations/transform_database.py:87 | a train's mean is null exactly when none of its rows has a delay |
| TransformDatabase.SummaryHeader | src/databaseOperations/transform_database.py:87-88 | example: the summary's columns are train_id and avg_delay_minutes |
| TransformDatabase.ExampleSummary | src/databaseOperations/transform_database.py:87-88 | example: trains 1 and 2 with delays 1 and 3 average to 1.0 and 3.0, in id order |
| TransformDatabase.WriteOutputs | src/databaseOperations/transform_database.py:93-94 | df.csv is written first; delay_summary.csv is written only when the first write succeeds; the failure reported is the failing write's |
| TransformDatabase.CleanFrame | src/databaseOperations/transform_database.py:60-84 | the cleaning succeeds exactly when the columns are there and both date columns parse; it then keeps one cleaned row per filtered row with the renamed header; a missing status or date column, or a bad date, gives its specific error |
| TransformDatabase.Transform | src/databaseOperations/transform_database.py:47-100 | success iff the cleaning succeeds, train_id is present and both writes succeed; the result is the cleaned table and its summary; every failure is an Exception prefixed "Error during data transformation: " with the original as cause; the CSV files are written only after cleaning and summary |
| IngestFromDrive.BeforeSlash | src/databaseOperations/ingest_from_drive.py:78 | the longest slash-free prefix, ending at the end or just before a '/' |
| IngestFromDrive.ExtractFileId | src/databaseOperations/ingest_from_drive.py:77-83 | the id is missing (the IndexError) exactly when the link has no "/d/" |
| IngestFromDrive.FileIdIsTextAfterFirstMarker | src/databaseOperations/ingest_from_drive.py:78 | the id is the text after the first "/d/" up to the next '/' or the end |
| IngestFromDrive.FileIdRoundTrip | src/databaseOperations/ingest_from_drive.py:78 | for a prefix without "/d/" that does not end in "/d", and a slash-free id, the id put after the marker is the id read back |
| IngestFromDrive.PrefixEndingInSlashDShadowsId | src/databaseOperations/ingest_from_drive.py:78 | a prefix ending in "/d" makes "x/d/d/ID/" read as id "d", which is where the round trip stops |
| IngestFromDrive.Load | src/databaseOperations/ingest_from_drive.py:38-100 | checks url type, name type and save directory in that order, each raising its own error; downloads exactly when they pass and the link has "/d/", from the uc?id= link to save_archive/name.zip; a missing "/d/" and gdown failures are wrapped with the download prefix |
| IngestFromDrive.EmptyIdAccepted | src/databaseOperations/ingest_from_drive.py:77-92 | a link with an empty id segment is downloaded from the bare uc?id= link, not rejected |
| LoadDatabase.Load | src/databaseOperations/load_database.py:38-100 | the second copy of `load` behaves as the ingest `load` on every input |
| LoadDatabase.CopyDownloadsSameRequest | src/databaseOperations/load_database.py:77-92 | example: the copy downloads exactly what the id extraction finds, and reports a missing "/d/" as a wrapped ValueError |
| ExtractDatabase.SQLiteExtractor.constructor | src/databaseOperations/extract_database.py:62-63 | a fresh extractor holds no connection |
| ExtractDatabase.SQLiteExtractor.Connect | src/databaseOperations/extract_database.py:65-98 | a non-string path gives a TypeError; a missing file gives a FileNotFoundError; a connect failure gives a sqlite error; the field changes only on success, to a fresh open connection on that path |
| ExtractDatabase.SQLiteExtractor.ExecuteQuery | src/databaseOperations/extract_database.py:100-140 | a non-string query gives a TypeError, then a blank one a ValueError, both before the database is used; without a connection the generic Exception of read_sql_query; on a closed one the sqlite error; otherwise the database's rows or its error re-raised with a prefix and no cause; the field is never changed |
| ExtractDatabase.SQLiteExtractor.CloseConnection | src/databaseOperations/extract_database.py:142-157 | no connection means a no-op; otherwise the connection is closed, or the close error is raised; the field still holds the handle afterwards |
| ExtractDatabase.QueryBeforeConnect | src/databaseOperations/extract_database.py:62-63 | a query before any connect fails with the generic Exception, not a sqlite error |
| ExtractDatabase.QueryAfterClose | src/databaseOperations/extract_database.py:142-157 | a query after close_connection reaches the closed handle and fails with the sqlite closed-database error |
| UnderstandDataset.NullCountExtremes | src/analysis/understandDataset.py:60 | a column's null count is 0 exactly when it has no null, and equals its length exactly when all are null |
| UnderstandDataset.MissingCounts | src/analysis/understandDataset.py:60 | "Missing Values" has one entry per column, each at most the row count |
| UnderstandDataset.InDistinctValues | src/analysis/understandDataset.py:73 | the distinct values counted are exactly the non-null values of the column |
| UnderstandDataset.UniqueCountBound | src/analysis/understandDataset.py:73 | distinct non-null values plus nulls never exceed the column length |
| UnderstandDataset.CensusCountsBounded | src/analysis/understandDataset.py:60-73 | a column's null count and its unique count plus its null count are each at most the row count |
| UnderstandDataset.ValueCountsShape | src/analysis/understandDataset.py:85 | value_counts has a key exactly for each non-null value present, each counted at least once |
| UnderstandDataset.CategoryFrequencies | src/analysis/understandDataset.py:83-86 | "Categorical Analysis" is keyed by exactly the object and category columns |
| UnderstandDataset.DuplicatesAndDistinctRows | src/analysis/understandDataset.py:90 | duplicates plus distinct rows equal the row count |
| UnderstandDataset.DuplicateBound | src/analysis/understandDataset.py:90 | the duplicate count is at most max(rows - 1, 0) |
| UnderstandDataset.ResultsDict.constructor | src/analysis/understandDataset.py:37 | the results dictionary starts empty |
| UnderstandDataset.ResultsDict.Set | src/analysis/understandDataset.py:54-95 | assigning a key replaces that key only |
| UnderstandDataset.DataSetAnalyzer.constructor | src/analysis/understandDataset.py:36-37 | the analyzer creates its results dictionary once, fresh and empty |
| UnderstandDataset.DataSetAnalyzer.Analyze | src/analysis/understandDataset.py:51-102 | on a frame with columns every profile key is written into the same dictionary, which is returned; without columns describe fails after the overview keys are written, and they stay; "Basic Info" is "None"; "Shape" holds the row and column counts |
| UnderstandDataset.KeysAfterAnalyze | src/analysis/understandDataset.py:51-97 | the keys after a call are the earlier keys, the overview keys, the profile keys, and "Correlation Matrix" if some column is numeric |
| UnderstandDataset.CorrelationIffNumeric | src/analysis/understandDataset.py:93-95 | starting without one, a correlation matrix is written exactly when a numeric column exists |
| UnderstandDataset.AnalysisColumns | src/analysis/understandDataset.py:76-86 | numeric analysis is keyed by exactly the numeric columns and categorical analysis by exactly the categorical ones, which are disjoint |
| UnderstandDataset.StoredDuplicateBound | src/analysis/understandDataset.py:90 | the stored duplicate count is below the row count |
| UnderstandDataset.StaleCorrelationSurvives | src/analysis/understandDataset.py:36-37 | a correlation matrix from an earlier call survives unchanged a call on a frame with no numeric column |
| UnderstandDataset.FailureKeepsEntries | src/analysis/understandDataset.py:51-102 | a failing call keeps every earlier key it does not write, with its value, and records the shape it did write |
| Pipeline.EtlPipeline | src/pipeline_etl/run.py:20-84 | the stages are attempted in their written order, each at most once, up to the first failure; the run is Done exactly when no stage fails; a failure comes back as an Exception prefixed "Error during ETL pipeline execution: " with the stage's error as cause |
| Pipeline.DriveStopsAtFirstFailure | src/pipeline_etl/run.py:24-84 | a run without failure attempts every stage; a failure is the last attempted stage's own error |
| Pipeline.DriveRecordsEarlierStages | src/pipeline_etl/run.py:25-77 | exactly the stages before the failing one (all of them on success) leave a result |
| Pipeline.CompleteRunCallsEveryStage | src/pipeline_etl/run.py:79 | when every stage succeeds all seven are attempted and the run completes |
| Pipeline.DownloadFailureStopsAll | src/pipeline_etl/run.py:25-32 | example: a failing download stops the run before any other stage |
| Pipeline.TransformFeedsAnalysis | src/pipeline_etl/run.py:53-74 | example: analysis and visualisation are handed the transform's result; replacing the CSV stage's result changes no stage's input |
| Pipeline.CsvResultUnused | src/pipeline_etl/run.py:59-60 | the frame the CSV stage returns affects neither which stages run nor how the run ends |
| CommonTools.GetSize | src/utils/common_tools.py:9-63 | a non-string path gives a TypeError and a missing file a FileNotFoundError, both unwrapped; a size of at most 0.10 GiB gives a wrapped ValueError; success iff the path is valid and the size above the threshold, and the text is then the size sentence |
| CommonTools.TooSmallThreshold | src/utils/common_tools.py:48 | a file is refused exactly when it has at most 107374182 bytes |
| CommonTools.AcceptedMonotone | src/utils/common_tools.py:48 | once a size is accepted every larger size is accepted |
| CommonTools.RoundHalfEven | src/utils/common_tools.py:57 | the rounded quotient is within half a unit of the exact one, and ties go to the even one |
| CommonTools.FixedRoundTrip | src/utils/common_tools.py:57 | a number printed with ten decimals reads back to the value printed |
| CommonTools.SizeTextAccurate | src/utils/common_tools.py:45-57 | the sentence is prefix, number and " GB.", and the number is the size in GiB to within half of 10^-10 |
| CommonTools.OneGiB | src/utils/common_tools.py:57 | a file of one GiB is reported as "The size of the file is 1.0000000000 GB." |
| UnzipDatabase.Unzip | src/databaseOperations/unzip_database.py:39-96 | zip-path type, extraction-path type, zip existence, then extraction directory are checked in that order, each with its own error; extraction is attempted exactly when all pass; a bad archive is a BadZipFile, any other failure a wrapped Exception |
| UnzipDatabase.UnzipOutcome | src/databaseOperations/unzip_database.py:60-96 | success iff the checks pass and the archive extracts; only the generic Exception has a cause, and it is the library's error |
| UnzipDatabase.FileAsTargetRefused | src/databaseOperations/unzip_database.py:77-80 | an existing regular file as the target is refused as not a directory |
| LoadFromCsv.LoadCsv | src/analysis/load_from_csv.py:43-84 | a non-string path, then a path that is not a regular file, then an empty frame are refused, each wrapped with "Error while loading CSV file: "; the reader is called exactly when the path checks pass; a frame comes back only when it is not empty |
| LoadFromCsv.LoadCsvErrors | src/analysis/load_from_csv.py:56-84 | every failure reaches the caller as an Exception with the prefix and the specific error as cause; a directory is reported as a missing file |
| LoadFromCsv.DefaultDelimiter | src/analysis/load_from_csv.py:43 | example: without a delimiter argument the reader is asked for commas |
| Config.FindMainDir | src/config/__init__.py:9-12 | the nearest ancestor-or-self named Data-Wharehouse-ETL is found; there is none exactly when no component has that name |
| Config.WalkNeverEnds | src/config/__init__.py:11-12 | without such a component no number of parent steps reaches the name, as the root is its own parent |
| Config.SelectConfigFile | src/config/__init__.py:39-50 | only the first entry is looked at: it is chosen iff it ends in ".yaml", else FileNotFoundError; an empty listing keeps the caller's path |
| Config.FirstYaml | src/config/__init__.py:40-50 | the search the loop means: the first ".yaml" entry anywhere, and FileNotFoundError only when none exists |
| Config.SearchAgreesOnFirstEntry | src/config/__init__.py:40-45 | loop and search agree when the listing is empty or its first entry is a YAML file |
| Config.LaterYamlRefused | src/config/__init__.py:40-50 | for the listing README.md, config.yaml the loop raises while the search picks config.yaml |
| Config.ConfigDirIsChild | src/config/__init__.py:15 | `CONFIGDIR` is the path of the child `configs` of the project root: its parent is the root and its name is configs |
| Config.ConfigYamlReader | src/config/__init__.py:23-62 | the directory listed is `CONFIGDIR` of the root the import found; a listing error passes through unchanged; the file opened is the first ".yaml" entry of the listing (the corrected selection, see Findings), else the caller's path when the listing is empty; a listing without any YAML file gives FileNotFoundError; an empty listing without a path is a TypeError; a read error passes through; a YAML error becomes a ValueError |
| Config.Subscript | src/config/__init__.py:65 | a lookup succeeds exactly on a mapping holding the key, giving its value |
| Config.LookupAll | src/config/__init__.py:65-75 | every setting is found exactly when each lookup succeeds; a failure is the first failing key's error |
| Config.Settings | src/config/__init__.py:64-75 | the import succeeds exactly when etl_config is a mapping holding all eleven keys, and then gives their values in order |
| Config.EmptyConfigFails | src/config/__init__.py:64-65 | an empty configuration file fails the import with a TypeError |

## Left out

- Logging (`PipelineTrack`, `ErrorTrack` and the handler setup in src/utils/__init__.py) is an external sink with no effect on results. It is not modelled.
- src/analysis/visualize_dataset.py renders charts. It appears only as the abstract Visualize stage.
- src/pipeline_etl/scheduled_job.py is a wall-clock polling loop and is not modelled. Its comment says every 2 hours; its code says every 10 minutes.
- src/__init__.py (directory creation at import) is not modelled.
- The `__main__` demo blocks are not modelled.
- Library calls are parameters, and their internals are not modelled. This covers:
  - gdown;
  - zipfile extraction and the archive's contents;
  - sqlite3 connect, query and close;
  - pandas read_csv, read_sql_query and to_csv (the contents of the files written too);
  - yaml.safe_load;
  - os.listdir and open.
- Free-form timestamp parsing (`pd.to_datetime` without a format) is a parameter applied to each cell on its own. pandas infers one format from the first non-null value and can refuse a later value written in another format. That column-wide inference is not modelled, so the timestamp step fails in the model exactly when some single cell fails to parse.
- Calendar.ParseIsoDate: surrounding whitespace and the other lenient spellings pandas' ISO 8601 reader may accept beyond one- or two-digit month and day fields are refused.
- The ISO date parser and the digit test accept ASCII digits only. Python's `\d` also matches other Unicode decimal digits.
- TransformDatabase.Mean: means are exact reals, not IEEE doubles. Delays too large for a double to hold exactly are modelled exactly.
- TransformDatabase.CleanFrame: the model has no KeyError for a missing timeStamp or train_id column apart from that column's own check. It has no AttributeError for `.str` on an all-null status column, and it has no duplicate column names.
- CommonTools.GetSize: the model computes on the exact quotient. This matches Python's float for sizes below 2^53 bytes, not above. A file that disappears between the existence check and `getsize` is not modelled.
- The texts of library exceptions are approximations of what the libraries print:
  - the `'NoneType' object has no attribute 'cursor'` of read_sql_query;
  - sqlite's closed-database message;
  - the open(None) TypeError;
  - describe()'s error on a frame without columns.
- UnderstandDataset.CategoryFrequencies: a column of dtype `category` would list every category of its dtype in `value_counts()`, unused ones with count 0. The frame model carries no category set, so only the values present are counted. `read_sql_query` and `read_csv` never produce that dtype in this pipeline.
- UnderstandDataset.DataSetAnalyzer.Analyze: the model records the keys of describe, dtypes, memory usage, skewness and correlation. It does not record their floating-point values, nor the square, symmetric shape of the correlation matrix. The only failure modelled is describe() on a frame without columns.
- Config.ConfigYamlReader: chooses the file with the corrected search FirstYaml, so a listing whose first entry is not a YAML file but a later one is opens that file where the source raises FileNotFoundError (Findings; SelectConfigFile keeps the loop as written).
- Config.FindMainDir returns None where the source loop never terminates. WalkNeverEnds states that non-termination.
- YAML documents are modelled as null, text or mapping. Lists and typed scalars are not distinguished.
- IngestFromDrive.Load: save_archive is modelled as a string. A non-string value would make os.path.exists raise TypeError, and that is not modelled.
- Pipeline.EtlPipeline: the stages are abstract outcomes. As written, run.py cannot perform them:
  - it imports a DataVisualizer class that does not exist (line 17);
  - it calls `unzipper.extract` (line 39), `extractor.extract` (line 47) and `csv_loader.load` (line 60), none of which exist;
  - it calls `transform` with one argument (line 53);
  - it calls `.to_csv` on a dict (line 68).

## Findings

| source | as written | input that shows it | evidently intended | confidence | as-written member | corrected member |
|---|---|---|---|---|---|---|
| src/config/__init__.py:40-50 | the loop raises FileNotFoundError as soon as the first directory entry is not a `.yaml` file, so only the first entry is ever examined | a configs listing `["README.md", "config.yaml"]` | choose the first `.yaml` entry wherever it stands, and raise only when no entry is one (as the comments at lines 38, 42 and 47 say) | not executed | Config.SelectConfigFile | Config.FirstYaml |
