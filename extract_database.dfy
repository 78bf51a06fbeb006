/**
 * `SQLiteExtractor` (src/databaseOperations/extract_database.py): an object
 * holding at most one sqlite connection, opened by `connect`, used by
 * `execute_query` and closed by `close_connection`.
 *
 * The database is a parameter: `db(path, query)` is what running `query`
 * against the database file at `path` gives.
 */
module ExtractDatabase {
  import opened Python
  import opened Text
  import opened Frames

  /** A `sqlite3.Connection`: the file it was opened on and whether `close()` was called. */
  class Connection {
    const path: string
    var closed: bool

    constructor (path: string)
      ensures this.path == path && !closed
    {
      this.path := path;
      closed := false;
    }
  }

  /** What `pd.read_sql_query` does on an open connection. */
  datatype QueryOutcome =
    | Rows(frame: DataFrame)
    | SqliteFailure(msg: string)   // a `sqlite3.Error`
    | OtherFailure(msg: string)    // any other exception

  const QueryFailed := "Error executing query: "
  const QueryCrashed := "Unexpected error during query execution: "
  /** What `read_sql_query` raises when handed `None` for a connection. */
  const NoCursor := "'NoneType' object has no attribute 'cursor'"
  /** What sqlite raises for any use of a closed connection. */
  const ClosedDatabase := "Cannot operate on a closed database."

  class SQLiteExtractor {
    var connection: Connection?

    /** A fresh extractor holds no connection. */
    constructor ()
      ensures connection == null
    {
      connection := null;
    }

    /**
     * `connect(db_path)`. `connectFailure` is the message of the
     * `sqlite3.Error` that `sqlite3.connect` raises, if it does. The field
     * changes only when the connection is made.
     */
    method Connect(dbPath: Arg, fs: FileSystem, connectFailure: Option<string>) returns (r: Result<()>)
      modifies this
      ensures !dbPath.Str? ==>
        r == Err(Raise(TypeError, "The database path must be a string. Provided type: " + TypeRepr(dbPath)))
      ensures dbPath.Str? && !fs.Exists(dbPath.s) ==>
        r == Err(Raise(FileNotFoundError, "The database file does not exist: " + dbPath.s))
      ensures dbPath.Str? && fs.Exists(dbPath.s) && connectFailure.Some? ==>
        r == Err(Raise(SqliteError, "Error connecting to database: " + connectFailure.value))
      ensures r.Ok? <==> dbPath.Str? && fs.Exists(dbPath.s) && connectFailure.None?
      ensures r.Err? ==> connection == old(connection)
      ensures r.Ok? ==> fresh(connection) && connection.path == dbPath.s && !connection.closed
    {
      if !dbPath.Str? {
        return Err(Raise(TypeError, "The database path must be a string. Provided type: " + TypeRepr(dbPath)));
      }
      if !fs.Exists(dbPath.s) {
        return Err(Raise(FileNotFoundError, "The database file does not exist: " + dbPath.s));
      }
      if connectFailure.Some? {
        return Err(Raise(SqliteError, "Error connecting to database: " + connectFailure.value));
      }
      connection := new Connection(dbPath.s);
      r := Ok(());
    }

    /**
     * `execute_query(query)`. The query is checked for its type and for
     * being blank before the connection is touched; errors from the query
     * are re-raised with a prefix and no cause.
     */
    method ExecuteQuery(query: Arg, db: (string, string) -> QueryOutcome) returns (r: Result<DataFrame>)
      ensures !query.Str? ==>
        r == Err(Raise(TypeError, "The query must be a string. Provided type: " + TypeRepr(query)))
      ensures query.Str? && IsBlank(query.s) ==>
        r == Err(Raise(ValueError, "The query strin is empty or invalid."))
      ensures query.Str? && !IsBlank(query.s) && connection == null ==>
        r == Err(Raise(Exception, QueryCrashed + NoCursor))
      ensures query.Str? && !IsBlank(query.s) && connection != null && connection.closed ==>
        r == Err(Raise(SqliteError, QueryFailed + ClosedDatabase))
      ensures query.Str? && !IsBlank(query.s) && connection != null && !connection.closed ==>
        r == match db(connection.path, query.s)
             case Rows(f) => Ok(f)
             case SqliteFailure(m) => Err(Raise(SqliteError, QueryFailed + m))
             case OtherFailure(m) => Err(Raise(Exception, QueryCrashed + m))
      ensures r.Err? ==> r.error.cause.None?
    {
      if !query.Str? {
        return Err(Raise(TypeError, "The query must be a string. Provided type: " + TypeRepr(query)));
      }
      StripEmptyIffBlank(query.s);
      if Strip(query.s) == "" {
        return Err(Raise(ValueError, "The query strin is empty or invalid."));
      }
      if connection == null {
        return Err(Raise(Exception, QueryCrashed + NoCursor));
      }
      if connection.closed {
        return Err(Raise(SqliteError, QueryFailed + ClosedDatabase));
      }
      match db(connection.path, query.s)
      case Rows(f) =>
        r := Ok(f);
      case SqliteFailure(m) =>
        r := Err(Raise(SqliteError, QueryFailed + m));
      case OtherFailure(m) =>
        r := Err(Raise(Exception, QueryCrashed + m));
    }

    /**
     * `close_connection()`. Nothing happens without a connection or on one
     * already closed; `closeFailure` is the message of a `sqlite3.Error`
     * raised by `close()`. The field keeps the (closed) connection.
     */
    method CloseConnection(closeFailure: Option<string>) returns (r: Result<()>)
      modifies connection
      ensures connection == old(connection)
      ensures connection == null ==> r.Ok?
      ensures connection != null && old(connection.closed) ==> r.Ok? && connection.closed
      ensures connection != null && !old(connection.closed) ==>
        if closeFailure.None? then r.Ok? && connection.closed
        else r == Err(Raise(SqliteError, "Error closing the database connection: " + closeFailure.value))
             && !connection.closed
    {
      r := Ok(());
      if connection != null && !connection.closed {
        if closeFailure.Some? {
          return Err(Raise(SqliteError, "Error closing the database connection: " + closeFailure.value));
        }
        connection.closed := true;
      }
    }
  }

  /** A query before any successful `connect` fails with the generic exception, not a sqlite error. */
  method QueryBeforeConnect(query: string, db: (string, string) -> QueryOutcome) returns (r: Result<DataFrame>)
    requires !IsBlank(query)
    ensures r == Err(Raise(Exception, QueryCrashed + NoCursor))
  {
    var extractor := new SQLiteExtractor();
    r := extractor.ExecuteQuery(Str(query), db);
  }

  /**
   * Closing keeps the handle in the field: a query after `close_connection`
   * reaches the closed connection and fails with a sqlite error.
   */
  method QueryAfterClose(dbPath: string, fs: FileSystem, query: string, db: (string, string) -> QueryOutcome)
    returns (r: Result<DataFrame>)
    requires fs.Exists(dbPath) && !IsBlank(query)
    ensures r == Err(Raise(SqliteError, QueryFailed + ClosedDatabase))
  {
    var extractor := new SQLiteExtractor();
    var connected := extractor.Connect(Str(dbPath), fs, None);
    var closed := extractor.CloseConnection(None);
    r := extractor.ExecuteQuery(Str(query), db);
  }
}
