/**
 * The small part of the Python runtime the pipeline's behaviour depends on:
 * exceptions with their `__cause__`, arguments whose type is checked with
 * `isinstance(x, str)`, and an abstract view of the filesystem.
 */
module Python {

  datatype Option<+T> = None | Some(value: T)

  /** The exception classes the pipeline raises, re-raises or lets through. */
  datatype ExcType =
    | Exception
    | TypeError
    | ValueError
    | KeyError
    | FileNotFoundError
    | NotADirectoryError
    | OSError
    | BadZipFile
    | SqliteError
    | OutOfBoundsDatetime

  /**
   * A raised exception: its class, the text `str(e)` and the `__cause__`
   * that `raise ... from e` attaches (None when raised without `from`).
   */
  datatype PyError = PyError(kind: ExcType, msg: string, cause: Option<PyError>)

  /** What a call gives back to its caller: a value or a raised exception. */
  datatype Result<+T> = Ok(value: T) | Err(error: PyError) {
    predicate IsFailure() { Err? }
    function PropagateFailure<U>(): Result<U> requires Err? { Err(error) }
    function Extract(): T requires Ok? { value }
  }

  /**
   * The result a caller sees together with the one library call (download,
   * extraction, file read) that was actually made, if any.
   */
  datatype Traced<+C, +T> = Traced(call: Option<C>, result: Result<T>)

  /** A fresh exception raised with a message and no cause. */
  function Raise(kind: ExcType, msg: string): PyError
  {
    PyError(kind, msg, None)
  }

  /** `raise Exception(prefix + str(e)) from e` */
  function Wrap(prefix: string, e: PyError): PyError
  {
    PyError(Exception, prefix + e.msg, Some(e))
  }

  /** An argument value: a `str` instance, or an object of some other class. */
  datatype Arg = Str(s: string) | Object(className: string)

  /** The text `str(type(x))` that the error messages embed. */
  function TypeRepr(a: Arg): string
  {
    match a
    case Str(_) => "<class 'str'>"
    case Object(c) => "<class '" + c + "'>"
  }

  datatype EntryKind = RegularFile | Directory

  /** What `os.stat` reports about a path that exists. */
  datatype Entry = Entry(kind: EntryKind, size: nat)

  /**
   * The filesystem as the pipeline observes it: every existing path with its
   * kind and size. `exists`, `isdir`, `isfile` and `getsize` are read off it.
   */
  datatype FileSystem = FileSystem(entries: map<string, Entry>) {
    predicate Exists(p: string) { p in entries }
    predicate IsDir(p: string) { p in entries && entries[p].kind == Directory }
    predicate IsFile(p: string) { p in entries && entries[p].kind == RegularFile }
    function Size(p: string): nat requires Exists(p) { entries[p].size }
  }
}
