/** Values shared by the workers, the merge engine and the main window. */
module Types {

  /** A filesystem path as pathlib renders it (normalised, POSIX separators). */
  type Path = string

  datatype Option<+T> = None | Some(value: T)

  /** A page of a parsed document: the document it came from and its index there. */
  datatype Page = Page(document: Path, index: nat)

  /** A rendered thumbnail, as the opaque handle of a QIcon. */
  datatype Icon = Icon(handle: nat)

  /** Outcome of `path.stat()`: the size and the text of `st_mtime`, or the exception text. */
  datatype StatResult = StatOk(size: nat, mtime: string) | StatError(msg: string)

  /** Outcome of opening a document with `PdfReader` and walking its pages. */
  datatype ReadResult = Pages(pages: seq<Page>) | ReadError(msg: string)

  /** Outcome of a filesystem operation that may raise. */
  datatype IoResult = IoOk | IoError(msg: string)

  function Min(a: int, b: int): int { if a <= b then a else b }

  function Max(a: int, b: int): int { if a >= b then a else b }
}
