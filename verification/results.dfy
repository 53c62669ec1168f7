/**
 * Outcome types shared by the extraction pipeline.
 *
 * The Python code signals failure by raising; every exception that can
 * escape one of the modelled operations is a constructor of `Error`, and
 * every operation that can raise returns a `Result`.
 */
module Results {

  datatype Option<+T> = None | Some(value: T)

  /** The exceptions the modelled code can raise, named by what went wrong. */
  datatype Error =
    /** FileNotFoundError: `open`, `os.listdir` or an explicit raise found no such path. */
    | FileNotFound(path: string)
    /** IsADirectoryError: `open` was given a directory. */
    | IsADirectory(path: string)
    /** NotADirectoryError: `os.listdir` / `os.scandir` was given a regular file. */
    | NotADirectory(path: string)
    /** Any other failure of `open(...).read()` (permissions, text decoding). */
    | ReadFailed(path: string)
    /** The bare `FileNotFoundError` the resolver raises for a missing
        ticker or form directory: it carries no path, so the two cases
        cannot be told apart (only the log line names the directory). */
    | DirectoryMissing
    /** AttributeError: no `FILED AS OF DATE:` match, so `.group` was called on None. */
    | NoFiledDate
    /** UnboundLocalError: the date matched but the submission type did not. */
    | NoSubmissionType
    /** AttributeError: the inventory lookup gave None for this form-type label. */
    | NoExtractor(formLabel: string)
    /** KeyError: a watched tag has no `contextref` attribute. */
    | MissingContextRef(tagName: string)
    /** ValueError: `int(tag.text)` on a text that is not an integer literal. */
    | NotAnInteger(text: string)
    /** ValueError: `int` of what the sort-key substitution left of a file
        name; `text` is that substituted string, as the exception names it. */
    | UnsortableName(text: string)
    /** Any exception raised inside the 10-Q extractor, whose code is not part of this model. */
    | QuarterlyFailed(reason: string)

  /** Success value or the exception that aborted the call; usable with `:-`. */
  datatype Result<+T> = Ok(value: T) | Err(error: Error) {
    predicate IsFailure() {
      Err?
    }

    function PropagateFailure<U>(): Result<U>
      requires Err?
    {
      Err(error)
    }

    function Extract(): T
      requires Ok?
    {
      value
    }
  }
}
