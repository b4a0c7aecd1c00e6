/** Failure-carrying wrappers and the error kinds the pipeline raises. */
module Base {

  /** A value that may be absent: a dictionary key that is missing, a lookup that found nothing. */
  datatype Option<+T> = None | Some(value: T) {
    function GetOr(default: T): T {
      match this
      case Some(v) => v
      case None => default
    }
  }

  /** The exceptions the modelled code raises, one constructor per kind. */
  datatype Error =
    | MissingKey(key: string)          // KeyError on a dictionary lookup with [...]
    | InvalidArgument                  // ValueError: batch_size must be at least 1, or a zero range step
    | NoThemes                         // ValueError: empty theme list
    | ThemeIndexOutOfRange(index: int) // ValueError: theme_index >= number of themes
    | IndexOutOfRange(index: int)      // IndexError: a negative index below -len
    | NoPostsForTheme(theme: string)   // ValueError: none of the theme's post ids is in the corpus
    | ModelCallFailed                  // the generative-model call raised
    | LedgerUnreadable                 // the summary ledger exists but does not parse
    | AuthenticationFailed             // no Reddit instance could be created

  /** Either a value or the exception that replaced it. */
  datatype Result<+T> = Ok(value: T) | Err(error: Error) {
    predicate IsFailure() {
      Err?
    }

    function PropagateFailure<U>(): Result<U>
      requires Err?
    {
      Err(error)
    }

    function Extract(): T
      requires Ok?
    {
      value
    }
  }
}
