/** Failure-compatible wrappers, and a fact about sequence prefixes, shared by every module of the model. */
module Wrappers {

  datatype Option<+T> = None | Some(value: T)

  /** The Python exception, or the `sys.exit`/`exit` call, that ends a run of a script. */
  datatype PyError = IndexError | ValueError | KeyError | TypeError | NameError | ZeroDivisionError | Exit

  /** The outcome of a step that may raise: a value, or the error that aborts the script. */
  datatype Result<+T> = Ok(value: T) | Err(error: PyError)

  /** Cutting the prefix one longer back gives the prefix. */
  lemma TakeNext<T>(s: seq<T>, i: int)
    requires 0 <= i < |s|
    ensures s[..i + 1][..i] == s[..i]
  {
  }

  /** The whole prefix is the sequence. */
  lemma TakeAll<T>(s: seq<T>)
    ensures s[..|s|] == s
  {
  }

  /** A prefix of a prefix is a prefix. */
  lemma TakeTake<T>(s: seq<T>, m: int, n: int)
    requires 0 <= n <= m <= |s|
    ensures s[..m][..n] == s[..n]
  {
  }

  /** A non-empty sequence is its front with its last element appended. */
  lemma FrontLast<T>(s: seq<T>)
    requires |s| > 0
    ensures s[..|s| - 1] + [s[|s| - 1]] == s
  {
  }
}
