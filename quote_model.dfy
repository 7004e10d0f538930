/**
 * The shared data of the quote app: a quote record as it is stored in
 * localStorage or returned by the server, and the persisted "savedQuotes"
 * entry of localStorage.
 */
module QuoteModel {
  import opened Wrappers

  /**
   * A quote record. JavaScript objects are open-ended; the model keeps the
   * five fields the app reads. None stands for an absent field (undefined),
   * or, for the string fields, for a value that is not a string.
   */
  datatype Quote = Quote(
    id: Option<string>,
    text: Option<string>,
    category: Option<string>,
    author: Option<string>,
    editable: Option<Flag>)

  /**
   * The JSON value held in the "editable" field: a boolean, or any other
   * value (number, string, null, object) with its JavaScript truthiness.
   * Only Bool(true) passes the `=== true` test; Boolean() also accepts a
   * truthy Other.
   */
  datatype Flag = Bool(b: bool) | Other(truthy: bool)

  /**
   * What JSON.parse(localStorage.getItem("savedQuotes")) yields: no entry,
   * text that does not parse, a parsed value that is not an array (with its
   * JavaScript truthiness: null, false and 0 are falsy), or an array of quotes.
   */
  datatype Storage = Missing | Unparsable | NonArray(truthy: bool) | Array(items: seq<Quote>)

  /** The browser's localStorage, reduced to its "savedQuotes" entry. */
  class LocalStore {
    var savedQuotes: Storage

    constructor (initial: Storage)
      ensures savedQuotes == initial
    {
      savedQuotes := initial;
    }
  }

  /** a is obtained from b by deleting elements: order is preserved. */
  ghost predicate IsSubsequence<T>(a: seq<T>, b: seq<T>)
    decreases |b|
  {
    if b == [] then a == []
    else
      || (a != [] && a[|a| - 1] == b[|b| - 1] && IsSubsequence(a[..|a| - 1], b[..|b| - 1]))
      || IsSubsequence(a, b[..|b| - 1])
  }

  /** No value occurs twice in s. */
  ghost predicate Distinct<T>(s: seq<T>) {
    forall i, j :: 0 <= i < j < |s| ==> s[i] != s[j]
  }
}
