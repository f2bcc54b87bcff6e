/** Values as the views see them after an HTTP reply or a storage read.

    JavaScript tests presence by truthiness: `null`/`undefined` and the empty
    string are falsy, while every array (even an empty one) is truthy. The
    views only ever look at strings and string arrays, so an absent value is
    `None` and a present one is `Some(v)`.
 */
module JsValues {

  datatype Option<+T> = None | Some(value: T)

  /** The statuses a request resolves with; every other status is rejected
      and reaches the caller as a thrown error. */
  type SuccessStatus = s: int | 200 <= s < 300 witness 200

  /** JavaScript truthiness of a possibly-absent string: present and non-empty. */
  predicate TruthyString(o: Option<string>) {
    o.Some? && o.value != ""
  }

  /** JavaScript truthiness of a possibly-absent array: an empty array is truthy. */
  predicate TruthyList<T>(o: Option<seq<T>>) {
    o.Some?
  }

  /** `a || b` for strings: the first operand when it is truthy, otherwise the fallback. */
  function OrElse(o: Option<string>, fallback: string): (r: string)
    ensures TruthyString(o) ==> r == o.value
    ensures !TruthyString(o) ==> r == fallback
    ensures fallback != "" ==> r != ""
  {
    if o.Some? && o.value != "" then o.value else fallback
  }
}
