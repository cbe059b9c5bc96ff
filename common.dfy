/** Values shared by every component: optional values, replies of remote
    calls, and the JavaScript truthiness tests the handlers use. */
module Common {

  /** A value that may be absent (`null` / `undefined` / a missing key). */
  datatype Option<T> = None | Some(value: T) {
    function GetOr(default: T): T {
      match this
      case Some(v) => v
      case None => default
    }
  }

  /** The reply of one remote call: its data, or an error whose message
      may be the empty string (a missing `message`). */
  datatype Reply<T> = Ok(value: T) | Err(message: string)

  /** Whitespace as the model sees it; `trim()` uses a larger Unicode set. */
  predicate IsSpace(c: char) {
    c == ' ' || c == '\t' || c == '\n' || c == '\r'
  }

  /** `s.trim() === ""`. */
  predicate IsBlank(s: string) {
    forall i :: 0 <= i < |s| ==> IsSpace(s[i])
  }

  /** A `string | null` is truthy when present and not the empty string. */
  predicate Truthy(s: Option<string>) {
    s.Some? && s.value != ""
  }

  /** `a || b` on strings: the first operand unless it is falsy. */
  function OrElse(a: Option<string>, b: string): (r: string)
    ensures Truthy(a) ==> r == a.value
    ensures !Truthy(a) ==> r == b
  {
    if Truthy(a) then a.value else b
  }
}
