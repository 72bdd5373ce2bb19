/** Optional values, and the JavaScript `value || fallback` idiom the pages use for server-supplied strings. */
module Wrappers {

  datatype Option<T> = None | Some(value: T)

  /** A string the source would treat as truthy: present and not empty. */
  predicate Truthy(s: Option<string>) {
    s.Some? && s.value != ""
  }

  /** `s || fallback`: a missing or empty string falls back. */
  function OrElse(s: Option<string>, fallback: string): (r: string)
    ensures Truthy(s) ==> r == s.value
    ensures !Truthy(s) ==> r == fallback
  {
    if Truthy(s) then s.value else fallback
  }
}
