/** Values as the route handlers see them: a field of a parsed JSON body, a
    request header, an environment variable or a cookie is either absent
    (`undefined`/`null`) or present. */
module Values {

  datatype Option<+T> = None | Some(value: T)

  /** JavaScript truthiness of a value that is absent or a string: only a
      present, non-empty string is truthy (`if (!email) ...`). */
  predicate Truthy(s: Option<string>) {
    s.Some? && s.value != ""
  }
}
