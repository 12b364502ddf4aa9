/** Small value types and string predicates shared by every module. */
module Common {
  /** A value that may be absent: JavaScript's `undefined` (and `null` where it behaves the same). */
  datatype Option<+T> = None | Some(value: T)

  /** JavaScript truthiness of an optional string: present and not the empty string. */
  predicate Truthy(s: Option<string>) {
    s.Some? && s.value != ""
  }

  /** `s.startsWith(prefix)`. */
  predicate StartsWith(s: string, prefix: string) {
    |prefix| <= |s| && s[..|prefix|] == prefix
  }
}
