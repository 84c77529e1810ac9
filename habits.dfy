/**
 * Vocabulary shared by the four habit services (hydrate, diet, focus and
 * sleep): log identifiers, the truthiness test the services apply to the
 * request body's fields, and their common error messages.
 */
module Habits {
  import opened Wrappers

  /** A log row's primary key, assigned by the database on insert. */
  type LogId = nat

  /** Python's `not x` is false: the field is present and not 0. */
  predicate Truthy(v: Option<int>) {
    v.Some? && v.value != 0
  }

  /** Python's `not s` is false: the string is present and not empty. */
  predicate TruthyText(v: Option<string>) {
    v.Some? && v.value != ""
  }

  const MISSING_FIELDS_MSG: string := "Missing required fields"
}
