/** What the authorization handlers share: the outcome they record on the
    authorization context, and the test they apply to the caller's user id claim. */
module Authorization {
  import opened Wrappers

  /** `context.Succeed(requirement)` or `context.Fail()`: each handler records exactly one. */
  datatype Decision = Succeed | Fail

  /** `string.IsNullOrEmpty` on the name-identifier claim. */
  predicate IsNullOrEmpty(s: Option<string>) {
    s.None? || s.value == ""
  }
}
