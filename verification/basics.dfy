/** Small shared vocabulary: optional values and the JavaScript truthiness
    tests the controllers apply to request fields. */
module Basics {

  /** An optional value: a missing request field, a null relation, an
      upload that returned nothing. */
  datatype Option<+T> = None | Some(value: T)

  /** User identifiers are Strapi's auto-increment ids. */
  type UserId = nat

  /** `!x` on an id field is false exactly when the field is absent or 0. */
  predicate PresentId(x: Option<nat>)
    ensures PresentId(x) <==> x.Some? && x.value >= 1
  {
    x.Some? && x.value != 0
  }

  /** `!s` on a text field is false exactly when it is absent or empty. */
  predicate PresentText(s: Option<string>)
    ensures PresentText(s) <==> s.Some? && |s.value| >= 1
  {
    s.Some? && s.value != ""
  }
}
