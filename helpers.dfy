/** The shared constants and the Clerk-facing predicates of the route handlers. */
module Helpers {
  import opened Wrappers

  /** Number of todos in one page of a listing. */
  const ITEMS_PER_PAGE: nat := 10

  /** The caller is an administrator exactly when the identity provider's
      public metadata carries the role "admin". */
  predicate IsAdmin(role: Option<string>)
  {
    role == Some("admin")
  }

  /** JavaScript truthiness of a `string | null | undefined` value: present and non-empty. */
  predicate Present(s: Option<string>)
  {
    s.Some? && s.value != ""
  }

  /** A decoded JSON value, as far as a request body field can be one. */
  datatype JsonValue = JBool(b: bool) | JNumber(n: int) | JString(s: string) | JNull
}
