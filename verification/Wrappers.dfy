/** The optional value, and token digests, used across the project. */
module Wrappers {
  datatype Option<+T> = None | Some(value: T)

  /**
   * Domain-separated SHA-256 digests of session and CSRF tokens. Two constructors stand for the two
   * prefixes, and a digest holds what it digests: digests are taken to be injective.
   */
  datatype Digest = OfSession(token: string) | OfCsrf(token: string)
}
