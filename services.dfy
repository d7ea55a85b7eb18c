/**
 * What the authentication code sees of its collaborators: the user service
 * (reached over HTTP), and the JSON Web Token library. Their behaviour is not
 * modelled; their answers are inputs of the handlers.
 */
module Services {
  import opened Wrappers

  type UserId = string
  type AccountId = string

  /** A user record as the user service returns it. */
  datatype User = User(
    id: UserId,
    verified: bool,
    nickname: string,
    name: string,
    email: string,
    phone: string,
    preferredLanguage: string)

  /**
   * The result of one call to the user service: the response data, or a call
   * that threw (every client function rethrows as FetchFailedMessage).
   */
  datatype Fetch<T> = Fetched(data: T) | FetchFailed

  const FetchFailedMessage := "User service fetch failed"

  /** The body the user service answers a registration with. */
  datatype RegisterData = RegisterData(userId: Option<string>)

  /** The payload of a session token. */
  datatype Claims = Claims(userId: UserId, accountId: AccountId)

  /** Tokens are signed with a one-day lifetime. */
  const TokenLifetime := "1d"

  /**
   * The token library, with the process-wide secret and the current time
   * fixed: `sign` produces a token, `verify` decodes one or fails.
   */
  datatype Jwt = Jwt(sign: Claims -> string, verify: string -> Option<Claims>)

  /** A token library whose tokens are non-empty and verify to what was signed. */
  ghost predicate WellFormed(jwt: Jwt)
  {
    forall c: Claims :: jwt.sign(c) != "" && jwt.verify(jwt.sign(c)) == Some(c)
  }

  /** JavaScript truthiness of a string that may be undefined. */
  predicate Truthy(s: Option<string>)
  {
    s.Some? && s.value != ""
  }
}
