/** The parts of an Express response the handlers produce. */
module Http {
  import opened Wrappers
  import opened Services

  /** The user fields a login response exposes; there is no password among them. */
  datatype PublicUser = PublicUser(
    id: UserId,
    nickname: string,
    name: string,
    email: string,
    phone: string,
    preferredLanguage: string)

  function PublicView(u: User): PublicUser
  {
    PublicUser(u.id, u.nickname, u.name, u.email, u.phone, u.preferredLanguage)
  }

  /** JSON bodies: `{message}`, `{message, error}`, `{token, user}` (`profile` is its `user`) and `{user}`. */
  datatype Body =
    | Message(message: string)
    | Failure(message: string, error: string)
    | LoginBody(token: string, profile: PublicUser)
    | UserBody(user: User)

  /** Status, body, and the `token` cookie when one is set. */
  datatype Response = Response(status: nat, body: Body, cookie: Option<string>)

  /** How a handler ends: it answers, calls `next()`, or calls `next(err)`. */
  datatype Outcome = Respond(response: Response) | Next | NextError(error: string)

  function Reply(status: nat, message: string): Response
  {
    Response(status, Message(message), None)
  }
}
