/**
 * The register, login and current-user handlers. Each handler's collaborator
 * calls become inputs: the user service's answers (`Fetch`), the account the
 * store finds (`Account?`, null when none), bcrypt's key derivation and the
 * token library. A branch whose result is fixed by earlier inputs alone is one
 * that ends before the later collaborators are consulted.
 */
module AuthController {
  import opened Wrappers
  import opened Services
  import opened Password
  import opened AccountModel
  import opened Http

  const PasswordsDifferMessage := "Passwords do not match"
  const NoUserIdMessage := "userId not returned from User Service"
  const RegisteredMessage := "Registration successful."
  const InvalidCredentialsMessage := "Invalid credentials"
  const NotVerifiedMessage := "Account not verified. Please check your email."
  const NoUserIdInRequestMessage := "User ID not found in request"
  const UserNotFoundMessage := "User not found"

  /** An `Error` object serialises to an empty JSON object. */
  const EmptyErrorJson := "{}"

  function RegisterFailed(error: string): Response
  {
    Response(500, Failure("Registration failed", error), None)
  }

  const LoginError := Response(500, Failure("Login error", EmptyErrorJson), None)

  /**
   * `register`: the user service registers (or finds) the user; a new Account
   * holding the password is created and saved. `service` is the user service's
   * answer, `newId` the id the store gives the new account, `nonce` and `now`
   * the save hook's salt and clock. The returned account is the one saved, or
   * null when none is.
   */
  method Register(eks: Eks, nonce: Nonce, now: Timestamp, newId: AccountId,
                  password: string, confirmPassword: string, service: Fetch<RegisterData>)
    returns (res: Response, account: Account?)
    ensures password != confirmPassword ==> res == Reply(400, PasswordsDifferMessage) && account == null
    ensures password == confirmPassword && service.FetchFailed? ==>
              res == RegisterFailed(FetchFailedMessage) && account == null
    ensures password == confirmPassword && service.Fetched? && !Truthy(service.data.userId) ==>
              res == RegisterFailed(NoUserIdMessage) && account == null
    ensures password == confirmPassword && service.Fetched? && Truthy(service.data.userId) && password == "" ==>
              res == RegisterFailed(PasswordRequiredMessage) && account == null
    ensures password == confirmPassword && service.Fetched? && Truthy(service.data.userId) && password != "" ==>
              && res == Reply(201, RegisteredMessage)
              && account != null && fresh(account) && account.Valid()
              && account.id == newId && account.user == service.data.userId.value
              && account.status == Active && !account.passwordModified
              && account.password == Hashed(HashPassword(eks, password, nonce))
              && account.previousPasswords == [PreviousPassword(account.password.digest, now)]
  {
    if password != confirmPassword {
      return Reply(400, PasswordsDifferMessage), null;
    }
    if service.FetchFailed? {
      return RegisterFailed(FetchFailedMessage), null;
    }
    var userId := service.data.userId;
    if !Truthy(userId) {
      return RegisterFailed(NoUserIdMessage), null;
    }
    var created := new Account(newId, userId.value, password, None);
    var saved := created.Save(eks, nonce, now);
    if saved.SaveFailed? {
      return RegisterFailed(saved.message), null;
    }
    return Reply(201, RegisteredMessage), created;
  }

  /**
   * `login`: `userLookup` is the user service's answer for the e-mail address
   * and `account` what the store finds for that user. The password is checked
   * only for a known, verified user with an account, and only then is a token
   * signed for the user and account ids and set as a cookie.
   */
  function Login(eks: Eks, jwt: Jwt, password: string, userLookup: Fetch<Option<User>>, account: Account?): (r: Response)
    reads account
    ensures r.status == 200 <==>
              && userLookup.Fetched? && userLookup.data.Some? && userLookup.data.value.verified
              && account != null && account.ComparePassword(eks, password)
    ensures r.status == 200 ==>
              var token := jwt.sign(Claims(userLookup.data.value.id, account.id));
              r == Response(200, LoginBody(token, PublicView(userLookup.data.value)), Some(token))
    ensures r.status != 200 ==> r.cookie == None && (r.status == 401 || r.status == 500)
    ensures r == Reply(401, NotVerifiedMessage) <==>
              userLookup.Fetched? && userLookup.data.Some? && !userLookup.data.value.verified
    ensures r == Reply(401, InvalidCredentialsMessage) <==>
              || userLookup == Fetched(None)
              || (&& userLookup.Fetched? && userLookup.data.Some? && userLookup.data.value.verified
                  && account != null && !account.ComparePassword(eks, password))
    ensures r == LoginError <==>
              || userLookup.FetchFailed?
              || (userLookup.Fetched? && userLookup.data.Some? && userLookup.data.value.verified && account == null)
  {
    match userLookup
    case FetchFailed => LoginError
    case Fetched(found) =>
      if found.None? then Reply(401, InvalidCredentialsMessage)
      else
        var user := found.value;
        if !user.verified then Reply(401, NotVerifiedMessage)
        else if account == null then LoginError
        else if !account.ComparePassword(eks, password) then Reply(401, InvalidCredentialsMessage)
        else
          var token := jwt.sign(Claims(user.id, account.id));
          Response(200, LoginBody(token, PublicView(user)), Some(token))
  }

  /**
   * A wrong password and an unknown e-mail address get the same answer, so
   * the response does not reveal whether the address is registered.
   */
  lemma LoginHidesWhichCheckFailed(eks: Eks, jwt: Jwt, password: string, user: User, account: Account,
                                   otherPassword: string, otherAccount: Account?)
    requires user.verified && !account.ComparePassword(eks, password)
    ensures Login(eks, jwt, password, Fetched(Some(user)), account)
         == Login(eks, jwt, otherPassword, Fetched(None), otherAccount)
         == Reply(401, InvalidCredentialsMessage)
  {
  }

  /**
   * For an unverified user the answer depends neither on the password nor on
   * the account: neither is looked at.
   */
  lemma LoginUnverifiedIgnoresCredentials(eks: Eks, jwt: Jwt, user: User,
                                          p1: string, a1: Account?, p2: string, a2: Account?)
    requires !user.verified
    ensures Login(eks, jwt, p1, Fetched(Some(user)), a1) == Login(eks, jwt, p2, Fetched(Some(user)), a2)
  {
  }

  /**
   * Login does not look at the account status: a Frozen or Closed account
   * with the right password still gets a token (protected routes refuse it).
   */
  lemma LoginIgnoresStatus(eks: Eks, jwt: Jwt, password: string, user: User, account: Account)
    requires user.verified && account.ComparePassword(eks, password)
    ensures Login(eks, jwt, password, Fetched(Some(user)), account).status == 200
  {
  }

  /**
   * `getMe`: `userId` is what an earlier middleware attached, `lookup` the
   * user service's answer for it. Only a present user is returned.
   */
  function GetMe(userId: Option<string>, lookup: Fetch<Option<User>>): (r: Outcome)
    ensures r == Respond(Reply(401, NoUserIdInRequestMessage)) <==> !Truthy(userId)
    ensures r == NextError(FetchFailedMessage) <==> Truthy(userId) && lookup.FetchFailed?
    ensures r == Respond(Reply(404, UserNotFoundMessage)) <==> Truthy(userId) && lookup == Fetched(None)
    ensures r.Respond? && r.response.status == 200 <==> Truthy(userId) && lookup.Fetched? && lookup.data.Some?
    ensures r.Respond? && r.response.status == 200 ==> r.response == Response(200, UserBody(lookup.data.value), None)
  {
    if !Truthy(userId) then Respond(Reply(401, NoUserIdInRequestMessage))
    else match lookup
      case FetchFailed => NextError(FetchFailedMessage)
      case Fetched(None) => Respond(Reply(404, UserNotFoundMessage))
      case Fetched(Some(user)) => Respond(Response(200, UserBody(user), None))
  }
}
