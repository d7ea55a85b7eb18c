/**
 * The authentication middlewares. They work on a request object whose
 * `userId`, `accountId`, `user` and `account` fields they fill in; `protect`
 * is specified by the decision function ProtectGate, and the token taken by
 * `optionalJwt` by ExtractToken.
 */
module AuthMiddleware {
  import opened Wrappers
  import opened Services
  import opened Password
  import opened AccountModel
  import opened Http
  import AuthController

  const NoTokenMessage := "Not authorized, no token"
  const TokenFailedMessage := "Token failed or expired"
  const UserNotFoundMessage := "User not found"
  const AccountNotFoundMessage := "Account not found"

  /** The password given to accounts created for a signed-in OAuth user. */
  const OAuthMarker := "google-oauth"

  /** An incoming request: its token sources, and the fields middlewares attach. */
  class Request {
    /** The `token` cookie. */
    const cookieToken: Option<string>
    /** The `Authorization` header. */
    const authorization: Option<string>
    var userId: Option<string>
    var accountId: Option<string>
    var user: Option<User>
    var account: Account?

    /** A request as it arrives; `sessionUser` is a user an OAuth session already attached. */
    constructor (cookieToken: Option<string>, authorization: Option<string>, sessionUser: Option<User>)
      ensures this.cookieToken == cookieToken && this.authorization == authorization
      ensures userId == None && accountId == None && user == sessionUser && account == null
    {
      this.cookieToken := cookieToken;
      this.authorization := authorization;
      userId := None;
      accountId := None;
      user := sessionUser;
      account := null;
    }
  }

  /** What `protect` attaches to the request when it lets it through. */
  datatype Context = Context(userId: UserId, accountId: AccountId, user: User, account: Account)

  /** The decision `protect` takes: refuse with a status and message, or admit. */
  datatype Gate = Reject(status: nat, message: string) | Admit(ctx: Context)

  /**
   * `protect`'s checks in order: a cookie token, a token that verifies, a
   * user for its user id (`userLookup`, an exception from the user service
   * ends like a bad token), an account for its account id (`account`, null
   * when the store has none), and that account being Active.
   */
  function ProtectGate(jwt: Jwt, cookieToken: Option<string>, userLookup: Fetch<Option<User>>, account: Account?): (g: Gate)
    reads account
    ensures g == Reject(401, NoTokenMessage) <==> !Truthy(cookieToken)
    ensures g == Reject(401, TokenFailedMessage) <==>
              && Truthy(cookieToken)
              && (|| jwt.verify(cookieToken.value).None?
                  || userLookup.FetchFailed?
                  || (userLookup.Fetched? && userLookup.data.Some? && account == null))
    ensures g == Reject(401, UserNotFoundMessage) <==>
              Truthy(cookieToken) && jwt.verify(cookieToken.value).Some? && userLookup == Fetched(None)
    ensures g.Reject? && g.status == 403 <==>
              && Truthy(cookieToken) && jwt.verify(cookieToken.value).Some?
              && userLookup.Fetched? && userLookup.data.Some?
              && account != null && account.status != Active
    ensures g.Reject? && g.status == 403 ==> g.message == "Account is " + StatusName(account.status)
    ensures g.Reject? ==> g.status == 401 || g.status == 403
    ensures g.Admit? <==>
              && Truthy(cookieToken) && jwt.verify(cookieToken.value).Some?
              && userLookup.Fetched? && userLookup.data.Some?
              && account != null && account.status == Active
    ensures g.Admit? ==>
              && Truthy(cookieToken)
              && jwt.verify(cookieToken.value) == Some(Claims(g.ctx.userId, g.ctx.accountId))
              && userLookup == Fetched(Some(g.ctx.user))
              && g.ctx.account == account && account.status == Active
  {
    if !Truthy(cookieToken) then Reject(401, NoTokenMessage)
    else match jwt.verify(cookieToken.value)
      case None => Reject(401, TokenFailedMessage)
      case Some(decoded) =>
        match userLookup
        case FetchFailed => Reject(401, TokenFailedMessage)
        case Fetched(None) => Reject(401, UserNotFoundMessage)
        case Fetched(Some(user)) =>
          if account == null then Reject(401, TokenFailedMessage)
          else if account.status != Active then Reject(403, "Account is " + StatusName(account.status))
          else Admit(Context(decoded.userId, decoded.accountId, user, account))
  }

  /**
   * `protect`: answers with the refusal ProtectGate gives and leaves the
   * request alone, or attaches the decoded ids, the user and the account and
   * calls `next()`.
   */
  method Protect(req: Request, jwt: Jwt, userLookup: Fetch<Option<User>>, account: Account?) returns (out: Outcome)
    modifies req
    ensures var g := ProtectGate(jwt, req.cookieToken, userLookup, account);
            && (g.Reject? ==> out == Respond(Reply(g.status, g.message)) && unchanged(req))
            && (g.Admit? ==>
                  && out == Next
                  && req.userId == Some(g.ctx.userId) && req.accountId == Some(g.ctx.accountId)
                  && req.user == Some(g.ctx.user) && req.account == g.ctx.account)
  {
    var token := req.cookieToken;
    if !Truthy(token) {
      return Respond(Reply(401, NoTokenMessage));
    }
    var decoded := jwt.verify(token.value);
    if decoded.None? || userLookup.FetchFailed? {
      return Respond(Reply(401, TokenFailedMessage));
    }
    if userLookup.data.None? {
      return Respond(Reply(401, UserNotFoundMessage));
    }
    if account == null {
      return Respond(Reply(401, TokenFailedMessage));
    }
    if account.status != Active {
      return Respond(Reply(403, "Account is " + StatusName(account.status)));
    }
    req.userId := Some(decoded.value.userId);
    req.accountId := Some(decoded.value.accountId);
    req.user := userLookup.data;
    req.account := account;
    out := Next;
  }

  /** JavaScript's `s.split(" ")`. */
  function SplitOnSpace(s: string): (parts: seq<string>)
    ensures |parts| >= 1
    ensures |parts| == 1 <==> ' ' !in s
    ensures forall i :: 0 <= i < |parts| ==> ' ' !in parts[i]
    decreases |s|
  {
    if s == [] then [""]
    else
      assert s == [s[0]] + s[1..];
      var rest := SplitOnSpace(s[1..]);
      if s[0] == ' ' then [""] + rest
      else [[s[0]] + rest[0]] + rest[1..]
  }

  /** JavaScript's `parts.join(" ")`. */
  function JoinWithSpace(parts: seq<string>): string
    requires |parts| >= 1
    decreases |parts|
  {
    if |parts| == 1 then parts[0] else parts[0] + " " + JoinWithSpace(parts[1..])
  }

  /** Splitting loses nothing: joining the parts gives the string back. */
  lemma {:induction false} JoinSplit(s: string)
    ensures JoinWithSpace(SplitOnSpace(s)) == s
    decreases |s|
  {
    if s != [] {
      var rest := SplitOnSpace(s[1..]);
      JoinSplit(s[1..]);
      if s[0] == ' ' {
        assert SplitOnSpace(s) == [""] + rest;
        assert ([""] + rest)[1..] == rest;
        assert s == " " + s[1..];
      } else {
        var parts := SplitOnSpace(s);
        assert parts == [[s[0]] + rest[0]] + rest[1..];
        if |rest| > 1 {
          assert parts[1..] == rest[1..];
          assert JoinWithSpace(rest) == rest[0] + " " + JoinWithSpace(rest[1..]);
        }
        assert s == [s[0]] + s[1..];
      }
    }
  }

  /** A string without a space splits into itself alone. */
  lemma {:induction false} SplitWithoutSpace(s: string)
    requires ' ' !in s
    ensures SplitOnSpace(s) == [s]
    decreases |s|
  {
    if s != [] {
      assert s[0] != ' ';
      SplitWithoutSpace(s[1..]);
      assert [s[0]] + s[1..] == s;
    }
  }

  /** A word without a space, one space and a rest split into the word and the rest's parts. */
  lemma {:induction false} SplitWordThenRest(word: string, rest: string)
    requires ' ' !in word
    ensures SplitOnSpace(word + " " + rest) == [word] + SplitOnSpace(rest)
    decreases |word|
  {
    var s := word + " " + rest;
    if word == [] {
      assert s == " " + rest && s[1..] == rest;
    } else {
      assert word[0] != ' ';
      SplitWordThenRest(word[1..], rest);
      assert s[0] == word[0] && s[1..] == word[1..] + " " + rest;
      assert [word[0]] + word[1..] == word;
    }
  }

  /** `authorization.split(" ")[1]`: the second part, undefined when there is none. */
  function HeaderToken(authorization: string): (t: Option<string>)
    ensures t.Some? <==> ' ' in authorization
    ensures t.Some? ==> ' ' !in t.value
  {
    var parts := SplitOnSpace(authorization);
    if |parts| > 1 then Some(parts[1]) else None
  }

  /** A `Bearer <token>` header yields the token. */
  lemma BearerHeaderToken(scheme: string, token: string)
    requires ' ' !in scheme && ' ' !in token
    ensures HeaderToken(scheme + " " + token) == Some(token)
  {
    SplitWordThenRest(scheme, token);
    SplitWithoutSpace(token);
  }

  /**
   * `optionalJwt`'s token: the cookie when it is truthy, otherwise the second
   * space-separated part of the Authorization header.
   */
  function ExtractToken(cookieToken: Option<string>, authorization: Option<string>): (t: Option<string>)
    ensures Truthy(cookieToken) ==> t == cookieToken
    ensures !Truthy(cookieToken) && authorization.None? ==> t == None
    ensures !Truthy(cookieToken) && authorization.Some? ==> t == HeaderToken(authorization.value)
    ensures !Truthy(cookieToken) && t.Some? ==> authorization.Some? && ' ' in authorization.value && ' ' !in t.value
  {
    if Truthy(cookieToken) then cookieToken
    else if authorization.Some? then HeaderToken(authorization.value)
    else None
  }

  /**
   * `optionalJwt`: always calls `next()`. When a truthy token verifies, the
   * decoded ids are attached; otherwise the request is left as it was.
   */
  method OptionalJwt(req: Request, jwt: Jwt) returns (out: Outcome)
    modifies req
    ensures out == Next
    ensures var t := ExtractToken(req.cookieToken, req.authorization);
            if Truthy(t) && jwt.verify(t.value).Some? then
              && req.userId == Some(jwt.verify(t.value).value.userId)
              && req.accountId == Some(jwt.verify(t.value).value.accountId)
              && req.user == old(req.user) && req.account == old(req.account)
            else unchanged(req)
  {
    var token := ExtractToken(req.cookieToken, req.authorization);
    if Truthy(token) {
      var decoded := jwt.verify(token.value);
      if decoded.Some? {
        req.userId := Some(decoded.value.userId);
        req.accountId := Some(decoded.value.accountId);
      }
    }
    out := Next;
  }

  /**
   * `attachAccount`. With a session user and no account: the user's account
   * (`found`) is attached, or, when there is none, a new Active account with
   * the OAuth marker password is created, saved and attached. Otherwise, with
   * a user id and no account: the account for `accountId` (`found`; none when
   * there is no accountId) is attached, or 401 "Account not found". The
   * request's ids and user never change; `created` is the account created.
   */
  method AttachAccount(req: Request, found: Account?, eks: Eks, nonce: Nonce, now: Timestamp, newId: AccountId)
    returns (out: Outcome, created: Account?)
    modifies req
    ensures req.userId == old(req.userId) && req.accountId == old(req.accountId) && req.user == old(req.user)
    ensures old(req.user).Some? && old(req.account) == null ==>
              && out == Next
              && (found != null ==> created == null && req.account == found)
              && (found == null ==>
                    && created != null && fresh(created) && req.account == created && created.Valid()
                    && created.id == newId && created.user == old(req.user).value.id
                    && created.status == Active && !created.passwordModified
                    && created.password == Hashed(HashPassword(eks, OAuthMarker, nonce))
                    && created.previousPasswords == [PreviousPassword(created.password.digest, now)])
    ensures old(req.user).None? && Truthy(old(req.userId)) && old(req.account) == null ==>
              && created == null
              && (old(req.accountId).None? || found == null ==>
                    out == Respond(Reply(401, AccountNotFoundMessage)) && unchanged(req))
              && (old(req.accountId).Some? && found != null ==> out == Next && req.account == found)
    ensures old(req.account) != null || (old(req.user).None? && !Truthy(old(req.userId))) ==>
              out == Next && unchanged(req) && created == null
  {
    created := null;
    if req.user.Some? && req.account == null {
      var account := found;
      if account == null {
        created := new Account(newId, req.user.value.id, OAuthMarker, Some(Active));
        var _ := created.Save(eks, nonce, now);
        account := created;
      }
      req.account := account;
    } else if Truthy(req.userId) && req.account == null {
      var account := if req.accountId.Some? then found else null;
      if account == null {
        return Respond(Reply(401, AccountNotFoundMessage)), null;
      }
      req.account := account;
    }
    out := Next;
  }

  /**
   * The token a successful login sets as its cookie opens `protect` exactly
   * while the account is Active, and then attaches the ids login signed;
   * otherwise `protect` answers 403 with the account's status.
   */
  lemma LoginTokenOpensProtect(eks: Eks, jwt: Jwt, password: string, user: User, account: Account, userAgain: User)
    requires WellFormed(jwt)
    requires AuthController.Login(eks, jwt, password, Fetched(Some(user)), account).status == 200
    ensures var cookie := AuthController.Login(eks, jwt, password, Fetched(Some(user)), account).cookie;
            var g := ProtectGate(jwt, cookie, Fetched(Some(userAgain)), account);
            && (g.Admit? <==> account.status == Active)
            && (g.Admit? ==> g.ctx == Context(user.id, account.id, userAgain, account))
            && (g.Reject? ==> g == Reject(403, "Account is " + StatusName(account.status)))
  {
    var c := Claims(user.id, account.id);
    assert jwt.sign(c) != "" && jwt.verify(jwt.sign(c)) == Some(c);
  }
}
