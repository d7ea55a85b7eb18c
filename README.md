# Credential lifecycle and authentication decisions of auth-service-express

This project models the core of an Express authentication service in Dafny:

- the Account document and its pre-save hook, which stores passwords as bcrypt hashes and keeps a history of the last three;
- the reuse guard, which refuses a new password that matches an entry of that history;
- the register, login and current-user handlers;
- the `protect`, `optionalJwt` and `attachAccount` middlewares, which admit or refuse a request from its session token and fill in the request's user and account.

Modules, one per source file or collaborator:

- `Password` (`password.dfy`) covers `src/utils/password.ts`. bcrypt is modelled the way it works: a hash carries its salt, which holds the cost factor 12 and a random nonce, plus a checksum. Checking a candidate re-derives the checksum from the candidate and that salt. The key derivation (`Eks`) is a parameter and is left uninterpreted. So "a password matches its own hash" holds by construction, and nothing else about bcrypt is assumed.
- `AccountModel` (`account.dfy`) covers `src/models/Account.ts`. The Account document is a class. Its fields `password` and `previousPasswords` are updated in place by `Save`, which runs the schema's required-password validation, then the pre-save hook, then clears the dirty flag. `Valid()` keeps three facts:
  - the history has at most three entries;
  - the password is dirty exactly while it holds plaintext;
  - a hashed password is the newest history entry.
- `AuthController` (`auth_controller.dfy`) covers `src/controllers/authController.ts`. `Register` is a method, because it creates and saves an Account. `Login` and `GetMe` are functions from the collaborators' answers to the response.
- `AuthMiddleware` (`auth_middleware.dfy`) covers `src/middlewares/authMiddleware.ts`. A `Request` object carries the fields the middlewares attach. `protect`'s decision is the function `ProtectGate`, and the method `Protect` applies it to the request. `optionalJwt` takes its token as `ExtractToken` describes, which uses a model of JavaScript's `split(" ")`.
- `Services` and `Http` hold the collaborators' types and the response shapes. The collaborators are the user service, whose answers are inputs (`Fetch<T>`, where a failed call is `FetchFailed`), and the token library, modelled as the functions `sign` and `verify`.

Clocks, random salts and fresh document ids are parameters (`now`, `nonce`, `newId`).

Behaviour of the code that the model reproduces:

- A second registration for the same user creates a second Account. The `user` index is not unique, so there is no conflict error.
- `login` does not look at the account status (`LoginIgnoresStatus`). Only `protect` refuses non-Active accounts (`LoginTokenOpensProtect`).
- `login` answers 500 "Login error", not 401, when the user has no account.
- The reuse check compares against the history only, not separately against the current hash. The `Valid()` invariant makes the two the same, because the current hash is always the newest history entry (`AcceptedPasswordIsReused`).

## Model

| member | source | states |
|---|---|---|
| Password.HashPassword | src/utils/password.ts:4-13 | the hash's salt always has cost factor 12 and the given random part, and the password matches its own hash |
| Password.FirstMatch | src/utils/password.ts:16-18 | the index of the first history entry the candidate matches; all earlier entries do not match; it is below the length exactly when the password is reused |
| Password.IsPasswordReused | src/utils/password.ts:15-21 | returns true iff some history entry matches the candidate (false on an empty history); the scan compares entries up to and including the first match and no further; the history is a value and is not changed |
| AccountModel.StatusName | src/models/Account.ts:43-47 | each status has its own name, "Active", "Closed" or "Frozen", as used in the 403 message |
| AccountModel.Rotate | src/models/Account.ts:76-79 | the new entry is last; a history within 3 stays within 3; below 3 the entry is appended; at 3 exactly the oldest entry is dropped and the rest keep their order |
| AccountModel.RotateAllKeepsNewest | src/models/Account.ts:76-79 | any run of successful saves from a history within bound leaves exactly the newest three hashes, oldest first |
| AccountModel.CurrentPasswordIsReused | src/models/Account.ts:69-76 | once the current hash is the newest history entry, any password matching it is reported as reused |
| AccountModel.Account.constructor | src/models/Account.ts:30-59 | a new document holds the plaintext, is dirty, has an empty history, and its status defaults to Active |
| AccountModel.Account.SetPassword | src/models/Account.ts:66 | assigning a password stores the plaintext and marks the path modified; history, user and status are unchanged |
| AccountModel.Account.Save | src/models/Account.ts:65-89 | unmodified password: succeeds and changes nothing; empty password: fails validation and changes nothing; reused: fails with the reuse message and changes nothing; otherwise the password becomes the hash of the plaintext, that hash is rotated into the history with the given time, and user and status keep their values; the invariant is kept |
| AccountModel.Account.ComparePassword | src/models/Account.ts:92-94 | true exactly when the stored password is a hash that the candidate matches |
| AccountModel.AcceptedPasswordIsReused | src/models/Account.ts:65-94 | every password that opens a valid account would be refused as its next new password |
| AuthController.Register | src/controllers/authController.ts:16-50 | mismatched passwords: 400 with no service call and no account; failed service call or no userId: 500 "Registration failed" and no account; empty password: 500 with the validation error; otherwise 201 and a fresh saved Active account for the returned user whose password is the hash and whose history is that one hash |
| AuthController.Login | src/controllers/authController.ts:57-97 | 200 iff the user is known and verified, has an account and the password matches; then the token signs exactly the user id and account id, is also set as the cookie, and the body holds only public user fields; any other answer is 401 or 500 and sets no cookie; 401 "Account not verified" iff the user is unverified; 401 "Invalid credentials" iff the user is unknown or the password is wrong; 500 iff the user service fails or a verified user has no account |
| AuthController.LoginHidesWhichCheckFailed | src/controllers/authController.ts:61-72 | a wrong password gets the same response as an unknown e-mail address |
| AuthController.LoginUnverifiedIgnoresCredentials | src/controllers/authController.ts:63-72 | for an unverified user the response depends neither on the password nor on the account |
| AuthController.LoginIgnoresStatus | src/controllers/authController.ts:67-93 | a verified user with the right password gets 200 whatever the account status |
| AuthController.GetMe | src/controllers/authController.ts:104-118 | no userId: 401; user service failure: passed to next(err); absent user: 404; otherwise 200 with the user |
| AuthMiddleware.Request.constructor | src/middlewares/authMiddleware.ts:8-13 | an incoming request has no ids or account attached; its user is the one an OAuth session attached, if any |
| AuthMiddleware.ProtectGate | src/middlewares/authMiddleware.ts:16-52 | 401 "Not authorized, no token" iff no cookie token; 401 "Token failed or expired" iff the token fails, the user service fails, or the account is missing; 401 "User not found" iff the decoded user is absent; 403 "Account is <status>" iff everything else passes but the status is not Active; it admits exactly when the token verifies, the user and the account exist and the account is Active, and then carries the decoded ids and the fetched user and account |
| AuthMiddleware.Protect | src/middlewares/authMiddleware.ts:16-52 | on refusal, answers with that status and message and leaves the request unchanged; on admission, attaches userId, accountId, user and account and calls next once |
| AuthMiddleware.SplitOnSpace | src/middlewares/authMiddleware.ts:56 | `split(" ")` gives at least one part and no part contains a space |
| AuthMiddleware.JoinSplit | src/middlewares/authMiddleware.ts:56 | joining the parts with spaces gives the header back |
| AuthMiddleware.HeaderToken | src/middlewares/authMiddleware.ts:56 | there is a token exactly when the header contains a space, and the token never contains one |
| AuthMiddleware.BearerHeaderToken | src/middlewares/authMiddleware.ts:56 | a `<scheme> <token>` header yields the token |
| AuthMiddleware.ExtractToken | src/middlewares/authMiddleware.ts:56 | a truthy cookie is used as it is; otherwise the token is the second space-separated part of the Authorization header, and there is none without a header |
| AuthMiddleware.OptionalJwt | src/middlewares/authMiddleware.ts:55-71 | always calls next; a verifying token attaches the decoded ids and nothing else; otherwise the request is unchanged |
| AuthMiddleware.AttachAccount | src/middlewares/authMiddleware.ts:74-98 | session user without account: the found account is attached, or a new Active account with the OAuth marker password is created, saved, hashed and attached; only a userId: the account for accountId is attached, or 401 "Account not found" with the request unchanged; otherwise nothing changes; ids and user never change |
| AuthMiddleware.LoginTokenOpensProtect | src/middlewares/authMiddleware.ts:24-47 | the cookie of a successful login passes `protect` exactly when the account is Active, with the ids login signed; otherwise it gets 403 with the account status |

## Left out

- bcrypt internals are not modelled: the key derivation, the 72-byte input limit and the constant-time comparison. The key derivation is an uninterpreted parameter, so no property relies on it being collision-free. That two hashes of one password differ is not stated, because the random salt is a parameter.
- A hashing exception inside the save hook is not modelled (the catch branch at src/models/Account.ts:82-88). The model's hash is total.
- JWT signing and verification are not modelled: the secret, the signature and the one-day expiry (kept as the constant `TokenLifetime`). `verify` is a function giving the claims or nothing at the time of the request.
- The user service's HTTP calls are not modelled. Their answers are inputs, and a failed call is `FetchFailed`. `nickname` and `email` reach only the user service, so `Register` and `Login` do not take them.
- Database errors are not modelled: `findOne`, `findById` or `create` throwing, and a malformed id. Such an error gives 500 in `login`, 401 in `protect` and `next(err)` in `attachAccount`. Store lookups are inputs (an account or null).
- Mongoose persistence is not modelled: indexes, timestamps, the `select` projections and the `passwordResetToken`/`passwordResetExpires` fields, which no code uses. `Save` models an in-memory document.
- Request bodies with missing fields are not modelled (for example bcrypt throwing on an undefined password). Passwords are strings.
- Cookie options (src/utils/setTokenCookie.ts) and server bootstrap (src/server.ts) are not part of this model. Login's response records which token it sets as the cookie.
- What Express does with `next(err)` after `getMe` is not modelled.
- Concurrency is not modelled. Handlers are sequential, and two saves of one document cannot interleave in the model.
