# JWT access/refresh token lifecycle, modelled in Dafny

This project models the core of a small FastAPI service. The service signs users in with a
username and password and hands out two JSON Web Tokens (RFC 7519): a short-lived
**access** token and a long-lived **refresh** token. It also guards protected routes with a
validation chain. The model covers three parts:

- **Claim-set construction** (`CreateToken`). `create_jwt` starts from `{"type": token_type}`
  and merges the caller's claims over it, so the caller's keys win. That is exactly the map
  union `map[TypeField := Str(t)] + tokenData`. An access token carries `type`, `sub`,
  `username` and `email`, and its lifetime is given in minutes. A refresh token carries only
  `type` and `sub`, and its lifetime is a `timedelta` in days. Each issuance function returns
  the `EncodeRequest` it hands to the codec: the claims plus both lifetime arguments.
- **Credential gate** (`Security.ValidateAuthUser`). It takes the first user with the given
  username. An unknown user and a wrong password give one uniform 400. An inactive account is
  checked only after the password, and gives 403.
- **Token validation pipeline** (`Security.GetCurrentActiveAuthUser`). It runs four stages
  and stops at the first failure:
  1. decode (401);
  2. `type` claim equals the expected kind (401);
  3. a user whose id is the `sub` claim exists (401);
  4. that user is active (403).

`Routes` composes these stages into the login, refresh and `/users/me/` routes. It follows a
token from issuance through the codec and back into the pipeline.

Collaborators are passed in as parameters:

- The user table is a `seq<User>` (`Users.Store`). `FindByUsername` returns the first row with
  that username. `FindById` is a primary-key lookup, and `UniqueIds` states the key constraint.
- The password hasher is a function parameter `PasswordCheck = (string, seq<bv8>) -> bool`.
- The JWT codec is a pair of function parameters. The decoder, `Decoder = string ->
  Option<Payload>`, answers `None` for every `InvalidTokenError`. The signer is
  `Encoder = EncodeRequest -> string`. `Routes.RoundTrips` states the one thing the lemmas
  assume about the codec: decoding a token gives back every claim that was signed, and may
  add claims of its own (such as `exp` and `iat`).

The claim name `"type"` and the tags `"access"` and `"refresh"` are defined once, in
`Claims`, and issuance and validation both use them.

Some facts about the code that the model keeps:

- The code does not tell an expired token from a badly signed or malformed one. Every
  decode failure is the one 401 `InvalidTokenError`.
- The wrong-type error carries the claim read and the expected tag. As in Python's `payload.get`, a missing claim reads as JSON null (`None`), so the code cannot tell a missing `type` from a null one, and neither can the model.
- The 403 at login ("User inactive") and the 403 in the pipeline ("inactive user") are
  different exceptions with different texts.

## Model

| member | source | states |
|---|---|---|
| `Claims.Get` | src/api_v1/dependencies/security_dependencies.py:98 | `payload.get(key)`: the stored claim when the key is present, and `Null` (Python's `None`) when it is missing, the same value a JSON null claim has. |
| `Users.FirstIndex` | src/api_v1/dependencies/security_dependencies.py:50-52 | The index of the first row that matches, if any: that row matches and no earlier row does. Nothing is returned exactly when no row matches. This is the scan behind `.first()`. |
| `Users.FindByUsername` | src/api_v1/dependencies/security_dependencies.py:50-52 | Returns nothing exactly when no row has the username. Otherwise it returns a row with that username that no earlier row shares, i.e. `.first()`. |
| `Users.FindById` | src/api_v1/dependencies/security_dependencies.py:116 | Returns nothing exactly when no row has the id. Otherwise it returns a row of the store with that id. When ids are a primary key, it returns exactly the stored user with that id. |
| `CreateToken.CreateJwt` | src/auth/create_token.py:13-33 | The payload's keys are exactly `{"type"}` plus the caller's keys. Every caller claim appears unchanged. `type` is the requested tag when the caller gave none. Both lifetime arguments reach the codec unchanged. |
| `CreateToken.CreateJwtTypeClaim` | src/auth/create_token.py:27-28 | The `type` claim is the caller's own `type` if it gave one, and the requested tag otherwise, so caller keys override. |
| `CreateToken.CreateAccessToken` | src/auth/create_token.py:36-53 | The claims are exactly `{type: "access", sub: id, username, email}`. The lifetime is the configured access minutes, with no timedelta. |
| `CreateToken.CreateRefreshToken` | src/auth/create_token.py:56-70 | The claims are exactly `{type: "refresh", sub: id}`, with no username or e-mail. The timedelta is the configured refresh days. The minutes argument stays at `create_jwt`'s default, the access minutes. |
| `CreateToken.AccessAndRefreshDiffer` | src/auth/create_token.py:42-70 | A user's access and refresh claims always differ in `type` and agree on `sub`, which is the user's id. |
| `Security.Status` | src/api_v1/dependencies/security_dependencies.py:55-156 | The status of each raised exception: 400 exactly for bad credentials, 403 exactly for a disabled account (at login or in the pipeline), and 401 for every other token failure. |
| `Security.Detail` | src/api_v1/dependencies/security_dependencies.py:55-156 | The fixed detail text of each raised exception. Only the wrong-type error has no fixed text. |
| `Security.ResponsesIdentifyError` | src/api_v1/dependencies/security_dependencies.py:55-156 | Two exceptions with fixed texts that share status and text are the same exception. In particular the login 403 and the pipeline 403 can be told apart. |
| `Security.ValidateAuthUser` | src/api_v1/dependencies/security_dependencies.py:44-66 | Succeeds exactly when the first user with that name has a verifying password and is active, and then returns that user. It gives 400 exactly when there is no such user or the password fails. It gives 403 exactly when the password verifies but the account is inactive. |
| `Security.CredentialUniformity` | src/api_v1/dependencies/security_dependencies.py:50-58 | A store without the username and a store whose first such user fails the password check give the identical outcome, whose status is 400 and whose text is "Incorrect username or password". |
| `Security.CredentialOrdering` | src/api_v1/dependencies/security_dependencies.py:54-64 | For an inactive first match, a correct password gives 403 "User inactive" and a wrong password gives 400. |
| `Security.GetCurrentTokenPayload` | src/api_v1/dependencies/security_dependencies.py:69-84 | Succeeds exactly when decoding succeeds, and returns the decoded payload unchanged. Any decode failure is the single 401. |
| `Security.ValidateTokenType` | src/api_v1/dependencies/security_dependencies.py:87-104 | Passes exactly when the payload has a `type` claim equal to the expected tag. A failure reports the claim read (null when missing) and the expected tag. |
| `Security.MissingTypeRejected` | src/api_v1/dependencies/security_dependencies.py:98-104 | A payload without `type` fails for every expected tag, reporting `None`, exactly as a payload whose `type` is null does. |
| `Security.SubjectId` | src/api_v1/dependencies/security_dependencies.py:114 | Gives an id exactly when the `sub` claim is present and is an integer, and that id is the claim's value. |
| `Security.GetUserByTokenSub` | src/api_v1/dependencies/security_dependencies.py:107-122 | Fails with 401 "user not found" exactly when no stored user's id is the `sub` claim. On success it returns a stored user with that id. With unique ids, that is the user the `sub` names. |
| `Security.UserGetterFromToken` | src/api_v1/dependencies/security_dependencies.py:125-139 | A wrong or missing `type` gives the type error whatever the store holds. With the right type, it succeeds exactly when a user with the `sub` id exists, and returns such a user. Otherwise it fails with "user not found". |
| `Security.TypeCheckPrecedesLookup` | src/api_v1/dependencies/security_dependencies.py:138-139 | A wrong-typed token fails identically against any two stores, so the lookup never decides its outcome. |
| `Security.RequireActive` | src/api_v1/dependencies/security_dependencies.py:143-156 | Passes the user through exactly when it is active. Otherwise it gives 403 "inactive user". |
| `Security.GetCurrentActiveAuthUser` | src/api_v1/dependencies/security_dependencies.py:142-158 | Each failure happens exactly when every earlier stage passed and its own failed, in the order decode, type, subject, liveness. Success means all four held of the returned user. With unique ids, the 403 and success are both stated in both directions: the token's user is inactive, or active. |
| `Security.PipelineAdmitsLiveSubject` | src/api_v1/dependencies/security_dependencies.py:133-158 | With unique ids, a decoded and correctly typed token naming a stored user yields that user if it is active, and 403 otherwise. |
| `Security.PipelineReadsTypeAndSubOnly` | src/api_v1/dependencies/security_dependencies.py:98-116 | Two decoded tokens that agree on `type` and `sub` get the same outcome, whatever other claims they carry. |
| `Routes.Login` | src/api_v1/routers/demo_jwt_auth.py:24-33 | Fails exactly as the credential gate does. On success it returns an access and a refresh token, both issued for the user the gate returned. |
| `Routes.AuthRefreshJwt` | src/api_v1/routers/demo_jwt_auth.py:36-47 | Requires a valid refresh token. It fails with exactly the pipeline's error. On success it returns only a new access token, for the token's user, and no refresh token. |
| `Routes.ReadUsersMe` | src/api_v1/routers/user_router.py:14-25 | Requires a valid access token, and fails with exactly the pipeline's error. On success it returns that user's id, e-mail and username together with the token's `iat` (null when missing). |
| `Routes.LoginThenUseTokens` | src/api_v1/routers/demo_jwt_auth.py:24-47 | After a successful login, the access token is admitted as the same user at access-protected routes. The refresh token, presented later, buys an access token for that user, signed by the signer of that later moment. |
| `Routes.TokenKindsAreIsolated` | src/api_v1/dependencies/security_dependencies.py:98-104 | A refresh token presented where an access token is required is refused with the type error, and vice versa. |
| `Routes.IssuedTokenMeetsCurrentStore` | src/api_v1/dependencies/security_dependencies.py:114-156 | An earlier access token is judged against the current store: 401 if its user is gone, 403 if that user is now inactive, and the current record otherwise. |

## Left out

- Signing, signature checking, expiry and the clock (`encode_jwt` and `decode_jwt`) are in `src/auth/utils`, which is not part of this model. The codec is a pair of function parameters. The decoder is a fixed function of the token, so the time of the request is fixed too.
- Which lifetime wins when both `expire_minutes` and `expire_timedelta` reach `encode_jwt` is decided inside the codec. The model records both arguments and assumes no precedence.
- Password hashing (`validate_password`) is a function parameter. Any exception it could raise is not modelled.
- FastAPI wiring is not modelled: `Depends`, `Form`, `HTTPBearer`, `OAuth2PasswordBearer`, and Bearer-header extraction (section 2.1 of RFC 6750). A missing Authorization header is handled by the framework before the core runs.
- Database access is not modelled: async sessions, `select`, `session.get`, and driver errors. The store is a read-only sequence. `.first()` without `ORDER BY` is taken to mean the sequence order.
- `Users.FindByUsername` compares usernames by exact string equality. In the code, `User.username == username` is a SQL comparison, so the database's collation decides it. A collation may ignore case or trailing spaces.
- The claim name `"type"` and the tags `"access"` and `"refresh"` are assumed to be the same strings on both sides. `src/auth/create_token.py` defines its own copies at lines 8-10. `security_dependencies.py` imports its copies from `src/auth/utils`, which is not part of this model. `Routes.LoginThenUseTokens` and `Routes.TokenKindsAreIsolated` rest on this assumption.
- `Security.GetUserByTokenSub`: only an integer `sub` claim resolves to a user. A missing, null, boolean or string `sub` is modelled as "user not found". SQLAlchemy's coercion of such keys is not modelled.
- `Security.Detail`: the text of the wrong-type 401 is built from Python `repr` of the claim and the tag, and is not rendered. The claim and the tag are kept in the error value instead.
- Claim values are JSON scalars (null, boolean, integer, string). Non-integer numbers, arrays and objects inside a payload are not modelled. A `sub` of `1.0` would go to the database driver's coercion, not to "user not found".
- `create_jwt` not modifying its argument holds by construction, because maps are values here.
- The `register_user` route and `src/api_v1/cruds/user_crud.py` are not part of this model. The response schema is not modelled beyond its two token fields.
- There is no token revocation or blacklist in the code. `Routes.IssuedTokenMeetsCurrentStore` states the consequence: a token stays usable until it expires unless its user is deleted or deactivated.
