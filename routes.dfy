/**
 * The three routes that use the core: login issues both tokens, refresh
 * trades a refresh token for a new access token, and `/users/me/` reads the
 * caller's identity from an access token. The lemmas here follow a token
 * from issuance through the codec back into the validation pipeline.
 */
module Routes {
  import opened Wrappers
  import opened Claims
  import opened Users
  import opened CreateToken
  import opened Security

  /** The codec's signer, at the moment of the request. */
  type Encoder = EncodeRequest -> string

  /** The body of the login and refresh responses. */
  datatype TokenInfo = TokenInfo(accessToken: string, refreshToken: Option<string>)

  /** The body of `/users/me/`. */
  datatype Me = Me(id: int, email: string, username: string, loggedAtIn: Claim)

  /**
   * The codec gives back every claim it signed. It may add its own claims
   * (issue and expiry times), which the round trip does not constrain.
   */
  predicate RoundTrips(encode: Encoder, decode: Decoder, request: EncodeRequest)
  {
    decode(encode(request)).Some? && Carries(decode(encode(request)).value, request.payload)
  }

  /** `/auth/login/`: check the credentials, then issue an access and a refresh token. */
  function Login(settings: AuthJwtSettings, encode: Encoder, store: Store, verify: PasswordCheck,
                 username: string, password: string): (r: Result<TokenInfo, AuthError>)
    ensures r.Err? <==> ValidateAuthUser(store, verify, username, password).Err?
    ensures r.Err? ==> r.error == ValidateAuthUser(store, verify, username, password).error
    ensures r.Ok? ==> var u := ValidateAuthUser(store, verify, username, password).value;
                      r.value == TokenInfo(encode(CreateAccessToken(settings, u)),
                                           Some(encode(CreateRefreshToken(settings, u))))
  {
    match ValidateAuthUser(store, verify, username, password)
    case Err(e) => Err(e)
    case Ok(user) =>
      Ok(TokenInfo(encode(CreateAccessToken(settings, user)), Some(encode(CreateRefreshToken(settings, user)))))
  }

  /** `/auth/refresh/`: a valid refresh token buys a new access token, and nothing else. */
  function AuthRefreshJwt(settings: AuthJwtSettings, encode: Encoder, decode: Decoder, store: Store,
                          token: string): (r: Result<TokenInfo, AuthError>)
    ensures r.Err? <==> GetCurrentActiveAuthUser(decode, store, RefreshTokenType, token).Err?
    ensures r.Err? ==> r.error == GetCurrentActiveAuthUser(decode, store, RefreshTokenType, token).error
    ensures r.Ok? ==> r.value.refreshToken == None
    ensures r.Ok? ==> var u := GetCurrentActiveAuthUser(decode, store, RefreshTokenType, token).value;
                      r.value.accessToken == encode(CreateAccessToken(settings, u))
  {
    match GetCurrentActiveAuthUser(decode, store, RefreshTokenType, token)
    case Err(e) => Err(e)
    case Ok(user) => Ok(TokenInfo(encode(CreateAccessToken(settings, user)), None))
  }

  /** `/users/me/`: an active user's identity, read through an access token. */
  function ReadUsersMe(decode: Decoder, store: Store, token: string): (r: Result<Me, AuthError>)
    ensures r.Err? <==> GetCurrentActiveAuthUser(decode, store, AccessTokenType, token).Err?
    ensures r.Err? ==> r.error == GetCurrentActiveAuthUser(decode, store, AccessTokenType, token).error
    ensures r.Ok? ==> var u := GetCurrentActiveAuthUser(decode, store, AccessTokenType, token).value;
                      r.value.id == u.id && r.value.email == u.email && r.value.username == u.username
                      && r.value.loggedAtIn == Get(decode(token).value, "iat")
  {
    match GetCurrentTokenPayload(decode, token)
    case Err(e) => Err(e)
    case Ok(payload) =>
      match GetCurrentActiveAuthUser(decode, store, AccessTokenType, token)
      case Err(e) => Err(e)
      case Ok(user) => Ok(Me(user.id, user.email, user.username, Get(payload, "iat")))
  }

  /**
   * A user who logs in can use both tokens: the access token opens
   * `/users/me/` as that user, and the refresh token, presented later, buys
   * an access token for that user signed by the signer of that moment.
   */
  lemma LoginThenUseTokens(settings: AuthJwtSettings, encode: Encoder, encodeLater: Encoder, decode: Decoder,
                           store: Store, verify: PasswordCheck, username: string, password: string)
    requires UniqueIds(store)
    requires ValidateAuthUser(store, verify, username, password).Ok?
    requires var u := ValidateAuthUser(store, verify, username, password).value;
             RoundTrips(encode, decode, CreateAccessToken(settings, u))
             && RoundTrips(encode, decode, CreateRefreshToken(settings, u))
    ensures var u := ValidateAuthUser(store, verify, username, password).value;
            var info := Login(settings, encode, store, verify, username, password).value;
            && GetCurrentActiveAuthUser(decode, store, AccessTokenType, info.accessToken) == Ok(u)
            && ReadUsersMe(decode, store, info.accessToken).Ok?
            && ReadUsersMe(decode, store, info.accessToken).value.id == u.id
            && info.refreshToken.Some?
            && AuthRefreshJwt(settings, encodeLater, decode, store, info.refreshToken.value)
               == Ok(TokenInfo(encodeLater(CreateAccessToken(settings, u)), None))
  {
    var u := ValidateAuthUser(store, verify, username, password).value;
    var a := CreateAccessToken(settings, u);
    var f := CreateRefreshToken(settings, u);
    assert TypeField in a.payload && SubField in a.payload;
    assert TypeField in f.payload && SubField in f.payload;
    var i :| 0 <= i < |store| && store[i] == u && u.username == username
             && forall j :: 0 <= j < i ==> store[j].username != username;
    PipelineAdmitsLiveSubject(decode, store, AccessTokenType, encode(a), u);
    PipelineAdmitsLiveSubject(decode, store, RefreshTokenType, encode(f), u);
  }

  /**
   * Token kinds never substitute for each other: a refresh token is refused
   * where an access token is required, and the other way round.
   */
  lemma TokenKindsAreIsolated(settings: AuthJwtSettings, encode: Encoder, decode: Decoder, store: Store, u: User)
    requires RoundTrips(encode, decode, CreateAccessToken(settings, u))
    requires RoundTrips(encode, decode, CreateRefreshToken(settings, u))
    ensures GetCurrentActiveAuthUser(decode, store, AccessTokenType, encode(CreateRefreshToken(settings, u)))
            == Err(InvalidTokenType(Str(RefreshTokenType), AccessTokenType))
    ensures GetCurrentActiveAuthUser(decode, store, RefreshTokenType, encode(CreateAccessToken(settings, u)))
            == Err(InvalidTokenType(Str(AccessTokenType), RefreshTokenType))
  {
    assert TypeField in CreateAccessToken(settings, u).payload;
    assert TypeField in CreateRefreshToken(settings, u).payload;
  }

  /**
   * Tokens are not revoked: an access token issued earlier is judged against
   * the store as it is now. A deleted user's token gives 401 "user not
   * found"; a disabled user's token gives 403.
   */
  lemma IssuedTokenMeetsCurrentStore(settings: AuthJwtSettings, encode: Encoder, decode: Decoder,
                                     store: Store, issuedTo: User)
    requires UniqueIds(store)
    requires RoundTrips(encode, decode, CreateAccessToken(settings, issuedTo))
    ensures var r := GetCurrentActiveAuthUser(decode, store, AccessTokenType,
                                              encode(CreateAccessToken(settings, issuedTo)));
            match FindById(store, issuedTo.id)
            case None => r == Err(UserNotFound)
            case Some(now) => r == if now.active then Ok(now) else Err(InactiveUser)
  {
    var a := CreateAccessToken(settings, issuedTo);
    assert TypeField in a.payload && SubField in a.payload;
    match FindById(store, issuedTo.id)
    case None =>
    case Some(now) =>
      PipelineAdmitsLiveSubject(decode, store, AccessTokenType, encode(a), now);
  }
}
