/**
 * Issuance: the claim sets of access and refresh tokens and the lifetime
 * each one asks the codec for. Signing is the codec's business, so each
 * function here returns the request it hands to the codec.
 */
module CreateToken {
  import opened Wrappers
  import opened Claims
  import opened Users

  /** `timedelta(days=n)`. */
  datatype Timedelta = Timedelta(days: int)

  /** The process-wide JWT settings the issuance functions read. */
  datatype AuthJwtSettings = AuthJwtSettings(accessTokenExpireMinutes: int, refreshTokenExpireDays: int)

  /**
   * The arguments of one `encode_jwt` call: the claims to sign, a lifetime in
   * minutes and an optional lifetime as a timedelta. Which of the two wins is
   * decided inside the codec.
   */
  datatype EncodeRequest = EncodeRequest(payload: Payload, expireMinutes: int, expireTimedelta: Option<Timedelta>)

  /** `create_jwt`: tag the caller's claims with a token type; the caller's keys win. */
  function CreateJwt(tokenType: string, tokenData: Payload, expireMinutes: int,
                     expireTimedelta: Option<Timedelta>): (r: EncodeRequest)
    ensures r.payload.Keys == {TypeField} + tokenData.Keys
    ensures Carries(r.payload, tokenData)
    ensures TypeField !in tokenData ==> r.payload[TypeField] == Str(tokenType)
    ensures r.expireMinutes == expireMinutes && r.expireTimedelta == expireTimedelta
  {
    EncodeRequest(map[TypeField := Str(tokenType)] + tokenData, expireMinutes, expireTimedelta)
  }

  /** `create_access_token`: type, subject, username and e-mail; lifetime in minutes. */
  function CreateAccessToken(settings: AuthJwtSettings, user: User): (r: EncodeRequest)
    ensures r.payload == map[TypeField := Str(AccessTokenType), SubField := Int(user.id),
                             "username" := Str(user.username), "email" := Str(user.email)]
    ensures r.expireMinutes == settings.accessTokenExpireMinutes && r.expireTimedelta == None
  {
    var claims := map[SubField := Int(user.id), "username" := Str(user.username), "email" := Str(user.email)];
    CreateJwt(AccessTokenType, claims, settings.accessTokenExpireMinutes, None)
  }

  /**
   * `create_refresh_token`: type and subject only; lifetime in days. The
   * minutes argument is left at `create_jwt`'s default, the access lifetime.
   */
  function CreateRefreshToken(settings: AuthJwtSettings, user: User): (r: EncodeRequest)
    ensures r.payload == map[TypeField := Str(RefreshTokenType), SubField := Int(user.id)]
    ensures "username" !in r.payload && "email" !in r.payload
    ensures r.expireTimedelta == Some(Timedelta(settings.refreshTokenExpireDays))
    ensures r.expireMinutes == settings.accessTokenExpireMinutes
  {
    var claims := map[SubField := Int(user.id)];
    CreateJwt(RefreshTokenType, claims, settings.accessTokenExpireMinutes,
              Some(Timedelta(settings.refreshTokenExpireDays)))
  }

  /** A claim set that names its own type keeps it; otherwise the tag is the requested type. */
  lemma CreateJwtTypeClaim(tokenType: string, tokenData: Payload, expireMinutes: int,
                           expireTimedelta: Option<Timedelta>)
    ensures var p := CreateJwt(tokenType, tokenData, expireMinutes, expireTimedelta).payload;
            p[TypeField] == if TypeField in tokenData then tokenData[TypeField] else Str(tokenType)
  {
  }

  /** The two tokens of one user name the same subject and never share a type. */
  lemma AccessAndRefreshDiffer(settings: AuthJwtSettings, user: User)
    ensures var a := CreateAccessToken(settings, user).payload;
            var f := CreateRefreshToken(settings, user).payload;
            a[TypeField] != f[TypeField] && a[SubField] == f[SubField] == Int(user.id)
  {
  }
}
