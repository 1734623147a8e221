/**
 * The credential gate in front of issuance and the four-stage validation
 * pipeline in front of protected routes: decode, type match, subject
 * lookup, liveness. Each stage either passes its value on or raises, and the
 * first stage that raises decides the outcome.
 */
module Security {
  import opened Wrappers
  import opened Claims
  import opened Users

  /** The HTTP exceptions the gate and the pipeline raise. */
  datatype AuthError =
    | IncorrectUsernameOrPassword                        // login: unknown user or wrong password
    | LoginUserInactive                                  // login: right password, disabled account
    | InvalidTokenError                                  // the codec rejected the token
    | InvalidTokenType(current: Claim, expected: string)  // `type` claim missing, null or wrong
    | UserNotFound                                       // no user has the token's subject id
    | InactiveUser                                       // the token's user is disabled

  /**
   * The HTTP status each exception carries: 400 only for bad credentials, 403
   * for a disabled account (at login or in the pipeline), 401 for every other
   * token failure.
   */
  function Status(e: AuthError): (r: int)
    ensures r == 400 <==> e == IncorrectUsernameOrPassword
    ensures r == 403 <==> e == LoginUserInactive || e == InactiveUser
    ensures r == 401 <==> e == InvalidTokenError || e.InvalidTokenType? || e == UserNotFound
  {
    match e
    case IncorrectUsernameOrPassword => 400
    case LoginUserInactive => 403
    case InvalidTokenError => 401
    case InvalidTokenType(_, _) => 401
    case UserNotFound => 401
    case InactiveUser => 403
  }

  /**
   * The fixed detail text of each exception. The wrong-type text is built
   * from Python reprs of the claim and the tag and is not rendered here.
   */
  function Detail(e: AuthError): (r: Option<string>)
    ensures r.None? <==> e.InvalidTokenType?
  {
    match e
    case IncorrectUsernameOrPassword => Some("Incorrect username or password")
    case LoginUserInactive => Some("User inactive")
    case InvalidTokenError => Some("invalid token error")
    case InvalidTokenType(_, _) => None
    case UserNotFound => Some("token invalid (user not found)")
    case InactiveUser => Some("inactive user")
  }

  /** The password hasher's check: does `plain` match the stored hash? */
  type PasswordCheck = (string, seq<bv8>) -> bool

  /** The codec's decoder: the verified, unexpired payload of a token, or nothing. */
  type Decoder = string -> Option<Payload>

  // ---------------------------------------------------------------------------
  // Credential gate

  /**
   * `validate_auth_user`: the first user with this username, if the password
   * matches and the account is active. A missing user and a wrong password
   * raise the same error; liveness is looked at only after the password.
   */
  function ValidateAuthUser(store: Store, verify: PasswordCheck, username: string, password: string)
    : (r: Result<User, AuthError>)
    ensures r.Ok? <==> (var f := FindByUsername(store, username);
                        f.Some? && verify(password, f.value.hashedPassword) && f.value.active)
    ensures r.Ok? ==> FindByUsername(store, username) == Some(r.value)
    ensures r == Err(IncorrectUsernameOrPassword) <==>
              (var f := FindByUsername(store, username);
               f.None? || !verify(password, f.value.hashedPassword))
    ensures r == Err(LoginUserInactive) <==>
              (var f := FindByUsername(store, username);
               f.Some? && verify(password, f.value.hashedPassword) && !f.value.active)
  {
    match FindByUsername(store, username)
    case None => Err(IncorrectUsernameOrPassword)
    case Some(user) =>
      if !verify(password, user.hashedPassword) then Err(IncorrectUsernameOrPassword)
      else if !user.active then Err(LoginUserInactive)
      else Ok(user)
  }

  /**
   * An unknown username and a known one with a wrong password are
   * indistinguishable: both give the same 400, whatever the account's liveness.
   */
  lemma CredentialUniformity(unknown: Store, known: Store, verify: PasswordCheck, username: string, password: string)
    requires forall u :: u in unknown ==> u.username != username
    requires exists i :: 0 <= i < |known| && known[i].username == username
                         && !verify(password, known[i].hashedPassword)
                         && forall j :: 0 <= j < i ==> known[j].username != username
    ensures ValidateAuthUser(unknown, verify, username, password)
            == ValidateAuthUser(known, verify, username, password)
            == Err(IncorrectUsernameOrPassword)
    ensures var r := ValidateAuthUser(known, verify, username, password);
            r.Err? && Status(r.error) == 400 && Detail(r.error) == Some("Incorrect username or password")
  {
    var i :| 0 <= i < |known| && known[i].username == username
             && !verify(password, known[i].hashedPassword)
             && forall j :: 0 <= j < i ==> known[j].username != username;
    var f := FindByUsername(known, username);
    var k :| 0 <= k < |known| && known[k] == f.value && f.value.username == username
             && forall j :: 0 <= j < k ==> known[j].username != username;
    assert k == i;
  }

  /**
   * Liveness is checked after the password: a disabled account with the right
   * password learns it is disabled (403); with a wrong password it gets the
   * generic 400.
   */
  lemma CredentialOrdering(store: Store, verify: PasswordCheck, username: string, password: string)
    requires FindByUsername(store, username).Some?
    requires !FindByUsername(store, username).value.active
    ensures var ok := verify(password, FindByUsername(store, username).value.hashedPassword);
            var r := ValidateAuthUser(store, verify, username, password);
            r.Err? && Status(r.error) == (if ok then 403 else 400)
            && r.error == (if ok then LoginUserInactive else IncorrectUsernameOrPassword)
  {
  }

  /**
   * Every exception with a fixed text is told apart by its status and text,
   * so a client can see which check failed; in particular the two 403s differ.
   */
  lemma ResponsesIdentifyError(e1: AuthError, e2: AuthError)
    requires Detail(e1).Some? && Detail(e2).Some?
    requires Status(e1) == Status(e2) && Detail(e1) == Detail(e2)
    ensures e1 == e2
  {
  }

  // ---------------------------------------------------------------------------
  // Validation pipeline

  /** `get_current_token_payload`: the decoded payload, or a single 401 for any decode failure. */
  function GetCurrentTokenPayload(decode: Decoder, token: string): (r: Result<Payload, AuthError>)
    ensures r.Ok? <==> decode(token).Some?
    ensures r.Ok? ==> r.value == decode(token).value
    ensures r.Err? ==> r.error == InvalidTokenError && Status(r.error) == 401
  {
    match decode(token)
    case None => Err(InvalidTokenError)
    case Some(payload) => Ok(payload)
  }

  /** `validate_token_type`: passes exactly when the `type` claim is the expected tag. */
  function ValidateTokenType(payload: Payload, tokenType: string): (r: Outcome<AuthError>)
    ensures r.Pass? <==> TypeField in payload && payload[TypeField] == Str(tokenType)
    ensures r.Fail? ==> r.error == InvalidTokenType(Get(payload, TypeField), tokenType)
  {
    var current := Get(payload, TypeField);
    if current == Str(tokenType) then Pass
    else Fail(InvalidTokenType(current, tokenType))
  }

  /**
   * A payload without a `type` claim never passes, whatever tag is expected,
   * and fails exactly as one whose `type` is JSON null.
   */
  lemma MissingTypeRejected(payload: Payload, tokenType: string)
    requires TypeField !in payload
    ensures ValidateTokenType(payload, tokenType) == Fail(InvalidTokenType(Null, tokenType))
    ensures ValidateTokenType(payload, tokenType) == ValidateTokenType(payload[TypeField := Null], tokenType)
  {
  }

  /** The user a payload's `sub` claim names, when that claim is an integer id. */
  function SubjectId(payload: Payload): (r: Option<int>)
    ensures r.Some? <==> SubField in payload && payload[SubField].Int?
    ensures r.Some? ==> payload[SubField] == Int(r.value)
  {
    match Get(payload, SubField)
    case Int(id) => Some(id)
    case _ => None
  }

  /** `get_user_by_token_sub`: the user whose id is the `sub` claim, or 401 "user not found". */
  function GetUserByTokenSub(store: Store, payload: Payload): (r: Result<User, AuthError>)
    ensures r.Ok? ==> r.value in store && SubjectId(payload) == Some(r.value.id)
    ensures r.Err? <==> forall u :: u in store ==> SubjectId(payload) != Some(u.id)
    ensures r.Err? ==> r.error == UserNotFound
    ensures UniqueIds(store) ==> forall u :: u in store && SubjectId(payload) == Some(u.id) ==> r == Ok(u)
  {
    match SubjectId(payload)
    case None => Err(UserNotFound)
    case Some(id) =>
      match FindById(store, id)
      case None => Err(UserNotFound)
      case Some(user) => Ok(user)
  }

  /** `UserGetterFromToken(tokenType).__call__`: type check, then subject lookup. */
  function UserGetterFromToken(store: Store, tokenType: string, payload: Payload): (r: Result<User, AuthError>)
    ensures Get(payload, TypeField) != Str(tokenType) ==>
              r == Err(InvalidTokenType(Get(payload, TypeField), tokenType))
    ensures Get(payload, TypeField) == Str(tokenType) ==>
              (r.Ok? <==> exists u :: u in store && SubjectId(payload) == Some(u.id))
    ensures r.Ok? ==> r.value in store && SubjectId(payload) == Some(r.value.id)
    ensures Get(payload, TypeField) == Str(tokenType) && r.Err? ==> r.error == UserNotFound
    ensures r.Err? ==> r.error.InvalidTokenType? || r.error == UserNotFound
  {
    match ValidateTokenType(payload, tokenType)
    case Fail(e) => Err(e)
    case Pass => GetUserByTokenSub(store, payload)
  }

  /** The type check comes before the lookup: a wrong-typed token fails the same way against any store. */
  lemma TypeCheckPrecedesLookup(store1: Store, store2: Store, tokenType: string, payload: Payload)
    requires Get(payload, TypeField) != Str(tokenType)
    ensures UserGetterFromToken(store1, tokenType, payload) == UserGetterFromToken(store2, tokenType, payload)
    ensures UserGetterFromToken(store1, tokenType, payload).Err?
  {
  }

  /** The inner `wrapper` of `get_current_active_auth_user`: admit only active users. */
  function RequireActive(user: User): (r: Result<User, AuthError>)
    ensures r.Ok? <==> user.active
    ensures r.Ok? ==> r.value == user
    ensures r.Err? ==> r.error == InactiveUser && Status(r.error) == 403
  {
    if user.active then Ok(user) else Err(InactiveUser)
  }

  /**
   * `get_current_active_auth_user(tokenType)` with its dependencies resolved:
   * decode, type match, subject lookup, liveness, in that order. Each failure
   * happens exactly when every earlier stage passed and its own did not; for
   * the liveness stage that is stated for a store whose ids are unique.
   */
  function GetCurrentActiveAuthUser(decode: Decoder, store: Store, tokenType: string, token: string)
    : (r: Result<User, AuthError>)
    ensures r == Err(InvalidTokenError) <==> decode(token).None?
    ensures (r.Err? && r.error.InvalidTokenType?) <==>
              decode(token).Some? && Get(decode(token).value, TypeField) != Str(tokenType)
    ensures r.Err? && r.error.InvalidTokenType? ==>
              decode(token).Some? && r.error == InvalidTokenType(Get(decode(token).value, TypeField), tokenType)
    ensures r == Err(UserNotFound) <==>
              decode(token).Some? && Get(decode(token).value, TypeField) == Str(tokenType)
              && forall u :: u in store ==> SubjectId(decode(token).value) != Some(u.id)
    ensures r == Err(InactiveUser) ==>
              decode(token).Some? && Get(decode(token).value, TypeField) == Str(tokenType)
              && exists u :: u in store && SubjectId(decode(token).value) == Some(u.id) && !u.active
    ensures r.Ok? ==>
              decode(token).Some? && Get(decode(token).value, TypeField) == Str(tokenType)
              && r.value in store && SubjectId(decode(token).value) == Some(r.value.id) && r.value.active
    ensures UniqueIds(store) ==>
              (r == Err(InactiveUser) <==>
                 decode(token).Some? && Get(decode(token).value, TypeField) == Str(tokenType)
                 && exists u :: u in store && SubjectId(decode(token).value) == Some(u.id) && !u.active)
    ensures UniqueIds(store) ==>
              (r.Ok? <==>
                 decode(token).Some? && Get(decode(token).value, TypeField) == Str(tokenType)
                 && exists u :: u in store && SubjectId(decode(token).value) == Some(u.id) && u.active)
  {
    match GetCurrentTokenPayload(decode, token)
    case Err(e) => Err(e)
    case Ok(payload) =>
      match UserGetterFromToken(store, tokenType, payload)
      case Err(e) => Err(e)
      case Ok(user) => RequireActive(user)
  }

  /**
   * With ids unique, a decoded, correctly typed token whose subject exists is
   * admitted exactly when that user is active, and then yields that user.
   */
  lemma PipelineAdmitsLiveSubject(decode: Decoder, store: Store, tokenType: string, token: string, u: User)
    requires UniqueIds(store)
    requires decode(token).Some?
    requires Get(decode(token).value, TypeField) == Str(tokenType)
    requires u in store && SubjectId(decode(token).value) == Some(u.id)
    ensures GetCurrentActiveAuthUser(decode, store, tokenType, token)
            == if u.active then Ok(u) else Err(InactiveUser)
  {
    assert GetUserByTokenSub(store, decode(token).value) == Ok(u);
  }

  /**
   * The pipeline reads only the `type` and `sub` claims: two payloads that
   * agree on them are treated alike, whatever else they carry.
   */
  lemma PipelineReadsTypeAndSubOnly(decode: Decoder, store: Store, tokenType: string, t1: string, t2: string)
    requires decode(t1).Some? && decode(t2).Some?
    requires Get(decode(t1).value, TypeField) == Get(decode(t2).value, TypeField)
    requires Get(decode(t1).value, SubField) == Get(decode(t2).value, SubField)
    ensures GetCurrentActiveAuthUser(decode, store, tokenType, t1)
            == GetCurrentActiveAuthUser(decode, store, tokenType, t2)
  {
    assert SubjectId(decode(t1).value) == SubjectId(decode(t2).value);
  }
}
