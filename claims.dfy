/**
 * Claim values and claim maps (the JWT payload), and the claim names and
 * token-type tags that issuance and validation share.
 */
module Claims {
  /** A JSON scalar carried as a claim value. */
  datatype Claim = Null | Bool(b: bool) | Int(i: int) | Str(s: string)

  /** A JWT payload: claim name to claim value. */
  type Payload = map<string, Claim>

  /** Name of the claim that says which kind of token this is. */
  const TypeField: string := "type"
  /** Type tag of a short-lived access token. */
  const AccessTokenType: string := "access"
  /** Type tag of a long-lived refresh token. */
  const RefreshTokenType: string := "refresh"
  /** Name of the subject claim, which holds the user's id. */
  const SubField: string := "sub"

  /**
   * `payload.get(key)`: the claim if present, `None` otherwise. JSON null
   * decodes to the same `None`, so a missing claim reads as a null one.
   */
  function Get(payload: Payload, key: string): (r: Claim)
    ensures key in payload ==> r == payload[key]
    ensures key !in payload ==> r == Null
  {
    if key in payload then payload[key] else Null
  }

  /** Every claim of `claims` appears, unchanged, in `payload`. */
  predicate Carries(payload: Payload, claims: Payload)
  {
    forall k :: k in claims ==> k in payload && payload[k] == claims[k]
  }
}
