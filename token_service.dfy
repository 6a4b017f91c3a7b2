/** `TokenService`: token strings from the clock, and token-to-user resolution. */
module TokenServices {
  import opened Wrappers
  import opened Text
  import opened Entities
  import opened TokenDao
  import opened Outcomes

  const InvalidTokenMessage := "Invalid or revoked token."

  /**
   * `generateToken`: the decimal rendering of a clock reading in milliseconds (a
   * parameter here). It consists of digits only and reads back as the clock value,
   * so distinct readings give distinct tokens.
   */
  function GenerateToken(now: nat): (token: string)
    ensures |token| > 0
    ensures forall i :: 0 <= i < |token| ==> IsDigit(token[i])
    ensures ParseDigits(token) == now
  {
    NatToStringDigits(now);
    NatToStringRoundTrip(now);
    NatToString(now)
  }

  /**
   * `getUserFromToken`: the owner of the live tokens with this string. When no live
   * token with an owner matches, `InvalidTokenException`; when two live matching
   * tokens have different owners, the data layer's exception.
   */
  function GetUserFromToken(tokens: TokenStore, token: string): (r: Result<User, Failure>)
    reads tokens, tokens.rows
    ensures r.Ok? ==> exists t {:trigger SoleOwner(tokens.rows, token, t)} :: t in tokens.rows && SoleOwner(tokens.rows, token, t) && t.user == r.value
    ensures forall t {:trigger SoleOwner(tokens.rows, token, t)} :: t in tokens.rows && SoleOwner(tokens.rows, token, t) ==> r.Ok? && r.value == t.user
    ensures r == Err(InvalidToken(InvalidTokenMessage)) <==>
              Unowned(tokens.rows, token)
    ensures r == Err(IncorrectResultSize) <==> RivalOwners(tokens.rows, token)
    ensures r.Err? ==> r.error in {InvalidToken(InvalidTokenMessage), IncorrectResultSize}
  {
    match tokens.FindUserByToken(token)
    case NoMatch => Err(InvalidToken(InvalidTokenMessage))
    case Unique(u) => Ok(u)
    case NotUnique => Err(IncorrectResultSize)
  }

  /** A revoked token, or one never issued, is rejected with `InvalidTokenException`. */
  lemma RevokedTokenIsRejected(tokens: TokenStore, token: string)
    requires forall t :: t in tokens.rows && t.token == token ==> t.revoked
    ensures GetUserFromToken(tokens, token) == Err(InvalidToken(InvalidTokenMessage))
  {
  }
}
