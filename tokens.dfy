/** Access and refresh tokens (`tokens.py`). A token is an HS256 JWT, modelled as its claims
    signed with a key (a wrong key or any other text never decodes); `exp` is whole seconds,
    as PyJWT writes it. The `refresh_tokens` table maps each stored token (through its
    SHA-256, taken to be injective) to its row. */
module Tokens {
  import opened Wrappers
  import Decimal
  import Settings
  import Db
  import Http

  const RefreshType: string := "refresh"

  const InvalidToken: Http.Failure := Http.Failure(401, "Invalid token")
  const InvalidRefresh: Http.Failure := Http.Failure(401, "Invalid refresh token")
  const Revoked: Http.Failure := Http.Failure(401, "Refresh token revoked")
  const NotAuthenticated: Http.Failure := Http.Failure(401, "Not authenticated")

  /** `make_access_token(s, user_id)` at the time `now`. */
  function MakeAccessToken(s: Settings.Config, userId: int, now: int): Db.Token {
    Db.Signed(Db.Claims(Decimal.IntToString(userId), s.jwtIssuer, now + s.accessTokenMinutes * 60, None, None), s.jwtSecret)
  }

  /** `make_refresh_token(s, user_id)` at the time `now`. */
  function MakeRefreshToken(s: Settings.Config, userId: int, now: int): Db.Token {
    Db.Signed(Db.Claims(Decimal.IntToString(userId), s.jwtIssuer, now + s.refreshTokenDays * 86400,
                        Some(RefreshType), None), s.jwtSecret)
  }

  /** `jwt.decode(token, key, algorithms=["HS256"], options={"require": ["exp"]})` at `now`:
      the claims of a token signed with `key` that has not expired. The issuer is not checked. */
  function Decode(token: Db.Token, key: string, now: int): (r: Option<Db.Claims>)
    ensures r.Some? <==> token.Signed? && token.key == key && now < token.claims.exp
    ensures r.Some? ==> r.value == token.claims
  {
    if token.Signed? && token.key == key && now < token.claims.exp then Some(token.claims) else None
  }

  /** `verify_access_token(s, token)`: the user id of a valid token whose subject is an
      integer; every failure is the same 401. The token type is not looked at. */
  function VerifyAccess(s: Settings.Config, token: Db.Token, now: int): (r: Result<int, Http.Failure>)
    ensures r.Err? ==> r.error == InvalidToken
    ensures r.Ok? <==> Decode(token, s.jwtSecret, now).Some? && Decimal.ParseInt(token.claims.sub).Some?
    ensures r.Ok? ==> Decimal.ParseInt(token.claims.sub) == Some(r.value)
  {
    match Decode(token, s.jwtSecret, now)
    case None => Err(InvalidToken)
    case Some(c) =>
      match Decimal.ParseInt(c.sub)
      case None => Err(InvalidToken)
      case Some(id) => Ok(id)
  }

  /** `verify_refresh(s, token)`: a valid token of type `refresh` with an integer subject,
      then a stored row for it. */
  function VerifyRefresh(s: Settings.Config, table: map<Db.Token, Db.Grant>, token: Db.Token, now: int): (r: Result<int, Http.Failure>)
    ensures r.Err? ==> r.error == InvalidRefresh || r.error == Revoked
    ensures r.Ok? <==>
      Decode(token, s.jwtSecret, now).Some? && token.claims.typ == Some(RefreshType) &&
      Decimal.ParseInt(token.claims.sub).Some? && token in table
    ensures r.Ok? ==> Decimal.ParseInt(token.claims.sub) == Some(r.value)
    ensures r == Err(Revoked) ==> token !in table
  {
    match Decode(token, s.jwtSecret, now)
    case None => Err(InvalidRefresh)
    case Some(c) =>
      if c.typ != Some(RefreshType) then Err(InvalidRefresh)
      else
        match Decimal.ParseInt(c.sub)
        case None => Err(InvalidRefresh)
        case Some(id) => if token in table then Ok(id) else Err(Revoked)
  }

  /** `get_current_user_id`: the bearer credentials, None when the header is missing. */
  function CurrentUserId(s: Settings.Config, creds: Option<Db.Token>, now: int): (r: Result<int, Http.Failure>)
    ensures creds.None? || creds == Some(Db.Opaque("")) ==> r == Err(NotAuthenticated)
    ensures creds.Some? && creds != Some(Db.Opaque("")) ==> r == VerifyAccess(s, creds.value, now)
  {
    if creds.None? || creds.value == Db.Opaque("") then Err(NotAuthenticated)
    else VerifyAccess(s, creds.value, now)
  }

  /** `store_refresh(s, token, user_id, expires_at)`: `INSERT OR REPLACE`, one row per token. */
  method StoreRefresh(db: Db.Database, token: Db.Token, userId: int, expiresAt: int)
    modifies db
    ensures db.Snapshot() == old(db.Snapshot()).(refreshTokens := old(db.refreshTokens)[token := Db.Grant(userId, expiresAt)])
    ensures old(db.Valid()) && Db.Stored(token, db.issued) ==> db.Valid()
  {
    db.refreshTokens := db.refreshTokens[token := Db.Grant(userId, expiresAt)];
  }

  /** `revoke_refresh(s, token)`: deletes the token's row, if any. */
  method RevokeRefresh(db: Db.Database, token: Db.Token)
    modifies db
    ensures db.Snapshot() == old(db.Snapshot()).(refreshTokens := old(db.refreshTokens) - {token})
    ensures old(db.Valid()) ==> db.Valid()
  {
    db.refreshTokens := db.refreshTokens - {token};
  }

  // ------------------------------------------------------------------ properties

  /** An access token gives back its user for exactly its lifetime of
      `ACCESS_TOKEN_MINUTES`. */
  lemma AccessTokenLifetime(s: Settings.Config, userId: int, now: int, t: int)
    ensures VerifyAccess(s, MakeAccessToken(s, userId, now), t) ==
      (if t < now + s.accessTokenMinutes * 60 then Ok(userId) else Err(InvalidToken))
  {
    Decimal.IntRoundTrip(userId);
  }

  /** A refresh token gives back its user for its lifetime of `REFRESH_TOKEN_DAYS`, as long
      as its row is stored; a stored but expired token is invalid, an unexpired one without
      its row is revoked. */
  lemma RefreshTokenLifetime(s: Settings.Config, table: map<Db.Token, Db.Grant>, userId: int, now: int, t: int)
    ensures var token := MakeRefreshToken(s, userId, now);
      VerifyRefresh(s, table, token, t) ==
        (if t >= now + s.refreshTokenDays * 86400 then Err(InvalidRefresh)
         else if token in table then Ok(userId)
         else Err(Revoked))
  {
    Decimal.IntRoundTrip(userId);
  }

  /** An access token never refreshes, stored or not. */
  lemma AccessTokenCannotRefresh(s: Settings.Config, table: map<Db.Token, Db.Grant>, userId: int, now: int, t: int)
    ensures VerifyRefresh(s, table, MakeAccessToken(s, userId, now), t) == Err(InvalidRefresh)
  {
  }

  /** A refresh token is accepted as an access token while it has not expired, since the
      access check reads no token type. */
  lemma RefreshTokenGrantsAccess(s: Settings.Config, userId: int, now: int, t: int)
    requires t < now + s.refreshTokenDays * 86400
    ensures VerifyAccess(s, MakeRefreshToken(s, userId, now), t) == Ok(userId)
  {
    Decimal.IntRoundTrip(userId);
  }

  /** After `revoke_refresh` a token no longer refreshes, whatever else holds. */
  lemma RevokedTokenRejected(s: Settings.Config, table: map<Db.Token, Db.Grant>, token: Db.Token, t: int)
    ensures VerifyRefresh(s, table - {token}, token, t).Err?
  {
  }

  /** A token signed with another key, and any text that is not a token, is rejected by both checks. */
  lemma ForeignTokenRejected(s: Settings.Config, table: map<Db.Token, Db.Grant>, token: Db.Token, t: int)
    requires token.Opaque? || token.key != s.jwtSecret
    ensures VerifyAccess(s, token, t) == Err(InvalidToken)
    ensures VerifyRefresh(s, table, token, t) == Err(InvalidRefresh)
  {
  }
}
