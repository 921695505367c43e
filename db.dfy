/** The server's SQLite tables (`db.py`), as maps from row id to row. Ids come from a
    counter per table, as `AUTOINCREMENT` gives them; the `UNIQUE` columns of `users`
    are kept unique. Time is an integer count of seconds. */
module Db {
  import opened Wrappers
  import Text

  /** A SHA-256 digest, identified with its input (the hash is taken to be injective). */
  datatype Digest = Sha256(input: string)

  /** A bcrypt hash of the text it was made from (the salt is abstracted). */
  datatype PasswordHash = Bcrypt(secret: string)

  /** JWT claims as the server writes them. `jti` is written by no token of the
      source; it is there for the corrected refresh rotation. */
  datatype Claims = Claims(sub: string, iss: string, exp: int, typ: Option<string>, jti: Option<nat>)

  /** A bearer token: an HS256 token over its claims with a signing key, or any other text. */
  datatype Token = Signed(claims: Claims, key: string) | Opaque(text: string)

  datatype User = User(email: string, username: string, passwordHash: PasswordHash, bio: string,
                       avatarPath: Option<string>, isVerified: bool, createdAt: int, updatedAt: int)

  datatype Otp = Otp(email: string, purpose: string, codeHash: Digest, expiresAt: int, attempts: nat, createdAt: int)

  /** A `refresh_tokens` row; the table is keyed by the token (through its hash). */
  datatype Grant = Grant(userId: int, expiresAt: int)

  datatype Chat = Chat(userId: int, title: string, createdAt: int, updatedAt: int)

  datatype Message = Message(chatId: int, role: string, content: string, imagePath: Option<string>, createdAt: int)

  datatype Point = Point(name: string, address: string, lat: Option<real>, lon: Option<real>, category: string,
                         notes: string, sourceUrl: string, updatedAt: int)

  /** Every row id is at least 1 and below the table's next id. */
  ghost predicate IdsBelow<T>(rows: map<int, T>, next: int) {
    forall id :: id in rows ==> 1 <= id < next
  }

  /** No two users share an e-mail or a username (the `UNIQUE` columns). */
  ghost predicate UniqueUsers(users: map<int, User>) {
    forall a, b :: a in users && b in users && a != b ==>
      users[a].email != users[b].email && users[a].username != users[b].username
  }

  /** The contents of every table and counter at one moment. */
  datatype Tables = Tables(users: map<int, User>, nextUserId: int, otps: map<int, Otp>, nextOtpId: int,
                           refreshTokens: map<Token, Grant>, chats: map<int, Chat>, nextChatId: int,
                           messages: map<int, Message>, nextMessageId: int, points: map<int, Point>, nextPointId: int,
                           issued: nat)

  /** A stored refresh token: a signed token whose rotation id, if any, was handed out
      before the counter's current value. */
  predicate Stored(token: Token, issued: nat) {
    token.Signed? && (token.claims.jti.None? || token.claims.jti.value < issued)
  }

  /** What holds of the tables at every moment: ids below their counters, unique e-mails
      and usernames, and only stored tokens in `refresh_tokens`. */
  ghost predicate Consistent(t: Tables) {
    && t.nextUserId >= 1 && t.nextOtpId >= 1 && t.nextChatId >= 1 && t.nextMessageId >= 1 && t.nextPointId >= 1
    && IdsBelow(t.users, t.nextUserId) && IdsBelow(t.otps, t.nextOtpId)
    && IdsBelow(t.chats, t.nextChatId) && IdsBelow(t.messages, t.nextMessageId)
    && IdsBelow(t.points, t.nextPointId)
    && UniqueUsers(t.users)
    && (forall k :: k in t.refreshTokens ==> Stored(k, t.issued))
  }

  class Database {
    var users: map<int, User>
    var nextUserId: int
    var otps: map<int, Otp>
    var nextOtpId: int
    var refreshTokens: map<Token, Grant>
    var chats: map<int, Chat>
    var nextChatId: int
    var messages: map<int, Message>
    var nextMessageId: int
    var points: map<int, Point>
    var nextPointId: int
    /** Tokens issued so far by the corrected refresh rotation. */
    var issued: nat

    ghost predicate Valid()
      reads this
    {
      Consistent(Snapshot())
    }

    function Snapshot(): Tables
      reads this
    {
      Tables(users, nextUserId, otps, nextOtpId, refreshTokens, chats, nextChatId, messages, nextMessageId, points,
             nextPointId, issued)
    }

    /** An empty database, as `init_db` creates it. */
    constructor ()
      ensures Valid()
      ensures users == map[] && otps == map[] && refreshTokens == map[] && chats == map[] && messages == map[]
      ensures points == map[]
      ensures nextUserId == 1 && nextOtpId == 1 && nextChatId == 1 && nextMessageId == 1 && nextPointId == 1
      ensures issued == 0
    {
      users := map[];
      nextUserId := 1;
      otps := map[];
      nextOtpId := 1;
      refreshTokens := map[];
      chats := map[];
      nextChatId := 1;
      messages := map[];
      nextMessageId := 1;
      points := map[];
      nextPointId := 1;
      issued := 0;
    }
  }

  /** Changing rows of `users` and `otps` without adding ids keeps the tables consistent,
      as long as the users stay unique. */
  lemma RowChangesConsistent(t: Tables, users: map<int, User>, otps: map<int, Otp>)
    requires Consistent(t) && users.Keys <= t.users.Keys && otps.Keys <= t.otps.Keys && UniqueUsers(users)
    ensures Consistent(t.(users := users, otps := otps))
  {
  }

  /** Rewriting one user's row, keeping its e-mail and taking a username no other user
      holds, keeps the users unique. */
  lemma RewriteUserUnique(users: map<int, User>, id: int, u: User)
    requires UniqueUsers(users) && id in users && u.email == users[id].email
    requires forall j :: j in users && j != id ==> users[j].username != u.username
    ensures UniqueUsers(users[id := u])
  {
  }

  // ------------------------------------------------------------- user lookups

  /** A `WHERE` clause over `users`. */
  datatype UserQuery =
    | ByEmail(email: string)
    | ByUsername(username: string)
    | ByUsernameExcept(name: string, except: int)
    /** `lower(email)=? OR lower(username)=?`, with SQLite's ASCII-only `lower`. */
    | ByLoginAscii(ident: string)
    /** The same test with both sides lower-cased alike. */
    | ByLogin(ident: string)

  /** The lowest id in `[lo, hi)` whose row matches `q`, or None. */
  function LowestUser(users: map<int, User>, q: UserQuery, lo: int, hi: int): (r: Option<int>)
    ensures r.Some? ==> lo <= r.value < hi && r.value in users && UserMatches(r.value, users[r.value], q)
    ensures r.Some? ==> forall j :: lo <= j < r.value && j in users ==> !UserMatches(j, users[j], q)
    ensures r.None? ==> forall j :: lo <= j < hi && j in users ==> !UserMatches(j, users[j], q)
    decreases hi - lo
  {
    if lo >= hi then None
    else if lo in users && UserMatches(lo, users[lo], q) then Some(lo)
    else LowestUser(users, q, lo + 1, hi)
  }

  predicate UserMatches(id: int, u: User, q: UserQuery)
  {
    match q
    case ByEmail(e) => u.email == e
    case ByUsername(n) => u.username == n
    case ByUsernameExcept(n, except) => u.username == n && id != except
    case ByLoginAscii(ident) => Text.LowerAscii(u.email) == ident || Text.LowerAscii(u.username) == ident
    case ByLogin(ident) => Text.Lower(u.email) == ident || Text.Lower(u.username) == ident
  }

  /** `SELECT ... FROM users WHERE q ... fetchone()`: the lowest matching id (SQLite scans the
      table in id order). */
  function FindUser(db: map<int, User>, next: int, q: UserQuery): (r: Option<int>)
    ensures r.Some? ==> r.value in db && UserMatches(r.value, db[r.value], q)
    ensures IdsBelow(db, next) && r.None? ==> forall j :: j in db ==> !UserMatches(j, db[j], q)
  {
    LowestUser(db, q, 1, next)
  }

  /** With unique e-mails, the user found by e-mail is the only one with that e-mail. */
  lemma FindByEmailUnique(users: map<int, User>, next: int, e: string)
    requires IdsBelow(users, next) && UniqueUsers(users)
    ensures var r := FindUser(users, next, ByEmail(e));
      (r.Some? <==> exists j :: j in users && users[j].email == e)
      && (r.Some? ==> forall j :: j in users && users[j].email == e ==> j == r.value)
  {
    var r := FindUser(users, next, ByEmail(e));
  }

  // ------------------------------------------------------------- code lookups

  /** A row of `email_otps` for this e-mail and purpose. */
  predicate OtpFor(o: Otp, email: string, purpose: string) {
    o.email == email && o.purpose == purpose
  }

  /** `SELECT ... FROM email_otps WHERE email=? AND purpose=? ORDER BY id DESC LIMIT 1`
      over the ids below `hi`: the newest matching row. */
  function LatestOtp(otps: map<int, Otp>, email: string, purpose: string, hi: int): (r: Option<int>)
    ensures r.Some? ==> 1 <= r.value < hi && r.value in otps && OtpFor(otps[r.value], email, purpose)
    ensures r.Some? ==> forall j :: r.value < j < hi && j in otps ==> !OtpFor(otps[j], email, purpose)
    ensures r.None? ==> forall j :: 1 <= j < hi && j in otps ==> !OtpFor(otps[j], email, purpose)
    decreases hi
  {
    if hi <= 1 then None
    else if hi - 1 in otps && OtpFor(otps[hi - 1], email, purpose) then Some(hi - 1)
    else LatestOtp(otps, email, purpose, hi - 1)
  }

  /** `DELETE FROM email_otps WHERE email=? AND purpose=?`. */
  function DropOtps(otps: map<int, Otp>, email: string, purpose: string): (r: map<int, Otp>)
    ensures forall id :: id in r <==> id in otps && !OtpFor(otps[id], email, purpose)
    ensures forall id :: id in r ==> r[id] == otps[id]
  {
    map id | id in otps && !OtpFor(otps[id], email, purpose) :: otps[id]
  }

  // ------------------------------------------------------------- scans in id order

  /** The rows in `[lo, hi)` that `keep` selects, with their ids, in ascending id order:
      a `SELECT ... WHERE ... ORDER BY id` over the ids below the table's counter. */
  function Select<T>(rows: map<int, T>, keep: T -> bool, lo: int, hi: int): (r: seq<(int, T)>)
    ensures |r| <= if lo <= hi then hi - lo else 0
    decreases hi - lo
  {
    if lo >= hi then []
    else (if lo in rows && keep(rows[lo]) then [(lo, rows[lo])] else []) + Select(rows, keep, lo + 1, hi)
  }

  /** Every selected entry is a row of the table in range that `keep` accepts. */
  lemma {:induction false} SelectRows<T>(rows: map<int, T>, keep: T -> bool, lo: int, hi: int)
    ensures forall i :: 0 <= i < |Select(rows, keep, lo, hi)| ==>
      var e := Select(rows, keep, lo, hi)[i]; lo <= e.0 < hi && e.0 in rows && rows[e.0] == e.1 && keep(e.1)
    decreases hi - lo
  {
    if lo < hi {
      SelectRows(rows, keep, lo + 1, hi);
    }
  }

  /** `Select` lists every selected row once, in increasing id order. */
  lemma {:induction false} SelectComplete<T>(rows: map<int, T>, keep: T -> bool, lo: int, hi: int)
    ensures forall id :: lo <= id < hi && id in rows && keep(rows[id]) ==> (id, rows[id]) in Select(rows, keep, lo, hi)
    ensures forall i, j :: 0 <= i < j < |Select(rows, keep, lo, hi)| ==>
      Select(rows, keep, lo, hi)[i].0 < Select(rows, keep, lo, hi)[j].0
    decreases hi - lo
  {
    if lo < hi {
      SelectComplete(rows, keep, lo + 1, hi);
      SelectRows(rows, keep, lo + 1, hi);
    }
  }

  /** Selecting nothing in `[lo, hi)` gives the empty scan, and the other way round. */
  lemma SelectEmpty<T>(rows: map<int, T>, keep: T -> bool, lo: int, hi: int)
    ensures Select(rows, keep, lo, hi) == [] <==> forall id :: lo <= id < hi && id in rows ==> !keep(rows[id])
  {
    var r := Select(rows, keep, lo, hi);
    SelectComplete(rows, keep, lo, hi);
    SelectRows(rows, keep, lo, hi);
    if r != [] {
      assert r[0].0 in rows && keep(rows[r[0].0]) && lo <= r[0].0 < hi;
    }
  }

  /** Extending the range by one id appends that row when it is selected. */
  lemma {:induction false} SelectSnoc<T>(rows: map<int, T>, keep: T -> bool, lo: int, hi: int)
    requires lo <= hi
    ensures Select(rows, keep, lo, hi + 1)
         == Select(rows, keep, lo, hi) + (if hi in rows && keep(rows[hi]) then [(hi, rows[hi])] else [])
    decreases hi - lo
  {
    if lo < hi {
      SelectSnoc(rows, keep, lo + 1, hi);
    }
  }

  /** Rows outside `[lo, hi)` do not affect the scan. */
  lemma {:induction false} SelectOutside<T>(rows: map<int, T>, keep: T -> bool, lo: int, hi: int, id: int, v: T)
    requires id < lo || id >= hi
    ensures Select(rows[id := v], keep, lo, hi) == Select(rows, keep, lo, hi)
    decreases hi - lo
  {
    if lo < hi {
      SelectOutside(rows, keep, lo + 1, hi, id, v);
    }
  }

  /** The first entry of a non-empty scan has the lowest selected id: `ORDER BY id LIMIT 1`. */
  lemma {:induction false} SelectFirst<T>(rows: map<int, T>, keep: T -> bool, lo: int, hi: int)
    ensures forall id :: lo <= id < hi && id in rows && keep(rows[id]) ==>
      Select(rows, keep, lo, hi) != [] && Select(rows, keep, lo, hi)[0].0 <= id
    decreases hi - lo
  {
    if lo < hi {
      SelectFirst(rows, keep, lo + 1, hi);
    }
  }
}
