/** The account endpoints of the server (`auth.py`): registration, e-mail verification,
    login, token refresh and password reset, over the `users`, `email_otps` and
    `refresh_tokens` tables.

    Each endpoint is a method on the database that runs the handler's statements in order;
    its contract ties what it does to a function over the tables (`...Outcome`), and the
    lemmas state the endpoint's promises about those functions. The clock (`now`), the number
    a code is drawn from (`draw`) and whether the mail service fails (`mailFails`) are
    parameters. The body fields arrive as the client sent them; the length limits of the
    request models are checked first and give 422. */
module Auth {
  import opened Wrappers
  import Text
  import Decimal
  import Db
  import Http
  import Otp
  import Tokens
  import Settings
  import Mailer

  /** The successful JSON bodies: `{"ok": true}`, with a message, or with both tokens. */
  datatype Reply = Done | Note(message: string) | SignedIn(access: Db.Token, refresh: Db.Token)

  /** The tables after a request, its answer, and the mail it handed to the mail service. */
  datatype Outcome = Outcome(after: Db.Tables, reply: Result<Reply, Http.Failure>, mail: Option<Mailer.Outgoing>)

  const EmailTaken: Http.Failure := Http.Failure(400, "El correo ya está registrado.")
  const UsernameTaken: Http.Failure := Http.Failure(400, "El username ya está en uso.")
  const BadCode: Http.Failure := Http.Failure(400, "Código inválido.")
  const ExpiredCode: Http.Failure := Http.Failure(400, "Código expirado.")
  const VerifyExhausted: Http.Failure := Http.Failure(429, "Demasiados intentos. Solicita un nuevo código.")
  const ResetExhausted: Http.Failure := Http.Failure(429, "Demasiados intentos.")
  const BadCredentials: Http.Failure := Http.Failure(401, "Credenciales inválidas.")
  const Unverified: Http.Failure := Http.Failure(403, "Tu correo aún no está verificado.")
  /** An exception that escapes a handler. */
  const ServerError: Http.Failure := Http.Failure(500, "Internal Server Error")

  const RegisteredMessage: string := "Te enviamos un código para verificar tu correo."
  const AlreadyVerifiedMessage: string := "Tu correo ya está verificado."

  /** Wrong guesses allowed on one code. */
  const MaxAttempts: nat := 8
  /** The lifetime of a code, in minutes. */
  const CodeMinutes: int := 10

  // ------------------------------------------------------------------ steps

  /** `send_otp_email(...)` with the links of the settings, to the address as it was typed. */
  function OtpMail(s: Settings.Config, to: string, purpose: string, code: string): Option<Mailer.Outgoing> {
    Mailer.SendOtpEmail(s.publicBaseUrl, s.resendApiKey, s.resendFrom, to, purpose, code,
                        s.contactEmail, s.whatsappLink, s.termsUrl, s.privacyUrl)
  }

  /** The answer once the mail was handed over: a failing mail service raises after the
      database was committed. */
  function AfterMail(mail: Option<Mailer.Outgoing>, mailFails: bool, reply: Reply): (r: Result<Reply, Http.Failure>)
    ensures r.Err? <==> mail.Some? && mailFails
    ensures r.Err? ==> r.error == ServerError
    ensures r.Ok? ==> r.value == reply
  {
    if mail.Some? && mailFails then Err(ServerError) else Ok(reply)
  }

  /** The statements that issue a code: delete every code of this e-mail and purpose, then
      insert the new one with no attempts, valid for ten minutes. */
  function WithOtp(t: Db.Tables, email: string, purpose: string, hash: Db.Digest, now: int): Db.Tables {
    t.(otps := Db.DropOtps(t.otps, email, purpose)[t.nextOtpId := Db.Otp(email, purpose, hash, Otp.ExpiresIn(now, CodeMinutes), 0, now)],
       nextOtpId := t.nextOtpId + 1)
  }

  /** The code step of `register`, `resend_verification` and `forgot`: issue a code for
      the drawn number, hash it with the e-mail as typed, and mail it to that address. */
  function IssueCode(t: Db.Tables, s: Settings.Config, email: string, purpose: string, draw: nat, now: int,
                     mailFails: bool, ok: Reply): Outcome
    requires draw < Otp.CodeSpace
  {
    var code := Otp.GenerateCode(draw);
    var mail := OtpMail(s, email, purpose, code);
    Outcome(WithOtp(t, Text.Lower(email), purpose, Otp.CodeHash(email, purpose, code, s.passwordPepper), now),
            AfterMail(mail, mailFails, ok), mail)
  }

  /** The row `register` inserts: lower-cased e-mail, peppered password hash, not verified. */
  function NewUser(s: Settings.Config, email: string, username: string, password: string, bio: Option<string>, now: int): Db.User {
    Db.User(Text.Lower(email), username, Db.Bcrypt(password + s.passwordPepper), bio.GetOr(""), None, false, now, now)
  }

  /** The `INSERT INTO users` under the next id. */
  function AddUser(t: Db.Tables, user: Db.User): Db.Tables {
    t.(users := t.users[t.nextUserId := user], nextUserId := t.nextUserId + 1)
  }

  /** `UPDATE users SET is_verified=1, updated_at=? WHERE email=?`. */
  function MarkVerified(users: map<int, Db.User>, email: string, now: int): (r: map<int, Db.User>)
    ensures r.Keys == users.Keys
    ensures forall id :: id in users && users[id].email == email ==> r[id] == users[id].(isVerified := true, updatedAt := now)
    ensures forall id :: id in users && users[id].email != email ==> r[id] == users[id]
  {
    map id | id in users :: if users[id].email == email then users[id].(isVerified := true, updatedAt := now) else users[id]
  }

  /** `UPDATE users SET password_hash=?, updated_at=? WHERE email=?`. */
  function SetPassword(users: map<int, Db.User>, email: string, hash: Db.PasswordHash, now: int): (r: map<int, Db.User>)
    ensures r.Keys == users.Keys
    ensures forall id :: id in users && users[id].email == email ==> r[id] == users[id].(passwordHash := hash, updatedAt := now)
    ensures forall id :: id in users && users[id].email != email ==> r[id] == users[id]
  {
    map id | id in users :: if users[id].email == email then users[id].(passwordHash := hash, updatedAt := now) else users[id]
  }

  /** `verify_password(password, pepper, hash)`. */
  predicate PasswordMatches(password: string, pepper: string, hash: Db.PasswordHash) {
    hash == Db.Bcrypt(password + pepper)
  }

  /** What the newest code of an e-mail and purpose says about a submitted code, in the
      order `verify_email` and `reset` test it. */
  datatype Check = Missing | Expired | Exhausted | Wrong(id: int) | Right(id: int)

  function CheckCode(t: Db.Tables, email: string, purpose: string, code: string, pepper: string, now: int): (c: Check)
    ensures (c.Wrong? || c.Right?) ==> c.id in t.otps
  {
    match Db.LatestOtp(t.otps, Text.Lower(email), purpose, t.nextOtpId)
    case None => Missing
    case Some(id) =>
      var o := t.otps[id];
      if o.expiresAt < now then Expired
      else if o.attempts >= MaxAttempts then Exhausted
      else if Otp.CodeHash(email, purpose, code, pepper) != o.codeHash then Wrong(id)
      else Right(id)
  }

  /** `UPDATE email_otps SET attempts=attempts+1 WHERE id=?`. */
  function CountAttempt(t: Db.Tables, id: int): Db.Tables
    requires id in t.otps
  {
    t.(otps := t.otps[id := t.otps[id].(attempts := t.otps[id].attempts + 1)])
  }

  /** Counting an attempt changes one code row in place, so the tables stay consistent. */
  lemma CountAttemptConsistent(t: Db.Tables, id: int)
    requires Db.Consistent(t) && id in t.otps
    ensures Db.Consistent(CountAttempt(t, id))
  {
  }

  /** The two tokens of a sign-in and the tables with the refresh token stored. */
  function SignIn(t: Db.Tables, s: Settings.Config, userId: int, now: int): Outcome {
    var access := Tokens.MakeAccessToken(s, userId, now);
    var refresh := Tokens.MakeRefreshToken(s, userId, now);
    Outcome(t.(refreshTokens := t.refreshTokens[refresh := Db.Grant(userId, now + s.refreshTokenDays * 86400)]),
            Ok(SignedIn(access, refresh)), None)
  }

  // ------------------------------------------------------------------ endpoints as functions

  predicate RegisterFieldsValid(username: string, password: string) {
    3 <= |username| <= 30 && 8 <= |password| <= 128
  }

  /** `register`. */
  function RegisterOutcome(t: Db.Tables, s: Settings.Config, email: string, username: string, password: string,
                           bio: Option<string>, draw: nat, now: int, mailFails: bool): Outcome
    requires draw < Otp.CodeSpace
  {
    var e := Text.Lower(email);
    if !RegisterFieldsValid(username, password) then Outcome(t, Err(Http.Unprocessable), None)
    else if Db.FindUser(t.users, t.nextUserId, Db.ByEmail(e)).Some? then Outcome(t, Err(EmailTaken), None)
    else if Db.FindUser(t.users, t.nextUserId, Db.ByUsername(username)).Some? then Outcome(t, Err(UsernameTaken), None)
    else
      IssueCode(AddUser(t, NewUser(s, email, username, password, bio, now)), s, email, Otp.VerifyPurpose, draw, now, mailFails, Note(RegisteredMessage))
  }

  /** `resend_verification`. */
  function ResendOutcome(t: Db.Tables, s: Settings.Config, email: string, draw: nat, now: int, mailFails: bool): Outcome
    requires draw < Otp.CodeSpace
  {
    var e := Text.Lower(email);
    match Db.FindUser(t.users, t.nextUserId, Db.ByEmail(e))
    case None => Outcome(t, Ok(Done), None)
    case Some(id) =>
      if t.users[id].isVerified then Outcome(t, Ok(Note(AlreadyVerifiedMessage)), None)
      else IssueCode(t, s, email, Otp.VerifyPurpose, draw, now, mailFails, Done)
  }

  /** `forgot`: the same answer whether or not the e-mail belongs to a user. */
  function ForgotOutcome(t: Db.Tables, s: Settings.Config, email: string, draw: nat, now: int, mailFails: bool): Outcome
    requires draw < Otp.CodeSpace
  {
    var e := Text.Lower(email);
    match Db.FindUser(t.users, t.nextUserId, Db.ByEmail(e))
    case None => Outcome(t, Ok(Done), None)
    case Some(_) => IssueCode(t, s, email, Otp.ResetPurpose, draw, now, mailFails, Done)
  }

  /** `verify_email`. When no user has the e-mail the handler fails after its updates,
      which are never committed. */
  function VerifyOutcome(t: Db.Tables, s: Settings.Config, email: string, code: string, now: int): Outcome {
    if |code| != 6 then Outcome(t, Err(Http.Unprocessable), None)
    else
      match CheckCode(t, email, Otp.VerifyPurpose, code, s.passwordPepper, now)
      case Missing => Outcome(t, Err(BadCode), None)
      case Expired => Outcome(t, Err(ExpiredCode), None)
      case Exhausted => Outcome(t, Err(VerifyExhausted), None)
      case Wrong(id) => Outcome(CountAttempt(t, id), Err(BadCode), None)
      case Right(id) =>
        var e := Text.Lower(email);
        var users := MarkVerified(t.users, e, now);
        match Db.FindUser(users, t.nextUserId, Db.ByEmail(e))
        case None => Outcome(t, Err(ServerError), None)
        case Some(userId) => SignIn(t.(users := users, otps := t.otps - {id}), s, userId, now)
  }

  /** `reset`. */
  function ResetOutcome(t: Db.Tables, s: Settings.Config, email: string, code: string, newPassword: string, now: int): Outcome {
    if |code| != 6 || !(8 <= |newPassword| <= 128) then Outcome(t, Err(Http.Unprocessable), None)
    else
      match CheckCode(t, email, Otp.ResetPurpose, code, s.passwordPepper, now)
      case Missing => Outcome(t, Err(BadCode), None)
      case Expired => Outcome(t, Err(ExpiredCode), None)
      case Exhausted => Outcome(t, Err(ResetExhausted), None)
      case Wrong(id) => Outcome(CountAttempt(t, id), Err(BadCode), None)
      case Right(id) =>
        var users := SetPassword(t.users, Text.Lower(email), Db.Bcrypt(newPassword + s.passwordPepper), now);
        Outcome(t.(users := users, otps := t.otps - {id}), Ok(Done), None)
  }

  /** `body.identifier.strip().lower()`. */
  function LoginKey(identifier: string): string {
    Text.Lower(Text.Trim(Text.Py, identifier))
  }

  /** `login` once the user lookup `q` is chosen. */
  function LoginWith(t: Db.Tables, s: Settings.Config, q: Db.UserQuery, password: string, now: int): Outcome {
    match Db.FindUser(t.users, t.nextUserId, q)
    case None => Outcome(t, Err(BadCredentials), None)
    case Some(id) =>
      if !t.users[id].isVerified then Outcome(t, Err(Unverified), None)
      else if !PasswordMatches(password, s.passwordPepper, t.users[id].passwordHash) then Outcome(t, Err(BadCredentials), None)
      else SignIn(t, s, id, now)
  }

  /** `login` as written: SQLite's `lower()` folds only ASCII letters of the stored e-mail
      and username, while the identifier went through Python's `lower()`. */
  function LoginAsWritten(t: Db.Tables, s: Settings.Config, identifier: string, password: string, now: int): Outcome {
    LoginWith(t, s, Db.ByLoginAscii(LoginKey(identifier)), password, now)
  }

  /** `login` with the stored e-mail and username folded as the identifier is. */
  function LoginOutcome(t: Db.Tables, s: Settings.Config, identifier: string, password: string, now: int): Outcome {
    LoginWith(t, s, Db.ByLogin(LoginKey(identifier)), password, now)
  }

  /** `refresh` as written: the new refresh token has the same claims as any refresh token
      of the user made in the same second. */
  function RefreshAsWritten(t: Db.Tables, s: Settings.Config, token: Db.Token, now: int): Outcome {
    match Tokens.VerifyRefresh(s, t.refreshTokens, token, now)
    case Err(f) => Outcome(t, Err(f), None)
    case Ok(userId) => SignIn(t.(refreshTokens := t.refreshTokens - {token}), s, userId, now)
  }

  /** A refresh token carrying the rotation id `n`. */
  function RotatedToken(s: Settings.Config, userId: int, now: int, n: nat): Db.Token {
    var base := Tokens.MakeRefreshToken(s, userId, now);
    Db.Signed(base.claims.(jti := Some(n)), base.key)
  }

  /** `refresh` with a rotated rotation id in every new refresh token. */
  function RefreshOutcome(t: Db.Tables, s: Settings.Config, token: Db.Token, now: int): Outcome {
    match Tokens.VerifyRefresh(s, t.refreshTokens, token, now)
    case Err(f) => Outcome(t, Err(f), None)
    case Ok(userId) =>
      var access := Tokens.MakeAccessToken(s, userId, now);
      var rotated := RotatedToken(s, userId, now, t.issued);
      Outcome(t.(refreshTokens := (t.refreshTokens - {token})[rotated := Db.Grant(userId, now + s.refreshTokenDays * 86400)],
                 issued := t.issued + 1),
              Ok(SignedIn(access, rotated)), None)
  }

  // ------------------------------------------------------------------ endpoints as methods

  /** Issues a code: the `DELETE` of the older codes, then the `INSERT`. */
  method IssueOtp(db: Db.Database, email: string, purpose: string, hash: Db.Digest, now: int)
    modifies db
    ensures db.Snapshot() == WithOtp(old(db.Snapshot()), email, purpose, hash, now)
  {
    db.otps := Db.DropOtps(db.otps, email, purpose);
    db.otps := db.otps[db.nextOtpId := Db.Otp(email, purpose, hash, Otp.ExpiresIn(now, CodeMinutes), 0, now)];
    db.nextOtpId := db.nextOtpId + 1;
  }

  /** The code step as statements. */
  method SendCode(db: Db.Database, s: Settings.Config, email: string, purpose: string, draw: nat, now: int,
                  mailFails: bool, ok: Reply)
    returns (reply: Result<Reply, Http.Failure>, mail: Option<Mailer.Outgoing>)
    requires draw < Otp.CodeSpace
    modifies db
    ensures Outcome(db.Snapshot(), reply, mail) == IssueCode(old(db.Snapshot()), s, email, purpose, draw, now, mailFails, ok)
  {
    var code := Otp.GenerateCode(draw);
    IssueOtp(db, Text.Lower(email), purpose, Otp.CodeHash(email, purpose, code, s.passwordPepper), now);
    mail := OtpMail(s, email, purpose, code);
    reply := AfterMail(mail, mailFails, ok);
  }

  method Register(db: Db.Database, s: Settings.Config, email: string, username: string, password: string,
                  bio: Option<string>, draw: nat, now: int, mailFails: bool)
    returns (reply: Result<Reply, Http.Failure>, mail: Option<Mailer.Outgoing>)
    requires draw < Otp.CodeSpace
    modifies db
    ensures Outcome(db.Snapshot(), reply, mail) == RegisterOutcome(old(db.Snapshot()), s, email, username, password, bio, draw, now, mailFails)
  {
    if !RegisterFieldsValid(username, password) {
      return Err(Http.Unprocessable), None;
    }
    var e := Text.Lower(email);
    if Db.FindUser(db.users, db.nextUserId, Db.ByEmail(e)).Some? {
      return Err(EmailTaken), None;
    }
    if Db.FindUser(db.users, db.nextUserId, Db.ByUsername(username)).Some? {
      return Err(UsernameTaken), None;
    }
    db.users := db.users[db.nextUserId := NewUser(s, email, username, password, bio, now)];
    db.nextUserId := db.nextUserId + 1;
    reply, mail := SendCode(db, s, email, Otp.VerifyPurpose, draw, now, mailFails, Note(RegisteredMessage));
  }

  method ResendVerification(db: Db.Database, s: Settings.Config, email: string, draw: nat, now: int, mailFails: bool)
    returns (reply: Result<Reply, Http.Failure>, mail: Option<Mailer.Outgoing>)
    requires draw < Otp.CodeSpace
    modifies db
    ensures Outcome(db.Snapshot(), reply, mail) == ResendOutcome(old(db.Snapshot()), s, email, draw, now, mailFails)
  {
    var e := Text.Lower(email);
    var found := Db.FindUser(db.users, db.nextUserId, Db.ByEmail(e));
    if found.None? {
      return Ok(Done), None;
    }
    if db.users[found.value].isVerified {
      return Ok(Note(AlreadyVerifiedMessage)), None;
    }
    reply, mail := SendCode(db, s, email, Otp.VerifyPurpose, draw, now, mailFails, Done);
  }

  method Forgot(db: Db.Database, s: Settings.Config, email: string, draw: nat, now: int, mailFails: bool)
    returns (reply: Result<Reply, Http.Failure>, mail: Option<Mailer.Outgoing>)
    requires draw < Otp.CodeSpace
    modifies db
    ensures Outcome(db.Snapshot(), reply, mail) == ForgotOutcome(old(db.Snapshot()), s, email, draw, now, mailFails)
  {
    var e := Text.Lower(email);
    if Db.FindUser(db.users, db.nextUserId, Db.ByEmail(e)).None? {
      return Ok(Done), None;
    }
    reply, mail := SendCode(db, s, email, Otp.ResetPurpose, draw, now, mailFails, Done);
  }

  method VerifyEmail(db: Db.Database, s: Settings.Config, email: string, code: string, now: int)
    returns (reply: Result<Reply, Http.Failure>)
    modifies db
    ensures Outcome(db.Snapshot(), reply, None) == VerifyOutcome(old(db.Snapshot()), s, email, code, now)
  {
    if |code| != 6 {
      return Err(Http.Unprocessable);
    }
    var check := CheckCode(db.Snapshot(), email, Otp.VerifyPurpose, code, s.passwordPepper, now);
    match check {
      case Missing => return Err(BadCode);
      case Expired => return Err(ExpiredCode);
      case Exhausted => return Err(VerifyExhausted);
      case Wrong(id) =>
        db.otps := db.otps[id := db.otps[id].(attempts := db.otps[id].attempts + 1)];
        return Err(BadCode);
      case Right(id) =>
        var e := Text.Lower(email);
        var users := MarkVerified(db.users, e, now);
        var found := Db.FindUser(users, db.nextUserId, Db.ByEmail(e));
        if found.None? {
          return Err(ServerError);
        }
        db.users := users;
        db.otps := db.otps - {id};
        var access := Tokens.MakeAccessToken(s, found.value, now);
        var refresh := Tokens.MakeRefreshToken(s, found.value, now);
        Tokens.StoreRefresh(db, refresh, found.value, now + s.refreshTokenDays * 86400);
        return Ok(SignedIn(access, refresh));
    }
  }

  method Reset(db: Db.Database, s: Settings.Config, email: string, code: string, newPassword: string, now: int)
    returns (reply: Result<Reply, Http.Failure>)
    modifies db
    ensures Outcome(db.Snapshot(), reply, None) == ResetOutcome(old(db.Snapshot()), s, email, code, newPassword, now)
  {
    if |code| != 6 || !(8 <= |newPassword| <= 128) {
      return Err(Http.Unprocessable);
    }
    var check := CheckCode(db.Snapshot(), email, Otp.ResetPurpose, code, s.passwordPepper, now);
    match check {
      case Missing => return Err(BadCode);
      case Expired => return Err(ExpiredCode);
      case Exhausted => return Err(ResetExhausted);
      case Wrong(id) =>
        db.otps := db.otps[id := db.otps[id].(attempts := db.otps[id].attempts + 1)];
        return Err(BadCode);
      case Right(id) =>
        db.users := SetPassword(db.users, Text.Lower(email), Db.Bcrypt(newPassword + s.passwordPepper), now);
        db.otps := db.otps - {id};
        return Ok(Done);
    }
  }

  /** `login` with the identifier and the stored e-mail and username folded the same way:
      this implements the corrected `LoginOutcome`. The endpoint as written, whose SQLite
      `lower()` folds only ASCII, is the function `LoginAsWritten`. */
  method Login(db: Db.Database, s: Settings.Config, identifier: string, password: string, now: int)
    returns (reply: Result<Reply, Http.Failure>)
    modifies db
    ensures Outcome(db.Snapshot(), reply, None) == LoginOutcome(old(db.Snapshot()), s, identifier, password, now)
  {
    var found := Db.FindUser(db.users, db.nextUserId, Db.ByLogin(LoginKey(identifier)));
    if found.None? {
      return Err(BadCredentials);
    }
    var user := db.users[found.value];
    if !user.isVerified {
      return Err(Unverified);
    }
    if !PasswordMatches(password, s.passwordPepper, user.passwordHash) {
      return Err(BadCredentials);
    }
    var access := Tokens.MakeAccessToken(s, found.value, now);
    var refresh := Tokens.MakeRefreshToken(s, found.value, now);
    Tokens.StoreRefresh(db, refresh, found.value, now + s.refreshTokenDays * 86400);
    return Ok(SignedIn(access, refresh));
  }

  /** `refresh` with a rotation counter in the new token: this implements the corrected
      `RefreshOutcome`, which never re-issues the presented token. The endpoint as written,
      which can within one second, is the function `RefreshAsWritten`. */
  method Refresh(db: Db.Database, s: Settings.Config, token: Db.Token, now: int)
    returns (reply: Result<Reply, Http.Failure>)
    modifies db
    ensures Outcome(db.Snapshot(), reply, None) == RefreshOutcome(old(db.Snapshot()), s, token, now)
  {
    var verified := Tokens.VerifyRefresh(s, db.refreshTokens, token, now);
    if verified.Err? {
      return Err(verified.error);
    }
    var userId := verified.value;
    Tokens.RevokeRefresh(db, token);
    var access := Tokens.MakeAccessToken(s, userId, now);
    var rotated := RotatedToken(s, userId, now, db.issued);
    db.issued := db.issued + 1;
    Tokens.StoreRefresh(db, rotated, userId, now + s.refreshTokenDays * 86400);
    return Ok(SignedIn(access, rotated));
  }

  // ------------------------------------------------------------------ invariants

  /** Issuing a code keeps the tables consistent. */
  lemma WithOtpConsistent(t: Db.Tables, email: string, purpose: string, hash: Db.Digest, now: int)
    requires Db.Consistent(t)
    ensures Db.Consistent(WithOtp(t, email, purpose, hash, now))
  {
  }

  lemma IssueCodeConsistent(t: Db.Tables, s: Settings.Config, email: string, purpose: string, draw: nat, now: int,
                            mailFails: bool, ok: Reply)
    requires Db.Consistent(t) && draw < Otp.CodeSpace
    ensures Db.Consistent(IssueCode(t, s, email, purpose, draw, now, mailFails, ok).after)
  {
    var code := Otp.GenerateCode(draw);
    WithOtpConsistent(t, Text.Lower(email), purpose, Otp.CodeHash(email, purpose, code, s.passwordPepper), now);
  }

  lemma SignInConsistent(t: Db.Tables, s: Settings.Config, userId: int, now: int)
    requires Db.Consistent(t)
    ensures Db.Consistent(SignIn(t, s, userId, now).after)
  {
  }

  lemma RegisterConsistent(t: Db.Tables, s: Settings.Config, email: string, username: string, password: string,
                           bio: Option<string>, draw: nat, now: int, mailFails: bool)
    requires Db.Consistent(t) && draw < Otp.CodeSpace
    ensures Db.Consistent(RegisterOutcome(t, s, email, username, password, bio, draw, now, mailFails).after)
  {
    var e := Text.Lower(email);
    if RegisterFieldsValid(username, password)
      && Db.FindUser(t.users, t.nextUserId, Db.ByEmail(e)).None?
      && Db.FindUser(t.users, t.nextUserId, Db.ByUsername(username)).None? {
      var user := NewUser(s, email, username, password, bio, now);
      var t1 := AddUser(t, user);
      InsertUserUnique(t.users, t.nextUserId, user);
      IssueCodeConsistent(t1, s, email, Otp.VerifyPurpose, draw, now, mailFails, Note(RegisteredMessage));
    }
  }

  /** A user whose e-mail and username no row has can be added under the next id. */
  lemma InsertUserUnique(users: map<int, Db.User>, next: int, user: Db.User)
    requires Db.IdsBelow(users, next) && Db.UniqueUsers(users) && next >= 1
    requires Db.FindUser(users, next, Db.ByEmail(user.email)).None?
    requires Db.FindUser(users, next, Db.ByUsername(user.username)).None?
    ensures Db.IdsBelow(users[next := user], next + 1) && Db.UniqueUsers(users[next := user])
  {
    forall j | j in users ensures users[j].email != user.email && users[j].username != user.username {
      assert !Db.UserMatches(j, users[j], Db.ByEmail(user.email));
      assert !Db.UserMatches(j, users[j], Db.ByUsername(user.username));
    }
  }

  lemma ResendConsistent(t: Db.Tables, s: Settings.Config, email: string, draw: nat, now: int, mailFails: bool)
    requires Db.Consistent(t) && draw < Otp.CodeSpace
    ensures Db.Consistent(ResendOutcome(t, s, email, draw, now, mailFails).after)
  {
    IssueCodeConsistent(t, s, email, Otp.VerifyPurpose, draw, now, mailFails, Done);
  }

  lemma ForgotConsistent(t: Db.Tables, s: Settings.Config, email: string, draw: nat, now: int, mailFails: bool)
    requires Db.Consistent(t) && draw < Otp.CodeSpace
    ensures Db.Consistent(ForgotOutcome(t, s, email, draw, now, mailFails).after)
  {
    IssueCodeConsistent(t, s, email, Otp.ResetPurpose, draw, now, mailFails, Done);
  }

  /** Marking users verified or changing their password keeps e-mails and usernames. */
  lemma UserUpdatesUnique(users: map<int, Db.User>, email: string, hash: Db.PasswordHash, now: int)
    requires Db.UniqueUsers(users)
    ensures Db.UniqueUsers(MarkVerified(users, email, now))
    ensures Db.UniqueUsers(SetPassword(users, email, hash, now))
  {
  }

  lemma VerifyConsistent(t: Db.Tables, s: Settings.Config, email: string, code: string, now: int)
    requires Db.Consistent(t)
    ensures Db.Consistent(VerifyOutcome(t, s, email, code, now).after)
  {
    if |code| == 6 {
      var c := CheckCode(t, email, Otp.VerifyPurpose, code, s.passwordPepper, now);
      if c.Right? {
        var e := Text.Lower(email);
        var users := MarkVerified(t.users, e, now);
        UserUpdatesUnique(t.users, e, Db.Bcrypt(""), now);
        var found := Db.FindUser(users, t.nextUserId, Db.ByEmail(e));
        if found.Some? {
          SignInConsistent(t.(users := users, otps := t.otps - {c.id}), s, found.value, now);
        }
      }
    }
  }

  lemma ResetConsistent(t: Db.Tables, s: Settings.Config, email: string, code: string, newPassword: string, now: int)
    requires Db.Consistent(t)
    ensures Db.Consistent(ResetOutcome(t, s, email, code, newPassword, now).after)
  {
    if |code| == 6 && 8 <= |newPassword| <= 128 {
      var c := CheckCode(t, email, Otp.ResetPurpose, code, s.passwordPepper, now);
      var o := ResetOutcome(t, s, email, code, newPassword, now);
      match c
      case Right(id) =>
        var users := SetPassword(t.users, Text.Lower(email), Db.Bcrypt(newPassword + s.passwordPepper), now);
        UserUpdatesUnique(t.users, Text.Lower(email), Db.Bcrypt(newPassword + s.passwordPepper), now);
        Db.RowChangesConsistent(t, users, t.otps - {id});
        assert o.after == t.(users := users, otps := t.otps - {id});
      case Wrong(id) =>
        CountAttemptConsistent(t, id);
        assert o.after == CountAttempt(t, id);
      case _ =>
        assert o.after == t;
    }
  }

  lemma LoginConsistent(t: Db.Tables, s: Settings.Config, q: Db.UserQuery, password: string, now: int)
    requires Db.Consistent(t)
    ensures Db.Consistent(LoginWith(t, s, q, password, now).after)
  {
    var found := Db.FindUser(t.users, t.nextUserId, q);
    if found.Some? {
      SignInConsistent(t, s, found.value, now);
    }
  }

  lemma RefreshConsistent(t: Db.Tables, s: Settings.Config, token: Db.Token, now: int)
    requires Db.Consistent(t)
    ensures Db.Consistent(RefreshOutcome(t, s, token, now).after)
  {
  }

  // ------------------------------------------------------------------ codes

  /** After a code is issued it is the only row of its e-mail and purpose, it is the newest,
      it has no attempts and expires ten minutes later; the rows of other e-mails and purposes
      are kept as they were. */
  lemma OneCodePerPurpose(t: Db.Tables, email: string, purpose: string, hash: Db.Digest, now: int)
    requires Db.IdsBelow(t.otps, t.nextOtpId) && t.nextOtpId >= 1
    ensures var a := WithOtp(t, email, purpose, hash, now);
      && Db.LatestOtp(a.otps, email, purpose, a.nextOtpId) == Some(t.nextOtpId)
      && a.otps[t.nextOtpId] == Db.Otp(email, purpose, hash, now + 600, 0, now)
      && (forall id :: id in a.otps && Db.OtpFor(a.otps[id], email, purpose) ==> id == t.nextOtpId)
      && (forall id :: id in t.otps && !Db.OtpFor(t.otps[id], email, purpose) ==> id in a.otps && a.otps[id] == t.otps[id])
      && (forall id :: id in a.otps && id != t.nextOtpId ==> id in t.otps && a.otps[id] == t.otps[id])
  {
  }

  /** A code just issued to an e-mail is judged right exactly when it is the code that was
      mailed, for the e-mail typed in any letter case, until it expires ten minutes later. */
  lemma IssuedCodeChecked(t: Db.Tables, email: string, typed: string, purpose: string, mailed: string, code: string,
                          pepper: string, now: int, later: int)
    requires Db.IdsBelow(t.otps, t.nextOtpId) && t.nextOtpId >= 1
    requires Text.Lower(typed) == Text.Lower(email)
    requires now <= later <= now + 600
    ensures var a := WithOtp(t, Text.Lower(email), purpose, Otp.CodeHash(email, purpose, mailed, pepper), now);
      CheckCode(a, typed, purpose, code, pepper, later) == (if code == mailed then Right(t.nextOtpId) else Wrong(t.nextOtpId))
  {
    OneCodePerPurpose(t, Text.Lower(email), purpose, Otp.CodeHash(email, purpose, mailed, pepper), now);
    Otp.CodeHashMatches(typed, email, purpose, code, mailed, pepper);
  }

  /** Counting an attempt keeps which row is the newest for every e-mail and purpose. */
  lemma {:induction false} LatestAfterCount(otps: map<int, Db.Otp>, id: int, email: string, purpose: string, hi: int)
    requires id in otps
    ensures Db.LatestOtp(otps[id := otps[id].(attempts := otps[id].attempts + 1)], email, purpose, hi)
         == Db.LatestOtp(otps, email, purpose, hi)
    decreases hi
  {
    if hi > 1 {
      LatestAfterCount(otps, id, email, purpose, hi - 1);
    }
  }

  function Min(a: int, b: int): int {
    if a <= b then a else b
  }

  /** `verify_email` called once for each of `codes`, in order; the tables it leaves. */
  function Guesses(t: Db.Tables, s: Settings.Config, email: string, codes: seq<string>, now: int): Db.Tables
    decreases |codes|
  {
    if codes == [] then t
    else Guesses(VerifyOutcome(t, s, email, codes[0], now).after, s, email, codes[1..], now)
  }

  /** Each wrong guess at a live code costs one attempt, up to the cap of eight; the newest
      code stays the same and no user or refresh token changes. */
  lemma {:induction false} WrongGuessesCount(t: Db.Tables, s: Settings.Config, email: string, codes: seq<string>, now: int, id: int)
    requires Db.LatestOtp(t.otps, Text.Lower(email), Otp.VerifyPurpose, t.nextOtpId) == Some(id)
    requires t.otps[id].expiresAt >= now && t.otps[id].attempts <= MaxAttempts
    requires forall k :: 0 <= k < |codes| ==>
      |codes[k]| == 6 && Otp.CodeHash(email, Otp.VerifyPurpose, codes[k], s.passwordPepper) != t.otps[id].codeHash
    ensures var g := Guesses(t, s, email, codes, now);
      && Db.LatestOtp(g.otps, Text.Lower(email), Otp.VerifyPurpose, g.nextOtpId) == Some(id)
      && g.otps[id] == t.otps[id].(attempts := Min(t.otps[id].attempts + |codes|, MaxAttempts))
      && g.users == t.users && g.refreshTokens == t.refreshTokens
    decreases |codes|
  {
    if codes != [] {
      var next := VerifyOutcome(t, s, email, codes[0], now).after;
      WrongGuessStep(t, s, email, codes[0], now, id);
      assert codes[1..][0..] == codes[1..];
      WrongGuessesCount(next, s, email, codes[1..], now, id);
      assert Guesses(t, s, email, codes, now) == Guesses(next, s, email, codes[1..], now);
    }
  }

  /** One wrong guess at a live code: one more attempt below the cap, none at it. */
  lemma WrongGuessStep(t: Db.Tables, s: Settings.Config, email: string, code: string, now: int, id: int)
    requires Db.LatestOtp(t.otps, Text.Lower(email), Otp.VerifyPurpose, t.nextOtpId) == Some(id)
    requires t.otps[id].expiresAt >= now && t.otps[id].attempts <= MaxAttempts
    requires |code| == 6 && Otp.CodeHash(email, Otp.VerifyPurpose, code, s.passwordPepper) != t.otps[id].codeHash
    ensures var n := VerifyOutcome(t, s, email, code, now).after;
      && n.nextOtpId == t.nextOtpId
      && Db.LatestOtp(n.otps, Text.Lower(email), Otp.VerifyPurpose, n.nextOtpId) == Some(id)
      && n.otps[id] == t.otps[id].(attempts := Min(t.otps[id].attempts + 1, MaxAttempts))
      && n.users == t.users && n.refreshTokens == t.refreshTokens
  {
    if t.otps[id].attempts < MaxAttempts {
      assert CheckCode(t, email, Otp.VerifyPurpose, code, s.passwordPepper, now) == Wrong(id);
      LatestAfterCount(t.otps, id, Text.Lower(email), Otp.VerifyPurpose, t.nextOtpId);
    } else {
      assert CheckCode(t, email, Otp.VerifyPurpose, code, s.passwordPepper, now) == Exhausted;
    }
  }

  /** A live code with eight attempts refuses every submission, the right code included,
      and changes nothing. */
  lemma CodeLocked(t: Db.Tables, s: Settings.Config, email: string, code: string, newPassword: string, now: int)
    requires |code| == 6 && 8 <= |newPassword| <= 128
    ensures var v := Db.LatestOtp(t.otps, Text.Lower(email), Otp.VerifyPurpose, t.nextOtpId);
      v.Some? && t.otps[v.value].expiresAt >= now && t.otps[v.value].attempts >= MaxAttempts ==>
        VerifyOutcome(t, s, email, code, now) == Outcome(t, Err(VerifyExhausted), None)
    ensures var r := Db.LatestOtp(t.otps, Text.Lower(email), Otp.ResetPurpose, t.nextOtpId);
      r.Some? && t.otps[r.value].expiresAt >= now && t.otps[r.value].attempts >= MaxAttempts ==>
        ResetOutcome(t, s, email, code, newPassword, now) == Outcome(t, Err(ResetExhausted), None)
  {
  }

  /** Eight wrong guesses at a fresh code lock it: the mailed code is refused afterwards. */
  lemma EightWrongGuessesLock(t: Db.Tables, s: Settings.Config, email: string, codes: seq<string>, code: string, now: int, id: int)
    requires Db.LatestOtp(t.otps, Text.Lower(email), Otp.VerifyPurpose, t.nextOtpId) == Some(id)
    requires t.otps[id].expiresAt >= now && t.otps[id].attempts == 0
    requires |codes| == 8 && |code| == 6
    requires forall k :: 0 <= k < |codes| ==>
      |codes[k]| == 6 && Otp.CodeHash(email, Otp.VerifyPurpose, codes[k], s.passwordPepper) != t.otps[id].codeHash
    ensures VerifyOutcome(Guesses(t, s, email, codes, now), s, email, code, now).reply == Err(VerifyExhausted)
  {
    WrongGuessesCount(t, s, email, codes, now, id);
  }

  // ------------------------------------------------------------------ register and verify

  /** `register` checks the fields, then the lower-cased e-mail, then the username, and
      stores nothing on any of these errors; otherwise it adds one unverified user under the
      next id, with the e-mail lower-cased, and mails a fresh verification code to the
      address as typed. */
  lemma RegisterChecks(t: Db.Tables, s: Settings.Config, email: string, username: string, password: string,
                       bio: Option<string>, draw: nat, now: int, mailFails: bool)
    requires Db.Consistent(t) && draw < Otp.CodeSpace
    ensures var o := RegisterOutcome(t, s, email, username, password, bio, draw, now, mailFails);
      var emailUsed := exists id :: id in t.users && t.users[id].email == Text.Lower(email);
      var nameUsed := exists id :: id in t.users && t.users[id].username == username;
      && (!RegisterFieldsValid(username, password) ==> o == Outcome(t, Err(Http.Unprocessable), None))
      && (RegisterFieldsValid(username, password) && emailUsed ==> o == Outcome(t, Err(EmailTaken), None))
      && (RegisterFieldsValid(username, password) && !emailUsed && nameUsed ==> o == Outcome(t, Err(UsernameTaken), None))
      && (RegisterFieldsValid(username, password) && !emailUsed && !nameUsed ==>
            && o.after.users == t.users[t.nextUserId := NewUser(s, email, username, password, bio, now)]
            && !o.after.users[t.nextUserId].isVerified
            && o.mail == OtpMail(s, email, Otp.VerifyPurpose, Otp.GenerateCode(draw))
            && o.reply == AfterMail(o.mail, mailFails, Note(RegisteredMessage)))
  {
    var e := Text.Lower(email);
    var byEmail := Db.FindUser(t.users, t.nextUserId, Db.ByEmail(e));
    var byName := Db.FindUser(t.users, t.nextUserId, Db.ByUsername(username));
    if byEmail.Some? {
      assert t.users[byEmail.value].email == e;
    }
    if byName.Some? {
      assert t.users[byName.value].username == username;
    }
  }

  /** Submitting a code just issued for e-mail verification, within ten minutes and with
      the e-mail in any letter case, verifies the owner of the e-mail, uses the code up and
      signs the owner in. */
  lemma VerifyIssuedCode(t: Db.Tables, s: Settings.Config, email: string, typed: string, code: string,
                         now: int, later: int, id: int)
    requires Db.IdsBelow(t.users, t.nextUserId) && Db.UniqueUsers(t.users)
    requires Db.IdsBelow(t.otps, t.nextOtpId) && t.nextOtpId >= 1
    requires id in t.users && t.users[id].email == Text.Lower(email)
    requires |code| == 6 && Text.Lower(typed) == Text.Lower(email)
    requires now <= later <= now + 600
    ensures var a := WithOtp(t, Text.Lower(email), Otp.VerifyPurpose, Otp.CodeHash(email, Otp.VerifyPurpose, code, s.passwordPepper), now);
      var v := VerifyOutcome(a, s, typed, code, later);
      && v.reply == Ok(SignedIn(Tokens.MakeAccessToken(s, id, later), Tokens.MakeRefreshToken(s, id, later)))
      && v.after.users == MarkVerified(t.users, Text.Lower(email), later)
      && (forall j :: j in v.after.otps ==> !Db.OtpFor(v.after.otps[j], Text.Lower(email), Otp.VerifyPurpose))
  {
    var e := Text.Lower(email);
    var hash := Otp.CodeHash(email, Otp.VerifyPurpose, code, s.passwordPepper);
    var a := WithOtp(t, e, Otp.VerifyPurpose, hash, now);
    IssuedCodeChecked(t, email, typed, Otp.VerifyPurpose, code, code, s.passwordPepper, now, later);
    assert CheckCode(a, typed, Otp.VerifyPurpose, code, s.passwordPepper, later) == Right(t.nextOtpId);
    OneCodePerPurpose(t, e, Otp.VerifyPurpose, hash, now);
    var users := MarkVerified(t.users, e, later);
    UserUpdatesUnique(t.users, e, Db.Bcrypt(""), later);
    Db.FindByEmailUnique(users, t.nextUserId, e);
    assert users[id].email == e;
    assert Db.FindUser(users, a.nextUserId, Db.ByEmail(e)) == Some(id);
    VerifyRight(a, s, typed, code, later, t.nextOtpId, id);
    var b := a.(users := users, otps := a.otps - {t.nextOtpId});
    assert forall j :: j in b.otps ==> !Db.OtpFor(b.otps[j], e, Otp.VerifyPurpose);
  }

  /** The successful branch of `verify_email`: the code row is deleted, the owner of the
      e-mail is marked verified and signed in. */
  lemma VerifyRight(t: Db.Tables, s: Settings.Config, email: string, code: string, now: int, otpId: int, id: int)
    requires |code| == 6 && CheckCode(t, email, Otp.VerifyPurpose, code, s.passwordPepper, now) == Right(otpId)
    requires Db.FindUser(MarkVerified(t.users, Text.Lower(email), now), t.nextUserId, Db.ByEmail(Text.Lower(email))) == Some(id)
    ensures VerifyOutcome(t, s, email, code, now)
         == SignIn(t.(users := MarkVerified(t.users, Text.Lower(email), now), otps := t.otps - {otpId}), s, id, now)
  {
  }

  /** Registering and then submitting the mailed code within ten minutes, with the e-mail in
      any letter case, verifies the new user, uses the code up and signs the user in. */
  lemma RegisterThenVerify(t: Db.Tables, s: Settings.Config, email: string, typed: string, username: string,
                           password: string, bio: Option<string>, draw: nat, now: int, mailFails: bool, later: int)
    requires Db.Consistent(t) && draw < Otp.CodeSpace
    requires RegisterFieldsValid(username, password)
    requires forall id :: id in t.users ==> t.users[id].email != Text.Lower(email) && t.users[id].username != username
    requires Text.Lower(typed) == Text.Lower(email)
    requires now <= later <= now + 600
    ensures var r := RegisterOutcome(t, s, email, username, password, bio, draw, now, mailFails).after;
      var v := VerifyOutcome(r, s, typed, Otp.GenerateCode(draw), later);
      && v.reply == Ok(SignedIn(Tokens.MakeAccessToken(s, t.nextUserId, later), Tokens.MakeRefreshToken(s, t.nextUserId, later)))
      && v.after.users == MarkVerified(t.users[t.nextUserId := NewUser(s, email, username, password, bio, now)], Text.Lower(email), later)
      && MarkVerified(t.users[t.nextUserId := NewUser(s, email, username, password, bio, now)], Text.Lower(email), later)[t.nextUserId].isVerified
      && (forall id :: id in v.after.otps ==> !Db.OtpFor(v.after.otps[id], Text.Lower(email), Otp.VerifyPurpose))
  {
    var user := NewUser(s, email, username, password, bio, now);
    var t1 := AddUser(t, user);
    assert Db.FindUser(t.users, t.nextUserId, Db.ByEmail(user.email)).None?;
    assert Db.FindUser(t.users, t.nextUserId, Db.ByUsername(user.username)).None?;
    InsertUserUnique(t.users, t.nextUserId, user);
    VerifyIssuedCode(t1, s, email, typed, Otp.GenerateCode(draw), now, later, t.nextUserId);
  }

  /** A successful verification marks the owner of the e-mail verified, deletes the code it
      used, and returns tokens for that user: the access token is accepted and the refresh
      token is stored, both for their whole lifetime. The other users do not change. */
  lemma VerifySignsIn(t: Db.Tables, s: Settings.Config, email: string, code: string, now: int)
    requires Db.Consistent(t)
    ensures var v := VerifyOutcome(t, s, email, code, now);
      v.reply.Ok? ==>
        var latest := Db.LatestOtp(t.otps, Text.Lower(email), Otp.VerifyPurpose, t.nextOtpId);
        && latest.Some? && latest.value !in v.after.otps
        && Otp.CodeHash(email, Otp.VerifyPurpose, code, s.passwordPepper) == t.otps[latest.value].codeHash
        && v.reply.value.SignedIn?
        && exists id :: id in t.users && t.users[id].email == Text.Lower(email)
             && v.after.users[id] == t.users[id].(isVerified := true, updatedAt := now)
             && (now < now + s.accessTokenMinutes * 60 ==> Tokens.VerifyAccess(s, v.reply.value.access, now) == Ok(id))
             && (now < now + s.refreshTokenDays * 86400 ==> Tokens.VerifyRefresh(s, v.after.refreshTokens, v.reply.value.refresh, now) == Ok(id))
  {
    var v := VerifyOutcome(t, s, email, code, now);
    if v.reply.Ok? {
      var c := CheckCode(t, email, Otp.VerifyPurpose, code, s.passwordPepper, now);
      assert |code| == 6 && c.Right?;
      var e := Text.Lower(email);
      var users := MarkVerified(t.users, e, now);
      var found := Db.FindUser(users, t.nextUserId, Db.ByEmail(e));
      assert found.Some?;
      var id := found.value;
      var t2 := t.(users := users, otps := t.otps - {c.id});
      assert v == SignIn(t2, s, id, now);
      assert id in t.users && t.users[id].email == e;
      assert v.after.users[id] == t.users[id].(isVerified := true, updatedAt := now);
      Tokens.AccessTokenLifetime(s, id, now, now);
      Tokens.RefreshTokenLifetime(s, v.after.refreshTokens, id, now, now);
      assert v.reply.value.refresh in v.after.refreshTokens;
    }
  }

  // ------------------------------------------------------------------ login

  /** `login` (with either lookup): an unknown identifier and a wrong password give the same
      401; an unverified account gives 403 whatever the password; only a verified account
      with its password signs in, for the user that was found; no failure changes a table. */
  lemma LoginOrder(t: Db.Tables, s: Settings.Config, q: Db.UserQuery, password: string, now: int)
    ensures var o := LoginWith(t, s, q, password, now);
      var f := Db.FindUser(t.users, t.nextUserId, q);
      && (f.None? ==> o == Outcome(t, Err(BadCredentials), None))
      && (f.Some? && !t.users[f.value].isVerified ==> o == Outcome(t, Err(Unverified), None))
      && (o.reply.Ok? <==>
            f.Some? && t.users[f.value].isVerified && PasswordMatches(password, s.passwordPepper, t.users[f.value].passwordHash))
      && (o.reply.Ok? ==>
            o.reply.value.SignedIn? && o.reply.value.refresh in o.after.refreshTokens
            && o.after.refreshTokens[o.reply.value.refresh].userId == f.value)
      && (o.reply.Err? ==> o.after == t)
  {
  }

  /** With the stored e-mail and username folded like the identifier, a verified user signs
      in with the password and the username or e-mail typed in any letter case and with
      surrounding spaces, unless an older account folds to the same text. */
  lemma LoginFindsAnyCase(t: Db.Tables, s: Settings.Config, identifier: string, password: string, now: int, id: int)
    requires Db.IdsBelow(t.users, t.nextUserId)
    requires id in t.users && t.users[id].isVerified
    requires PasswordMatches(password, s.passwordPepper, t.users[id].passwordHash)
    requires LoginKey(identifier) == Text.Lower(t.users[id].username) || LoginKey(identifier) == Text.Lower(t.users[id].email)
    requires forall j :: j in t.users && j < id ==> Text.Lower(t.users[j].username) != LoginKey(identifier) && Text.Lower(t.users[j].email) != LoginKey(identifier)
    ensures LoginOutcome(t, s, identifier, password, now).reply ==
      Ok(SignedIn(Tokens.MakeAccessToken(s, id, now), Tokens.MakeRefreshToken(s, id, now)))
  {
    var q := Db.ByLogin(LoginKey(identifier));
    assert Db.UserMatches(id, t.users[id], q);
  }

  /** The table of the counterexample: one verified account whose username holds a
      capital letter outside ASCII. */
  function NanduTables(s: Settings.Config): Db.Tables {
    var user := Db.User("nandu@example.com", "Ñandú", Db.Bcrypt("contraseña" + s.passwordPepper), "", None, true, 0, 0);
    Db.Tables(map[1 := user], 2, map[], 1, map[], map[], 1, map[], 1, map[], 1, 0)
  }

  /** The identifier `Ñandú` is looked up as `ñandú`. */
  lemma NanduKey()
    ensures LoginKey("Ñandú") == "ñandú" && Text.Lower("Ñandú") == "ñandú"
  {
    Text.TrimOfTrimmed(Text.Py, "Ñandú");
    Text.LowerAt("Ñandú");
  }

  /** SQLite's `lower()` leaves `Ñandú` with its capital, so the ASCII lookup finds no one. */
  lemma NanduAsciiMiss(s: Settings.Config)
    ensures Db.FindUser(NanduTables(s).users, 2, Db.ByLoginAscii("ñandú")) == None
  {
    assert Text.LowerAscii("Ñandú")[0] == 'Ñ';
    assert !Db.UserMatches(1, NanduTables(s).users[1], Db.ByLoginAscii("ñandú"));
  }

  /** As written, the user `Ñandú` can never sign in by username, even typing it exactly:
      Python lower-cases the identifier to `ñandú`, SQLite leaves the stored `Ñ` alone. */
  lemma LoginAsciiCounterexample(s: Settings.Config, now: int)
    ensures LoginAsWritten(NanduTables(s), s, "Ñandú", "contraseña", now).reply == Err(BadCredentials)
    ensures LoginOutcome(NanduTables(s), s, "Ñandú", "contraseña", now).reply ==
      Ok(SignedIn(Tokens.MakeAccessToken(s, 1, now), Tokens.MakeRefreshToken(s, 1, now)))
  {
    var t := NanduTables(s);
    NanduKey();
    NanduAsciiMiss(s);
    assert Db.IdsBelow(t.users, t.nextUserId);
    assert PasswordMatches("contraseña", s.passwordPepper, t.users[1].passwordHash);
    LoginFindsAnyCase(t, s, "Ñandú", "contraseña", now, 1);
  }

  // ------------------------------------------------------------------ refresh

  /** As written, a refresh token refreshed in the second it was made is re-issued
      byte for byte: the handler revokes it and stores it again, so it still refreshes. */
  lemma RefreshAsWrittenReplays(t: Db.Tables, s: Settings.Config, userId: int, now: int)
    requires s.refreshTokenDays > 0
    requires Tokens.MakeRefreshToken(s, userId, now) in t.refreshTokens
    ensures var token := Tokens.MakeRefreshToken(s, userId, now);
      var o := RefreshAsWritten(t, s, token, now);
      && o.reply.Ok? && o.reply.value.refresh == token
      && Tokens.VerifyRefresh(s, o.after.refreshTokens, token, now) == Ok(userId)
  {
    var token := Tokens.MakeRefreshToken(s, userId, now);
    Tokens.RefreshTokenLifetime(s, t.refreshTokens, userId, now, now);
    var o := RefreshAsWritten(t, s, token, now);
    Tokens.RefreshTokenLifetime(s, o.after.refreshTokens, userId, now, now);
  }

  /** With a rotation id in every new refresh token, a refreshed token is gone for good and
      the new one differs from it: the presented token never refreshes again, while the new
      one refreshes for the same user. A failed refresh changes nothing. */
  lemma RefreshRotates(t: Db.Tables, s: Settings.Config, token: Db.Token, now: int, later: int)
    requires Db.Consistent(t)
    ensures var o := RefreshOutcome(t, s, token, now);
      && (o.reply.Err? ==> o.after == t && o.reply.error == Tokens.VerifyRefresh(s, t.refreshTokens, token, now).error)
      && (o.reply.Ok? ==>
            && o.reply.value.SignedIn?
            && o.reply.value.refresh != token
            && token !in o.after.refreshTokens
            && Tokens.VerifyRefresh(s, o.after.refreshTokens, token, later).Err?
            && (now < now + s.refreshTokenDays * 86400 ==>
                  Tokens.VerifyRefresh(s, o.after.refreshTokens, o.reply.value.refresh, now) == Tokens.VerifyRefresh(s, t.refreshTokens, token, now)))
  {
    var o := RefreshOutcome(t, s, token, now);
    if o.reply.Ok? {
      var userId := Tokens.VerifyRefresh(s, t.refreshTokens, token, now).value;
      assert Db.Stored(token, t.issued);
      var rotated := RotatedToken(s, userId, now, t.issued);
      assert rotated.claims.jti == Some(t.issued);
      Decimal.IntRoundTrip(userId);
    }
  }

  // ------------------------------------------------------------------ resend, forgot, reset

  /** `resend_verification`: nothing for an unknown e-mail, a note and nothing else for a
      verified account, a fresh code otherwise. */
  lemma ResendCases(t: Db.Tables, s: Settings.Config, email: string, draw: nat, now: int, mailFails: bool)
    requires Db.Consistent(t) && draw < Otp.CodeSpace
    ensures var o := ResendOutcome(t, s, email, draw, now, mailFails);
      var e := Text.Lower(email);
      && ((forall id :: id in t.users ==> t.users[id].email != e) ==> o == Outcome(t, Ok(Done), None))
      && ((exists id :: id in t.users && t.users[id].email == e && t.users[id].isVerified) ==>
            o == Outcome(t, Ok(Note(AlreadyVerifiedMessage)), None))
      && ((exists id :: id in t.users && t.users[id].email == e && !t.users[id].isVerified) ==>
            o == IssueCode(t, s, email, Otp.VerifyPurpose, draw, now, mailFails, Done))
  {
    Db.FindByEmailUnique(t.users, t.nextUserId, Text.Lower(email));
  }

  /** `forgot` answers the same for a registered and an unknown e-mail (unless the mail
      service fails), so the answer does not tell whether an account exists; only a
      registered e-mail gets a reset code. */
  lemma ForgotHidesAccounts(t: Db.Tables, s: Settings.Config, email: string, draw: nat, now: int)
    requires Db.Consistent(t) && draw < Otp.CodeSpace
    ensures var o := ForgotOutcome(t, s, email, draw, now, false);
      var e := Text.Lower(email);
      && o.reply == Ok(Done)
      && ((forall id :: id in t.users ==> t.users[id].email != e) ==> o == Outcome(t, Ok(Done), None))
      && ((exists id :: id in t.users && t.users[id].email == e) ==>
            o == IssueCode(t, s, email, Otp.ResetPurpose, draw, now, false, Done))
  {
    Db.FindByEmailUnique(t.users, t.nextUserId, Text.Lower(email));
  }

  /** A successful reset sets the new password of the account with the e-mail and changes
      no other field and no other user; its refresh tokens are left in place. The code used
      is deleted, and the new password then passes the login check. */
  lemma ResetReplacesPassword(t: Db.Tables, s: Settings.Config, email: string, code: string, newPassword: string, now: int)
    ensures var o := ResetOutcome(t, s, email, code, newPassword, now);
      o.reply.Ok? ==>
        var latest := Db.LatestOtp(t.otps, Text.Lower(email), Otp.ResetPurpose, t.nextOtpId);
        && latest.Some? && latest.value !in o.after.otps
        && Otp.CodeHash(email, Otp.ResetPurpose, code, s.passwordPepper) == t.otps[latest.value].codeHash
        && o.after.users.Keys == t.users.Keys
        && o.after.refreshTokens == t.refreshTokens
        && (forall id :: id in t.users && t.users[id].email == Text.Lower(email) ==>
              o.after.users[id] == t.users[id].(passwordHash := Db.Bcrypt(newPassword + s.passwordPepper), updatedAt := now)
              && PasswordMatches(newPassword, s.passwordPepper, o.after.users[id].passwordHash))
        && (forall id :: id in t.users && t.users[id].email != Text.Lower(email) ==> o.after.users[id] == t.users[id])
  {
  }
}
