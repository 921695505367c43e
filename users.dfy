/** The profile endpoints of the server (`users.py`): reading the signed-in user's
    profile, updating its username, bio and avatar, and changing its password. The user id
    is the one the bearer token names; writing the avatar file is recorded as the path
    written. */
module Users {
  import opened Wrappers
  import Text
  import Decimal
  import Db
  import Http
  import Settings
  import Files
  import Auth

  const UserNotFound: Http.Failure := Http.Failure(404, "Usuario no encontrado.")
  const UsernameInUse: Http.Failure := Http.Failure(400, "Username ya está en uso.")
  const AvatarTooLarge: Http.Failure := Http.Failure(413, "Avatar demasiado grande (máx 8MB).")
  const WrongPassword: Http.Failure := Http.Failure(400, "Contraseña actual incorrecta.")

  /** The largest avatar accepted, in bytes (8 MiB). */
  const MaxAvatarBytes: nat := 8 * 1024 * 1024
  /** The name used for an avatar uploaded without a file name. */
  const DefaultAvatarName: string := "avatar.jpg"
  /** The length bounds of `ChangePasswordIn.new_password`. */
  const MinPassword: nat := 8
  const MaxPassword: nat := 128

  // ------------------------------------------------------------------ me

  datatype MeOut = MeOut(id: int, email: string, username: string, bio: string, avatarUrl: Option<string>, isVerified: bool)

  /** `{PUBLIC_BASE_URL}/uploads/avatars/<basename>`, when the stored path is not empty. */
  function AvatarUrl(base: string, path: Option<string>): Option<string> {
    if Text.Truthy(path) then Some(base + "/uploads/avatars/" + Text.Basename(path.value)) else None
  }

  /** `me`. */
  function MeOutcome(t: Db.Tables, s: Settings.Config, userId: int): Result<MeOut, Http.Failure> {
    if userId !in t.users then Err(UserNotFound)
    else
      var u := t.users[userId];
      Ok(MeOut(userId, u.email, u.username, u.bio, AvatarUrl(s.publicBaseUrl, u.avatarPath), u.isVerified))
  }

  method Me(db: Db.Database, s: Settings.Config, userId: int) returns (r: Result<MeOut, Http.Failure>)
    ensures r == MeOutcome(db.Snapshot(), s, userId)
  {
    if userId !in db.users {
      return Err(UserNotFound);
    }
    var u := db.users[userId];
    var url: Option<string> := None;
    if u.avatarPath.Some? && u.avatarPath.value != "" {
      url := Some(s.publicBaseUrl + "/uploads/avatars/" + Text.Basename(u.avatarPath.value));
    }
    return Ok(MeOut(userId, u.email, u.username, u.bio, url, u.isVerified));
  }

  // ------------------------------------------------------------------ update_me

  /** `unique_filename(f"avatar_{user_id}", avatar.filename or "avatar.jpg")`. */
  function AvatarName(userId: int, avatar: Http.Upload, now: int): string {
    var original := if Text.Truthy(avatar.filename) then avatar.filename.value else DefaultAvatarName;
    Files.UniqueFilename("avatar_" + Decimal.IntToString(userId), Some(original), now)
  }

  /** `os.path.join(upload_dir, "avatars", fname)`. */
  function AvatarPath(uploadDir: string, name: string): string {
    Text.PathJoin(Text.PathJoin(uploadDir, "avatars"), name)
  }

  /** The one `UPDATE` of all three columns. */
  function Combined(u: Db.User, username: string, bio: string, path: string, now: int): Db.User {
    u.(username := username, bio := bio, avatarPath := Some(path), updatedAt := now)
  }

  /** The separate `UPDATE`s of the columns that came, each also setting `updated_at`. */
  function Separate(u: Db.User, username: Option<string>, bio: Option<string>, path: Option<string>, now: int): Db.User {
    var u1 := if username.Some? then u.(username := username.value, updatedAt := now) else u;
    var u2 := if bio.Some? then u1.(bio := bio.value, updatedAt := now) else u1;
    if path.Some? then u2.(avatarPath := path, updatedAt := now) else u2
  }

  /** The row after the updates: the combined statement when all three came. */
  function Updated(u: Db.User, username: Option<string>, bio: Option<string>, path: Option<string>, now: int): Db.User {
    if username.Some? && bio.Some? && path.Some? then Combined(u, username.value, bio.value, path.value, now)
    else Separate(u, username, bio, path, now)
  }

  datatype UpdateResult = UpdateResult(after: Db.Tables, reply: Result<(), Http.Failure>, written: Option<string>)

  /** `update_me`: a username taken by another user is refused, then an avatar over 8 MiB;
      otherwise the avatar is written and the columns that came are updated. The updates
      match no row when the user is gone, and the answer is still `{"ok": true}`. */
  function UpdateOutcome(t: Db.Tables, s: Settings.Config, userId: int, rawUsername: Option<string>, rawBio: Option<string>,
                         avatar: Option<Http.Upload>, now: int): UpdateResult {
    var username := Http.FormField(rawUsername);
    var bio := Http.FormField(rawBio);
    if Text.Truthy(username) && Db.FindUser(t.users, t.nextUserId, Db.ByUsernameExcept(username.value, userId)).Some? then
      UpdateResult(t, Err(UsernameInUse), None)
    else if avatar.Some? && avatar.value.size > MaxAvatarBytes then UpdateResult(t, Err(AvatarTooLarge), None)
    else
      var path := if avatar.Some? then Some(AvatarPath(s.uploadDir, AvatarName(userId, avatar.value, now))) else None;
      var users := if userId in t.users then t.users[userId := Updated(t.users[userId], username, bio, path, now)] else t.users;
      UpdateResult(t.(users := users), Ok(()), path)
  }

  method UpdateMe(db: Db.Database, s: Settings.Config, userId: int, rawUsername: Option<string>, rawBio: Option<string>,
                  avatar: Option<Http.Upload>, now: int) returns (reply: Result<(), Http.Failure>, written: Option<string>)
    modifies db
    ensures UpdateResult(db.Snapshot(), reply, written)
         == UpdateOutcome(old(db.Snapshot()), s, userId, rawUsername, rawBio, avatar, now)
  {
    var username := Http.FormField(rawUsername);
    var bio := Http.FormField(rawBio);
    if username.Some? && username.value != "" {
      var other := Db.FindUser(db.users, db.nextUserId, Db.ByUsernameExcept(username.value, userId));
      if other.Some? {
        return Err(UsernameInUse), None;
      }
    }
    var path: Option<string> := None;
    if avatar.Some? {
      if avatar.value.size > MaxAvatarBytes {
        return Err(AvatarTooLarge), None;
      }
      path := Some(AvatarPath(s.uploadDir, AvatarName(userId, avatar.value, now)));
    }
    if userId in db.users {
      var u := db.users[userId];
      if username.Some? && bio.Some? && path.Some? {
        u := Combined(u, username.value, bio.value, path.value, now);
      } else {
        if username.Some? {
          u := u.(username := username.value, updatedAt := now);
        }
        if bio.Some? {
          u := u.(bio := bio.value, updatedAt := now);
        }
        if path.Some? {
          u := u.(avatarPath := path, updatedAt := now);
        }
      }
      db.users := db.users[userId := u];
    }
    return Ok(()), path;
  }

  // ------------------------------------------------------------------ change_password

  datatype ChangeResult = ChangeResult(after: Db.Tables, reply: Result<(), Http.Failure>)

  /** `change_password`: the body's length rule first (a 422), then the user, then the
      current password; the new password is stored as the bcrypt hash of it and the pepper. */
  function ChangeOutcome(t: Db.Tables, s: Settings.Config, userId: int, current: string, newPassword: string, now: int): ChangeResult {
    if !(MinPassword <= |newPassword| <= MaxPassword) then ChangeResult(t, Err(Http.Unprocessable))
    else if userId !in t.users then ChangeResult(t, Err(UserNotFound))
    else if !Auth.PasswordMatches(current, s.passwordPepper, t.users[userId].passwordHash) then ChangeResult(t, Err(WrongPassword))
    else
      var u := t.users[userId].(passwordHash := Db.Bcrypt(newPassword + s.passwordPepper), updatedAt := now);
      ChangeResult(t.(users := t.users[userId := u]), Ok(()))
  }

  method ChangePassword(db: Db.Database, s: Settings.Config, userId: int, current: string, newPassword: string, now: int)
    returns (reply: Result<(), Http.Failure>)
    modifies db
    ensures ChangeResult(db.Snapshot(), reply) == ChangeOutcome(old(db.Snapshot()), s, userId, current, newPassword, now)
  {
    if |newPassword| < MinPassword || |newPassword| > MaxPassword {
      return Err(Http.Unprocessable);
    }
    if userId !in db.users {
      return Err(UserNotFound);
    }
    if db.users[userId].passwordHash != Db.Bcrypt(current + s.passwordPepper) {
      return Err(WrongPassword);
    }
    db.users := db.users[userId := db.users[userId].(passwordHash := Db.Bcrypt(newPassword + s.passwordPepper), updatedAt := now)];
    return Ok(());
  }

  // ------------------------------------------------------------------ properties: me

  /** `me` answers 404 exactly for a missing user, and otherwise the stored profile, with
      an avatar URL exactly when an avatar path is stored; the URL ends in a plain file name. */
  lemma MeContents(t: Db.Tables, s: Settings.Config, userId: int)
    ensures MeOutcome(t, s, userId).Err? <==> userId !in t.users
    ensures MeOutcome(t, s, userId).Err? ==> MeOutcome(t, s, userId).error == UserNotFound
    ensures userId in t.users ==>
      var u, o := t.users[userId], MeOutcome(t, s, userId).value;
      && o.id == userId && o.email == u.email && o.username == u.username && o.bio == u.bio && o.isVerified == u.isVerified
      && (o.avatarUrl.Some? <==> Text.Truthy(u.avatarPath))
      && (o.avatarUrl.Some? ==> exists name :: '/' !in name && o.avatarUrl.value == s.publicBaseUrl + "/uploads/avatars/" + name)
  {
    if userId in t.users && Text.Truthy(t.users[userId].avatarPath) {
      var name := Text.Basename(t.users[userId].avatarPath.value);
      assert MeOutcome(t, s, userId).value.avatarUrl.value == s.publicBaseUrl + "/uploads/avatars/" + name;
    }
  }

  // ------------------------------------------------------------------ properties: update_me

  /** The single statement and the three separate ones leave the row alike. */
  lemma CombinedEqualsSeparate(u: Db.User, username: string, bio: string, path: string, now: int)
    ensures Combined(u, username, bio, path, now) == Separate(u, Some(username), Some(bio), Some(path), now)
  {
  }

  /** A username held by another user is refused first, an avatar over 8 MiB next; these are
      the only refusals, and a refusal changes nothing and writes no file. */
  lemma UpdateGuards(t: Db.Tables, s: Settings.Config, userId: int, rawUsername: Option<string>, rawBio: Option<string>,
                     avatar: Option<Http.Upload>, now: int)
    requires Db.Consistent(t)
    ensures var r := UpdateOutcome(t, s, userId, rawUsername, rawBio, avatar, now);
      r.reply == Err(UsernameInUse) <==>
        Text.Truthy(rawUsername) && exists j :: j in t.users && j != userId && t.users[j].username == rawUsername.value
    ensures var r := UpdateOutcome(t, s, userId, rawUsername, rawBio, avatar, now);
      r.reply == Err(AvatarTooLarge) <==>
        r.reply != Err(UsernameInUse) && avatar.Some? && avatar.value.size > MaxAvatarBytes
    ensures var r := UpdateOutcome(t, s, userId, rawUsername, rawBio, avatar, now);
      r.reply.Err? ==> (r.reply == Err(UsernameInUse) || r.reply == Err(AvatarTooLarge)) && r.after == t && r.written.None?
  {
    var username := Http.FormField(rawUsername);
    if Text.Truthy(username) {
      var q := Db.ByUsernameExcept(username.value, userId);
      var found := Db.FindUser(t.users, t.nextUserId, q);
      if found.Some? {
        assert Db.UserMatches(found.value, t.users[found.value], q);
      }
    }
  }

  /** An accepted update changes only the user's row: the username and the bio that came
      (non-empty), the avatar path when an avatar came, and `updated_at` exactly when one
      of them came; the e-mail, the password, the verification and the creation time stay. */
  lemma UpdateFields(t: Db.Tables, s: Settings.Config, userId: int, rawUsername: Option<string>, rawBio: Option<string>,
                     avatar: Option<Http.Upload>, now: int)
    ensures var r := UpdateOutcome(t, s, userId, rawUsername, rawBio, avatar, now);
      r.reply.Ok? ==>
        && r.after == t.(users := r.after.users)
        && r.after.users.Keys == t.users.Keys
        && (r.written.Some? <==> avatar.Some?)
        && (forall j :: j in t.users && j != userId ==> r.after.users[j] == t.users[j])
    ensures var r := UpdateOutcome(t, s, userId, rawUsername, rawBio, avatar, now);
      r.reply.Ok? && userId in t.users ==>
        var u, v := t.users[userId], r.after.users[userId];
        && v.username == (if Text.Truthy(rawUsername) then rawUsername.value else u.username)
        && v.bio == (if Text.Truthy(rawBio) then rawBio.value else u.bio)
        && v.avatarPath == (if avatar.Some? then r.written else u.avatarPath)
        && v.updatedAt == (if Text.Truthy(rawUsername) || Text.Truthy(rawBio) || avatar.Some? then now else u.updatedAt)
        && v.email == u.email && v.passwordHash == u.passwordHash && v.isVerified == u.isVerified && v.createdAt == u.createdAt
  {
  }

  /** The stored avatar path ends in the avatar's file name. */
  lemma AvatarPathBasename(uploadDir: string, userId: int, avatar: Http.Upload, now: int)
    ensures Text.Basename(AvatarPath(uploadDir, AvatarName(userId, avatar, now))) == AvatarName(userId, avatar, now)
    ensures AvatarName(userId, avatar, now) != ""
  {
    var prefix := "avatar_" + Decimal.IntToString(userId);
    Decimal.IntToStringNoSlash(userId);
    assert '/' !in prefix;
    Files.UniqueFilenameNoSlash(prefix, Some(if Text.Truthy(avatar.filename) then avatar.filename.value else DefaultAvatarName), now);
    Text.BasenameOfPathJoin(Text.PathJoin(uploadDir, "avatars"), AvatarName(userId, avatar, now));
  }

  /** The avatar stored by an update is the one `me` shows: its URL names the file written. */
  lemma AvatarShown(t: Db.Tables, s: Settings.Config, userId: int, rawUsername: Option<string>, rawBio: Option<string>,
                    avatar: Http.Upload, now: int)
    requires userId in t.users
    requires UpdateOutcome(t, s, userId, rawUsername, rawBio, Some(avatar), now).reply.Ok?
    ensures var r := UpdateOutcome(t, s, userId, rawUsername, rawBio, Some(avatar), now);
      && r.written == Some(AvatarPath(s.uploadDir, AvatarName(userId, avatar, now)))
      && MeOutcome(r.after, s, userId).Ok?
      && MeOutcome(r.after, s, userId).value.avatarUrl == Some(s.publicBaseUrl + "/uploads/avatars/" + AvatarName(userId, avatar, now))
  {
    var path := AvatarPath(s.uploadDir, AvatarName(userId, avatar, now));
    AvatarPathBasename(s.uploadDir, userId, avatar, now);
    assert path != "";
    UpdateFields(t, s, userId, rawUsername, rawBio, Some(avatar), now);
  }

  /** Updates keep the tables consistent: the new username was checked against every other user. */
  lemma UpdateConsistent(t: Db.Tables, s: Settings.Config, userId: int, rawUsername: Option<string>, rawBio: Option<string>,
                         avatar: Option<Http.Upload>, now: int)
    requires Db.Consistent(t)
    ensures Db.Consistent(UpdateOutcome(t, s, userId, rawUsername, rawBio, avatar, now).after)
  {
    var r := UpdateOutcome(t, s, userId, rawUsername, rawBio, avatar, now);
    if r.reply.Ok? && userId in t.users {
      UpdateGuards(t, s, userId, rawUsername, rawBio, avatar, now);
      UpdateFields(t, s, userId, rawUsername, rawBio, avatar, now);
      Db.RewriteUserUnique(t.users, userId, r.after.users[userId]);
      assert r.after.users == t.users[userId := r.after.users[userId]];
      Db.RowChangesConsistent(t, r.after.users, t.otps);
    }
  }

  // ------------------------------------------------------------------ properties: change_password

  /** Appending the same pepper to two passwords keeps them apart. */
  lemma PepperCancels(a: string, b: string, pepper: string)
    requires a + pepper == b + pepper
    ensures a == b
  {
    assert |a| == |b|;
    assert a == (a + pepper)[..|a|];
    assert b == (b + pepper)[..|b|];
  }

  /** The refusals in their order: a new password of the wrong length, a missing user, a
      wrong current password; a refusal changes nothing. */
  lemma ChangeGuards(t: Db.Tables, s: Settings.Config, userId: int, current: string, newPassword: string, now: int)
    ensures var r := ChangeOutcome(t, s, userId, current, newPassword, now);
      && (r.reply == Err(Http.Unprocessable) <==> |newPassword| < MinPassword || |newPassword| > MaxPassword)
      && (r.reply == Err(UserNotFound) <==> MinPassword <= |newPassword| <= MaxPassword && userId !in t.users)
      && (r.reply == Err(WrongPassword) <==>
            (MinPassword <= |newPassword| <= MaxPassword && userId in t.users
             && t.users[userId].passwordHash != Db.Bcrypt(current + s.passwordPepper)))
      && (r.reply.Err? ==> r.after == t)
  {
  }

  /** After a change, exactly the new password matches the stored hash, and only the
      user's hash and `updated_at` changed. */
  lemma ChangeTakesEffect(t: Db.Tables, s: Settings.Config, userId: int, current: string, newPassword: string, now: int, p: string)
    requires ChangeOutcome(t, s, userId, current, newPassword, now).reply.Ok?
    ensures var r := ChangeOutcome(t, s, userId, current, newPassword, now);
      && userId in r.after.users
      && (Auth.PasswordMatches(p, s.passwordPepper, r.after.users[userId].passwordHash) <==> p == newPassword)
      && r.after.users == t.users[userId := t.users[userId].(passwordHash := r.after.users[userId].passwordHash, updatedAt := now)]
      && r.after == t.(users := r.after.users)
  {
    var r := ChangeOutcome(t, s, userId, current, newPassword, now);
    if Auth.PasswordMatches(p, s.passwordPepper, r.after.users[userId].passwordHash) {
      PepperCancels(p, newPassword, s.passwordPepper);
    }
  }

  lemma ChangeConsistent(t: Db.Tables, s: Settings.Config, userId: int, current: string, newPassword: string, now: int)
    requires Db.Consistent(t)
    ensures Db.Consistent(ChangeOutcome(t, s, userId, current, newPassword, now).after)
  {
    var r := ChangeOutcome(t, s, userId, current, newPassword, now);
    if r.reply.Ok? {
      var u := t.users[userId].(passwordHash := Db.Bcrypt(newPassword + s.passwordPepper), updatedAt := now);
      Db.RewriteUserUnique(t.users, userId, u);
      Db.RowChangesConsistent(t, t.users[userId := u], t.otps);
    }
  }
}
