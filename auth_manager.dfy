/** The credential store: the Users table and the operations of `AuthManager`.
    The password digest (SHA-256, hex-encoded) is the store's `digest` function, about
    which nothing is assumed: every property below holds for any digest. */
module AuthStore {
  import opened Common

  const RoleAdmin: string := "admin"
  const RoleUser: string := "user"

  const MsgUserExists: string := "Пользователь с таким логином уже существует"
  const MsgRegistered: string := "Пользователь успешно зарегистрирован"
  /** The register error for a role the CHECK constraint refuses: the source's prefix
      followed by the text of the `sqlite3.IntegrityError`. That text is SQLite's own wording
      for a failed unnamed CHECK, which depends on the SQLite library version; this is the
      wording of current versions. */
  const MsgRoleRefused: string := "Ошибка регистрации: CHECK constraint failed: UserType IN ('admin', 'user')"
  const MsgWrongPassword: string := "Неверный текущий пароль"
  const MsgPasswordChanged: string := "Пароль успешно изменен"

  /** The column constraint CHECK (UserType IN ('admin', 'user')). */
  predicate ValidRole(role: string)
  {
    role == RoleAdmin || role == RoleUser
  }

  /** One row of Users; CreatedDate (a clock value) is not modelled. */
  datatype UserRow = UserRow(
    id: nat,
    username: string,
    passwordHash: string,
    role: string,
    fullName: string,
    email: string,
    active: bool)

  /** The dictionary `get_user_info` returns, without its created_date. */
  datatype UserInfo = UserInfo(userId: nat, username: string, role: string, fullName: string, email: string)

  function InfoOf(u: UserRow): UserInfo
  {
    UserInfo(u.id, u.username, u.role, u.fullName, u.email)
  }

  /** The constraints of the Users schema: UNIQUE Username, the role CHECK, and
      AUTOINCREMENT ids, ascending in table order and never above the counter. */
  predicate TableValid(users: seq<UserRow>, lastId: nat)
  {
    && (forall i, j :: 0 <= i < j < |users| ==> users[i].username != users[j].username && users[i].id < users[j].id)
    && (forall i :: 0 <= i < |users| ==> ValidRole(users[i].role) && 1 <= users[i].id <= lastId)
  }

  /** The WHERE clause of `authenticate_user`. */
  predicate LoginMatches(u: UserRow, digest: string -> string, username: string, password: string, role: string)
  {
    u.username == username && u.passwordHash == digest(password) && u.role == role && u.active
  }

  /** `user_exists`: some row carries this exact (case-sensitive) username. */
  function UserExists(users: seq<UserRow>, username: string): (b: bool)
    ensures b <==> exists i :: 0 <= i < |users| && users[i].username == username
  {
    FirstIndex(users, (u: UserRow) => u.username == username).Some?
  }

  /** `authenticate_user`: true iff an active row has this username, the digest of this
      password and this role. */
  function Authenticate(users: seq<UserRow>, digest: string -> string, username: string, password: string, role: string): (ok: bool)
    ensures ok <==> exists i :: 0 <= i < |users| && LoginMatches(users[i], digest, username, password, role)
  {
    FirstIndex(users, (u: UserRow) => LoginMatches(u, digest, username, password, role)).Some?
  }

  /** `get_user_info`: the first active row with this username, or None. */
  function GetUserInfo(users: seq<UserRow>, username: string): (r: Option<UserInfo>)
    ensures r.None? <==> forall i :: 0 <= i < |users| ==> !(users[i].username == username && users[i].active)
    ensures r.Some? ==> exists i :: 0 <= i < |users| && users[i].username == username && users[i].active && r.value == InfoOf(users[i])
  {
    match FirstIndex(users, (u: UserRow) => u.username == username && u.active)
    case None => None
    case Some(i) => Some(InfoOf(users[i]))
  }

  /** The first check of `change_password`: an active row with this username whose
      stored hash is the digest of the old password. */
  function OldPasswordAccepted(users: seq<UserRow>, digest: string -> string, username: string, oldPassword: string): (ok: bool)
    ensures ok <==> exists i :: 0 <= i < |users| && users[i].username == username && users[i].active && users[i].passwordHash == digest(oldPassword)
  {
    FirstIndex(users, (u: UserRow) => u.username == username && u.active && u.passwordHash == digest(oldPassword)).Some?
  }

  /** UPDATE Users SET IsActive = flag WHERE Username = username. */
  function SetActive(users: seq<UserRow>, username: string, active: bool): (r: seq<UserRow>)
    ensures |r| == |users|
    ensures forall i :: 0 <= i < |users| ==> r[i].(active := users[i].active) == users[i]
    ensures forall i :: 0 <= i < |users| ==> r[i].active == if users[i].username == username then active else users[i].active
  {
    seq(|users|, i requires 0 <= i < |users| =>
      if users[i].username == username then users[i].(active := active) else users[i])
  }

  /** UPDATE Users SET Password = hash WHERE Username = username AND IsActive = 1. */
  function SetPassword(users: seq<UserRow>, username: string, hash: string): (r: seq<UserRow>)
    ensures |r| == |users|
    ensures forall i :: 0 <= i < |users| ==> r[i].(passwordHash := users[i].passwordHash) == users[i]
    ensures forall i :: 0 <= i < |users| ==>
      r[i].passwordHash == if users[i].username == username && users[i].active then hash else users[i].passwordHash
  {
    seq(|users|, i requires 0 <= i < |users| =>
      if users[i].username == username && users[i].active then users[i].(passwordHash := hash) else users[i])
  }

  /** The two accounts `create_default_users` inserts into an empty table. */
  function DefaultRows(digest: string -> string, lastId: nat): seq<UserRow>
  {
    [ UserRow(lastId + 1, "admin", digest("admin123"), RoleAdmin, "Администратор системы", "admin@masterpol.ru", true),
      UserRow(lastId + 2, "user", digest("user123"), RoleUser, "Пользователь системы", "user@masterpol.ru", true) ]
  }

  /** The table after `create_default_users`: seeded only when it was empty. */
  function Seeded(users: seq<UserRow>, digest: string -> string, lastId: nat): seq<UserRow>
  {
    if users == [] then DefaultRows(digest, lastId) else users
  }

  class AuthManager {
    const digest: string -> string
    var users: seq<UserRow>
    var lastUserId: nat

    ghost predicate Valid()
      reads this
    {
      TableValid(users, lastUserId)
    }

    /** Opens the store over the persisted table `stored` and runs `create_default_users`. */
    constructor (digest: string -> string, stored: seq<UserRow>, storedLastId: nat)
      requires TableValid(stored, storedLastId)
      ensures Valid() && this.digest == digest
      ensures users == Seeded(stored, digest, storedLastId)
      ensures lastUserId == if stored == [] then storedLastId + 2 else storedLastId
    {
      this.digest := digest;
      users := stored;
      lastUserId := storedLastId;
      new;
      var _ := CreateDefaultUsers();
    }

    method CreateDefaultUsers() returns (ok: bool)
      requires Valid()
      modifies this
      ensures Valid() && ok
      ensures users == Seeded(old(users), digest, old(lastUserId))
      ensures lastUserId == if old(users) == [] then old(lastUserId) + 2 else old(lastUserId)
    {
      if |users| == 0 {
        users := DefaultRows(digest, lastUserId);
        lastUserId := lastUserId + 2;
      }
      ok := true;
    }

    method RegisterUser(username: string, password: string, role: string, fullName: string, email: string)
      returns (ok: bool, message: string)
      requires Valid()
      modifies this
      ensures Valid()
      ensures UserExists(old(users), username) ==>
        !ok && message == MsgUserExists && users == old(users) && lastUserId == old(lastUserId)
      ensures !UserExists(old(users), username) && !ValidRole(role) ==>
        !ok && message == MsgRoleRefused && users == old(users) && lastUserId == old(lastUserId)
      ensures !UserExists(old(users), username) && ValidRole(role) ==>
        && ok && message == MsgRegistered
        && lastUserId == old(lastUserId) + 1
        && users == old(users) + [UserRow(lastUserId, username, digest(password), role, fullName, email, true)]
    {
      if UserExists(users, username) {
        return false, MsgUserExists;
      }
      if !ValidRole(role) {
        return false, MsgRoleRefused;
      }
      lastUserId := lastUserId + 1;
      users := users + [UserRow(lastUserId, username, digest(password), role, fullName, email, true)];
      ok, message := true, MsgRegistered;
    }

    method ChangePassword(username: string, oldPassword: string, newPassword: string)
      returns (ok: bool, message: string)
      requires Valid()
      modifies this
      ensures Valid() && lastUserId == old(lastUserId)
      ensures ok == OldPasswordAccepted(old(users), digest, username, oldPassword)
      ensures !ok ==> message == MsgWrongPassword && users == old(users)
      ensures ok ==> message == MsgPasswordChanged && users == SetPassword(old(users), username, digest(newPassword))
    {
      if !OldPasswordAccepted(users, digest, username, oldPassword) {
        return false, MsgWrongPassword;
      }
      users := SetPassword(users, username, digest(newPassword));
      ok, message := true, MsgPasswordChanged;
    }

    method DeactivateUser(username: string) returns (ok: bool)
      requires Valid()
      modifies this
      ensures Valid() && lastUserId == old(lastUserId)
      ensures ok == UserExists(old(users), username)
      ensures users == SetActive(old(users), username, false)
    {
      ok := UserExists(users, username);
      users := SetActive(users, username, false);
    }

    method ActivateUser(username: string) returns (ok: bool)
      requires Valid()
      modifies this
      ensures Valid() && lastUserId == old(lastUserId)
      ensures ok == UserExists(old(users), username)
      ensures users == SetActive(old(users), username, true)
    {
      ok := UserExists(users, username);
      users := SetActive(users, username, true);
    }
  }

  /** After a successful registration the new account exists and logs in with the
      password and role it was registered with. */
  lemma RegisteredUserLogsIn(users: seq<UserRow>, digest: string -> string, id: nat,
                             username: string, password: string, role: string, fullName: string, email: string)
    ensures var after := users + [UserRow(id, username, digest(password), role, fullName, email, true)];
      UserExists(after, username) && Authenticate(after, digest, username, password, role)
      && GetUserInfo(after, username).Some?
  {
    var after := users + [UserRow(id, username, digest(password), role, fullName, email, true)];
    assert LoginMatches(after[|users|], digest, username, password, role);
  }

  /** Registering appends one row; every other account's login is unaffected. */
  lemma RegisterKeepsOtherLogins(users: seq<UserRow>, digest: string -> string, row: UserRow,
                                 username: string, password: string, role: string)
    requires username != row.username
    ensures Authenticate(users + [row], digest, username, password, role) == Authenticate(users, digest, username, password, role)
  {
    var after := users + [row];
    if Authenticate(after, digest, username, password, role) {
      var i :| 0 <= i < |after| && LoginMatches(after[i], digest, username, password, role);
      assert i < |users| && after[i] == users[i];
    }
    if Authenticate(users, digest, username, password, role) {
      var i :| 0 <= i < |users| && LoginMatches(users[i], digest, username, password, role);
      assert after[i] == users[i];
    }
  }

  /** A deactivated account can neither log in nor be looked up, whatever password or role is tried. */
  lemma DeactivatedUserLockedOut(users: seq<UserRow>, digest: string -> string, username: string, password: string, role: string)
    ensures !Authenticate(SetActive(users, username, false), digest, username, password, role)
    ensures GetUserInfo(SetActive(users, username, false), username).None?
  {
  }

  /** Setting the flag only affects the named account's logins. */
  lemma SetActiveKeepsOtherLogins(users: seq<UserRow>, digest: string -> string, username: string, active: bool,
                                  other: string, password: string, role: string)
    requires other != username
    ensures Authenticate(SetActive(users, username, active), digest, other, password, role)
         == Authenticate(users, digest, other, password, role)
  {
    var after := SetActive(users, username, active);
    if Authenticate(users, digest, other, password, role) {
      var i :| 0 <= i < |users| && LoginMatches(users[i], digest, other, password, role);
      assert LoginMatches(after[i], digest, other, password, role);
    }
    if Authenticate(after, digest, other, password, role) {
      var i :| 0 <= i < |after| && LoginMatches(after[i], digest, other, password, role);
      assert LoginMatches(users[i], digest, other, password, role);
    }
  }

  /** Deactivating (or activating) twice is the same as doing it once. */
  lemma SetActiveIdempotent(users: seq<UserRow>, username: string, active: bool)
    ensures SetActive(SetActive(users, username, active), username, active) == SetActive(users, username, active)
  {
  }

  /** Activation undoes deactivation of an account that was active. */
  lemma ActivateUndoesDeactivate(users: seq<UserRow>, username: string)
    requires forall i :: 0 <= i < |users| && users[i].username == username ==> users[i].active
    ensures SetActive(SetActive(users, username, false), username, true) == users
  {
    var round := SetActive(SetActive(users, username, false), username, true);
    assert forall i :: 0 <= i < |users| ==> round[i] == users[i];
  }

  /** After a password change the account logs in with the new password and its own role,
      and no longer with the old one unless both have the same digest. */
  lemma ChangedPasswordLogsIn(users: seq<UserRow>, digest: string -> string,
                              username: string, oldPassword: string, newPassword: string, role: string)
    requires OldPasswordAccepted(users, digest, username, oldPassword)
    ensures var after := SetPassword(users, username, digest(newPassword));
      (Authenticate(users, digest, username, oldPassword, role) ==> Authenticate(after, digest, username, newPassword, role))
      && (digest(oldPassword) != digest(newPassword) ==> !Authenticate(after, digest, username, oldPassword, role))
  {
    var after := SetPassword(users, username, digest(newPassword));
    if Authenticate(users, digest, username, oldPassword, role) {
      var i :| 0 <= i < |users| && LoginMatches(users[i], digest, username, oldPassword, role);
      assert LoginMatches(after[i], digest, username, newPassword, role);
    }
  }

  /** A password change leaves every other account's login as it was. */
  lemma ChangePasswordKeepsOtherLogins(users: seq<UserRow>, digest: string -> string, username: string, hash: string,
                                       other: string, password: string, role: string)
    requires other != username
    ensures Authenticate(SetPassword(users, username, hash), digest, other, password, role)
         == Authenticate(users, digest, other, password, role)
  {
    var after := SetPassword(users, username, hash);
    if Authenticate(users, digest, other, password, role) {
      var i :| 0 <= i < |users| && LoginMatches(users[i], digest, other, password, role);
      assert LoginMatches(after[i], digest, other, password, role);
    }
    if Authenticate(after, digest, other, password, role) {
      var i :| 0 <= i < |after| && LoginMatches(after[i], digest, other, password, role);
      assert LoginMatches(users[i], digest, other, password, role);
    }
  }

  /** Seeding is idempotent: a second `create_default_users` changes nothing. */
  lemma SeedingIdempotent(users: seq<UserRow>, digest: string -> string, lastId: nat)
    ensures var once := Seeded(users, digest, lastId);
      var lastAfter := if users == [] then lastId + 2 else lastId;
      Seeded(once, digest, lastAfter) == once
  {
  }

  /** On a fresh table the two default accounts log in with their well-known passwords
      and only with their own role. */
  lemma DefaultAccountsLogIn(digest: string -> string, lastId: nat)
    ensures var seeded := Seeded([], digest, lastId);
      && Authenticate(seeded, digest, "admin", "admin123", RoleAdmin)
      && Authenticate(seeded, digest, "user", "user123", RoleUser)
      && !Authenticate(seeded, digest, "admin", "admin123", RoleUser)
      && !Authenticate(seeded, digest, "user", "user123", RoleAdmin)
  {
    var seeded := Seeded([], digest, lastId);
    assert LoginMatches(seeded[0], digest, "admin", "admin123", RoleAdmin);
    assert LoginMatches(seeded[1], digest, "user", "user123", RoleUser);
  }
}
