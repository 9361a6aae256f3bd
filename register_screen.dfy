/** The registration form: its field checks and the request it sends to the credential store. */
module RegisterScreen {
  import opened Common
  import AuthStore

  /** The texts of the form's widgets; `accessType` is the access-type combo's current text
      ("Пользователь" or "Администратор"). */
  datatype RegisterForm = RegisterForm(
    username: string,
    password: string,
    confirmPassword: string,
    fullName: string,
    email: string,
    accessType: string)

  /** The checks of `validate_fields`, in the order it makes them. */
  datatype RegisterCheck = LoginGiven | LoginLongEnough | PasswordGiven | PasswordLongEnough | PasswordsMatch | FullNameGiven

  function Rank(c: RegisterCheck): nat
  {
    match c
    case LoginGiven => 0
    case LoginLongEnough => 1
    case PasswordGiven => 2
    case PasswordLongEnough => 3
    case PasswordsMatch => 4
    case FullNameGiven => 5
  }

  /** What each check demands of the stripped field texts. */
  predicate Holds(f: RegisterForm, c: RegisterCheck)
  {
    match c
    case LoginGiven => Trim(f.username) != []
    case LoginLongEnough => |Trim(f.username)| >= 3
    case PasswordGiven => Trim(f.password) != []
    case PasswordLongEnough => |Trim(f.password)| >= 6
    case PasswordsMatch => Trim(f.password) == Trim(f.confirmPassword)
    case FullNameGiven => Trim(f.fullName) != []
  }

  /** The warning each failed check shows. */
  function Message(c: RegisterCheck): string
  {
    match c
    case LoginGiven => "Введите логин"
    case LoginLongEnough => "Логин должен содержать минимум 3 символа"
    case PasswordGiven => "Введите пароль"
    case PasswordLongEnough => "Пароль должен содержать минимум 6 символов"
    case PasswordsMatch => "Пароли не совпадают"
    case FullNameGiven => "Введите ФИО"
  }

  /** `validate_fields`: the form passes iff every check holds; otherwise the failure
      reported is the first failing check in source order. */
  function Validate(f: RegisterForm): (r: Outcome<RegisterCheck>)
    ensures r.Pass? ==> forall c :: Holds(f, c)
    ensures r.Fail? ==> !Holds(f, r.check) && forall c :: Rank(c) < Rank(r.check) ==> Holds(f, c)
  {
    var username := Trim(f.username);
    var password := Trim(f.password);
    var confirm := Trim(f.confirmPassword);
    var fullName := Trim(f.fullName);
    if username == [] then Fail(LoginGiven)
    else if |username| < 3 then Fail(LoginLongEnough)
    else if password == [] then Fail(PasswordGiven)
    else if |password| < 6 then Fail(PasswordLongEnough)
    else if password != confirm then Fail(PasswordsMatch)
    else if fullName == [] then Fail(FullNameGiven)
    else Pass
  }

  /** The e-mail field is never checked. */
  lemma EmailNeverChecked(f: RegisterForm, email: string)
    ensures Validate(f.(email := email)) == Validate(f)
  {
  }

  /** The role `register_user` asks for: "admin" for "Администратор", "user" for anything else. */
  function RoleFor(accessType: string): (role: string)
    ensures AuthStore.ValidRole(role)
    ensures role == AuthStore.RoleAdmin <==> accessType == "Администратор"
  {
    if accessType == "Администратор" then AuthStore.RoleAdmin else AuthStore.RoleUser
  }

  /** The arguments `register_user` passes to the store. */
  datatype Registration = Registration(username: string, password: string, role: string, fullName: string, email: string)

  /** The call the screen makes: none unless validation passes; then the stripped texts
      and the mapped role, which always satisfies the Users role constraint. */
  function RegistrationFrom(f: RegisterForm): (r: Option<Registration>)
    ensures r.None? <==> Validate(f).Fail?
    ensures r.Some? ==> AuthStore.ValidRole(r.value.role)
    ensures r.Some? ==> 3 <= |r.value.username| && 6 <= |r.value.password|
    ensures r.Some? ==>
      && r.value.username == Trim(f.username) && r.value.password == Trim(f.password)
      && r.value.fullName == Trim(f.fullName) && r.value.email == Trim(f.email)
      && r.value.fullName != []
  {
    if Validate(f).Fail? then None
    else
      assert Holds(f, LoginLongEnough) && Holds(f, PasswordLongEnough) && Holds(f, FullNameGiven);
      Some(Registration(Trim(f.username), Trim(f.password), RoleFor(f.accessType), Trim(f.fullName), Trim(f.email)))
  }

  /** What the screen shows after the register button. */
  datatype RegisterOutcome = Rejected(check: RegisterCheck) | StoreReply(ok: bool, message: string)

  /** `register_user` of the screen: validate, then hand the stripped fields to the store. */
  method SubmitRegistration(store: AuthStore.AuthManager, f: RegisterForm) returns (outcome: RegisterOutcome)
    requires store.Valid()
    modifies store
    ensures store.Valid()
    ensures Validate(f).Fail? ==>
      outcome == Rejected(Validate(f).check) && store.users == old(store.users) && store.lastUserId == old(store.lastUserId)
    ensures Validate(f).Pass? ==> outcome.StoreReply? && outcome.message != AuthStore.MsgRoleRefused
    ensures Validate(f).Pass? && AuthStore.UserExists(old(store.users), Trim(f.username)) ==>
      && outcome == StoreReply(false, AuthStore.MsgUserExists)
      && store.users == old(store.users) && store.lastUserId == old(store.lastUserId)
    ensures Validate(f).Pass? && !AuthStore.UserExists(old(store.users), Trim(f.username)) ==>
      && outcome == StoreReply(true, AuthStore.MsgRegistered)
      && store.lastUserId == old(store.lastUserId) + 1
      && store.users == old(store.users) + [AuthStore.UserRow(store.lastUserId, Trim(f.username), store.digest(Trim(f.password)),
                                                              RoleFor(f.accessType), Trim(f.fullName), Trim(f.email), true)]
      && AuthStore.Authenticate(store.users, store.digest, Trim(f.username), Trim(f.password), RoleFor(f.accessType))
  {
    var v := Validate(f);
    if v.Fail? {
      return Rejected(v.check);
    }
    var reg := RegistrationFrom(f).value;
    var ok, message := store.RegisterUser(reg.username, reg.password, reg.role, reg.fullName, reg.email);
    outcome := StoreReply(ok, message);
    if !AuthStore.UserExists(old(store.users), reg.username) {
      AuthStore.RegisteredUserLogsIn(old(store.users), store.digest, store.lastUserId,
                                     reg.username, reg.password, reg.role, reg.fullName, reg.email);
    }
  }
}
