/**
 * `AuthService`: the user table (seeding, creation, password change, activation) and the
 * login checks.
 */
module AuthService {
  import opened Wrappers
  import opened WorkOrders
  import opened AuthUsers
  import opened Persistence

  /** `AuthError` */
  datatype AuthError = UserNotFound | InvalidPassword | UserDisabled

  /** `errorDescription` */
  function ErrorDescription(e: AuthError): string {
    match e
    case UserNotFound => "Usuario no encontrado."
    case InvalidPassword => "La contraseña es incorrecta."
    case UserDisabled => "Este usuario está deshabilitado."
  }

  /** The message of the error `createUser` throws for a taken username. */
  const UsernameTakenMessage := "Ya existe un usuario con ese nombre."

  const DefaultUsername := "admin"
  const DefaultPassword := "admin"

  /**
   * `fetch` with `#Predicate { $0.username == username }` followed by `.first`: the position of
   * the first stored user with that name.
   */
  function FindUser(users: seq<AuthUser>, username: string): (k: Option<nat>)
    ensures k.Some? ==> k.value < |users| && users[k.value].username == username
    ensures k.Some? ==> forall i :: 0 <= i < k.value ==> users[i].username != username
    ensures k.None? <==> forall i :: 0 <= i < |users| ==> users[i].username != username
  {
    if users == [] then None
    else if users[0].username == username then Some(0)
    else match FindUser(users[1..], username)
      case None => None
      case Some(k) => Some(k + 1)
  }

  /** No two stored users share a username. */
  predicate UniqueUsernames(users: seq<AuthUser>) {
    forall i, j :: 0 <= i < j < |users| ==> users[i].username != users[j].username
  }

  /** The administrator the seed creates. */
  function InitialAdmin(now: Timestamp): (u: AuthUser)
    ensures u.username == "admin" && u.passwordHash == Hash("admin")
    ensures Role(u) == Admin && u.isActive
  {
    NewAuthUser(DefaultUsername, Hash(DefaultPassword), Admin, true, now)
  }

  /** The user table after `seedInitialAdminIfNeeded`. */
  function Seeded(users: seq<AuthUser>, now: Timestamp): (r: seq<AuthUser>)
    ensures users == [] ==> r == [InitialAdmin(now)]
    ensures users != [] ==> r == users
  {
    if users == [] then [InitialAdmin(now)] else users
  }

  /** Seeding twice is seeding once, and the seeded table has unique names. */
  lemma SeedIdempotent(users: seq<AuthUser>, now: Timestamp, later: Timestamp)
    ensures Seeded(Seeded(users, now), later) == Seeded(users, now)
    ensures UniqueUsernames(users) ==> UniqueUsernames(Seeded(users, now))
  {
  }

  /** `seedInitialAdminIfNeeded(in:)`: an empty user table gets the administrator account. */
  method SeedInitialAdminIfNeeded(ctx: ModelContext, now: Timestamp)
    modifies ctx`authUsers, ctx`commits
    ensures ctx.authUsers == Seeded(old(ctx.authUsers), now)
    ensures ctx.commits == if old(ctx.authUsers) == [] then old(ctx.commits) + 1 else old(ctx.commits)
  {
    var users := ctx.authUsers;
    if users != [] {
      return;
    }
    var admin := NewAuthUser(DefaultUsername, Hash(DefaultPassword), Admin, true, now);
    ctx.authUsers := ctx.authUsers + [admin];
    ctx.Save();
  }

  /**
   * `login(username:password:in:)`: the first user with that name, rejected when there is none,
   * then when it is disabled, then when the password does not match.
   */
  function Login(users: seq<AuthUser>, username: string, password: string): (r: Result<AuthUser, AuthError>)
    ensures FindUser(users, username).None? ==> r == Failure(UserNotFound)
    ensures FindUser(users, username).Some? && !users[FindUser(users, username).value].isActive
            ==> r == Failure(UserDisabled)
    ensures FindUser(users, username).Some? && users[FindUser(users, username).value].isActive
            && !CheckPassword(users[FindUser(users, username).value], password)
            ==> r == Failure(InvalidPassword)
    ensures r.Success? ==> r.value in users && r.value.username == username
                           && r.value.isActive && CheckPassword(r.value, password)
  {
    match FindUser(users, username)
    case None => Failure(UserNotFound)
    case Some(k) =>
      var user := users[k];
      if !user.isActive then Failure(UserDisabled)
      else if !CheckPassword(user, password) then Failure(InvalidPassword)
      else Success(user)
  }

  /** A disabled account is reported as disabled whatever password is given. */
  lemma DisabledBeforePassword(users: seq<AuthUser>, k: nat, p: string, q: string)
    requires k < |users| && UniqueUsernames(users) && !users[k].isActive
    ensures Login(users, users[k].username, p) == Login(users, users[k].username, q) == Failure(UserDisabled)
  {
    FirstMatchIsOnlyMatch(users, k);
  }

  /** With unique names, the lookup finds the one user carrying the name. */
  lemma {:induction false} FirstMatchIsOnlyMatch(users: seq<AuthUser>, k: nat)
    requires k < |users| && UniqueUsernames(users)
    ensures FindUser(users, users[k].username) == Some(k)
  {
    if k > 0 {
      assert users[k] == users[1..][k - 1];
      FirstMatchIsOnlyMatch(users[1..], k - 1);
    }
  }

  /**
   * With unique names, login succeeds exactly for an active stored user and its password, and
   * returns that user.
   */
  lemma LoginSucceedsExactly(users: seq<AuthUser>, k: nat, password: string)
    requires k < |users| && UniqueUsernames(users)
    ensures Login(users, users[k].username, password).Success?
            <==> users[k].isActive && CheckPassword(users[k], password)
    ensures Login(users, users[k].username, password).Success?
            ==> Login(users, users[k].username, password).value == users[k]
  {
    FirstMatchIsOnlyMatch(users, k);
  }

  /** The user table after a successful `createUser`. */
  function CreatedUser(username: string, password: string, role: AppUserRole, isActive: bool,
                       now: Timestamp): (u: AuthUser)
    ensures u.username == username && CheckPassword(u, password)
    ensures Role(u) == role && u.isActive == isActive && u.createdAt == now
  {
    NewAuthUser(username, Hash(password), role, isActive, now)
  }

  /** Appending a user whose name is not taken keeps names unique. */
  lemma AppendKeepsUnique(users: seq<AuthUser>, u: AuthUser)
    requires UniqueUsernames(users) && FindUser(users, u.username).None?
    ensures UniqueUsernames(users + [u])
  {
    forall i, j | 0 <= i < j < |users + [u]| ensures (users + [u])[i].username != (users + [u])[j].username {
      if j == |users| {
        assert (users + [u])[i] == users[i];
      } else {
        assert (users + [u])[i] == users[i] && (users + [u])[j] == users[j];
      }
    }
  }

  /**
   * `createUser(username:password:role:isActive:in:)`: a taken name is an error and leaves the
   * table as it was; otherwise the new user is appended and saved.
   */
  method CreateUser(ctx: ModelContext, username: string, password: string, role: AppUserRole,
                    isActive: bool := true, now: Timestamp) returns (r: Result<AuthUser, string>)
    modifies ctx`authUsers, ctx`commits
    ensures FindUser(old(ctx.authUsers), username).Some? ==>
              r == Failure(UsernameTakenMessage) && ctx.authUsers == old(ctx.authUsers)
              && ctx.commits == old(ctx.commits)
    ensures FindUser(old(ctx.authUsers), username).None? ==>
              r == Success(CreatedUser(username, password, role, isActive, now))
              && ctx.authUsers == old(ctx.authUsers) + [r.value] && ctx.commits == old(ctx.commits) + 1
    ensures UniqueUsernames(old(ctx.authUsers)) ==> UniqueUsernames(ctx.authUsers)
  {
    if FindUser(ctx.authUsers, username).Some? {
      return Failure(UsernameTakenMessage);
    }
    var user := NewAuthUser(username, Hash(password), role, isActive, now);
    if UniqueUsernames(ctx.authUsers) {
      AppendKeepsUnique(ctx.authUsers, user);
    }
    ctx.authUsers := ctx.authUsers + [user];
    ctx.Save();
    r := Success(user);
  }

  /** `changePassword(for:newPassword:in:)` on the user at `index`. */
  method ChangePassword(ctx: ModelContext, index: nat, newPassword: string)
    requires index < |ctx.authUsers|
    modifies ctx`authUsers, ctx`commits
    ensures ctx.authUsers == old(ctx.authUsers)[index := old(ctx.authUsers[index]).(passwordHash := Hash(newPassword))]
    ensures ctx.commits == old(ctx.commits) + 1
  {
    var user := ctx.authUsers[index];
    ctx.authUsers := ctx.authUsers[index := user.(passwordHash := Hash(newPassword))];
    ctx.Save();
  }

  /** After a password change the new password, and only it, is accepted. */
  lemma ChangedPasswordChecks(u: AuthUser, newPassword: string, attempt: string)
    ensures CheckPassword(u.(passwordHash := Hash(newPassword)), attempt) <==> attempt == newPassword
  {
    CheckPasswordExactly(u.(passwordHash := Hash(newPassword)), newPassword, attempt);
  }

  /** `setActive(_:for:in:)` on the user at `index`: only `isActive` changes. */
  method SetActive(ctx: ModelContext, isActive: bool, index: nat)
    requires index < |ctx.authUsers|
    modifies ctx`authUsers, ctx`commits
    ensures ctx.authUsers == old(ctx.authUsers)[index := old(ctx.authUsers[index]).(isActive := isActive)]
    ensures ctx.commits == old(ctx.commits) + 1
  {
    var user := ctx.authUsers[index];
    ctx.authUsers := ctx.authUsers[index := user.(isActive := isActive)];
    ctx.Save();
  }

  /** Neither change touches a username, so both keep names unique. */
  lemma UserEditsKeepUnique(users: seq<AuthUser>, index: nat, newPassword: string, isActive: bool)
    requires index < |users| && UniqueUsernames(users)
    ensures UniqueUsernames(users[index := users[index].(passwordHash := Hash(newPassword))])
    ensures UniqueUsernames(users[index := users[index].(isActive := isActive)])
  {
  }
}
