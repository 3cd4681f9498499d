/** `AuthViewModel`: the login form's state and the signed-in user. */
module Session {
  import opened Wrappers
  import opened Text
  import opened WorkOrders
  import opened AuthUsers
  import opened Persistence
  import AuthService

  const EmptyCredentialsMessage := "Ingresa usuario y contraseña."

  /** `isAdmin` for a given current user. */
  predicate IsAdminUser(current: Option<AuthUser>) {
    current.Some? && Role(current.value) == Admin
  }

  /** `isCashier` for a given current user. */
  predicate IsCashierUser(current: Option<AuthUser>) {
    current.Some? && Role(current.value) == Cashier
  }

  /** A signed-in user is exactly one of admin and cashier; nobody signed in is neither. */
  lemma RoleFlags(current: Option<AuthUser>)
    ensures !(IsAdminUser(current) && IsCashierUser(current))
    ensures current.Some? ==> IsAdminUser(current) || IsCashierUser(current)
    ensures current.None? ==> !IsAdminUser(current) && !IsCashierUser(current)
  {
  }

  /**
   * What `login(in:)` makes of the form texts: the user to sign in, or the message to show.
   * A blank text is refused before the service is asked; otherwise the service receives both
   * texts trimmed of whitespace and newlines, and its answer or error message is passed on.
   */
  function LoginAttempt(users: seq<AuthUser>, username: string, password: string): (r: Result<AuthUser, string>)
    ensures IsBlank(username, WhitespacesAndNewlines) || IsBlank(password, WhitespacesAndNewlines)
            ==> r == Failure(EmptyCredentialsMessage)
    ensures !IsBlank(username, WhitespacesAndNewlines) && !IsBlank(password, WhitespacesAndNewlines)
            ==> match AuthService.Login(users, Trimming(username, WhitespacesAndNewlines),
                                        Trimming(password, WhitespacesAndNewlines))
                case Success(u) => r == Success(u)
                case Failure(e) => r == Failure(AuthService.ErrorDescription(e))
  {
    var user := Trimming(username, WhitespacesAndNewlines);
    var pass := Trimming(password, WhitespacesAndNewlines);
    if user == [] || pass == [] then Failure(EmptyCredentialsMessage)
    else match AuthService.Login(users, user, pass)
      case Success(u) => Success(u)
      case Failure(e) => Failure(AuthService.ErrorDescription(e))
  }

  /** A successful attempt signs in an active stored user whose name is the trimmed text. */
  lemma LoginAttemptSound(users: seq<AuthUser>, username: string, password: string)
    requires LoginAttempt(users, username, password).Success?
    ensures var u := LoginAttempt(users, username, password).value;
      u in users && u.isActive && u.username == Trimming(username, WhitespacesAndNewlines)
      && CheckPassword(u, Trimming(password, WhitespacesAndNewlines))
  {
  }

  class AuthViewModel {
    var username: string
    var password: string
    var isLoading: bool
    var errorMessage: Option<string>
    var currentUser: Option<AuthUser>

    /** The initial state: empty form, nobody signed in. */
    constructor()
      ensures username == "" && password == "" && !isLoading
      ensures errorMessage.None? && currentUser.None?
    {
      username := "";
      password := "";
      isLoading := false;
      errorMessage := None;
      currentUser := None;
    }

    /** `isLoggedIn` */
    predicate IsLoggedIn()
      reads this
    {
      currentUser.Some?
    }

    /** `currentRole` */
    function CurrentRole(): (r: Option<AppUserRole>)
      reads this
      ensures r.Some? <==> IsLoggedIn()
      ensures r.Some? ==> r.value == Role(currentUser.value)
    {
      match currentUser
      case None => None
      case Some(u) => Some(Role(u))
    }

    /** `isAdmin` */
    predicate IsAdmin()
      reads this
    {
      IsAdminUser(currentUser)
    }

    /** `isCashier` */
    predicate IsCashier()
      reads this
    {
      IsCashierUser(currentUser)
    }

    /** `initialize(in:)`: seeds the administrator, and saves, only when the user table is empty. */
    method Initialize(ctx: ModelContext, now: Timestamp)
      modifies ctx`authUsers, ctx`commits
      ensures ctx.authUsers == AuthService.Seeded(old(ctx.authUsers), now)
      ensures ctx.commits == if old(ctx.authUsers) == [] then old(ctx.commits) + 1 else old(ctx.commits)
    {
      AuthService.SeedInitialAdminIfNeeded(ctx, now);
    }

    /**
     * `login(in:)`. The form texts are trimmed of whitespace and newlines; a blank one is
     * refused before the service is asked. A failed login keeps whoever was signed in.
     */
    method Login(ctx: ModelContext)
      modifies this`errorMessage, this`isLoading, this`currentUser
      ensures !isLoading
      ensures match LoginAttempt(ctx.authUsers, username, password)
              case Success(u) => currentUser == Some(u) && errorMessage.None?
              case Failure(message) => errorMessage == Some(message) && currentUser == old(currentUser)
    {
      errorMessage := None;
      isLoading := true;

      var trimmedUser := Trimming(username, WhitespacesAndNewlines);
      var trimmedPass := Trimming(password, WhitespacesAndNewlines);

      if trimmedUser == [] || trimmedPass == [] {
        errorMessage := Some(EmptyCredentialsMessage);
        isLoading := false;
        return;
      }

      var outcome := AuthService.Login(ctx.authUsers, trimmedUser, trimmedPass);
      match outcome {
        case Success(user) =>
          currentUser := Some(user);
        case Failure(authError) =>
          errorMessage := Some(AuthService.ErrorDescription(authError));
      }

      isLoading := false;
    }

    /** `logout()`: signs out and clears the form. */
    method Logout()
      modifies this`currentUser, this`username, this`password, this`errorMessage
      ensures currentUser.None? && username == "" && password == "" && errorMessage.None?
      ensures !IsLoggedIn() && !IsAdmin() && !IsCashier()
    {
      currentUser := None;
      username := "";
      password := "";
      errorMessage := None;
    }
  }
}
