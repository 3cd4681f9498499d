/** Login accounts: the role enum, the `AuthUser` record and the development password hash. */
module AuthUsers {
  import opened Wrappers
  import opened Text
  import opened WorkOrders

  datatype AppUserRole = Admin | Cashier

  /** `rawValue` */
  function RoleRawValue(r: AppUserRole): string {
    match r
    case Admin => "admin"
    case Cashier => "cashier"
  }

  /** `init?(rawValue:)` */
  function ParseRole(raw: string): (r: Option<AppUserRole>)
    ensures r.Some? ==> RoleRawValue(r.value) == raw
    ensures r.None? <==> forall role: AppUserRole :: RoleRawValue(role) != raw
  {
    if raw == "admin" then Some(Admin)
    else if raw == "cashier" then Some(Cashier)
    else None
  }

  /** `localizedName` */
  function RoleLocalizedName(r: AppUserRole): string {
    match r
    case Admin => "Administrador"
    case Cashier => "Cajero"
  }

  datatype AuthUser = AuthUser(
    username: string,
    passwordHash: string,
    roleRaw: string,
    isActive: bool,
    createdAt: Timestamp)

  /** The `role` getter: the parsed `roleRaw`, or `cashier` when it is not recognised. */
  function Role(u: AuthUser): (r: AppUserRole)
    ensures ParseRole(u.roleRaw).Some? ==> RoleRawValue(r) == u.roleRaw
    ensures ParseRole(u.roleRaw).None? ==> r == Cashier
  {
    ParseRole(u.roleRaw).GetOr(Cashier)
  }

  /** The `role` setter: it stores the raw value and touches no other field. */
  function WithRole(u: AuthUser, role: AppUserRole): (r: AuthUser)
    ensures Role(r) == role
    ensures r.(roleRaw := u.roleRaw) == u
  {
    u.(roleRaw := RoleRawValue(role))
  }

  /** `init`: the role is stored by its raw value; an account is active unless stated otherwise. */
  function NewAuthUser(username: string, passwordHash: string, role: AppUserRole,
                       isActive: bool := true, createdAt: Timestamp): (u: AuthUser)
    ensures Role(u) == role && u.roleRaw == RoleRawValue(role)
    ensures u.username == username && u.passwordHash == passwordHash
    ensures u.isActive == isActive && u.createdAt == createdAt
  {
    AuthUser(username, passwordHash, RoleRawValue(role), isActive, createdAt)
  }

  const Salt := "|salt"

  /** `hash(password:)`: the password reversed, followed by `|salt`. Not a one-way function. */
  function Hash(password: string): (h: string)
    ensures |h| == |password| + |Salt|
    ensures h[..|password|] == Reverse(password) && h[|password|..] == Salt
  {
    Reverse(password) + Salt
  }

  /** `checkPassword(_:)` */
  predicate CheckPassword(u: AuthUser, password: string) {
    Hash(password) == u.passwordHash
  }

  /** Different passwords have different hashes. */
  lemma HashInjective(p: string, q: string)
    requires Hash(p) == Hash(q)
    ensures p == q
  {
    assert |p| == |q|;
    assert Reverse(p) == Hash(p)[..|p|] == Hash(q)[..|q|] == Reverse(q);
    ReverseReverse(p);
    ReverseReverse(q);
  }

  /** A hash computed from `p` accepts `p` and no other password. */
  lemma CheckPasswordExactly(u: AuthUser, p: string, q: string)
    requires u.passwordHash == Hash(p)
    ensures CheckPassword(u, q) <==> q == p
  {
    if CheckPassword(u, q) {
      HashInjective(p, q);
    }
  }
}
