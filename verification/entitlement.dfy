/** The module-entitlement guard (`CustomSecurityService.hasModulo`). */
module Entitlement {
  import opened Results
  import opened Model
  import opened Tenancy

  /** Whether the caller's company has an active module whose key is exactly
      `key`. Conservative: no authentication, a principal that is not a user,
      a user without a company, or a company without modules all answer false.
      Unlike `TenantService`, the `authenticated` flag is not consulted. */
  function HasModulo(auth: Option<Authentication>, key: string, s: Store): (r: bool)
    ensures r <==>
      && auth.Some?
      && auth.value.principal.UserPrincipal?
      && auth.value.principal.user.company.Some?
      && var c := auth.value.principal.user.company.value;
         && c in s.companies
         && exists m :: m in s.companies[c].activeModules && m in s.modules && s.modules[m].key == key
  {
    match auth
    case None => false
    case Some(a) =>
      match a.principal
      case OtherPrincipal(_) => false
      case UserPrincipal(u) =>
        match u.company
        case None => false
        case Some(c) =>
          var active := ActiveKeys(s, c);
          if active == {} then assert key !in active; false else key in active
  }

  /** A company with no active module is entitled to nothing. */
  lemma NoModulesDeniesEveryKey(auth: Option<Authentication>, s: Store, key: string)
    requires auth.Some? && auth.value.principal.UserPrincipal?
    requires auth.value.principal.user.company.Some?
    requires var c := auth.value.principal.user.company.value;
             c in s.companies && s.companies[c].activeModules == {}
    ensures !HasModulo(auth, key, s)
  {
  }

  /** The match is exact: a key different from every active module's key is refused. */
  lemma OnlyExactKeysGranted(auth: Option<Authentication>, s: Store, key: string)
    requires auth.Some? && auth.value.principal.UserPrincipal?
    requires auth.value.principal.user.company.Some?
    requires var c := auth.value.principal.user.company.value;
             c in s.companies && key !in ActiveKeys(s, c)
    ensures !HasModulo(auth, key, s)
  {
  }
}
