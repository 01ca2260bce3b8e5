/** Who is calling, and for which company (`TenantService`).

    The source reads the caller from Spring's ambient security context; here
    the authentication is an explicit argument, `None` when there is none.
 */
module Tenancy {
  import opened Results
  import opened Model

  /** The authenticated principal: a `User` of the system or anything else. */
  datatype Principal = UserPrincipal(user: User) | OtherPrincipal(name: string)

  /** Spring's `Authentication`: whether it is authenticated, and its principal. */
  datatype Authentication = Authentication(authenticated: bool, principal: Principal)

  const NoAuthenticatedUser: string := "Nenhum usuário autenticado encontrado."
  const PrincipalIsNotUser: string := "O principal da autenticação não é uma instância de 'User'."

  /** The caller is an authenticated `User` principal. */
  predicate IsAuthenticatedUser(auth: Option<Authentication>) {
    auth.Some? && auth.value.authenticated && auth.value.principal.UserPrincipal?
  }

  /** `getEmpresaIdDoUsuarioLogado`: the company id of the authenticated user.
      A principal without a company, which cannot be a stored user since the
      company column is NOT NULL, dereferences a null company. */
  function CurrentCompanyId(auth: Option<Authentication>): (r: Result<Id>)
    ensures r.Ok? <==> IsAuthenticatedUser(auth) && auth.value.principal.user.company.Some?
    ensures r.Ok? ==> r.value == auth.value.principal.user.company.value
    ensures (auth.None? || !auth.value.authenticated) ==> r == Err(IllegalState(NoAuthenticatedUser))
    ensures auth.Some? && auth.value.authenticated && auth.value.principal.OtherPrincipal? ==>
              r == Err(IllegalState(PrincipalIsNotUser))
    ensures IsAuthenticatedUser(auth) && auth.value.principal.user.company.None? ==> r == Err(NullPointer)
  {
    match auth
    case None => Err(IllegalState(NoAuthenticatedUser))
    case Some(a) =>
      if !a.authenticated then Err(IllegalState(NoAuthenticatedUser))
      else match a.principal
        case OtherPrincipal(_) => Err(IllegalState(PrincipalIsNotUser))
        case UserPrincipal(u) =>
          match u.company
          case None => Err(NullPointer)
          case Some(c) => Ok(c)
  }

  /** `getUsuarioLogado`: the authenticated user itself. */
  function CurrentUser(auth: Option<Authentication>): (r: Result<User>)
    ensures r.Ok? <==> IsAuthenticatedUser(auth)
    ensures r.Ok? ==> r.value == auth.value.principal.user
    ensures r.Err? ==> r.error.IllegalState?
  {
    match auth
    case None => Err(IllegalState(NoAuthenticatedUser))
    case Some(a) =>
      if !a.authenticated then Err(IllegalState(NoAuthenticatedUser))
      else match a.principal
        case OtherPrincipal(_) => Err(IllegalState(PrincipalIsNotUser))
        case UserPrincipal(u) => Ok(u)
  }

  /** The two lookups agree: the tenant is the current user's company, and the
      tenant lookup fails with the same exception whenever the user lookup does. */
  lemma CompanyIsCurrentUsersCompany(auth: Option<Authentication>)
    ensures CurrentCompanyId(auth).Ok? <==>
              CurrentUser(auth).Ok? && CurrentUser(auth).value.company.Some?
    ensures CurrentCompanyId(auth).Ok? ==>
              CurrentCompanyId(auth).value == CurrentUser(auth).value.company.value
    ensures CurrentUser(auth).Err? ==> CurrentCompanyId(auth) == Err(CurrentUser(auth).error)
  {
  }

  /** The principal is the stored user of that id, whose company exists: what the
      request filter establishes by loading the user from the database. */
  ghost predicate PrincipalInStore(s: Store, auth: Option<Authentication>) {
    IsAuthenticatedUser(auth) ==>
      var u := auth.value.principal.user;
      && u.id in s.users
      && s.users[u.id] == u
      && (u.company.Some? ==> u.company.value in s.companies)
  }
}
