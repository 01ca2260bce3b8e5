/** Login: the token and the module permissions handed to the client
    (`AutenticacaoService.login`). */
module Login {
  import opened Results
  import opened Model
  import opened Tenancy
  import opened Entitlement

  /** `LoginResponse`: the signed token and the active module keys. */
  datatype LoginResponse = LoginResponse(token: string, permissions: set<string>)

  const UserVanished: string := "Usuário não encontrado após autenticação"

  /** The user whose email is `email` (`findByEmail`); at most one exists
      because the email column is unique. */
  function UserByEmail(s: Store, email: string): (r: Option<User>)
    requires UniqueEmails(s.users)
    ensures r.Some? <==> EmailInUse(s, email)
    ensures forall id :: id in s.users && s.users[id].email == email ==> r == Some(s.users[id])
  {
    if EmailInUse(s, email) then
      var id :| id in s.users && s.users[id].email == email;
      Some(s.users[id])
    else None
  }

  /** `login`. `credentialsAccepted` is the verdict of the authentication
      manager (password check) and `issue` the token service. A refused
      credential stops before any token or permission exists; a user missing
      on the reload is UsernameNotFound; a user without a company dereferences
      null. Otherwise the response carries the token issued for that user and
      exactly the keys of its company's active modules, without duplicates. */
  function Login(s: Store, email: string, credentialsAccepted: bool, issue: User -> string)
    : (r: Result<LoginResponse>)
    requires UniqueEmails(s.users)
    ensures !credentialsAccepted ==> r == Err(BadCredentials)
    ensures credentialsAccepted && !EmailInUse(s, email) ==> r == Err(UsernameNotFound(UserVanished))
    ensures credentialsAccepted && EmailInUse(s, email) ==>
      var u := UserByEmail(s, email).value;
      && (r.Ok? <==> u.company.Some?)
      && (r.Err? ==> r.error == NullPointer)
      && (r.Ok? ==>
            && r.value.token == issue(u)
            && forall k :: k in r.value.permissions <==>
                 u.company.value in s.companies &&
                 exists m :: m in s.companies[u.company.value].activeModules && m in s.modules &&
                   s.modules[m].key == k)
  {
    if !credentialsAccepted then Err(BadCredentials)
    else match UserByEmail(s, email)
      case None => Err(UsernameNotFound(UserVanished))
      case Some(u) =>
        var token := issue(u);
        if u.company.None? then Err(NullPointer)
        else Ok(LoginResponse(token, ActiveKeys(s, u.company.value)))
  }

  /** The permissions sent at login are exactly the keys the entitlement guard
      grants the same user, so the client shows what the server will allow. */
  lemma LoginAgreesWithGuard(s: Store, email: string, issue: User -> string, key: string)
    requires UniqueEmails(s.users)
    requires Login(s, email, true, issue).Ok?
    ensures var u := UserByEmail(s, email).value;
            var auth := Some(Authentication(true, UserPrincipal(u)));
            key in Login(s, email, true, issue).value.permissions <==> HasModulo(auth, key, s)
  {
  }

  /** On a valid store an accepted login always succeeds, since every stored
      user has a company: the token is the one issued for the stored user. */
  lemma AcceptedLoginSucceeds(s: Store, email: string, issue: User -> string)
    requires Valid(s)
    requires EmailInUse(s, email)
    ensures Login(s, email, true, issue).Ok?
    ensures exists id :: id in s.users && s.users[id].email == email &&
              Login(s, email, true, issue).value.token == issue(s.users[id])
  {
    var id :| id in s.users && s.users[id].email == email;
    assert UserByEmail(s, email) == Some(s.users[id]);
  }
}
