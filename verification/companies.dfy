/** Company onboarding and maintenance (`EmpresaService`). */
module Companies {
  import opened Results
  import opened Model
  import opened Tenancy
  import opened Entitlement

  /** `EmpresaRequestDTO`: the company's data and its first administrator's. */
  datatype CompanyRequest = CompanyRequest(
    tradeName: string,
    cnpj: string,
    legalName: string,
    adminName: string,
    adminEmail: string,
    adminPassword: string)

  /** `EmpresaUpdateRequestDTO`: the only two fields an update may change. */
  datatype CompanyUpdate = CompanyUpdate(tradeName: string, cnpj: string)

  const ModulesNotFound: string := "Um ou mais IDs de Módulo não foram encontrados."

  function CompanyNotFound(id: Id): string {
    "Empresa não encontrada com o ID: " + NatToString(id)
  }

  /** `buscarPorId`: the company with this id, or NotFound. */
  function FindCompany(s: Store, id: Id): (r: Result<Company>)
    ensures r.Ok? <==> id in s.companies
    ensures r.Ok? ==> r.value == s.companies[id]
    ensures r.Err? ==> r.error == NotFound(CompanyNotFound(id))
  {
    if id in s.companies then Ok(s.companies[id]) else Err(NotFound(CompanyNotFound(id)))
  }

  /** Ids of the modules flagged as default (`findByIsPadrao(true)`). */
  function DefaultModules(s: Store): (ids: set<Id>)
    ensures forall m :: m in ids <==> m in s.modules && s.modules[m].isDefault
  {
    set m | m in s.modules && s.modules[m].isDefault
  }

  /** `criar`: onboarding. Saves the company with exactly the default modules
      active (none if there are none) and one ROLE_ADMIN user bound to it. The
      service does not check the email; the user table's unique email column
      rejects a duplicate, and the whole transaction rolls back. The request's
      legal name is not copied. `passwordHash` is the encoder's output for the
      request's password and `now` the clock's reading. */
  function CreateCompany(s: Store, req: CompanyRequest, now: Timestamp, passwordHash: string)
    : (r: Result<Saved<Company>>)
    ensures r.Ok? <==> !EmailInUse(s, req.adminEmail)
    ensures r.Err? ==> r.error == UniqueViolation("email")
    ensures r.Ok? ==>
      var c := r.value.entity;
      && c.tradeName == req.tradeName && c.cnpj == req.cnpj
      && c.registeredAt == now && c.legalName.None?
      && (forall m :: m in c.activeModules <==> m in s.modules && s.modules[m].isDefault)
      && r.value.store.companies == s.companies[c.id := c]
      && r.value.store.users ==
           s.users[s.nextUser := User(s.nextUser, req.adminName, req.adminEmail, passwordHash, AdminRole, Some(c.id))]
      && r.value.store.modules == s.modules
      && r.value.store.sellers == s.sellers
      && r.value.store.sales == s.sales
    ensures r.Ok? && Valid(s) ==>
      r.value.entity.id !in s.companies && s.nextUser !in s.users && Valid(r.value.store)
  {
    var c := Company(s.nextCompany, req.tradeName, req.cnpj, now, None, DefaultModules(s));
    var admin := User(s.nextUser, req.adminName, req.adminEmail, passwordHash, AdminRole, Some(c.id));
    if EmailInUse(s, req.adminEmail) then Err(UniqueViolation("email"))
    else
      AddCompanyKeepsValid(s, c, admin);
      Ok(Saved(s.(companies := s.companies[c.id := c], nextCompany := s.nextCompany + 1,
                  users := s.users[admin.id := admin], nextUser := s.nextUser + 1), c))
  }

  /** Adding a company under the next id, with catalogued modules, together with
      a new user of that company whose email is unused keeps the store valid. */
  lemma AddCompanyKeepsValid(s: Store, c: Company, admin: User)
    requires c.id == s.nextCompany && admin.id == s.nextUser
    requires admin.company == Some(c.id) && !EmailInUse(s, admin.email)
    requires c.activeModules == DefaultModules(s)
    ensures var s' := s.(companies := s.companies[c.id := c], nextCompany := s.nextCompany + 1,
                         users := s.users[admin.id := admin], nextUser := s.nextUser + 1);
            Valid(s) ==> Valid(s')
  {
    var s' := s.(companies := s.companies[c.id := c], nextCompany := s.nextCompany + 1,
                 users := s.users[admin.id := admin], nextUser := s.nextUser + 1);
    if Valid(s) {
      assert ValidCompanies(s');
      assert forall id :: id in s.users ==> s.users[id].email != admin.email;
      InsertUserKeepsUniqueEmails(s.users, admin);
      assert ValidUsers(s');
      assert ValidSellers(s') by {
        forall id | id in s'.sellers
          ensures s'.users[s'.sellers[id].user] == s.users[s.sellers[id].user]
        {
          assert s.sellers[id].user < s.nextUser;
        }
      }
      assert ValidSales(s');
    }
  }

  /** A company saved by onboarding is found by its id, as saved, and its
      administrator is the stored user under the next user id. */
  lemma CreatedCompanyIsFound(s: Store, req: CompanyRequest, now: Timestamp, passwordHash: string)
    requires Valid(s)
    requires CreateCompany(s, req, now, passwordHash).Ok?
    ensures var r := CreateCompany(s, req, now, passwordHash).value;
            && FindCompany(r.store, r.entity.id) == Ok(r.entity)
            && r.entity.id !in s.companies
            && s.nextUser in r.store.users
            && r.store.users[s.nextUser].company == Some(r.entity.id)
            && r.store.users[s.nextUser].email == req.adminEmail
  {
  }

  /** `atualizar`: changes only the trading name and the CNPJ. */
  function UpdateCompany(s: Store, id: Id, upd: CompanyUpdate): (r: Result<Saved<Company>>)
    ensures r.Ok? <==> id in s.companies
    ensures r.Err? ==> r.error == NotFound(CompanyNotFound(id))
    ensures r.Ok? ==>
      && r.value.entity == s.companies[id].(tradeName := upd.tradeName, cnpj := upd.cnpj)
      && r.value.store == s.(companies := s.companies[r.value.entity.id := r.value.entity])
    ensures r.Ok? && Valid(s) ==> Valid(r.value.store)
  {
    var c :- FindCompany(s, id);
    var c' := c.(tradeName := upd.tradeName, cnpj := upd.cnpj);
    Ok(Saved(s.(companies := s.companies[c'.id := c']), c'))
  }

  lemma {:induction false} SubsetCardinality<T>(a: set<T>, b: set<T>)
    requires a <= b
    ensures |a| <= |b|
    decreases a
  {
    if a != {} {
      var x :| x in a;
      SubsetCardinality(a - {x}, b - {x});
    }
  }

  /** Looking up a set of ids finds all of them exactly when none is missing. */
  lemma FoundAllIffSubset(ids: set<Id>, known: set<Id>)
    ensures |ids * known| == |ids| <==> ids <= known
  {
    if !(ids <= known) {
      var missing :| missing in ids && missing !in known;
      SubsetCardinality(ids * known, ids - {missing});
    } else {
      assert ids * known == ids;
    }
  }

  /** `atualizarModulosAtivos`: replaces the company's active modules, all or
      nothing. A null or empty id set clears them; otherwise every id must name
      a stored module (the number found must equal the number asked for), or
      NotFound is thrown and nothing changes. */
  function UpdateActiveModules(s: Store, id: Id, moduleIds: Option<set<Id>>)
    : (r: Result<Saved<Company>>)
    ensures r.Ok? <==> id in s.companies && (moduleIds.None? || moduleIds.value <= s.modules.Keys)
    ensures id !in s.companies ==> r == Err(NotFound(CompanyNotFound(id)))
    ensures id in s.companies && moduleIds.Some? && !(moduleIds.value <= s.modules.Keys) ==>
              r == Err(NotFound(ModulesNotFound))
    ensures r.Ok? ==>
      && r.value.entity == s.companies[id].(activeModules := moduleIds.GetOr({}))
      && r.value.store == s.(companies := s.companies[r.value.entity.id := r.value.entity])
    ensures r.Ok? && Valid(s) ==> Valid(r.value.store)
  {
    var c :- FindCompany(s, id);
    if moduleIds.Some? && moduleIds.value != {} then
      var found := moduleIds.value * s.modules.Keys;
      FoundAllIffSubset(moduleIds.value, s.modules.Keys);
      if |found| != |moduleIds.value| then Err(NotFound(ModulesNotFound))
      else
        assert found == moduleIds.value;
        var c' := c.(activeModules := found);
        ReplaceActiveModulesKeepsValid(s, id, found);
        Ok(Saved(s.(companies := s.companies[c'.id := c']), c'))
    else
      var c' := c.(activeModules := {});
      ReplaceActiveModulesKeepsValid(s, id, {});
      Ok(Saved(s.(companies := s.companies[c'.id := c']), c'))
  }

  /** Replacing a stored company's active modules by catalogued ones keeps the
      store valid; no other table is touched. */
  lemma ReplaceActiveModulesKeepsValid(s: Store, id: Id, modules: set<Id>)
    requires id in s.companies && modules <= s.modules.Keys
    ensures var c' := s.companies[id].(activeModules := modules);
            Valid(s) ==> Valid(s.(companies := s.companies[c'.id := c']))
  {
    var c' := s.companies[id].(activeModules := modules);
    var s' := s.(companies := s.companies[c'.id := c']);
    if Valid(s) {
      assert c'.id == id;
      assert s'.companies.Keys == s.companies.Keys;
      assert ValidCompanies(s');
      assert ValidUsers(s');
      assert ValidSellers(s');
    }
  }

  /** After a successful replacement, a user of that company is entitled to a
      key exactly when one of the requested modules carries it; a cleared set
      entitles to nothing. */
  lemma EntitlementFollowsActiveModules(
    s: Store, id: Id, moduleIds: Option<set<Id>>, auth: Option<Authentication>, key: string)
    requires Valid(s)
    requires UpdateActiveModules(s, id, moduleIds).Ok?
    requires auth.Some? && auth.value.principal.UserPrincipal?
    requires auth.value.principal.user.company == Some(id)
    ensures var s' := UpdateActiveModules(s, id, moduleIds).value.store;
            HasModulo(auth, key, s') <==>
              moduleIds.Some? && exists m :: m in moduleIds.value && s.modules[m].key == key
  {
    var s' := UpdateActiveModules(s, id, moduleIds).value.store;
    assert s'.modules == s.modules;
    assert s'.companies[id].activeModules == moduleIds.GetOr({});
  }
}
