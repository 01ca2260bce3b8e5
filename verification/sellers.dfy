/** Salesperson management, scoped to the caller's company (`VendedorService`). */
module Sellers {
  import opened Results
  import opened Model
  import opened Tenancy

  /** `VendedorRequestDTO`: the new login's name and email and the percentage. */
  datatype SellerRequest = SellerRequest(name: string, email: string, percentage: int)

  /** `VendedorCriadoResponseDTO`: the saved seller, its login, and the
      generated plaintext password the administrator hands over. */
  datatype SellerCreated = SellerCreated(
    sellerId: Id,
    userId: Id,
    name: string,
    email: string,
    percentage: Option<int>,
    companyId: Id,
    temporaryPassword: string)

  const EmailAlreadyUsed: string := "O email informado já está em uso."

  function SellerNotFound(id: Id): string {
    "Vendedor não encontrado com o ID: " + NatToString(id) + " para esta empresa."
  }

  /** The seller `id` exists and belongs to `company` (`findByEmpresaIdAndId`). */
  predicate SellerOf(s: Store, company: Id, id: Id) {
    id in s.sellers && s.sellers[id].company == company
  }

  /** `criar`: provisions a ROLE_VENDEDOR login bound to the caller's company and a
      seller profile with the requested percentage linked to it, both or neither.
      An email already in use is refused before anything is saved. `password`
      is the randomly generated one and `passwordHash` its encoding. */
  function CreateSeller(
    s: Store, auth: Option<Authentication>, req: SellerRequest, password: string, passwordHash: string)
    : (r: Result<Saved<SellerCreated>>)
    requires req.percentage >= 0
    ensures CurrentCompanyId(auth).Err? ==> r == Err(CurrentCompanyId(auth).error)
    ensures CurrentCompanyId(auth).Ok? ==> (r.Ok? <==> !EmailInUse(s, req.email))
    ensures CurrentCompanyId(auth).Ok? && EmailInUse(s, req.email) ==>
              r == Err(IllegalState(EmailAlreadyUsed))
    ensures r.Ok? ==>
      var company := CurrentCompanyId(auth).value;
      var user := User(s.nextUser, req.name, req.email, passwordHash, SellerRole, Some(company));
      var seller := Seller(s.nextSeller, Some(req.percentage), company, user.id);
      && r.value.store == s.(users := s.users[user.id := user], nextUser := s.nextUser + 1,
                             sellers := s.sellers[seller.id := seller], nextSeller := s.nextSeller + 1)
      && r.value.entity ==
           SellerCreated(seller.id, user.id, req.name, req.email, Some(req.percentage), company, password)
    ensures r.Ok? && Valid(s) && PrincipalInStore(s, auth) ==>
      && r.value.entity.sellerId !in s.sellers
      && r.value.entity.userId !in s.users
      && Valid(r.value.store)
  {
    var company :- CurrentCompanyId(auth);
    if EmailInUse(s, req.email) then Err(IllegalState(EmailAlreadyUsed))
    else
      var user := User(s.nextUser, req.name, req.email, passwordHash, SellerRole, Some(company));
      var seller := Seller(s.nextSeller, Some(req.percentage), company, user.id);
      var s' := s.(users := s.users[user.id := user], nextUser := s.nextUser + 1,
                   sellers := s.sellers[seller.id := seller], nextSeller := s.nextSeller + 1);
      AddSellerKeepsValid(s, auth, user, seller);
      Ok(Saved(s', SellerCreated(seller.id, user.id, user.name, user.email, seller.percentage, company, password)))
  }

  /** Adding a login with an unused email under the next user id, and a seller
      of the caller's company linked to it under the next seller id, keeps the
      store valid. */
  lemma AddSellerKeepsValid(s: Store, auth: Option<Authentication>, user: User, seller: Seller)
    requires CurrentCompanyId(auth).Ok?
    requires user.id == s.nextUser && seller.id == s.nextSeller && seller.user == user.id
    requires user.company == Some(CurrentCompanyId(auth).value) && seller.company == CurrentCompanyId(auth).value
    requires !EmailInUse(s, user.email) && seller.percentage.GetOr(0) >= 0
    ensures var s' := s.(users := s.users[user.id := user], nextUser := s.nextUser + 1,
                         sellers := s.sellers[seller.id := seller], nextSeller := s.nextSeller + 1);
            Valid(s) && PrincipalInStore(s, auth) ==> Valid(s')
  {
    var s' := s.(users := s.users[user.id := user], nextUser := s.nextUser + 1,
                 sellers := s.sellers[seller.id := seller], nextSeller := s.nextSeller + 1);
    if Valid(s) && PrincipalInStore(s, auth) {
      assert seller.company in s.companies;
      assert forall id :: id in s.users ==> s.users[id].email != user.email;
      InsertUserKeepsUniqueEmails(s.users, user);
      assert ValidUsers(s');
      assert forall id :: id in s.sellers ==> s.sellers[id].user < s.nextUser;
      InsertSellerKeepsUniqueUsers(s.sellers, seller);
      forall id | id in s'.sellers
        ensures && s'.sellers[id].id == id
                && id < s'.nextSeller
                && s'.sellers[id].company in s'.companies
                && s'.sellers[id].user in s'.users
                && s'.users[s'.sellers[id].user].company == Some(s'.sellers[id].company)
                && s'.sellers[id].percentage.GetOr(0) >= 0
      {
        if id != seller.id {
          assert s'.sellers[id] == s.sellers[id];
          assert s.sellers[id].user < s.nextUser;
        }
      }
      assert ValidSellers(s');
      assert ValidSales(s');
    }
  }

  /** `listar`: exactly the sellers of the caller's company. */
  function ListSellers(s: Store, auth: Option<Authentication>): (r: Result<map<Id, Seller>>)
    ensures r.Ok? <==> CurrentCompanyId(auth).Ok?
    ensures r.Err? ==> r.error == CurrentCompanyId(auth).error
    ensures r.Ok? ==>
      && (forall id :: id in r.value <==> SellerOf(s, CurrentCompanyId(auth).value, id))
      && (forall id :: id in r.value ==> r.value[id] == s.sellers[id])
  {
    var company :- CurrentCompanyId(auth);
    Ok(map id | id in s.sellers && s.sellers[id].company == company :: s.sellers[id])
  }

  /** `buscarPorId`: the seller, only if it belongs to the caller's company;
      another company's seller is as not-found as a missing one. */
  function FindSeller(s: Store, auth: Option<Authentication>, id: Id): (r: Result<Seller>)
    ensures CurrentCompanyId(auth).Err? ==> r == Err(CurrentCompanyId(auth).error)
    ensures CurrentCompanyId(auth).Ok? ==>
      && (r.Ok? <==> SellerOf(s, CurrentCompanyId(auth).value, id))
      && (r.Ok? ==> r.value == s.sellers[id])
      && (r.Err? ==> r.error == NotFound(SellerNotFound(id)))
  {
    var company :- CurrentCompanyId(auth);
    if SellerOf(s, company, id) then Ok(s.sellers[id]) else Err(NotFound(SellerNotFound(id)))
  }

  /** `atualizar`: changes only the commission percentage of a seller of the
      caller's company. */
  function UpdateSeller(s: Store, auth: Option<Authentication>, id: Id, percentage: int)
    : (r: Result<Saved<Seller>>)
    requires percentage >= 0
    ensures r.Ok? <==> FindSeller(s, auth, id).Ok?
    ensures r.Err? ==> r.error == FindSeller(s, auth, id).error
    ensures r.Ok? ==>
      && r.value.entity == s.sellers[id].(percentage := Some(percentage))
      && r.value.store == s.(sellers := s.sellers[r.value.entity.id := r.value.entity])
    ensures r.Ok? && Valid(s) ==> r.value.entity.id == id && Valid(r.value.store)
  {
    var seller :- FindSeller(s, auth, id);
    var seller' := seller.(percentage := Some(percentage));
    Ok(Saved(s.(sellers := s.sellers[seller'.id := seller']), seller'))
  }

  /** A freshly created seller is found by its id, in its company's listing. */
  lemma CreatedSellerIsFound(
    s: Store, auth: Option<Authentication>, req: SellerRequest, password: string, passwordHash: string)
    requires Valid(s) && PrincipalInStore(s, auth)
    requires req.percentage >= 0
    requires CreateSeller(s, auth, req, password, passwordHash).Ok?
    ensures var r := CreateSeller(s, auth, req, password, passwordHash).value;
            && FindSeller(r.store, auth, r.entity.sellerId).Ok?
            && FindSeller(r.store, auth, r.entity.sellerId).value.percentage == Some(req.percentage)
            && r.entity.sellerId in ListSellers(r.store, auth).value
  {
  }
}
