/** The sale ledger (`VendaService`): recording, listing, editing and the
    status machine of sales, every step scoped to the caller's company. */
module Sales {
  import opened Results
  import opened Decimals
  import opened Model
  import opened Tenancy
  import opened Sellers

  /** `VendaResponseDTO`: a sale with its seller's display name resolved. */
  datatype SaleResponse = SaleResponse(
    id: Id,
    amount: Cents,
    commission: Cents,
    date: Timestamp,
    sellerId: Id,
    sellerName: string)

  const UnknownSeller: string := "Vendedor Desconhecido"
  const NoSellerProfile: string := "Nenhum perfil de vendedor encontrado para o usuário logado."
  const SaleWithoutSeller: string := "Venda não associada a um vendedor válido."
  const AlreadyCancelled: string := "Esta venda já está cancelada."

  function SaleNotFound(id: Id): string {
    "Venda não encontrada com o ID: " + NatToString(id) + " para esta empresa."
  }

  /** The approval refusal names the sale's current status. */
  function NotPending(status: SaleStatus): string {
    "Apenas vendas com status PENDENTE podem ser aprovadas. Status atual: " + status.Name()
  }

  /** The sale `id` exists and belongs to `company` (`findByEmpresaIdAndId`). */
  predicate SaleOf(s: Store, company: Id, id: Id) {
    id in s.sales && s.sales[id].company == company
  }

  /** The status changes the ledger allows: a pending sale may be confirmed or
      cancelled, a confirmed one cancelled, and a cancelled one never changes. */
  predicate Allowed(from: SaleStatus, to: SaleStatus) {
    || (from == Pending && to == Confirmed)
    || (from == Pending && to == Cancelled)
    || (from == Confirmed && to == Cancelled)
  }

  /** The seller profile whose login is `user` (`findByUsuarioId`); at most one
      exists because the seller's `user_id` column is unique. */
  function SellerOfUser(s: Store, user: Id): (r: Option<Id>)
    requires UniqueSellerUsers(s.sellers)
    ensures r.Some? <==> exists id :: id in s.sellers && s.sellers[id].user == user
    ensures r.Some? ==> r.value in s.sellers && s.sellers[r.value].user == user
  {
    if exists id :: id in s.sellers && s.sellers[id].user == user then
      var id :| id in s.sellers && s.sellers[id].user == user;
      Some(id)
    else None
  }

  /** Stores `sale` under the next sale id. */
  function Insert(s: Store, sale: Sale): Saved<Sale> {
    var sale' := sale.(id := s.nextSale);
    Saved(s.(sales := s.sales[sale'.id := sale'], nextSale := s.nextSale + 1), sale')
  }

  /** `lancar`: an administrator records a sale for a seller of their own
      company. Another company's seller is NotFound. The sale is CONFIRMADA,
      tagged with the caller's company, dated `now`, with the commission of the
      seller's percentage. The request's description is not copied. */
  function RecordByAdmin(
    s: Store, auth: Option<Authentication>, sellerId: Id, amount: Cents,
    description: Option<string>, now: Timestamp)
    : (r: Result<Saved<Sale>>)
    requires amount > 0
    ensures CurrentCompanyId(auth).Err? ==> r == Err(CurrentCompanyId(auth).error)
    ensures CurrentCompanyId(auth).Ok? ==>
      && (r.Ok? <==> SellerOf(s, CurrentCompanyId(auth).value, sellerId))
      && (r.Err? ==> r.error == NotFound(SellerNotFound(sellerId)))
    ensures r.Ok? ==>
      var sale := r.value.entity;
      && sale.status == Confirmed
      && sale.company == CurrentCompanyId(auth).value
      && sale.seller == sellerId
      && sale.amount == amount
      && sale.commission == Commission(amount, s.sellers[sellerId].percentage)
      && sale.date == now
      && sale.description.None?
      && r.value.store == s.(sales := s.sales[sale.id := sale], nextSale := s.nextSale + 1)
    ensures r.Ok? && Valid(s) ==> r.value.entity.id !in s.sales && Valid(r.value.store)
  {
    var company :- CurrentCompanyId(auth);
    if !SellerOf(s, company, sellerId) then Err(NotFound(SellerNotFound(sellerId)))
    else
      var seller := s.sellers[sellerId];
      var commission := Commission(amount, seller.percentage);
      Ok(Insert(s, Sale(0, amount, commission, now, Confirmed, sellerId, None, company)))
  }

  /** `lancarPeloVendedor`: a seller records a sale for themselves. The caller's
      company is read first (a user without one dereferences null), then the
      seller profile of the caller's login (none: NotFound). The sale is
      PENDENTE, tagged with the caller's company, with the same commission rule. */
  function RecordBySelf(s: Store, auth: Option<Authentication>, amount: Cents, now: Timestamp)
    : (r: Result<Saved<Sale>>)
    requires amount > 0
    requires UniqueSellerUsers(s.sellers)
    ensures CurrentUser(auth).Err? ==> r == Err(CurrentUser(auth).error)
    ensures CurrentUser(auth).Ok? && CurrentUser(auth).value.company.None? ==> r == Err(NullPointer)
    ensures CurrentCompanyId(auth).Ok? ==>
      && (r.Ok? <==> SellerOfUser(s, CurrentUser(auth).value.id).Some?)
      && (r.Err? ==> r.error == NotFound(NoSellerProfile))
    ensures r.Ok? ==>
      var sale := r.value.entity;
      && sale.seller in s.sellers
      && var seller := s.sellers[sale.seller];
      && seller.user == CurrentUser(auth).value.id
      && sale.status == Pending
      && sale.company == CurrentCompanyId(auth).value
      && sale.amount == amount
      && sale.commission == Commission(amount, seller.percentage)
      && sale.date == now
      && sale.description.None?
      && r.value.store == s.(sales := s.sales[sale.id := sale], nextSale := s.nextSale + 1)
    ensures r.Ok? && Valid(s) && PrincipalInStore(s, auth) ==>
      r.value.entity.id !in s.sales && Valid(r.value.store)
  {
    CompanyIsCurrentUsersCompany(auth);
    var user :- CurrentUser(auth);
    if user.company.None? then Err(NullPointer)
    else
      var company := user.company.value;
      match SellerOfUser(s, user.id)
      case None => Err(NotFound(NoSellerProfile))
      case Some(sellerId) =>
        var seller := s.sellers[sellerId];
        var commission := Commission(amount, seller.percentage);
        Ok(Insert(s, Sale(0, amount, commission, now, Pending, sellerId, None, company)))
  }

  /** The seller's display name: its login's name, or a fixed placeholder. */
  function SellerName(s: Store, sellerId: Id): string {
    if sellerId in s.sellers && s.sellers[sellerId].user in s.users
    then s.users[s.sellers[sellerId].user].name
    else UnknownSeller
  }

  /** `VendaResponseDTO.fromEntity`. The Java code reports a null seller id for
      a sale without a seller; `Valid` rules that sale out, so the seller id is
      always reported here. */
  function Respond(s: Store, sale: Sale): SaleResponse {
    SaleResponse(sale.id, sale.amount, sale.commission, sale.date, sale.seller, SellerName(s, sale.seller))
  }

  /** `listar`: one response per sale of the caller's company, and no other. */
  function ListForCompany(s: Store, auth: Option<Authentication>): (r: Result<map<Id, SaleResponse>>)
    ensures r.Ok? <==> CurrentCompanyId(auth).Ok?
    ensures r.Err? ==> r.error == CurrentCompanyId(auth).error
    ensures r.Ok? ==>
      forall id :: id in r.value <==> SaleOf(s, CurrentCompanyId(auth).value, id)
    ensures r.Ok? ==> forall id :: id in r.value ==>
      && id in s.sales
      && var sale := s.sales[id];
      && r.value[id].id == sale.id
      && r.value[id].amount == sale.amount
      && r.value[id].commission == sale.commission
      && r.value[id].date == sale.date
      && r.value[id].sellerId == sale.seller
      && (sale.seller in s.sellers && s.sellers[sale.seller].user in s.users ==>
            r.value[id].sellerName == s.users[s.sellers[sale.seller].user].name)
      && (!(sale.seller in s.sellers && s.sellers[sale.seller].user in s.users) ==>
            r.value[id].sellerName == UnknownSeller)
  {
    var company :- CurrentCompanyId(auth);
    Ok(map id | id in s.sales && s.sales[id].company == company :: Respond(s, s.sales[id]))
  }

  /** `listarMinhasVendas`: the sales of the caller's own seller profile, and
      NotFound when the caller has none. */
  function ListMine(s: Store, auth: Option<Authentication>): (r: Result<map<Id, Sale>>)
    requires UniqueSellerUsers(s.sellers)
    ensures CurrentUser(auth).Err? ==> r == Err(CurrentUser(auth).error)
    ensures CurrentUser(auth).Ok? ==>
      && (r.Ok? <==> SellerOfUser(s, CurrentUser(auth).value.id).Some?)
      && (r.Err? ==> r.error == NotFound(NoSellerProfile))
    ensures r.Ok? ==>
      forall id :: id in r.value <==>
        id in s.sales && s.sales[id].seller in s.sellers &&
        s.sellers[s.sales[id].seller].user == CurrentUser(auth).value.id
    ensures r.Ok? ==> forall id :: id in r.value ==> r.value[id] == s.sales[id]
  {
    var user :- CurrentUser(auth);
    match SellerOfUser(s, user.id)
    case None => Err(NotFound(NoSellerProfile))
    case Some(sellerId) =>
      Ok(map id | id in s.sales && s.sales[id].seller == sellerId :: s.sales[id])
  }

  /** `atualizarVenda`: sets a sale's amount and description and recomputes its
      commission from the seller's current percentage. Status, date, seller and
      company are untouched. A sale outside the caller's company is NotFound.
      The description is always replaced, so an absent one clears it. */
  function UpdateSale(
    s: Store, auth: Option<Authentication>, saleId: Id, amount: Cents, description: Option<string>)
    : (r: Result<Saved<SaleResponse>>)
    requires amount > 0
    ensures CurrentCompanyId(auth).Err? ==> r == Err(CurrentCompanyId(auth).error)
    ensures CurrentCompanyId(auth).Ok? && !SaleOf(s, CurrentCompanyId(auth).value, saleId) ==>
              r == Err(NotFound(SaleNotFound(saleId)))
    ensures CurrentCompanyId(auth).Ok? && SaleOf(s, CurrentCompanyId(auth).value, saleId) ==>
              && (r.Ok? <==> s.sales[saleId].seller in s.sellers)
              && (r.Err? ==> r.error == IllegalState(SaleWithoutSeller))
    ensures r.Ok? ==>
      var before := s.sales[saleId];
      var after := before.(amount := amount, description := description,
                           commission := Commission(amount, s.sellers[before.seller].percentage));
      && r.value.store == s.(sales := s.sales[saleId := after])
      && r.value.entity == Respond(r.value.store, after)
    ensures r.Ok? && Valid(s) ==> Valid(r.value.store)
  {
    var company :- CurrentCompanyId(auth);
    if !SaleOf(s, company, saleId) then Err(NotFound(SaleNotFound(saleId)))
    else
      var sale := s.sales[saleId];
      if sale.seller !in s.sellers then Err(IllegalState(SaleWithoutSeller))
      else
        var percentage := s.sellers[sale.seller].percentage;
        var sale' := sale.(amount := amount, description := description,
                           commission := Commission(amount, percentage));
        var s' := s.(sales := s.sales[saleId := sale']);
        Ok(Saved(s', Respond(s', sale')))
  }

  /** `aprovarVenda`: PENDENTE becomes CONFIRMADA; any other status is refused
      with a message naming it. A sale outside the caller's company is NotFound. */
  function Approve(s: Store, auth: Option<Authentication>, saleId: Id): (r: Result<Saved<Sale>>)
    ensures CurrentCompanyId(auth).Err? ==> r == Err(CurrentCompanyId(auth).error)
    ensures CurrentCompanyId(auth).Ok? && !SaleOf(s, CurrentCompanyId(auth).value, saleId) ==>
              r == Err(NotFound(SaleNotFound(saleId)))
    ensures CurrentCompanyId(auth).Ok? && SaleOf(s, CurrentCompanyId(auth).value, saleId) ==>
              && (r.Ok? <==> s.sales[saleId].status == Pending)
              && (r.Err? ==> r.error == IllegalState(NotPending(s.sales[saleId].status)))
    ensures r.Ok? ==>
      && r.value.entity == s.sales[saleId].(status := Confirmed)
      && r.value.store == s.(sales := s.sales[saleId := r.value.entity])
    ensures r.Ok? && Valid(s) ==> Valid(r.value.store)
  {
    var company :- CurrentCompanyId(auth);
    if !SaleOf(s, company, saleId) then Err(NotFound(SaleNotFound(saleId)))
    else
      var sale := s.sales[saleId];
      if sale.status != Pending then Err(IllegalState(NotPending(sale.status)))
      else
        var sale' := sale.(status := Confirmed);
        Ok(Saved(s.(sales := s.sales[saleId := sale']), sale'))
  }

  /** `cancelarVenda`: PENDENTE or CONFIRMADA becomes CANCELADA; an already
      cancelled sale is refused. A sale outside the caller's company is NotFound. */
  function Cancel(s: Store, auth: Option<Authentication>, saleId: Id): (r: Result<Saved<Sale>>)
    ensures CurrentCompanyId(auth).Err? ==> r == Err(CurrentCompanyId(auth).error)
    ensures CurrentCompanyId(auth).Ok? && !SaleOf(s, CurrentCompanyId(auth).value, saleId) ==>
              r == Err(NotFound(SaleNotFound(saleId)))
    ensures CurrentCompanyId(auth).Ok? && SaleOf(s, CurrentCompanyId(auth).value, saleId) ==>
              && (r.Ok? <==> s.sales[saleId].status != Cancelled)
              && (r.Err? ==> r.error == IllegalState(AlreadyCancelled))
    ensures r.Ok? ==>
      && r.value.entity == s.sales[saleId].(status := Cancelled)
      && r.value.store == s.(sales := s.sales[saleId := r.value.entity])
    ensures r.Ok? && Valid(s) ==> Valid(r.value.store)
  {
    var company :- CurrentCompanyId(auth);
    if !SaleOf(s, company, saleId) then Err(NotFound(SaleNotFound(saleId)))
    else
      var sale := s.sales[saleId];
      if sale.status == Cancelled then Err(IllegalState(AlreadyCancelled))
      else
        var sale' := sale.(status := Cancelled);
        Ok(Saved(s.(sales := s.sales[saleId := sale']), sale'))
  }

  /** The two status operations realise exactly the allowed transitions: each
      succeeds on a sale of the caller's company iff its move is allowed. */
  lemma StatusOperationsMatchStateMachine(s: Store, auth: Option<Authentication>, saleId: Id)
    requires CurrentCompanyId(auth).Ok? && SaleOf(s, CurrentCompanyId(auth).value, saleId)
    ensures Approve(s, auth, saleId).Ok? <==> Allowed(s.sales[saleId].status, Confirmed)
    ensures Cancel(s, auth, saleId).Ok? <==> Allowed(s.sales[saleId].status, Cancelled)
    ensures forall to :: Allowed(s.sales[saleId].status, to) ==>
      (to == Confirmed && Approve(s, auth, saleId).Ok?) || (to == Cancelled && Cancel(s, auth, saleId).Ok?)
  {
  }

  /** Approving twice: the second call is refused, naming CONFIRMADA. */
  lemma ApproveTwiceFails(s: Store, auth: Option<Authentication>, saleId: Id)
    requires Approve(s, auth, saleId).Ok?
    ensures Approve(Approve(s, auth, saleId).value.store, auth, saleId) ==
              Err(IllegalState(NotPending(Confirmed)))
  {
  }

  /** Cancelling a cancelled sale always fails, and so does the second of two cancels. */
  lemma CancelTwiceFails(s: Store, auth: Option<Authentication>, saleId: Id)
    requires Cancel(s, auth, saleId).Ok?
    ensures Cancel(Cancel(s, auth, saleId).value.store, auth, saleId) == Err(IllegalState(AlreadyCancelled))
  {
  }

  /** CANCELADA is terminal: neither status operation succeeds on it, and an edit keeps it. */
  lemma CancelledIsTerminal(
    s: Store, auth: Option<Authentication>, saleId: Id, amount: Cents, description: Option<string>)
    requires saleId in s.sales && s.sales[saleId].status == Cancelled
    requires amount > 0
    ensures Approve(s, auth, saleId).Err?
    ensures Cancel(s, auth, saleId).Err?
    ensures UpdateSale(s, auth, saleId, amount, description).Ok? ==>
              UpdateSale(s, auth, saleId, amount, description).value.store.sales[saleId].status == Cancelled
  {
  }

  /** Editing a sale after its seller's percentage changed uses the new
      percentage, not the one in force when the sale was recorded. */
  lemma EditUsesCurrentPercentage(
    s: Store, auth: Option<Authentication>, sellerId: Id, percentage: int,
    saleId: Id, amount: Cents, description: Option<string>)
    requires Valid(s)
    requires percentage >= 0 && amount > 0
    requires UpdateSeller(s, auth, sellerId, percentage).Ok?
    requires saleId in s.sales && s.sales[saleId].seller == sellerId
    ensures var s' := UpdateSeller(s, auth, sellerId, percentage).value.store;
            var r := UpdateSale(s', auth, saleId, amount, description);
            && r.Ok?
            && r.value.store.sales[saleId].commission == Commission(amount, Some(percentage))
  {
  }

  /** Tenant isolation: a company's listing never shows another company's sale,
      and no write through one company's caller touches another company's sales. */
  lemma WritesStayInTenant(
    s: Store, auth: Option<Authentication>, saleId: Id, amount: Cents, description: Option<string>,
    other: Id)
    requires amount > 0
    requires CurrentCompanyId(auth).Ok?
    requires other in s.sales && s.sales[other].company != CurrentCompanyId(auth).value
    ensures ListForCompany(s, auth).Ok? && other !in ListForCompany(s, auth).value
    ensures Approve(s, auth, saleId).Ok? ==> Approve(s, auth, saleId).value.store.sales[other] == s.sales[other]
    ensures Cancel(s, auth, saleId).Ok? ==> Cancel(s, auth, saleId).value.store.sales[other] == s.sales[other]
    ensures UpdateSale(s, auth, saleId, amount, description).Ok? ==>
              UpdateSale(s, auth, saleId, amount, description).value.store.sales[other] == s.sales[other]
  {
  }
}
