/** The persisted entities of the system and the database that holds them.

    Each JPA entity becomes an immutable record; a reference to another entity
    becomes its id. The database is a `Store` with one map per table, keyed by
    id, and one IDENTITY counter per table that hands out the next id.
 */
module Model {
  import opened Results
  import opened Decimals

  type Id = nat

  /** A `LocalDateTime`, supplied by the caller instead of read from the clock. */
  type Timestamp = int

  /** Lifecycle of a product module (`ModuloStatus`). */
  datatype ModuleStatus = InDevelopment | InTest | ReadyForProduction | Archived

  /** A sellable product module (`Modulo`); `key` is the entitlement key. */
  datatype Module = Module(
    id: Id,
    name: string,
    key: string,
    status: ModuleStatus,
    description: Option<string>,
    monthlyPrice: Cents,
    isDefault: bool)

  /** A client company, the unit of tenant isolation (`Empresa`). */
  datatype Company = Company(
    id: Id,
    tradeName: string,
    cnpj: string,
    registeredAt: Timestamp,
    legalName: Option<string>,
    activeModules: set<Id>)

  /** `Role`: ROLE_SUPER_ADMIN, ROLE_ADMIN, ROLE_VENDEDOR. */
  datatype Role = SuperAdminRole | AdminRole | SellerRole

  /** A login identity (`User`). The stored column is NOT NULL, so every stored
      user, the super-admin included, has a company; the type still allows none
      because an authenticated principal is a `User` object that need not come
      from the database. */
  datatype User = User(
    id: Id,
    name: string,
    email: string,
    passwordHash: string,
    role: Role,
    company: Option<Id>)

  /** A salesperson profile (`Vendedor`): percentage in hundredths of a percent. */
  datatype Seller = Seller(
    id: Id,
    percentage: Option<int>,
    company: Id,
    user: Id)

  /** `VendaStatus`. */
  datatype SaleStatus = Pending | Confirmed | Cancelled {
    /** The enum constant's name, as `toString()` prints it. */
    function Name(): string {
      match this
      case Pending => "PENDENTE"
      case Confirmed => "CONFIRMADA"
      case Cancelled => "CANCELADA"
    }
  }

  /** A recorded sale (`Venda`). The company is denormalised from the seller. */
  datatype Sale = Sale(
    id: Id,
    amount: Cents,
    commission: Cents,
    date: Timestamp,
    status: SaleStatus,
    seller: Id,
    description: Option<string>,
    company: Id)

  /** The database: one map per table and one IDENTITY counter per table. */
  datatype Store = Store(
    modules: map<Id, Module>,
    companies: map<Id, Company>,
    users: map<Id, User>,
    sellers: map<Id, Seller>,
    sales: map<Id, Sale>,
    nextModule: Id,
    nextCompany: Id,
    nextUser: Id,
    nextSeller: Id,
    nextSale: Id)

  /** A successful write: the store after the transaction and the saved entity. */
  datatype Saved<T> = Saved(store: Store, entity: T)

  /** No two users share an email (the unique `email` column). */
  ghost predicate UniqueEmails(users: map<Id, User>) {
    forall a, b :: a in users && b in users && users[a].email == users[b].email ==> a == b
  }

  /** No two sellers share a login (the unique `user_id` column). */
  ghost predicate UniqueSellerUsers(sellers: map<Id, Seller>) {
    forall a, b :: a in sellers && b in sellers && sellers[a].user == sellers[b].user ==> a == b
  }

  ghost predicate ValidModules(s: Store) {
    forall id :: id in s.modules ==> s.modules[id].id == id && id < s.nextModule
  }

  ghost predicate ValidCompanies(s: Store) {
    forall id :: id in s.companies ==>
      && s.companies[id].id == id
      && id < s.nextCompany
      && s.companies[id].activeModules <= s.modules.Keys
  }

  ghost predicate ValidUsers(s: Store) {
    && UniqueEmails(s.users)
    && forall id :: id in s.users ==>
         && s.users[id].id == id
         && id < s.nextUser
         && s.users[id].company.Some?
         && s.users[id].company.value in s.companies
  }

  /** A seller belongs to its login's company and has a non-negative percentage. */
  ghost predicate ValidSellers(s: Store) {
    && UniqueSellerUsers(s.sellers)
    && forall id :: id in s.sellers ==>
         && s.sellers[id].id == id
         && id < s.nextSeller
         && s.sellers[id].company in s.companies
         && s.sellers[id].user in s.users
         && s.users[s.sellers[id].user].company == Some(s.sellers[id].company)
         && s.sellers[id].percentage.GetOr(0) >= 0
  }

  /** A sale has a seller, a positive amount, and the seller's company. */
  ghost predicate ValidSales(s: Store) {
    forall id :: id in s.sales ==>
      && s.sales[id].id == id
      && id < s.nextSale
      && s.sales[id].seller in s.sellers
      && s.sales[id].company == s.sellers[s.sales[id].seller].company
      && s.sales[id].amount > 0
      && s.sales[id].commission >= 0
  }

  /** The integrity the schema and the services keep between requests. */
  ghost predicate Valid(s: Store) {
    && ValidModules(s)
    && ValidCompanies(s)
    && ValidUsers(s)
    && ValidSellers(s)
    && ValidSales(s)
  }

  /** The empty database satisfies the integrity invariant. */
  function EmptyStore(): (s: Store)
    ensures Valid(s)
    ensures s.sales == map[] && s.users == map[]
  {
    Store(map[], map[], map[], map[], map[], 1, 1, 1, 1, 1)
  }

  /** Inserting a user under a new id with an email nobody has keeps emails unique. */
  lemma InsertUserKeepsUniqueEmails(users: map<Id, User>, u: User)
    requires UniqueEmails(users) && u.id !in users
    requires forall id :: id in users ==> users[id].email != u.email
    ensures UniqueEmails(users[u.id := u])
  {
    var users' := users[u.id := u];
    forall a, b | a in users' && b in users' && users'[a].email == users'[b].email
      ensures a == b
    {
      if a != u.id && b != u.id {
        assert users'[a] == users[a] && users'[b] == users[b];
      }
    }
  }

  /** Inserting a seller under a new id for a login no seller has keeps logins unique. */
  lemma InsertSellerKeepsUniqueUsers(sellers: map<Id, Seller>, x: Seller)
    requires UniqueSellerUsers(sellers) && x.id !in sellers
    requires forall id :: id in sellers ==> sellers[id].user != x.user
    ensures UniqueSellerUsers(sellers[x.id := x])
  {
    var sellers' := sellers[x.id := x];
    forall a, b | a in sellers' && b in sellers' && sellers'[a].user == sellers'[b].user
      ensures a == b
    {
      if a != x.id && b != x.id {
        assert sellers'[a] == sellers[a] && sellers'[b] == sellers[b];
      }
    }
  }

  /** Some user already has this email (`userRepository.findByEmail(email).isPresent()`). */
  predicate EmailInUse(s: Store, email: string) {
    exists u :: u in s.users && s.users[u].email == email
  }

  /** Entitlement keys of a company's active modules (empty for an unknown company). */
  function ActiveKeys(s: Store, company: Id): (keys: set<string>)
    ensures forall k :: k in keys <==>
      company in s.companies &&
      exists m :: m in s.companies[company].activeModules && m in s.modules && s.modules[m].key == k
  {
    if company in s.companies then
      set m | m in s.companies[company].activeModules && m in s.modules :: s.modules[m].key
    else {}
  }
}
