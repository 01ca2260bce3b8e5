# comissoes-api, modelled in Dafny

comissoes-api is a multi-tenant back end for sales commissions. Client
companies (`Empresa`) subscribe to product modules (`Modulo`); a company's
administrator registers salespeople (`Vendedor`), each with a login (`User`)
and a commission percentage, and records sales (`Venda`). A sale's commission
is its amount times the seller's percentage, rounded HALF_UP to two decimals.
Salespeople can also record their own sales. Those start PENDENTE and are
approved (CONFIRMADA) or cancelled (CANCELADA) by the administrator. Every
query and write is scoped to the caller's company. Module entitlement is
checked per module key. Login returns a token and the company's active
module keys.

The model is a set of pure functions over an immutable `Store`:

- The store has one map per table and one IDENTITY counter per table.
- `Model.Valid` is the integrity the schema and the services keep: foreign
  keys exist, emails and seller logins are unique, a sale carries its
  seller's company, amounts are positive and percentages non-negative.
- Every write returns the new store and the saved entity (`Saved`).
- Every failure is a `Result` error naming the Java exception and its message.

Module layout:

- `Results`: `Option`, `Result`, and the errors.
- `Decimals`: scale-2 `BigDecimal` arithmetic. Amounts are in cents,
  percentages in hundredths of a percent, and rounding is HALF_UP.
- `Model`: the entities, the store and its invariant.
- `Tenancy`: `TenantService`.
- `Entitlement`: `CustomSecurityService.hasModulo`.
- `Catalog`: `ModuloService`.
- `Companies`: `EmpresaService`.
- `Sellers`: `VendedorService`.
- `Sales`: `VendaService` except the dashboard.
- `Dashboard`: the Java-side arithmetic of `VendaService.gerarDashboard`.
- `SellerDetails`: `VendedorDetalhadoResponseDTO.fromEntity`.
- `Login`: `AutenticacaoService.login`.

Inputs the Java code reads from its surroundings become parameters:

- The Spring security context becomes `auth: Option<Authentication>`.
- The clock becomes `now`.
- The password encoder's output becomes `passwordHash`.
- The random password becomes `password`.
- The authentication manager's verdict becomes `credentialsAccepted`.
- The JWT service becomes `issue`.
- The repository queries behind the dashboard become `Queries`.

The model follows the code where it departs from its documented intent:

- `lancar` never copies the request's description, so an administrator's sale has none.
- The tenant lookup on a principal without a company dereferences null
  (`NullPointer`); it is not an `IllegalStateException`. Every stored user has
  a company, because the column is NOT NULL, so only a principal object that
  does not come from the database can reach this path.
- `lancarPeloVendedor` reads the caller's company before it looks up the
  seller profile, so a company-less caller fails with `NullPointer` first.
- `hasModulo` does not consult `isAuthenticated()`.
- `EmpresaService.criar` does not copy the legal name (`razaoSocial`).
- `EmpresaService.criar` does not check the admin email. A duplicate is
  rejected by the unique email column, which aborts the transaction.
- The cancel refusal message does not name the status.
- `atualizarVenda` always copies the request's description, so an absent
  description clears the stored one (VendaService.java:231). The request type
  documents a null description as "not changed" (VendaUpdateRequestDTO.java:24).
- If the month query answers with null SUMs and a COUNT of 0, the totals stay
  null and the averages are zero; the query's SQL is not part of this model.

## Model

| member | source | states |
|---|---|---|
| Decimals.DivHalfUp | src/main/java/br/com/andrebrandao/comissoes_api/produtos/comissoes/service/VendaService.java:145-147 | the quotient is within half a unit of n/d, and a tie rounds away from zero, for either sign of n (BigDecimal HALF_UP) |
| Decimals.HalfUpUnique | src/main/java/br/com/andrebrandao/comissoes_api/produtos/comissoes/service/VendaService.java:145-147 | any integer within half a unit (ties away from zero) is the HALF_UP result, so the rounding is fully determined |
| Decimals.Commission | src/main/java/br/com/andrebrandao/comissoes_api/produtos/comissoes/service/VendaService.java:68-79 | commission is amount × percentage / 100 rounded HALF_UP to cents; a null percentage gives zero; non-negative inputs give a non-negative commission |
| Decimals.CommissionIsNearestCent | src/main/java/br/com/andrebrandao/comissoes_api/produtos/comissoes/service/VendaService.java:68-79 | the commission is the one cent value within half a cent of the exact product |
| Decimals.CommissionExamples | src/main/java/br/com/andrebrandao/comissoes_api/produtos/comissoes/service/VendaService.java:68-79 | 1000.00 at 5.00% earns 50.00; 999.99 at 3.33% earns 33.30; a null percentage earns 0 |
| Decimals.Average | src/main/java/br/com/andrebrandao/comissoes_api/produtos/comissoes/dto/VendedorDetalhadoResponseDTO.java:50-55 | the average is zero for a non-positive count, otherwise total/count rounded HALF_UP; it never divides by zero |
| Model.InsertUserKeepsUniqueEmails | src/main/java/br/com/andrebrandao/comissoes_api/security/model/User.java:48 | adding a user whose email nobody has keeps the email column unique |
| Model.InsertSellerKeepsUniqueUsers | src/main/java/br/com/andrebrandao/comissoes_api/produtos/comissoes/model/Vendedor.java:49-50 | adding a seller for a login no seller has keeps the seller-to-login link one-to-one |
| Model.EmptyStore | src/main/java/br/com/andrebrandao/comissoes_api/produtos/comissoes/model/Venda.java:35-73 | an empty database satisfies the integrity invariant the services preserve |
| Model.ActiveKeys | src/main/java/br/com/andrebrandao/comissoes_api/security/service/AutenticacaoService.java:66-69 | a key is listed exactly when some active module of the company that exists in the catalogue carries it |
| Tenancy.CurrentCompanyId | src/main/java/br/com/andrebrandao/comissoes_api/security/service/TenantService.java:25-46 | succeeds exactly for an authenticated User principal with a company and returns that company; otherwise the two IllegalState messages, or a null dereference for a company-less user |
| Tenancy.CurrentUser | src/main/java/br/com/andrebrandao/comissoes_api/security/service/TenantService.java:54-66 | succeeds exactly for an authenticated User principal, returning it; every failure is IllegalState |
| Tenancy.CompanyIsCurrentUsersCompany | src/main/java/br/com/andrebrandao/comissoes_api/security/service/TenantService.java:25-66 | the tenant is the current user's company, and the tenant lookup fails with the same error whenever the user lookup does |
| Entitlement.HasModulo | src/main/java/br/com/andrebrandao/comissoes_api/produtos/comissoes/service/CustomSecurityService.java:33-69 | true iff the principal is a User whose company has an active module whose key equals the requested key; false for no authentication, a non-User principal, no company or no modules |
| Entitlement.NoModulesDeniesEveryKey | src/main/java/br/com/andrebrandao/comissoes_api/produtos/comissoes/service/CustomSecurityService.java:51-59 | a company without active modules is denied every key |
| Entitlement.OnlyExactKeysGranted | src/main/java/br/com/andrebrandao/comissoes_api/produtos/comissoes/service/CustomSecurityService.java:61-68 | a granted key is the exact key of an active, stored module of the caller's company |
| Catalog.ListAll | src/main/java/br/com/andrebrandao/comissoes_api/core/service/ModuloService.java:29-31 | every stored module is listed, nothing else is, and on a valid store each entry carries the id it is listed under |
| Catalog.CreatedModuleIsListed | src/main/java/br/com/andrebrandao/comissoes_api/core/service/ModuloService.java:29-65 | after a creation the full listing gains exactly the new module, under its own id, and every earlier entry is unchanged |
| Catalog.FindModule | src/main/java/br/com/andrebrandao/comissoes_api/core/service/ModuloService.java:40-43 | found iff stored, returning that module; otherwise NotFound with the id in the message |
| Catalog.CreateModule | src/main/java/br/com/andrebrandao/comissoes_api/core/service/ModuloService.java:51-65 | the saved module carries all six request fields under an id not in use, no other table changes, and validity is preserved |
| Catalog.UpdateModule | src/main/java/br/com/andrebrandao/comissoes_api/core/service/ModuloService.java:75-91 | an existing module gets all six request fields and keeps its id; a missing one is NotFound; validity is preserved |
| Catalog.ListReadyForSale | src/main/java/br/com/andrebrandao/comissoes_api/core/service/ModuloService.java:107-111 | exactly the modules whose status is ready for production |
| Catalog.PublicCatalogue | src/main/java/br/com/andrebrandao/comissoes_api/core/service/ModuloService.java:120-128 | one entry per ready module, carrying its id, name, key, description and price |
| Catalog.CreatedModuleIsFound | src/main/java/br/com/andrebrandao/comissoes_api/core/service/ModuloService.java:40-65 | looking up a freshly created module returns it |
| Catalog.CreatedModuleListedIffReady | src/main/java/br/com/andrebrandao/comissoes_api/core/service/ModuloService.java:51-128 | a new module is in the public catalogue iff it was created ready for production, and no other entry changes |
| Companies.FindCompany | src/main/java/br/com/andrebrandao/comissoes_api/core/service/EmpresaService.java:42-45 | found iff stored, returning that company; otherwise NotFound with the id |
| Companies.DefaultModules | src/main/java/br/com/andrebrandao/comissoes_api/core/service/EmpresaService.java:70-74 | exactly the stored modules flagged as default |
| Companies.CreateCompany | src/main/java/br/com/andrebrandao/comissoes_api/core/service/EmpresaService.java:59-91 | succeeds iff the admin email is unused; the company gets the trade name, CNPJ and now, and exactly the default modules; one ROLE_ADMIN user of that company is added; nothing else changes; validity is preserved |
| Companies.AddCompanyKeepsValid | src/main/java/br/com/andrebrandao/comissoes_api/core/service/EmpresaService.java:62-87 | saving a new company with the default modules and its admin, whose email is unused, keeps every integrity rule |
| Companies.CreatedCompanyIsFound | src/main/java/br/com/andrebrandao/comissoes_api/core/service/EmpresaService.java:42-91 | a company saved by onboarding is found by its new id as saved, and its administrator is stored with its email and bound to it |
| Companies.UpdateCompany | src/main/java/br/com/andrebrandao/comissoes_api/core/service/EmpresaService.java:94-99 | only trade name and CNPJ change; a missing company is NotFound; validity is preserved |
| Companies.FoundAllIffSubset | src/main/java/br/com/andrebrandao/comissoes_api/core/service/EmpresaService.java:107-110 | the count of found ids equals the count requested exactly when every requested id exists |
| Companies.UpdateActiveModules | src/main/java/br/com/andrebrandao/comissoes_api/core/service/EmpresaService.java:102-115 | succeeds iff the company exists and every requested id names a module; the active set becomes exactly the requested set (empty for null); a missing id changes nothing; validity is preserved |
| Companies.ReplaceActiveModulesKeepsValid | src/main/java/br/com/andrebrandao/comissoes_api/core/service/EmpresaService.java:113-114 | replacing a stored company's active modules by catalogued ones keeps every integrity rule |
| Companies.EntitlementFollowsActiveModules | src/main/java/br/com/andrebrandao/comissoes_api/core/service/EmpresaService.java:102-115 | after the replacement, a user of the company is entitled to a key iff one of the requested modules carries it |
| Sellers.CreateSeller | src/main/java/br/com/andrebrandao/comissoes_api/produtos/comissoes/service/VendedorService.java:51-78 | an unused email gives a ROLE_VENDEDOR login of the caller's company plus a seller with the requested percentage linked to it; a used email is IllegalState and nothing is saved; validity is preserved |
| Sellers.AddSellerKeepsValid | src/main/java/br/com/andrebrandao/comissoes_api/produtos/comissoes/service/VendedorService.java:55-75 | saving a new login with an unused email and a seller of the caller's company linked to it keeps every integrity rule, including one seller per login |
| Sellers.ListSellers | src/main/java/br/com/andrebrandao/comissoes_api/produtos/comissoes/service/VendedorService.java:86-89 | exactly the sellers of the caller's company |
| Sellers.FindSeller | src/main/java/br/com/andrebrandao/comissoes_api/produtos/comissoes/service/VendedorService.java:100-105 | found iff the seller belongs to the caller's company; another company's seller is NotFound like a missing one |
| Sellers.UpdateSeller | src/main/java/br/com/andrebrandao/comissoes_api/produtos/comissoes/service/VendedorService.java:117-126 | only the percentage changes, and only for a seller of the caller's company; validity is preserved |
| Sellers.CreatedSellerIsFound | src/main/java/br/com/andrebrandao/comissoes_api/produtos/comissoes/service/VendedorService.java:51-105 | a created seller is found by id with the requested percentage and is in its company's listing |
| Sales.SellerOfUser | src/main/java/br/com/andrebrandao/comissoes_api/produtos/comissoes/service/VendaService.java:279-281 | the seller profile whose login is the user, present iff one exists |
| Sales.RecordByAdmin | src/main/java/br/com/andrebrandao/comissoes_api/produtos/comissoes/service/VendaService.java:57-93 | succeeds iff the seller belongs to the caller's company; the sale is CONFIRMADA, of that seller and company, with the amount, now and the commission of the seller's percentage; only the new sale is added; validity is preserved |
| Sales.RecordBySelf | src/main/java/br/com/andrebrandao/comissoes_api/produtos/comissoes/service/VendaService.java:272-305 | a company-less caller is a null dereference; otherwise succeeds iff the caller has a seller profile; the sale is PENDENTE, of the caller's own profile and company, with the commission rule; validity is preserved |
| Sales.ListForCompany | src/main/java/br/com/andrebrandao/comissoes_api/produtos/comissoes/service/VendaService.java:102-112 | one response per sale of the caller's company and none other, each with the sale's fields and its seller's login name, or "Vendedor Desconhecido" when the seller or its login is missing |
| Sales.ListMine | src/main/java/br/com/andrebrandao/comissoes_api/produtos/comissoes/service/VendaService.java:313-325 | exactly the sales of the caller's own seller profile; NotFound when the caller has none |
| Sales.UpdateSale | src/main/java/br/com/andrebrandao/comissoes_api/produtos/comissoes/service/VendaService.java:215-257 | a sale of the caller's company gets the new amount and description and a commission recomputed from the seller's current percentage; status, date, seller and company are kept; another company's sale is NotFound; a sale without a seller is IllegalState; validity is preserved |
| Sales.Approve | src/main/java/br/com/andrebrandao/comissoes_api/produtos/comissoes/service/VendaService.java:341-361 | succeeds iff the sale is the caller company's and PENDENTE, making it CONFIRMADA and changing nothing else; any other status is refused with a message naming it |
| Sales.Cancel | src/main/java/br/com/andrebrandao/comissoes_api/produtos/comissoes/service/VendaService.java:373-392 | succeeds iff the sale is the caller company's and not yet CANCELADA, making it CANCELADA and changing nothing else |
| Sales.StatusOperationsMatchStateMachine | src/main/java/br/com/andrebrandao/comissoes_api/produtos/comissoes/service/VendaService.java:341-392 | approve and cancel succeed exactly on the allowed transitions PENDENTE→CONFIRMADA, PENDENTE→CANCELADA, CONFIRMADA→CANCELADA |
| Sales.ApproveTwiceFails | src/main/java/br/com/andrebrandao/comissoes_api/produtos/comissoes/service/VendaService.java:341-361 | a second approval is refused, naming CONFIRMADA |
| Sales.CancelTwiceFails | src/main/java/br/com/andrebrandao/comissoes_api/produtos/comissoes/service/VendaService.java:373-392 | a second cancellation is refused |
| Sales.CancelledIsTerminal | src/main/java/br/com/andrebrandao/comissoes_api/produtos/comissoes/service/VendaService.java:215-392 | no status operation succeeds on a cancelled sale, and an edit leaves it cancelled |
| Sales.EditUsesCurrentPercentage | src/main/java/br/com/andrebrandao/comissoes_api/produtos/comissoes/service/VendaService.java:240-250 | editing a sale after its seller's percentage changed computes the commission with the new percentage |
| Sales.WritesStayInTenant | src/main/java/br/com/andrebrandao/comissoes_api/produtos/comissoes/service/VendaService.java:102-392 | a sale of another company is never listed, approved, cancelled or edited through the caller |
| Dashboard.AsDecimal | src/main/java/br/com/andrebrandao/comissoes_api/produtos/comissoes/service/VendaService.java:131-132 | a null cell is null, a decimal is read, anything else fails the cast |
| Dashboard.AsCount | src/main/java/br/com/andrebrandao/comissoes_api/produtos/comissoes/service/VendaService.java:135-139 | an integer is read as is, a decimal is truncated toward zero, a null or non-number is 0 |
| Dashboard.AverageOf | src/main/java/br/com/andrebrandao/comissoes_api/produtos/comissoes/service/VendaService.java:143-153 | zero for a non-positive count; a null total with a positive count is a null dereference; otherwise the HALF_UP average |
| Dashboard.ComputeTotals | src/main/java/br/com/andrebrandao/comissoes_api/produtos/comissoes/service/VendaService.java:126-153 | a null, empty or malformed answer gives zeros; otherwise totals and count come from the first row, a total cell that is neither null nor decimal fails the cast (first cell checked first), a null total with a positive count is a null dereference, and the averages are HALF_UP total/count when the count is positive and zero otherwise |
| Dashboard.GenerateDashboard | src/main/java/br/com/andrebrandao/comissoes_api/produtos/comissoes/service/VendaService.java:119-203 | every query is asked about the caller's company, the totals are post-processed, and the lists are passed through unchanged |
| Dashboard.EmptyMonthHasZeroAverages | src/main/java/br/com/andrebrandao/comissoes_api/produtos/comissoes/service/VendaService.java:126-153 | if the month query answers with two null SUMs and a COUNT of 0, the totals stay null and both averages are zero, with no division |
| SellerDetails.ReduceCommissions | src/main/java/br/com/andrebrandao/comissoes_api/produtos/comissoes/dto/VendedorDetalhadoResponseDTO.java:46-48 | the fold succeeds iff every row has a commission; a null one is a null dereference |
| SellerDetails.ReduceIsSum | src/main/java/br/com/andrebrandao/comissoes_api/produtos/comissoes/dto/VendedorDetalhadoResponseDTO.java:46-48 | the left fold from a running total adds exactly the sum of the rows' commissions |
| SellerDetails.SumOfFirstAndRest | src/main/java/br/com/andrebrandao/comissoes_api/produtos/comissoes/dto/VendedorDetalhadoResponseDTO.java:46-48 | summing from the front or from the back gives the same total |
| SellerDetails.FromEntity | src/main/java/br/com/andrebrandao/comissoes_api/produtos/comissoes/dto/VendedorDetalhadoResponseDTO.java:37-72 | a null seller gives null; otherwise every field is copied, a null count or amount becomes zero, name and email are those of the seller's own login in the store and null when it is missing, and the average commission is the HALF_UP mean of the summed history commissions over a positive count, else zero |
| SellerDetails.StoredSellerIsNamed | src/main/java/br/com/andrebrandao/comissoes_api/produtos/comissoes/dto/VendedorDetalhadoResponseDTO.java:58-68 | on a valid store a stored seller's view always carries its own login's name and email and that login's company |
| Login.UserByEmail | src/main/java/br/com/andrebrandao/comissoes_api/security/service/AutenticacaoService.java:56-57 | the unique user with that email, present iff the email is in use |
| Login.Login | src/main/java/br/com/andrebrandao/comissoes_api/security/service/AutenticacaoService.java:39-76 | refused credentials are BadCredentials; a vanished user is UsernameNotFound; a company-less user is a null dereference; otherwise the token is the one issued for that user, and the permissions are exactly the keys of the company's active modules |
| Login.AcceptedLoginSucceeds | src/main/java/br/com/andrebrandao/comissoes_api/security/service/AutenticacaoService.java:56-69 | on a valid store, accepted credentials for a stored email always log in, with the token issued for that stored user |
| Login.LoginAgreesWithGuard | src/main/java/br/com/andrebrandao/comissoes_api/security/service/AutenticacaoService.java:66-69 | the permissions sent at login are exactly the keys the entitlement guard grants the same user |

## Left out

- Spring wiring, HTTP controllers, Bean Validation and the exception-to-status mapping are not modelled. Request validation appears only as preconditions: a sale amount is positive and a percentage non-negative.
- The JWT itself (signing, claims, expiry) is not modelled. The token is whatever the `issue` parameter returns.
- Password encoding, random password generation and the authentication manager's password check are parameters.
- The SQL of the dashboard's five repository queries is not modelled. Their answers are uninterpreted functions of the company id, so ranking order, top-5 limits and monthly grouping are not stated. Whether SUM over a month without sales answers null is therefore not stated either.
- Dashboard.GenerateDashboard: the row-to-DTO conversion of the ranking and history answers (VendaService.java:156-162 and 182-188) is not modelled. Those answers arrive already typed, so the casts `(String)`, `(Long)` and `(BigDecimal)` that can throw a ClassCastException (for instance on a BigInteger id), and the `((Number) obj[3]).longValue()` that throws on a null and truncates, are not represented. Only the month totals go through `Cell`. Likewise the largest and latest sales arrive as typed details: `VendaDetalheDTO.fromEntity` returns null for a sale without a seller or without a login (VendaDetalheDTO.java:30-32), and `toList()` keeps those nulls in the lists (VendaService.java:171-177). The model does not represent those null entries.
- `EmpresaService.listarTodas` is a plain `findAll` and is not modelled separately.
- `dataCadastro` of the detailed seller view is not modelled. `User` (User.java:38-65) declares no creation date, although VendedorDetalhadoResponseDTO.java:70 and UsuarioResponseDTO.java:33 call `getDataCriacao()`.
- SellerDetails.FromEntity: a null `historicoRendimentos` list, which throws a NullPointerException at VendedorDetalhadoResponseDTO.java:46, cannot be expressed, because the history is a sequence and never null.
- Only the unique email column is modelled among the database constraints. Unique module names and keys, the unique CNPJ, and the column precisions (15 and 10 digits) are not checked. A value that overflows a column is not rejected.
- Counts are unbounded integers, not 64-bit `Long`s.
- Every money value is assumed to have scale 2, as the columns declare. Inputs with more decimals are not modelled.
- Concurrency and transaction isolation are not modelled. Each operation is atomic, and a failed one leaves the store unchanged.
- Decimals.Commission: the ensures clause states the half-cent bracket only for a non-negative product. HALF_UP for a negative product follows from Decimals.DivHalfUp, but it is not restated, because validation keeps amounts and percentages non-negative.
- Sales.RecordBySelf, Sales.ListMine, Sales.SellerOfUser: require that no two sellers share a login. The seller's `user_id` column is unique, and a repository lookup that found two rows would throw instead.
- Login.Login, Login.UserByEmail: require that no two users share an email, which the unique email column guarantees.
- Three sale-side repository queries are called but not declared in VendaRepository.java:12-36 or VendedorRepository.java (line 38 only plans `findByUsuarioId`): `findByEmpresaIdComVendedor` (VendaService.java:106), the sales `findByEmpresaIdAndId` (VendaService.java:346 and 377) and `findByUsuarioId` (VendaService.java:280 and 319). The model gives each the meaning of its name, as Spring Data would derive the filter: `Sales.SaleOf` for the sale in the company, `Sales.SellerOfUser` for the profile linked to the login, and every sale of the company for `listar`. `findByEmpresaIdComVendedor` is not a name Spring Data can derive, so its filter is assumed. The tenant results of Sales.ListForCompany, Sales.Approve, Sales.Cancel and Sales.WritesStayInTenant, and the profile lookup of Sales.RecordBySelf and Sales.ListMine, hold under that reading of the queries.
- Sales.Respond: `VendaResponseDTO.fromEntity` gives a null `idVendedor` for a sale without a seller (VendaResponseDTO.java:32). The model always reports the sale's seller id, since on a valid store every sale has a stored seller.
- Ids are natural numbers. A negative `Long` id from a request path reaches `findById` and yields NotFound with a negative number in the message (for example ModuloService.java:40-43). The model cannot express that input.
