/** The product-module catalogue (`ModuloService`). */
module Catalog {
  import opened Results
  import opened Decimals
  import opened Model

  /** `ModuloRequestDTO`: the six writable fields of a module. */
  datatype ModuleRequest = ModuleRequest(
    name: string,
    key: string,
    status: ModuleStatus,
    description: Option<string>,
    monthlyPrice: Cents,
    isDefault: bool)

  /** `ModuloCatalogoDTO`: the public view of a module, without status or default flag. */
  datatype CatalogEntry = CatalogEntry(
    id: Id,
    name: string,
    key: string,
    description: Option<string>,
    monthlyPrice: Cents)

  function ModuleNotFound(id: Id): string {
    "Módulo não encontrado com o ID: " + NatToString(id)
  }

  /** The module a request describes, stored under `id`. */
  function FromRequest(id: Id, req: ModuleRequest): Module {
    Module(id, req.name, req.key, req.status, req.description, req.monthlyPrice, req.isDefault)
  }

  /** `listarTodos`: every stored module, each under its own id. */
  function ListAll(s: Store): (r: map<Id, Module>)
    ensures r.Keys == s.modules.Keys
    ensures forall id :: id in r ==> r[id] == s.modules[id]
    ensures Valid(s) ==> forall id :: id in r ==> r[id].id == id
  {
    s.modules
  }

  /** `buscarPorId`: the module with this id, or NotFound. */
  function FindModule(s: Store, id: Id): (r: Result<Module>)
    ensures r.Ok? <==> id in s.modules
    ensures r.Ok? ==> r.value == s.modules[id]
    ensures r.Err? ==> r.error == NotFound(ModuleNotFound(id))
  {
    if id in s.modules then Ok(s.modules[id]) else Err(NotFound(ModuleNotFound(id)))
  }

  /** `criar`: stores a new module whose fields are the request's, under a fresh id. */
  function CreateModule(s: Store, req: ModuleRequest): (r: Saved<Module>)
    ensures var m := r.entity;
            && m.name == req.name && m.key == req.key && m.status == req.status
            && m.description == req.description && m.monthlyPrice == req.monthlyPrice
            && m.isDefault == req.isDefault
    ensures r.store.modules == s.modules[r.entity.id := r.entity]
    ensures r.store.companies == s.companies && r.store.users == s.users
    ensures r.store.sellers == s.sellers && r.store.sales == s.sales
    ensures Valid(s) ==> r.entity.id !in s.modules && Valid(r.store)
  {
    var m := FromRequest(s.nextModule, req);
    Saved(s.(modules := s.modules[m.id := m], nextModule := s.nextModule + 1), m)
  }

  /** `atualizar`: overwrites all six fields of an existing module, keeping its id. */
  function UpdateModule(s: Store, id: Id, req: ModuleRequest): (r: Result<Saved<Module>>)
    ensures r.Ok? <==> id in s.modules
    ensures r.Err? ==> r.error == NotFound(ModuleNotFound(id))
    ensures r.Ok? ==>
      var m := r.value.entity;
      && m.id == s.modules[id].id
      && m.name == req.name && m.key == req.key && m.status == req.status
      && m.description == req.description && m.monthlyPrice == req.monthlyPrice
      && m.isDefault == req.isDefault
      && r.value.store == s.(modules := s.modules[m.id := m])
    ensures r.Ok? && Valid(s) ==> r.value.entity.id == id && Valid(r.value.store)
  {
    var existing :- FindModule(s, id);
    var m := FromRequest(existing.id, req);
    Ok(Saved(s.(modules := s.modules[m.id := m]), m))
  }

  /** `listarDisponiveisParaVenda`: exactly the modules ready for production. */
  function ListReadyForSale(s: Store): (r: map<Id, Module>)
    ensures forall id :: id in r <==> id in s.modules && s.modules[id].status == ReadyForProduction
    ensures forall id :: id in r ==> r[id] == s.modules[id]
  {
    map id | id in s.modules && s.modules[id].status == ReadyForProduction :: s.modules[id]
  }

  function ToCatalogEntry(m: Module): CatalogEntry {
    CatalogEntry(m.id, m.name, m.key, m.description, m.monthlyPrice)
  }

  /** `listarCatalogoPublico`: one catalogue entry per module ready for
      production, copying its id, name, key, description and price. */
  function PublicCatalogue(s: Store): (r: map<Id, CatalogEntry>)
    ensures r.Keys == ListReadyForSale(s).Keys
    ensures forall id :: id in r ==>
      var m := s.modules[id];
      r[id] == CatalogEntry(m.id, m.name, m.key, m.description, m.monthlyPrice)
  {
    var ready := ListReadyForSale(s);
    map id | id in ready :: ToCatalogEntry(ready[id])
  }

  /** Creating a module and then looking up its id returns exactly that module. */
  lemma CreatedModuleIsFound(s: Store, req: ModuleRequest)
    ensures var r := CreateModule(s, req);
            FindModule(r.store, r.entity.id) == Ok(r.entity)
  {
  }

  /** Creating a module adds exactly it to the full listing: every earlier
      entry stays as it was, and the new one is listed under its own id. */
  lemma CreatedModuleIsListed(s: Store, req: ModuleRequest)
    requires Valid(s)
    ensures var r := CreateModule(s, req);
            && r.entity.id in ListAll(r.store)
            && ListAll(r.store)[r.entity.id] == r.entity
            && ListAll(r.store)[r.entity.id].id == r.entity.id
            && ListAll(s).Keys + {r.entity.id} == ListAll(r.store).Keys
            && forall id :: id in ListAll(s) ==> ListAll(r.store)[id] == ListAll(s)[id]
  {
    var r := CreateModule(s, req);
    assert r.entity.id !in s.modules;
  }

  /** A new module reaches the public catalogue iff it was created ready for
      production, and the listing is otherwise unchanged on a valid store. */
  lemma CreatedModuleListedIffReady(s: Store, req: ModuleRequest)
    requires Valid(s)
    ensures var r := CreateModule(s, req);
            && (r.entity.id in PublicCatalogue(r.store) <==> req.status == ReadyForProduction)
            && forall id :: id != r.entity.id ==>
                 (id in PublicCatalogue(r.store) <==> id in PublicCatalogue(s))
  {
  }
}
