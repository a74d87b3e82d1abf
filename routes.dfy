/**
 * The POST and PUT routes: the validation middleware followed by the store
 * handler. GET and DELETE go straight to the store. Three client methods at
 * the end run scenarios through the handlers' contracts: the general
 * delete-then-create on any store numbered 1..n, and two seeded scenarios.
 */
module Routes {
  import opened Wrappers
  import opened Menu
  import opened Ids
  import opened Store
  import opened Validation

  /** POST /api/menu with the validators' errors. */
  method PostMenu(store: MenuStore, req: Request, errors: seq<FieldError>) returns (resp: Response)
    modifies store, req
    ensures errors != [] ==>
              resp == ValidationFailed(Messages(errors)) &&
              store.items == old(store.items) && req.body == old(req.body)
    ensures errors == [] ==>
              resp == Created(MakeItem(|old(store.items)| + 1, old(req.body))) &&
              store.items == old(store.items) + [MakeItem(|old(store.items)| + 1, old(req.body))] &&
              req.body == WithCompletedDefault(old(req.body))
  {
    var gate := HandleValidationErrors(req, errors);
    if gate.Halt? {
      resp := gate.response;
      return;
    }
    DefaultDoesNotReachItem(|store.items| + 1, old(req.body));
    resp := store.Create(req.body);
  }

  /** PUT /api/menu/:id with the validators' errors. */
  method PutMenu(store: MenuStore, id: int, req: Request, errors: seq<FieldError>) returns (resp: Response)
    modifies store, req
    ensures errors != [] ==>
              resp == ValidationFailed(Messages(errors)) &&
              store.items == old(store.items) && req.body == old(req.body)
    ensures errors == [] && FindIndex(old(store.items), id) == -1 ==>
              resp == NotFound && store.items == old(store.items)
    ensures errors == [] && FindIndex(old(store.items), id) != -1 ==>
              resp == Ok(MakeItem(id, old(req.body))) &&
              store.items == old(store.items)[FindIndex(old(store.items), id) := MakeItem(id, old(req.body))]
    ensures errors == [] ==> req.body == WithCompletedDefault(old(req.body))
  {
    var gate := HandleValidationErrors(req, errors);
    if gate.Halt? {
      resp := gate.response;
      return;
    }
    DefaultDoesNotReachItem(id, old(req.body));
    resp := store.Update(id, req.body);
  }

  /**
   * On a freshly seeded store: POST of a valid body is numbered 7, keeps
   * `available` absent when the body left it out, and a GET of 7 answers
   * with exactly that record.
   */
  method SeedCreateThenGet(b: Body) returns (created: Response, fetched: Response)
    ensures created.Created? && created.Status() == 201 && created.item.id == 7
    ensures created.item == MakeItem(7, b)
    ensures b.available.None? ==> created.item.available.None?
    ensures fetched == Ok(created.item) && fetched.Status() == 200
  {
    var store := new MenuStore();
    var req := new Request(b);
    created := PostMenu(store, req, []);
    SeedIdsAreOneToSix();
    CreateKeepsDenseIds(Seed(), b);
    CreateThenGet(Seed(), MakeItem(7, b));
    fetched := store.Get(7);
  }

  /**
   * On any store numbered 1..n: DELETE of an id other than n answers with
   * the record at that position, a later GET of it is NotFound, and the next
   * POST is numbered n, an id the last record still holds.
   */
  method DeleteThenCreate(store: MenuStore, id: int, b: Body) returns (deleted: Response, missing: Response, created: Response)
    requires DenseIds(store.items) && 1 <= id < |store.items|
    modifies store
    ensures deleted == Deleted(old(store.items)[id - 1]) && deleted.Status() == 200
    ensures missing == NotFound && missing.Status() == 404
    ensures created == Created(MakeItem(|old(store.items)|, b)) && created.Status() == 201
    ensures !UniqueIds(store.items)
    ensures Find(store.items, |old(store.items)|) == Some(old(store.items)[|old(store.items)| - 1])
  {
    DeleteThenCreateDuplicatesId(store.items, id - 1, b);
    deleted := store.Delete(id);
    missing := store.Get(id);
    var req := new Request(b);
    created := PostMenu(store, req, []);
  }

  /**
   * On a freshly seeded store: DELETE 3 answers with "Mozzarella Sticks", a
   * later GET 3 is NotFound, and the next POST is numbered 6, an id that
   * "Fish and Chips" still holds.
   */
  method SeedDeleteThenCreate(b: Body) returns (deleted: Response, missing: Response, created: Response, after: seq<MenuItem>)
    ensures deleted.Deleted? && deleted.Status() == 200 && deleted.item.name == "Mozzarella Sticks"
    ensures missing == NotFound && missing.Status() == 404
    ensures created.Created? && created.Status() == 201 && created.item.id == 6
    ensures !UniqueIds(after)
    ensures Find(after, 6).Some? && Find(after, 6).value.name == "Fish and Chips"
  {
    var store := new MenuStore();
    SeedIdsAreOneToSix();
    deleted, missing, created := DeleteThenCreate(store, 3, b);
    after := store.items;
  }
}
