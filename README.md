# Restaurant menu API: the in-memory menu store

A Dafny model of the core of a small Express server (`server.js`) that serves
a restaurant menu over HTTP. The server keeps one process-wide ordered list of
menu items, seeded with six records, and five `/api/menu` handlers read and
change it:

- list all items;
- get the first item with a given id;
- create an item numbered `length + 1` and append it;
- update the first item with a given id by replacing the whole record, with
  the id taken from the path;
- delete the first item with a given id by splicing it out and answering with it.

Before create and update, a middleware looks at the field validators' errors.
With any error it answers 400 with all messages in order. With none it
defaults a `completed` flag in the request body to `false` and passes on.

Files and modules:

- `wrappers.dfy` (`Wrappers`): `Option`, for fields that may be `undefined`.
- `menu.dfy` (`Menu`): the records (`MenuItem`, `Body`, `Response`), the seed
  list, and the pure lookups `find`, `findIndex` and the one-element splice,
  with lemmas relating them.
- `store.dfy` (`Store`): class `MenuStore`, whose `items: seq<MenuItem>`
  field the handlers reassign. It also holds round-trip lemmas
  (create→get, update→get); delete→get is `Ids.DeleteThenFindMisses`.
- `validation.dfy` (`Validation`): the error-message map, the `completed`
  default, and the middleware as a method that writes into a `Request` object.
- `ids.dfy` (`Ids`): id uniqueness. This covers when `length + 1` keeps ids
  unique, the run where it does not, and the corrected numbering `FreshId`.
- `routes.dfy` (`Routes`): the POST and PUT routes (middleware then handler)
  and three client methods: two seeded scenarios and the general
  delete-then-create run on any store numbered 1..n.

Two facts about the code that the model keeps as they are:

- An absent `available` is not defaulted. The server stores `undefined`, and
  the model keeps it as `None` (`SeedCreateThenGet`).
- The `length + 1` numbering does not keep ids unique (see Findings).

## Model

| member | source | states |
|---|---|---|
| `Menu.Response.Status` | server.js:102-179 | 201 exactly for a create, 404 exactly for NotFound, 400 exactly for a validation failure, 200 for list, get, update and delete |
| `Menu.FindIndex` | server.js:142 | -1 exactly when no item has the id; otherwise a position holding the id with no earlier position holding it |
| `Menu.Find` | server.js:104 | missing exactly when no item has the id; otherwise an item of the list with that id |
| `Menu.FindAtFindIndex` | server.js:102-111 | `find` answers with the item at the position `findIndex` answers, so get, update and delete act on the same first match |
| `Menu.FirstMatchIsFindIndex` | server.js:142 | a position holding the id, with no earlier one holding it, is the position `findIndex` answers |
| `Menu.FindInPrefix` | server.js:104 | appending items never changes what `find` answers for an id already present |
| `Menu.RemoveAt` | server.js:175 | splicing out position k gives a list one shorter, with the items before k in place and the items after k shifted down by one |
| `Menu.RemoveAtMultiset` | server.js:175 | the splice loses exactly the item at k: the old list is the new list plus that one item |
| `Menu.MakeItem` | server.js:116-127 | the record has the given id and the body's name, description, price, category, ingredients and available; the body's id and completed are not copied (the same literal is built at server.js:149-157) |
| `Menu.Seed` | server.js:184-239 | the seed list has six records |
| `Ids.SeedIdsAreOneToSix` | server.js:184-239 | the seed ids are 1 to 6 in order, so they are distinct |
| `Ids.DenseIdsAreUnique` | server.js:120 | a list numbered 1..n in order has distinct ids |
| `Ids.CreateKeepsDenseIds` | server.js:119-130 | on a list numbered 1..n, the id `length + 1` is unused, and appending the new item keeps the numbering 1..n+1 |
| `Ids.UpdateKeepsDenseIds` | server.js:149-157 | an update keeps a 1..n numbering, because it writes back the id it matched |
| `Ids.AppendKeepsUniqueIff` | server.js:130 | appending to a list with unique ids keeps them unique if and only if the new id is unused |
| `Ids.RemoveAtKeepsUnique` | server.js:175 | a delete keeps ids unique |
| `Ids.ReplaceKeepsUnique` | server.js:149-157 | replacing a record by one with the same id keeps ids unique |
| `Ids.DeleteThenFindMisses` | server.js:164-179 | with unique ids, a deleted id is no longer found |
| `Ids.DeleteThenCreateDuplicatesId` | server.js:120 | on a list numbered 1..n, an id k below n is at position k-1 and is gone after its delete; yet deleting any record but the last and then creating gives the new record the last record's id; ids stop being unique and a lookup of that id still answers with the old record |
| `Ids.SeedDeleteThreeThenCreate` | server.js:164-239 | on the seed list, id 3 ("Mozzarella Sticks") is at position 2; after deleting it, the next create is numbered 6, which "Fish and Chips" still holds |
| `Ids.MaxId` | server.js:120 | the largest id in the list (0 if empty): every id is at most it, and a non-empty list holds it |
| `Ids.FreshId` | server.js:120 | the corrected id is larger than every id in the list |
| `Ids.FreshIdKeepsUnique` | server.js:120 | appending an item numbered by `FreshId` keeps unique ids unique after any sequence of deletions |
| `Ids.FreshIdOnDenseIds` | server.js:120 | until something is deleted, `FreshId` equals `length + 1` |
| `Ids.SeedFreshIdIsSeven` | server.js:120 | on the seed list both numberings give 7 |
| `Store.MenuStore.constructor` | server.js:184-239 | a new store holds exactly the seed list |
| `Store.MenuStore.List` | server.js:96-99 | answers with the whole list in order; the list is not changed |
| `Store.MenuStore.Get` | server.js:102-111 | NotFound exactly when no item has the id; otherwise the item at the first position holding the id; the list is not changed |
| `Store.MenuStore.Create` | server.js:114-134 | the list becomes the old list with one record appended: id `old length + 1` and the body's item fields. The answer is Created with that record |
| `Store.MenuStore.Update` | server.js:137-161 | with no item holding the id: NotFound and the list is identical. Otherwise only the first matching position is replaced, by a record with the path id and the body's fields (never the body's id). Length and all other positions are unchanged; the answer is that record |
| `Store.MenuStore.Delete` | server.js:164-179 | with no item holding the id: NotFound and the list is identical. Otherwise the list loses exactly the first matching position, the rest keep their order, and the answer carries the removed record: the old list is the new list plus that one record |
| `Store.MenuStore.CreateWithFreshId` | server.js:119-130 | corrected create: appends a record numbered `FreshId`. Unique ids stay unique, and a lookup of the new id answers with the new record |
| `Store.CreateThenGet` | server.js:119-130 | after appending a record whose id was unused, get of that id answers with exactly that record |
| `Store.CreateThenGetShadowed` | server.js:120 | after a create whose id `length + 1` was already in use, get of that id answers with the older record |
| `Store.UpdateThenGet` | server.js:149-160 | after an update, get of the path id answers with the new record; the length is unchanged |
| `Validation.Messages` | server.js:64-65 | one message per validator error, each error's own message, in the same order |
| `Validation.MessagesAppend` | server.js:65 | messages of two batches of errors are the two batches of messages, in order |
| `Validation.WithCompletedDefault` | server.js:73-76 | afterwards `completed` is present. It is `false` when it was absent and kept as sent otherwise; no other body field changes |
| `Validation.WithCompletedDefaultIdempotent` | server.js:73-76 | defaulting twice is defaulting once |
| `Validation.DefaultDoesNotReachItem` | server.js:116-127 | the defaulted `completed` never reaches a stored record, because the handlers copy only the item fields |
| `Validation.HandleValidationErrors` | server.js:60-79 | with any error: answer ValidationFailed with every message in order, body untouched. With none: pass on with `completed` defaulted |
| `Routes.PostMenu` | server.js:114-134 | with errors: ValidationFailed and the store is identical. Without errors: the create step on the validated body |
| `Routes.PutMenu` | server.js:137-161 | with errors: ValidationFailed and the store is identical. Without errors: NotFound with the store identical, or the first matching record replaced |
| `Routes.SeedCreateThenGet` | server.js:114-134 | on the seed store, a valid POST answers 201 with a record numbered 7 and leaves an absent `available` absent; GET 7 answers 200 with that record |
| `Routes.DeleteThenCreate` | server.js:164-179 | on any store numbered 1..n, DELETE of an id other than n answers 200 with that record and a later GET of it answers 404. The next POST answers 201 with id n, the ids stop being unique, and a lookup of n still answers with the old last record |
| `Routes.SeedDeleteThenCreate` | server.js:164-179 | on the seed store, DELETE 3 answers 200 with "Mozzarella Sticks" and a later GET 3 answers 404. The next POST answers 201 with id 6, the ids stop being unique, and a lookup of 6 answers with "Fish and Chips" |

## Findings

| source | as written | input that shows it | evidently intended | confidence | as-written member | corrected member |
|---|---|---|---|---|---|---|
| server.js:120 | a new item is numbered `menuItems.length + 1` | seed list, `DELETE /api/menu/3`, then a valid `POST /api/menu`: the new item gets id 6, which "Fish and Chips" already has. `GET /api/menu/6` then answers with "Fish and Chips", not the new item | every item has its own id, so a created item can be fetched back by its id | high, not executed | `Ids.DeleteThenCreateDuplicatesId` | `Store.MenuStore.CreateWithFreshId` |

`Store.MenuStore.Create` and `Routes.PostMenu` keep the as-written numbering,
because they model what the server does. `Store.MenuStore.CreateWithFreshId`
uses the corrected numbering `Ids.FreshId` (largest id plus one), proved by
`Ids.FreshIdKeepsUnique`. Its contract also says that the new record is what
a lookup of its id answers. `Ids.FreshIdOnDenseIds` proves that it agrees with
the server until the first delete.

## Left out

- Express setup, `app.listen` and the fixed port 3000: framework and network plumbing.
- The request logger: console output with wall-clock timestamps.
- The field validators (`isString`, `isNumeric`, `isIn`, `isArray`, `isBoolean`
  with their options): library code whose behaviour is not visible here. The
  model takes their output as a given list of errors (`Validation.FieldError`).
- `parseInt` of the path id: the model takes the parsed id as an `int`. A
  non-numeric id parses to `NaN`, which equals nothing, so it behaves like an
  id that no item holds (NotFound).
- `price` is a floating-point number in the server. It stays opaque (`Menu.Price`)
  because nothing computes with it.
- The body fields are modelled as present values of fixed types. If the
  validators let an absent or differently typed field through, the server
  would store whatever arrived; the model does not capture that.
- `completed` is modelled as an optional boolean. The server tests only for
  `undefined`, so it would keep a non-boolean value too.
- JSON serialisation of answers and the static route listing on `/`. The
  model keeps each answer's kind and status (`Menu.Response.Status`), not the
  fixed texts "Menu item not found", "Validation failed" and
  "Menu item deleted successfully".
- Object identity: the server stores and returns the same objects, and the
  delete answer holds the spliced-out object. The model uses values, so
  aliasing between the stored record and the answer is not captured.
- Ids.DeleteThenFindMisses: assumes unique ids. Without them a delete removes
  only the first match, and a later get can still find a duplicate.
