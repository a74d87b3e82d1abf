/**
 * The entities of the restaurant menu API and the pure lookups the handlers
 * use on the in-memory list of menu items: Array.prototype.find,
 * Array.prototype.findIndex and the one-element splice.
 */
module Menu {
  import opened Wrappers

  /** A price as the client wrote it. No arithmetic is done on prices, so it stays opaque. */
  datatype Price = Price(literal: string)

  /** One record of the menu list. `available` is `None` when the record was created without it. */
  datatype MenuItem = MenuItem(
    id: int,
    name: string,
    description: string,
    price: Price,
    category: string,
    ingredients: seq<string>,
    available: Option<bool>)

  /**
   * The JSON body of a POST or PUT request, after body parsing. Besides the
   * item fields a client may send an `id` (which the handlers ignore) and a
   * `completed` flag (which only the validation step looks at).
   */
  datatype Body = Body(
    id: Option<int>,
    name: string,
    description: string,
    price: Price,
    category: string,
    ingredients: seq<string>,
    available: Option<bool>,
    completed: Option<bool>)

  /** What a handler answers. */
  datatype Response =
    | Listed(items: seq<MenuItem>)
    | Ok(item: MenuItem)
    | Created(item: MenuItem)
    | Deleted(item: MenuItem)
    | NotFound
    | ValidationFailed(messages: seq<string>)
  {
    /** The HTTP status the handler sends with this answer. */
    function Status(): (code: int)
      ensures code == 201 <==> Created?
      ensures code == 404 <==> NotFound?
      ensures code == 400 <==> ValidationFailed?
      ensures code == 200 <==> Listed? || Ok? || Deleted?
    {
      match this
      case Created(_) => 201
      case NotFound => 404
      case ValidationFailed(_) => 400
      case _ => 200
    }
  }

  /**
   * The record the create and update handlers build: the given id and the
   * item fields destructured from the body. The body's own `id` and
   * `completed` are not copied.
   */
  function MakeItem(id: int, b: Body): (item: MenuItem)
    ensures item.id == id
    ensures item.name == b.name && item.description == b.description && item.price == b.price
    ensures item.category == b.category && item.ingredients == b.ingredients
    ensures item.available == b.available
  {
    MenuItem(id, b.name, b.description, b.price, b.category, b.ingredients, b.available)
  }

  /** `items.findIndex(m => m.id === id)`: the first position holding `id`, or -1. */
  function FindIndex(items: seq<MenuItem>, id: int): (k: int)
    ensures -1 <= k < |items|
    ensures k == -1 <==> forall i :: 0 <= i < |items| ==> items[i].id != id
    ensures k != -1 ==> items[k].id == id && forall j :: 0 <= j < k ==> items[j].id != id
  {
    if |items| == 0 then -1
    else if items[0].id == id then 0
    else
      var k := FindIndex(items[1..], id);
      if k == -1 then -1 else k + 1
  }

  /** `items.find(m => m.id === id)`: the first item holding `id`, or `undefined`. */
  function Find(items: seq<MenuItem>, id: int): (r: Option<MenuItem>)
    ensures r.None? <==> forall i :: 0 <= i < |items| ==> items[i].id != id
    ensures r.Some? ==> r.value.id == id && r.value in items
  {
    if |items| == 0 then None
    else if items[0].id == id then Some(items[0])
    else
      var r := Find(items[1..], id);
      assert r.Some? ==> r.value in items by {
        if r.Some? {
          var i :| 0 <= i < |items| - 1 && items[1..][i] == r.value;
          assert items[i + 1] == r.value;
        }
      }
      r
  }

  /** `items.splice(k, 1)` seen from the array's side: the list without position `k`. */
  function RemoveAt(items: seq<MenuItem>, k: int): (r: seq<MenuItem>)
    requires 0 <= k < |items|
    ensures |r| == |items| - 1
    ensures forall j :: 0 <= j < k ==> r[j] == items[j]
    ensures forall j :: k <= j < |r| ==> r[j] == items[j + 1]
  {
    items[..k] + items[k + 1..]
  }

  /** `find` answers with the item at the position `findIndex` answers. */
  lemma {:induction false} FindAtFindIndex(items: seq<MenuItem>, id: int)
    ensures Find(items, id) == if FindIndex(items, id) == -1 then None else Some(items[FindIndex(items, id)])
  {
    if |items| > 0 && items[0].id != id {
      FindAtFindIndex(items[1..], id);
    }
  }

  /** A position holding `id` with no earlier one is the position `findIndex` answers. */
  lemma FirstMatchIsFindIndex(items: seq<MenuItem>, id: int, k: int)
    requires 0 <= k < |items| && items[k].id == id
    requires forall j :: 0 <= j < k ==> items[j].id != id
    ensures FindIndex(items, id) == k
  {
  }

  /** Appending never changes what `find` answers for an id the list already holds. */
  lemma {:induction false} FindInPrefix(items: seq<MenuItem>, more: seq<MenuItem>, id: int)
    requires Find(items, id).Some?
    ensures Find(items + more, id) == Find(items, id)
  {
    assert items != [];
    assert (items + more)[0] == items[0];
    if items[0].id != id {
      assert (items + more)[1..] == items[1..] + more;
      FindInPrefix(items[1..], more, id);
    }
  }

  /** Removing position `k` loses exactly the item there: every other item stays, once each. */
  lemma RemoveAtMultiset(items: seq<MenuItem>, k: int)
    requires 0 <= k < |items|
    ensures multiset(items) == multiset(RemoveAt(items, k)) + multiset{items[k]}
  {
    assert items == items[..k] + [items[k]] + items[k + 1..];
  }

  /** The six records the process starts with (server.js, the `menuItems` literal). */
  function Seed(): (s: seq<MenuItem>)
    ensures |s| == 6
  {
    [ MenuItem(1, "Classic Burger",
        "Beef patty with lettuce, tomato, and cheese on a sesame seed bun",
        Price("12.99"), "entree",
        ["beef", "lettuce", "tomato", "cheese", "bun"], Some(true)),
      MenuItem(2, "Chicken Caesar Salad",
        "Grilled chicken breast over romaine lettuce with parmesan and croutons",
        Price("11.50"), "entree",
        ["chicken", "romaine lettuce", "parmesan cheese", "croutons", "caesar dressing"], Some(true)),
      MenuItem(3, "Mozzarella Sticks",
        "Crispy breaded mozzarella served with marinara sauce",
        Price("8.99"), "appetizer",
        ["mozzarella cheese", "breadcrumbs", "marinara sauce"], Some(true)),
      MenuItem(4, "Chocolate Lava Cake",
        "Warm chocolate cake with molten center, served with vanilla ice cream",
        Price("7.99"), "dessert",
        ["chocolate", "flour", "eggs", "butter", "vanilla ice cream"], Some(true)),
      MenuItem(5, "Fresh Lemonade",
        "House-made lemonade with fresh lemons and mint",
        Price("3.99"), "beverage",
        ["lemons", "sugar", "water", "mint"], Some(true)),
      MenuItem(6, "Fish and Chips",
        "Beer-battered cod with seasoned fries and coleslaw",
        Price("14.99"), "entree",
        ["cod", "beer batter", "potatoes", "coleslaw", "tartar sauce"], Some(false)) ]
  }
}
