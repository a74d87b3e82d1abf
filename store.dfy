/**
 * The process-wide list of menu items and the store side of the five
 * `/api/menu` handlers. The list is a field the handlers reassign: `push`
 * appends, indexed assignment replaces, `splice(k, 1)` removes.
 */
module Store {
  import opened Wrappers
  import opened Menu
  import opened Ids

  class MenuStore {
    var items: seq<MenuItem>

    /** The list as the process starts: the six seeded records. */
    constructor ()
      ensures items == Seed()
    {
      items := Seed();
    }

    /** GET /api/menu: the whole list, in order. */
    method List() returns (resp: Response)
      ensures resp == Listed(items)
    {
      resp := Listed(items);
    }

    /** GET /api/menu/:id: the first item holding `id`, or NotFound. The list is not touched. */
    method Get(id: int) returns (resp: Response)
      ensures resp.Ok? || resp.NotFound?
      ensures resp.NotFound? <==> forall i :: 0 <= i < |items| ==> items[i].id != id
      ensures resp.Ok? ==> exists k :: 0 <= k < |items| && items[k] == resp.item && resp.item.id == id &&
                                       forall j :: 0 <= j < k ==> items[j].id != id
    {
      var found := Find(items, id);
      FindAtFindIndex(items, id);
      if found.Some? {
        resp := Ok(found.value);
      } else {
        resp := NotFound;
      }
    }

    /** POST /api/menu, after validation: number the new item `length + 1` and append it. */
    method Create(b: Body) returns (resp: Response)
      modifies this
      ensures items == old(items) + [MakeItem(|old(items)| + 1, b)]
      ensures resp == Created(MakeItem(|old(items)| + 1, b))
    {
      var item := MakeItem(|items| + 1, b);
      items := items + [item];
      resp := Created(item);
    }

    /**
     * PUT /api/menu/:id, after validation: replace the first record holding
     * `id` by one built from the body, with the id taken from the path.
     * Every other position and the length stay as they were.
     */
    method Update(id: int, b: Body) returns (resp: Response)
      modifies this
      ensures FindIndex(old(items), id) == -1 ==> resp == NotFound && items == old(items)
      ensures FindIndex(old(items), id) != -1 ==>
                items == old(items)[FindIndex(old(items), id) := MakeItem(id, b)] &&
                resp == Ok(MakeItem(id, b))
    {
      var k := FindIndex(items, id);
      if k == -1 {
        resp := NotFound;
        return;
      }
      items := items[k := MakeItem(id, b)];
      resp := Ok(items[k]);
    }

    /**
     * DELETE /api/menu/:id: remove the first record holding `id` and answer
     * with it. The rest keep their order.
     */
    method Delete(id: int) returns (resp: Response)
      modifies this
      ensures FindIndex(old(items), id) == -1 ==> resp == NotFound && items == old(items)
      ensures FindIndex(old(items), id) != -1 ==>
                items == RemoveAt(old(items), FindIndex(old(items), id)) &&
                resp == Deleted(old(items)[FindIndex(old(items), id)])
      ensures FindIndex(old(items), id) != -1 ==>
                multiset(old(items)) == multiset(items) + multiset{resp.item}
    {
      var k := FindIndex(items, id);
      if k == -1 {
        resp := NotFound;
        return;
      }
      var removed := items[k];
      RemoveAtMultiset(items, k);
      items := RemoveAt(items, k);
      resp := Deleted(removed);
    }

    /**
     * The create step with the corrected numbering: one more than the
     * largest id in use, so unique ids stay unique after deletions.
     */
    method CreateWithFreshId(b: Body) returns (resp: Response)
      modifies this
      ensures items == old(items) + [MakeItem(FreshId(old(items)), b)]
      ensures resp == Created(MakeItem(FreshId(old(items)), b))
      ensures UniqueIds(old(items)) ==> UniqueIds(items)
      ensures Find(items, FreshId(old(items))) == Some(MakeItem(FreshId(old(items)), b))
    {
      if UniqueIds(items) {
        FreshIdKeepsUnique(items, b);
      }
      CreateThenGet(items, MakeItem(FreshId(items), b));
      var item := MakeItem(FreshId(items), b);
      items := items + [item];
      resp := Created(item);
    }
  }

  /** Create then get: an appended record whose id was not in use is what a lookup of that id answers. */
  lemma CreateThenGet(s: seq<MenuItem>, x: MenuItem)
    requires forall i :: 0 <= i < |s| ==> s[i].id != x.id
    ensures Find(s + [x], x.id) == Some(x)
  {
    var t := s + [x];
    forall j | 0 <= j < |s| ensures t[j].id != x.id {
      assert t[j] == s[j];
    }
    FirstMatchIsFindIndex(t, x.id, |s|);
    FindAtFindIndex(t, x.id);
  }

  /** Create then get when the id `length + 1` is already in use: get answers with the older record. */
  lemma CreateThenGetShadowed(s: seq<MenuItem>, b: Body)
    requires exists i :: 0 <= i < |s| && s[i].id == |s| + 1
    ensures Find(s + [MakeItem(|s| + 1, b)], |s| + 1) == Find(s, |s| + 1)
    ensures Find(s, |s| + 1).Some?
  {
    FindInPrefix(s, [MakeItem(|s| + 1, b)], |s| + 1);
  }

  /** Update then get: the id now answers with the new record, and the length is unchanged. */
  lemma UpdateThenGet(s: seq<MenuItem>, id: int, b: Body)
    requires FindIndex(s, id) != -1
    ensures |s[FindIndex(s, id) := MakeItem(id, b)]| == |s|
    ensures Find(s[FindIndex(s, id) := MakeItem(id, b)], id) == Some(MakeItem(id, b))
  {
    var k := FindIndex(s, id);
    var t := s[k := MakeItem(id, b)];
    FirstMatchIsFindIndex(t, id, k);
    FindAtFindIndex(t, id);
  }
}
