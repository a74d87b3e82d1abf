/**
 * Identity of menu items. The create handler numbers a new item with the
 * length of the list plus one. These lemmas say when that keeps ids unique
 * (as long as nothing is deleted) and exhibit the seeded run where it does
 * not; `FreshId` is the numbering that keeps them unique in every run.
 */
module Ids {
  import opened Wrappers
  import opened Menu

  /** No two records share an id. */
  predicate UniqueIds(s: seq<MenuItem>) {
    forall i, j :: 0 <= i < j < |s| ==> s[i].id != s[j].id
  }

  /** The ids are 1, 2, ..., |s| in list order: what seeding and creating alone produce. */
  predicate DenseIds(s: seq<MenuItem>) {
    forall i :: 0 <= i < |s| ==> s[i].id == i + 1
  }

  /** The seeded list is numbered 1 to 6 in order, so its ids are distinct. */
  lemma SeedIdsAreOneToSix()
    ensures DenseIds(Seed()) && UniqueIds(Seed())
  {
  }

  lemma DenseIdsAreUnique(s: seq<MenuItem>)
    requires DenseIds(s)
    ensures UniqueIds(s)
  {
  }

  /** Without a prior delete, `length + 1` is a new id and the numbering stays dense. */
  lemma CreateKeepsDenseIds(s: seq<MenuItem>, b: Body)
    requires DenseIds(s)
    ensures forall i :: 0 <= i < |s| ==> s[i].id != |s| + 1
    ensures DenseIds(s + [MakeItem(|s| + 1, b)])
  {
  }

  /** An update writes back the id it matched, so the numbering is untouched. */
  lemma UpdateKeepsDenseIds(s: seq<MenuItem>, id: int, b: Body)
    requires DenseIds(s) && FindIndex(s, id) != -1
    ensures DenseIds(s[FindIndex(s, id) := MakeItem(id, b)])
  {
  }

  /** Appending keeps the ids unique exactly when the new id is not already used. */
  lemma AppendKeepsUniqueIff(s: seq<MenuItem>, x: MenuItem)
    requires UniqueIds(s)
    ensures UniqueIds(s + [x]) <==> forall i :: 0 <= i < |s| ==> s[i].id != x.id
  {
    if !forall i :: 0 <= i < |s| ==> s[i].id != x.id {
      var i :| 0 <= i < |s| && s[i].id == x.id;
      assert (s + [x])[i].id == (s + [x])[|s|].id;
    }
  }

  /** Deleting one record keeps the remaining ids unique. */
  lemma RemoveAtKeepsUnique(s: seq<MenuItem>, k: int)
    requires UniqueIds(s) && 0 <= k < |s|
    ensures UniqueIds(RemoveAt(s, k))
  {
  }

  /** Replacing a record by one with the same id keeps the ids unique. */
  lemma ReplaceKeepsUnique(s: seq<MenuItem>, k: int, x: MenuItem)
    requires UniqueIds(s) && 0 <= k < |s| && s[k].id == x.id
    ensures UniqueIds(s[k := x])
  {
  }

  /** With unique ids, a deleted id is no longer found. */
  lemma DeleteThenFindMisses(s: seq<MenuItem>, id: int)
    requires UniqueIds(s) && FindIndex(s, id) != -1
    ensures Find(RemoveAt(s, FindIndex(s, id)), id) == None
  {
  }

  /**
   * The length-plus-one numbering as written, in general: on a densely
   * numbered list, deleting any record but the last and then creating one
   * gives the new record the id the last record still has. Ids are no longer
   * unique, and a lookup of that id keeps answering with the old record.
   */
  lemma DeleteThenCreateDuplicatesId(s: seq<MenuItem>, k: int, b: Body)
    requires DenseIds(s) && 0 <= k < |s| - 1
    ensures FindIndex(s, k + 1) == k
    ensures Find(RemoveAt(s, k), k + 1) == None
    ensures |RemoveAt(s, k)| + 1 == s[|s| - 1].id
    ensures !UniqueIds(RemoveAt(s, k) + [MakeItem(|s|, b)])
    ensures Find(RemoveAt(s, k) + [MakeItem(|s|, b)], |s|) == Some(s[|s| - 1])
  {
    FirstMatchIsFindIndex(s, k + 1, k);
    DenseIdsAreUnique(s);
    DeleteThenFindMisses(s, k + 1);
    var n := |s|;
    var t := RemoveAt(s, k) + [MakeItem(n, b)];
    assert t[n - 2] == s[n - 1] && t[n - 1].id == n;
    forall j | 0 <= j < n - 2 ensures t[j].id != n {
      assert t[j] == s[j] || t[j] == s[j + 1];
    }
    FirstMatchIsFindIndex(t, n, n - 2);
    FindAtFindIndex(t, n);
  }

  /**
   * The seeded instance: deleting id 3 ("Mozzarella Sticks", position 2)
   * and then creating numbers the new item 6, the id of "Fish and Chips".
   */
  lemma SeedDeleteThreeThenCreate(b: Body)
    ensures FindIndex(Seed(), 3) == 2 && Seed()[2].name == "Mozzarella Sticks"
    ensures !UniqueIds(RemoveAt(Seed(), 2) + [MakeItem(6, b)])
    ensures Find(RemoveAt(Seed(), 2) + [MakeItem(6, b)], 6) == Some(Seed()[5])
    ensures Seed()[5].name == "Fish and Chips"
  {
    SeedIdsAreOneToSix();
    FirstMatchIsFindIndex(Seed(), 3, 2);
    DeleteThenCreateDuplicatesId(Seed(), 2, b);
  }

  /** The largest id in the list, or 0 for an empty list. */
  function MaxId(s: seq<MenuItem>): (m: int)
    ensures forall i :: 0 <= i < |s| ==> s[i].id <= m
    ensures s == [] ==> m == 0
    ensures s != [] ==> exists i :: 0 <= i < |s| && s[i].id == m
  {
    if s == [] then 0
    else
      var m := MaxId(s[..|s| - 1]);
      var last := s[|s| - 1].id;
      if |s| == 1 || last > m then last else m
  }

  /** The corrected numbering: one more than the largest id in use. */
  function FreshId(s: seq<MenuItem>): (id: int)
    ensures forall i :: 0 <= i < |s| ==> s[i].id < id
  {
    MaxId(s) + 1
  }

  /** An item numbered by `FreshId` keeps the ids unique, whatever was deleted before. */
  lemma FreshIdKeepsUnique(s: seq<MenuItem>, b: Body)
    requires UniqueIds(s)
    ensures UniqueIds(s + [MakeItem(FreshId(s), b)])
  {
    AppendKeepsUniqueIff(s, MakeItem(FreshId(s), b));
  }

  /** Until something is deleted, the corrected numbering agrees with `length + 1`. */
  lemma FreshIdOnDenseIds(s: seq<MenuItem>)
    requires DenseIds(s)
    ensures FreshId(s) == |s| + 1
  {
  }

  /** On the seeded list the corrected numbering and the source's both give 7. */
  lemma SeedFreshIdIsSeven()
    ensures FreshId(Seed()) == |Seed()| + 1 == 7
  {
    SeedIdsAreOneToSix();
    FreshIdOnDenseIds(Seed());
  }
}
