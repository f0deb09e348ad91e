/** The tables that mapping a stretch of pages of an address space adds, and those it lacks. */
module VasTables {
  import opened Levels
  import opened PageTables
  import opened PageNeeds
  import opened Translation
  import opened Paging

  /** From `places0` to `places1` only tables were added that lead to pages of the stretch. */
  ghost predicate Supplies(places0: Places, places1: Places, root: nat, first: nat, pages: nat) {
    && (forall h :: h in places0 ==> h in places1 && places1[h] == places0[h])
    && (forall h :: h in places1 && h !in places0 ==> OnTheWay(places0, root, first, pages, places1[h]))
  }

  /** A table at place `q` leads to a page of the stretch. */
  ghost predicate OnTheWay(places: Places, root: nat, first: nat, pages: nat, q: Place) {
    root in places && exists k: nat, v: nat :: 1 <= k <= 3 && first <= v < first + pages && q == PathPlace(places[root], k, Offset(5, v))
  }

  /** A page of the stretch has a table missing. */
  ghost predicate Lacking(places: Places, root: nat, first: nat, pages: nat) {
    root in places && exists k: nat, v: nat ::
      1 <= k <= 3 && first <= v < first + pages && !HasTable(places, PathPlace(places[root], k, Offset(5, v)))
  }

  /** The page of a stretch that page `w` of the tables stands for. */
  lemma StretchPage(page: nat, pages: nat, w: nat)
    requires Offset(5, page) <= w < Offset(5, page) + Stretch(page, pages)
    ensures Offset(5, page + (w - Offset(5, page))) == w
  {
    SlotOffset(5, page);
    SlotOfMultiple(5, Slot(5, page), w);
  }

  lemma RangeSupplies(places0: Places, places1: Places, root: nat, page: nat, pages: nat)
    requires RangeAdds(places0, places1, root, page, pages, 1) && IsRoot(places0, root)
    ensures Supplies(places0, places1, root, page, pages)
  {
    var ws := Offset(5, page);
    forall h | h in places1 && h !in places0
      ensures OnTheWay(places0, root, page, pages, places1[h])
    {
      var k: nat, w: nat :| 1 <= k <= 4 && 1 <= k < places0[root].level && ws <= w < ws + Stretch(page, pages)
                            && places1[h] == PathPlace(places0[root], k, w);
      StretchPage(page, pages, w);
      var v := page + (w - ws);
      assert page <= v < page + pages && places1[h] == PathPlace(places0[root], k, Offset(5, v));
    }
  }

  lemma RangeLacking(places: Places, root: nat, page: nat, pages: nat)
    requires RangeShort(places, root, page, pages, 1) && IsRoot(places, root)
    ensures Lacking(places, root, page, pages)
  {
    var ws := Offset(5, page);
    var k: nat, w: nat :| 1 <= k <= 4 && 1 <= k < places[root].level && ws <= w < ws + Stretch(page, pages)
                          && !HasTable(places, PathPlace(places[root], k, w));
    StretchPage(page, pages, w);
    var v := page + (w - ws);
    assert page <= v < page + pages && !HasTable(places, PathPlace(places[root], k, Offset(5, v)));
  }

  lemma SuppliesWider(places0: Places, places1: Places, root: nat, first: nat, pages: nat, first': nat, pages': nat)
    requires Supplies(places0, places1, root, first, pages) && first' <= first && first + pages <= first' + pages'
    ensures Supplies(places0, places1, root, first', pages')
  {
    forall h | h in places1 && h !in places0
      ensures OnTheWay(places0, root, first', pages', places1[h])
    {
      var k: nat, v: nat :| 1 <= k <= 3 && first <= v < first + pages && places1[h] == PathPlace(places0[root], k, Offset(5, v));
      assert first' <= v < first' + pages';
    }
  }

  lemma LackingWider(places: Places, root: nat, first: nat, pages: nat, first': nat, pages': nat)
    requires Lacking(places, root, first, pages) && first' <= first && first + pages <= first' + pages'
    ensures Lacking(places, root, first', pages')
  {
    var k: nat, v: nat :| 1 <= k <= 3 && first <= v < first + pages && !HasTable(places, PathPlace(places[root], k, Offset(5, v)));
    assert first' <= v < first' + pages';
  }

  lemma SuppliesMore(places0: Places, places1: Places, places2: Places, root: nat, first: nat, pages: nat)
    requires root in places0
    requires Supplies(places0, places1, root, first, pages) && Supplies(places1, places2, root, first, pages)
    ensures Supplies(places0, places2, root, first, pages)
  {
    forall h | h in places2 && h !in places0
      ensures OnTheWay(places0, root, first, pages, places2[h])
    {
      assert h in places1 || OnTheWay(places1, root, first, pages, places2[h]);
    }
  }

  lemma SuppliesNothing(places: Places, root: nat, first: nat, pages: nat)
    ensures Supplies(places, places, root, first, pages)
  {
  }

  lemma SuppliesRoot(places0: Places, places1: Places, root: nat, first: nat, pages: nat)
    requires Supplies(places0, places1, root, first, pages) && IsRoot(places0, root)
    ensures IsRoot(places1, root)
  {
  }
}
