/** The byte-addressed entry points, and what holds over every run of them. */
module Paging {
  import opened Levels
  import opened PageTables
  import opened PageMapping
  import opened PageNeeds
  import opened Window
  import opened Translation
  import opened Vm
  import opened VmUnmap
  import Pmm

  const ADDRESS_BYTES: nat := 0x1_0000_0000_0000_0000

  /** The pages of a range of `size` bytes, rounded up to whole entries of level `l`. */
  function PageCount(l: nat, size: nat): nat
    requires 1 <= l
  {
    AlignDown(l, (size + Span(l) * PAGE_BYTES - 1) / PAGE_BYTES)
  }

  /** The first page after a range that starts at page `page`, as the entry points compute it. */
  function EndPage(l: nat, page: nat, size: nat): nat
    requires 1 <= l
  {
    AlignDown(l, (page * PAGE_BYTES + size + Span(l) * PAGE_BYTES - 1) % ADDRESS_BYTES / PAGE_BYTES)
  }

  lemma AlignedAdd(l: nat, a: nat, x: nat)
    requires 1 <= l && Offset(l, a) == 0
    ensures AlignDown(l, a + x) == a + AlignDown(l, x)
  {
    SlotOffset(l, a);
    HighOffset(l, l, Slot(l, a), x);
  }

  lemma ByteWrap(page: nat, x: nat)
    requires page + x / PAGE_BYTES < 2 * ADDRESS_PAGES
    ensures (page * PAGE_BYTES + x) % ADDRESS_BYTES / PAGE_BYTES == Wrap(page + x / PAGE_BYTES)
  {
    assert ADDRESS_BYTES == ADDRESS_PAGES * PAGE_BYTES;
  }

  lemma TopOffset(l: nat)
    requires 1 <= l <= 4
    ensures Offset(l, ADDRESS_PAGES) == 0
  {
    var n := AddressSlots(l);
    SlotOfMultiple(l, n, 0);
  }

  lemma WrappedEnd(l: nat, page: nat, y: nat)
    requires 1 <= l <= 4 && Offset(l, page) == 0
    ensures AlignDown(l, Wrap(page + y)) == Wrap(page + AlignDown(l, y))
  {
    hide Offset, Slot, Span;
    AlignedAdd(l, page, y);
    if page + y >= ADDRESS_PAGES {
      TopOffset(l);
      AlignedAdd(l, ADDRESS_PAGES, page + y - ADDRESS_PAGES);
    }
  }

  /** An aligned page below the top is a whole entry below it. */
  lemma BelowTop(l: nat, page: nat)
    requires 1 <= l <= 4 && Offset(l, page) == 0 && page < ADDRESS_PAGES
    ensures page + Span(l) <= ADDRESS_PAGES
  {
    hide Offset, Slot, Span;
    var n := AddressSlots(l);
    SlotOffset(l, page);
    if Slot(l, page) + 1 > n {
      ProductMonotone(n, Slot(l, page), Span(l));
    } else {
      ProductMonotone(Slot(l, page) + 1, n, Span(l));
    }
  }

  lemma CountFits(l: nat, page: nat, size: nat)
    requires 1 <= l <= 4 && page + Span(l) <= ADDRESS_PAGES && size < ADDRESS_BYTES
    ensures page + (size + Span(l) * PAGE_BYTES - 1) / PAGE_BYTES < 2 * ADDRESS_PAGES
  {
    assert size + Span(l) * PAGE_BYTES - 1 < (ADDRESS_PAGES + Span(l)) * PAGE_BYTES;
  }

  lemma CountOfPages(size: nat)
    ensures PageCount(1, size) == (size + PAGE_BYTES - 1) / PAGE_BYTES
  {
  }

  /** The end of the range is where it should be, unless the range reaches the top of the address
      space: then the end wraps to zero or beyond. */
  lemma EndPageIs(l: nat, page: nat, size: nat)
    requires 1 <= l <= 4 && Offset(l, page) == 0 && page < ADDRESS_PAGES && size < ADDRESS_BYTES
    ensures EndPage(l, page, size) == Wrap(page + PageCount(l, size))
  {
    hide Offset, Span;
    var x := size + Span(l) * PAGE_BYTES - 1;
    BelowTop(l, page);
    CountFits(l, page, size);
    ByteWrap(page, x);
    WrappedEnd(l, page, x / PAGE_BYTES);
  }

  /** A range that reaches the top of the address space is taken to be empty. */
  lemma WrappedEmpty(l: nat, page: nat, size: nat)
    requires 1 <= l <= 4 && Offset(l, page) == 0 && page < ADDRESS_PAGES && size < ADDRESS_BYTES && size > 0
    ensures page < EndPage(l, page, size) <==> page + PageCount(l, size) < ADDRESS_PAGES
  {
    hide Offset, Span;
    EndPageIs(l, page, size);
    CountPositive(l, size);
    CountBelow(l, size);
  }

  lemma CountBelow(l: nat, size: nat)
    requires 1 <= l <= 4 && size < ADDRESS_BYTES
    ensures PageCount(l, size) <= ADDRESS_PAGES
  {
    hide Offset, Slot, Span;
    var x := (size + Span(l) * PAGE_BYTES - 1) / PAGE_BYTES;
    assert x < ADDRESS_PAGES + Span(l);
    if x >= ADDRESS_PAGES {
      var y := x - ADDRESS_PAGES;
      TopOffset(l);
      AlignedAdd(l, ADDRESS_PAGES, y);
      SlotOfMultiple(l, 0, y);
    }
  }

  /** The pages that get mapped are those the bytes of the range lie in exactly if the range does
      not run over the end of its last page because of where in its first page it starts. */
  lemma CoversRange(start: nat, size: nat)
    requires size > 0
    ensures (forall b :: start <= b < start + size ==>
               start / PAGE_BYTES <= b / PAGE_BYTES < start / PAGE_BYTES + PageCount(1, size))
       <==> start % PAGE_BYTES + (size - 1) % PAGE_BYTES < PAGE_BYTES
  {
    var last := start + size - 1;
    if start % PAGE_BYTES + (size - 1) % PAGE_BYTES < PAGE_BYTES {
      forall b | start <= b < start + size
        ensures start / PAGE_BYTES <= b / PAGE_BYTES < start / PAGE_BYTES + PageCount(1, size)
      {
        assert b / PAGE_BYTES <= last / PAGE_BYTES;
      }
    } else {
      assert last / PAGE_BYTES == start / PAGE_BYTES + PageCount(1, size);
    }
  }

  /** 4 KiB from the middle of a page lie in two pages, of which one gets mapped. */
  lemma NotAlwaysCovered(start: nat, size: nat)
    requires start == 0x800 && size == 0x1000
    ensures start / PAGE_BYTES + PageCount(1, size) == (start + size - 1) / PAGE_BYTES
  {
    hide PageCount;
    CountOfPages(size);
  }

  lemma UnitLevel(x: nat)
    ensures Offset(1, x) == 0 && AlignDown(1, x) == x
  {
  }

  lemma RootPlace(t: Tables, places: Places, r: nat)
    requires Linked(t, places) && IsRoot(places, r)
    ensures r in t && places[r].level == 4 && places[r].slot == 0 && PlaceOk(r, places[r])
  {
    assert PlaceOk(r, places[r]);
  }

  /** The range stays within the 48 bits that translation looks at. */
  predicate Canonical(page: nat, pages: nat) {
    Offset(5, page) + pages <= Span(5) && AlignDown(5, page) + Span(5) <= ADDRESS_PAGES
  }

  /** The range reaches the top of the address space, and so is taken to be empty, or it does not run
      over the end of a table of the highest level. */
  predicate InReach(page: nat, pages: nat) {
    page + pages < ADDRESS_PAGES ==> Canonical(page, pages)
  }

  /** Two pages across 2^48 do. */
  lemma AcrossWindow()
    ensures !InReach(0xf_ffff_ffff, 2)
  {
    SpanValues();
    OneTop(0xf_ffff_ffff);
    SlotOffset(5, 0xf_ffff_ffff);
  }

  /** `end - start` in 64-bit arithmetic. */
  function Distance(start: nat, end: nat): nat
    requires start < ADDRESS_BYTES
  {
    if start <= end then end - start else end + ADDRESS_BYTES - start
  }

  /** A canonical range, as pages of the window that translation looks at. */
  lemma WindowRange(l: nat, v: nat, n: nat)
    requires 1 <= l <= 4 && Offset(l, v) == 0 && Offset(l, n) == 0 && n > 0 && Canonical(v, n)
    ensures var ws := Offset(5, v);
            && Offset(l, ws) == 0 && Offset(l, ws + n) == 0 && Slot(5, ws) == 0 == Slot(5, ws + n - 1)
            && v == Slot(5, v) * Span(5) + ws && Slot(5, v) * Span(5) + Span(5) <= ADDRESS_PAGES && ws + n <= Span(5)
  {
    var ws := Offset(5, v);
    SlotOffset(5, v);
    HighOffset(l, 5, Slot(5, v), ws);
    AlignedAdd(l, ws, n);
    OneTop(ws);
    OneTop(ws + n - 1);
  }

  /** The pages of a range that lie before the end of the table of the highest level. */
  function Stretch(page: nat, pages: nat): nat {
    SlotOffset(5, page);
    if pages <= Span(5) - Offset(5, page) then pages else Span(5) - Offset(5, page)
  }

  /** From `places0` to `places1` only tables were added that the range needs. */
  ghost predicate RangeAdds(places0: Places, places1: Places, root: nat, page: nat, pages: nat, lowest: nat) {
    root in places0 && Adds(places0, places1, places0[root], lowest, Offset(5, page), Offset(5, page) + Stretch(page, pages))
  }

  /** A table that the range needs is missing. */
  ghost predicate RangeShort(places: Places, root: nat, page: nat, pages: nat, lowest: nat) {
    root in places && Short(places, places[root], lowest, Offset(5, page), Offset(5, page) + Stretch(page, pages))
  }

  /** A page of the range is mapped by an entry above level `lowest`, which is `large`, or it is mapped by one of that level
      or below, or its entry of that level leads to a table. */
  ghost predicate RangeBlocked(t: Tables, places: Places, root: nat, page: nat, pages: nat, lowest: nat, large: bool) {
    AnyBlocked(t, places, root, 4, lowest, Offset(5, page), Offset(5, page) + Stretch(page, pages), large)
  }

  lemma RangeUntouched(t: Tables, places: Places, free: Pmm.Stacks, held: set<Pmm.Frame>, root: nat, page: nat, pages: nat, lowest: nat)
    requires root in places
    ensures TablesTook(free, held, t, free, held, t) && RangeAdds(places, places, root, page, pages, lowest)
  {
    TablesTookNone(free, held, t, t);
    AddsNothing(places, places[root], lowest, Offset(5, page), Offset(5, page) + Stretch(page, pages));
  }

  /** At the granularity of single pages, only what is mapped is in the way. */
  lemma SmallBlocked(t: Tables, places: Places, root: nat, page: nat, pages: nat, large: bool)
    requires RangeBlocked(t, places, root, page, pages, 1, large)
    ensures exists w :: Offset(5, page) <= w < Offset(5, page) + pages && w < Span(5) && Translate(t, root, 4, w).Some?
  {
    var ws := Offset(5, page);
    var w: nat :| ws <= w < ws + Stretch(page, pages) && Blocked(t, places, root, 4, 1, w, large);
    assert w < Span(5) && Translate(t, root, 4, w).Some?;
  }

  lemma StretchOk(l: nat, v: nat, n: nat)
    requires 1 <= l <= 4 && Offset(l, v) == 0 && Offset(l, n) == 0 && n > 0 && v + n < ADDRESS_PAGES
    ensures var m := Stretch(v, n);
            && 0 < m <= n && Offset(l, m) == 0 && Canonical(v, m) && (m < n <==> !InReach(v, n))
            && (m < n ==> Offset(5, v) + m == Span(5))
  {
    hide Offset, Slot, Span;
    SlotOffset(5, v);
    BelowTop5(v);
    HighOffset(l, 5, Slot(5, v), Offset(5, v));
    RestAligned(l, Offset(5, v));
  }

  lemma BelowTop5(v: nat)
    requires v < ADDRESS_PAGES
    ensures AlignDown(5, v) + Span(5) <= ADDRESS_PAGES
  {
    hide Offset, Slot, Span;
    SpanValues();
    SlotOffset(5, v);
    assert Slot(5, v) * 0x10_0000_0000 <= v;
  }

  lemma RestAligned(l: nat, w: nat)
    requires 1 <= l <= 4 && Offset(l, w) == 0 && w <= Span(5)
    ensures Offset(l, Span(5) - w) == 0
  {
    hide Offset, Slot, Span;
    SlotOfMultiple(5, 1, 0);
    AlignedNests(l, 5, Span(5));
    SlotOffset(l, Span(5));
    AlignedAdd(l, w, Span(5) - w);
    AlignDownAligned(l, Span(5) - w);
  }

  lemma CountPositive(l: nat, size: nat)
    requires 1 <= l && size > 0
    ensures PageCount(l, size) > 0 && Offset(l, PageCount(l, size)) == 0
  {
    var x := (size + Span(l) * PAGE_BYTES - 1) / PAGE_BYTES;
    assert x >= Span(l);
    AlignDownAligned(l, x);
  }

  /** The effect of mapping `pages` pages from `page` on at granularity `lowest`: nothing if the
      range reaches the top of the address space. */
  ghost predicate MapsPages(t0: Tables, t1: Tables, places0: Places, places1: Places,
                            root: nat, page: nat, pages: nat, frame: nat, user: bool, lowest: nat)
    requires Linked(t0, places0) && Linked(t1, places1) && root in t0
  {
    if page + pages >= ADDRESS_PAGES then t1 == t0 && places1 == places0
    else Mapped(t0, t1, places0, places1, root, 4, Offset(5, page), Offset(5, page) + pages, frame, user, lowest)
  }

  lemma ReachesTop(page: nat, pages: nat)
    requires page + pages >= ADDRESS_PAGES
    ensures InReach(page, pages)
  {
  }

  /** Maps `size` bytes from page `virtStart` on, in whole entries of level `lowest`. The loop at the
      highest level counts the entries of one table; a range that goes on after the last of them is
      mapped up to there. */
  method MapPages(spaces: AddressSpaces, lowest: nat, root: nat, virtStart: nat, size: nat, phys: nat, user: bool)
    returns (r: Outcome)
    requires spaces.Valid() && IsRoot(spaces.places, root) && phys < ADDRESS_PAGES && 1 <= lowest <= 3
    requires virtStart < ADDRESS_PAGES && 0 < size < ADDRESS_BYTES && Offset(lowest, virtStart) == 0 && Offset(lowest, phys) == 0
    modifies spaces, spaces.pmm
    ensures spaces.Valid() && spaces.TookFrom(old(spaces.pmm.free), old(spaces.pmm.held), old(spaces.tables))
    ensures RangeAdds(old(spaces.places), spaces.places, root, virtStart, PageCount(lowest, size), lowest)
    ensures Discreet(old(spaces.tables), spaces.tables, user)
    ensures r.Done? ==>
              && InReach(virtStart, PageCount(lowest, size))
              && MapsPages(old(spaces.tables), spaces.tables, old(spaces.places), spaces.places,
                           root, virtStart, PageCount(lowest, size), phys, user, lowest)
    ensures r.RunsOffTable? ==>
              && !InReach(virtStart, PageCount(lowest, size))
              && Mapped(old(spaces.tables), spaces.tables, old(spaces.places), spaces.places,
                        root, 4, Offset(5, virtStart), Span(5), phys, user, lowest)
    ensures r.OutOfFrames? ==>
              Pmm.Exhausted(spaces.pmm.free, 0) && RangeShort(spaces.places, root, virtStart, PageCount(lowest, size), lowest)
    ensures r.Remapped? || r.WalksIntoFrame? ==>
              RangeBlocked(old(spaces.tables), old(spaces.places), root, virtStart, PageCount(lowest, size), lowest, r.WalksIntoFrame?)
    ensures virtStart + PageCount(lowest, size) >= ADDRESS_PAGES ==> r.Done? && unchanged(spaces) && unchanged(spaces.pmm)
  {
    hide Offset, Slot, Span, Linked, Rooted, PageCount, Canonical, InReach, Stretch, EndPage, Mapped, TablesTook, Adds, Short, AnyBlocked,
         Discreet;
    var pages := PageCount(lowest, size);
    var virtEnd := EndPage(lowest, virtStart, size);
    EndPageIs(lowest, virtStart, size);
    WrappedEmpty(lowest, virtStart, size);
    if virtStart < virtEnd {
      RootPlace(spaces.tables, spaces.places, root);
      CountPositive(lowest, size);
      StretchOk(lowest, virtStart, pages);
      var within := Stretch(virtStart, pages);
      WindowRange(lowest, virtStart, within);
      ghost var ws := Offset(5, virtStart);
      r := spaces.VmMap(4, lowest, root, virtStart, virtStart + within, phys, user, Slot(5, virtStart), ws, ws + within);
      AddsKeep(old(spaces.places), spaces.places, old(spaces.places)[root], lowest, ws, ws + within, root);
      if r.Done? && virtStart + within < virtEnd {
        r := RunsOffTable;
      }
    } else {
      ReachesTop(virtStart, pages);
      DiscreetSame(spaces.tables, user);
      SameTables(spaces.tables, spaces.places, root);
      RangeUntouched(spaces.tables, spaces.places, spaces.pmm.free, spaces.pmm.held, root, virtStart, pages, lowest);
      r := Done;
    }
  }

  /** Maps `end - start` bytes from `start` on, in whole pages, to frames from `physical` on. A
      range that reaches the top of the address space is silently not mapped. */
  method MapPhysical(spaces: AddressSpaces, root: nat, start: nat, end: nat, physical: nat, user: bool)
    returns (r: Outcome)
    requires spaces.Valid() && IsRoot(spaces.places, root)
    requires start < ADDRESS_BYTES && end < ADDRESS_BYTES && physical < ADDRESS_BYTES
    modifies spaces, spaces.pmm
    ensures start == end || start / PAGE_BYTES + PageCount(1, Distance(start, end)) >= ADDRESS_PAGES ==>
              r.Done? && unchanged(spaces) && unchanged(spaces.pmm)
    ensures spaces.Valid() && spaces.TookFrom(old(spaces.pmm.free), old(spaces.pmm.held), old(spaces.tables))
    ensures RangeAdds(old(spaces.places), spaces.places, root, start / PAGE_BYTES, PageCount(1, Distance(start, end)), 1)
    ensures Discreet(old(spaces.tables), spaces.tables, user)
    ensures r.OutOfFrames? ==>
              && Pmm.Exhausted(spaces.pmm.free, 0)
              && RangeShort(spaces.places, root, start / PAGE_BYTES, PageCount(1, Distance(start, end)), 1)
    ensures r.Done? ==> InReach(start / PAGE_BYTES, PageCount(1, Distance(start, end)))
    ensures start != end && r.Done? ==>
              MapsPages(old(spaces.tables), spaces.tables, old(spaces.places), spaces.places, root,
                           start / PAGE_BYTES, PageCount(1, Distance(start, end)), physical / PAGE_BYTES, user, 1)
    ensures r.RunsOffTable? ==>
              && !InReach(start / PAGE_BYTES, PageCount(1, Distance(start, end)))
              && Mapped(old(spaces.tables), spaces.tables, old(spaces.places), spaces.places, root, 4,
                        Offset(5, start / PAGE_BYTES), Span(5), physical / PAGE_BYTES, user, 1)
    ensures r.Remapped? || r.WalksIntoFrame? ==>
              exists w :: Offset(5, start / PAGE_BYTES) <= w < Offset(5, start / PAGE_BYTES) + PageCount(1, Distance(start, end))
                          && w < Span(5) && Translate(old(spaces.tables), root, 4, w).Some?
  {
    hide Offset, Slot, Span, Linked, Rooted, PageCount, MapsPages, Mapped, InReach, TablesTook, RangeAdds, RangeShort, RangeBlocked, Discreet;
    var size := Distance(start, end);
    if size == 0 {
      NoPages(start / PAGE_BYTES);
      DiscreetSame(spaces.tables, user);
      SameTables(spaces.tables, spaces.places, root);
      RangeUntouched(spaces.tables, spaces.places, spaces.pmm.free, spaces.pmm.held, root, start / PAGE_BYTES, PageCount(1, 0), 1);
      return Done;
    }
    UnitLevel(start / PAGE_BYTES);
    UnitLevel(physical / PAGE_BYTES);
    r := MapPages(spaces, 1, root, start / PAGE_BYTES, size, physical / PAGE_BYTES, user);
    if r.Remapped? || r.WalksIntoFrame? {
      SmallBlocked(old(spaces.tables), old(spaces.places), root, start / PAGE_BYTES, PageCount(1, size), r.WalksIntoFrame?);
    }
  }

  lemma NoPages(page: nat)
    requires page < ADDRESS_PAGES
    ensures InReach(page, PageCount(1, 0))
  {
    hide Offset, Slot, Span;
    CountOfPages(0);
    SlotOffset(5, page);
    BelowTop5(page);
  }

  /** Unmaps the pages of `end - start` bytes from `start` on. */
  method Unmap(spaces: AddressSpaces, root: nat, start: nat, end: nat) returns (r: UnmapOutcome)
    requires spaces.Valid() && IsRoot(spaces.places, root) && start < ADDRESS_BYTES && end < ADDRESS_BYTES
    modifies spaces`tables
    ensures var page, pages := start / PAGE_BYTES, PageCount(1, Distance(start, end));
            var ws := Offset(5, page);
            && spaces.Valid()
            && (r.Unmapped? ==>
                  && InReach(page, pages)
                  && (if start == end || page + pages >= ADDRESS_PAGES then unchanged(spaces)
                      else Cleared(old(spaces.tables), spaces.tables, spaces.places, root, 4, ws, ws + pages)))
            && (r.OffTable? ==>
                  && !InReach(page, pages)
                  && Cleared(old(spaces.tables), spaces.tables, spaces.places, root, 4, ws, Span(5)))
            && (r.NotMapped? || r.LargePage? ==> AnyBad(old(spaces.tables), root, 4, ws, ws + Stretch(page, pages), r.LargePage?))
  {
    hide Offset, Slot, Span, Linked, Rooted, PageCount, Canonical, InReach, Stretch, EndPage, Cleared, AnyBad;
    var size := Distance(start, end);
    if size == 0 {
      NoPages(start / PAGE_BYTES);
      return Unmapped;
    }
    var virtStart := start / PAGE_BYTES;
    UnitLevel(virtStart);
    var virtEnd := EndPage(1, virtStart, size);
    EndPageIs(1, virtStart, size);
    WrappedEmpty(1, virtStart, size);
    if virtStart < virtEnd {
      RootPlace(spaces.tables, spaces.places, root);
      CountPositive(1, size);
      StretchOk(1, virtStart, PageCount(1, size));
      var within := Stretch(virtStart, PageCount(1, size));
      WindowRange(1, virtStart, within);
      ghost var ws := Offset(5, virtStart);
      r := UnmapRange(spaces, 4, root, virtStart, virtStart + within, Slot(5, virtStart), ws, ws + within);
      if r.Unmapped? && virtStart + within < virtEnd {
        r := OffTable;
      }
    } else {
      ReachesTop(virtStart, PageCount(1, size));
      r := Unmapped;
    }
  }
}
