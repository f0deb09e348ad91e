/** Whole-operation and whole-run properties of the page tables. */
module PagingTheorems {
  import opened Basics
  import opened Levels
  import opened PageTables
  import opened PageMapping
  import opened PageNeeds
  import opened Translation
  import opened Vm
  import opened VmUnmap
  import opened Paging
  import Pmm

  /** The radix tree behaves as a flat map: after mapping `ws..we`, page `w` of the range has its
      closed-form frame and is in reach of user code exactly if that was asked for; every other
      page keeps its frame and last user bit, so a supervisor page stays out of reach; and other
      address spaces keep their lower halves and see the same upper half. */
  lemma MapIsFlat(t0: Tables, t1: Tables, places0: Places, places1: Places,
                  r: nat, ws: nat, we: nat, p: nat, user: bool, lowest: nat)
    requires Linked(t0, places0) && Linked(t1, places1) && IsRoot(places0, r)
    requires Mapped(t0, t1, places0, places1, r, 4, ws, we, p, user, lowest)
    ensures forall w :: 0 <= w < Span(5) && ws <= w < we ==>
              Translate(t0, r, 4, w).None? && Hit(Translate(t1, r, 4, w), MappedFrame(4, ws, p, w) % FRAME_NUMBERS, user, lowest)
    ensures forall w :: 0 <= w < Span(5) && ws <= w < we ==> (Accessible(Translate(t1, r, 4, w)) <==> user)
    ensures forall w :: 0 <= w < Span(5) && !(ws <= w < we) ==>
              && Kept(Translate(t0, r, 4, w), Translate(t1, r, 4, w), user)
              && (Accessible(Translate(t1, r, 4, w)) ==> Translate(t0, r, 4, w).value.user)
    ensures forall other, w :: IsRoot(places0, other) && other != r && 0 <= w < Span(5) ==>
              if UpperPage(w) then SameFrame(Translate(t1, other, 4, w), Translate(t1, r, 4, w))
              else Translate(t1, other, 4, w) == Translate(t0, other, 4, w)
  {
    assert PlaceOk(r, places0[r]);
    forall w | 0 <= w < Span(5)
      ensures Slot(5, w) == 0
    {
      OneTop(w);
    }
    forall other, w | IsRoot(places0, other) && other != r && 0 <= w < Span(5)
      ensures if UpperPage(w) then SameFrame(Translate(t1, other, 4, w), Translate(t1, r, 4, w))
              else Translate(t1, other, 4, w) == Translate(t0, other, 4, w)
    {
      if UpperPage(w) {
        UpperShared(t1, places1, other, r, w);
      } else {
        LowerIndependent(t0, t1, places0, places1, r, ws, we, other, w);
      }
    }
  }

  /** Mapping 4 KiB pages and unmapping them again restores every translation: exactly, after a
      supervisor mapping; up to user bits above the lowest level, after a user mapping. And what
      was just mapped can be unmapped. */
  lemma UnmapUndoesMap(t0: Tables, t1: Tables, t2: Tables, places0: Places, places1: Places,
                       r: nat, ws: nat, we: nat, p: nat, user: bool)
    requires Linked(t0, places0) && Linked(t1, places1) && Linked(t2, places1) && IsRoot(places0, r) && we <= Span(5)
    requires Mapped(t0, t1, places0, places1, r, 4, ws, we, p, user, 1)
    ensures forall w :: ws <= w < we ==> Small(Translate(t1, r, 4, w))
    ensures Cleared(t1, t2, places1, r, 4, ws, we) ==>
              forall w :: 0 <= w < Span(5) ==> Kept(Translate(t0, r, 4, w), Translate(t2, r, 4, w), user)
  {
    assert PlaceOk(r, places0[r]) && PlaceOk(r, places1[r]);
    forall w | 0 <= w < Span(5)
      ensures ws <= w < we ==> Small(Translate(t1, r, 4, w))
      ensures Cleared(t1, t2, places1, r, 4, ws, we) ==> Kept(Translate(t0, r, 4, w), Translate(t2, r, 4, w), user)
    {
      OneTop(w);
      assert ws <= w < we || Kept(Translate(t0, r, 4, w), Translate(t1, r, 4, w), user);
    }
  }

  // ---------------------------------------------------------------------------------------
  // Probing

  /** The kernel's software walk: the frame named by the entry that maps the page. */
  function Probe(tables: Tables, t: nat, l: nat, w: nat): Option<nat>
    requires 1 <= l <= 4
    decreases l
  {
    if t !in tables || |tables[t]| != FANOUT then None
    else
      var e := tables[t][Index(l, w)];
      if !e.present then None
      else if l == 1 || e.size then Some(e.address)
      else Probe(tables, e.address, l - 1, w)
  }

  /** The software walk finds exactly the mapped pages. It gives the address in the entry: the frame
      the processor gives, except for where in a larger frame the page is. */
  lemma {:induction false} ProbeAgrees(t: Tables, f: nat, l: nat, w: nat)
    requires 1 <= l <= 4
    ensures Probe(t, f, l, w).Some? <==> Translate(t, f, l, w).Some?
    ensures Translate(t, f, l, w).Some? ==>
              var leaf, a := Translate(t, f, l, w).value, Probe(t, f, l, w).value;
              && 1 <= leaf.level <= l && leaf.frame == AlignDown(leaf.level, a) + Offset(leaf.level, w)
              && (Offset(leaf.level, a) == 0 ==> a == AlignDown(leaf.level, leaf.frame))
    decreases l
  {
    if f in t && |t[f]| == FANOUT {
      var e := t[f][Index(l, w)];
      if e.present && l > 1 && !e.size {
        ProbeAgrees(t, e.address, l - 1, w);
      } else if e.present {
        BaseOf(l, e.address, w);
      }
    }
  }

  lemma BaseOf(l: nat, a: nat, w: nat)
    requires 1 <= l
    ensures AlignDown(l, AlignDown(l, a) + Offset(l, w)) == AlignDown(l, a)
    ensures Offset(l, a) == 0 ==> AlignDown(l, a) == a
  {
    AlignDownAligned(l, a);
    AlignedAdd(l, AlignDown(l, a), Offset(l, w));
    SlotOffset(l, w);
    SlotOfMultiple(l, 0, Offset(l, w));
  }

  // ---------------------------------------------------------------------------------------
  // The loader

  /** The loader's three entry points: `lowest` is 1, 2 or 3 for 4 KiB, 2 MiB or 1 GiB entries. */
  method LoaderMap(spaces: AddressSpaces, lowest: nat, root: nat, phys: nat, size: nat, virt: nat) returns (r: Outcome)
    requires spaces.Valid() && IsRoot(spaces.places, root) && 1 <= lowest <= 3
    requires phys < ADDRESS_BYTES && virt < ADDRESS_BYTES && size < ADDRESS_BYTES
    modifies spaces, spaces.pmm
    ensures spaces.Valid() && spaces.TookFrom(old(spaces.pmm.free), old(spaces.pmm.held), old(spaces.tables))
    ensures RangeAdds(old(spaces.places), spaces.places, root, AlignDown(lowest, virt / PAGE_BYTES), PageCount(lowest, size), lowest)
    ensures Discreet(old(spaces.tables), spaces.tables, false)
    ensures size == 0 || AlignDown(lowest, virt / PAGE_BYTES) + PageCount(lowest, size) >= ADDRESS_PAGES ==>
              r.Done? && unchanged(spaces) && unchanged(spaces.pmm)
    ensures r.Remapped? || r.WalksIntoFrame? ==>
              RangeBlocked(old(spaces.tables), old(spaces.places), root,
                           AlignDown(lowest, virt / PAGE_BYTES), PageCount(lowest, size), lowest, r.WalksIntoFrame?)
    ensures r.RunsOffTable? ==>
              && !InReach(AlignDown(lowest, virt / PAGE_BYTES), PageCount(lowest, size))
              && Mapped(old(spaces.tables), spaces.tables, old(spaces.places), spaces.places, root, 4,
                        Offset(5, AlignDown(lowest, virt / PAGE_BYTES)), Span(5), AlignDown(lowest, phys / PAGE_BYTES), false, lowest)
    ensures r.OutOfFrames? ==>
              && Pmm.Exhausted(spaces.pmm.free, 0)
              && RangeShort(spaces.places, root, AlignDown(lowest, virt / PAGE_BYTES), PageCount(lowest, size), lowest)
    ensures size > 0 && r.Done? ==>
              && InReach(AlignDown(lowest, virt / PAGE_BYTES), PageCount(lowest, size))
              && MapsPages(old(spaces.tables), spaces.tables, old(spaces.places), spaces.places, root,
                           AlignDown(lowest, virt / PAGE_BYTES), PageCount(lowest, size),
                           AlignDown(lowest, phys / PAGE_BYTES), false, lowest)
  {
    hide Offset, Slot, Span, Linked, Rooted, PageCount, InReach, Mapped, TablesTook, RangeAdds, RangeShort, RangeBlocked;
    if size == 0 {
      DiscreetSame(spaces.tables, false);
      SameTables(spaces.tables, spaces.places, root);
      RangeUntouched(spaces.tables, spaces.places, spaces.pmm.free, spaces.pmm.held, root,
                     AlignDown(lowest, virt / PAGE_BYTES), PageCount(lowest, 0), lowest);
      return Done;
    }
    AlignDownAligned(lowest, virt / PAGE_BYTES);
    AlignDownAligned(lowest, phys / PAGE_BYTES);
    r := MapPages(spaces, lowest, root, AlignDown(lowest, virt / PAGE_BYTES), size, AlignDown(lowest, phys / PAGE_BYTES), false);
  }

  /** At any two granularities the loader's loops give a range the same translation. */
  lemma GranularitiesAgree(a0: Tables, a1: Tables, b0: Tables, b1: Tables,
                           pa0: Places, pa1: Places, pb0: Places, pb1: Places,
                           ra: nat, rb: nat, ws: nat, we: nat, p: nat, la: nat, lb: nat, w: nat)
    requires Linked(a0, pa0) && Linked(a1, pa1) && IsRoot(pa0, ra)
    requires Linked(b0, pb0) && Linked(b1, pb1) && IsRoot(pb0, rb)
    requires Mapped(a0, a1, pa0, pa1, ra, 4, ws, we, p, false, la) && Mapped(b0, b1, pb0, pb1, rb, 4, ws, we, p, false, lb)
    requires ws <= w < we <= Span(5)
    ensures SameFrame(Translate(a1, ra, 4, w), Translate(b1, rb, 4, w))
  {
    MapIsFlat(a0, a1, pa0, pa1, ra, ws, we, p, false, la);
    MapIsFlat(b0, b1, pb0, pb1, rb, ws, we, p, false, lb);
  }

  /** The first page of the direct map of physical memory, 0xffff800000000000. */
  const PHYSMEM_PAGE: nat := 0xf_fff8_0000_0000

  lemma PhysmemAligned()
    ensures Offset(5, PHYSMEM_PAGE) == Span(5) / 2 == 0x8_0000_0000
    ensures forall h: nat :: 1 <= h <= 4 ==> Offset(h, Span(5) / 2) == 0 && Offset(h, 0) == 0
  {
    SpanValues();
    SlotOfMultiple(5, 0xffff, 0x8_0000_0000);
    SlotOfMultiple(4, 0x100, 0);
    forall h: nat | 1 <= h <= 4
      ensures Offset(h, Span(5) / 2) == 0 && Offset(h, 0) == 0
    {
      AlignedNests(h, 4, 0x8_0000_0000);
      ZeroOffset(h);
    }
  }

  /** The direct map of a number of pages sends page `p` of the map to frame `p`, unless it reaches
      the top of the address space. */
  lemma DirectMap(t0: Tables, t1: Tables, places0: Places, places1: Places, r: nat, pages: nat, lowest: nat, p: nat)
    requires Linked(t0, places0) && Linked(t1, places1) && IsRoot(places0, r) && p < pages
    requires MapsPages(t0, t1, places0, places1, r, PHYSMEM_PAGE, pages, 0, false, lowest)
    ensures if pages < Span(5) / 2 then Hit(Translate(t1, r, 4, Span(5) / 2 + p), p, false, lowest) else t1 == t0
  {
    hide Offset, Slot, Span, Mapped, Linked;
    PhysmemAligned();
    SpanValues();
    if pages < Span(5) / 2 {
      var ws := Span(5) / 2;
      MapIsFlat(t0, t1, places0, places1, r, ws, ws + pages, 0, false, lowest);
      LinearIff(ws, ws + pages, 0);
      var w := ws + p;
      assert MappedFrame(4, ws, 0, w) % FRAME_NUMBERS == p % FRAME_NUMBERS == p;
    }
  }

  lemma {:induction false} PowerMonotone(m: nat, n: nat)
    requires m <= n
    ensures Power(m) <= Power(n)
    decreases n
  {
    if m < n {
      PowerMonotone(m, n - 1);
    }
  }

  lemma PowerValues()
    ensures Power(46) == 0x4000_0000_0000 && Power(47) == 0x8000_0000_0000 && Power(63) == 0x8000_0000_0000_0000
  {
    assert Power(8) == 0x100;
    assert Power(16) == 0x1_0000;
    assert Power(24) == 0x100_0000;
    assert Power(32) == 0x1_0000_0000;
    assert Power(40) == 0x100_0000_0000;
    assert Power(48) == 0x1_0000_0000_0000;
    assert Power(56) == 0x100_0000_0000_0000;
  }

  lemma CountAtLeast(l: nat, size: nat)
    requires 1 <= l
    ensures size <= PageCount(l, size) * PAGE_BYTES < size + Span(l) * PAGE_BYTES
  {
    var x := (size + Span(l) * PAGE_BYTES - 1) / PAGE_BYTES;
    SlotOffset(l, x);
  }

  /** All memory that `bits` bits can address is smaller than half the address space exactly if they
      are at most 46. */
  lemma MemoryFits(l: nat, bits: nat)
    requires 1 <= l <= 3 && bits < 64
    ensures Power(bits) < ADDRESS_BYTES
    ensures PageCount(l, Power(bits)) < Span(5) / 2 <==> bits <= 46
  {
    hide Power, PageCount, Span;
    PowerValues();
    SpanValues();
    PowerMonotone(bits, 63);
    CountAtLeast(l, Power(bits));
    if bits <= 46 {
      PowerMonotone(bits, 46);
    } else {
      PowerMonotone(47, bits);
    }
  }

  lemma PhysmemInReach(l: nat, pages: nat)
    requires 1 <= l <= 4
    ensures AlignDown(l, PHYSMEM_PAGE) == PHYSMEM_PAGE && AlignDown(l, 0) == 0 && InReach(PHYSMEM_PAGE, pages)
    ensures PHYSMEM_PAGE + pages < ADDRESS_PAGES <==> pages < Span(5) / 2
  {
    SpanValues();
    SlotOfMultiple(5, 0xffff, 0x8_0000_0000);
    SlotOfMultiple(4, 0x1fff_f00, 0);
    AlignedNests(l, 4, PHYSMEM_PAGE);
    ZeroOffset(l);
  }

  /** The upper half of the address space of `root` is empty. */
  ghost predicate UpperBlank(t: Tables, root: nat) {
    root in t && |t[root]| == FANOUT && forall i: nat :: FANOUT / 2 <= i < FANOUT ==> !t[root][i].present
  }

  /** No table belongs to an empty upper half. */
  lemma {:induction false} NoSharedTables(t: Tables, places: Places, root: nat, h: nat)
    requires Linked(t, places) && IsRoot(places, root) && UpperBlank(t, root) && h in places
    ensures !places[h].owner.Shared?
    decreases 4 - places[h].level
  {
    assert PlaceOk(root, places[root]) && PlaceOk(h, places[h]) && HasParent(places, h);
    if places[h].level < 4 && places[h].owner.Shared? {
      var f, i: nat :| i < FANOUT && Below(places, f, i, h);
      assert PlaceOk(f, places[f]);
      if places[f].level < 4 {
        NoSharedTables(t, places, root, f);
      } else {
        assert Below(places, root, i, h) && EntryLinked(t, places, root, i);
      }
    }
  }

  /** In an empty upper half nothing is in the way of a mapping, at any granularity. */
  lemma UpperBlankOpen(t: Tables, places: Places, root: nat, lowest: nat, w: nat, large: bool)
    requires Linked(t, places) && IsRoot(places, root) && UpperBlank(t, root) && UpperPage(w) && w < Span(5) && lowest <= 3
    ensures !Blocked(t, places, root, 4, lowest, w, large)
  {
    OneTop(w);
    assert Index(4, w) == Slot(4, w) >= FANOUT / 2;
    if Split(places, places[root], lowest, w) {
      var h :| h in places && places[h] == PathPlace(places[root], lowest - 1, w);
      NoSharedTables(t, places, root, h);
    }
  }

  lemma DirectMapOpen(t: Tables, places: Places, root: nat, lowest: nat, pages: nat, large: bool)
    requires Linked(t, places) && IsRoot(places, root) && UpperBlank(t, root) && lowest <= 3
    ensures !RangeBlocked(t, places, root, PHYSMEM_PAGE, pages, lowest, large)
  {
    PhysmemAligned();
    var ws := Offset(5, PHYSMEM_PAGE);
    forall w: nat | ws <= w < ws + Stretch(PHYSMEM_PAGE, pages)
      ensures !Blocked(t, places, root, 4, lowest, w, large)
    {
      SpanValues();
      SlotOfMultiple(4, FANOUT / 2, 0);
      SlotMonotone(4, ws, w);
      UpperBlankOpen(t, places, root, lowest, w, large);
    }
  }

  /** The loader maps all of physical memory, from the address bits of the processor: every page of
      memory gets its place in the direct map if they are at most 46; otherwise the end of the map
      wraps, and nothing is mapped at all. In an empty upper half only a lack of frames for tables can
      keep it from doing so. */
  method MapMemory(spaces: AddressSpaces, huge: bool, root: nat, bits: nat) returns (r: Outcome)
    requires spaces.Valid() && IsRoot(spaces.places, root) && bits < 64
    modifies spaces, spaces.pmm
    ensures spaces.Valid() && spaces.TookFrom(old(spaces.pmm.free), old(spaces.pmm.held), old(spaces.tables))
    ensures Discreet(old(spaces.tables), spaces.tables, false)
    ensures UpperBlank(old(spaces.tables), root) ==> r.Done? || r.OutOfFrames?
    ensures r.OutOfFrames? ==>
              && Pmm.Exhausted(spaces.pmm.free, 0)
              && RangeShort(spaces.places, root, PHYSMEM_PAGE,
                            PageCount(if huge then 3 else 2, Power(bits)), if huge then 3 else 2)
    ensures bits <= 46 && r.Done? ==>
              forall p: nat :: p * PAGE_BYTES < Power(bits) ==>
                   Hit(Translate(spaces.tables, root, 4, Span(5) / 2 + p), p, false, if huge then 3 else 2)
    ensures bits > 46 ==> r.Done? && unchanged(spaces) && unchanged(spaces.pmm)
    ensures !r.RunsOffTable?
  {
    hide Power, PageCount, Span, Offset, Slot, Linked, Rooted, Canonical, Hit, Translate, TablesTook, RangeAdds, RangeShort,
         RangeBlocked, UpperBlank;
    if UpperBlank(spaces.tables, root) {
      DirectMapOpen(spaces.tables, spaces.places, root, if huge then 3 else 2, PageCount(if huge then 3 else 2, Power(bits)), false);
      DirectMapOpen(spaces.tables, spaces.places, root, if huge then 3 else 2, PageCount(if huge then 3 else 2, Power(bits)), true);
    }
    var lowest := if huge then 3 else 2;
    ghost var pages := PageCount(lowest, Power(bits));
    MemoryFits(lowest, bits);
    PhysmemInReach(lowest, pages);
    r := LoaderMap(spaces, lowest, root, 0, Power(bits), PHYSMEM_PAGE * PAGE_BYTES);
    if r.Done? && bits <= 46 {
      CountAtLeast(lowest, Power(bits));
      forall p: nat | p * PAGE_BYTES < Power(bits)
        ensures Hit(Translate(spaces.tables, root, 4, Span(5) / 2 + p), p, false, lowest)
      {
        DirectMap(old(spaces.tables), spaces.tables, old(spaces.places), spaces.places, root, pages, lowest, p);
      }
    }
  }
}
