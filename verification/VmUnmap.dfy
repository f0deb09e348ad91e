/** Unmapping a range of pages. */
module VmUnmap {
  import opened Basics
  import opened Levels
  import opened PageTables
  import opened PageMapping
  import opened Window
  import opened Vm

  datatype UnmapOutcome =
    | Unmapped
    | NotMapped  // panic: a page of the range has no mapping
    | LargePage  // panic: a page of the range is mapped by a large frame
    | OffTable   // the loop would go on behind the last entry of a table of the highest level

  /** Mapped by an entry of the lowest level. */
  predicate Small(o: Option<Leaf>) {
    o.Some? && o.value.level == 1
  }

  /** The page is mapped by a large frame, or it is not mapped. */
  predicate Bad(o: Option<Leaf>, large: bool) {
    if large then o.Some? && o.value.level > 1 else o.None?
  }

  ghost predicate AnyBad(t: Tables, f: nat, l: nat, ws: nat, we: nat, large: bool)
    requires 1 <= l <= 4
  {
    exists w: nat :: ws <= w < we && Bad(Translate(t, f, l, w), large)
  }

  /** From `t0` to `t1`, table `f` lost the pages `ws..we`, and its other pages are as before. */
  ghost predicate Unmaps(t0: Tables, t1: Tables, f: nat, l: nat, slot: nat, ws: nat, we: nat)
    requires 1 <= l <= 4
  {
    forall w {:trigger Translate(t1, f, l, w)} :: 0 <= w < Span(5) && Slot(l + 1, w) == slot ==>
      Translate(t1, f, l, w) == if ws <= w < we then None else Translate(t0, f, l, w)
  }

  /** Table `f` lost the pages `ws..we`, all of which were mapped by small entries; no table went
      away and no entry above the lowest level changed. */
  ghost predicate Cleared(t0: Tables, t1: Tables, places: Places, f: nat, l: nat, ws: nat, we: nat)
    requires Linked(t0, places) && Linked(t1, places) && 1 <= l <= 4 && f in t0
  {
    && Frames(t0, t1, places, places, l, places[f].owner, ws, we)
    && Unmaps(t0, t1, f, l, places[f].slot, ws, we)
    && (forall w {:trigger Translate(t0, f, l, w)} :: ws <= w < we ==> Small(Translate(t0, f, l, w)))
    && (forall g, i: nat {:trigger t1[g][i]} :: g in t0 && i < FANOUT && places[g].level > 1 ==> t1[g][i] == t0[g][i])
  }

  lemma ClearNothing(t: Tables, places: Places, f: nat, l: nat, ws: nat)
    requires Linked(t, places) && f in t && 1 <= l <= 4
    ensures Cleared(t, t, places, f, l, ws, ws)
  {
  }

  /** Clearing the present bit of one lowest-level entry. */
  lemma ClearLeaf(t: Tables, places: Places, f: nat, wc: nat)
    requires Linked(t, places) && f in t && places[f].level == 1
    requires wc < Span(5) && Slot(2, wc) == places[f].slot && t[f][Index(1, wc)].present
    ensures var i := Index(1, wc);
            var t1 := Write(t, f, i, t[f][i].(present := false));
            Linked(t1, places) && Cleared(t, t1, places, f, 1, wc, wc + 1)
  {
    var i := Index(1, wc);
    var e := t[f][i].(present := false);
    var t1 := Write(t, f, i, e);
    assert EntryLinked(t, places, f, i);
    WriteLinked(t, places, f, i, e);
    WriteFrames(t, t1, places, f, 1, i, e, wc, wc + 1);
    forall w | 0 <= w < Span(5) && Slot(2, w) == places[f].slot
      ensures Translate(t1, f, 1, w) == if wc <= w < wc + 1 then None else Translate(t, f, 1, w)
    {
      SameEntry(1, wc, w);
    }
  }

  /** What the table below an entry lost, the table of the entry lost. */
  lemma ClearThrough(t: Tables, t1: Tables, places: Places, f: nat, l: nat, c: nat, wc: nat, wn: nat)
    requires Linked(t, places) && Linked(t1, places) && f in t && places[f].level == l && 2 <= l <= 4
    requires wc < wn <= Span(5) && Slot(l + 1, wc) == places[f].slot && Slot(l, wn - 1) == Slot(l, wc)
    requires Opened(t, places, f, Index(l, wc), c, false)
    requires Cleared(t, t1, places, c, l - 1, wc, wn)
    ensures Cleared(t, t1, places, f, l, wc, wn)
  {
    ChildSlot(places, f, l, c, wc);
    assert t1[f][Index(l, wc)] == t[f][Index(l, wc)];
    assert forall g, i: nat :: g in t && i < FANOUT && Touched(places[g], i, l - 1, places[c].owner, wc, wn) ==>
        Touched(places[g], i, l, places[f].owner, wc, wn);
    forall w | 0 <= w < Span(5) && Slot(l + 1, w) == places[f].slot
      ensures Translate(t1, f, l, w) == if wc <= w < wn then None else Translate(t, f, l, w)
      ensures wc <= w < wn ==> Small(Translate(t, f, l, w))
    {
      ClearThroughAt(t, t1, places, f, l, c, wc, wn, w);
    }
    forall w | wc <= w < wn
      ensures Small(Translate(t, f, l, w))
    {
      SlotMonotone(l, wc, w);
      SlotMonotone(l, w, wn - 1);
      assert Slot(l + 1, w) == Slot(l + 1, wc);
    }
  }

  lemma ClearThroughAt(t: Tables, t1: Tables, places: Places, f: nat, l: nat, c: nat, wc: nat, wn: nat, w: nat)
    requires Linked(t, places) && Linked(t1, places) && f in t && places[f].level == l && 2 <= l <= 4
    requires wc < wn <= Span(5) && Slot(l + 1, wc) == places[f].slot && Slot(l, wn - 1) == Slot(l, wc)
    requires Opened(t, places, f, Index(l, wc), c, false)
    requires Cleared(t, t1, places, c, l - 1, wc, wn) && places[c].slot == Slot(l, wc)
    requires t1[f][Index(l, wc)] == t[f][Index(l, wc)]
    requires w < Span(5) && Slot(l + 1, w) == places[f].slot
    ensures Translate(t1, f, l, w) == if wc <= w < wn then None else Translate(t, f, l, w)
    ensures wc <= w < wn ==> Small(Translate(t, f, l, w))
  {
    hide Slot, Offset, Span;
    SameEntry(l, wc, w);
    if wc <= w < wn {
      SlotMonotone(l, wc, w);
      SlotMonotone(l, w, wn - 1);
    }
    if Slot(l, w) != Slot(l, wc) {
      WalkElsewhere(t, t1, places, places, l - 1, places[c].owner, wc, wn, f, l, l, w);
    } else {
      assert Translate(t1, c, l - 1, w) == if wc <= w < wn then None else Translate(t, c, l - 1, w);
    }
  }

  lemma ClearExtend(t0: Tables, t1: Tables, t2: Tables, places: Places, f: nat, l: nat, ws: nat, wc: nat, wn: nat)
    requires Linked(t0, places) && Linked(t1, places) && Linked(t2, places)
    requires f in t0 && places[f].level == l && 1 <= l <= 4 && ws <= wc < wn <= Span(5)
    requires Slot(l + 1, ws) == places[f].slot == Slot(l + 1, wn - 1)
    requires Cleared(t0, t1, places, f, l, ws, wc) && Cleared(t1, t2, places, f, l, wc, wn)
    ensures Cleared(t0, t2, places, f, l, ws, wn)
  {
    FramesCompose(t0, t1, t2, places, places, places, l, places[f].owner, ws, wc, wn);
    forall w | ws <= w < wn
      ensures Small(Translate(t0, f, l, w))
    {
      SlotMonotone(l + 1, ws, w);
      SlotMonotone(l + 1, w, wn - 1);
      assert w < wc || Translate(t1, f, l, w) == Translate(t0, f, l, w);
    }
    forall w | 0 <= w < Span(5) && Slot(l + 1, w) == places[f].slot
      ensures Translate(t2, f, l, w) == if ws <= w < wn then None else Translate(t0, f, l, w)
    {
      assert Translate(t1, f, l, w) == if ws <= w < wc then None else Translate(t0, f, l, w);
    }
    forall g, i: nat | g in t0 && i < FANOUT && places[g].level > 1
      ensures t2[g][i] == t0[g][i]
    {
      assert t1[g][i] == t0[g][i];
    }
  }

  /** One round of the unmapping loop: the pages `wc..wn` of one entry. */
  method UnmapEntry(spaces: AddressSpaces, level: nat, table: nat, index: nat, virtStart: nat, entryEnd: nat,
                    ghost top: nat, ghost wc: nat, ghost wn: nat)
    returns (r: UnmapOutcome)
    requires spaces.Valid() && spaces.InTable(table, level, wc, wn)
    requires index == Index(level, wc) && Slot(level, wn - 1) == Slot(level, wc)
    requires virtStart == top * Span(5) + wc && entryEnd == top * Span(5) + wn
    requires top * Span(5) + Span(5) <= ADDRESS_PAGES
    modifies spaces`tables
    ensures spaces.Valid()
    ensures r.Unmapped? ==> Cleared(old(spaces.tables), spaces.tables, spaces.places, table, level, wc, wn)
    ensures !r.OffTable? && (!r.Unmapped? ==> AnyBad(old(spaces.tables), table, level, wc, wn, r.LargePage?))
    decreases level, 0
  {
    hide Linked, Rooted, Cleared, Slot, Offset, Span, Translate;
    EntryKinds(spaces.tables, spaces.places, table, level, wc);
    var e := spaces.tables[table][index];
    if !e.present {
      return NotMapped;
    }
    if level == 1 {
      ChunkIsPage(wc, wn);
      ClearLeaf(spaces.tables, spaces.places, table, wc);
      ClearKeepsRoots(spaces.tables, spaces.places, table, index);
      spaces.tables := Write(spaces.tables, table, index, e.(present := false));
      return Unmapped;
    }
    if e.size {
      return LargePage;
    }
    ChildSlot(spaces.places, table, level, e.address, wc);
    r := UnmapRange(spaces, level - 1, e.address, virtStart, entryEnd, top, wc, wn);
    if r.Unmapped? {
      ClearThrough(old(spaces.tables), spaces.tables, spaces.places, table, level, e.address, wc, wn);
    } else {
      ghost var w: nat :| wc <= w < wn && Bad(Translate(old(spaces.tables), e.address, level - 1, w), r.LargePage?);
      ThroughEntry(old(spaces.tables), spaces.places, table, level, wc, wn, w, r.LargePage?);
    }
  }

  /** What the entry of page `w` in a linked table can be. */
  lemma EntryKinds(t: Tables, places: Places, f: nat, l: nat, w: nat)
    requires Linked(t, places) && f in t && 1 <= l <= 4 && places[f].level == l
    ensures Index(l, w) < |t[f]|
    ensures var e := t[f][Index(l, w)];
            && (!e.present ==> Translate(t, f, l, w).None?)
            && (e.present && e.size && l > 1 ==> Bad(Translate(t, f, l, w), true))
            && (e.present && !e.size && l > 1 ==> e.address in t && Opened(t, places, f, Index(l, w), e.address, false))
  {
    assert EntryLinked(t, places, f, Index(l, w));
  }

  lemma ChunkIsPage(wc: nat, wn: nat)
    requires wc < wn && Slot(1, wn - 1) == Slot(1, wc)
    ensures wn == wc + 1
  {
  }

  /** Entries below the highest level do not concern the roots. */
  lemma ClearKeepsRoots(t: Tables, places: Places, f: nat, i: nat)
    requires Linked(t, places) && Rooted(t, places) && f in t && places[f].level == 1 && i < FANOUT
    requires Linked(Write(t, f, i, t[f][i].(present := false)), places)
    ensures Rooted(Write(t, f, i, t[f][i].(present := false)), places)
  {
  }

  lemma ThroughEntry(t: Tables, places: Places, f: nat, l: nat, wc: nat, wn: nat, w: nat, large: bool)
    requires Linked(t, places) && f in t && 2 <= l <= 4 && wc <= w < wn && Slot(l, wn - 1) == Slot(l, wc)
    requires var e := t[f][Index(l, wc)]; e.present && !e.size && Bad(Translate(t, e.address, l - 1, w), large)
    ensures Bad(Translate(t, f, l, w), large)
  {
    SlotMonotone(l, wc, w);
    SlotMonotone(l, w, wn - 1);
  }

  /** Unmaps the pages `ws..we` of table `table`, if all are mapped by small entries. */
  method UnmapRange(spaces: AddressSpaces, level: nat, table: nat, start: nat, end: nat,
                    ghost top: nat, ghost ws: nat, ghost we: nat)
    returns (r: UnmapOutcome)
    requires spaces.Valid() && spaces.InTable(table, level, ws, we)
    requires start == top * Span(5) + ws && end == top * Span(5) + we && top * Span(5) + Span(5) <= ADDRESS_PAGES
    modifies spaces`tables
    ensures spaces.Valid()
    ensures r.Unmapped? ==> Cleared(old(spaces.tables), spaces.tables, spaces.places, table, level, ws, we)
    ensures !r.OffTable? && (!r.Unmapped? ==> AnyBad(old(spaces.tables), table, level, ws, we, r.LargePage?))
    decreases level, 1
  {
    var virtStart: nat, index: nat := start, Index(level, start);
    ghost var wc: nat := ws;
    HighIndex(level, top, ws);
    ClearNothing(spaces.tables, spaces.places, table, level, ws);
    while virtStart < end
      invariant ws <= wc <= we && virtStart == top * Span(5) + wc
      invariant wc < we ==> index == Index(level, wc)
      invariant spaces.Valid()
      invariant Cleared(old(spaces.tables), spaces.tables, spaces.places, table, level, ws, wc)
      decreases we - wc
    {
      var entryEnd := AddressSpaces.NextEntry(level, virtStart, end, 1, top, ws, wc, we);
      ghost var wn, t1 := ChunkEnd(level, wc, we), spaces.tables;
      r := UnmapEntry(spaces, level, table, index, virtStart, entryEnd, top, wc, wn);
      if !r.Unmapped? {
        NotYetCleared(old(spaces.tables), t1, spaces.places, table, level, ws, wc, wn, we, r.LargePage?);
        return;
      }
      ClearExtend(old(spaces.tables), t1, spaces.tables, spaces.places, table, level, ws, wc, wn);
      if wn < we { IndexNext(level, ws, we, wc); }
      index := index + 1;
      virtStart := entryEnd;
      wc := wn;
    }
    return Unmapped;
  }

  lemma IndexNext(l: nat, ws: nat, we: nat, wc: nat)
    requires 1 <= l <= 4 && ws <= wc && SlotEnd(l, wc) < we && Slot(l + 1, ws) == Slot(l + 1, we - 1)
    ensures Index(l, SlotEnd(l, wc)) == Index(l, wc) + 1
  {
    SlotEndAfter(l, wc);
    SlotMonotone(l + 1, ws, wc);
    SlotMonotone(l + 1, wc, SlotEnd(l, wc));
    SlotMonotone(l + 1, SlotEnd(l, wc), we - 1);
  }

  lemma NotYetCleared(t0: Tables, t1: Tables, places: Places, f: nat, l: nat, ws: nat, wc: nat, wn: nat, we: nat, large: bool)
    requires Linked(t0, places) && Linked(t1, places) && f in t0 && 1 <= l <= 4 && ws <= wc < wn <= we <= Span(5)
    requires Slot(l + 1, wc) == places[f].slot == Slot(l + 1, wn - 1)
    requires Cleared(t0, t1, places, f, l, ws, wc)
    ensures AnyBad(t1, f, l, wc, wn, large) ==> AnyBad(t0, f, l, ws, we, large)
  {
    if AnyBad(t1, f, l, wc, wn, large) {
      var w: nat :| wc <= w < wn && Bad(Translate(t1, f, l, w), large);
      SlotMonotone(l + 1, wc, w);
      SlotMonotone(l + 1, w, wn - 1);
      assert Bad(Translate(t0, f, l, w), large);
    }
  }
}
