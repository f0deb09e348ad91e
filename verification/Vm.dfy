/** The kernel's and the loader's page-table code: mapping, unmapping, probing and cloning. */
module Vm {
  import opened Basics
  import opened Levels
  import opened PageTables
  import opened PageMapping
  import opened PageNeeds
  import opened Window
  import Pmm

  datatype Outcome =
    | Done
    | Remapped        // panic: an entry of the range is already present
    | WalksIntoFrame  // the walk would read the contents of a large frame as a table
    | OutOfFrames     // panic: no frame for a new table
    | RunsOffTable    // the loop would go on behind the last entry of a table of the highest level

  /** There is one address space, or every one has all of its upper half filled in. */
  ghost predicate Rooted(t: Tables, places: Places)
    requires Linked(t, places)
  {
    || (forall f, g :: f in places && g in places && places[f].level == 4 && places[g].level == 4 ==> f == g)
    || (forall f, i: nat {:trigger t[f][i]} :: f in places && places[f].level == 4 && FANOUT / 2 <= i < FANOUT ==> t[f][i].present)
  }

  /** No root was added, and nothing present was removed. */
  ghost predicate Grows(t0: Tables, t1: Tables, places0: Places, places1: Places)
    requires Linked(t0, places0) && Linked(t1, places1)
  {
    && (forall f :: f in places0 ==> f in places1 && places1[f] == places0[f])
    && (forall f :: f in places1 && f !in places0 ==> places1[f].level < 4)
    && (forall f, i: nat {:trigger t1[f][i]} :: f in t0 && i < FANOUT && t0[f][i].present ==> t1[f][i].present)
  }

  /** Table `f` came to map the pages `ws..we`, none of which was mapped or split. */
  ghost predicate Mapped(t0: Tables, t1: Tables, places0: Places, places1: Places,
                         f: nat, l: nat, ws: nat, we: nat, p: nat, user: bool, lowest: nat)
    requires Linked(t0, places0) && Linked(t1, places1) && 1 <= l <= 4 && f in t0
  {
    && Frames(t0, t1, places0, places1, l, places0[f].owner, ws, we)
    && Maps(t0, t1, f, l, places0[f].slot, ws, we, p, user, lowest)
    && Grows(t0, t1, places0, places1)
    && (forall w {:trigger Translate(t0, f, l, w)} :: ws <= w < we ==> Translate(t0, f, l, w).None?)
    && !AnyBlocked(t0, places0, f, l, lowest, ws, we, false) && !AnyBlocked(t0, places0, f, l, lowest, ws, we, true)
  }

  /** The entry of `wc` in table `f` came to lead to table `c`, with no translation changed. */
  ghost predicate Opens(t0: Tables, t1: Tables, places0: Places, places1: Places,
                        f: nat, l: nat, c: nat, wc: nat, wn: nat, user: bool)
    requires Linked(t0, places0) && Linked(t1, places1) && 1 <= l <= 4 && f in t0
  {
    && Frames(t0, t1, places0, places1, l, places0[f].owner, wc, wn)
    && Keeps(t0, t1, f, l, places0[f].slot, user)
    && Grows(t0, t1, places0, places1)
    && f in t1
    && Opened(t1, places1, f, Index(l, wc), c, user)
  }

  lemma InstallOpens(t: Tables, places: Places, f: nat, l: nat, g: nat, wc: nat, wn: nat, user: bool)
    requires Linked(t, places) && Rooted(t, places) && f in t && places[f].level == l && 2 <= l <= 4
    requires wc < wn && Slot(l + 1, wc) == places[f].slot && Installable(t, places, f, Index(l, wc), g)
    ensures var t1 := Install(t, f, Index(l, wc), g, user);
            var places1 := places[g := ChildPlace(places[f], Index(l, wc))];
            Linked(t1, places1) && Rooted(t1, places1) && Opens(t, t1, places, places1, f, l, g, wc, wn, user)
  {
    assert !t[f][Index(l, wc)].present;
    InstallStep(t, places, f, l, wc, wn, g, user);
  }

  lemma InstallDiscreet(t: Tables, f: nat, i: nat, g: nat, user: bool)
    requires f in t && i < |t[f]| && g !in t
    ensures Discreet(t, Install(t, f, i, g, user), user)
  {
  }

  lemma MarkOpens(t: Tables, places: Places, f: nat, l: nat, wc: nat, wn: nat, user: bool)
    requires Linked(t, places) && Rooted(t, places) && f in t && places[f].level == l && 2 <= l <= 4
    requires wc < wn && Slot(l + 1, wc) == places[f].slot
    requires var e := t[f][Index(l, wc)]; e.present && !e.size
    ensures var e := t[f][Index(l, wc)];
            var t1 := Write(t, f, Index(l, wc), e.(user := e.user || user));
            Linked(t1, places) && Rooted(t1, places) && Opens(t, t1, places, places, f, l, e.address, wc, wn, user)
  {
    MarkStep(t, places, f, l, wc, wn, user);
  }

  lemma GrowsTransitive(t0: Tables, t1: Tables, t2: Tables, places0: Places, places1: Places, places2: Places)
    requires Linked(t0, places0) && Linked(t1, places1) && Linked(t2, places2)
    requires Grows(t0, t1, places0, places1) && Grows(t1, t2, places1, places2)
    ensures Grows(t0, t2, places0, places2)
  {
    forall f, i: nat | f in t0 && i < FANOUT && t0[f][i].present
      ensures t2[f][i].present
    {
      assert t1[f][i].present;
    }
  }

  lemma FramesTwice(t0: Tables, t1: Tables, t2: Tables, places0: Places, places1: Places, places2: Places,
                    top: nat, o: Owner, ws: nat, we: nat)
    requires Linked(t0, places0) && Linked(t1, places1) && Linked(t2, places2)
    requires Frames(t0, t1, places0, places1, top, o, ws, we)
    requires Frames(t1, t2, places1, places2, top, o, ws, we)
    ensures Frames(t0, t2, places0, places2, top, o, ws, we)
  {
    forall f, i: nat | f in t0 && i < FANOUT && !Touched(places0[f], i, top, o, ws, we)
      ensures t2[f][i] == t0[f][i]
    {
      assert t1[f][i] == t0[f][i];
    }
  }

  /** Opening an entry and mapping through the table below it maps the pages. */
  lemma MappedThrough(t0: Tables, t1: Tables, t2: Tables, places0: Places, places1: Places, places2: Places,
                      f: nat, l: nat, c: nat, wc: nat, wn: nat, p: nat, user: bool, lowest: nat)
    requires Linked(t0, places0) && Linked(t1, places1) && Linked(t2, places2)
    requires f in t0 && places0[f].level == l && 2 <= l <= 4
    requires wc < wn <= Span(5) && Slot(l + 1, wc) == places0[f].slot && Slot(l, wn - 1) == Slot(l, wc)
    requires Opens(t0, t1, places0, places1, f, l, c, wc, wn, user)
    requires c in t1 && Mapped(t1, t2, places1, places2, c, l - 1, wc, wn, p, user, lowest)
    requires lowest < l && Adds(places0, places1, places0[f], lowest, wc, wn)
    ensures Mapped(t0, t2, places0, places2, f, l, wc, wn, p, user, lowest)
  {
    ChildSlot(places1, f, l, c, wc);
    ThroughChild(t1, t2, places1, places2, f, l, c, wc, wn, p, user, lowest);
    FramesTwice(t0, t1, t2, places0, places1, places2, l, places0[f].owner, wc, wn);
    MapsAfterOpen(t0, t1, t2, f, l, places0[f].slot, wc, wn, p, user, lowest);
    GrowsTransitive(t0, t1, t2, places0, places1, places2);
    forall w | wc <= w < wn
      ensures Translate(t0, f, l, w).None?
    {
      ThroughOpened(t0, t1, places0, places1, f, l, c, wc, wn, user, w);
    }
    BlockedThrough(t0, t1, places0, places1, f, l, c, lowest, wc, wn, user, false);
    BlockedThrough(t0, t1, places0, places1, f, l, c, lowest, wc, wn, user, true);
  }

  lemma ChildSlot(places: Places, f: nat, l: nat, c: nat, wc: nat)
    requires 2 <= l <= 4 && f in places && places[f].level == l && Slot(l + 1, wc) == places[f].slot
    requires Below(places, f, Index(l, wc), c)
    ensures places[c].level == l - 1 && places[c].slot == Slot(l, wc)
  {
  }

  /** Through an opened entry, a page is mapped before exactly if the table below maps it. */
  lemma ThroughOpened(t0: Tables, t1: Tables, places0: Places, places1: Places,
                      f: nat, l: nat, c: nat, wc: nat, wn: nat, user: bool, w: nat)
    requires Linked(t0, places0) && Linked(t1, places1) && f in t0 && places0[f].level == l && 2 <= l <= 4
    requires wc <= w < wn <= Span(5) && Slot(l + 1, wc) == places0[f].slot && Slot(l, wn - 1) == Slot(l, wc)
    requires Opens(t0, t1, places0, places1, f, l, c, wc, wn, user)
    ensures Translate(t0, f, l, w).Some? <==> Translate(t1, c, l - 1, w).Some?
    ensures Translate(t0, f, l, w).Some? ==> Translate(t0, f, l, w).value.level == Translate(t1, c, l - 1, w).value.level
  {
    SlotMonotone(l, wc, w);
    SlotMonotone(l, w, wn - 1);
    assert Slot(l + 1, w) == Slot(l + 1, wc);
    assert Kept(Translate(t0, f, l, w), Translate(t1, f, l, w), user);
  }

  /** The loop so far and its next chunk map the longer range. */
  lemma MappedExtend(t0: Tables, t1: Tables, t2: Tables, places0: Places, places1: Places, places2: Places,
                     f: nat, l: nat, ws: nat, wc: nat, wn: nat, p: nat, user: bool, lowest: nat)
    requires Linked(t0, places0) && Linked(t1, places1) && Linked(t2, places2)
    requires f in t0 && places0[f].level == l && 1 <= l <= 4 && ws <= wc < wn <= Span(5)
    requires Slot(l + 1, ws) == places0[f].slot == Slot(l + 1, wn - 1)
    requires Slot(l, wn - 1) == Slot(l, wc)
    requires wc == ws || (Offset(l, wc) == 0 && Slot(l, ws) != Slot(l, wc))
    requires Mapped(t0, t1, places0, places1, f, l, ws, wc, p, user, lowest)
    requires f in t1 && Mapped(t1, t2, places1, places2, f, l, wc, wn, PhysAt(l, ws, p, wc), user, lowest)
    requires Adds(places0, places1, places0[f], lowest, ws, wc)
    ensures Mapped(t0, t2, places0, places2, f, l, ws, wn, p, user, lowest)
  {
    hide Slot, Offset, Span, Frames, Grows, AnyBlocked;
    MappedTable(t0, t1, places0, places1, f, l, ws, wc, p, user, lowest);
    FramesCompose(t0, t1, t2, places0, places1, places2, l, places0[f].owner, ws, wc, wn);
    MapsExtend(t0, t1, t2, f, l, places0[f].slot, ws, wc, wn, p, user, lowest);
    GrowsTransitive(t0, t1, t2, places0, places1, places2);
    forall w | ws <= w < wn
      ensures Translate(t0, f, l, w).None?
    {
      SlotMonotone(l + 1, ws, w);
      SlotMonotone(l + 1, w, wn - 1);
      assert w < wc || Kept(Translate(t0, f, l, w), Translate(t1, f, l, w), user);
    }
    SlotMonotone(l + 1, ws, wc);
    SlotMonotone(l + 1, wc, wn - 1);
    StillBlocked(t0, t1, places0, places1, f, l, ws, wc, wn, p, user, lowest, false);
    StillBlocked(t0, t1, places0, places1, f, l, ws, wc, wn, p, user, lowest, true);
    BlockedEither(t0, places0, f, l, lowest, ws, wc, wn, false);
    BlockedEither(t0, places0, f, l, lowest, ws, wc, wn, true);
  }

  class AddressSpaces {
    const pmm: Pmm.Instance
    var tables: Tables

    /** Where each table is. */
    ghost var places: Places

    ghost predicate Valid()
      reads this, pmm
    {
      && pmm.Valid()
      && Linked(tables, places)
      && Rooted(tables, places)
      && (forall f :: f in tables ==> !Pmm.FreePage(pmm.free, f))
    }

    /** One address space with nothing mapped, its root in frame `root`. */
    constructor (pmm: Pmm.Instance, root: nat)
      requires pmm.Valid() && !Pmm.FreePage(pmm.free, root)
      ensures Valid() && this.pmm == pmm
      ensures tables == map[root := BlankTable()] && places == map[root := Place(4, 0, Private(root))]
    {
      this.pmm := pmm;
      tables := map[root := BlankTable()];
      places := map[root := Place(4, 0, Private(root))];
    }

    /** Since `free`, the frames of the new tables were taken, and no others. */
    ghost predicate TookFrom(free: Pmm.Stacks, held: set<Pmm.Frame>, t: Tables)
      reads this, pmm
    {
      TablesTook(free, held, t, pmm.free, pmm.held, tables)
    }

    /** `ws..we` are pages of table `f`. */
    ghost predicate InTable(f: nat, l: nat, ws: nat, we: nat)
      reads this
    {
      && f in tables && f in places && 1 <= l <= 4 && places[f].level == l
      && ws < we <= Span(5) && Slot(l + 1, ws) == places[f].slot == Slot(l + 1, we - 1)
    }

    /** One entry of the lowest level. */
    method MapLeaf(level: nat, table: nat, index: nat, phys: nat, user: bool, ghost wc: nat, ghost wn: nat)
      returns (r: Outcome)
      requires Valid() && InTable(table, level, wc, wn) && level <= 3
      requires index == Index(level, wc) && WholeSlot(level, wc, wn, phys)
      modifies this
      ensures Valid() && tables.Keys == old(tables).Keys && places == old(places) && Discreet(old(tables), tables, user)
      ensures r == if AnyBlocked(old(tables), old(places), table, level, level, wc, wn, false) then Remapped else Done
      ensures r.Done? ==> Mapped(old(tables), tables, old(places), places, table, level, wc, wn, phys, user, level)
      ensures r.Remapped? ==> tables == old(tables)
    {
      LeafBlocked(tables, places, table, level, wc, wn, phys);
      if tables[table][index].present {
        return Remapped;
      }
      LeafStep(tables, places, table, level, wc, wn, phys, user);
      tables := Write(tables, table, index, LeafEntry(level, tables[table][index], phys, user));
      return Done;
    }

    /** Puts a new, blank table below an entry that is not present. */
    method AddTable(level: nat, table: nat, index: nat, user: bool, ghost wc: nat, ghost wn: nat)
      returns (child: Option<nat>)
      requires Valid() && InTable(table, level, wc, wn) && level >= 2
      requires index == Index(level, wc) && Slot(level, wn - 1) == Slot(level, wc) && !tables[table][index].present
      modifies this, pmm
      ensures Valid() && TookFrom(old(pmm.free), old(pmm.held), old(tables))
      ensures Adds(old(places), places, old(places)[table], level - 1, wc, wn) && Discreet(old(tables), tables, user)
      ensures child.Some? ==> Opens(old(tables), tables, old(places), places, table, level, child.value, wc, wn, user)
      ensures child.None? ==> Pmm.Exhausted(old(pmm.free), 0) && unchanged(this) && unchanged(pmm)
    {
      hide Rooted, Opens, Slot, Span, Adds, TablesTook, Discreet;
      InOneEntry(tables, places, table, wc, wn);
      child := pmm.Pop(0);
      if child.None? {
        AddsNothing(places, places[table], level - 1, wc, wn);
        TablesTookNone(pmm.free, pmm.held, tables, tables);
        DiscreetSame(tables, user);
        return;
      }
      var g := child.value;
      Pmm.HandedOutNotFree(old(pmm.free), old(pmm.held), Pmm.Frame(0, g), pmm.free);
      assert Pmm.Holds(Pmm.Frame(0, g), g);
      InstallOpens(tables, places, table, level, g, wc, wn, user);
      InstallAdds(places, table, g, wc, wn);
      InstallDiscreet(tables, table, index, g, user);
      places := places[g := ChildPlace(places[table], index)];
      tables := Install(tables, table, index, g, user);
      TablesTookOne(old(pmm.free), old(pmm.held), old(tables), pmm.free, g, tables);
    }

    /** Makes an entry above the lowest level lead to a table. */
    method OpenEntry(level: nat, table: nat, index: nat, user: bool, ghost wc: nat, ghost wn: nat)
      returns (r: Outcome, child: nat)
      requires Valid() && InTable(table, level, wc, wn) && level >= 2
      requires index == Index(level, wc) && Slot(level, wn - 1) == Slot(level, wc)
      modifies this, pmm
      ensures Valid() && TookFrom(old(pmm.free), old(pmm.held), old(tables))
      ensures Adds(old(places), places, old(places)[table], level - 1, wc, wn) && Discreet(old(tables), tables, user)
      ensures r.Done? || r.WalksIntoFrame? || r.OutOfFrames?
      ensures r.Done? ==> Opens(old(tables), tables, old(places), places, table, level, child, wc, wn, user)
      ensures r.WalksIntoFrame? ==> Translate(old(tables), table, level, wc).Some? && Translate(old(tables), table, level, wc).value.level == level
      ensures r.OutOfFrames? ==> Pmm.Exhausted(old(pmm.free), 0) && Short(old(places), old(places)[table], level - 1, wc, wn)
      ensures !r.Done? ==> unchanged(this) && unchanged(pmm)
    {
      hide Rooted, Opens, Slot, Span, Adds, Short, TablesTook;
      InOneEntry(tables, places, table, wc, wn);
      var e := tables[table][index];
      if !e.present {
        AbsentShort(tables, places, table, wc, wn);
        var frame := AddTable(level, table, index, user, wc, wn);
        return if frame.None? then OutOfFrames else Done, if frame.None? then 0 else frame.value;
      }
      AddsNothing(places, places[table], level - 1, wc, wn);
      if e.size {
        TablesTookNone(pmm.free, pmm.held, tables, tables);
        return WalksIntoFrame, 0;
      }
      MarkOpens(tables, places, table, level, wc, wn, user);
      tables := Write(tables, table, index, e.(user := e.user || user));
      TablesTookNone(pmm.free, pmm.held, old(tables), tables);
      return Done, e.address;
    }

    /** The range of a mapping at granularity `lowest`: pages and frame aligned to it. */
    static predicate Granular(lowest: nat, ws: nat, we: nat, phys: nat) {
      1 <= lowest <= 3 && Offset(lowest, ws) == 0 && Offset(lowest, we) == 0 && Offset(lowest, phys) == 0
    }

    /** One round of the mapping loop: the pages `wc..wn` of one entry. */
    method MapEntry(level: nat, lowest: nat, table: nat, index: nat, virtStart: nat, entryEnd: nat,
                    phys: nat, user: bool, ghost top: nat, ghost wc: nat, ghost wn: nat)
      returns (r: Outcome)
      requires Valid() && InTable(table, level, wc, wn) && lowest <= level && Granular(lowest, wc, wn, phys)
      requires index == Index(level, wc) && Slot(level, wn - 1) == Slot(level, wc) && phys < ADDRESS_PAGES
      requires virtStart == top * Span(5) + wc && entryEnd == top * Span(5) + wn
      requires top * Span(5) + Span(5) <= ADDRESS_PAGES
      modifies this, pmm
      ensures Valid() && TookFrom(old(pmm.free), old(pmm.held), old(tables))
      ensures Adds(old(places), places, old(places)[table], lowest, wc, wn) && Discreet(old(tables), tables, user)
      ensures r.Done? ==> Mapped(old(tables), tables, old(places), places, table, level, wc, wn, phys, user, lowest)
      ensures !r.RunsOffTable?
      ensures r.OutOfFrames? ==> Pmm.Exhausted(pmm.free, 0) && Short(places, old(places)[table], lowest, wc, wn)
      ensures r.Remapped? || r.WalksIntoFrame? ==>
                AnyBlocked(old(tables), old(places), table, level, lowest, wc, wn, r.WalksIntoFrame?)
      decreases level, 0
    {
      hide Mapped, Linked, Rooted, Span, Slot, Offset, TablesTook, Adds, Short, AnyBlocked, Discreet;
      if level == lowest {
        ChunkIsSlot(level, wc, wn);
        r := MapLeaf(level, table, index, phys, user, wc, wn);
        TablesTookNone(pmm.free, pmm.held, old(tables), tables);
        AddsNothing(places, places[table], lowest, wc, wn);
      } else {
        var child;
        r, child := OpenEntry(level, table, index, user, wc, wn);
        ghost var t1, places1, free1, held1 := tables, places, pmm.free, pmm.held;
        AddsWider(old(places), places, old(places)[table], level - 1, wc, wn, lowest, wc, wn);
        if !r.Done? {
          NotOpened(tables, places, table, level, lowest, wc, wn, r);
          return;
        }
        OpenedBelow(old(tables), tables, old(places), places, table, level, child, wc, wn, user);
        r := VmMap(level - 1, lowest, child, virtStart, entryEnd, phys, user, top, wc, wn);
        TablesTookBoth(old(pmm.free), old(pmm.held), old(tables), free1, held1, t1, pmm.free, pmm.held, tables);
        DiscreetTwice(old(tables), t1, tables, user);
        EntryNeeds(old(tables), t1, old(places), places1, places, table, level, child, lowest, wc, wn, user);
        BlockedThrough(old(tables), t1, old(places), places1, table, level, child, lowest, wc, wn, user, r.WalksIntoFrame?);
        if r.Done? {
          MappedThrough(old(tables), t1, tables, old(places), places1, places, table, level, child, wc, wn, phys, user, lowest);
        }
      }
    }

    /** The mapping loop has reached page `wc` of `ws..we`, from the tables `t0`. */
    ghost predicate Reached(t0: Tables, places0: Places, free0: Pmm.Stacks, held0: set<Pmm.Frame>,
                            f: nat, l: nat, ws: nat, wc: nat, p: nat, user: bool, lowest: nat)
      reads this, pmm
    {
      && Linked(t0, places0) && 1 <= l <= 4 && f in t0 && places0[f].level == l
      && Valid() && TookFrom(free0, held0, t0) && Adds(places0, places, places0[f], lowest, ws, wc) && Discreet(t0, tables, user)
      && Mapped(t0, tables, places0, places, f, l, ws, wc, p, user, lowest)
    }

    /** The end of the entry at `virtStart`, and with it the chunk `wc..wn` of one round. */
    static method NextEntry(level: nat, virtStart: nat, end: nat,
                            ghost lowest: nat, ghost top: nat, ghost ws: nat, ghost wc: nat, ghost we: nat)
      returns (entryEnd: nat)
      requires 1 <= lowest <= level <= 4 && ws <= wc < we <= Span(5) && Slot(level + 1, ws) == Slot(level + 1, we - 1)
      requires Offset(lowest, we) == 0
      requires virtStart == top * Span(5) + wc && end == top * Span(5) + we && top * Span(5) + Span(5) <= ADDRESS_PAGES
      ensures var wn := ChunkEnd(level, wc, we);
              && entryEnd == top * Span(5) + wn
              && wc < wn <= we && Slot(level, wn - 1) == Slot(level, wc) && Offset(lowest, wn) == 0
              && Slot(level + 1, wc) == Slot(level + 1, ws) == Slot(level + 1, wn - 1)
    {
      EntryEndIs(level, top, wc, we);
      ChunkOk(level, lowest, ws, we, wc);
      entryEnd := EntryEnd(level, virtStart, end);
    }

    /** The physical address after one round. */
    static method NextPhys(level: nat, phys: nat,
                           ghost lowest: nat, ghost index: nat, ghost ws: nat, ghost wc: nat, ghost we: nat, ghost p: nat)
      returns (phys': nat)
      requires 1 <= level <= 4 && wc < we <= Span(5) && Slot(level + 1, ws) == Slot(level + 1, we - 1)
      requires LoopAt(level, lowest, ws, wc, p, phys, index) && p < ADDRESS_PAGES
      ensures var wn := ChunkEnd(level, wc, we);
              wn < we ==> LoopAt(level, lowest, ws, wn, p, phys', index + 1)
    {
      if SlotEnd(level, wc) < we {
        LoopNext(level, lowest, ws, we, wc, p, phys, index);
      }
      phys' := AlignDown(level, Wrap(phys + Span(level)));
    }

    /** One round of the loop, with the variables it leaves behind. */
    method MapChunk(level: nat, lowest: nat, table: nat, index: nat, virtStart: nat, end: nat, phys: nat, user: bool,
                    ghost top: nat, ghost ws: nat, ghost wc: nat, ghost we: nat, ghost p: nat,
                    ghost t0: Tables, ghost places0: Places, ghost free0: Pmm.Stacks, ghost held0: set<Pmm.Frame>)
      returns (r: Outcome, virtStart': nat, phys': nat)
      requires Reached(t0, places0, free0, held0, table, level, ws, wc, p, user, lowest)
      requires wc < we <= Span(5) && Slot(level + 1, ws) == places0[table].slot == Slot(level + 1, we - 1)
      requires LoopAt(level, lowest, ws, wc, p, phys, index) && lowest <= 3 && Offset(lowest, we) == 0 && p < ADDRESS_PAGES
      requires virtStart == top * Span(5) + wc && end == top * Span(5) + we && top * Span(5) + Span(5) <= ADDRESS_PAGES
      modifies this, pmm
      ensures r.Done? ==>
                && virtStart' == top * Span(5) + ChunkEnd(level, wc, we)
                && wc < ChunkEnd(level, wc, we) <= we
                && Reached(t0, places0, free0, held0, table, level, ws, ChunkEnd(level, wc, we), p, user, lowest)
                && (ChunkEnd(level, wc, we) < we ==> LoopAt(level, lowest, ws, ChunkEnd(level, wc, we), p, phys', index + 1))
      ensures Valid() && TookFrom(free0, held0, t0) && Adds(places0, places, places0[table], lowest, ws, we) && Discreet(t0, tables, user)
      ensures !r.RunsOffTable?
      ensures r.OutOfFrames? ==> Pmm.Exhausted(pmm.free, 0) && Short(places, places0[table], lowest, ws, we)
      ensures r.Remapped? || r.WalksIntoFrame? ==> AnyBlocked(t0, places0, table, level, lowest, ws, we, r.WalksIntoFrame?)
      decreases level, 1
    {
      hide Mapped, Linked, Rooted, Span, Slot, Offset, ChunkEnd, Translate, TablesTook, Adds, Short, AnyBlocked, Discreet;
      virtStart' := NextEntry(level, virtStart, end, lowest, top, ws, wc, we);
      phys' := NextPhys(level, phys, lowest, index, ws, wc, we, p);
      ghost var wn := ChunkEnd(level, wc, we);
      ghost var t1, places1, free1, held1 := tables, places, pmm.free, pmm.held;
      MappedTable(t0, tables, places0, places, table, level, ws, wc, p, user, lowest);
      r := MapEntry(level, lowest, table, index, virtStart, virtStart', phys, user, top, wc, wn);
      TablesTookBoth(free0, held0, t0, free1, held1, t1, pmm.free, pmm.held, tables);
      DiscreetTwice(t0, t1, tables, user);
      ChunkNeeds(places0, places1, places, places0[table], lowest, ws, wc, wn, we);
      if r.Done? {
        MappedExtend(t0, t1, tables, places0, places1, places, table, level, ws, wc, wn, p, user, lowest);
      } else {
        StillBlocked(t0, t1, places0, places1, table, level, ws, wc, wn, p, user, lowest, r.WalksIntoFrame?);
        BlockedEither(t0, places0, table, level, lowest, wc, wn, we, r.WalksIntoFrame?);
        BlockedEither(t0, places0, table, level, lowest, ws, wc, we, r.WalksIntoFrame?);
      }
    }

    /** Maps the pages `ws..we` from frame `phys` on, in the table `table` of level `level`. */
    method VmMap(level: nat, lowest: nat, table: nat, start: nat, end: nat, physStart: nat, user: bool,
                 ghost top: nat, ghost ws: nat, ghost we: nat)
      returns (r: Outcome)
      requires Valid() && InTable(table, level, ws, we) && lowest <= level && Granular(lowest, ws, we, physStart)
      requires physStart < ADDRESS_PAGES
      requires start == top * Span(5) + ws && end == top * Span(5) + we && top * Span(5) + Span(5) <= ADDRESS_PAGES
      modifies this, pmm
      ensures Valid() && TookFrom(old(pmm.free), old(pmm.held), old(tables))
      ensures Adds(old(places), places, old(places)[table], lowest, ws, we) && Discreet(old(tables), tables, user)
      ensures r.Done? ==> Mapped(old(tables), tables, old(places), places, table, level, ws, we, physStart, user, lowest)
      ensures !r.RunsOffTable?
      ensures r.OutOfFrames? ==> Pmm.Exhausted(pmm.free, 0) && Short(places, old(places)[table], lowest, ws, we)
      ensures r.Remapped? || r.WalksIntoFrame? ==>
                AnyBlocked(old(tables), old(places), table, level, lowest, ws, we, r.WalksIntoFrame?)
      decreases level, 2
    {
      hide Mapped, Linked, Rooted, Span, Slot, Offset, ChunkEnd, Translate, TablesTook, Adds, Short, AnyBlocked, Discreet;
      var virtStart: nat, phys: nat, index: nat := start, physStart, Index(level, start);
      ghost var wc: nat := ws;
      HighIndex(level, top, ws);
      MappedNothing(tables, places, table, level, ws, physStart, user, lowest);
      TablesTookNone(pmm.free, pmm.held, tables, tables);
      AddsNothing(places, places[table], lowest, ws, ws);
      DiscreetSame(tables, user);
      while virtStart < end
        invariant ws <= wc <= we && virtStart == top * Span(5) + wc
        invariant Reached(old(tables), old(places), old(pmm.free), old(pmm.held), table, level, ws, wc, physStart, user, lowest)
        invariant wc < we ==> LoopAt(level, lowest, ws, wc, physStart, phys, index)
        decreases we - wc
      {
        r, virtStart, phys := MapChunk(level, lowest, table, index, virtStart, end, phys, user, top, ws, wc, we, physStart,
                                       old(tables), old(places), old(pmm.free), old(pmm.held));
        if !r.Done? { return; }
        index := index + 1;
        wc := ChunkEnd(level, wc, we);
      }
      return Done;
    }
  }

  /** An entry of the lowest level is present exactly if its pages are blocked. */
  lemma LeafBlocked(t: Tables, places: Places, f: nat, l: nat, wc: nat, wn: nat, p: nat)
    requires Linked(t, places) && f in t && places[f].level == l && 1 <= l <= 3 && WholeSlot(l, wc, wn, p)
    requires wc < wn <= Span(5) && Slot(l + 1, wc) == places[f].slot
    ensures !t[f][Index(l, wc)].present ==>
              forall w {:trigger Translate(t, f, l, w)} :: wc <= w < wn ==> Translate(t, f, l, w).None?
    ensures AnyBlocked(t, places, f, l, l, wc, wn, false) <==> t[f][Index(l, wc)].present
    ensures !t[f][Index(l, wc)].present ==> !AnyBlocked(t, places, f, l, l, wc, wn, true)
  {
    forall w: nat | wc <= w < wn
      ensures Blocked(t, places, f, l, l, w, false) <==> t[f][Index(l, wc)].present
      ensures !t[f][Index(l, wc)].present ==> Translate(t, f, l, w).None?
    {
      LeafPageBlocked(t, places, f, l, wc, wn, p, w);
    }
    assert Blocked(t, places, f, l, l, wc, false) ==> AnyBlocked(t, places, f, l, l, wc, wn, false);
  }

  lemma LeafPageBlocked(t: Tables, places: Places, f: nat, l: nat, wc: nat, wn: nat, p: nat, w: nat)
    requires Linked(t, places) && f in t && places[f].level == l && 1 <= l <= 3 && WholeSlot(l, wc, wn, p)
    requires wc <= w < wn <= Span(5) && Slot(l + 1, wc) == places[f].slot
    ensures Blocked(t, places, f, l, l, w, false) <==> t[f][Index(l, wc)].present
    ensures !t[f][Index(l, wc)].present ==> Translate(t, f, l, w).None?
  {
    hide Slot, Span, Offset;
    LeafFrame(l, wc, wn, p, w);
    LeafFrame(l, wc, wn, p, wn - 1);
    if l > 1 {
      InOneEntry(t, places, f, wc, wn);
      SplitEntry(t, places, f, wc, wn, w);
    }
  }

  lemma InOneEntry(t: Tables, places: Places, f: nat, ws: nat, we: nat)
    requires Linked(t, places) && f in t && 2 <= places[f].level <= 4
    requires ws < we <= Span(5) && Slot(places[f].level + 1, ws) == places[f].slot
    requires Slot(places[f].level, we - 1) == Slot(places[f].level, ws)
    ensures InEntry(places[f], ws, we)
  {
    assert PlaceOk(f, places[f]);
  }

  /** What keeps an entry from being opened keeps its pages from being mapped. */
  lemma NotOpened(t: Tables, places: Places, f: nat, l: nat, lowest: nat, wc: nat, wn: nat, r: Outcome)
    requires 2 <= l <= 4 && lowest < l && wc < wn && f in places
    requires r.OutOfFrames? ==> Short(places, places[f], l - 1, wc, wn)
    requires r.WalksIntoFrame? ==> Translate(t, f, l, wc).Some? && Translate(t, f, l, wc).value.level == l
    ensures r.OutOfFrames? ==> Short(places, places[f], lowest, wc, wn)
    ensures r.WalksIntoFrame? ==> AnyBlocked(t, places, f, l, lowest, wc, wn, true)
  {
    if r.OutOfFrames? {
      ShortWider(places, places[f], l - 1, wc, wn, lowest, wc, wn);
    }
    assert r.WalksIntoFrame? ==> Blocked(t, places, f, l, lowest, wc, true);
  }

  /** The table below an opened entry. */
  lemma OpenedBelow(t0: Tables, t1: Tables, places0: Places, places1: Places,
                    f: nat, l: nat, c: nat, wc: nat, wn: nat, user: bool)
    requires Linked(t0, places0) && Linked(t1, places1) && f in t0 && places0[f].level == l && 2 <= l <= 4
    requires Slot(l + 1, wc) == places0[f].slot && Opens(t0, t1, places0, places1, f, l, c, wc, wn, user)
    ensures c in t1 && c in places1 && f in places0 && f in places1 && places1[f] == places0[f] && Below(places1, f, Index(l, wc), c)
    ensures places1[c].level == l - 1 && places1[c].slot == Slot(l, wc)
  {
    ChildSlot(places1, f, l, c, wc);
  }

  /** What the table below an opened entry needs and lacks, the table itself does. */
  lemma EntryNeeds(t0: Tables, t1: Tables, places0: Places, places1: Places, places2: Places,
                   f: nat, l: nat, c: nat, lowest: nat, wc: nat, wn: nat, user: bool)
    requires Linked(t0, places0) && Linked(t1, places1) && f in t0 && places0[f].level == l && 2 <= l <= 4
    requires wc < wn <= Span(5) && Slot(l + 1, wc) == places0[f].slot && Slot(l, wn - 1) == Slot(l, wc) && lowest < l
    requires Opens(t0, t1, places0, places1, f, l, c, wc, wn, user) && Adds(places0, places1, places0[f], lowest, wc, wn)
    requires c in places1 && Adds(places1, places2, places1[c], lowest, wc, wn)
    ensures Adds(places0, places2, places0[f], lowest, wc, wn)
    ensures Short(places2, places1[c], lowest, wc, wn) ==> Short(places2, places0[f], lowest, wc, wn)
  {
    hide Linked, Slot, Span, Adds, Short, Needed, Opens;
    OpenedBelow(t0, t1, places0, places1, f, l, c, wc, wn, user);
    InOneEntry(t0, places0, f, wc, wn);
    AddsBelow(places1, places2, places0[f], lowest, wc, wn);
    AddsMore(places0, places1, places2, places0[f], lowest, wc, wn);
    if Short(places2, places1[c], lowest, wc, wn) {
      ShortBelow(places2, places0[f], lowest, wc, wn);
    }
  }

  /** Through an opened entry, pages are blocked before exactly if they are in the table below. */
  lemma BlockedThrough(t0: Tables, t1: Tables, places0: Places, places1: Places,
                       f: nat, l: nat, c: nat, lowest: nat, wc: nat, wn: nat, user: bool, large: bool)
    requires Linked(t0, places0) && Linked(t1, places1) && f in t0 && places0[f].level == l && 2 <= l <= 4
    requires wc < wn <= Span(5) && Slot(l + 1, wc) == places0[f].slot && Slot(l, wn - 1) == Slot(l, wc) && lowest < l
    requires Opens(t0, t1, places0, places1, f, l, c, wc, wn, user) && Adds(places0, places1, places0[f], lowest, wc, wn)
    ensures AnyBlocked(t1, places1, c, l - 1, lowest, wc, wn, large) <==> AnyBlocked(t0, places0, f, l, lowest, wc, wn, large)
  {
    hide Linked, Slot, Span, Adds, Opens, Split, Translate, AnyBlocked;
    OpenedBelow(t0, t1, places0, places1, f, l, c, wc, wn, user);
    InOneEntry(t0, places0, f, wc, wn);
    forall w: nat | wc <= w < wn
      ensures Blocked(t1, places1, c, l - 1, lowest, w, large) <==> Blocked(t0, places0, f, l, lowest, w, large)
    {
      ThroughOpened(t0, t1, places0, places1, f, l, c, wc, wn, user, w);
      SameSplit(places1, places0[f], lowest, wc, wn, w);
      AddsNoSplit(places0, places1, places0[f], lowest, wc, wn, places0[f], w);
    }
    SameBlocked(t0, t1, places0, places1, f, l, c, l - 1, lowest, wc, wn, large);
  }

  lemma ChunkNeeds(places0: Places, places1: Places, places2: Places, p: Place, lowest: nat, ws: nat, wc: nat, wn: nat, we: nat)
    requires ws <= wc < wn <= we
    requires Adds(places0, places1, p, lowest, ws, wc) && Adds(places1, places2, p, lowest, wc, wn)
    ensures Adds(places0, places2, p, lowest, ws, wn) && Adds(places0, places2, p, lowest, ws, we)
    ensures Short(places2, p, lowest, wc, wn) ==> Short(places2, p, lowest, ws, we)
  {
    hide Adds, Short;
    AddsWider(places0, places1, p, lowest, ws, wc, lowest, ws, wn);
    AddsWider(places1, places2, p, lowest, wc, wn, lowest, ws, wn);
    AddsMore(places0, places1, places2, p, lowest, ws, wn);
    AddsWider(places0, places2, p, lowest, ws, wn, lowest, ws, we);
    if Short(places2, p, lowest, wc, wn) {
      ShortWider(places2, p, lowest, wc, wn, lowest, ws, we);
    }
  }

  lemma SameTables(t: Tables, places: Places, f: nat)
    requires Linked(t, places)
    ensures f in t <==> f in places
  {
  }

  lemma MappedTable(t0: Tables, t1: Tables, places0: Places, places1: Places,
                    f: nat, l: nat, ws: nat, wc: nat, p: nat, user: bool, lowest: nat)
    requires Linked(t0, places0) && Linked(t1, places1) && 1 <= l <= 4 && f in t0
    requires Mapped(t0, t1, places0, places1, f, l, ws, wc, p, user, lowest)
    ensures f in t1 && f in places0 && f in places1 && places1[f] == places0[f]
  {
  }

  function ChunkEnd(l: nat, wc: nat, we: nat): nat
    requires 1 <= l
  {
    if SlotEnd(l, wc) < we then SlotEnd(l, wc) else we
  }

  lemma MappedNothing(t: Tables, places: Places, f: nat, l: nat, ws: nat, p: nat, user: bool, lowest: nat)
    requires Linked(t, places) && f in t && 1 <= l <= 4
    ensures Mapped(t, t, places, places, f, l, ws, ws, p, user, lowest)
  {
  }

  /** A page the loop has yet to reach is blocked now exactly if it was blocked before the loop. */
  lemma StillBlocked(t0: Tables, t1: Tables, places0: Places, places1: Places,
                     f: nat, l: nat, ws: nat, wc: nat, wn: nat, p: nat, user: bool, lowest: nat, large: bool)
    requires Linked(t0, places0) && Linked(t1, places1) && f in t0 && 1 <= l <= 4 && ws <= wc < wn <= Span(5)
    requires Slot(l + 1, wc) == places0[f].slot == Slot(l + 1, wn - 1)
    requires Mapped(t0, t1, places0, places1, f, l, ws, wc, p, user, lowest)
    requires Adds(places0, places1, places0[f], lowest, ws, wc)
    ensures AnyBlocked(t1, places1, f, l, lowest, wc, wn, large) <==> AnyBlocked(t0, places0, f, l, lowest, wc, wn, large)
  {
    hide Linked, Slot, Span, Adds, Split, Translate, Frames, Grows, AnyBlocked;
    MappedTable(t0, t1, places0, places1, f, l, ws, wc, p, user, lowest);
    forall w: nat | wc <= w < wn
      ensures Blocked(t1, places1, f, l, lowest, w, large) <==> Blocked(t0, places0, f, l, lowest, w, large)
    {
      SlotMonotone(l + 1, wc, w);
      SlotMonotone(l + 1, w, wn - 1);
      AddsNoSplit(places0, places1, places0[f], lowest, ws, wc, places0[f], w);
      assert Kept(Translate(t0, f, l, w), Translate(t1, f, l, w), user);
    }
    SameBlocked(t0, t1, places0, places1, f, l, f, l, lowest, wc, wn, large);
  }

  lemma SameBlocked(t0: Tables, t1: Tables, places0: Places, places1: Places,
                    f: nat, l: nat, c: nat, m: nat, lowest: nat, ws: nat, we: nat, large: bool)
    requires 1 <= l <= 4 && 1 <= m <= 4
    requires forall w: nat :: ws <= w < we ==> (Blocked(t1, places1, c, m, lowest, w, large) <==> Blocked(t0, places0, f, l, lowest, w, large))
    ensures AnyBlocked(t1, places1, c, m, lowest, ws, we, large) <==> AnyBlocked(t0, places0, f, l, lowest, ws, we, large)
  {
    hide Blocked;
    if AnyBlocked(t1, places1, c, m, lowest, ws, we, large) {
      var w: nat :| ws <= w < we && Blocked(t1, places1, c, m, lowest, w, large);
      assert Blocked(t0, places0, f, l, lowest, w, large);
    }
    if AnyBlocked(t0, places0, f, l, lowest, ws, we, large) {
      var w: nat :| ws <= w < we && Blocked(t0, places0, f, l, lowest, w, large);
      assert Blocked(t1, places1, c, m, lowest, w, large);
    }
  }

  lemma BlockedEither(t: Tables, places: Places, f: nat, l: nat, lowest: nat, ws: nat, wc: nat, we: nat, large: bool)
    requires 1 <= l <= 4 && ws <= wc <= we
    ensures AnyBlocked(t, places, f, l, lowest, ws, we, large) <==>
              AnyBlocked(t, places, f, l, lowest, ws, wc, large) || AnyBlocked(t, places, f, l, lowest, wc, we, large)
  {
    hide Blocked;
    if AnyBlocked(t, places, f, l, lowest, ws, wc, large) {
      var w: nat :| ws <= w < wc && Blocked(t, places, f, l, lowest, w, large);
    }
    if AnyBlocked(t, places, f, l, lowest, wc, we, large) {
      var w: nat :| wc <= w < we && Blocked(t, places, f, l, lowest, w, large);
    }
  }

  /** The mapping loop's variables before the chunk that starts at page `wc`. */
  ghost predicate LoopAt(l: nat, lowest: nat, ws: nat, wc: nat, p: nat, phys: nat, index: nat)
    requires 1 <= l <= 4
  {
    && 1 <= lowest <= l && ws <= wc
    && index == Index(l, wc)
    && Offset(lowest, wc) == 0 && Offset(lowest, phys) == 0
    && phys < ADDRESS_PAGES && phys == PhysAt(l, ws, p, wc)
    && (wc == ws || (Offset(l, wc) == 0 && Slot(l, ws) != Slot(l, wc)))
  }

  /** The next chunk lies in one entry and one table. */
  lemma ChunkOk(l: nat, lowest: nat, ws: nat, we: nat, wc: nat)
    requires 1 <= lowest <= l && ws <= wc < we
    requires Slot(l + 1, ws) == Slot(l + 1, we - 1) && Offset(lowest, we) == 0
    ensures var wn := ChunkEnd(l, wc, we);
            && wc < wn <= we && Slot(l, wn - 1) == Slot(l, wc) && Offset(lowest, wn) == 0
            && Slot(l + 1, wc) == Slot(l + 1, ws) == Slot(l + 1, wn - 1)
  {
    var wn := ChunkEnd(l, wc, we);
    SlotEndAfter(l, wc);
    AlignedNests(lowest, l, SlotEnd(l, wc));
    SlotMonotone(l + 1, ws, wc);
    SlotMonotone(l + 1, wc, wn - 1);
    SlotMonotone(l + 1, wn - 1, we - 1);
    SlotMonotone(l, wc, wn - 1);
    SlotMonotone(l, wn - 1, SlotEnd(l, wc) - 1);
  }

  /** The loop's variables follow it to the next chunk. */
  lemma LoopNext(l: nat, lowest: nat, ws: nat, we: nat, wc: nat, p: nat, phys: nat, index: nat)
    requires 1 <= l <= 4 && SlotEnd(l, wc) < we <= Span(5) && p < ADDRESS_PAGES
    requires LoopAt(l, lowest, ws, wc, p, phys, index)
    requires Slot(l + 1, ws) == Slot(l + 1, we - 1)
    ensures LoopAt(l, lowest, ws, SlotEnd(l, wc), p, AlignDown(l, Wrap(phys + Span(l))), index + 1)
  {
    var wn := SlotEnd(l, wc);
    SlotEndAfter(l, wc);
    AlignedNests(lowest, l, wn);
    PhysStep(l, ws, p, wc, phys);
    PhysAligned(l, ws, p, wn);
    AlignedNests(lowest, l, PhysAt(l, ws, p, wn));
    SlotMonotone(l, ws, wc);
    SlotMonotone(l + 1, ws, wc);
    SlotMonotone(l + 1, wc, wn);
    SlotMonotone(l + 1, wn, we - 1);
  }

  lemma ChunkIsSlot(l: nat, wc: nat, wn: nat)
    requires 1 <= l && wc < wn && Slot(l, wn - 1) == Slot(l, wc) && Offset(l, wc) == 0 && Offset(l, wn) == 0
    ensures wn == wc + Span(l)
  {
    SameSlot(l, wc, wn - 1);
    NextSlot(l, wc);
    if wn < wc + Span(l) {
      SlotFrom(l, wc, wn - wc);
    }
  }
}
