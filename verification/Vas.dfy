/** Address spaces of processes: which objects are mapped where. */
module Vas {
  import opened Basics
  import opened Levels
  import opened PageTables
  import opened PageMapping
  import opened PageNeeds
  import opened Translation
  import opened Vm
  import opened VmClone
  import opened Paging
  import opened PagingTheorems
  import opened Vmo
  import opened VasPages
  import opened VasTables
  import opened AvlTree
  import opened AvlOrder
  import AvlLinks
  import AvlShape
  import Pmm

  /** A stretch of addresses, as a mapping occupies it. It may end before it starts: ends are computed
      in 64-bit arithmetic. */
  datatype Extent = Extent(start: nat, end: nat, readOnly: bool)

  /** The order of the tree of mappings. */
  predicate Precedes(a: Extent, b: Extent) {
    a.end <= b.start
  }

  predicate Meets(a: Extent, b: Extent) {
    a.start < b.end && b.start < a.end
  }

  /** The order is transitive at exactly those stretches that do not end before they start. */
  lemma BridgesIff(x: Extent)
    ensures Bridges(Precedes, x) <==> x.start <= x.end
  {
    if x.end < x.start {
      var a, c := Extent(0, x.start, false), Extent(x.end, x.start, false);
      assert Precedes(a, x) && Precedes(x, c) && !Precedes(a, c);
    }
  }

  /** A stretch of whole pages that does not end before it starts. */
  predicate Straight(x: Extent) {
    x.start <= x.end < ADDRESS_BYTES && x.start % PAGE_BYTES == 0 && x.end % PAGE_BYTES == 0
  }

  /** The stretch that an object at an address is entered with. */
  function Entered(base: nat, length: nat, readOnly: bool): Extent {
    Extent(base, (base + length) % ADDRESS_BYTES, readOnly)
  }

  lemma EnteredEnd(base: nat, length: nat, readOnly: bool)
    requires base < ADDRESS_BYTES && length < ADDRESS_BYTES
    ensures var end := (base + length) % ADDRESS_BYTES;
            && Entered(base, length, readOnly) == Extent(base, end, readOnly)
            && end == (if base + length < ADDRESS_BYTES then base + length else base + length - ADDRESS_BYTES)
            && Distance(base, end) == length
            && (base <= end <==> base + length < ADDRESS_BYTES)
  {
  }

  /** A stretch whose end wraps precedes itself and meets nothing, itself included, that does not wrap
      as well or span it; and searches of a tree that holds it go astray. */
  lemma WrappedStretch(base: nat, length: nat)
    requires base < ADDRESS_BYTES <= base + length && length < ADDRESS_BYTES
    ensures var x := Entered(base, length, false);
            && Precedes(x, x) && !Meets(x, x) && !Bridges(Precedes, x)
            && forall y: Extent :: Meets(x, y) ==> y.start < x.end < x.start < y.end
  {
    EnteredEnd(base, length, false);
    BridgesIff(Entered(base, length, false));
  }

  /** Two pages from the last page on: the stretch ends 4 KiB above address 0. */
  lemma WrappedInput()
    ensures Entered(0xffff_ffff_ffff_f000, 0x2000, false) == Extent(0xffff_ffff_ffff_f000, 0x1000, false)
  {
  }

  /** Page `v` is in the stretch, and page `w` of the tables stands for it. */
  ghost predicate Occupies(x: Extent, v: nat, w: nat) {
    x.start <= v * PAGE_BYTES < x.end && Offset(5, v) == w
  }

  /** A mapping of one page at 2^48 stands for page 0, though no mapping meets address 0. */
  lemma AliasedInput()
    ensures var x := Extent(0x1_0000_0000_0000, 0x1_0000_0000_1000, false);
            Occupies(x, 0x10_0000_0000, 0) && !Meets(Extent(0, 0x1000, false), x)
  {
    SpanValues();
    SlotOfMultiple(5, 1, 0);
  }

  /** Some mapping occupies a page that page `w` of the tables stands for. */
  ghost predicate Covered(reprs: set<AvlLinks.Element<Extent>>, w: nat) {
    exists e, v: nat :: e in reprs && Occupies(e.key, v, w)
  }

  ghost predicate Agree(reprs: set<AvlLinks.Element<Extent>>, t: Tables, r: nat) {
    forall w: nat :: w < LOWER_PAGES ==> (Translate(t, r, 4, w).Some? <==> Covered(reprs, w))
  }

  /** Where all mappings are below the non-canonical addresses or above them, it is addresses
      themselves that agree. */
  lemma CanonicalCovered(reprs: set<AvlLinks.Element<Extent>>, w: nat)
    requires w < LOWER_PAGES
    requires forall e :: e in reprs ==> e.key.end <= LOWER_BYTES || (ADDRESS_BYTES - LOWER_BYTES <= e.key.start && e.key.end <= ADDRESS_BYTES)
    ensures Covered(reprs, w) <==> exists e :: e in reprs && e.key.start <= w * PAGE_BYTES < e.key.end
  {
    LowerRange(w, 0);
    if Covered(reprs, w) {
      var e, v: nat :| e in reprs && Occupies(e.key, v, w);
      CanonicalPage(v);
    }
    if exists e :: e in reprs && e.key.start <= w * PAGE_BYTES < e.key.end {
      var e :| e in reprs && e.key.start <= w * PAGE_BYTES < e.key.end;
      assert Occupies(e.key, w, w);
    }
  }

  lemma CanonicalPage(v: nat)
    requires v < LOWER_PAGES || ADDRESS_PAGES - LOWER_PAGES <= v < ADDRESS_PAGES
    ensures Offset(5, v) < LOWER_PAGES <==> v < LOWER_PAGES
    ensures v < LOWER_PAGES ==> Offset(5, v) == v
  {
    SpanValues();
    if v < LOWER_PAGES {
      LowerRange(v, 0);
    } else {
      var r := v - 0xffff * 0x10_0000_0000;
      SlotOfMultiple(5, 0xffff, r);
    }
  }

  /** Page `v` is mapped. */
  ghost predicate Taken(t: Tables, r: nat, v: nat) {
    Translate(t, r, 4, Offset(5, v)).Some?
  }

  /** A page of the stretch of pages is mapped already, or will be by the time its turn comes. */
  ghost predicate InTheWay(t: Tables, r: nat, first: nat, pages: nat) {
    pages > Span(5) || exists v: nat :: first <= v < first + pages && Taken(t, r, v)
  }

  /** Something is in the way although no mapping meets the stretch: a page of the half that all address
      spaces share, or one that two addresses of different windows of 48 bits stand for. */
  ghost predicate Unforeseen(reprs: set<AvlLinks.Element<Extent>>, t: Tables, r: nat, first: nat, pages: nat) {
    || pages > Span(5)
    || exists v: nat :: first <= v < first + pages && Taken(t, r, v)
         && (v >= LOWER_PAGES || exists e, u: nat :: e in reprs && u >= Span(5) && Occupies(e.key, u, v))
  }

  /** The result of mapping an object. `Wraps` means that a piece reaches the top of the address space:
      it is not mapped, and those after it would go to the bottom. The others but the first are panics,
      or the walk leaves the tables. */
  datatype MapResult = Success | Misaligned | Occupied | Uncommitted | Failed(why: Outcome) | Wraps

  class Vas {
    const spaces: AddressSpaces
    const root: nat
    const mappings: AvlTree<Extent>

    ghost predicate Valid()
      reads this, spaces, spaces.pmm, mappings, mappings.Repr
    {
      spaces.Valid() && IsRoot(spaces.places, root) && Tidy()
    }

    /** The pages of the lower half that translate are exactly those that mappings occupy. */
    ghost predicate Exact()
      reads this, spaces, mappings
    {
      Agree(mappings.Repr, spaces.tables, root)
    }

    constructor (spaces: AddressSpaces, root: nat)
      requires spaces.Valid() && IsRoot(spaces.places, root)
      requires forall w: nat :: w < LOWER_PAGES ==> Translate(spaces.tables, root, 4, w).None?
      ensures Valid() && Exact() && mappings.Repr == {} && fresh(mappings)
      ensures this.spaces == spaces && this.root == root
    {
      this.spaces, this.root := spaces, root;
      mappings := new AvlTree(Precedes);
    }

    /** Since then, the frames of new tables were taken, and no others, these tables lead to pages of the
        stretch, and user bits were set only for user pages. */
    ghost predicate Charged(t0: Tables, places0: Places, free0: Pmm.Stacks, held0: set<Pmm.Frame>, first: nat, pages: nat, user: bool)
      reads spaces, spaces.pmm
    {
      && spaces.Valid() && IsRoot(spaces.places, root) && spaces.TookFrom(free0, held0, t0)
      && Supplies(places0, spaces.places, root, first, pages) && Discreet(t0, spaces.tables, user)
    }

    /** There is no frame for a table that a page of the stretch needs. */
    ghost predicate Starved(first: nat, pages: nat)
      reads spaces, spaces.pmm
    {
      Pmm.Exhausted(spaces.pmm.free, 0) && Lacking(spaces.places, root, first, pages)
    }

    /** One piece of an object. */
    method MapPiece(vmo: Vmo, base: nat, offset: nat, frame: nat, user: bool, ghost i: nat, ghost t0: Tables) returns (r: Outcome)
      requires spaces.Valid() && IsRoot(spaces.places, root) && vmo.layer < Pmm.LAYERS && base % Unit(vmo.layer) == 0
      requires i < |vmo.elements| && Backed(vmo.layer, vmo.elements, i)
      requires base + i * Unit(vmo.layer) + Unit(vmo.layer) < ADDRESS_BYTES
      requires vmo.elements[i] == Element(offset, Some(frame)) && frame < FRAME_NUMBERS && frame % Pmm.Size(vmo.layer) == 0
      requires MapsObject(t0, spaces.tables, root, vmo.layer, vmo.elements, base / PAGE_BYTES, i * Pmm.Size(vmo.layer), user)
      modifies spaces, spaces.pmm
      ensures var v, S := base / PAGE_BYTES + i * Pmm.Size(vmo.layer), Pmm.Size(vmo.layer);
              && Charged(old(spaces.tables), old(spaces.places), old(spaces.pmm.free), old(spaces.pmm.held), v, S, user)
              && (r.OutOfFrames? ==> Starved(v, S))
      ensures r.Done? ==>
                && Elsewhere(old(spaces.tables), spaces.tables, old(spaces.places), spaces.places, root)
                && MapsObject(t0, spaces.tables, root, vmo.layer, vmo.elements, base / PAGE_BYTES,
                              i * Pmm.Size(vmo.layer) + Pmm.Size(vmo.layer), user)
      ensures !r.RunsOffTable?
      ensures r.Remapped? || r.WalksIntoFrame? ==>
                var ws := Offset(5, base / PAGE_BYTES + i * Pmm.Size(vmo.layer));
                exists w: nat :: ws <= w < ws + Pmm.Size(vmo.layer) && w < Span(5) && Translate(old(spaces.tables), root, 4, w).Some?
    {
      hide Mapped, Linked, Rooted, MapsObject, Translate, Elsewhere, PageCount, InReach, Offset, Span, Pmm.Separated, TablesTook,
           Supplies, Lacking, RangeAdds, RangeShort, Discreet;
      var start := base + offset;
      ghost var first, S := base / PAGE_BYTES, Pmm.Size(vmo.layer);
      ghost var ws := Offset(5, first + i * S);
      PieceReach(vmo.layer, base, i);
      ghost var t1, places1 := spaces.tables, spaces.places;
      r := MapPhysical(spaces, root, start, start + Unit(vmo.layer), frame * PAGE_BYTES, user);
      RangeSupplies(places1, spaces.places, root, first + i * S, S);
      SuppliesRoot(places1, spaces.places, root, first + i * S, S);
      if r.OutOfFrames? {
        RangeLacking(spaces.places, root, first + i * S, S);
      }
      if r.Done? {
        MapsPiece(t0, t1, spaces.tables, places1, spaces.places, root, vmo.layer, vmo.elements, first, i, user);
        MappedElsewhere(t1, spaces.tables, places1, spaces.places, root, ws, ws + S, frame, user);
      }
    }

    /** The first `n` pieces of an object are mapped. */
    ghost predicate Progress(vmo: Vmo, base: nat, n: nat, user: bool,
                             t0: Tables, places0: Places, free0: Pmm.Stacks, held0: set<Pmm.Frame>)
      requires vmo.layer < Pmm.LAYERS
      reads vmo, spaces, spaces.pmm
    {
      && Charged(t0, places0, free0, held0, base / PAGE_BYTES, |vmo.elements| * Pmm.Size(vmo.layer), user)
      && Elsewhere(t0, spaces.tables, places0, spaces.places, root)
      && MapsObject(t0, spaces.tables, root, vmo.layer, vmo.elements, base / PAGE_BYTES, n * Pmm.Size(vmo.layer), user)
    }

    /** One round of the loop over the pieces. */
    method MapNext(vmo: Vmo, base: nat, node: Node, user: bool,
                   ghost i: nat, ghost t0: Tables, ghost places0: Places, ghost free0: Pmm.Stacks, ghost held0: set<Pmm.Frame>)
      returns (r: MapResult)
      requires vmo.Valid() && vmo.base.None? && base % Unit(vmo.layer) == 0 && Placeable(vmo) && vmo.IsPiece(node, i)
      requires IsRoot(places0, root) && Progress(vmo, base, i, user, t0, places0, free0, held0) && vmo.Frames() <= held0
      modifies spaces, spaces.pmm
      ensures r.Success? || r.Uncommitted? || r.Wraps? || (r.Failed? && !r.why.RunsOffTable? && !r.why.Done?)
      ensures var first, pages := base / PAGE_BYTES, |vmo.elements| * Pmm.Size(vmo.layer);
              && Charged(t0, places0, free0, held0, first, pages, user)
              && (r == Failed(OutOfFrames) ==> Starved(first, pages))
      ensures r.Uncommitted? <==> !vmo.Committed()
      ensures r.Wraps? ==> base + i * Unit(vmo.layer) + Unit(vmo.layer) >= ADDRESS_BYTES
      ensures r.Success? ==>
                && base + i * Unit(vmo.layer) + Unit(vmo.layer) < ADDRESS_BYTES
                && Progress(vmo, base, i + 1, user, t0, places0, free0, held0)
      ensures r == Failed(Remapped) || r == Failed(WalksIntoFrame) ==>
                InTheWay(t0, root, base / PAGE_BYTES, |vmo.elements| * Pmm.Size(vmo.layer))
    {
      hide Mapped, Linked, MapsObject, Rooted, Elsewhere, InTheWay, Offset, Span, Slot, Translate, Unit, Pmm.Size, Pmm.Separated, Placeable,
           Pmm.FreePage, Vmo.IsPiece, Vmo.Stored, TablesTook, Supplies, Lacking, Discreet;
      ghost var first, S := base / PAGE_BYTES, Pmm.Size(vmo.layer);
      vmo.PieceHere(node, i);
      assert vmo.Committed() ==> Backed(vmo.layer, vmo.elements, i);
      if node !in vmo.backing {
        return Uncommitted;
      }
      CommittedHere(vmo, i);
      if base + node.key + Unit(vmo.layer) >= ADDRESS_BYTES {
        return Wraps;
      }
      PieceRange(vmo.layer, base, 0);
      TablesTookPages(free0, held0, t0, spaces.pmm.free, spaces.pmm.held, spaces.tables);
      PieceAligned(spaces.pmm.free, spaces.pmm.held, vmo, i);
      ghost var t1, places1, free1, held1 := spaces.tables, spaces.places, spaces.pmm.free, spaces.pmm.held;
      var outcome := MapPiece(vmo, base, node.key, vmo.backing[node], user, i, t0);
      PieceCharged(t0, places0, free0, held0, t1, places1, free1, held1, first, i, S, |vmo.elements|, user);
      if outcome.Done? {
        ElsewhereTransitive(t0, t1, spaces.tables, places0, places1, spaces.places, root);
        assert (i + 1) * S == i * S + S;
        return Success;
      }
      if outcome.Remapped? || outcome.WalksIntoFrame? {
        StillThere(t0, t1, root, vmo.layer, vmo.elements, first, i, user);
      }
      return Failed(outcome);
    }

    lemma PieceCharged(t0: Tables, places0: Places, free0: Pmm.Stacks, held0: set<Pmm.Frame>,
                       t1: Tables, places1: Places, free1: Pmm.Stacks, held1: set<Pmm.Frame>,
                       first: nat, i: nat, S: nat, n: nat, user: bool)
      requires i < n && IsRoot(places0, root) && Supplies(places0, places1, root, first, n * S)
      requires TablesTook(free0, held0, t0, free1, held1, t1) && Discreet(t0, t1, user)
      requires Charged(t1, places1, free1, held1, first + i * S, S, user)
      ensures Charged(t0, places0, free0, held0, first, n * S, user)
      ensures Starved(first + i * S, S) ==> Starved(first, n * S)
    {
      hide TablesTook, Supplies, Lacking, Discreet;
      DiscreetTwice(t0, t1, spaces.tables, user);
      Levels.ProductMonotone(i + 1, n, S);
      assert (i + 1) * S == i * S + S;
      SuppliesWider(places1, spaces.places, root, first + i * S, S, first, n * S);
      SuppliesMore(places0, places1, spaces.places, root, first, n * S);
      TablesTookBoth(free0, held0, t0, free1, held1, t1, spaces.pmm.free, spaces.pmm.held, spaces.tables);
      if Starved(first + i * S, S) {
        LackingWider(spaces.places, root, first + i * S, S, first, n * S);
      }
    }

    /** All pieces of a sparse object, one after the other. */
    method MapPieces(vmo: Vmo, base: nat, user: bool) returns (r: MapResult)
      requires spaces.Valid() && IsRoot(spaces.places, root)
      requires vmo.Valid() && vmo.Stored() && vmo.base.None? && base % Unit(vmo.layer) == 0 && Placeable(vmo)
      requires vmo.Frames() <= spaces.pmm.held
      modifies spaces, spaces.pmm
      ensures r.Uncommitted? <==> !vmo.Committed()
      ensures !r.Misaligned? && !r.Occupied? && r != Failed(RunsOffTable) && r != Failed(Done)
      ensures var first, pages := base / PAGE_BYTES, |vmo.elements| * Pmm.Size(vmo.layer);
              && Charged(old(spaces.tables), old(spaces.places), old(spaces.pmm.free), old(spaces.pmm.held), first, pages, user)
              && (r == Failed(OutOfFrames) ==> Starved(first, pages))
      ensures if base + |vmo.elements| * Unit(vmo.layer) < ADDRESS_BYTES then !r.Wraps? else !r.Success?
      ensures r.Success? ==>
                && Elsewhere(old(spaces.tables), spaces.tables, old(spaces.places), spaces.places, root)
                && MapsObject(old(spaces.tables), spaces.tables, root, vmo.layer, vmo.elements, base / PAGE_BYTES,
                              |vmo.elements| * Pmm.Size(vmo.layer), user)
      ensures r == Failed(Remapped) || r == Failed(WalksIntoFrame) ==>
                InTheWay(old(spaces.tables), root, base / PAGE_BYTES, |vmo.elements| * Pmm.Size(vmo.layer))
    {
      hide Mapped, Linked, MapsObject, Rooted, Elsewhere, InTheWay, Offset, Span, Slot, Translate, Unit, Pmm.Size, Pmm.Separated, Placeable,
           Pmm.FreePage, Vmo.IsPiece, Vmo.Stored, TablesTook, Supplies, Lacking, Starved, Discreet;
      ghost var t0, places0, free0, held0 := spaces.tables, spaces.places, spaces.pmm.free, spaces.pmm.held;
      TablesTookNone(free0, held0, t0, t0);
      DiscreetSame(t0, user);
      SuppliesNothing(places0, root, base / PAGE_BYTES, |vmo.elements| * Pmm.Size(vmo.layer));
      NothingElsewhere(t0, places0, root);
      MapsNone(t0, root, vmo.layer, vmo.elements, base / PAGE_BYTES, user);
      var node := vmo.FirstPiece();
      ghost var i: nat := 0;
      while node != null
        invariant i <= |vmo.elements| && if i < |vmo.elements| then node != null && vmo.IsPiece(node, i) else node == null
        invariant Progress(vmo, base, i, user, t0, places0, free0, held0)
        invariant i > 0 ==> vmo.Committed() && base + i * Unit(vmo.layer) < ADDRESS_BYTES
        decreases |vmo.elements| - i
      {
        r := MapNext(vmo, base, node, user, i, t0, places0, free0, held0);
        LaterPieces(vmo.layer, i, |vmo.elements|);
        if !r.Success? {
          return;
        }
        NextPiece(vmo.layer, i);
        node := vmo.NextPiece(node, i);
        i := i + 1;
      }
      return Success;
    }

    /** A physical object, as one stretch. */
    method MapStretch(vmo: Vmo, base: nat, user: bool) returns (r: MapResult)
      requires spaces.Valid() && IsRoot(spaces.places, root)
      requires vmo.Valid() && vmo.base.Some? && base % PAGE_BYTES == 0 && base < ADDRESS_BYTES
      modifies spaces, spaces.pmm
      ensures !r.Misaligned? && !r.Occupied? && !r.Uncommitted? && r != Failed(Done)
      ensures Charged(old(spaces.tables), old(spaces.places), old(spaces.pmm.free), old(spaces.pmm.held), base / PAGE_BYTES, Pages(vmo), user)
      ensures r == Failed(OutOfFrames) ==> Starved(base / PAGE_BYTES, Pages(vmo))
      ensures r.Wraps? <==> base + vmo.length >= ADDRESS_BYTES
      ensures r.Wraps? ==> unchanged(spaces) && unchanged(spaces.pmm)
      ensures r.Success? ==>
                && Shown(old(spaces.tables), spaces.tables, old(spaces.places), spaces.places, vmo, base, user)
                && Fills(old(spaces.tables), spaces.tables, root, base / PAGE_BYTES, Pages(vmo))
                && Elsewhere(old(spaces.tables), spaces.tables, old(spaces.places), spaces.places, root)
                && Steady(old(spaces.tables), spaces.tables, root)
      ensures r == Failed(RunsOffTable) ==> !InReach(base / PAGE_BYTES, Pages(vmo))
      ensures r.Success? ==> InReach(base / PAGE_BYTES, Pages(vmo))
      ensures r == Failed(Remapped) || r == Failed(WalksIntoFrame) ==>
                InTheWay(old(spaces.tables), root, base / PAGE_BYTES, Pages(vmo))
    {
      hide Mapped, Linked, Rooted, Fills, MapsObject, PageCount, Elsewhere, Steady, InTheWay, Offset, Span, Slot, Translate, InReach,
           TablesTook, Supplies, Lacking, RangeAdds, RangeShort, Discreet;
      ghost var t0, places0, first, pages := spaces.tables, spaces.places, base / PAGE_BYTES, Pages(vmo);
      StretchPages(vmo, base);
      var outcome := MapPhysical(spaces, root, base, (base + vmo.length) % ADDRESS_BYTES, vmo.base.value, user);
      RangeSupplies(places0, spaces.places, root, first, pages);
      SuppliesRoot(places0, spaces.places, root, first, pages);
      if outcome.OutOfFrames? {
        RangeLacking(spaces.places, root, first, pages);
      }
      if base + vmo.length >= ADDRESS_BYTES {
        // Taken to be empty.
        return Wraps;
      }
      if !outcome.Done? {
        if outcome.Remapped? || outcome.WalksIntoFrame? {
          ghost var w: nat :| Offset(5, first) <= w < Offset(5, first) + pages && w < Span(5) && Translate(t0, root, 4, w).Some?;
          PageInTheWay(t0, root, first, pages, w);
        }
        return Failed(outcome);
      }
      if vmo.length > 0 {
        ghost var ws, p := Offset(5, first), vmo.base.value / PAGE_BYTES;
        FlatFills(t0, spaces.tables, places0, spaces.places, root, first, pages, p, user);
        MappedElsewhere(t0, spaces.tables, places0, spaces.places, root, ws, ws + pages, p, user);
      } else {
        FillsNothing(t0, root, first);
        NothingElsewhere(t0, places0, root);
      }
      return Success;
    }

    /** All of an object: nothing for an empty physical one, a whole piece for an empty sparse one. */
    method MapObject(vmo: Vmo, base: nat, user: bool) returns (r: MapResult)
      requires spaces.Valid() && IsRoot(spaces.places, root)
      requires vmo.Valid() && vmo.Stored() && base % Unit(vmo.layer) == 0 && base < ADDRESS_BYTES && Placeable(vmo) && vmo.Frames() <= spaces.pmm.held
      modifies spaces, spaces.pmm
      ensures r.Uncommitted? <==> vmo.base.None? && !vmo.Committed()
      ensures !r.Misaligned? && !r.Occupied? && r != Failed(Done)
      ensures Charged(old(spaces.tables), old(spaces.places), old(spaces.pmm.free), old(spaces.pmm.held), base / PAGE_BYTES, Pages(vmo), user)
      ensures r == Failed(OutOfFrames) ==> Starved(base / PAGE_BYTES, Pages(vmo))
      ensures r.Wraps? && vmo.base.Some? ==> unchanged(spaces) && unchanged(spaces.pmm)
      ensures if base + Pages(vmo) * PAGE_BYTES < ADDRESS_BYTES then !r.Wraps? else !r.Success?
      ensures r.Success? ==>
                && Shown(old(spaces.tables), spaces.tables, old(spaces.places), spaces.places, vmo, base, user)
                && Fills(old(spaces.tables), spaces.tables, root, base / PAGE_BYTES, Pages(vmo))
                && Elsewhere(old(spaces.tables), spaces.tables, old(spaces.places), spaces.places, root)
                && Steady(old(spaces.tables), spaces.tables, root)
      ensures r == Failed(RunsOffTable) ==> vmo.base.Some? && !InReach(base / PAGE_BYTES, Pages(vmo))
      ensures r.Success? && vmo.base.Some? ==> InReach(base / PAGE_BYTES, Pages(vmo))
      ensures r == Failed(Remapped) || r == Failed(WalksIntoFrame) ==>
                InTheWay(old(spaces.tables), root, base / PAGE_BYTES, Pages(vmo))
    {
      hide Mapped, Linked, Rooted, Fills, MapsObject, Placeable, Elsewhere, Steady, InTheWay, InReach, Charged, Starved;
      ghost var t0 := spaces.tables;
      PageMultiple(vmo.layer, base);
      if vmo.base.Some? {
        PageMultiple(vmo.layer, vmo.length);
        r := MapStretch(vmo, base, user);
      } else {
        PieceBytes(vmo.layer, |vmo.elements|);
        r := MapPieces(vmo, base, user);
        if r.Success? {
          ObjectFills(t0, spaces.tables, root, vmo.layer, vmo.elements, base / PAGE_BYTES, Pages(vmo), user);
          ObjectSteady(t0, spaces.tables, root, vmo.layer, vmo.elements, base / PAGE_BYTES, Pages(vmo), user);
        }
      }
    }

    /** What each page of the object shows. */
    ghost predicate Shown(t0: Tables, t1: Tables, places0: Places, places1: Places, vmo: Vmo, base: nat, user: bool)
      requires Linked(t0, places0) && Linked(t1, places1) && IsRoot(places0, root) && vmo.Valid()
      reads vmo
    {
      if vmo.base.None? then
        MapsObject(t0, t1, root, vmo.layer, vmo.elements, base / PAGE_BYTES, Pages(vmo), user)
      else if vmo.length > 0 then
        var ws := Offset(5, base / PAGE_BYTES);
        Mapped(t0, t1, places0, places1, root, 4, ws, ws + Pages(vmo), vmo.base.value / PAGE_BYTES, user, 1)
      else
        t1 == t0
    }

    /** Mappings do not end before they start. */
    ghost predicate Tidy()
      reads mappings, mappings.Repr
    {
      mappings.Valid() && mappings.less == Precedes && forall e :: e in mappings.Repr ==> Straight(e.key)
    }

    /** Enters a range in the tree of mappings, unless another is in the way. One that ends before it
        starts is entered all the same, but then searches of the tree may go astray. */
    method Occupy(range: Extent) returns (occupied: bool, mapping: AvlLinks.Element<Extent>)
      requires Tidy()
      modifies mappings, mappings.Repr
      ensures occupied <==> exists e :: e in old(mappings.Repr) && Meets(range, e.key)
      ensures occupied ==> unchanged(mappings) && unchanged(old(mappings.Repr))
      ensures !occupied ==>
                && mappings.Repr == old(mappings.Repr) + {mapping} && mapping.key == range && fresh(mapping)
                && mappings.Arranged() && (Straight(range) ==> Tidy())
    {
      hide Bridges, AvlShape.Balanced, AvlTree.Arranged, AvlShape.InsertFix, AvlShape.Plug, Spliced;
      var it, _ := mappings.Find(range);
      mapping := new AvlLinks.Element<Extent>(range);
      if it != null {
        assert Meets(range, it.key);
        return true, mapping;
      }
      BridgesIff(range);
      assert forall e :: e in mappings.Repr ==> !Matches(Precedes, range, e.key);
      var _, inserted, _, _ := mappings.Insert(mapping);
      return false, mapping;
    }

    /** Maps an object that was entered, and says what comes of it if mappings and translations agreed
        before. */
    method Settle(vmo: Vmo, base: nat, user: bool, ghost reprs: set<AvlLinks.Element<Extent>>, ghost mapping: AvlLinks.Element<Extent>)
      returns (r: MapResult)
      requires spaces.Valid() && IsRoot(spaces.places, root)
      requires vmo.Valid() && vmo.Stored() && base % Unit(vmo.layer) == 0 && base < ADDRESS_BYTES && Placeable(vmo) && vmo.Frames() <= spaces.pmm.held
      requires mapping.key.start == base && mapping.key.end == (base + vmo.length) % ADDRESS_BYTES
      requires forall e :: e in reprs ==> !Meets(mapping.key, e.key)
      modifies spaces, spaces.pmm
      ensures r.Uncommitted? <==> vmo.base.None? && !vmo.Committed()
      ensures !r.Misaligned? && !r.Occupied? && r != Failed(Done)
      ensures Charged(old(spaces.tables), old(spaces.places), old(spaces.pmm.free), old(spaces.pmm.held), base / PAGE_BYTES, Pages(vmo), user)
      ensures r == Failed(OutOfFrames) ==> Starved(base / PAGE_BYTES, Pages(vmo))
      ensures r.Wraps? && vmo.base.Some? ==> unchanged(spaces) && unchanged(spaces.pmm)
      ensures if base + Pages(vmo) * PAGE_BYTES < ADDRESS_BYTES then !r.Wraps? else !r.Success?
      ensures r.Success? ==>
                && Shown(old(spaces.tables), spaces.tables, old(spaces.places), spaces.places, vmo, base, user)
                && Elsewhere(old(spaces.tables), spaces.tables, old(spaces.places), spaces.places, root)
                && Steady(old(spaces.tables), spaces.tables, root)
                && !InTheWay(old(spaces.tables), root, base / PAGE_BYTES, Pages(vmo))
                && base + vmo.length < ADDRESS_BYTES && (vmo.base.Some? ==> InReach(base / PAGE_BYTES, Pages(vmo)))
      ensures r == Failed(RunsOffTable) ==> vmo.base.Some? && !InReach(base / PAGE_BYTES, Pages(vmo))
      ensures r == Failed(Remapped) || r == Failed(WalksIntoFrame) ==>
                InTheWay(old(spaces.tables), root, base / PAGE_BYTES, Pages(vmo))
      ensures Agree(reprs, old(spaces.tables), root) && vmo.length > 0 && (r == Failed(Remapped) || r == Failed(WalksIntoFrame)) ==>
                || base + vmo.length >= ADDRESS_BYTES
                || Unforeseen(reprs, old(spaces.tables), root, base / PAGE_BYTES, Pages(vmo))
      ensures r.Success? && Agree(reprs, old(spaces.tables), root) ==>
                (Agree(reprs + {mapping}, spaces.tables, root) <==>
                   vmo.base.Some? || vmo.length > 0 || Offset(5, base / PAGE_BYTES) >= LOWER_PAGES)
    {
      hide Linked, Rooted, Shown, Fills, Agree, Covered, Mapped, Pages, Elsewhere, Steady, Placeable, Vmo.Committed,
           IsRoot, Pmm.Separated, InTheWay, Unforeseen, InReach, Offset, Span, Slot, Meets, TablesTook, Supplies, Starved, Discreet;
      ObjectPages(vmo, base);
      ghost var t0 := spaces.tables;
      PageMultiple(vmo.layer, base);
      EnteredEnd(base, vmo.length, false);
      r := MapObject(vmo, base, user);
      if r.Success? {
        FillsFree(t0, spaces.tables, root, base / PAGE_BYTES, Pages(vmo));
        if Agree(reprs, t0, root) {
          StillAgree(reprs, mapping, t0, spaces.tables, root, base, vmo.length, Pages(vmo), vmo.layer);
        }
      } else if r.Failed? && Agree(reprs, t0, root) && vmo.length > 0 && base + vmo.length < ADDRESS_BYTES
                && InTheWay(t0, root, base / PAGE_BYTES, Pages(vmo)) {
        NothingInTheWay(reprs, t0, root, mapping.key, Pages(vmo));
      }
    }

    /** Maps an object at any address, unless another mapping is in the way. Whatever page of it is mapped
        already, mapping it does not succeed. If mappings and translations agreed, a page of a non-empty
        object can be mapped already only if an address beyond the lower half is involved; and they
        still agree, unless the object is sparse and empty and in the lower half, where it takes up a
        frame all the same. */
    method MapVmo(vmo: Vmo, base: nat, user: bool, readOnly: bool) returns (r: MapResult)
      requires Valid() && vmo.Valid() && vmo.Stored() && base < ADDRESS_BYTES && Placeable(vmo) && vmo.Frames() <= spaces.pmm.held
      modifies spaces, spaces.pmm, mappings, mappings.Repr
      ensures r.Misaligned? <==> base % Unit(vmo.layer) != 0
      ensures r.Misaligned? || r.Occupied? ==> unchanged(spaces) && unchanged(spaces.pmm) && unchanged(mappings)
      ensures base % Unit(vmo.layer) == 0 ==>
                (r.Occupied? <==> exists e :: e in old(mappings.Repr) && Meets(Entered(base, vmo.length, readOnly), e.key))
      ensures !r.Misaligned? && !r.Occupied? ==> (r.Uncommitted? <==> vmo.base.None? && !vmo.Committed())
      ensures r.Wraps? ==>
                && base + Pages(vmo) * PAGE_BYTES >= ADDRESS_BYTES && mappings.Arranged()
                && (exists e :: mappings.Repr == old(mappings.Repr) + {e} && e.key == Entered(base, vmo.length, readOnly))
                && (vmo.base.Some? ==> unchanged(spaces) && unchanged(spaces.pmm))
      ensures r.Success? ==>
                && Valid()
                && (vmo.base.None? ==> vmo.Committed()) && base + Pages(vmo) * PAGE_BYTES < ADDRESS_BYTES
                && (exists e :: e !in old(mappings.Repr) && mappings.Repr == old(mappings.Repr) + {e} && e.key == Extent(base, base + vmo.length, readOnly))
                && fresh(mappings.Repr - old(mappings.Repr))
                && Shown(old(spaces.tables), spaces.tables, old(spaces.places), spaces.places, vmo, base, user)
                && Elsewhere(old(spaces.tables), spaces.tables, old(spaces.places), spaces.places, root)
                && Steady(old(spaces.tables), spaces.tables, root)
      ensures !r.Misaligned? && !r.Occupied? ==>
                Charged(old(spaces.tables), old(spaces.places), old(spaces.pmm.free), old(spaces.pmm.held), base / PAGE_BYTES, Pages(vmo), user)
      ensures r != Failed(Done) && (r == Failed(OutOfFrames) ==> Starved(base / PAGE_BYTES, Pages(vmo)))
      ensures r.Success? ==> !InTheWay(old(spaces.tables), root, base / PAGE_BYTES, Pages(vmo))
      ensures r == Failed(Remapped) || r == Failed(WalksIntoFrame) ==>
                InTheWay(old(spaces.tables), root, base / PAGE_BYTES, Pages(vmo))
      ensures old(Exact()) && vmo.length > 0 && (r == Failed(Remapped) || r == Failed(WalksIntoFrame)) ==>
                || base + vmo.length >= ADDRESS_BYTES
                || Unforeseen(old(mappings.Repr), old(spaces.tables), root, base / PAGE_BYTES, Pages(vmo))
      ensures r == Failed(RunsOffTable) ==> vmo.base.Some? && !InReach(base / PAGE_BYTES, Pages(vmo))
      ensures r.Success? && vmo.base.Some? ==> InReach(base / PAGE_BYTES, Pages(vmo))
      ensures r.Success? && old(Exact()) ==>
                (Exact() <==> vmo.base.Some? || vmo.length > 0 || Offset(5, base / PAGE_BYTES) >= LOWER_PAGES)
    {
      hide Linked, Rooted, Shown, Agree, Pages, Elsewhere, Steady, Placeable, Vmo.Committed,
           IsRoot, Pmm.Separated, InTheWay, Unforeseen, InReach, Offset, Tidy, AvlTree.Arranged, Meets, TablesTook, Supplies, Starved, Discreet;
      if base % Unit(vmo.layer) != 0 {
        return Misaligned;
      }
      ghost var reprs := mappings.Repr;
      var range := Entered(base, vmo.length, readOnly);
      StraightIff(vmo, base, readOnly);
      var occupied, mapping := Occupy(range);
      if occupied {
        return Occupied;
      }
      r := Settle(vmo, base, user, reprs, mapping);
    }

    /** No two mappings overlap. */
    lemma Disjoint(a: AvlLinks.Element<Extent>, b: AvlLinks.Element<Extent>)
      requires Tidy() && a in mappings.Repr && b in mappings.Repr && a != b
      ensures !Meets(a.key, b.key)
    {
      hide AvlTree.Arranged, Bridges, AvlShape.Balanced;
      mappings.Compared(a, b);
    }

    /** A range may be accessed if the tree search hits upon a mapping that meets it, and writing to
        that mapping is allowed where it is asked for. The mapping contains the range exactly if any
        does. */
    method LockAddressRange(start: nat, end: nat, rw: bool) returns (locked: bool, ghost hit: AvlLinks.Element?<Extent>)
      requires Valid()
      ensures locked <==> hit != null && (rw ==> !hit.key.readOnly)
      ensures hit == null <==> forall e :: e in mappings.Repr ==> !Meets(Extent(start, end, false), e.key)
      ensures hit != null ==> hit in mappings.Repr && Meets(Extent(start, end, false), hit.key)
      ensures start < end ==> ((exists e :: e in mappings.Repr && Contains(e.key, start, end)) <==> hit != null && Contains(hit.key, start, end))
    {
      hide Linked, Rooted, Bridges, AvlShape.Balanced, AvlTree.Arranged;
      var query := Extent(start, end, false);
      var it, _ := mappings.Find(query);
      assert forall e :: e in mappings.Repr ==> (Meets(query, e.key) <==> Matches(Precedes, query, e.key));
      hit := it;
      forall e | e in mappings.Repr && start < end && Contains(e.key, start, end)
        ensures hit == e
      {
        assert Meets(query, e.key);
        if hit != e {
          Disjoint(hit, e);
        }
      }
      locked := it != null && !(rw && it.key.readOnly);
    }

    /** Some mapping holds the byte, and allows writing to it where that is asked for. */
    ghost predicate Open(b: nat, rw: bool)
      reads mappings
    {
      exists e :: e in mappings.Repr && e.key.start <= b < e.key.end && (rw ==> !e.key.readOnly)
    }

    /** A range that was granted may be accessed if and only if what lies before and after the mapping it
        was found to meet may be: nothing looks at that. */
    lemma GrantedIff(start: nat, end: nat, rw: bool, hit: AvlLinks.Element<Extent>)
      requires hit in mappings.Repr && Meets(Extent(start, end, false), hit.key) && (rw ==> !hit.key.readOnly)
      ensures (forall b :: start <= b < end ==> Open(b, rw)) <==>
              && (forall b :: start <= b < hit.key.start ==> Open(b, rw))
              && (forall b :: hit.key.end <= b < end ==> Open(b, rw))
    {
    }

    /** A range that goes on after the mapping it was found to meet, where no other mapping adjoins. */
    lemma GrantedBeyond(start: nat, end: nat, hit: AvlLinks.Element<Extent>)
      requires Tidy() && hit in mappings.Repr && Meets(Extent(start, end, false), hit.key) && hit.key.end < end
      requires forall e :: e in mappings.Repr ==> e.key.start != hit.key.end
      ensures start <= hit.key.end < end && !Open(hit.key.end, false)
    {
      forall e | e in mappings.Repr && e != hit
        ensures !(e.key.start <= hit.key.end < e.key.end)
      {
        Disjoint(hit, e);
      }
    }

    /** One that starts before the mapping it was found to meet, where no other mapping adjoins. */
    lemma GrantedBefore(start: nat, end: nat, hit: AvlLinks.Element<Extent>)
      requires Tidy() && hit in mappings.Repr && Meets(Extent(start, end, false), hit.key) && start < hit.key.start
      requires forall e :: e in mappings.Repr ==> e.key.end != hit.key.start
      ensures start <= hit.key.start - 1 < end && !Open(hit.key.start - 1, false)
    {
      forall e | e in mappings.Repr && e != hit
        ensures !(e.key.start <= hit.key.start - 1 < e.key.end)
      {
        Disjoint(hit, e);
      }
    }

    /** One granted for writing that runs into a mapping that only allows reading. */
    lemma GrantedReadOnly(start: nat, end: nat, hit: AvlLinks.Element<Extent>, other: AvlLinks.Element<Extent>)
      requires Tidy() && hit in mappings.Repr && Meets(Extent(start, end, false), hit.key) && hit.key.end < end
      requires other in mappings.Repr && other.key.readOnly && other.key.start == hit.key.end < other.key.end
      ensures start <= hit.key.end < end && Open(hit.key.end, false) && !Open(hit.key.end, true)
    {
      forall e | e in mappings.Repr && e != other
        ensures !(e.key.start <= hit.key.end < e.key.end)
      {
        Disjoint(other, e);
      }
    }
  }

  predicate Contains(x: Extent, start: nat, end: nat) {
    x.start <= start && end <= x.end
  }

  /** A new address space: nothing mapped in its lower half, the upper half shared. */
  method CreateVas(spaces: AddressSpaces, cur: nat) returns (vas: Vas?)
    requires spaces.Valid() && IsRoot(spaces.places, cur)
    modifies spaces, spaces.pmm
    ensures spaces.Valid()
    ensures vas == null ==>
              && Pmm.Exhausted(spaces.pmm.free, 0)
              && Stuck(old(spaces.tables), old(spaces.pmm.free), old(spaces.pmm.held),
                       spaces.tables, spaces.pmm.free, spaces.pmm.held, cur)
    ensures vas != null ==>
              && fresh(vas) && fresh(vas.mappings) && vas.spaces == spaces && vas.Valid() && vas.Exact()
              && vas.mappings.Repr == {} && !IsRoot(old(spaces.places), vas.root)
              && spaces.TookFrom(old(spaces.pmm.free), old(spaces.pmm.held), old(spaces.tables))
              && Published(old(spaces.tables), spaces.tables, old(spaces.places), spaces.places, cur, vas.root)
  {
    var root := CloneUpperHalf(spaces, cur);
    if root.None? {
      return null;
    }
    LowerRange(0, 0);
    forall w: nat | w < LOWER_PAGES ensures Translate(spaces.tables, root.value, 4, w).None? {
      LowerPage(w);
    }
    vas := new Vas(spaces, root.value);
  }

  /** Page `w` of the tables shows the given frame. */
  ghost predicate OnFrame(t: Tables, r: nat, w: nat, frame: nat, user: bool) {
    var o := Translate(t, r, 4, w);
    && o.Some? && o.value.frame == frame && o.value.user == user
    && (w < LOWER_PAGES ==> Hit(o, frame, user, 1))
  }

  /** The pages from `first` on show the frames that a stretch of physical memory from frame `p` on is mapped to. */
  ghost predicate Exposes(t: Tables, r: nat, first: nat, pages: nat, p: nat, user: bool) {
    var ws := Offset(5, first);
    && ws + pages <= Span(5)
    && forall w: nat {:trigger OnFrame(t, r, w, MappedFrame(4, ws, p, w) % FRAME_NUMBERS, user)} ::
         ws <= w < ws + pages ==> OnFrame(t, r, w, MappedFrame(4, ws, p, w) % FRAME_NUMBERS, user)
  }

  lemma NowExposes(t0: Tables, t1: Tables, places0: Places, places1: Places, r: nat, first: nat, pages: nat, p: nat, user: bool)
    requires Linked(t0, places0) && Linked(t1, places1) && IsRoot(places0, r)
    requires first + pages < ADDRESS_PAGES && InReach(first, pages)
    requires var ws := Offset(5, first); Mapped(t0, t1, places0, places1, r, 4, ws, ws + pages, p, user, 1)
    ensures Exposes(t1, r, first, pages, p, user)
  {
    var ws := Offset(5, first);
    MapIsFlat(t0, t1, places0, places1, r, ws, ws + pages, p, user, 1);
    hide Mapped, Linked, Translate, Offset, Span, MappedFrame;
  }

  lemma StillExposes(t0: Tables, t1: Tables, r: nat, first: nat, pages: nat, p: nat, user: bool)
    requires Exposes(t0, r, first, pages, p, user) && Lasts(t0, t1, r)
    ensures Exposes(t1, r, first, pages, p, user)
  {
    hide Translate, Span, Offset, MappedFrame;
    var ws := Offset(5, first);
    forall w: nat | ws <= w < ws + pages
      ensures OnFrame(t1, r, w, MappedFrame(4, ws, p, w) % FRAME_NUMBERS, user)
    {
      assert OnFrame(t0, r, w, MappedFrame(4, ws, p, w) % FRAME_NUMBERS, user);
      assert Translate(t1, r, 4, w) == Translate(t1, r, 4, w);
    }
  }

  lemma ExposesNothing(t: Tables, r: nat, first: nat, p: nat, user: bool)
    ensures Exposes(t, r, first, 0, p, user)
  {
    SlotOffset(5, first);
  }

  /** All of an object is on display in address space `r`, from address `base` on: a sparse one is committed,
      and its pages are in its frames; the pages of a physical one are in the memory it stands for. */
  ghost predicate OnDisplay(t: Tables, r: nat, vmo: Vmo, base: nat, user: bool)
    reads vmo
  {
    if vmo.base.Some? then Exposes(t, r, base / PAGE_BYTES, Pages(vmo), vmo.base.value / PAGE_BYTES, user)
    else
      && vmo.layer < Pmm.LAYERS && vmo.Committed()
      && Displays(t, r, vmo.layer, vmo.elements, base / PAGE_BYTES, user)
  }

  lemma NowOnDisplay(t0: Tables, t1: Tables, places0: Places, places1: Places, vas: Vas, vmo: Vmo, base: nat, user: bool)
    requires Linked(t0, places0) && Linked(t1, places1) && IsRoot(places0, vas.root)
    requires vmo.Valid() && vas.Shown(t0, t1, places0, places1, vmo, base, user)
    requires if vmo.base.None? then vmo.Committed()
             else base % Unit(vmo.layer) == 0 && base + Pages(vmo) * PAGE_BYTES < ADDRESS_BYTES && InReach(base / PAGE_BYTES, Pages(vmo))
    ensures OnDisplay(t1, vas.root, vmo, base, user)
  {
    hide Linked, MapsObject, Exposes, Mapped, InReach, Displays, Offset;
    if vmo.base.None? {
      NowDisplays(t0, t1, vas.root, vmo.layer, vmo.elements, base / PAGE_BYTES, user);
    } else if vmo.length > 0 {
      PageMultiple(vmo.layer, base);
      NowExposes(t0, t1, places0, places1, vas.root, base / PAGE_BYTES, Pages(vmo), vmo.base.value / PAGE_BYTES, user);
    } else {
      ExposesNothing(t1, vas.root, base / PAGE_BYTES, vmo.base.value / PAGE_BYTES, user);
    }
  }

  lemma StillOnDisplay(t0: Tables, t1: Tables, r: nat, vmo: Vmo, base: nat, user: bool)
    requires OnDisplay(t0, r, vmo, base, user) && Lasts(t0, t1, r)
    ensures OnDisplay(t1, r, vmo, base, user)
  {
    hide Displays, Exposes, Lasts;
    if vmo.base.Some? {
      StillExposes(t0, t1, r, base / PAGE_BYTES, Pages(vmo), vmo.base.value / PAGE_BYTES, user);
    } else {
      StillDisplays(t0, t1, r, vmo.layer, vmo.elements, base / PAGE_BYTES, user);
    }
  }

  datatype Request = Request(vmo: Vmo, base: nat, user: bool, readOnly: bool)

  /** A request that a caller may make: an object of positive length, at any address. */
  ghost predicate Sound(q: Request, held: set<Pmm.Frame>)
    reads q.vmo, q.vmo.tree, q.vmo.tree.Repr
  {
    q.vmo.Valid() && q.vmo.Stored() && q.vmo.length > 0 && q.base < ADDRESS_BYTES && Placeable(q.vmo) && q.vmo.Frames() <= held
  }

  /** The request was met: its object is on display. */
  ghost predicate Met(t: Tables, r: nat, q: Request)
    reads q.vmo
  {
    OnDisplay(t, r, q.vmo, q.base, q.user)
  }

  /** All mappings lie in the lower half. */
  ghost predicate Low(reprs: set<AvlLinks.Element<Extent>>) {
    forall e :: e in reprs ==> e.key.end <= LOWER_BYTES
  }

  /** One request. */
  method Serve(vas: Vas, q: Request) returns (r: MapResult)
    requires vas.Valid() && vas.Exact() && Sound(q, vas.spaces.pmm.held)
    modifies vas.spaces, vas.spaces.pmm, vas.mappings, vas.mappings.Repr
    ensures vas.spaces.TookFrom(old(vas.spaces.pmm.free), old(vas.spaces.pmm.held), old(vas.spaces.tables))
    ensures r.Success? ==>
              && vas.Valid() && vas.Exact() && old(vas.spaces.pmm.held) <= vas.spaces.pmm.held
              && (exists e :: e !in old(vas.mappings.Repr) && vas.mappings.Repr == old(vas.mappings.Repr) + {e} && e.key.end == q.base + q.vmo.length)
              && fresh(vas.mappings.Repr - old(vas.mappings.Repr))
              && Lasts(old(vas.spaces.tables), vas.spaces.tables, vas.root) && Met(vas.spaces.tables, vas.root, q)
    ensures r == Failed(Remapped) || r == Failed(WalksIntoFrame) ==>
              || q.base + q.vmo.length >= ADDRESS_BYTES
              || Unforeseen(old(vas.mappings.Repr), old(vas.spaces.tables), vas.root, q.base / PAGE_BYTES, Pages(q.vmo))
    ensures Low(old(vas.mappings.Repr)) && q.base + q.vmo.length <= LOWER_BYTES ==>
              r != Failed(Remapped) && r != Failed(WalksIntoFrame) && r != Failed(RunsOffTable) && !r.Wraps?
  {
    hide Agree, Linked, Rooted, Mapped, Placeable, Vas.Tidy, Vas.Shown, OnDisplay, Elsewhere, Steady, SameLower, Lasts, Pages,
         InTheWay, Unforeseen, InReach, Offset, Span, AvlTree.Arranged, Vmo.Committed, Pmm.Separated, Unit, Meets, Entered, Low;
    ghost var t, places, reprs := vas.spaces.tables, vas.spaces.places, vas.mappings.Repr;
    r := vas.MapVmo(q.vmo, q.base, q.user, q.readOnly);
    TablesTookNone(vas.spaces.pmm.free, vas.spaces.pmm.held, vas.spaces.tables, vas.spaces.tables);
    if Low(reprs) && q.base + q.vmo.length <= LOWER_BYTES {
      LowRequest(q.vmo, q.base, reprs, t, vas.root);
    }
    if r.Success? {
      LastsHere(t, vas.spaces.tables, places, vas.spaces.places, vas.root);
      NowOnDisplay(t, vas.spaces.tables, places, vas.spaces.places, vas, q.vmo, q.base, q.user);
    }
  }

  /** Every run of mappings of a new address space, up to the first that does not succeed: translations
      and mappings agree throughout, and every object mapped stays on display. That a page is mapped
      already is found out only in a way that involves an address beyond the lower half; so never, if
      all requests are for the lower half. */
  method Run(vas: Vas, requests: seq<Request>)
    returns (r: MapResult, mapped: nat, ghost reprs: set<AvlLinks.Element<Extent>>, ghost t: Tables)
    requires vas.Valid() && vas.Exact() && forall q :: q in requests ==> Sound(q, vas.spaces.pmm.held)
    modifies vas.spaces, vas.spaces.pmm, vas.mappings, vas.mappings.Repr
    ensures mapped <= |requests| && (r.Success? <==> mapped == |requests|)
    ensures vas.spaces.TookFrom(old(vas.spaces.pmm.free), old(vas.spaces.pmm.held), old(vas.spaces.tables))
    ensures r.Success? ==> vas.Valid() && vas.Exact() && |vas.mappings.Repr| == |old(vas.mappings.Repr)| + |requests|
    ensures r.Success? ==> forall q :: q in requests ==> Met(vas.spaces.tables, vas.root, q)
    ensures Agree(reprs, t, vas.root) && |reprs| == |old(vas.mappings.Repr)| + mapped
    ensures r == Failed(Remapped) || r == Failed(WalksIntoFrame) ==>
              var q := requests[mapped];
              q.base + q.vmo.length >= ADDRESS_BYTES || Unforeseen(reprs, t, vas.root, q.base / PAGE_BYTES, Pages(q.vmo))
    ensures Low(old(vas.mappings.Repr)) && (forall q :: q in requests ==> q.base + q.vmo.length <= LOWER_BYTES) ==>
              r != Failed(Remapped) && r != Failed(WalksIntoFrame) && r != Failed(RunsOffTable) && !r.Wraps?
  {
    hide Agree, Linked, Rooted, Placeable, Vas.Tidy, OnDisplay, Lasts, Pages, Unforeseen, Vmo.Committed, Pmm.Separated, AddressSpaces.Valid,
         Vmo.Stored, Vmo.Valid, Vmo.Frames, TablesTook, Sound, Vas.Valid;
    TablesTookNone(vas.spaces.pmm.free, vas.spaces.pmm.held, vas.spaces.tables, vas.spaces.tables);
    mapped, r, reprs, t := 0, Success, vas.mappings.Repr, vas.spaces.tables;
    ghost var low := Low(reprs) && forall q :: q in requests ==> q.base + q.vmo.length <= LOWER_BYTES;
    while mapped < |requests|
      invariant mapped <= |requests| && r.Success? && vas.Valid() && vas.Exact()
      invariant reprs == vas.mappings.Repr && t == vas.spaces.tables
      invariant vas.spaces.TookFrom(old(vas.spaces.pmm.free), old(vas.spaces.pmm.held), old(vas.spaces.tables))
      invariant old(vas.spaces.pmm.held) <= vas.spaces.pmm.held && fresh(vas.mappings.Repr - old(vas.mappings.Repr))
      invariant |reprs| == |old(vas.mappings.Repr)| + mapped && (low ==> Low(reprs))
      invariant forall i :: 0 <= i < mapped ==> Met(vas.spaces.tables, vas.root, requests[i])
    {
      var q := requests[mapped];
      assert q in requests && old(Sound(q, vas.spaces.pmm.held));
      StillSound(q, old(vas.spaces.pmm.held), vas.spaces.pmm.held);
      ghost var free, held := vas.spaces.pmm.free, vas.spaces.pmm.held;
      r := Serve(vas, q);
      TablesTookBoth(old(vas.spaces.pmm.free), old(vas.spaces.pmm.held), old(vas.spaces.tables), free, held, t,
                     vas.spaces.pmm.free, vas.spaces.pmm.held, vas.spaces.tables);
      if !r.Success? {
        return;
      }
      forall i | 0 <= i < mapped
        ensures OnDisplay(vas.spaces.tables, vas.root, requests[i].vmo, requests[i].base, requests[i].user)
      {
        assert Met(t, vas.root, requests[i]);
        StillOnDisplay(t, vas.spaces.tables, vas.root, requests[i].vmo, requests[i].base, requests[i].user);
      }
      reprs, t, mapped := vas.mappings.Repr, vas.spaces.tables, mapped + 1;
    }
  }

  twostate lemma StillSound(q: Request, new held: set<Pmm.Frame>, new held': set<Pmm.Frame>)
    requires old(Sound(q, held)) && unchanged(q.vmo) && unchanged(q.vmo.tree) && unchanged(q.vmo.tree.Repr) && held <= held'
    ensures Sound(q, held')
  {
    hide Vmo.Valid, Vmo.Stored, Placeable;
  }

  lemma LastsHere(t0: Tables, t1: Tables, places0: Places, places1: Places, r: nat)
    requires Elsewhere(t0, t1, places0, places1, r) && IsRoot(places0, r)
    ensures Lasts(t0, t1, r)
  {
  }

  /** Nothing unforeseen happens in the lower half. */
  lemma LowRequest(vmo: Vmo, base: nat, reprs: set<AvlLinks.Element<Extent>>, t: Tables, r: nat)
    requires vmo.Valid() && vmo.length > 0 && base + vmo.length <= LOWER_BYTES && Low(reprs)
    ensures base % Unit(vmo.layer) == 0 ==> base + Pages(vmo) * PAGE_BYTES < ADDRESS_BYTES
    ensures base % Unit(vmo.layer) == 0 && (vmo.base.Some? || vmo.Committed()) ==>
              && InReach(base / PAGE_BYTES, Pages(vmo))
              && !Unforeseen(reprs, t, r, base / PAGE_BYTES, Pages(vmo))
  {
    hide Offset, Span, Slot, Translate;
    if base % Unit(vmo.layer) == 0 {
      PageMultiple(vmo.layer, base);
      if vmo.base.Some? || vmo.Committed() {
        hide Unit;
        ObjectPages(vmo, base);
        LowerRange(base / PAGE_BYTES, Pages(vmo));
        LowOnly(reprs, t, r, base / PAGE_BYTES, Pages(vmo));
      } else {
        assert Unit(vmo.layer) == Pages(vmo) * PAGE_BYTES <= 0x4000_0000;
      }
    }
  }

  lemma LowOnly(reprs: set<AvlLinks.Element<Extent>>, t: Tables, r: nat, first: nat, pages: nat)
    requires Low(reprs) && first + pages <= LOWER_PAGES
    ensures !Unforeseen(reprs, t, r, first, pages)
  {
    LowerRange(0, 0);
    hide Offset, Span, Slot, Translate;
    forall e, u: nat, v: nat | e in reprs && u >= Span(5)
      ensures !Occupies(e.key, u, v)
    {
    }
  }

  /** A direct map of at least one page is in the way of every object at its start, in every address space:
      they all share it. No mapping need be there for it. */
  lemma DirectMapInTheWay(t: Tables, places: Places, memory: nat, r: nat, pages: nat)
    requires Linked(t, places) && IsRoot(places, memory) && IsRoot(places, r) && pages > 0
    requires Translate(t, memory, 4, Span(5) / 2).Some?
    ensures InTheWay(t, r, PHYSMEM_PAGE, pages)
    ensures PHYSMEM_PAGE * PAGE_BYTES == 0xffff_8000_0000_0000
  {
    hide Linked, Translate;
    PhysmemAligned();
    SpanValues();
    LowerPage(Span(5) / 2);
    UpperShared(t, places, memory, r, Span(5) / 2);
    assert Taken(t, r, PHYSMEM_PAGE);
  }

  /** The bytes an object takes up are those of its length, but for an empty sparse object. */
  lemma ObjectPages(vmo: Vmo, base: nat)
    requires vmo.Valid()
    ensures vmo.layer < Pmm.LAYERS && vmo.length % Unit(vmo.layer) == 0 && vmo.length < ADDRESS_BYTES
    ensures vmo.base.Some? || vmo.Committed() ==>
              if vmo.base.Some? || vmo.length > 0 then Pages(vmo) * PAGE_BYTES == vmo.length
              else Pages(vmo) == Pmm.Size(vmo.layer)
  {
    if vmo.base.None? {
      if vmo.Committed() {
        PiecePages(vmo.layer, vmo.length, |vmo.elements|);
      }
    } else {
      PageMultiple(vmo.layer, vmo.length);
    }
  }

  lemma StraightIff(vmo: Vmo, base: nat, readOnly: bool)
    requires vmo.Valid() && base % Unit(vmo.layer) == 0 && base < ADDRESS_BYTES
    ensures Straight(Entered(base, vmo.length, readOnly)) <==> base + vmo.length < ADDRESS_BYTES
    ensures base + vmo.length < ADDRESS_BYTES ==> Entered(base, vmo.length, readOnly) == Extent(base, base + vmo.length, readOnly)
  {
    hide Unit, Entered;
    PageMultiple(vmo.layer, base);
    PageMultiple(vmo.layer, vmo.length);
    EnteredEnd(base, vmo.length, readOnly);
  }

  /** An empty sparse object takes up a whole frame of pages, but its range meets no other that starts
      where it does: of two such objects at one address, the second finds its page mapped already. */
  lemma EmptyObject(vmo: Vmo, base: nat, other: Extent)
    requires vmo.Valid() && vmo.base.None? && vmo.Committed() && vmo.length == 0 && other.start == base
    ensures Pages(vmo) == Pmm.Size(vmo.layer) > 0 && !Meets(Extent(base, base + vmo.length, false), other)
  {
    assert vmo.Pieces() == 1;
  }

  lemma PiecePages(layer: nat, length: nat, n: nat)
    requires layer < Pmm.LAYERS && length % Unit(layer) == 0 && n == if length < Unit(layer) then 1 else length / Unit(layer)
    ensures if length > 0 then n * Pmm.Size(layer) * PAGE_BYTES == length else n * Pmm.Size(layer) == Pmm.Size(layer)
  {
    if layer == 0 {
      assert Unit(layer) == 0x1000;
    } else if layer == 1 {
      assert Unit(layer) == 0x20_0000;
    } else {
      assert Unit(layer) == 0x4000_0000;
    }
  }

  lemma PieceBytes(layer: nat, n: nat)
    ensures n * Unit(layer) == n * Pmm.Size(layer) * PAGE_BYTES
  {
  }

  /** A new mapping occupies what its pages are, and nothing else. */
  lemma CoveredMore(reprs: set<AvlLinks.Element<Extent>>, e: AvlLinks.Element<Extent>, base: nat, pages: nat, w: nat)
    requires e.key.start == base && e.key.end == base + pages * PAGE_BYTES && base % PAGE_BYTES == 0 && pages <= Span(5) && w < Span(5)
    ensures Covered(reprs + {e}, w) <==> Covered(reprs, w) || PageNo(base / PAGE_BYTES, w) < pages
  {
    hide Offset, Span, PageNo;
    var first := base / PAGE_BYTES;
    if Covered(reprs, w) {
      var x, v: nat :| x in reprs && Occupies(x.key, v, w);
      assert x in reprs + {e};
    }
    if PageNo(first, w) < pages {
      var v := first + PageNo(first, w);
      PageOfNo(first, w);
      assert e in reprs + {e} && Occupies(e.key, v, w);
    }
    if Covered(reprs + {e}, w) && !Covered(reprs, w) {
      var x, v: nat :| x in reprs + {e} && Occupies(x.key, v, w);
      assert x == e;
      PageNoOf(first, v - first);
    }
  }

  lemma StillAgree(reprs: set<AvlLinks.Element<Extent>>, e: AvlLinks.Element<Extent>, t0: Tables, t1: Tables, r: nat,
                   base: nat, length: nat, pages: nat, layer: nat)
    requires Fills(t0, t1, r, base / PAGE_BYTES, pages) && Agree(reprs, t0, r)
    requires e.key.start == base && e.key.end == base + length && base % Unit(layer) == 0 && base % PAGE_BYTES == 0
    requires pages * PAGE_BYTES == length || (length == 0 && pages == Pmm.Size(layer) && layer < Pmm.LAYERS)
    ensures Agree(reprs + {e}, t1, r) <==> pages * PAGE_BYTES == length || Offset(5, base / PAGE_BYTES) >= LOWER_PAGES
  {
    hide Translate, Span, Covered, PageNo, Offset;
    var first := base / PAGE_BYTES;
    LowerRange(0, 0);
    if pages * PAGE_BYTES == length {
      forall w: nat | w < LOWER_PAGES ensures Translate(t1, r, 4, w).Some? <==> Covered(reprs + {e}, w) {
        CoveredMore(reprs, e, base, pages, w);
        assert FillsAt(t0, t1, r, first, pages, w);
      }
    } else {
      forall w: nat | w < LOWER_PAGES
        ensures Covered(reprs + {e}, w) <==> Covered(reprs, w)
        ensures FillsAt(t0, t1, r, first, pages, w) && (Covered(reprs, w) <==> Translate(t0, r, 4, w).Some?)
      {
        CoveredMore(reprs, e, base, 0, w);
      }
      EmptyPages(layer, base, pages);
      var w := Offset(5, first);
      if w < LOWER_PAGES {
        assert Translate(t1, r, 4, w).Some? && !Covered(reprs + {e}, w);
      }
    }
  }

  /** The pages of one piece are in one half. */
  lemma EmptyPages(layer: nat, base: nat, pages: nat)
    requires layer < Pmm.LAYERS && base % Unit(layer) == 0 && pages == Pmm.Size(layer)
    ensures var first := base / PAGE_BYTES;
            && Offset(5, first) < Span(5) && PageNo(first, Offset(5, first)) == 0 && pages > 0
            && (Offset(5, first) >= LOWER_PAGES ==> forall w: nat :: w < LOWER_PAGES && w < Span(5) ==> PageNo(first, w) >= pages)
  {
    hide Offset, Span;
    var first := base / PAGE_BYTES;
    PieceRange(layer, base, 0);
    PieceInWindow(layer, first);
    PageNoOf(first, 0);
  }

  /** Nothing was in the way of what has been mapped. */
  lemma FillsFree(t0: Tables, t1: Tables, r: nat, first: nat, pages: nat)
    requires Fills(t0, t1, r, first, pages)
    ensures !InTheWay(t0, r, first, pages)
  {
    hide Translate, Offset, Span, PageNo;
    forall v: nat | first <= v < first + pages
      ensures !Taken(t0, r, v)
    {
      PageNoOf(first, v - first);
      assert FillsAt(t0, t1, r, first, pages, Offset(5, v));
    }
  }

  lemma PageInTheWay(t: Tables, r: nat, first: nat, pages: nat, w: nat)
    requires w < Span(5) && Translate(t, r, 4, w).Some? && PageNo(first, w) < pages
    ensures InTheWay(t, r, first, pages)
  {
    PageOfNo(first, w);
    assert Taken(t, r, first + PageNo(first, w));
  }

  /** If mappings and translations agree, what is in the way of a stretch that no mapping meets could not
      be foreseen. */
  lemma NothingInTheWay(reprs: set<AvlLinks.Element<Extent>>, t: Tables, r: nat, range: Extent, pages: nat)
    requires Agree(reprs, t, r) && range.start % PAGE_BYTES == 0 && range.end == range.start + pages * PAGE_BYTES
    requires !exists e :: e in reprs && Meets(range, e.key)
    requires InTheWay(t, r, range.start / PAGE_BYTES, pages)
    ensures Unforeseen(reprs, t, r, range.start / PAGE_BYTES, pages)
  {
    hide Translate, Span, Offset;
    var first := range.start / PAGE_BYTES;
    if pages <= Span(5) {
      var v: nat :| first <= v < first + pages && Taken(t, r, v);
      if v < LOWER_PAGES {
        LowerRange(v, 0);
        assert Covered(reprs, v);
        var e, u: nat :| e in reprs && Occupies(e.key, u, v);
        assert !Meets(range, e.key);
        assert u != v;
        OtherWindow(u, v);
      }
    }
  }

  lemma OtherWindow(u: nat, v: nat)
    requires Offset(5, u) == v && u != v
    ensures u >= Span(5)
  {
    if u < Span(5) {
      OneTop(u);
      SlotOffset(5, u);
    }
  }

  /** The pages that mapping an object takes up. */
  ghost function PagesOf(vmo: Vmo, elements: seq<Element>): nat {
    if vmo.base.None? then |elements| * Pmm.Size(vmo.layer) else vmo.length / PAGE_BYTES
  }

  ghost function Pages(vmo: Vmo): nat
    reads vmo
  {
    PagesOf(vmo, vmo.elements)
  }

  /** From `t0` to `t1`, exactly the given pages came to translate. */
  ghost predicate Fills(t0: Tables, t1: Tables, r: nat, first: nat, pages: nat) {
    && pages <= Span(5)
    && forall w: nat {:trigger Translate(t1, r, 4, w)} {:trigger FillsAt(t0, t1, r, first, pages, w)} ::
         w < Span(5) ==> FillsAt(t0, t1, r, first, pages, w)
  }

  ghost predicate FillsAt(t0: Tables, t1: Tables, r: nat, first: nat, pages: nat, w: nat)
    requires w < Span(5)
  {
    && (Translate(t1, r, 4, w).Some? <==> PageNo(first, w) < pages || Translate(t0, r, 4, w).Some?)
    && (PageNo(first, w) < pages ==> Translate(t0, r, 4, w).None?)
  }

  lemma StretchPages(vmo: Vmo, base: nat)
    requires vmo.Valid() && vmo.base.Some? && base % PAGE_BYTES == 0 && base < ADDRESS_BYTES
    ensures PageCount(1, vmo.length) == Pages(vmo) && Pages(vmo) * PAGE_BYTES == vmo.length
    ensures Distance(base, (base + vmo.length) % ADDRESS_BYTES) == vmo.length
    ensures base + vmo.length >= ADDRESS_BYTES <==> base / PAGE_BYTES + Pages(vmo) >= ADDRESS_PAGES
    ensures vmo.length == 0 <==> base == (base + vmo.length) % ADDRESS_BYTES
  {
    hide Unit;
    PageMultiple(vmo.layer, vmo.length);
    CountOfPages(vmo.length);
    EnteredEnd(base, vmo.length, false);
  }

  lemma PageMultiple(layer: nat, length: nat)
    requires layer < Pmm.LAYERS && length % Unit(layer) == 0
    ensures length % PAGE_BYTES == 0
  {
    if layer == 0 {
      assert Unit(layer) == 0x1000;
    } else if layer == 1 {
      assert Unit(layer) == 0x20_0000;
    } else {
      assert Unit(layer) == 0x4000_0000;
    }
  }

  lemma FlatFills(t0: Tables, t1: Tables, places0: Places, places1: Places, r: nat, first: nat, pages: nat, p: nat, user: bool)
    requires Linked(t0, places0) && Linked(t1, places1) && IsRoot(places0, r)
    requires first + pages < ADDRESS_PAGES && InReach(first, pages)
    requires var ws := Offset(5, first); Mapped(t0, t1, places0, places1, r, 4, ws, ws + pages, p, user, 1)
    ensures Fills(t0, t1, r, first, pages) && IsRoot(places1, r)
  {
    var ws := Offset(5, first);
    MapIsFlat(t0, t1, places0, places1, r, ws, ws + pages, p, user, 1);
    RootStays(t0, t1, places0, places1, r, ws, ws + pages, p, user);
    hide Mapped, Linked, Translate, Offset, Span, MappedFrame;
  }

  lemma FillsNothing(t: Tables, r: nat, first: nat)
    ensures Fills(t, t, r, first, 0)
  {
  }

  lemma ObjectFills(t0: Tables, t1: Tables, r: nat, layer: nat, elements: seq<Element>, first: nat, pages: nat, user: bool)
    requires layer < Pmm.LAYERS && MapsObject(t0, t1, r, layer, elements, first, pages, user)
    ensures Fills(t0, t1, r, first, pages)
  {
    hide Translate, Span, PageNo;
    forall w: nat | w < Span(5)
      ensures FillsAt(t0, t1, r, first, pages, w)
    {
      assert PageOk(t0, t1, r, layer, elements, first, pages, user, w);
    }
  }

  /** The object's frames have numbers that fit an entry. */
  ghost predicate Placeable(vmo: Vmo)
    reads vmo
  {
    forall e :: e in vmo.elements && e.backing.Some? ==> e.backing.value < FRAME_NUMBERS
  }

  lemma CommittedHere(vmo: Vmo, i: nat)
    requires vmo.Valid() && vmo.base.None? && Placeable(vmo)
    requires i < |vmo.elements| && vmo.elements[i].backing.Some?
    ensures vmo.Committed() && Backed(vmo.layer, vmo.elements, i)
    ensures vmo.elements[i].backing.value < FRAME_NUMBERS
  {
    assert vmo.elements[i] in vmo.elements;
  }

  lemma NextPiece(layer: nat, i: nat)
    ensures (i + 1) * Unit(layer) == i * Unit(layer) + Unit(layer)
  {
  }

  lemma LaterPieces(layer: nat, i: nat, n: nat)
    requires i < n
    ensures i * Unit(layer) + Unit(layer) <= n * Unit(layer)
  {
    NextPiece(layer, i);
    Levels.ProductMonotone(i + 1, n, Unit(layer));
  }

  lemma PieceAligned(free: Pmm.Stacks, held: set<Pmm.Frame>, vmo: Vmo, i: nat)
    requires Pmm.Separated(free, held) && vmo.Frames() <= held && i < |vmo.elements| && vmo.elements[i].backing.Some?
    ensures vmo.layer < Pmm.LAYERS && vmo.elements[i].backing.value % Pmm.Size(vmo.layer) == 0
  {
    assert vmo.elements[i] in vmo.elements;
    assert Pmm.Known(free, held, Pmm.Frame(vmo.layer, vmo.elements[i].backing.value));
  }

  lemma MapsNone(t: Tables, r: nat, layer: nat, elements: seq<Element>, first: nat, user: bool)
    requires layer < Pmm.LAYERS
    ensures MapsObject(t, t, r, layer, elements, first, 0, user)
  {
  }

  /** What is in the way of a piece was there before the first, or the pieces before fill the table. */
  lemma StillThere(t0: Tables, t1: Tables, r: nat, layer: nat, elements: seq<Element>, first: nat, i: nat, user: bool)
    requires layer < Pmm.LAYERS && first % Pmm.Size(layer) == 0
    requires i < |elements| && MapsObject(t0, t1, r, layer, elements, first, i * Pmm.Size(layer), user)
    requires var ws := Offset(5, first + i * Pmm.Size(layer));
             exists w: nat :: ws <= w < ws + Pmm.Size(layer) && w < Span(5) && Translate(t1, r, 4, w).Some?
    ensures InTheWay(t0, r, first, |elements| * Pmm.Size(layer))
  {
    hide Translate, Offset, Span, PageNo;
    var S, ws := Pmm.Size(layer), Offset(5, first + i * Pmm.Size(layer));
    Levels.ProductMonotone(i + 1, |elements|, S);
    assert (i + 1) * S == i * S + S;
    if i * S < Span(5) {
      var w: nat :| ws <= w < ws + S && w < Span(5) && Translate(t1, r, 4, w).Some?;
      PiecePlace(layer, first, i);
      assert PageOk(t0, t1, r, layer, elements, first, i * S, user, w);
      PageInTheWay(t0, r, first, |elements| * S, w);
    }
  }

  /** Where a piece is, that does not reach the top. */
  lemma PieceReach(layer: nat, base: nat, i: nat)
    requires layer < Pmm.LAYERS && base % Unit(layer) == 0 && base + i * Unit(layer) + Unit(layer) < ADDRESS_BYTES
    ensures var start, v, S := base + i * Unit(layer), base / PAGE_BYTES + i * Pmm.Size(layer), Pmm.Size(layer);
            && start / PAGE_BYTES == v && Distance(start, start + Unit(layer)) == Unit(layer) > 0 && PageCount(1, Unit(layer)) == S
            && v + S < ADDRESS_PAGES && Offset(5, v) + S <= Span(5) && InReach(v, S) && (base / PAGE_BYTES) % S == 0
  {
    PieceRange(layer, base, i);
    StartAligned(layer, base / PAGE_BYTES, i);
    PieceInWindow(layer, base / PAGE_BYTES + i * Pmm.Size(layer));
    BelowTop5(base / PAGE_BYTES + i * Pmm.Size(layer));
    assert base + i * Unit(layer) + Unit(layer) == (base / PAGE_BYTES + i * Pmm.Size(layer) + Pmm.Size(layer)) * PAGE_BYTES by {
      PieceBytes(layer, i);
      PieceBytes(layer, 1);
    }
  }

  lemma RootStays(t0: Tables, t1: Tables, places0: Places, places1: Places, r: nat, ws: nat, we: nat, p: nat, user: bool)
    requires Linked(t0, places0) && Linked(t1, places1) && IsRoot(places0, r)
    requires Mapped(t0, t1, places0, places1, r, 4, ws, we, p, user, 1)
    ensures IsRoot(places1, r)
  {
  }
}
