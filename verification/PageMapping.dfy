/** The effect of mapping a range of pages, one table entry at a time. */
module PageMapping {
  import opened Basics
  import opened Levels
  import opened PageTables

  /** The frame a mapping from page `ws` and frame `p` gives page `w`, in closed form: at the
      highest level where `w` has left the slot of `ws`, frames count from aligned starts. */
  function MappedFrame(l: nat, ws: nat, p: nat, w: nat): nat
    requires 1 <= l && ws <= w
  {
    if Slot(l, w) != Slot(l, ws) then AlignDown(l, p) + (w - AlignDown(l, ws))
    else if l == 1 then p
    else MappedFrame(l - 1, ws, p, w)
  }

  predicate Hit(o: Option<Leaf>, frame: nat, user: bool, lowest: nat) {
    o.Some? && o.value.frame == frame && o.value.level == lowest && o.value.user == user && (user ==> o.value.pathUser)
  }

  /** The translation of a page outside the mapped range: the same frame and last user bit;
      entries above may have gained the user bit, but only if the mapping was for user pages. */
  predicate Kept(a: Option<Leaf>, b: Option<Leaf>, user: bool) {
    if a.None? then b.None?
    else
      && b.Some? && a.value.frame == b.value.frame && a.value.level == b.value.level && a.value.user == b.value.user
      && (a.value.pathUser ==> b.value.pathUser)
      && (user || a == b)
  }

  /** From `t0` to `t1`, all pages of table `f` are kept. */
  ghost predicate Keeps(t0: Tables, t1: Tables, f: nat, l: nat, slot: nat, user: bool)
    requires 1 <= l <= 4
  {
    forall w {:trigger Translate(t1, f, l, w)} :: 0 <= w < Span(5) && Slot(l + 1, w) == slot ==>
      Kept(Translate(t0, f, l, w), Translate(t1, f, l, w), user)
  }

  /** From `t0` to `t1`, table `f` of level `l` came to map `ws..we` from frame `p` on, and all
      its other pages are kept. */
  ghost predicate Maps(t0: Tables, t1: Tables, f: nat, l: nat, slot: nat, ws: nat, we: nat, p: nat, user: bool, lowest: nat)
    requires 1 <= l <= 4
  {
    forall w {:trigger Translate(t1, f, l, w)} :: 0 <= w < Span(5) && Slot(l + 1, w) == slot ==>
      if ws <= w < we then Hit(Translate(t1, f, l, w), MappedFrame(l, ws, p, w) % FRAME_NUMBERS, user, lowest)
      else Kept(Translate(t0, f, l, w), Translate(t1, f, l, w), user)
  }

  /** Where the physical address stands when the loop of level `l` reaches page `wc`. */
  function PhysAt(l: nat, ws: nat, p: nat, wc: nat): nat
    requires 1 <= l && ws <= wc
  {
    if wc == ws then p else Wrap(AlignDown(l, p) + (wc - AlignDown(l, ws)))
  }

  /** From congruent starts the mapping is linear over the slot. */
  lemma {:induction false} CongruentFrame(l: nat, ws: nat, p: nat, w: nat)
    requires 1 <= l && ws <= w && Slot(l + 1, ws) == Slot(l + 1, w)
    requires Offset(l + 1, ws) == Offset(l + 1, p)
    ensures MappedFrame(l, ws, p, w) == p + (w - ws)
  {
    OffsetNests(l, l + 1, ws, p);
    if Slot(l, w) == Slot(l, ws) && l > 1 {
      CongruentFrame(l - 1, ws, p, w);
    }
  }

  // ---------------------------------------------------------------------------------------
  // Writing one entry

  function Write(t: Tables, f: nat, i: nat, e: Entry): Tables
    requires f in t && i < |t[f]|
  {
    t[f := t[f][i := e]]
  }

  /** The address field and the address space hold a whole number of slots of every level. */
  lemma FieldSlots(l: nat) returns (n: nat)
    requires 1 <= l <= 4
    ensures n > 0 && FRAME_NUMBERS == n * Span(l)
  {
    SpanValues();
    n := if l == 1 then 0x100_0000_0000 else if l == 2 then 0x8000_0000 else if l == 3 then 0x40_0000 else 0x2000;
  }

  lemma AddressSlots(l: nat) returns (n: nat)
    requires 1 <= l <= 4
    ensures n > 0 && ADDRESS_PAGES == n * Span(l)
  {
    SpanValues();
    n := if l == 1 then ADDRESS_PAGES else if l == 2 then 0x800_0000_0000 else if l == 3 then 0x4_0000_0000 else 0x200_0000;
  }

  /** Wrapping a frame number to the address field commutes with adding an offset. */
  lemma FieldAligned(l: nat, p: nat, off: nat)
    requires 1 <= l <= 4 && Offset(l, p) == 0 && off < Span(l)
    ensures Offset(l, p % FRAME_NUMBERS) == 0 && p % FRAME_NUMBERS + off == (p + off) % FRAME_NUMBERS
  {
    var n := FieldSlots(l);
    SlotOffset(l, p);
    WrapMultiple(Slot(l, p), Span(l), n, 0);
    WrapMultiple(Slot(l, p), Span(l), n, off);
    SlotOfMultiple(l, Slot(l, p) % n, 0);
  }

  /** The entry of `w` in a table is the entry of `wc` exactly if they share the slot. */
  lemma SameEntry(l: nat, wc: nat, w: nat)
    requires 1 <= l <= 4 && Slot(l + 1, w) == Slot(l + 1, wc)
    ensures Index(l, w) == Index(l, wc) <==> Slot(l, w) == Slot(l, wc)
  {
  }

  /** Writing entry `i` of `f` touches only that entry. */
  lemma WriteFrames(t: Tables, t1: Tables, places: Places, f: nat, l: nat, i: nat, e: Entry, wc: nat, wn: nat)
    requires Linked(t, places) && f in t && i < FANOUT
    requires t1 == Write(t, f, i, e) && Linked(t1, places)
    requires 1 <= l <= 4 && places[f].level == l && Slot(l + 1, wc) == places[f].slot
    requires wc < wn && i == Index(l, wc)
    ensures Frames(t, t1, places, places, l, places[f].owner, wc, wn)
  {
    SlotMonotone(l, wc, wn - 1);
    assert Touched(places[f], i, l, places[f].owner, wc, wn);
  }

  lemma WriteLinked(t: Tables, places: Places, f: nat, i: nat, e: Entry)
    requires Linked(t, places) && f in t && i < FANOUT
    requires EntryLinked(Write(t, f, i, e), places, f, i)
    ensures Linked(Write(t, f, i, e), places)
  {
    var t1 := Write(t, f, i, e);
    forall g, j: nat | g in t1 && j < FANOUT
      ensures EntryLinked(t1, places, g, j)
    {
      assert EntryLinked(t, places, g, j);
    }
  }

  // ---------------------------------------------------------------------------------------
  // The lowest level: an absent entry comes to map a frame

  /** What a lowest-level entry at level `l` needs: a whole slot, and a frame aligned to it. */
  predicate WholeSlot(l: nat, wc: nat, wn: nat, p: nat)
    requires 1 <= l
  {
    Offset(l, wc) == 0 && Offset(l, p) == 0 && wn == wc + Span(l)
  }

  function LeafEntry(l: nat, e: Entry, p: nat, user: bool): Entry {
    Entry(true, user, l > 1 || e.size, p % FRAME_NUMBERS)
  }

  lemma LeafLinear(l: nat, wc: nat, wn: nat, p: nat, w: nat)
    requires 1 <= l <= 4 && WholeSlot(l, wc, wn, p) && wc <= w < wn
    ensures Slot(l, w) == Slot(l, wc) && Offset(l, w) == w - wc
    ensures MappedFrame(l, wc, p, w) == p + (w - wc)
  {
    SlotFrom(l, wc, w - wc);
    if l > 1 { CongruentFrame(l - 1, wc, p, w); }
  }

  lemma LeafFrame(l: nat, wc: nat, wn: nat, p: nat, w: nat)
    requires 1 <= l <= 4 && WholeSlot(l, wc, wn, p) && wc <= w < wn
    ensures Slot(l, w) == Slot(l, wc)
    ensures AlignDown(l, p % FRAME_NUMBERS) + Offset(l, w) == MappedFrame(l, wc, p, w) % FRAME_NUMBERS
  {
    hide Slot, Offset, Span, MappedFrame;
    LeafLinear(l, wc, wn, p, w);
    FieldAligned(l, p, w - wc);
  }

  lemma LeafStep(t: Tables, places: Places, f: nat, l: nat, wc: nat, wn: nat, p: nat, user: bool)
    requires Linked(t, places) && f in t && places[f].level == l
    requires 1 <= l <= 3 && wn <= Span(5) && Slot(l + 1, wc) == places[f].slot
    requires !t[f][Index(l, wc)].present && WholeSlot(l, wc, wn, p)
    ensures var i := Index(l, wc);
            var t1 := Write(t, f, i, LeafEntry(l, t[f][i], p, user));
            && Linked(t1, places)
            && Frames(t, t1, places, places, l, places[f].owner, wc, wn)
            && Maps(t, t1, f, l, places[f].slot, wc, wn, p, user, l)
  {
    var i := Index(l, wc);
    var e := LeafEntry(l, t[f][i], p, user);
    var t1 := Write(t, f, i, e);
    assert EntryLinked(t, places, f, i);
    WriteLinked(t, places, f, i, e);
    WriteFrames(t, t1, places, f, l, i, e, wc, wn);
    LeafFrame(l, wc, wn, p, wn - 1);
    forall w | 0 <= w < Span(5) && Slot(l + 1, w) == places[f].slot
      ensures if wc <= w < wn then Hit(Translate(t1, f, l, w), MappedFrame(l, wc, p, w) % FRAME_NUMBERS, user, l)
              else Kept(Translate(t, f, l, w), Translate(t1, f, l, w), user)
    {
      if wc <= w < wn {
        LeafFrame(l, wc, wn, p, w);
      } else {
        NotInSlot(l, wc, wn, w);
        WalkElsewhere(t, t1, places, places, l, places[f].owner, wc, wn, f, l, l, w);
      }
    }
  }

  /** A page outside a whole slot is in another slot. */
  lemma NotInSlot(l: nat, wc: nat, wn: nat, w: nat)
    requires 1 <= l && Offset(l, wc) == 0 && wn == wc + Span(l) && !(wc <= w < wn)
    ensures Slot(l, w) < Slot(l, wc) || Slot(l, wn - 1) < Slot(l, w)
  {
    SlotFrom(l, wc, Span(l) - 1);
    SameSlot(l, w, wc);
    if w < wc { SlotMonotone(l, w, wc); } else { SlotMonotone(l, wc, w); }
  }

  // ---------------------------------------------------------------------------------------
  // The levels above: an entry comes to lead to a table

  /** Entries at the same place below belong to the same table, except that the upper halves of
      all roots lead to the same tables. */
  lemma SameBelow(places: Places, f: nat, i: nat, h: nat, j: nat)
    requires f in places && h in places && i < FANOUT && j < FANOUT
    requires PlaceOk(f, places[f]) && PlaceOk(h, places[h]) && places[f].level > 1 && places[h].level > 1
    requires ChildPlace(places[f], i) == ChildPlace(places[h], j)
    ensures i == j && places[f].level == places[h].level && places[f].slot == places[h].slot
    ensures places[f].level < 4 || i < FANOUT / 2 ==> places[f] == places[h]
  {
    Remainder(places[f].slot * FANOUT + i, FANOUT, places[f].slot, i);
    Remainder(places[h].slot * FANOUT + j, FANOUT, places[h].slot, j);
  }

  /** `f` is the only root. */
  ghost predicate OnlyRoot(places: Places, f: nat) {
    forall h :: h in places && places[h].level == 4 ==> h == f
  }

  /** A new table may be put at an absent entry; in the upper half, only while there is no other
      address space to miss it. */
  predicate Installable(t: Tables, places: Places, f: nat, i: nat, g: nat) {
    && f in t && f in places && g !in t && i < FANOUT && |t[f]| == FANOUT
    && 2 <= places[f].level <= 4
    && !t[f][i].present
  }

  lemma InstallPlaces(t: Tables, places: Places, f: nat, i: nat, g: nat)
    requires Linked(t, places) && Installable(t, places, f, i, g)
    ensures forall h :: !Below(places, f, i, h)
    ensures forall h :: h in places ==> places[h] != ChildPlace(places[f], i)
    ensures forall h, j: nat :: h in places && j < FANOUT ==>
              places[h] != ChildPlace(ChildPlace(places[f], i), j)
    ensures PlaceOk(g, ChildPlace(places[f], i))
  {
    assert PlaceOk(f, places[f]);
    assert EntryLinked(t, places, f, i);
    assert forall h :: h in places && places[h] == ChildPlace(places[f], i) ==> Below(places, f, i, h);
    forall h, j: nat | h in places && j < FANOUT
      ensures places[h] != ChildPlace(ChildPlace(places[f], i), j)
    {
      assert PlaceOk(h, places[h]) && HasParent(places, h);
      if places[h].level < 4 {
        var x, k: nat :| k < FANOUT && Below(places, x, k, h);
        assert PlaceOk(x, places[x]);
        Remainder(places[x].slot * FANOUT + k, FANOUT, places[x].slot, k);
        Remainder(ChildPlace(places[f], i).slot * FANOUT + j, FANOUT, ChildPlace(places[f], i).slot, j);
        assert places[x] != ChildPlace(places[f], i);
      }
    }
    if places[f].level < 4 {
      Remainder(places[f].slot * FANOUT + i, FANOUT, places[f].slot, i);
      assert (places[f].slot * FANOUT + i) / FANOUT == places[f].slot;
    }
  }

  /** The tables after a blank table `g` is hung on entry `i` of `f`. */
  function Install(t: Tables, f: nat, i: nat, g: nat, user: bool): Tables
    requires f in t && i < |t[f]| && g != f
  {
    var e := t[f][i];
    Write(t[g := BlankTable()], f, i, e.(present := true, user := e.user || user, address := g))
  }

  lemma InstallLinked(t: Tables, places: Places, f: nat, i: nat, g: nat, user: bool)
    requires Linked(t, places) && Installable(t, places, f, i, g)
    requires places[f].level == 4 && i >= FANOUT / 2 ==> OnlyRoot(places, f)
    ensures Linked(Install(t, f, i, g, user), places[g := ChildPlace(places[f], i)])
  {
    var t1 := Install(t, f, i, g, user);
    var places1 := places[g := ChildPlace(places[f], i)];
    InstallPlaces(t, places, f, i, g);
    assert Below(places1, f, i, g);
    forall h | h in places1
      ensures HasParent(places1, h)
    {
      if h != g && places[h].level != 4 {
        assert HasParent(places, h);
        var x, k: nat :| k < FANOUT && Below(places, x, k, h);
        assert Below(places1, x, k, h);
      }
    }
    forall h, x | SamePlace(places1, h, x)
      ensures h == x
    {
      assert h != g && x != g ==> SamePlace(places, h, x);
    }
    forall h, j: nat | h in t1 && j < FANOUT
      ensures EntryLinked(t1, places1, h, j)
    {
      if h != g { InstallEntry(t, places, f, i, g, user, h, j); }
    }
  }

  lemma InstallEntry(t: Tables, places: Places, f: nat, i: nat, g: nat, user: bool, h: nat, j: nat)
    requires Linked(t, places) && Installable(t, places, f, i, g)
    requires places[f].level == 4 && i >= FANOUT / 2 ==> OnlyRoot(places, f)
    requires h in t && j < FANOUT
    ensures EntryLinked(Install(t, f, i, g, user), places[g := ChildPlace(places[f], i)], h, j)
  {
    var t1 := Install(t, f, i, g, user);
    var places1 := places[g := ChildPlace(places[f], i)];
    InstallPlaces(t, places, f, i, g);
    assert EntryLinked(t, places, h, j);
    assert PlaceOk(f, places[f]) && PlaceOk(h, places[h]);
    if Below(places1, h, j, g) {
      SameBelow(places, f, i, h, j);
      assert SamePlace(places, f, h) ==> f == h;
    }
    assert forall x :: Below(places1, h, j, x) && x != g ==> Below(places, h, j, x);
    assert forall x :: Below(places, h, j, x) ==> Below(places1, h, j, x);
  }

  /** Entry `i` of `f` leads to table `c`, with the user bit if it is asked for. */
  ghost predicate Opened(t: Tables, places: Places, f: nat, i: nat, c: nat, user: bool)
    requires f in t && i < |t[f]|
  {
    var e := t[f][i];
    e.present && !e.size && e.address == c && Below(places, f, i, c) && (user ==> e.user)
  }

  /** Hanging a blank table on an absent entry changes no translation. */
  lemma InstallStep(t: Tables, places: Places, f: nat, l: nat, wc: nat, wn: nat, g: nat, user: bool)
    requires Linked(t, places) && f in t && places[f].level == l && 2 <= l <= 4
    requires wc < wn && Slot(l + 1, wc) == places[f].slot && Installable(t, places, f, Index(l, wc), g)
    requires l == 4 && Index(l, wc) >= FANOUT / 2 ==> OnlyRoot(places, f)
    ensures var i := Index(l, wc);
            var t1 := Install(t, f, i, g, user);
            var places1 := places[g := ChildPlace(places[f], i)];
            && Linked(t1, places1)
            && Frames(t, t1, places, places1, l, places[f].owner, wc, wn)
            && Opened(t1, places1, f, i, g, user)
            && Keeps(t, t1, f, l, places[f].slot, user)
  {
    var i := Index(l, wc);
    var t1 := Install(t, f, i, g, user);
    var places1 := places[g := ChildPlace(places[f], i)];
    InstallLinked(t, places, f, i, g, user);
    assert EntryLinked(t, places, f, i);
    InstallFrames(t, places, f, l, wc, wn, g, user);
    InstallFrames(t, places, f, l, wc, wc + 1, g, user);
    forall w | 0 <= w < Span(5) && Slot(l + 1, w) == places[f].slot
      ensures Translate(t1, f, l, w) == Translate(t, f, l, w)
    {
      SameEntry(l, wc, w);
      if Slot(l, w) != Slot(l, wc) {
        WalkElsewhere(t, t1, places, places1, l, places[f].owner, wc, wc + 1, f, l, l, w);
      } else {
        BlankBelow(t1, f, l, g, w);
      }
    }
  }

  lemma InstallFrames(t: Tables, places: Places, f: nat, l: nat, wc: nat, wn: nat, g: nat, user: bool)
    requires Linked(t, places) && f in t && places[f].level == l && 2 <= l <= 4
    requires wc < wn && Slot(l + 1, wc) == places[f].slot && Installable(t, places, f, Index(l, wc), g)
    requires Linked(Install(t, f, Index(l, wc), g, user), places[g := ChildPlace(places[f], Index(l, wc))])
    ensures Frames(t, Install(t, f, Index(l, wc), g, user), places, places[g := ChildPlace(places[f], Index(l, wc))],
                   l, places[f].owner, wc, wn)
  {
    SlotMonotone(l, wc, wn - 1);
    assert Touched(places[f], Index(l, wc), l, places[f].owner, wc, wn);
  }

  lemma BlankBelow(t1: Tables, f: nat, l: nat, g: nat, w: nat)
    requires f in t1 && |t1[f]| == FANOUT && 2 <= l <= 4 && g in t1 && t1[g] == BlankTable()
    requires var e := t1[f][Index(l, w)]; e.present && !e.size && e.address == g
    ensures Translate(t1, f, l, w).None?
  {
    assert !t1[g][Index(l - 1, w)].present;
  }

  /** Setting the user bit of an entry for a table keeps every translation. */
  lemma MarkStep(t: Tables, places: Places, f: nat, l: nat, wc: nat, wn: nat, user: bool)
    requires Linked(t, places) && f in t && places[f].level == l && 2 <= l <= 4
    requires wc < wn && Slot(l + 1, wc) == places[f].slot
    requires var e := t[f][Index(l, wc)]; e.present && !e.size
    ensures var i := Index(l, wc);
            var e := t[f][i];
            var t1 := Write(t, f, i, e.(user := e.user || user));
            && Linked(t1, places)
            && Frames(t, t1, places, places, l, places[f].owner, wc, wn)
            && Opened(t1, places, f, i, e.address, user)
            && Keeps(t, t1, f, l, places[f].slot, user)
  {
    var i := Index(l, wc);
    var e := t[f][i];
    var e1 := e.(user := e.user || user);
    var t1 := Write(t, f, i, e1);
    assert EntryLinked(t, places, f, i);
    WriteLinked(t, places, f, i, e1);
    WriteFrames(t, t1, places, f, l, i, e1, wc, wn);
    WriteFrames(t, t1, places, f, l, i, e1, wc, wc + 1);
    forall w | 0 <= w < Span(5) && Slot(l + 1, w) == places[f].slot
      ensures Kept(Translate(t, f, l, w), Translate(t1, f, l, w), user)
    {
      MarkKeeps(t, t1, places, f, l, wc, user, w);
    }
  }

  lemma MarkKeeps(t: Tables, t1: Tables, places: Places, f: nat, l: nat, wc: nat, user: bool, w: nat)
    requires Linked(t, places) && f in t && places[f].level == l && 2 <= l <= 4
    requires Slot(l + 1, wc) == places[f].slot && w < Span(5) && Slot(l + 1, w) == places[f].slot
    requires var e := t[f][Index(l, wc)];
             e.present && !e.size && t1 == Write(t, f, Index(l, wc), e.(user := e.user || user))
    requires Linked(t1, places) && Frames(t, t1, places, places, l, places[f].owner, wc, wc + 1)
    ensures Kept(Translate(t, f, l, w), Translate(t1, f, l, w), user)
  {
    hide Slot, Offset, Span, Frames;
    SameEntry(l, wc, w);
    if Slot(l, w) != Slot(l, wc) {
      WalkElsewhere(t, t1, places, places, l, places[f].owner, wc, wc + 1, f, l, l, w);
    } else {
      var e := t[f][Index(l, w)];
      assert EntryLinked(t, places, f, Index(l, w));
      SameBelowLevel(t, t1, places, f, e.address, l, l - 1, w);
    }
  }

  /** Rewriting an entry of `f` does not change what a table at a lower level translates. */
  lemma {:induction false} SameBelowLevel(t: Tables, t1: Tables, places: Places, f: nat, c: nat, l: nat, k: nat, w: nat)
    requires Linked(t, places) && Linked(t1, places) && f in t && c in t
    requires places[f].level == l && places[c].level == k && 1 <= k < l <= 4
    requires forall g :: g in t && g != f ==> t1[g] == t[g]
    ensures Translate(t1, c, k, w) == Translate(t, c, k, w)
    decreases k
  {
    var e := t[c][Index(k, w)];
    assert t1[c] == t[c];
    assert EntryLinked(t, places, c, Index(k, w));
    if e.present && k > 1 && !e.size {
      SameBelowLevel(t, t1, places, f, e.address, l, k - 1, w);
    }
  }

  // ---------------------------------------------------------------------------------------
  // Putting the steps together

  /** What the table below an entry came to map, the table of the entry came to map. */
  lemma ThroughChild(t1: Tables, t2: Tables, places1: Places, places2: Places,
                     f: nat, l: nat, c: nat, wc: nat, wn: nat, p: nat, user: bool, lowest: nat)
    requires Linked(t1, places1) && Linked(t2, places2) && f in t1 && places1[f].level == l && 2 <= l <= 4
    requires wc < wn <= Span(5) && Slot(l + 1, wc) == places1[f].slot && Slot(l, wn - 1) == Slot(l, wc)
    requires Opened(t1, places1, f, Index(l, wc), c, user)
    requires Frames(t1, t2, places1, places2, l - 1, places1[c].owner, wc, wn)
    requires Maps(t1, t2, c, l - 1, Slot(l, wc), wc, wn, p, user, lowest)
    ensures Frames(t1, t2, places1, places2, l, places1[f].owner, wc, wn)
    ensures Maps(t1, t2, f, l, places1[f].slot, wc, wn, p, user, lowest)
  {
    assert forall g, i: nat :: g in t1 && i < FANOUT && Touched(places1[g], i, l - 1, places1[c].owner, wc, wn) ==>
        Touched(places1[g], i, l, places1[f].owner, wc, wn);
    assert !Touched(places1[f], Index(l, wc), l - 1, places1[c].owner, wc, wn);
    assert t2[f][Index(l, wc)] == t1[f][Index(l, wc)];
    forall w | 0 <= w < Span(5) && Slot(l + 1, w) == places1[f].slot
      ensures if wc <= w < wn then Hit(Translate(t2, f, l, w), MappedFrame(l, wc, p, w) % FRAME_NUMBERS, user, lowest)
              else Kept(Translate(t1, f, l, w), Translate(t2, f, l, w), user)
    {
      ThroughChildAt(t1, t2, places1, places2, f, l, c, wc, wn, p, user, lowest, w);
    }
  }

  lemma TableSize(t: Tables, places: Places, f: nat)
    requires Linked(t, places) && f in t
    ensures |t[f]| == FANOUT
  {
  }

  lemma ThroughChildAt(t1: Tables, t2: Tables, places1: Places, places2: Places,
                       f: nat, l: nat, c: nat, wc: nat, wn: nat, p: nat, user: bool, lowest: nat, w: nat)
    requires Linked(t1, places1) && Linked(t2, places2) && f in t1 && places1[f].level == l && 2 <= l <= 4
    requires wc < wn <= Span(5) && Slot(l + 1, wc) == places1[f].slot && Slot(l, wn - 1) == Slot(l, wc)
    requires Opened(t1, places1, f, Index(l, wc), c, user) && f in t2 && t2[f][Index(l, wc)] == t1[f][Index(l, wc)]
    requires Frames(t1, t2, places1, places2, l - 1, places1[c].owner, wc, wn)
    requires Maps(t1, t2, c, l - 1, Slot(l, wc), wc, wn, p, user, lowest)
    requires w < Span(5) && Slot(l + 1, w) == places1[f].slot
    ensures if wc <= w < wn then Hit(Translate(t2, f, l, w), MappedFrame(l, wc, p, w) % FRAME_NUMBERS, user, lowest)
            else Kept(Translate(t1, f, l, w), Translate(t2, f, l, w), user)
  {
    hide Slot, Offset, Span, Linked, Frames;
    TableSize(t1, places1, f);
    TableSize(t2, places2, f);
    SameEntry(l, wc, w);
    if wc <= w < wn {
      SlotMonotone(l, wc, w);
      SlotMonotone(l, w, wn - 1);
    }
    if Slot(l, w) == Slot(l, wc) {
      var a, b := Translate(t1, c, l - 1, w), Translate(t2, c, l - 1, w);
      assert Kept(a, b, user) || Hit(b, MappedFrame(l - 1, wc, p, w) % FRAME_NUMBERS, user, lowest);
    } else {
      WalkElsewhere(t1, t2, places1, places2, l - 1, places1[c].owner, wc, wn, f, l, l, w);
    }
  }

  lemma KeptTransitive(a: Option<Leaf>, b: Option<Leaf>, c: Option<Leaf>, user: bool)
    requires Kept(a, b, user) && Kept(b, c, user)
    ensures Kept(a, c, user)
  {
  }

  /** Opening the entry and mapping below it, as one step. */
  lemma MapsAfterOpen(t: Tables, t1: Tables, t2: Tables, f: nat, l: nat, slot: nat, wc: nat, wn: nat, p: nat, user: bool, lowest: nat)
    requires 1 <= l <= 4
    requires Keeps(t, t1, f, l, slot, user) && Maps(t1, t2, f, l, slot, wc, wn, p, user, lowest)
    ensures Maps(t, t2, f, l, slot, wc, wn, p, user, lowest)
  {
    forall w | 0 <= w < Span(5) && Slot(l + 1, w) == slot
      ensures if wc <= w < wn then Hit(Translate(t2, f, l, w), MappedFrame(l, wc, p, w) % FRAME_NUMBERS, user, lowest)
              else Kept(Translate(t, f, l, w), Translate(t2, f, l, w), user)
    {
      assert Kept(Translate(t, f, l, w), Translate(t1, f, l, w), user);
    }
  }

  /** The frames of a chunk, seen from the start of the loop. */
  lemma ChunkFrame(l: nat, ws: nat, p: nat, wc: nat, w: nat)
    requires 1 <= l <= 4 && ws <= wc <= w && Slot(l, wc) == Slot(l, w)
    requires wc == ws || (Offset(l, wc) == 0 && Slot(l, ws) != Slot(l, wc))
    ensures MappedFrame(l, wc, PhysAt(l, ws, p, wc), w) % FRAME_NUMBERS == MappedFrame(l, ws, p, w) % FRAME_NUMBERS
  {
    if wc != ws {
      var x := AlignDown(l, p) + (wc - AlignDown(l, ws));
      AlignedSum(l, p, ws, wc);
      WrapAligned(l, x);
      if l > 1 { CongruentFrame(l - 1, wc, Wrap(x), w); }
      WrapTwice(x, w - wc);
    }
  }

  /** Aligned starts differ by whole slots. */
  lemma AlignedSum(l: nat, p: nat, ws: nat, wc: nat)
    requires 1 <= l && ws <= wc && Offset(l, wc) == 0
    ensures Offset(l, AlignDown(l, p) + (wc - AlignDown(l, ws))) == 0
  {
    SlotOffset(l, p);
    SlotOffset(l, ws);
    SlotOffset(l, wc);
    SlotMonotone(l, ws, wc);
    var q := Slot(l, p) + (Slot(l, wc) - Slot(l, ws));
    Distribute(Slot(l, p), Slot(l, wc), Slot(l, ws), Span(l));
    SlotOfMultiple(l, q, 0);
  }

  lemma Distribute(a: nat, b: nat, c: nat, s: nat)
    requires c <= b
    ensures (a + (b - c)) * s == a * s + (b * s - c * s)
  {
  }

  /** Wrapping an address keeps its alignment. */
  lemma WrapAligned(l: nat, x: nat)
    requires 1 <= l <= 4 && Offset(l, x) == 0
    ensures Offset(l, Wrap(x)) == 0
  {
    if x >= ADDRESS_PAGES {
      var n := AddressSlots(l);
      SlotOffset(l, x);
      WholeDifference(Slot(l, x), n, Span(l));
      SlotOfMultiple(l, Slot(l, x) - n, 0);
    }
  }

  lemma WholeDifference(a: nat, n: nat, s: nat)
    requires a * s >= n * s && s > 0
    ensures a >= n && (a - n) * s == a * s - n * s
  {
    if a < n { ProductMonotone(a + 1, n, s); }
  }

  lemma WrapTwice(x: nat, off: nat)
    ensures (Wrap(x) + off) % FRAME_NUMBERS == (x + off) % FRAME_NUMBERS
  {
    assert ADDRESS_PAGES == 0x1000 * FRAME_NUMBERS;
  }

  /** The loop so far and its next chunk. */
  lemma MapsExtend(t0: Tables, t1: Tables, t2: Tables, f: nat, l: nat, slot: nat,
                   ws: nat, wc: nat, wn: nat, p: nat, user: bool, lowest: nat)
    requires 1 <= l <= 4 && ws <= wc < wn && Slot(l, wn - 1) == Slot(l, wc)
    requires wc == ws || (Offset(l, wc) == 0 && Slot(l, ws) != Slot(l, wc))
    requires Maps(t0, t1, f, l, slot, ws, wc, p, user, lowest)
    requires Maps(t1, t2, f, l, slot, wc, wn, PhysAt(l, ws, p, wc), user, lowest)
    ensures Maps(t0, t2, f, l, slot, ws, wn, p, user, lowest)
  {
    forall w | 0 <= w < Span(5) && Slot(l + 1, w) == slot
      ensures if ws <= w < wn then Hit(Translate(t2, f, l, w), MappedFrame(l, ws, p, w) % FRAME_NUMBERS, user, lowest)
              else Kept(Translate(t0, f, l, w), Translate(t2, f, l, w), user)
    {
      assert wc <= w < wn || Kept(Translate(t1, f, l, w), Translate(t2, f, l, w), user);
      if wc <= w < wn {
        SlotMonotone(l, wc, w);
        SlotMonotone(l, w, wn - 1);
        ChunkFrame(l, ws, p, wc, w);
      } else if ws <= w < wc {
        assert Hit(Translate(t1, f, l, w), MappedFrame(l, ws, p, w) % FRAME_NUMBERS, user, lowest);
      }
    }
  }
}
