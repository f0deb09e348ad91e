/** Four-level page tables in physical memory.

    A table is 512 entries stored in one physical frame, and an entry names the frame of the
    next table, so address spaces that share a table hold the same frame number. Virtual pages
    are 36-bit numbers: the part of an address that translation looks at. */
module PageTables {
  import opened Basics
  import opened Levels

  /** `size` marks an entry above level 1 that maps a large frame rather than a table. */
  datatype Entry = Entry(present: bool, user: bool, size: bool, address: nat)

  const BLANK := Entry(false, false, false, 0)

  function BlankTable(): seq<Entry> {
    seq(FANOUT, _ => BLANK)
  }

  /** The tables in physical memory, by the frame that holds them. */
  type Tables = map<nat, seq<Entry>>

  /** What a page translates to: its frame, the level of the entry that maps it, the user bit of
      that entry, and whether the user bit is set on every entry above it. */
  datatype Leaf = Leaf(frame: nat, level: nat, user: bool, pathUser: bool)

  function Index(l: nat, w: nat): nat
    requires 1 <= l <= 4
  {
    Slot(l, w) % FANOUT
  }

  /** The walk the processor makes from table `t` at level `l`. */
  function Translate(tables: Tables, t: nat, l: nat, w: nat): Option<Leaf>
    requires 1 <= l <= 4
    decreases l
  {
    if t !in tables || |tables[t]| != FANOUT then None
    else
      var e := tables[t][Index(l, w)];
      if !e.present then None
      else if l == 1 then Some(Leaf(e.address, 1, e.user, true))
      else if e.size then Some(Leaf(AlignDown(l, e.address) + Offset(l, w), l, e.user, true))
      else
        match Translate(tables, e.address, l - 1, w)
        case None => None
        case Some(leaf) => Some(leaf.(pathUser := leaf.pathUser && e.user))
  }

  // ---------------------------------------------------------------------------------------
  // Where tables are

  /** Whose pages a table maps: one address space's, or, in the upper half, everybody's. */
  datatype Owner = Private(root: nat) | Shared

  /** The level of a table and the slot of the next level that it covers. */
  datatype Place = Place(level: nat, slot: nat, owner: Owner)

  type Places = map<nat, Place>

  function ChildPlace(p: Place, i: nat): Place
    requires p.level > 0
  {
    Place(p.level - 1, p.slot * FANOUT + i, if p.level == 4 && i >= FANOUT / 2 then Shared else p.owner)
  }

  /** Slots of the upper half, that is, below level-4 entries 256 and up. */
  predicate Upper(l: nat, slot: nat)
    requires 1 <= l <= 4
    decreases 4 - l
  {
    if l == 4 then slot >= FANOUT / 2 else Upper(l + 1, slot / FANOUT)
  }

  lemma {:induction false} UpperSlot(l: nat, w: nat)
    requires 1 <= l <= 4
    ensures Upper(l, Slot(l, w)) <==> Slot(4, w) >= FANOUT / 2
    decreases 4 - l
  {
    if l < 4 { UpperSlot(l + 1, w); }
  }

  predicate PlaceOk(f: nat, p: Place) {
    && 1 <= p.level <= 4
    && (if p.level == 4 then p.slot == 0 && p.owner == Private(f)
        else p.owner.Shared? <==> Upper(p.level + 1, p.slot))
  }

  /** Table `h` is where entry `i` of table `f` would lead. */
  predicate Below(places: Places, f: nat, i: nat, h: nat) {
    f in places && h in places && places[f].level > 1 && places[h] == ChildPlace(places[f], i)
  }

  /** A table is a root, or some table leads to it. */
  ghost predicate HasParent(places: Places, h: nat)
    requires h in places
  {
    places[h].level == 4 || exists f, i: nat :: i < FANOUT && Below(places, f, i, h)
  }

  predicate SamePlace(places: Places, f: nat, g: nat) {
    f in places && g in places && places[f] == places[g]
  }

  /** The entry at index `i` of table `f` and the places agree: a present entry for a table
      names the table at the place below, and if there is a table at that place it is named. */
  ghost predicate EntryLinked(tables: Tables, places: Places, f: nat, i: nat)
    requires f in tables && f in places && |tables[f]| == FANOUT && i < FANOUT
  {
    var e := tables[f][i];
    && (places[f].level == 4 || places[f].level == 1 || !e.present ==> !e.size)
    && (e.present && places[f].level > 1 && !e.size ==> Below(places, f, i, e.address))
    && (forall h {:trigger Below(places, f, i, h)} :: Below(places, f, i, h) ==>
          e.present && !e.size && e.address == h)
  }

  /** Every table has one place, no two share a place, and entries and places agree. */
  ghost predicate Linked(tables: Tables, places: Places) {
    && tables.Keys == places.Keys
    && (forall f :: f in tables ==> |tables[f]| == FANOUT)
    && (forall f {:trigger PlaceOk(f, places[f])} :: f in places ==> PlaceOk(f, places[f]))
    && (forall f {:trigger HasParent(places, f)} :: f in places ==> HasParent(places, f))
    && (forall f, g {:trigger SamePlace(places, f, g)} :: SamePlace(places, f, g) ==> f == g)
    && (forall f, i: nat {:trigger EntryLinked(tables, places, f, i)} ::
          f in tables && i < FANOUT ==> EntryLinked(tables, places, f, i))
  }

  // ---------------------------------------------------------------------------------------
  // What an update can reach

  /** The place the walk for `w` visits at level `k`, starting from a table at `p`. */
  function PathPlace(p: Place, k: nat, w: nat): Place
    requires 1 <= k <= 4
  {
    Place(k, Slot(k + 1, w), if p.level == 4 && k < 4 && Slot(4, w) >= FANOUT / 2 then Shared else p.owner)
  }

  /** The entries an update of pages `ws..we` of owner `o` from a table at level `top` may write. */
  predicate Touched(p: Place, i: nat, top: nat, o: Owner, ws: nat, we: nat) {
    && ws < we
    && 1 <= p.level <= top
    && (p.owner == o || p.owner == Shared)
    && Slot(p.level, ws) <= p.slot * FANOUT + i <= Slot(p.level, we - 1)
  }

  /** From `t0` to `t1` tables were added and only touched entries of old tables changed. */
  ghost predicate Frames(t0: Tables, t1: Tables, places0: Places, places1: Places,
                         top: nat, o: Owner, ws: nat, we: nat)
    requires Linked(t0, places0) && Linked(t1, places1)
  {
    && (forall f :: f in places0 ==> f in places1 && places1[f] == places0[f])
    && (forall f, i: nat {:trigger t1[f][i]} :: f in t0 && i < FANOUT && !Touched(places0[f], i, top, o, ws, we) ==>
          t1[f][i] == t0[f][i])
  }

  lemma PathStep(p: Place, w: nat)
    requires 2 <= p.level <= 4 && w < Span(5) && p.slot == Slot(p.level + 1, w)
    requires p.level < 4 ==> (p.owner.Shared? <==> Upper(p.level + 1, p.slot))
    ensures ChildPlace(p, Index(p.level, w)) == PathPlace(p, p.level - 1, w)
    ensures forall k: nat :: 1 <= k < p.level ==>
              PathPlace(ChildPlace(p, Index(p.level, w)), k, w) == PathPlace(p, k, w)
  {
    if p.level < 4 { UpperSlot(p.level + 1, w); }
    OneTop(w);

  }

  /** A walk that meets no touched entry is the same before and after. */
  lemma {:induction false} WalkFrames(t0: Tables, t1: Tables, places0: Places, places1: Places,
                                      top: nat, o: Owner, ws: nat, we: nat, g: nat, l: nat, w: nat)
    requires Linked(t0, places0) && Linked(t1, places1)
    requires Frames(t0, t1, places0, places1, top, o, ws, we)
    requires g in t0 && 1 <= l <= 4 && w < Span(5)
    requires places0[g].level == l && places0[g].slot == Slot(l + 1, w)
    requires forall k: nat :: 1 <= k <= l ==>
               !Touched(PathPlace(places0[g], k, w), Index(k, w), top, o, ws, we)
    ensures Translate(t1, g, l, w) == Translate(t0, g, l, w)
    decreases l
  {
    var p := places0[g];
    var i := Index(l, w);
    assert PlaceOk(g, p);
    assert PathPlace(p, l, w) == p;
    assert t1[g][i] == t0[g][i];
    var e := t0[g][i];
    assert EntryLinked(t0, places0, g, i);
    if e.present && l > 1 && !e.size {
      PathStep(p, w);
      WalkFrames(t0, t1, places0, places1, top, o, ws, we, e.address, l - 1, w);
    }
  }

  /** Walks outside the slot of level `m` being updated are the same before and after. */
  lemma WalkElsewhere(t0: Tables, t1: Tables, places0: Places, places1: Places,
                      top: nat, o: Owner, ws: nat, we: nat, g: nat, l: nat, m: nat, w: nat)
    requires Linked(t0, places0) && Linked(t1, places1)
    requires Frames(t0, t1, places0, places1, top, o, ws, we)
    requires g in t0 && 1 <= l <= 4 && w < Span(5)
    requires places0[g].level == l && places0[g].slot == Slot(l + 1, w)
    requires l <= m && ws < we && (Slot(m, w) < Slot(m, ws) || Slot(m, we - 1) < Slot(m, w))
    ensures Translate(t1, g, l, w) == Translate(t0, g, l, w)
  {
    forall k: nat | 1 <= k <= l
      ensures !Touched(PathPlace(places0[g], k, w), Index(k, w), top, o, ws, we)
    {
      if Slot(m, w) < Slot(m, ws) {
        SlotsStayApart(k, m, w, ws);
      } else {
        SlotsStayApart(k, m, we - 1, w);
      }
    }
    WalkFrames(t0, t1, places0, places1, top, o, ws, we, g, l, w);
  }

  lemma FramesCompose(t0: Tables, t1: Tables, t2: Tables, places0: Places, places1: Places, places2: Places,
                      top: nat, o: Owner, ws: nat, wm: nat, we: nat)
    requires Linked(t0, places0) && Linked(t1, places1) && Linked(t2, places2)
    requires ws <= wm < we
    requires Frames(t0, t1, places0, places1, top, o, ws, wm)
    requires Frames(t1, t2, places1, places2, top, o, wm, we)
    ensures Frames(t0, t2, places0, places2, top, o, ws, we)
  {
    forall f, i: nat | f in t0 && i < FANOUT && !Touched(places0[f], i, top, o, ws, we)
      ensures t2[f][i] == t0[f][i]
    {
      var l := places0[f].level;
      assert PlaceOk(f, places0[f]);
      SlotMonotone(l, ws, wm);
      if ws < wm { SlotMonotone(l, wm - 1, we - 1); }
      assert !Touched(places0[f], i, top, o, ws, wm);
      assert !Touched(places1[f], i, top, o, wm, we);
      assert t1[f][i] == t0[f][i];
    }
  }
}
