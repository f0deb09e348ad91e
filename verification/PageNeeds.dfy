/** Which tables the mapping of a range of pages needs, and what stands in its way. */
module PageNeeds {
  import opened Levels
  import opened PageTables
  import Pmm

  /** Place `q` is on the way from a table at `p` to the entries of level `lowest` of the pages `ws..we`. */
  ghost predicate Needed(p: Place, lowest: nat, ws: nat, we: nat, q: Place) {
    exists k: nat, w: nat :: 1 <= k <= 4 && lowest <= k < p.level && ws <= w < we && q == PathPlace(p, k, w)
  }

  ghost predicate HasTable(places: Places, q: Place) {
    exists h :: h in places && places[h] == q
  }

  /** From `places0` to `places1` only tables were added that the pages `ws..we` need. */
  ghost predicate Adds(places0: Places, places1: Places, p: Place, lowest: nat, ws: nat, we: nat) {
    && (forall h :: h in places0 ==> h in places1 && places1[h] == places0[h])
    && (forall h :: h in places1 && h !in places0 ==> Needed(p, lowest, ws, we, places1[h]))
  }

  /** A table that the pages `ws..we` need is missing. */
  ghost predicate Short(places: Places, p: Place, lowest: nat, ws: nat, we: nat) {
    exists k: nat, w: nat ::
      1 <= k <= 4 && lowest <= k < p.level && ws <= w < we && !HasTable(places, PathPlace(p, k, w))
  }

  /** There is a table below the entry of level `lowest` of page `w`. */
  ghost predicate Split(places: Places, p: Place, lowest: nat, w: nat) {
    2 <= lowest <= 4 && HasTable(places, PathPlace(p, lowest - 1, w))
  }

  /** Page `w` cannot be mapped by an entry of level `lowest`: it is mapped by an entry above that, which is `large`, or
      it is mapped by one of that level or below, or the entry of that level leads to a table. */
  ghost predicate Blocked(t: Tables, places: Places, f: nat, l: nat, lowest: nat, w: nat, large: bool)
    requires 1 <= l <= 4
  {
    var o := Translate(t, f, l, w);
    if large then o.Some? && o.value.level > lowest
    else (o.Some? && o.value.level <= lowest) || (f in places && Split(places, places[f], lowest, w))
  }

  ghost predicate AnyBlocked(t: Tables, places: Places, f: nat, l: nat, lowest: nat, ws: nat, we: nat, large: bool)
    requires 1 <= l <= 4
  {
    exists w: nat :: ws <= w < we && Blocked(t, places, f, l, lowest, w, large)
  }

  lemma AddsNothing(places: Places, p: Place, lowest: nat, ws: nat, we: nat)
    ensures Adds(places, places, p, lowest, ws, we)
  {
  }

  lemma AddsKeep(places0: Places, places1: Places, p: Place, lowest: nat, ws: nat, we: nat, f: nat)
    requires Adds(places0, places1, p, lowest, ws, we) && f in places0
    ensures f in places1 && places1[f] == places0[f]
  {
  }

  lemma AddsWider(places0: Places, places1: Places, p: Place, lowest: nat, ws: nat, we: nat,
                  lowest': nat, ws': nat, we': nat)
    requires Adds(places0, places1, p, lowest, ws, we) && lowest' <= lowest && ws' <= ws && we <= we'
    ensures Adds(places0, places1, p, lowest', ws', we')
  {
    forall h | h in places1 && h !in places0
      ensures Needed(p, lowest', ws', we', places1[h])
    {
      var k: nat, w: nat :| 1 <= k <= 4 && lowest <= k < p.level && ws <= w < we && places1[h] == PathPlace(p, k, w);
      assert ws' <= w < we';
    }
  }

  lemma AddsMore(places0: Places, places1: Places, places2: Places, p: Place, lowest: nat, ws: nat, we: nat)
    requires Adds(places0, places1, p, lowest, ws, we) && Adds(places1, places2, p, lowest, ws, we)
    ensures Adds(places0, places2, p, lowest, ws, we)
  {
  }

  lemma ShortWider(places: Places, p: Place, lowest: nat, ws: nat, we: nat, lowest': nat, ws': nat, we': nat)
    requires Short(places, p, lowest, ws, we) && lowest' <= lowest && ws' <= ws && we <= we'
    ensures Short(places, p, lowest', ws', we')
  {
    var k: nat, w: nat :|
      1 <= k <= 4 && lowest <= k < p.level && ws <= w < we && !HasTable(places, PathPlace(p, k, w));
    assert ws' <= w < we';
  }

  /** The pages `ws..we` lie below one entry of the table at `p`. */
  ghost predicate InEntry(p: Place, ws: nat, we: nat) {
    && 2 <= p.level <= 4 && ws < we <= Span(5) && p.slot == Slot(p.level + 1, ws)
    && Slot(p.level, we - 1) == Slot(p.level, ws)
    && (p.level < 4 ==> (p.owner.Shared? <==> Upper(p.level + 1, p.slot)))
  }

  /** Seen from the table and from the table below, the way to a page is the same. */
  lemma SameWay(p: Place, ws: nat, we: nat, w: nat)
    requires InEntry(p, ws, we) && ws <= w < we
    ensures var c := ChildPlace(p, Index(p.level, ws));
            && c == PathPlace(p, p.level - 1, w)
            && forall k: nat :: 1 <= k < p.level ==> PathPlace(c, k, w) == PathPlace(p, k, w)
  {
    SlotMonotone(p.level, ws, w);
    SlotMonotone(p.level, w, we - 1);
    PathStep(p, w);
  }

  lemma AddsBelow(places0: Places, places1: Places, p: Place, lowest: nat, ws: nat, we: nat)
    requires InEntry(p, ws, we) && Adds(places0, places1, ChildPlace(p, Index(p.level, ws)), lowest, ws, we)
    ensures Adds(places0, places1, p, lowest, ws, we)
  {
    var c := ChildPlace(p, Index(p.level, ws));
    forall h | h in places1 && h !in places0
      ensures Needed(p, lowest, ws, we, places1[h])
    {
      var k: nat, w: nat :| 1 <= k <= 4 && lowest <= k < c.level && ws <= w < we && places1[h] == PathPlace(c, k, w);
      SameWay(p, ws, we, w);
    }
  }

  lemma ShortBelow(places: Places, p: Place, lowest: nat, ws: nat, we: nat)
    requires InEntry(p, ws, we) && Short(places, ChildPlace(p, Index(p.level, ws)), lowest, ws, we)
    ensures Short(places, p, lowest, ws, we)
  {
    var c := ChildPlace(p, Index(p.level, ws));
    var k: nat, w: nat :|
      1 <= k <= 4 && lowest <= k < c.level && ws <= w < we && !HasTable(places, PathPlace(c, k, w));
    SameWay(p, ws, we, w);
  }

  /** An absent entry is a missing table. */
  lemma AbsentShort(t: Tables, places: Places, f: nat, ws: nat, we: nat)
    requires Linked(t, places) && f in t && InEntry(places[f], ws, we) && !t[f][Index(places[f].level, ws)].present
    ensures Short(places, places[f], places[f].level - 1, ws, we)
  {
    var p, i := places[f], Index(places[f].level, ws);
    SameWay(p, ws, we, ws);
    assert EntryLinked(t, places, f, i);
    assert forall h :: h in places && places[h] == ChildPlace(p, i) ==> Below(places, f, i, h);
    assert !HasTable(places, PathPlace(p, p.level - 1, ws));
  }

  /** A table put below the entry is one the pages need. */
  lemma InstallAdds(places: Places, f: nat, g: nat, ws: nat, we: nat)
    requires f in places && g !in places && InEntry(places[f], ws, we)
    ensures Adds(places, places[g := ChildPlace(places[f], Index(places[f].level, ws))], places[f], places[f].level - 1, ws, we)
  {
    SameWay(places[f], ws, we, ws);
  }

  /** In a table above the lowest level, the entry of a page is split exactly if it leads to a table. */
  lemma SplitEntry(t: Tables, places: Places, f: nat, ws: nat, we: nat, w: nat)
    requires Linked(t, places) && f in t && InEntry(places[f], ws, we) && ws <= w < we
    ensures var p, e := places[f], t[f][Index(places[f].level, ws)];
            Split(places, p, p.level, w) <==> e.present && !e.size
  {
    var p, i := places[f], Index(places[f].level, ws);
    SameWay(p, ws, we, w);
    assert EntryLinked(t, places, f, i);
    assert forall h :: h in places && places[h] == ChildPlace(p, i) ==> Below(places, f, i, h);
    if t[f][i].present && !t[f][i].size {
      assert Below(places, f, i, t[f][i].address);
    }
  }

  /** Tables that the entries of level `lowest` need split none of them. */
  lemma AddsNoSplit(places0: Places, places1: Places, p: Place, lowest: nat, ws: nat, we: nat, q: Place, w: nat)
    requires Adds(places0, places1, p, lowest, ws, we)
    ensures Split(places1, q, lowest, w) <==> Split(places0, q, lowest, w)
  {
    if Split(places1, q, lowest, w) {
      var h :| h in places1 && places1[h] == PathPlace(q, lowest - 1, w);
      assert h in places0;
    }
  }

  lemma SameSplit(places: Places, p: Place, lowest: nat, ws: nat, we: nat, w: nat)
    requires InEntry(p, ws, we) && ws <= w < we && lowest < p.level
    ensures Split(places, ChildPlace(p, Index(p.level, ws)), lowest, w) <==> Split(places, p, lowest, w)
  {
    SameWay(p, ws, we, w);
  }

  // ---------------------------------------------------------------------------------------
  // User bits

  /** Unless the mapping is for user pages, no entry gained the user bit. */
  ghost predicate Discreet(t0: Tables, t1: Tables, user: bool) {
    !user ==> forall f, i: nat {:trigger t1[f][i]} ::
      f in t1 && i < |t1[f]| && t1[f][i].user ==> f in t0 && i < |t0[f]| && t0[f][i].user
  }

  lemma DiscreetTwice(t0: Tables, t1: Tables, t2: Tables, user: bool)
    requires Discreet(t0, t1, user) && Discreet(t1, t2, user)
    ensures Discreet(t0, t2, user)
  {
    if !user {
      forall f, i: nat | f in t2 && i < |t2[f]| && t2[f][i].user
        ensures f in t0 && i < |t0[f]| && t0[f][i].user
      {
        assert f in t1 && i < |t1[f]| && t1[f][i].user;
      }
    }
  }

  lemma DiscreetSame(t: Tables, user: bool)
    ensures Discreet(t, t, user)
  {
  }

  // ---------------------------------------------------------------------------------------
  // The frames of the tables

  /** The frames of the tables that are in `t1` and not in `t0`. */
  ghost function NewTables(t0: Tables, t1: Tables): set<Pmm.Frame> {
    set f | f in t1 && f !in t0 :: Pmm.Frame(0, f)
  }

  lemma NewTablesPage(t0: Tables, t1: Tables, p: nat)
    ensures Pmm.HeldPage(NewTables(t0, t1), p) <==> p in t1 && p !in t0
  {
    if p in t1 && p !in t0 {
      assert Pmm.Frame(0, p) in NewTables(t0, t1) && Pmm.Holds(Pmm.Frame(0, p), p);
    }
  }

  /** From `free` to `free'` the frames of the new tables were taken, and no others. */
  ghost predicate TablesTook(free: Pmm.Stacks, held: set<Pmm.Frame>, t: Tables, free': Pmm.Stacks, held': set<Pmm.Frame>, t': Tables) {
    t.Keys <= t'.Keys && Pmm.Took(free, held, NewTables(t, t'), free', held')
  }

  lemma TablesTookPages(free: Pmm.Stacks, held: set<Pmm.Frame>, t: Tables, free': Pmm.Stacks, held': set<Pmm.Frame>, t': Tables)
    requires TablesTook(free, held, t, free', held', t')
    ensures held <= held'
    ensures forall p: nat :: Pmm.FreePage(free, p) <==> Pmm.FreePage(free', p) || (p in t' && p !in t)
  {
    forall p: nat
      ensures Pmm.FreePage(free, p) <==> Pmm.FreePage(free', p) || (p in t' && p !in t)
    {
      NewTablesPage(t, t', p);
    }
  }

  lemma TablesTookNone(free: Pmm.Stacks, held: set<Pmm.Frame>, t: Tables, t': Tables)
    requires t'.Keys == t.Keys
    ensures TablesTook(free, held, t, free, held, t')
  {
    assert NewTables(t, t') == {};
  }

  lemma TablesTookOne(free: Pmm.Stacks, held: set<Pmm.Frame>, t: Tables, free': Pmm.Stacks, g: nat, t': Tables)
    requires g !in t && t'.Keys == t.Keys + {g} && Pmm.HandsOut(free, held, Pmm.Frame(0, g), free')
    ensures TablesTook(free, held, t, free', held + {Pmm.Frame(0, g)}, t')
  {
    NewTablesOne(t, t', g);
    Pmm.TookNothing(free, held);
    Pmm.TookMore(free, held, {}, free, held, Pmm.Frame(0, g), free');
    assert {} + {Pmm.Frame(0, g)} == NewTables(t, t');
  }

  lemma TablesTookBoth(free0: Pmm.Stacks, held0: set<Pmm.Frame>, t0: Tables, free1: Pmm.Stacks, held1: set<Pmm.Frame>, t1: Tables,
                       free2: Pmm.Stacks, held2: set<Pmm.Frame>, t2: Tables)
    requires TablesTook(free0, held0, t0, free1, held1, t1) && TablesTook(free1, held1, t1, free2, held2, t2)
    ensures TablesTook(free0, held0, t0, free2, held2, t2)
  {
    NewTablesSplit(t0, t1, t2);
    Pmm.TookBoth(free0, held0, NewTables(t0, t1), free1, held1, NewTables(t1, t2), free2, held2);
  }

  lemma NewTablesSplit(t0: Tables, t1: Tables, t2: Tables)
    requires t0.Keys <= t1.Keys <= t2.Keys
    ensures NewTables(t0, t2) == NewTables(t0, t1) + NewTables(t1, t2)
  {
  }

  lemma NewTablesOne(t: Tables, t1: Tables, g: nat)
    requires g !in t && t1.Keys == t.Keys + {g}
    ensures NewTables(t, t1) == {Pmm.Frame(0, g)}
  {
  }
}
