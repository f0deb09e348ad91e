/** Creating an address space that shares the upper half of the current one. */
module VmClone {
  import opened Basics
  import opened Levels
  import opened PageTables
  import opened PageMapping
  import opened PageNeeds
  import opened Translation
  import opened Vm
  import Pmm

  /** The first page of level-4 entry `i`. */
  function EntryPage(i: nat): nat {
    i * Span(4)
  }

  lemma EntryPageIs(i: nat)
    requires i < FANOUT
    ensures EntryPage(i) < Span(5) && Index(4, EntryPage(i)) == i && Slot(5, EntryPage(i)) == 0
  {
    LastPart(i, FANOUT, Span(4), 0);
    SlotOfMultiple(4, i, 0);
    OneTop(EntryPage(i));
  }

  /** The only tables added are those right below the entries of the upper half of `cur`. */
  ghost predicate AddsUpper(places0: Places, places1: Places, cur: nat) {
    cur in places0 && Adds(places0, places1, places0[cur], 3, EntryPage(FANOUT / 2), Span(5))
  }

  lemma EntryAddsUpper(places0: Places, places1: Places, cur: nat, i: nat)
    requires cur in places0 && FANOUT / 2 <= i < FANOUT
    requires Adds(places0, places1, places0[cur], 3, EntryPage(i), EntryPage(i) + 1)
    ensures AddsUpper(places0, places1, cur)
  {
    EntryPageIs(i);
    LastPart(FANOUT / 2, i + 1, Span(4), 0);
    AddsWider(places0, places1, places0[cur], 3, EntryPage(i), EntryPage(i) + 1, 3, EntryPage(FANOUT / 2), Span(5));
  }

  /** The same translations, page by page. */
  ghost predicate SameTranslations(t0: Tables, t1: Tables, r: nat) {
    forall w {:trigger Translate(t1, r, 4, w)} :: 0 <= w < Span(5) ==> Translate(t1, r, 4, w) == Translate(t0, r, 4, w)
  }

  /** Nothing happened, or tables were added to the only address space there is. */
  ghost predicate Filled(t0: Tables, t1: Tables, places0: Places, places1: Places, cur: nat)
    requires Linked(t0, places0) && Linked(t1, places1)
  {
    && ((t1 == t0 && places1 == places0) || OnlyRoot(places0, cur))
    && Grows(t0, t1, places0, places1)
    && AddsUpper(places0, places1, cur) && Discreet(t0, t1, false)
    && SameTranslations(t0, t1, cur)
  }

  /** Makes sure level-4 entry `i` of the current address space leads to a table. */
  method FillEntry(spaces: AddressSpaces, cur: nat, i: nat) returns (ok: bool)
    requires spaces.Valid() && IsRoot(spaces.places, cur) && FANOUT / 2 <= i < FANOUT
    modifies spaces, spaces.pmm
    ensures spaces.Valid() && spaces.TookFrom(old(spaces.pmm.free), old(spaces.pmm.held), old(spaces.tables))
    ensures Filled(old(spaces.tables), spaces.tables, old(spaces.places), spaces.places, cur)
    ensures !ok ==> !spaces.tables[cur][i].present && Pmm.Exhausted(spaces.pmm.free, 0)
    ensures ok ==>
              && spaces.tables[cur][i].present
              && (forall j: nat :: j < FANOUT && j != i ==> spaces.tables[cur][j] == old(spaces.tables[cur][j]))
  {
    ghost var w := EntryPage(i);
    EntryPageIs(i);
    assert PlaceOk(cur, spaces.places[cur]);
    if spaces.tables[cur][i].present {
      NothingFilled(spaces.tables, spaces.places, cur);
      TablesTookNone(spaces.pmm.free, spaces.pmm.held, spaces.tables, spaces.tables);
      return true;
    }
    var outcome, child := spaces.OpenEntry(4, cur, i, false, w, w + 1);
    FillKeeps(old(spaces.tables), old(spaces.places), cur, i);
    if !outcome.Done? {
      NothingFilled(spaces.tables, spaces.places, cur);
      return false;
    }
    EntryAddsUpper(old(spaces.places), spaces.places, cur, i);
    OpenedEntryOnly(old(spaces.tables), spaces.tables, old(spaces.places), spaces.places, cur, i);
    KeepsSame(old(spaces.tables), spaces.tables, cur);
    return true;
  }

  lemma NothingFilled(t: Tables, places: Places, cur: nat)
    requires Linked(t, places) && cur in places
    ensures Filled(t, t, places, places, cur)
  {
    AddsNothing(places, places[cur], 3, EntryPage(FANOUT / 2), Span(5));
  }

  /** An absent entry in the upper half means there is only one address space. */
  lemma FillKeeps(t: Tables, places: Places, cur: nat, i: nat)
    requires Linked(t, places) && Rooted(t, places) && IsRoot(places, cur)
    requires FANOUT / 2 <= i < FANOUT && !t[cur][i].present
    ensures OnlyRoot(places, cur)
  {
  }

  lemma OpenedEntryOnly(t0: Tables, t1: Tables, places0: Places, places1: Places, cur: nat, i: nat)
    requires Linked(t0, places0) && Linked(t1, places1) && IsRoot(places0, cur) && i < FANOUT
    requires Frames(t0, t1, places0, places1, 4, places0[cur].owner, EntryPage(i), EntryPage(i) + 1)
    ensures forall j: nat :: j < FANOUT && j != i ==> t1[cur][j] == t0[cur][j]
  {
    assert PlaceOk(cur, places0[cur]);
    SlotOfMultiple(4, i, 0);
    forall j: nat | j < FANOUT && j != i
      ensures t1[cur][j] == t0[cur][j]
    {
      assert !Touched(places0[cur], j, 4, places0[cur].owner, EntryPage(i), EntryPage(i) + 1);
    }
  }

  lemma KeepsSame(t0: Tables, t1: Tables, r: nat)
    requires Keeps(t0, t1, r, 4, 0, false)
    ensures SameTranslations(t0, t1, r)
  {
    forall w | 0 <= w < Span(5)
      ensures Translate(t1, r, 4, w) == Translate(t0, r, 4, w)
    {
      OneTop(w);
    }
  }

  /** A root for a new address space: nothing below, and the entries of `cur` above. */
  ghost predicate CopyOf(t: Tables, cur: nat, entries: seq<Entry>) {
    && cur in t && |t[cur]| == FANOUT && |entries| == FANOUT
    && (forall j: nat :: j < FANOUT / 2 ==> entries[j] == BLANK)
    && (forall j: nat :: FANOUT / 2 <= j < FANOUT ==> entries[j] == t[cur][j] && entries[j].present)
  }

  /** A private table of level 3 belongs to a root that exists. */
  lemma TopOwner(t: Tables, places: Places, h: nat)
    requires Linked(t, places) && h in places
    ensures places[h].level == 3 && places[h].owner.Private? ==> places[h].owner.root in places
  {
    assert PlaceOk(h, places[h]) && HasParent(places, h);
    if places[h].level == 3 {
      var f, i: nat :| i < FANOUT && Below(places, f, i, h);
      assert PlaceOk(f, places[f]);
    }
  }

  lemma PublishEntry(t: Tables, places: Places, cur: nat, g: nat, entries: seq<Entry>, j: nat)
    requires Linked(t, places) && IsRoot(places, cur) && g !in t && CopyOf(t, cur, entries) && j < FANOUT
    ensures EntryLinked(t[g := entries], places[g := Place(4, 0, Private(g))], g, j)
  {
    var places1 := places[g := Place(4, 0, Private(g))];
    assert PlaceOk(cur, places[cur]) && EntryLinked(t, places, cur, j);
    if j < FANOUT / 2 {
      forall h | h in places
        ensures !Below(places1, g, j, h)
      {
        TopOwner(t, places, h);
      }
    } else {
      assert forall h :: Below(places1, g, j, h) ==> Below(places, cur, j, h);
      assert forall h :: Below(places, cur, j, h) ==> Below(places1, g, j, h);
    }
  }

  /** Publishing the copy as a new root keeps everything linked. */
  lemma PublishLinked(t: Tables, places: Places, cur: nat, g: nat, entries: seq<Entry>)
    requires Linked(t, places) && IsRoot(places, cur) && g !in t && CopyOf(t, cur, entries)
    ensures Linked(t[g := entries], places[g := Place(4, 0, Private(g))])
  {
    var t1: Tables, places1: Places := t[g := entries], places[g := Place(4, 0, Private(g))];
    forall h | h in places1
      ensures PlaceOk(h, places1[h]) && HasParent(places1, h)
    {
      if h != g {
        assert PlaceOk(h, places[h]) && HasParent(places, h);
        if places[h].level != 4 {
          var f, i: nat :| i < FANOUT && Below(places, f, i, h);
          assert Below(places1, f, i, h);
        }
      }
    }
    forall f, h | SamePlace(places1, f, h)
      ensures f == h
    {
      assert f != g ==> PlaceOk(f, places[f]);
      assert h != g ==> PlaceOk(h, places[h]);
      assert f != g && h != g ==> SamePlace(places, f, h);
    }
    forall f, j: nat | f in t1 && j < FANOUT
      ensures EntryLinked(t1, places1, f, j)
    {
      if f == g {
        PublishEntry(t, places, cur, g, entries, j);
      } else {
        assert EntryLinked(t, places, f, j) && PlaceOk(f, places[f]);
        assert forall h :: Below(places1, f, j, h) <==> Below(places, f, j, h);
      }
    }
  }

  /** Publishing the copy changes no translation of an old root. */
  lemma PublishKeeps(t: Tables, places: Places, cur: nat, g: nat, entries: seq<Entry>, r: nat)
    requires Linked(t, places) && IsRoot(places, cur) && g !in t && CopyOf(t, cur, entries) && IsRoot(places, r)
    ensures SameTranslations(t, t[g := entries], r)
  {
    var t1: Tables, places1: Places := t[g := entries], places[g := Place(4, 0, Private(g))];
    PublishLinked(t, places, cur, g, entries);
    assert PlaceOk(r, places[r]);
    forall w | 0 <= w < Span(5)
      ensures Translate(t1, r, 4, w) == Translate(t, r, 4, w)
    {
      OneTop(w);
      WalkFrames(t, t1, places, places1, 4, Shared, 0, 0, r, 4, w);
    }
  }

  /** In the new address space the lower half is empty. */
  lemma PublishBlank(t: Tables, cur: nat, g: nat, entries: seq<Entry>)
    requires CopyOf(t, cur, entries)
    ensures forall w :: 0 <= w < Span(5) && !UpperPage(w) ==> Translate(t[g := entries], g, 4, w).None?
  {
    forall w | 0 <= w < Span(5) && !UpperPage(w)
      ensures Translate(t[g := entries], g, 4, w).None?
    {
      OneTop(w);
      assert Index(4, w) < FANOUT / 2;
    }
  }

  /** Fills in the upper half of `cur` and copies it. */
  method CopyUpper(spaces: AddressSpaces, cur: nat, ghost g: nat) returns (ok: bool, entries: seq<Entry>)
    requires spaces.Valid() && IsRoot(spaces.places, cur) && g !in spaces.tables && !Pmm.FreePage(spaces.pmm.free, g)
    modifies spaces, spaces.pmm
    ensures spaces.Valid() && spaces.TookFrom(old(spaces.pmm.free), old(spaces.pmm.held), old(spaces.tables))
    ensures Filled(old(spaces.tables), spaces.tables, old(spaces.places), spaces.places, cur)
    ensures g !in spaces.tables && !Pmm.FreePage(spaces.pmm.free, g)
    ensures !ok ==> Pmm.Exhausted(spaces.pmm.free, 0) && LacksUpper(spaces.tables, cur)
    ensures ok ==> CopyOf(spaces.tables, cur, entries)
  {
    hide TablesTook, Adds, Rooted, SameTranslations;
    entries := BlankTable();
    NothingFilled(spaces.tables, spaces.places, cur);
    TablesTookNone(spaces.pmm.free, spaces.pmm.held, spaces.tables, spaces.tables);
    for i := FANOUT / 2 to FANOUT
      invariant spaces.Valid() && spaces.TookFrom(old(spaces.pmm.free), old(spaces.pmm.held), old(spaces.tables))
      invariant IsRoot(spaces.places, cur) && g !in spaces.tables && !Pmm.FreePage(spaces.pmm.free, g)
      invariant Filled(old(spaces.tables), spaces.tables, old(spaces.places), spaces.places, cur)
      invariant |entries| == FANOUT
      invariant forall j: nat :: j < FANOUT / 2 || i <= j < FANOUT ==> entries[j] == BLANK
      invariant forall j: nat :: FANOUT / 2 <= j < i ==> entries[j] == spaces.tables[cur][j] && entries[j].present
    {
      ghost var t1, places1, free1, held1 := spaces.tables, spaces.places, spaces.pmm.free, spaces.pmm.held;
      ok := FillEntry(spaces, cur, i);
      FilledTransitive(old(spaces.tables), t1, spaces.tables, old(spaces.places), places1, spaces.places, cur);
      NotATable(free1, held1, t1, spaces.pmm.free, spaces.pmm.held, spaces.tables, g);
      TablesTookBoth(old(spaces.pmm.free), old(spaces.pmm.held), old(spaces.tables), free1, held1, t1,
                     spaces.pmm.free, spaces.pmm.held, spaces.tables);
      if !ok {
        return;
      }
      entries := entries[i := spaces.tables[cur][i]];
    }
    ok := true;
  }

  lemma FilledTransitive(t0: Tables, t1: Tables, t2: Tables, places0: Places, places1: Places, places2: Places, cur: nat)
    requires Linked(t0, places0) && Linked(t1, places1) && Linked(t2, places2)
    requires Filled(t0, t1, places0, places1, cur) && Filled(t1, t2, places1, places2, cur)
    ensures Filled(t0, t2, places0, places2, cur)
  {
    GrowsTransitive(t0, t1, t2, places0, places1, places2);
    AddsMore(places0, places1, places2, places0[cur], 3, EntryPage(FANOUT / 2), Span(5));
    DiscreetTwice(t0, t1, t2, false);
    forall w | 0 <= w < Span(5)
      ensures Translate(t2, cur, 4, w) == Translate(t0, cur, 4, w)
    {
      assert Translate(t1, cur, 4, w) == Translate(t0, cur, 4, w);
    }
  }

  /** An entry of the upper half of `cur` is absent. */
  ghost predicate LacksUpper(t: Tables, cur: nat) {
    cur in t && exists i: nat :: FANOUT / 2 <= i < |t[cur]| && !t[cur][i].present
  }

  /** A frame that is neither a table nor free does not become a table. */
  lemma NotATable(free: Pmm.Stacks, held: set<Pmm.Frame>, t: Tables, free': Pmm.Stacks, held': set<Pmm.Frame>, t': Tables, g: nat)
    requires TablesTook(free, held, t, free', held', t') && g !in t && !Pmm.FreePage(free, g)
    ensures g !in t' && !Pmm.FreePage(free', g)
  {
    TablesTookPages(free, held, t, free', held', t');
  }

  /** What publishing the copy of the upper half of `cur` as root `g` gives. */
  ghost predicate Published(t0: Tables, t1: Tables, places0: Places, places1: Places, cur: nat, g: nat) {
    && IsRoot(places1, g) && g in t1 && CopyOf(t1, cur, t1[g])
    && (forall w {:trigger UpperPage(w)} :: 0 <= w < Span(5) && !UpperPage(w) ==> Translate(t1, g, 4, w).None?)
    && (forall w {:trigger UpperPage(w)} :: 0 <= w < Span(5) && UpperPage(w) ==>
          SameFrame(Translate(t1, g, 4, w), Translate(t0, cur, 4, w)))
    && (forall r :: IsRoot(places0, r) ==> IsRoot(places1, r) && SameTranslations(t0, t1, r))
    && (forall r :: IsRoot(places1, r) ==> r == g || IsRoot(places0, r))
    && AddsUpper(places0, places1 - {g}, cur)
  }

  lemma Publish(t0: Tables, t: Tables, places0: Places, places: Places, cur: nat, g: nat, entries: seq<Entry>)
    requires Linked(t0, places0) && Linked(t, places) && Rooted(t, places) && IsRoot(places0, cur) && g !in t
    requires Filled(t0, t, places0, places, cur) && CopyOf(t, cur, entries)
    ensures var t1: Tables, places1: Places := t[g := entries], places[g := Place(4, 0, Private(g))];
            Linked(t1, places1) && Rooted(t1, places1) && Published(t0, t1, places0, places1, cur, g)
  {
    var t1: Tables, places1: Places := t[g := entries], places[g := Place(4, 0, Private(g))];
    assert IsRoot(places, cur);
    PublishLinked(t, places, cur, g, entries);
    PublishRooted(t, places, cur, g, entries);
    PublishBlank(t, cur, g, entries);
    assert places1 - {g} == places;
    forall r | IsRoot(places0, r)
      ensures IsRoot(places1, r) && SameTranslations(t0, t1, r)
    {
      assert IsRoot(places, r);
      PublishKeeps(t, places, cur, g, entries, r);
      assert SameTranslations(t0, t, r);
      forall w | 0 <= w < Span(5)
        ensures Translate(t1, r, 4, w) == Translate(t0, r, 4, w)
      {
        assert Translate(t, r, 4, w) == Translate(t0, r, 4, w);
      }
    }
    forall w | 0 <= w < Span(5) && UpperPage(w)
      ensures SameFrame(Translate(t1, g, 4, w), Translate(t0, cur, 4, w))
    {
      UpperShared(t1, places1, g, cur, w);
      assert Translate(t1, cur, 4, w) == Translate(t0, cur, 4, w);
    }
  }

  /** The frames of the new tables were taken, and one more. */
  ghost predicate TookSpare(free: Pmm.Stacks, held: set<Pmm.Frame>, t: Tables, free': Pmm.Stacks, held': set<Pmm.Frame>, t': Tables) {
    t.Keys <= t'.Keys && exists g: nat :: g !in t' && Pmm.Took(free, held, {Pmm.Frame(0, g)} + NewTables(t, t'), free', held')
  }

  /** What is left behind where frames run out: everything as it was, or the tables of the entries before
      the one that is absent. */
  ghost predicate Stuck(t0: Tables, free0: Pmm.Stacks, held0: set<Pmm.Frame>, t1: Tables, free1: Pmm.Stacks, held1: set<Pmm.Frame>, cur: nat) {
    || (t1 == t0 && free1 == free0 && held1 == held0)
    || (LacksUpper(t1, cur) && TookSpare(free0, held0, t0, free1, held1, t1))
  }

  /** The root's frame and those of the tables are the frames of the tables in the end. */
  lemma TookRoot(free0: Pmm.Stacks, held0: set<Pmm.Frame>, t0: Tables, g: nat, entries: seq<Entry>,
                 free1: Pmm.Stacks, held1: set<Pmm.Frame>, free2: Pmm.Stacks, held2: set<Pmm.Frame>, t2: Tables)
    requires Pmm.HandsOut(free0, held0, Pmm.Frame(0, g), free1) && held1 == held0 + {Pmm.Frame(0, g)}
    requires TablesTook(free1, held1, t0, free2, held2, t2) && g !in t2
    ensures TookSpare(free0, held0, t0, free2, held2, t2)
    ensures TablesTook(free0, held0, t0, free2, held2, t2[g := entries])
  {
    var frames := {Pmm.Frame(0, g)};
    assert {} + {Pmm.Frame(0, g)} == frames;
    Pmm.TookNothing(free0, held0);
    Pmm.TookMore(free0, held0, {}, free0, held0, Pmm.Frame(0, g), free1);
    Pmm.TookBoth(free0, held0, frames, free1, held1, NewTables(t0, t2), free2, held2);
    NewTablesOne(t2, t2[g := entries], g);
    NewTablesSplit(t0, t2, t2[g := entries]);
    assert NewTables(t0, t2[g := entries]) == frames + NewTables(t0, t2);
  }

  lemma PublishRooted(t: Tables, places: Places, cur: nat, g: nat, entries: seq<Entry>)
    requires Linked(t, places) && Rooted(t, places) && IsRoot(places, cur) && g !in t && CopyOf(t, cur, entries)
    requires Linked(t[g := entries], places[g := Place(4, 0, Private(g))])
    ensures Rooted(t[g := entries], places[g := Place(4, 0, Private(g))])
  {
    var t1: Tables, places1: Places := t[g := entries], places[g := Place(4, 0, Private(g))];
    forall f, i: nat | f in places1 && places1[f].level == 4 && FANOUT / 2 <= i < FANOUT
      ensures t1[f][i].present
    {
      if f != g { assert f == cur || t[f][i].present; }
    }
  }

  /** A new address space: its lower half is empty, its upper half is that of `cur`, now and from
      now on, and no translation of an existing address space changed. */
  method CloneUpperHalf(spaces: AddressSpaces, cur: nat) returns (root: Option<nat>)
    requires spaces.Valid() && IsRoot(spaces.places, cur)
    modifies spaces, spaces.pmm
    ensures spaces.Valid()
    ensures root.None? ==>
              && Pmm.Exhausted(spaces.pmm.free, 0)
              && Filled(old(spaces.tables), spaces.tables, old(spaces.places), spaces.places, cur)
              && Stuck(old(spaces.tables), old(spaces.pmm.free), old(spaces.pmm.held),
                       spaces.tables, spaces.pmm.free, spaces.pmm.held, cur)
    ensures root.Some? ==>
              && spaces.TookFrom(old(spaces.pmm.free), old(spaces.pmm.held), old(spaces.tables))
              && root.value !in old(spaces.tables)
              && Published(old(spaces.tables), spaces.tables, old(spaces.places), spaces.places, cur, root.value)
  {
    hide Linked, Rooted, TablesTook, Filled, Published;
    var frame := spaces.pmm.Pop(0);
    if frame.None? {
      NothingFilled(spaces.tables, spaces.places, cur);
      return None;
    }
    var g := frame.value;
    ghost var free1, held1 := spaces.pmm.free, spaces.pmm.held;
    Pmm.HandedOutNotFree(old(spaces.pmm.free), old(spaces.pmm.held), Pmm.Frame(0, g), spaces.pmm.free);
    assert Pmm.Holds(Pmm.Frame(0, g), g);
    var ok, entries := CopyUpper(spaces, cur, g);
    TookRoot(old(spaces.pmm.free), old(spaces.pmm.held), old(spaces.tables), g, entries, free1, held1,
             spaces.pmm.free, spaces.pmm.held, spaces.tables);
    if !ok {
      return None;
    }
    Publish(old(spaces.tables), spaces.tables, old(spaces.places), spaces.places, cur, g, entries);
    spaces.tables := spaces.tables[g := entries];
    spaces.places := spaces.places[g := Place(4, 0, Private(g))];
    return Some(g);
  }
}
