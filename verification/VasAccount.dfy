/** Where physical memory goes in a whole run: every frame is free, or a page table's, or an object's, or was
    held by someone else from the start. */
module VasAccount {
  import opened Basics
  import opened PageNeeds
  import opened VasTables
  import opened VasPages
  import opened VmClone
  import opened Vmo
  import opened Vas
  import opened VasRuns
  import Pmm

  /** The frames of all objects. */
  ghost function ObjectFrames(s: Shot): set<Pmm.Frame> {
    set vmo, f | vmo in s.elements && f in Backing(vmo.layer, s.elements[vmo]) :: f
  }

  /** The frames that are held, but not by objects. */
  ghost function Others(s: Shot): set<Pmm.Frame> {
    s.held - ObjectFrames(s)
  }

  /** Page `p` is free, or in a frame of an object. */
  ghost predicate Available(s: Shot, p: nat) {
    Pmm.FreePage(s.free, p) || Pmm.HeldPage(ObjectFrames(s), p)
  }

  /** From `s` to `s'`, page tables are all that frames went to that are neither free nor an object's, and no
      frame was lost. */
  ghost predicate Balanced(s: Shot, s': Shot) {
    && s.tables.Keys <= s'.tables.Keys && NewTables(s.tables, s'.tables) !! Others(s)
    && Others(s') == Others(s) + NewTables(s.tables, s'.tables)
    && forall p: nat :: Available(s, p) <==> Available(s', p) || (p in s'.tables && p !in s.tables)
  }

  lemma ObjectsHeld(s: Shot)
    requires Sane(s)
    ensures ObjectFrames(s) <= s.held
  {
    hide Backing, Displays, Exposes, Agree, Pmm.Separated, Bounded, DisplayOk, SpaceOk;
    forall vmo, f | vmo in s.elements && f in Backing(vmo.layer, s.elements[vmo]) ensures f in s.held {
      assert vmo in s.vmos && ObjectOk(s, vmo);
    }
  }

  lemma SameObjects(s: Shot, s': Shot)
    requires s'.elements == s.elements
    ensures ObjectFrames(s') == ObjectFrames(s)
  {
  }

  lemma CreatesBalanced(s: Shot, s': Shot, elements: seq<Element>)
    requires Creates(s, s', elements) && (forall layer: nat :: Backing(layer, elements) == {})
    ensures Balanced(s, s')
  {
    hide Backing, Pmm.FreePage, Pmm.HeldPage;
    var vmo := s'.vmos[|s.vmos|];
    assert Backing(vmo.layer, elements) == {};
    forall f | f in ObjectFrames(s) ensures f in ObjectFrames(s') {
      var o :| o in s.elements && f in Backing(o.layer, s.elements[o]);
      assert o != vmo && s'.elements[o] == s.elements[o];
    }
    assert ObjectFrames(s') == ObjectFrames(s);
    assert NewTables(s.tables, s'.tables) == {};
  }

  /** Frames of a set of objects that gained one. */
  lemma CommitsBalanced(s: Shot, vmo: Vmo, s': Shot)
    requires Indexed(s) && vmo in s.vmos && Commits(s, vmo, s')
    requires ObjectFrames(s) <= s.held
    ensures Balanced(s, s')
  {
    hide Pmm.FreePage, Vmo.Complete;
    assert NewTables(s.tables, s'.tables) == {};
    if !(vmo.base.Some? || vmo.Complete(s.elements[vmo])) {
      var frames := Backing(vmo.layer, s'.elements[vmo]);
      NothingBacked(vmo.layer);
      OneMore(s, vmo, s', frames);
      forall p: nat ensures Pmm.HeldPage(ObjectFrames(s) + frames, p) <==> Pmm.HeldPage(ObjectFrames(s), p) || Pmm.HeldPage(frames, p) {
        Pmm.HeldEither(ObjectFrames(s), frames, p);
      }
    }
  }

  lemma OneMore(s: Shot, vmo: Vmo, s': Shot, frames: set<Pmm.Frame>)
    requires vmo in s.elements && Backing(vmo.layer, s.elements[vmo]) == {}
    requires vmo in s'.elements && frames == Backing(vmo.layer, s'.elements[vmo]) && s'.elements == s.elements[vmo := s'.elements[vmo]]
    ensures ObjectFrames(s') == ObjectFrames(s) + frames
  {
    hide Backing;
    forall f | f in ObjectFrames(s') ensures f in ObjectFrames(s) + frames {
      var o :| o in s'.elements && f in Backing(o.layer, s'.elements[o]);
      assert o != vmo ==> s'.elements[o] == s.elements[o];
    }
    forall f | f in ObjectFrames(s) + frames ensures f in ObjectFrames(s') {
      if f in frames {
        assert f in Backing(vmo.layer, s'.elements[vmo]);
      } else {
        var o :| o in s.elements && f in Backing(o.layer, s.elements[o]);
        assert s'.elements[o] == s.elements[o];
      }
    }
  }

  lemma TablesBalanced(s: Shot, s': Shot)
    requires s'.elements == s.elements && TablesTook(s.free, s.held, s.tables, s'.free, s'.held, s'.tables)
    requires ObjectFrames(s) <= s.held
    ensures Balanced(s, s')
  {
    hide Backing, Pmm.FreePage, Pmm.HeldPage;
    SameObjects(s, s');
    TablesTookPages(s.free, s.held, s.tables, s'.free, s'.held, s'.tables);
  }

  lemma DestroysBalanced(s: Shot, index: nat, s': Shot)
    requires Sane(s) && index < |s.vmos| && Destroys(s, index, s')
    ensures Balanced(s, s')
  {
    hide Backing, Pmm.FreePage, Pmm.Separated, Displays, Exposes, Agree, Bounded, DisplayOk, SpaceOk, ObjectOk;
    var vmo := s.vmos[index];
    var frames := Backing(vmo.layer, s.elements[vmo]);
    assert NewTables(s.tables, s'.tables) == {};
    OneLess(s, vmo, s');
    forall p: nat ensures Pmm.HeldPage(ObjectFrames(s), p) <==> Pmm.HeldPage(ObjectFrames(s'), p) || Pmm.HeldPage(frames, p) {
      Pmm.HeldEither(ObjectFrames(s'), frames, p);
    }
  }

  lemma OneLess(s: Shot, vmo: Vmo, s': Shot)
    requires Sane(s) && vmo in s.vmos && s'.elements == s.elements - {vmo}
    ensures var frames := Backing(vmo.layer, s.elements[vmo]);
            ObjectFrames(s) == ObjectFrames(s') + frames && ObjectFrames(s') !! frames
  {
    hide Backing, Pmm.Separated, Displays, Exposes, Agree, Bounded, DisplayOk, SpaceOk, ObjectOk;
    var frames := Backing(vmo.layer, s.elements[vmo]);
    forall f | f in ObjectFrames(s') ensures f in ObjectFrames(s) && f !in frames {
      var o :| o in s'.elements && f in Backing(o.layer, s'.elements[o]);
      assert o in s.vmos && o != vmo;
    }
    forall f | f in ObjectFrames(s) ensures f in ObjectFrames(s') || f in frames {
      var o :| o in s.elements && f in Backing(o.layer, s.elements[o]);
      assert o == vmo || o in s'.elements;
    }
    forall f | f in frames ensures f in ObjectFrames(s) {
      assert vmo in s.elements;
    }
  }

  /** Whatever a command does, no frame is lost. */
  lemma StepBalanced(boot: nat, s: Shot, command: Command, s': Shot)
    requires Sane(s) && Sane(s') && Means(boot, s, command, s')
    ensures Balanced(s, s')
  {
    hide Sane, Balanced, Creates, Commits, Clones, Mounts, Destroys, Backing;
    ObjectsHeld(s);
    match command {
      case Sparse(_, _) => NothingInIt(); CreatesBalanced(s, s', [Element(0, None)]);
      case Physical(_, _, _) => NothingInIt(); CreatesBalanced(s, s', []);
      case Back(index) => CommitsBalanced(s, s.vmos[index], s');
      case Clone(space) => ClonesTook(s, if space < |s.vases| then s.vases[space].root else boot, s'); TablesBalanced(s, s');
      case Show(space, index, address, user, readOnly) =>
        MountsTook(s, Display(s.vases[space], s.vmos[index], address, user), readOnly, s');
        TablesBalanced(s, s');
      case Drop(index) => DestroysBalanced(s, index, s');
    }
  }

  lemma NothingInIt()
    ensures forall layer: nat :: Backing(layer, [Element(0, None)]) == {} && Backing(layer, []) == {}
  {
  }

  lemma ClonesTook(s: Shot, cur: nat, s': Shot)
    requires Clones(s, cur, s')
    ensures s'.elements == s.elements && TablesTook(s.free, s.held, s.tables, s'.free, s'.held, s'.tables)
  {
    hide TablesTook, Published;
  }

  lemma MountsTook(s: Shot, d: Display, readOnly: bool, s': Shot)
    requires Indexed(s) && d.vas in s.vases && d.vmo in s.vmos && Mounts(s, d, readOnly, s')
    ensures s'.elements == s.elements && TablesTook(s.free, s.held, s.tables, s'.free, s'.held, s'.tables)
  {
    hide TablesTook, Fitting, GrewBy, Blurs, Supplies;
  }

  lemma BalancedTwice(s0: Shot, s1: Shot, s2: Shot)
    requires Balanced(s0, s1) && Balanced(s1, s2)
    ensures Balanced(s0, s2)
  {
    hide Available, Others;
    NewTablesSplit(s0.tables, s1.tables, s2.tables);
  }

  /** Between any two states of a run, whatever objects and address spaces came and went, frames moved only
      between the free stacks, the objects and new page tables: none is lost and none is handed out twice. */
  lemma {:induction false} Conservation(boot: nat, shots: seq<Shot>, commands: seq<Command>, i: nat, m: nat)
    requires IsTrace(boot, shots, commands) && i <= m <= |commands|
    ensures Balanced(shots[i], shots[m])
    decreases m
  {
    hide Sane, Means, Balanced;
    assert Sane(shots[i]);
    if i == m {
      BalancedSame(shots[i]);
    } else {
      Conservation(boot, shots, commands, i, m - 1);
      assert Sane(shots[m - 1]) && Sane(shots[m]) && Means(boot, shots[m - 1], commands[m - 1], shots[m]);
      StepBalanced(boot, shots[m - 1], commands[m - 1], shots[m]);
      BalancedTwice(shots[i], shots[m - 1], shots[m]);
    }
  }

  lemma BalancedSame(s: Shot)
    ensures Balanced(s, s)
  {
    assert NewTables(s.tables, s.tables) == {};
  }

  /** A run that ends with as few objects as it began with, none, has used up frames for page tables only. */
  lemma NothingLeaks(boot: nat, shots: seq<Shot>, commands: seq<Command>)
    requires IsTrace(boot, shots, commands) && shots[0].vmos == [] && shots[|commands|].vmos == []
    ensures var s, s' := shots[0], shots[|commands|];
            TablesTook(s.free, s.held, s.tables, s'.free, s'.held, s'.tables)
  {
    hide Pmm.FreePage, ObjectOk, DisplayOk, SpaceOk, Means, Pmm.Separated;
    var s, s' := shots[0], shots[|commands|];
    Conservation(boot, shots, commands, 0, |commands|);
    assert Sane(s) && Sane(s');
    assert s.elements.Keys == {} && s'.elements.Keys == {};
    assert ObjectFrames(s) == {} && ObjectFrames(s') == {};
    forall p: nat ensures Pmm.FreePage(s.free, p) <==> Pmm.FreePage(s'.free, p) || Pmm.HeldPage(NewTables(s.tables, s'.tables), p) {
      NewTablesPage(s.tables, s'.tables, p);
      assert Available(s, p) <==> Available(s', p) || (p in s'.tables && p !in s.tables);
    }
  }
}
