/** Whole runs of maps, unmaps and clones. */
module PagingRuns {
  import opened Levels
  import opened PageTables
  import opened PageNeeds
  import opened Translation
  import opened Vm
  import opened VmUnmap
  import opened VmClone
  import opened Paging
  import Pmm

  datatype Memory = Memory(tables: Tables, places: Places)

  ghost predicate Sound(m: Memory) {
    Linked(m.tables, m.places)
  }

  /** What a call that does not panic does to the tables. */
  datatype Action =
    | Nothing
    | MapRange(root: nat, ws: nat, we: nat, frame: nat, user: bool)
    | UnmapRange(root: nat, ws: nat, we: nat)
    | Clone(cur: nat, root: nat)

  ghost predicate Step(m: Memory, a: Action, m': Memory)
    requires Sound(m) && Sound(m')
  {
    match a
    case Nothing => m' == m
    case MapRange(r, ws, we, p, user) =>
      IsRoot(m.places, r) && Mapped(m.tables, m'.tables, m.places, m'.places, r, 4, ws, we, p, user, 1)
    case UnmapRange(r, ws, we) =>
      IsRoot(m.places, r) && m'.places == m.places && Cleared(m.tables, m'.tables, m.places, r, 4, ws, we)
    case Clone(cur, r) =>
      IsRoot(m.places, cur) && Published(m.tables, m'.tables, m.places, m'.places, cur, r)
  }

  ghost predicate IsRun(ms: seq<Memory>, actions: seq<Action>) {
    && |ms| == |actions| + 1 && (forall i: nat :: i < |ms| ==> Sound(ms[i]))
    && forall i: nat :: i < |actions| ==> Step(ms[i], actions[i], ms[i + 1])
  }

  predicate ActsThrough(a: Action, r: nat) {
    (a.MapRange? || a.UnmapRange?) && a.root == r
  }

  /** The lower half of an address space changes only through that address space. */
  lemma {:induction false} LowerUntouched(ms: seq<Memory>, actions: seq<Action>, r: nat, w: nat)
    requires IsRun(ms, actions) && IsRoot(ms[0].places, r) && w < Span(5) && !UpperPage(w)
    requires forall a :: a in actions ==> !ActsThrough(a, r)
    ensures IsRoot(ms[|actions|].places, r)
    ensures Translate(ms[|actions|].tables, r, 4, w) == Translate(ms[0].tables, r, 4, w)
    decreases |actions|
  {
    hide Step, Sound;
    if actions != [] {
      var n := |actions| - 1;
      LowerUntouched(ms[..|ms| - 1], actions[..n], r, w);
      LowerStep(ms[n], actions[n], ms[n + 1], r, w);
    }
  }

  lemma LowerStep(m: Memory, a: Action, m': Memory, r: nat, w: nat)
    requires Sound(m) && Sound(m') && Step(m, a, m')
    requires IsRoot(m.places, r) && w < Span(5) && !UpperPage(w) && !ActsThrough(a, r)
    ensures IsRoot(m'.places, r) && Translate(m'.tables, r, 4, w) == Translate(m.tables, r, 4, w)
  {
    match a
    case Nothing =>
    case MapRange(root, ws, we, p, user) =>
      assert PlaceOk(root, m.places[root]);
      LowerIndependent(m.tables, m'.tables, m.places, m'.places, root, ws, we, r, w);
    case UnmapRange(root, ws, we) =>
      assert PlaceOk(root, m.places[root]);
      LowerIndependent(m.tables, m'.tables, m.places, m'.places, root, ws, we, r, w);
    case Clone(cur, root) =>
  }

  /** A call of one of the entry points, through an address space. */
  datatype Call =
    | Map(root: nat, start: nat, end: nat, physical: nat, user: bool)
    | Unmap(root: nat, start: nat, end: nat)
    | CloneUpper(root: nat)

  /** Arguments are 64 bits wide. */
  predicate Allowed(call: Call) {
    match call
    case Map(_, start, end, physical, _) =>
      start < ADDRESS_BYTES && end < ADDRESS_BYTES && physical < ADDRESS_BYTES
    case Unmap(_, start, end) =>
      start < ADDRESS_BYTES && end < ADDRESS_BYTES
    case CloneUpper(_) => true
  }

  /** The range of bytes is taken to be empty. */
  predicate Void(start: nat, end: nat)
    requires start < ADDRESS_BYTES
  {
    start == end || start / PAGE_BYTES + PageCount(1, Distance(start, end)) >= ADDRESS_PAGES
  }

  /** The action that a call means. */
  ghost predicate Means(call: Call, a: Action)
    requires Allowed(call)
  {
    match call
    case Map(root, start, end, physical, user) =>
      var ws := Offset(5, start / PAGE_BYTES);
      a == if Void(start, end) then Nothing
           else MapRange(root, ws, ws + PageCount(1, Distance(start, end)), physical / PAGE_BYTES, user)
    case Unmap(root, start, end) =>
      var ws := Offset(5, start / PAGE_BYTES);
      a == if Void(start, end) then Nothing else UnmapRange(root, ws, ws + PageCount(1, Distance(start, end)))
    case CloneUpper(root) => a.Clone? && a.cur == root
  }

  /** How a call ended: only the first ending lets the kernel go on. */
  datatype Ending = Returned | MapStopped(why: Outcome) | UnmapStopped(reason: UnmapOutcome) | CloneStopped | Unknown

  /** Why a call did not return; `after` and `free` are the tables and what was free then. */
  ghost predicate Explains(m: Memory, call: Call, ending: Ending, after: Memory, free: Pmm.Stacks)
    requires Allowed(call)
  {
    match ending
    case Returned => false
    case MapStopped(why) =>
      && call.Map?
      && var page, pages := call.start / PAGE_BYTES, PageCount(1, Distance(call.start, call.end));
         && why != Done
         && (why.OutOfFrames? ==> Pmm.Exhausted(free, 0) && RangeShort(after.places, call.root, page, pages, 1))
         && (why.RunsOffTable? ==> !InReach(page, pages))
         && (why.Remapped? || why.WalksIntoFrame? ==>
               exists w :: Offset(5, page) <= w < Offset(5, page) + pages && w < Span(5) && Translate(m.tables, call.root, 4, w).Some?)
    case UnmapStopped(why) =>
      && call.Unmap?
      && var page, pages := call.start / PAGE_BYTES, PageCount(1, Distance(call.start, call.end));
         && why != Unmapped && (why.OffTable? ==> !InReach(page, pages))
         && (why.NotMapped? || why.LargePage? ==>
               AnyBad(m.tables, call.root, 4, Offset(5, page), Offset(5, page) + Stretch(page, pages), why.LargePage?))
    case CloneStopped => call.CloneUpper? && Pmm.Exhausted(free, 0) && (after.tables == m.tables || LacksUpper(after.tables, call.root))
    case Unknown => true
  }

  /** One call. A clone adds to the roots. */
  method Perform(spaces: AddressSpaces, call: Call) returns (ending: Ending, added: seq<nat>, ghost a: Action)
    requires spaces.Valid() && IsRoot(spaces.places, call.root) && Allowed(call)
    modifies spaces, spaces.pmm
    ensures !ending.Unknown? && spaces.Valid()
    ensures !ending.CloneStopped? ==> spaces.TookFrom(old(spaces.pmm.free), old(spaces.pmm.held), old(spaces.tables))
    ensures ending.Returned? ==>
              && Means(call, a)
              && Step(Memory(old(spaces.tables), old(spaces.places)), a, Memory(spaces.tables, spaces.places))
              && added == if a.Clone? then [a.root] else []
    ensures !ending.Returned? ==>
              Explains(Memory(old(spaces.tables), old(spaces.places)), call, ending, Memory(spaces.tables, spaces.places), spaces.pmm.free)
  {
    hide Linked, Rooted, Mapped, Cleared, Published, PageCount, Offset, InReach, IsRoot, Translate, Span, Pmm.Exhausted, TablesTook,
         RangeShort, RangeAdds, LacksUpper, TookSpare, AnyBad, Stretch;
    added, a := [], Nothing;
    if call.Map? {
      var r := MapPhysical(spaces, call.root, call.start, call.end, call.physical, call.user);
      ghost var ws := Offset(5, call.start / PAGE_BYTES);
      a := if Void(call.start, call.end) then Nothing
           else MapRange(call.root, ws, ws + PageCount(1, Distance(call.start, call.end)), call.physical / PAGE_BYTES, call.user);
      ending := if r.Done? then Returned else MapStopped(r);
    } else if call.Unmap? {
      var r := Paging.Unmap(spaces, call.root, call.start, call.end);
      ghost var ws := Offset(5, call.start / PAGE_BYTES);
      a := if Void(call.start, call.end) then Nothing
           else UnmapRange(call.root, ws, ws + PageCount(1, Distance(call.start, call.end)));
      ending := if r.Unmapped? then Returned else UnmapStopped(r);
      SameKeys(old(spaces.tables), spaces.tables, spaces.places);
      TablesTookNone(spaces.pmm.free, spaces.pmm.held, old(spaces.tables), spaces.tables);
    } else {
      var root := CloneUpperHalf(spaces, call.root);
      ending := CloneStopped;
      if root.Some? {
        ending, added, a := Returned, [root.value], Clone(call.root, root.value);
      }
    }
  }

  /** Address spaces do not go away. */
  lemma RootsStay(m: Memory, a: Action, m': Memory, r: nat)
    requires Sound(m) && Sound(m') && Step(m, a, m') && IsRoot(m.places, r)
    ensures IsRoot(m'.places, r)
  {
  }

  /** Every run of calls, up to the first that does not return, or names an address space that is not there. The
      tables stay linked throughout; so in every state of the run all address spaces translate the
      upper half alike. */
  method Run(spaces: AddressSpaces, roots: seq<nat>, calls: seq<Call>)
    returns (done: nat, ending: Ending, known: seq<nat>, ghost ms: seq<Memory>, ghost actions: seq<Action>)
    requires spaces.Valid() && (forall r :: r in roots ==> IsRoot(spaces.places, r))
    requires forall call :: call in calls ==> Allowed(call)
    modifies spaces, spaces.pmm
    ensures done <= |calls| && |actions| == done && IsRun(ms, actions) && (ending.Returned? <==> done == |calls|)
    ensures ms[0] == Memory(old(spaces.tables), old(spaces.places))
    ensures forall i: nat :: i < done ==> Means(calls[i], actions[i])
    ensures spaces.Valid()
    ensures !ending.CloneStopped? ==> spaces.TookFrom(old(spaces.pmm.free), old(spaces.pmm.held), old(spaces.tables))
    ensures done == |calls| ==> ms[done] == Memory(spaces.tables, spaces.places)
    ensures !ending.Returned? ==>
              && Explains(ms[done], calls[done], ending, Memory(spaces.tables, spaces.places), spaces.pmm.free) && (ending.Unknown? <==> calls[done].root !in known)
    ensures forall i: nat, r1, r2, w: nat ::
              i <= done && IsRoot(ms[i].places, r1) && IsRoot(ms[i].places, r2) && w < Span(5) && UpperPage(w) ==>
              SameFrame(Translate(ms[i].tables, r1, 4, w), Translate(ms[i].tables, r2, 4, w))
  {
    hide Linked, Rooted, Step, Allowed, Means, UpperPage, SameFrame, Translate, Span, Explains, TablesTook;
    TablesTookNone(spaces.pmm.free, spaces.pmm.held, spaces.tables, spaces.tables);
    done, ending, known, actions := 0, Returned, roots, [];
    ms := [Memory(spaces.tables, spaces.places)];
    while done < |calls|
      invariant done <= |calls| && |actions| == done && spaces.Valid() && ending.Returned?
      invariant |ms| == done + 1 && ms[0] == Memory(old(spaces.tables), old(spaces.places))
      invariant IsRun(ms, actions) && ms[done] == Memory(spaces.tables, spaces.places)
      invariant forall r :: r in known ==> IsRoot(spaces.places, r)
      invariant spaces.TookFrom(old(spaces.pmm.free), old(spaces.pmm.held), old(spaces.tables))
      invariant forall i: nat :: i < done ==> Means(calls[i], actions[i])
    {
      assert calls[done] in calls;
      if calls[done].root !in known {
        ending := Unknown;
        UnknownExplains(ms[done], calls[done], ms[done], spaces.pmm.free);
        break;
      }
      ghost var before, free, held := Memory(spaces.tables, spaces.places), spaces.pmm.free, spaces.pmm.held;
      var added;
      ghost var a;
      ending, added, a := Perform(spaces, calls[done]);
      if !ending.CloneStopped? {
        TablesTookBoth(old(spaces.pmm.free), old(spaces.pmm.held), old(spaces.tables), free, held, before.tables,
                       spaces.pmm.free, spaces.pmm.held, spaces.tables);
      }
      if !ending.Returned? {
        break;
      }
      ghost var after := Memory(spaces.tables, spaces.places);
      forall r | r in known + added
        ensures IsRoot(spaces.places, r)
      {
        StillRoot(before, a, after, r, added);
      }
      RunExtend(ms, actions, a, after);
      known, actions, ms, done := known + added, actions + [a], ms + [after], done + 1;
    }
    forall i: nat, r1, r2, w: nat |
      i <= done && IsRoot(ms[i].places, r1) && IsRoot(ms[i].places, r2) && w < Span(5) && UpperPage(w)
      ensures SameFrame(Translate(ms[i].tables, r1, 4, w), Translate(ms[i].tables, r2, 4, w))
    {
      UpperShared(ms[i].tables, ms[i].places, r1, r2, w);
    }
  }

  lemma SameKeys(t: Tables, t': Tables, places: Places)
    requires Linked(t, places) && Linked(t', places)
    ensures t'.Keys == t.Keys
  {
  }

  lemma UnknownExplains(m: Memory, call: Call, after: Memory, free: Pmm.Stacks)
    requires Allowed(call)
    ensures Explains(m, call, Unknown, after, free)
  {
  }

  lemma StillRoot(m: Memory, a: Action, m': Memory, r: nat, added: seq<nat>)
    requires Sound(m) && Sound(m') && Step(m, a, m') && added == if a.Clone? then [a.root] else []
    requires IsRoot(m.places, r) || r in added
    ensures IsRoot(m'.places, r)
  {
    if IsRoot(m.places, r) {
      RootsStay(m, a, m', r);
    }
  }

  lemma RunExtend(ms: seq<Memory>, actions: seq<Action>, a: Action, m: Memory)
    requires IsRun(ms, actions) && Sound(m) && Step(ms[|actions|], a, m)
    ensures IsRun(ms + [m], actions + [a])
  {
    hide Sound, Step;
  }
}
