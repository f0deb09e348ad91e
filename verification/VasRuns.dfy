/** Whole runs over several objects and several address spaces. */
module VasRuns {
  import opened Basics
  import opened Levels
  import opened PageTables
  import opened PageMapping
  import opened PageNeeds
  import opened Translation
  import opened Vm
  import opened VmClone
  import opened Paging
  import opened Vmo
  import opened VasPages
  import opened VasTables
  import opened Vas
  import opened AvlTree
  import AvlLinks
  import Pmm

  /** Object `vmo` is mapped in address space `vas`, from address `base` on. */
  datatype Display = Display(vas: Vas, vmo: Vmo, base: nat, user: bool)

  /** What a kernel can be asked to do with objects and address spaces. */
  datatype Command =
    | Sparse(length: nat, layer: nat)
    | Physical(base: nat, length: nat, layer: nat)
    | Back(index: nat)
    | Clone(space: nat)
    | Show(space: nat, index: nat, address: nat, user: bool, readOnly: bool)
    | Drop(index: nat)

  /** Objects, address spaces, page tables and allocator at one moment. */
  datatype Shot = Shot(
    vmos: seq<Vmo>,
    elements: map<Vmo, seq<Element>>,
    vases: seq<Vas>,
    ranges: map<Vas, set<AvlLinks.Element<Extent>>>,
    displays: set<Display>,
    exact: set<Vas>,
    tables: Tables,
    places: Places,
    free: Pmm.Stacks,
    held: set<Pmm.Frame>)

  /** Page tables and allocator at one moment. */
  datatype Memory = Memory(tables: Tables, places: Places, free: Pmm.Stacks, held: set<Pmm.Frame>)

  /** An object holds its frames, and none of them is a page table. */
  ghost predicate Owned(frames: set<Pmm.Frame>, held: set<Pmm.Frame>, t: Tables) {
    frames <= held && forall f :: f in t ==> !Pmm.HeldPage(frames, f)
  }

  /** Free memory is where an entry can point to. */
  ghost predicate FitsMemory(free: Pmm.Stacks) {
    forall p: nat :: Pmm.FreePage(free, p) ==> p < FRAME_NUMBERS
  }

  /** Frames have numbers that fit an entry. */
  ghost predicate Bounded(layer: nat, elements: seq<Element>) {
    forall e :: e in elements && e.backing.Some? ==> e.backing.value + Pmm.Size(layer) <= FRAME_NUMBERS
  }

  /** Tables are added in frames that were free, so that they meet no frame that anyone holds. */
  lemma OwnedStays(frames: set<Pmm.Frame>, free: Pmm.Stacks, held: set<Pmm.Frame>, t: Tables, held': set<Pmm.Frame>, t': Tables)
    requires Pmm.Separated(free, held) && Owned(frames, held, t) && held <= held'
    requires forall f :: f in t' && f !in t ==> Pmm.FreePage(free, f)
    ensures Owned(frames, held', t')
  {
    hide Pmm.Separated, Pmm.FreePage;
    forall f | f in t' ensures !Pmm.HeldPage(frames, f) {
      if f !in t {
        TablesApart(free, held, f);
      }
    }
  }

  /** An object takes frames that were free, so that it meets no table and no other object. */
  lemma TookOwned(free: Pmm.Stacks, held: set<Pmm.Frame>, frames: set<Pmm.Frame>, free': Pmm.Stacks, held': set<Pmm.Frame>, t: Tables)
    requires Pmm.Took(free, held, frames, free', held') && (forall f :: f in t ==> !Pmm.FreePage(free, f))
    ensures Owned(frames, held', t) && frames !! held
    ensures forall p: nat :: Pmm.FreePage(free', p) ==> Pmm.FreePage(free, p)
  {
  }

  lemma TookBounded(free: Pmm.Stacks, held: set<Pmm.Frame>, layer: nat, elements: seq<Element>, free': Pmm.Stacks, held': set<Pmm.Frame>)
    requires Pmm.Took(free, held, Backing(layer, elements), free', held') && layer < Pmm.LAYERS
    requires FitsMemory(free)
    ensures Bounded(layer, elements)
  {
    forall e | e in elements && e.backing.Some?
      ensures e.backing.value + Pmm.Size(layer) <= FRAME_NUMBERS
    {
      var f, p := Pmm.Frame(layer, e.backing.value), e.backing.value + Pmm.Size(layer) - 1;
      assert f in Backing(layer, elements) && Pmm.Holds(f, p);
      assert Pmm.FreePage(free, p);
    }
  }

  /** What committing an object does to its frames. */
  lemma CommitTook(free: Pmm.Stacks, held: set<Pmm.Frame>, vmo: Vmo, free': Pmm.Stacks, held': set<Pmm.Frame>, t: Tables)
    requires Pmm.Took(free, held, vmo.Frames(), free', held') && vmo.layer < Pmm.LAYERS && FitsMemory(free)
    requires forall f :: f in t ==> !Pmm.FreePage(free, f)
    ensures Owned(vmo.Frames(), held', t) && vmo.Frames() !! held && held <= held' && Bounded(vmo.layer, vmo.elements)
    ensures FitsMemory(free') && forall f :: f in t ==> !Pmm.FreePage(free', f)
  {
    hide Pmm.FreePage, Pmm.HeldPage;
    TookOwned(free, held, vmo.Frames(), free', held', t);
    TookBounded(free, held, vmo.layer, vmo.elements, free', held');
  }

  lemma NothingBacked(layer: nat)
    ensures Backing(layer, [Element(0, None)]) == {} && Bounded(layer, [Element(0, None)])
    ensures Backing(layer, []) == {} && Bounded(layer, [])
  {
  }

  lemma FreedFits(free: Pmm.Stacks, layer: nat, elements: seq<Element>, free': Pmm.Stacks)
    requires FitsMemory(free) && Bounded(layer, elements)
    requires forall p: nat :: Pmm.FreePage(free', p) <==> Pmm.FreePage(free, p) || Pmm.HeldPage(Backing(layer, elements), p)
    ensures FitsMemory(free')
  {
    hide Pmm.FreePage;
  }

  lemma PublishedLower(t0: Tables, t1: Tables, places0: Places, places1: Places, cur: nat, g: nat)
    requires Published(t0, t1, places0, places1, cur, g)
    ensures Elsewhere(t0, t1, places0, places1, g)
  {
    LowerRange(0, 0);
    hide Translate, IsRoot, Span;
    forall r | IsRoot(places0, r)
      ensures IsRoot(places1, r) && SameLower(t0, t1, r) && Lasts(t0, t1, r)
    {
      assert SameTranslations(t0, t1, r);
    }
  }

  /** The object can be mapped: all of it, at an address where nothing is in the way. */
  ghost predicate Fitting(t: Tables, r: nat, vmo: Vmo, elements: seq<Element>, base: nat) {
    var first, pages := base / PAGE_BYTES, PagesOf(vmo, elements);
    && base % Unit(vmo.layer) == 0 && (vmo.base.None? ==> vmo.Complete(elements)) && base + pages * PAGE_BYTES < ADDRESS_BYTES
    && !InTheWay(t, r, first, pages) && (vmo.base.Some? ==> InReach(first, pages))
  }

  /** With the object mapped there, pages of the lower half are no longer exactly where mappings are. */
  predicate Blurs(vmo: Vmo, base: nat) {
    vmo.base.None? && vmo.length == 0 && Offset(5, base / PAGE_BYTES) < LOWER_PAGES
  }

  /** Why mapping an object at an address has its result; `free` and `places` are what was free, and where
      tables were, in the end. */
  ghost predicate Reason(t: Tables, reprs: set<AvlLinks.Element<Extent>>, r: nat, vmo: Vmo, elements: seq<Element>,
                         base: nat, readOnly: bool, result: MapResult, free: Pmm.Stacks, places: Places)
  {
    var first, pages := base / PAGE_BYTES, PagesOf(vmo, elements);
    match result
    case Success => Fitting(t, r, vmo, elements, base)
    case Misaligned => base % Unit(vmo.layer) != 0
    case Occupied => exists e :: e in reprs && Meets(Entered(base, vmo.length, readOnly), e.key)
    case Uncommitted => vmo.base.None? && !vmo.Complete(elements)
    case Wraps => base + pages * PAGE_BYTES >= ADDRESS_BYTES
    case Failed(Done) => false
    case Failed(OutOfFrames) => Pmm.Exhausted(free, 0) && Lacking(places, r, first, pages)
    case Failed(RunsOffTable) => vmo.base.Some? && !InReach(first, pages)
    case Failed(_) => InTheWay(t, r, first, pages)
  }

  /** One mapping was added, for the given stretch. */
  ghost predicate GrewBy(before: set<AvlLinks.Element<Extent>>, after: set<AvlLinks.Element<Extent>>, x: Extent) {
    exists e :: e in after && after == before + {e} && e.key == x
  }

  lemma ReasonIs(t: Tables, reprs: set<AvlLinks.Element<Extent>>, r: nat, vmo: Vmo, elements: seq<Element>,
                 base: nat, readOnly: bool, result: MapResult, free: Pmm.Stacks, places: Places)
    requires result.Misaligned? <==> base % Unit(vmo.layer) != 0
    requires result.Occupied? ==> exists e :: e in reprs && Meets(Entered(base, vmo.length, readOnly), e.key)
    requires result.Uncommitted? ==> vmo.base.None? && !vmo.Complete(elements)
    requires var first, pages := base / PAGE_BYTES, PagesOf(vmo, elements);
             && (result.Success? ==>
                   && (vmo.base.None? ==> vmo.Complete(elements)) && base + pages * PAGE_BYTES < ADDRESS_BYTES
                   && !InTheWay(t, r, first, pages) && (vmo.base.Some? ==> InReach(first, pages)))
             && (result.Wraps? ==> base + pages * PAGE_BYTES >= ADDRESS_BYTES)
             && (result == Failed(Remapped) || result == Failed(WalksIntoFrame) ==> InTheWay(t, r, first, pages))
             && (result == Failed(RunsOffTable) ==> vmo.base.Some? && !InReach(first, pages))
             && (result == Failed(OutOfFrames) ==> Pmm.Exhausted(free, 0) && Lacking(places, r, first, pages))
    requires result != Failed(Outcome.Done)
    ensures Reason(t, reprs, r, vmo, elements, base, readOnly, result, free, places)
  {
    hide InTheWay, Lacking, InReach, PagesOf, Vmo.Complete, Unit, Meets, Entered;
  }

  lemma AgreeSame(reprs: set<AvlLinks.Element<Extent>>, t0: Tables, t1: Tables, r: nat)
    requires SameLower(t0, t1, r) && Agree(reprs, t0, r)
    ensures Agree(reprs, t1, r)
  {
    hide Translate, Covered;
    forall w: nat | w < LOWER_PAGES
      ensures Translate(t1, r, 4, w).Some? <==> Covered(reprs, w)
    {
      assert Translate(t1, r, 4, w) == Translate(t0, r, 4, w);
    }
  }

  predicate IsSparse(vmo: Vmo, length: nat, layer: nat)
    requires length < ADDRESS_BYTES
  {
    vmo.base.None? && vmo.layer == layer && vmo.length == Padded(length, layer)
  }

  predicate IsPhysical(vmo: Vmo, base: nat, length: nat, layer: nat)
    requires length < ADDRESS_BYTES
  {
    vmo.base == Some(base) && vmo.layer == layer && vmo.length == Padded(length, layer)
  }

  // ---------------------------------------------------------------------------------------
  // Commands and what they mean

  /** What came of a command: it cannot be given, frames ran out, or mapping did not succeed. */
  datatype Reply = Performed | Refused | NoFrames | Stopped(why: MapResult)

  /** The command names what is there, in 64 bits; and only an object that is mapped nowhere is dropped. */
  ghost predicate Allowed(s: Shot, command: Command) {
    match command
    case Sparse(length, layer) => length < ADDRESS_BYTES && layer < Pmm.LAYERS
    case Physical(base, length, layer) => base < ADDRESS_BYTES && length < ADDRESS_BYTES && layer < Pmm.LAYERS
    case Back(index) => index < |s.vmos|
    case Clone(space) => space <= |s.vases|
    case Show(space, index, address, _, _) => space < |s.vases| && index < |s.vmos| && address < ADDRESS_BYTES
    case Drop(index) => index < |s.vmos| && forall d :: d in s.displays ==> d.vmo != s.vmos[index]
  }

  /** Every object and every address space has its entry. */
  ghost predicate Indexed(s: Shot) {
    s.elements.Keys == (set o | o in s.vmos) && s.ranges.Keys == (set v | v in s.vases)
  }

  /** The command led from `s` to `s'`. */
  ghost predicate Means(boot: nat, s: Shot, command: Command, s': Shot) {
    && Indexed(s) && Indexed(s') && Allowed(s, command)
    && match command
       case Sparse(length, layer) => Creates(s, s', [Element(0, None)]) && IsSparse(s'.vmos[|s.vmos|], length, layer)
       case Physical(base, length, layer) => Creates(s, s', []) && IsPhysical(s'.vmos[|s.vmos|], base, length, layer)
       case Back(index) => Commits(s, s.vmos[index], s')
       case Clone(space) => Clones(s, if space < |s.vases| then s.vases[space].root else boot, s')
       case Show(space, index, address, user, readOnly) => Mounts(s, Display(s.vases[space], s.vmos[index], address, user), readOnly, s')
       case Drop(index) => Destroys(s, index, s')
  }

  ghost predicate Creates(s: Shot, s': Shot, elements: seq<Element>)
    ensures Creates(s, s', elements) ==> |s'.vmos| == |s.vmos| + 1 && s'.displays == s.displays
  {
    && |s'.vmos| == |s.vmos| + 1
    && var vmo := s'.vmos[|s.vmos|];
       vmo !in s.elements && s' == s.(vmos := s.vmos + [vmo], elements := s.elements[vmo := elements])
  }

  ghost predicate Commits(s: Shot, vmo: Vmo, s': Shot)
    requires Indexed(s) && vmo in s.vmos
    ensures Commits(s, vmo, s') ==> s'.displays == s.displays
  {
    if vmo.base.Some? || vmo.Complete(s.elements[vmo]) then s' == s
    else
      && s.elements[vmo] == [Element(0, None)] && vmo in s'.elements && vmo.Complete(s'.elements[vmo])
      && s' == s.(elements := s.elements[vmo := s'.elements[vmo]], free := s'.free, held := s'.held)
      && Pmm.Took(s.free, s.held, Backing(vmo.layer, s'.elements[vmo]), s'.free, s'.held)
  }

  ghost predicate Clones(s: Shot, cur: nat, s': Shot)
    ensures Clones(s, cur, s') ==> s'.displays == s.displays
  {
    && |s'.vases| == |s.vases| + 1
    && var vas := s'.vases[|s.vases|];
       && vas !in s.ranges
       && s' == s.(vases := s.vases + [vas], ranges := s.ranges[vas := {}], exact := s.exact + {vas},
                   tables := s'.tables, places := s'.places, free := s'.free, held := s'.held)
       && Published(s.tables, s'.tables, s.places, s'.places, cur, vas.root)
       && TablesTook(s.free, s.held, s.tables, s'.free, s'.held, s'.tables)
  }

  ghost predicate Mounts(s: Shot, d: Display, readOnly: bool, s': Shot)
    requires Indexed(s) && d.vas in s.vases && d.vmo in s.vmos
    ensures Mounts(s, d, readOnly, s') ==> s'.displays == s.displays + {d}
  {
    && d.vas in s'.ranges
    && s' == s.(ranges := s.ranges[d.vas := s'.ranges[d.vas]], displays := s.displays + {d}, exact := s.exact - (if Blurs(d.vmo, d.base) then {d.vas} else {}),
                tables := s'.tables, places := s'.places, free := s'.free, held := s'.held)
    && GrewBy(s.ranges[d.vas], s'.ranges[d.vas], Extent(d.base, d.base + d.vmo.length, readOnly))
    && Fitting(s.tables, d.vas.root, d.vmo, s.elements[d.vmo], d.base)
    && TablesTook(s.free, s.held, s.tables, s'.free, s'.held, s'.tables)
    && Supplies(s.places, s'.places, d.vas.root, d.base / PAGE_BYTES, PagesOf(d.vmo, s.elements[d.vmo]))
  }

  ghost predicate Destroys(s: Shot, index: nat, s': Shot)
    requires Indexed(s) && index < |s.vmos|
    ensures Destroys(s, index, s') ==> s'.displays == s.displays
  {
    var vmo := s.vmos[index];
    && s' == s.(vmos := s.vmos[..index] + s.vmos[index + 1..], elements := s.elements - {vmo}, free := s'.free, held := s'.held)
    && s'.held == s.held - Backing(vmo.layer, s.elements[vmo])
    && forall p: nat :: Pmm.FreePage(s'.free, p) <==> Pmm.FreePage(s.free, p) || Pmm.HeldPage(Backing(vmo.layer, s.elements[vmo]), p)
  }

  /** Frames went to some pieces of the object, and to no one else. */
  ghost predicate Halfway(s: Shot, vmo: Vmo, m: Memory) {
    && m.tables == s.tables
    && exists elements :: !vmo.Complete(elements) && Pmm.Took(s.free, s.held, Backing(vmo.layer, elements), m.free, m.held)
  }

  /** Why the command did not get done; `m` is what memory was like then. */
  ghost predicate Explains(boot: nat, s: Shot, command: Command, reply: Reply, m: Memory) {
    match reply
    case Performed => false
    case Refused => !Allowed(s, command)
    case NoFrames =>
      && Allowed(s, command)
      && (|| (command.Back? && Pmm.Exhausted(m.free, s.vmos[command.index].layer) && Halfway(s, s.vmos[command.index], m))
          || (command.Clone? && Pmm.Exhausted(m.free, 0)
              && Stuck(s.tables, s.free, s.held, m.tables, m.free, m.held,
                       if command.space < |s.vases| then s.vases[command.space].root else boot)))
    case Stopped(why) =>
      && Indexed(s) && Allowed(s, command) && command.Show? && !why.Success?
      && var vas, vmo := s.vases[command.space], s.vmos[command.index];
         && Reason(s.tables, s.ranges[vas], vas.root, vmo, s.elements[vmo], command.address, command.readOnly, why, m.free, m.places)
         && TablesTook(s.free, s.held, s.tables, m.free, m.held, m.tables)
         && Supplies(s.places, m.places, vas.root, command.address / PAGE_BYTES, PagesOf(vmo, s.elements[vmo]))
         && (vas in s.exact && vmo.length > 0 && (why == Failed(Remapped) || why == Failed(WalksIntoFrame)) ==>
               || command.address + vmo.length >= ADDRESS_BYTES
               || Unforeseen(s.ranges[vas], s.tables, vas.root, command.address / PAGE_BYTES, PagesOf(vmo, s.elements[vmo])))
  }

  // ---------------------------------------------------------------------------------------
  // What holds at every moment

  ghost predicate ObjectOk(s: Shot, vmo: Vmo) {
    && vmo in s.elements && vmo.layer < Pmm.LAYERS
    && Owned(Backing(vmo.layer, s.elements[vmo]), s.held, s.tables) && Bounded(vmo.layer, s.elements[vmo])
  }

  ghost predicate DisplayOk(s: Shot, d: Display) {
    && d.vas in s.vases && d.vmo in s.vmos && ObjectOk(s, d.vmo)
    && if d.vmo.base.Some? then
         Exposes(s.tables, d.vas.root, d.base / PAGE_BYTES, PagesOf(d.vmo, s.elements[d.vmo]), d.vmo.base.value / PAGE_BYTES, d.user)
       else
         && d.vmo.Complete(s.elements[d.vmo])
         && Displays(s.tables, d.vas.root, d.vmo.layer, s.elements[d.vmo], d.base / PAGE_BYTES, d.user)
  }

  /** No two mappings of an address space overlap. */
  ghost predicate SpaceOk(s: Shot, vas: Vas) {
    && vas in s.ranges && IsRoot(s.places, vas.root)
    && (forall a, b :: a in s.ranges[vas] && b in s.ranges[vas] && a != b ==> !Meets(a.key, b.key))
    && (vas in s.exact ==> Agree(s.ranges[vas], s.tables, vas.root))
  }

  /** Objects hold different frames, none of them a page table; every object that is mapped is on
      display wherever it is mapped; no mappings of an address space overlap, and in those that are
      exact they agree with the translations. */
  ghost predicate Sane(s: Shot) {
    && Indexed(s) && Pmm.Separated(s.free, s.held)
    && (forall vmo :: vmo in s.vmos ==> ObjectOk(s, vmo))
    && (forall a, b :: a in s.vmos && b in s.vmos && a != b ==> Backing(a.layer, s.elements[a]) !! Backing(b.layer, s.elements[b]))
    && (forall d :: d in s.displays ==> DisplayOk(s, d))
    && (forall vas :: vas in s.vases ==> SpaceOk(s, vas))
    && (forall a, b :: a in s.vases && b in s.vases && a != b ==> a.root != b.root)
  }

  /** The states of a run, one more than commands. */
  ghost predicate IsTrace(boot: nat, shots: seq<Shot>, commands: seq<Command>) {
    && |shots| == |commands| + 1
    && (forall i :: 0 <= i < |shots| ==> Sane(shots[i]))
    && (forall i :: 0 <= i < |commands| ==> Means(boot, shots[i], commands[i], shots[i + 1]))
  }

  lemma TraceStart(boot: nat, s: Shot)
    requires Sane(s)
    ensures IsTrace(boot, [s], [])
  {
    hide Sane;
  }

  lemma TraceExtend(boot: nat, shots: seq<Shot>, commands: seq<Command>, command: Command, s: Shot)
    requires IsTrace(boot, shots, commands) && Sane(s)
    requires Means(boot, shots[|commands|], command, s)
    ensures IsTrace(boot, shots + [s], commands + [command])
  {
    hide Sane, Means;
  }

  /** Two pages of objects on display, in whichever address spaces, are in the same frame exactly if they
      are the same page of the same object; and that frame is no page table. */
  lemma NeverOverlap(s: Shot, d1: Display, k1: nat, d2: Display, k2: nat)
    requires Sane(s) && d1 in s.displays && d2 in s.displays && d1.vmo.base.None? && d2.vmo.base.None?
    requires k1 < |s.elements[d1.vmo]| * Pmm.Size(d1.vmo.layer) && k2 < |s.elements[d2.vmo]| * Pmm.Size(d2.vmo.layer)
    ensures var a := Translate(s.tables, d1.vas.root, 4, Offset(5, d1.base / PAGE_BYTES + k1));
            var b := Translate(s.tables, d2.vas.root, 4, Offset(5, d2.base / PAGE_BYTES + k2));
            && a.Some? && b.Some? && a.value.frame !in s.tables
            && (a.value.frame == b.value.frame <==> d1.vmo == d2.vmo && k1 == k2)
  {
    hide Translate, Pmm.Separated, PageFrame, Offset, Span, PageNo, Displays, Owned, Bounded, Agree, Meets, Indexed, Vmo.Complete;
    OnePage(s, d1, k1);
    OnePage(s, d2, k2);
    if d1.vmo != d2.vmo || k1 != k2 {
      NeverOverlaps(s.tables, s.free, s.held,
                    d1.vas.root, d1.vmo.layer, s.elements[d1.vmo], d1.base / PAGE_BYTES, Offset(5, d1.base / PAGE_BYTES + k1), d1.user,
                    d2.vas.root, d2.vmo.layer, s.elements[d2.vmo], d2.base / PAGE_BYTES, Offset(5, d2.base / PAGE_BYTES + k2), d2.user);
    }
  }

  /** A page on display is in a frame of its object, which is no page table. */
  lemma OnePage(s: Shot, d: Display, k: nat)
    requires DisplayOk(s, d) && d.vmo.base.None? && k < |s.elements[d.vmo]| * Pmm.Size(d.vmo.layer)
    ensures var first, elements := d.base / PAGE_BYTES, s.elements[d.vmo];
            var w := Offset(5, first + k);
            && w < Span(5) && PageNo(first, w) == k && k / Pmm.Size(d.vmo.layer) < |elements| && elements[k / Pmm.Size(d.vmo.layer)].backing.Some?
            && Within(d.vmo.layer, elements, s.held)
            && OnPage(s.tables, d.vas.root, d.vmo.layer, elements, first, w, d.user)
            && var f := PageFrame(d.vmo.layer, elements, k); f !in s.tables && f % FRAME_NUMBERS == f
  {
    hide Translate, PageFrame, Offset, Span, PageNo;
    var layer, elements, first := d.vmo.layer, s.elements[d.vmo], d.base / PAGE_BYTES;
    PageNoOf(first, k);
    assert OnPage(s.tables, d.vas.root, layer, elements, first, Offset(5, first + k), d.user);
    InMemory(layer, elements, s.held, k);
    FrameHolds(layer, elements, k);
  }

  /** What is put on display stays on display. */
  lemma {:induction false} DisplayStays(boot: nat, shots: seq<Shot>, commands: seq<Command>, d: Display, i: nat, m: nat)
    requires IsTrace(boot, shots, commands) && i <= m <= |commands| && d in shots[i].displays
    ensures d in shots[m].displays
    decreases m
  {
    hide Sane, Creates, Commits, Clones, Mounts, Destroys;
    if i < m {
      DisplayStays(boot, shots, commands, d, i, m - 1);
      assert Means(boot, shots[m - 1], commands[m - 1], shots[m]);
    }
  }

  /** The command puts `d` on display. */
  ghost predicate Presents(s: Shot, command: Command, d: Display) {
    command.Show? && Allowed(s, command) && d == Display(s.vases[command.space], s.vmos[command.index], command.address, command.user)
  }

  lemma Presented(boot: nat, shots: seq<Shot>, commands: seq<Command>, i: nat, d: Display, m: nat)
    requires IsTrace(boot, shots, commands) && i < m <= |commands| && Presents(shots[i], commands[i], d)
    ensures d in shots[m].displays && d.vmo in shots[m].elements
  {
    hide Creates, Commits, Clones, Mounts, Destroys, Sane;
    assert Means(boot, shots[i], commands[i], shots[i + 1]);
    DisplayStays(boot, shots, commands, d, i + 1, m);
    KnownDisplay(shots[m], d);
  }

  lemma KnownDisplay(s: Shot, d: Display)
    requires Sane(s) && d in s.displays
    ensures d.vmo in s.elements
  {
    assert DisplayOk(s, d);
  }

  /** At every moment after two sparse objects were shown, whatever was done in between and since, their
      pages are in the same frame exactly if they are the same page of the same object. */
  lemma ShownApart(boot: nat, shots: seq<Shot>, commands: seq<Command>, i: nat, d1: Display, j: nat, d2: Display, m: nat, k1: nat, k2: nat)
    requires IsTrace(boot, shots, commands) && i < m <= |commands| && j < m
    requires Presents(shots[i], commands[i], d1) && Presents(shots[j], commands[j], d2) && d1.vmo.base.None? && d2.vmo.base.None?
    ensures var s := shots[m];
            && d1.vmo in s.elements && d2.vmo in s.elements
            && (k1 < |s.elements[d1.vmo]| * Pmm.Size(d1.vmo.layer) && k2 < |s.elements[d2.vmo]| * Pmm.Size(d2.vmo.layer) ==>
                  var a := Translate(s.tables, d1.vas.root, 4, Offset(5, d1.base / PAGE_BYTES + k1));
                  var b := Translate(s.tables, d2.vas.root, 4, Offset(5, d2.base / PAGE_BYTES + k2));
                  && a.Some? && b.Some? && a.value.frame !in s.tables
                  && (a.value.frame == b.value.frame <==> d1.vmo == d2.vmo && k1 == k2))
  {
    hide Translate, Offset, Means, Sane, Pmm.Size, Presents;
    var s := shots[m];
    Presented(boot, shots, commands, i, d1, m);
    Presented(boot, shots, commands, j, d2, m);
    assert Sane(s);
    if k1 < |s.elements[d1.vmo]| * Pmm.Size(d1.vmo.layer) && k2 < |s.elements[d2.vmo]| * Pmm.Size(d2.vmo.layer) {
      NeverOverlap(s, d1, k1, d2, k2);
    }
  }

  /** At every moment after a physical object was shown, each page of it is in the frame that the mapping
      loop's closed form gives, with the user bit that was asked for. */
  lemma ShownPhysical(boot: nat, shots: seq<Shot>, commands: seq<Command>, i: nat, d: Display, m: nat, k: nat)
    requires IsTrace(boot, shots, commands) && i < m <= |commands| && Presents(shots[i], commands[i], d)
    requires d.vmo.base.Some? && k < d.vmo.length / PAGE_BYTES
    ensures var ws, p := Offset(5, d.base / PAGE_BYTES), d.vmo.base.value / PAGE_BYTES;
            var o := Translate(shots[m].tables, d.vas.root, 4, ws + k);
            && ws + k < Span(5) && o.Some?
            && o.value.frame == MappedFrame(4, ws, p, ws + k) % FRAME_NUMBERS && o.value.user == d.user
            && (ws + k < LOWER_PAGES && d.user ==> o.value.pathUser)
  {
    hide Translate, Offset, Means, Presents, MappedFrame, Span, Pmm.Separated, SpaceOk, ObjectOk, Displays;
    Presented(boot, shots, commands, i, d, m);
    assert Sane(shots[m]) && DisplayOk(shots[m], d);
    var ws, p := Offset(5, d.base / PAGE_BYTES), d.vmo.base.value / PAGE_BYTES;
    assert OnFrame(shots[m].tables, d.vas.root, ws + k, MappedFrame(4, ws, p, ws + k) % FRAME_NUMBERS, d.user);
  }

  // ---------------------------------------------------------------------------------------
  // The system

  class System {
    const spaces: AddressSpaces
    /** The address space that the kernel started with. */
    const boot: nat
    var vmos: seq<Vmo>
    var vases: seq<Vas>
    var displays: set<Display>
    /** The address spaces without an empty sparse object. */
    ghost var exact: set<Vas>

    ghost function Objects(): set<Vmo>
      reads this`vmos
    {
      set o | o in vmos
    }

    ghost function Trees(): set<AvlTree<Extent>>
      reads this`vases
    {
      set v | v in vases :: v.mappings
    }

    ghost function Nodes(): set<AvlLinks.Element<Extent>>
      reads this`vases, Trees()
    {
      set v, e | v in vases && e in v.mappings.Repr :: e
    }

    ghost function PieceTrees(): set<AvlTree<nat>>
      reads this`vmos
    {
      set o | o in vmos :: o.tree
    }

    ghost function PieceNodes(): set<Node>
      reads this`vmos, PieceTrees()
    {
      set o, e | o in vmos && e in o.tree.Repr :: e
    }

    /** What belongs to the system but did not before is new. */
    twostate predicate NewOnly()
      reads this`vmos, this`vases, Trees(), PieceTrees()
    {
      && (forall o :: o in vmos ==> o in old(vmos) || fresh(o))
      && (forall o :: o in PieceTrees() ==> o in old(PieceTrees()) || fresh(o))
      && (forall o :: o in PieceNodes() ==> o in old(PieceNodes()) || fresh(o))
      && (forall o :: o in Trees() ==> o in old(Trees()) || fresh(o))
      && (forall o :: o in Nodes() ==> o in old(Nodes()) || fresh(o))
    }

    twostate lemma TreesGrew()
      requires forall o :: o in vmos ==>
                 && (o in old(vmos) || (fresh(o) && fresh(o.tree)))
                 && (forall e :: e in o.tree.Repr ==> fresh(e) || (o in old(vmos) && e in old(o.tree.Repr)))
      requires forall v :: v in vases ==>
                 && (v in old(vases) || fresh(v.mappings))
                 && (forall e :: e in v.mappings.Repr ==> fresh(e) || (v in old(vases) && e in old(v.mappings.Repr)))
      ensures NewOnly()
    {
    }

    /** Objects hold different frames. */
    ghost predicate VmosOk()
      reads this`vmos, spaces`tables, spaces.pmm`held, vmos
    {
      && (forall i :: 0 <= i < |vmos| ==>
            && vmos[i].Valid() && Owned(vmos[i].Frames(), spaces.pmm.held, spaces.tables)
            && Bounded(vmos[i].layer, vmos[i].elements))
      && (forall i, j :: 0 <= i < j < |vmos| ==> vmos[i] != vmos[j] && vmos[i].Frames() !! vmos[j].Frames())
    }

    /** The pieces of every object are in a tree of its own. */
    ghost predicate PiecesOk()
      reads this`vmos, vmos, PieceTrees(), PieceNodes()
    {
      && (forall i :: 0 <= i < |vmos| ==> vmos[i].Stored())
      && (forall i, j :: 0 <= i < j < |vmos| ==> vmos[i].tree != vmos[j].tree && vmos[i].tree.Repr !! vmos[j].tree.Repr)
    }

    /** Address spaces have different roots and different trees of mappings. */
    ghost predicate VasesOk()
      reads this`vases, spaces`places, Trees(), Nodes()
    {
      && IsRoot(spaces.places, boot)
      && (forall i :: 0 <= i < |vases| ==>
            vases[i].spaces == spaces && IsRoot(spaces.places, vases[i].root) && vases[i].Tidy())
      && (forall i, j :: 0 <= i < j < |vases| ==>
            && vases[i].root != vases[j].root && vases[i].mappings != vases[j].mappings
            && vases[i].mappings.Repr !! vases[j].mappings.Repr)
    }

    /** Every object that is mapped somewhere is on display there, all of it. */
    ghost predicate DisplaysOk()
      reads this`vmos, this`vases, this`displays, spaces`tables, vmos
    {
      forall d :: d in displays ==> d.vas in vases && d.vmo in vmos && OnDisplay(spaces.tables, d.vas.root, d.vmo, d.base, d.user)
    }

    ghost predicate ExactOk()
      reads this`vases, this`exact, spaces`tables, Trees()
    {
      forall v :: v in exact ==> v in vases && Agree(v.mappings.Repr, spaces.tables, v.root)
    }

    ghost predicate Valid()
      reads this, spaces, spaces.pmm, vmos, Trees(), Nodes(), PieceTrees(), PieceNodes()
    {
      && spaces.Valid() && FitsMemory(spaces.pmm.free)
      && VmosOk() && PiecesOk() && VasesOk() && DisplaysOk() && ExactOk()
    }

    /** Nothing happened to the trees of pieces. */
    twostate lemma KeepPieces()
      requires old(PiecesOk()) && unchanged(this`vmos)
      requires forall o :: o in vmos ==> unchanged(o) && unchanged(o.tree) && unchanged(o.tree.Repr)
      ensures PiecesOk()
    {
      hide Vmo.Stored;
      forall i | 0 <= i < |vmos| ensures vmos[i].Stored() && vmos[i].tree.Repr == old(vmos[i].tree.Repr) {
        assert vmos[i] in vmos && old(vmos[i].Stored());
      }
    }

    /** A change to one tree of pieces does not concern the others. */
    twostate lemma PiecesChanged(j: nat)
      requires old(PiecesOk()) && unchanged(this`vmos) && j < |vmos|
      requires vmos[j].Stored() && fresh(vmos[j].tree.Repr - old(vmos[j].tree.Repr))
      requires forall k :: 0 <= k < |vmos| && k != j ==> unchanged(vmos[k]) && unchanged(vmos[k].tree) && unchanged(vmos[k].tree.Repr)
      ensures PiecesOk()
    {
      hide Vmo.Stored;
      forall k | 0 <= k < |vmos| ensures vmos[k].Stored() {
        assert k != j ==> old(vmos[k].Stored());
      }
    }

    lemma PiecesApart(j: nat)
      requires PiecesOk() && j < |vmos|
      ensures vmos[j].Stored()
      ensures forall k :: 0 <= k < |vmos| && k != j ==>
                vmos[k].tree != vmos[j].tree && vmos[k].tree.Repr !! vmos[j].tree.Repr
    {
      hide Vmo.Stored;
      forall k | 0 <= k < |vmos| && k != j
        ensures vmos[k].tree != vmos[j].tree && vmos[k].tree.Repr !! vmos[j].tree.Repr
      {
        assert if k < j then vmos[k].tree != vmos[j].tree else vmos[j].tree != vmos[k].tree;
      }
    }

    constructor (spaces: AddressSpaces, boot: nat)
      requires spaces.Valid() && IsRoot(spaces.places, boot)
      requires FitsMemory(spaces.pmm.free)
      ensures Valid() && this.spaces == spaces && this.boot == boot && vmos == [] && vases == [] && displays == {}
    {
      this.spaces, this.boot, vmos, vases, displays, exact := spaces, boot, [], [], {}, {};
    }

    method CreateSparse(length: nat, layer: nat)
      requires Valid() && length < ADDRESS_BYTES && layer < Pmm.LAYERS
      modifies this`vmos
      ensures Valid() && |vmos| == |old(vmos)| + 1 && vmos[..|old(vmos)|] == old(vmos) && NewOnly()
      ensures var vmo := vmos[|old(vmos)|];
              fresh(vmo) && IsSparse(vmo, length, layer) && vmo.elements == [Element(0, None)]
    {
      hide AddressSpaces.Valid, FitsMemory, OnDisplay, Agree, Vas.Tidy, Vmo.Valid, Vmo.Stored, Owned, Bounded, NewOnly, Padded;
      var vmo := new Vmo.Sparse(length, layer);
      NothingBacked(layer);
      Add(vmo);
      TreesGrew();
    }

    method CreatePhysical(base: nat, length: nat, layer: nat)
      requires Valid() && base < ADDRESS_BYTES && length < ADDRESS_BYTES && layer < Pmm.LAYERS
      modifies this`vmos
      ensures Valid() && |vmos| == |old(vmos)| + 1 && vmos[..|old(vmos)|] == old(vmos) && NewOnly()
      ensures var vmo := vmos[|old(vmos)|];
              fresh(vmo) && IsPhysical(vmo, base, length, layer) && vmo.elements == []
    {
      hide AddressSpaces.Valid, FitsMemory, OnDisplay, Agree, Vas.Tidy, Vmo.Valid, Vmo.Stored, Owned, Bounded, NewOnly, Padded;
      var vmo := new Vmo.Physical(base, length, layer);
      NothingBacked(layer);
      Add(vmo);
      TreesGrew();
    }

    /** An object that holds no frame yet. */
    method Add(vmo: Vmo)
      requires Valid() && vmo.Valid() && vmo !in vmos && vmo.Frames() == {} && Bounded(vmo.layer, vmo.elements)
      requires vmo.Stored() && vmo.tree !in PieceTrees() && vmo.tree.Repr !! PieceNodes()
      modifies this`vmos
      ensures Valid() && vmos == old(vmos) + [vmo]
    {
      hide AddressSpaces.Valid, FitsMemory, OnDisplay, Agree, Vas.Tidy, Vmo.Valid, Vmo.Frames, Vmo.Stored;
      assert Owned({}, spaces.pmm.held, spaces.tables);
      vmos := vmos + [vmo];
    }

    /** Backs all of an object with frames, unless there are too few. */
    method Commit(j: nat) returns (ok: bool)
      requires Valid() && j < |vmos|
      modifies vmos[j], vmos[j].tree, vmos[j].tree.Repr, spaces.pmm
      ensures ok ==> Valid() && (vmos[j].base.None? ==> vmos[j].Committed()) && NewOnly()
      ensures ok ==>
                if vmos[j].base.Some? || old(vmos[j].Committed()) then vmos[j].elements == old(vmos[j].elements) && unchanged(spaces.pmm)
                else Pmm.Took(old(spaces.pmm.free), old(spaces.pmm.held), vmos[j].Frames(), spaces.pmm.free, spaces.pmm.held)
      ensures ok && vmos[j].base.None? && !old(vmos[j].Committed()) ==> old(vmos[j].elements) == [Element(0, None)]
      ensures !ok ==>
                && Pmm.Exhausted(spaces.pmm.free, vmos[j].layer) && !vmos[j].Committed()
                && Pmm.Took(old(spaces.pmm.free), old(spaces.pmm.held), vmos[j].Frames(), spaces.pmm.free, spaces.pmm.held)
    {
      hide Agree, Vas.Tidy, Bounded, Owned, Linked, Rooted, Pmm.Separated, Pmm.FreePage, Pmm.HeldPage, Vmo.Stored, Vmo.Valid,
           Vmo.Frames, PiecesOk, VmosOk, DisplaysOk, NewOnly, Pmm.Took, FitsMemory;
      var vmo := vmos[j];
      PiecesApart(j);
      Holds(j);
      ghost var free, held := spaces.pmm.free, spaces.pmm.held;
      ok := vmo.CommitAll(spaces.pmm);
      if ok {
        if vmo.base.None? && !old(vmo.Committed()) {
          CommitTook(free, held, vmo, spaces.pmm.free, spaces.pmm.held, spaces.tables);
        }
        VmoCommitted(j);
        DisplaysCommitted(j);
        PiecesChanged(j);
        TreesGrew();
      }
    }

    /** One object holds its frames after being committed, and the others still do. */
    twostate lemma VmoCommitted(j: nat)
      requires old(VmosOk()) && unchanged(this`vmos) && unchanged(spaces`tables) && j < |vmos| && old(spaces.pmm.held) <= spaces.pmm.held
      requires forall k :: 0 <= k < |vmos| && k != j ==> unchanged(vmos[k])
      requires vmos[j].Valid() && Owned(vmos[j].Frames(), spaces.pmm.held, spaces.tables) && Bounded(vmos[j].layer, vmos[j].elements)
      requires vmos[j].Frames() == old(vmos[j].Frames()) || vmos[j].Frames() !! old(spaces.pmm.held)
      ensures VmosOk()
    {
      hide Bounded, Pmm.HeldPage, Vmo.Frames;
      forall k | 0 <= k < |vmos| && k != j
        ensures vmos[k].Valid() && vmos[k].Frames() == old(vmos[k].Frames()) && vmos[k].elements == old(vmos[k].elements)
      {
        assert unchanged(vmos[k]) && old(vmos[k].Valid());
      }
    }

    /** What is on display is committed already. */
    twostate lemma DisplaysCommitted(j: nat)
      requires old(DisplaysOk()) && unchanged(this) && unchanged(spaces) && j < |vmos|
      requires forall k :: 0 <= k < |vmos| && k != j ==> unchanged(vmos[k])
      requires vmos[j].base.Some? || old(vmos[j].Committed()) ==> unchanged(vmos[j])
      ensures DisplaysOk()
    {
      hide Displays, Exposes, Vmo.Complete;
      forall d | d in displays
        ensures OnDisplay(spaces.tables, d.vas.root, d.vmo, d.base, d.user)
      {
        var k :| 0 <= k < |vmos| && vmos[k] == d.vmo;
        assert old(OnDisplay(spaces.tables, d.vas.root, d.vmo, d.base, d.user));
        assert unchanged(vmos[k]);
      }
    }

    /** New tables do not concern the objects. */
    twostate lemma KeepVmos()
      requires old(spaces.Valid() && FitsMemory(spaces.pmm.free) && VmosOk())
      requires unchanged(this`vmos) && forall o :: o in vmos ==> unchanged(o)
      requires spaces.TookFrom(old(spaces.pmm.free), old(spaces.pmm.held), old(spaces.tables))
      ensures VmosOk() && FitsMemory(spaces.pmm.free)
    {
      hide Pmm.FreePage, Pmm.HeldPage, Pmm.Separated, Owned, Bounded, Linked, Rooted, TablesTook;
      Stacked'();
      TablesTookPages(old(spaces.pmm.free), old(spaces.pmm.held), old(spaces.tables), spaces.pmm.free, spaces.pmm.held, spaces.tables);
      forall i | 0 <= i < |vmos|
        ensures vmos[i].Valid() && vmos[i].elements == old(vmos[i].elements)
        ensures Owned(vmos[i].Frames(), spaces.pmm.held, spaces.tables)
      {
        assert vmos[i] in vmos && unchanged(vmos[i]);
        OwnedStays(old(vmos[i].Frames()), old(spaces.pmm.free), old(spaces.pmm.held), old(spaces.tables), spaces.pmm.held, spaces.tables);
      }
    }

    twostate lemma Stacked'()
      requires old(spaces.Valid())
      ensures Pmm.Separated(old(spaces.pmm.free), old(spaces.pmm.held))
    {
    }

    /** What is on display stays so, if every address space keeps what its lower half shows. */
    twostate lemma KeepDisplays()
      requires old(VmosOk() && DisplaysOk()) && unchanged(this`vmos)
      requires (forall o :: o in vmos ==> unchanged(o)) && old(vases) <= vases
      requires forall v :: v in old(vases) ==> Lasts(old(spaces.tables), spaces.tables, v.root)
      ensures forall d :: d in old(displays) ==>
                d.vas in vases && d.vmo in vmos && OnDisplay(spaces.tables, d.vas.root, d.vmo, d.base, d.user)
    {
      hide Lasts, Displays, Exposes;
      forall d | d in old(displays)
        ensures OnDisplay(spaces.tables, d.vas.root, d.vmo, d.base, d.user)
      {
        assert old(OnDisplay(spaces.tables, d.vas.root, d.vmo, d.base, d.user)) && d.vmo in vmos && unchanged(d.vmo);
        StillOnDisplay(old(spaces.tables), spaces.tables, d.vas.root, d.vmo, d.base, d.user);
      }
    }

    /** A new root leaves the lower halves of the others as they were. */
    twostate lemma RootAdded(g: nat)
      requires old(VasesOk()) && !IsRoot(old(spaces.places), g)
      requires Elsewhere(old(spaces.tables), spaces.tables, old(spaces.places), spaces.places, g)
      ensures forall v :: v in old(vases) ==>
                && v.root != g && SameLower(old(spaces.tables), spaces.tables, v.root)
                && Lasts(old(spaces.tables), spaces.tables, v.root)
      ensures forall r :: IsRoot(old(spaces.places), r) ==> IsRoot(spaces.places, r)
    {
      hide SameLower, Lasts, Vas.Tidy, IsRoot;
    }

    /** The new address space comes with a tree of its own. */
    twostate lemma VasAdded(new v: Vas)
      requires old(VasesOk()) && vases == old(vases) + [v] && v.spaces == spaces && v.Tidy() && fresh(v.mappings) && v.mappings.Repr == {}
      requires IsRoot(spaces.places, v.root) && (forall u :: u in old(vases) ==> u.root != v.root)
      requires forall r :: IsRoot(old(spaces.places), r) ==> IsRoot(spaces.places, r)
      requires forall u :: u in old(vases) ==> unchanged(u.mappings) && unchanged(u.mappings.Repr)
      ensures VasesOk()
    {
      hide Vas.Tidy, IsRoot;
      forall i | 0 <= i < |old(vases)|
        ensures vases[i].Tidy()
      {
        assert vases[i] in old(vases) && old(vases[i].Tidy());
      }
    }

    /** A new address space, a clone of the one with root `cur`. */
    method NewVas(cur: nat) returns (ok: bool)
      requires Valid() && IsRoot(spaces.places, cur)
      modifies this`vases, this`exact, spaces, spaces.pmm
      ensures ok ==> Valid() && |vases| == |old(vases)| + 1 && vases[..|old(vases)|] == old(vases) && NewOnly()
      ensures ok ==>
                var vas := vases[|old(vases)|];
                && fresh(vas) && vas.mappings.Repr == {} && exact == old(exact) + {vas}
                && Published(old(spaces.tables), spaces.tables, old(spaces.places), spaces.places, cur, vas.root)
                && spaces.TookFrom(old(spaces.pmm.free), old(spaces.pmm.held), old(spaces.tables))
      ensures !ok ==>
                && Pmm.Exhausted(spaces.pmm.free, 0)
                && Stuck(old(spaces.tables), old(spaces.pmm.free), old(spaces.pmm.held),
                         spaces.tables, spaces.pmm.free, spaces.pmm.held, cur)
    {
      hide Agree, Vas.Tidy, Linked, Rooted, Published, VmosOk, VasesOk, OnDisplay, FitsMemory, Pmm.Separated, Pmm.FreePage,
           SameLower, Lasts, NewOnly, IsRoot, Elsewhere, DisplaysOk, PiecesOk, Stuck, TablesTook;
      var vas := CreateVas(spaces, cur);
      if vas == null {
        return false;
      }
      PublishedLower(old(spaces.tables), spaces.tables, old(spaces.places), spaces.places, cur, vas.root);
      RootAdded(vas.root);
      forall v | v in exact
        ensures Agree(v.mappings.Repr, spaces.tables, v.root)
      {
        AgreeSame(v.mappings.Repr, old(spaces.tables), spaces.tables, v.root);
      }
      vases := vases + [vas];
      exact := exact + {vas};
      VasAdded(vas);
      KeepVmos();
      KeepPieces();
      KeepDisplays();
      StillDisplayed();
      TreesGrew();
      ok := true;
    }

    /** Nothing is on display but what was and is meant to be. */
    twostate lemma StillDisplayed()
      requires forall d :: d in displays && d !in old(displays) ==>
                 d.vas in vases && d.vmo in vmos && OnDisplay(spaces.tables, d.vas.root, d.vmo, d.base, d.user)
      requires forall d :: d in old(displays) ==>
                 d.vas in vases && d.vmo in vmos && OnDisplay(spaces.tables, d.vas.root, d.vmo, d.base, d.user)
      ensures DisplaysOk()
    {
      hide OnDisplay;
    }

    /** A change to one tree of mappings does not concern the others. */
    twostate lemma KeepVases(i: nat)
      requires old(VasesOk()) && unchanged(this`vases) && i < |vases|
      requires vases[i].Tidy() && fresh(vases[i].mappings.Repr - old(vases[i].mappings.Repr))
      requires forall k :: 0 <= k < |vases| && k != i ==> unchanged(vases[k].mappings) && unchanged(vases[k].mappings.Repr)
      requires forall r :: IsRoot(old(spaces.places), r) ==> IsRoot(spaces.places, r)
      ensures VasesOk()
    {
      hide Vas.Tidy, IsRoot;
      forall k | 0 <= k < |vases|
        ensures vases[k].Tidy()
      {
        assert k != i ==> old(vases[k].Tidy());
      }
    }

    lemma Ready(i: nat, j: nat)
      requires Valid() && i < |vases| && j < |vmos|
      ensures vases[i].spaces == spaces && vases[i].Valid()
      ensures vmos[j].Valid() && vmos[j].Stored() && Placeable(vmos[j]) && vmos[j].Frames() <= spaces.pmm.held
      ensures vases[i] in exact ==> vases[i].Exact()
    {
      hide Vas.Tidy, Linked, Rooted, DisplaysOk, Agree, FitsMemory, Vmo.Stored;
      assert Bounded(vmos[j].layer, vmos[j].elements);
    }

    /** Every address space shows what it did. */
    twostate lemma AllLast(r: nat)
      requires old(VasesOk()) && unchanged(this`vases)
      requires Elsewhere(old(spaces.tables), spaces.tables, old(spaces.places), spaces.places, r)
      ensures forall v :: v in vases ==> Lasts(old(spaces.tables), spaces.tables, v.root)
      ensures forall s :: IsRoot(old(spaces.places), s) ==> IsRoot(spaces.places, s)
    {
      hide Lasts, SameLower, Vas.Tidy, IsRoot;
    }

    lemma OthersApart(i: nat)
      requires VasesOk() && i < |vases|
      ensures forall k :: 0 <= k < |vases| && k != i ==>
                vases[k].mappings != vases[i].mappings && vases[k].mappings.Repr !! vases[i].mappings.Repr
    {
      hide Vas.Tidy;
      forall k | 0 <= k < |vases| && k != i
        ensures vases[k].mappings != vases[i].mappings && vases[k].mappings.Repr !! vases[i].mappings.Repr
      {
        assert if k < i then vases[k].root != vases[i].root else vases[i].root != vases[k].root;
      }
    }

    /** Mappings and translations agree where they did. */
    twostate lemma KeepExact(i: nat)
      requires old(VasesOk() && ExactOk()) && unchanged(this`vases) && i < |vases| && exact <= old(exact)
      requires Elsewhere(old(spaces.tables), spaces.tables, old(spaces.places), spaces.places, vases[i].root)
      requires forall k :: 0 <= k < |vases| && k != i ==> unchanged(vases[k].mappings)
      requires vases[i] in exact ==> Agree(vases[i].mappings.Repr, spaces.tables, vases[i].root)
      ensures ExactOk()
    {
      hide SameLower, Lasts, Vas.Tidy, IsRoot, Agree;
      forall v | v in exact && v != vases[i]
        ensures Agree(v.mappings.Repr, spaces.tables, v.root)
      {
        var k :| 0 <= k < |vases| && vases[k] == v;
        AgreeSame(v.mappings.Repr, old(spaces.tables), spaces.tables, v.root);
      }
    }

    /** What mapping does to the address space, before it is taken note of. */
    method Enter(i: nat, j: nat, base: nat, user: bool, readOnly: bool) returns (r: MapResult)
      requires Valid() && i < |vases| && j < |vmos| && base < ADDRESS_BYTES
      modifies spaces, spaces.pmm, vases[i].mappings, vases[i].mappings.Repr
      ensures spaces.TookFrom(old(spaces.pmm.free), old(spaces.pmm.held), old(spaces.tables))
      ensures Supplies(old(spaces.places), spaces.places, vases[i].root, base / PAGE_BYTES, Pages(vmos[j]))
      ensures r.Success? ==>
                && spaces.Valid()
                && Elsewhere(old(spaces.tables), spaces.tables, old(spaces.places), spaces.places, vases[i].root)
                && vases[i].Tidy() && fresh(vases[i].mappings.Repr - old(vases[i].mappings.Repr))
                && GrewBy(old(vases[i].mappings.Repr), vases[i].mappings.Repr, Extent(base, base + vmos[j].length, readOnly))
                && OnDisplay(spaces.tables, vases[i].root, vmos[j], base, user)
                && (vases[i] in exact && !Blurs(vmos[j], base) ==> Agree(vases[i].mappings.Repr, spaces.tables, vases[i].root))
      ensures Reason(old(spaces.tables), old(vases[i].mappings.Repr), vases[i].root, vmos[j], vmos[j].elements, base, readOnly, r, spaces.pmm.free, spaces.places)
      ensures vases[i] in exact && vmos[j].length > 0 && (r == Failed(Remapped) || r == Failed(WalksIntoFrame)) ==>
                || base + vmos[j].length >= ADDRESS_BYTES
                || Unforeseen(old(vases[i].mappings.Repr), old(spaces.tables), vases[i].root, base / PAGE_BYTES, Pages(vmos[j]))
    {
      hide Vas.Tidy, Agree, Linked, Rooted, VmosOk, PiecesOk, Vmo.Stored, VasesOk, DisplaysOk, ExactOk, FitsMemory, Pmm.Separated, Pmm.FreePage,
           Vas.Shown, Placeable, Elsewhere, Steady, Vmo.Valid, OnDisplay, IsRoot,
           InTheWay, Unforeseen, InReach, Offset, PagesOf, Unit, AvlTree.Arranged, Pmm.Exhausted, Vmo.Complete, Reason, Meets, Entered,
           TablesTook, Supplies, Lacking;
      var vas, vmo := vases[i], vmos[j];
      Ready(i, j);
      r := vas.MapVmo(vmo, base, user, readOnly);
      ReasonIs(old(spaces.tables), old(vas.mappings.Repr), vas.root, vmo, vmo.elements, base, readOnly, r, spaces.pmm.free, spaces.places);
      TablesTookNone(spaces.pmm.free, spaces.pmm.held, spaces.tables, spaces.tables);
      SuppliesNothing(spaces.places, vas.root, base / PAGE_BYTES, Pages(vmo));
      if r.Success? {
        NowOnDisplay(old(spaces.tables), spaces.tables, old(spaces.places), spaces.places, vas, vmo, base, user);
      }
    }

    /** Mounts an object, at any address. */
    method Map(i: nat, j: nat, base: nat, user: bool, readOnly: bool) returns (r: MapResult)
      requires Valid() && i < |vases| && j < |vmos| && base < ADDRESS_BYTES
      modifies this`displays, this`exact, spaces, spaces.pmm, vases[i].mappings, vases[i].mappings.Repr
      ensures spaces.TookFrom(old(spaces.pmm.free), old(spaces.pmm.held), old(spaces.tables))
      ensures Supplies(old(spaces.places), spaces.places, vases[i].root, base / PAGE_BYTES, Pages(vmos[j]))
      ensures r.Success? ==> Valid() && NewOnly() && displays == old(displays) + {Display(vases[i], vmos[j], base, user)}
      ensures r.Success? ==>
                && GrewBy(old(vases[i].mappings.Repr), vases[i].mappings.Repr, Extent(base, base + vmos[j].length, readOnly))
                && (forall v :: v in vases && v != vases[i] ==> v.mappings.Repr == old(v.mappings.Repr))
                && exact == old(exact) - (if Blurs(vmos[j], base) then {vases[i]} else {})
      ensures Reason(old(spaces.tables), old(vases[i].mappings.Repr), vases[i].root, vmos[j], vmos[j].elements, base, readOnly, r, spaces.pmm.free, spaces.places)
      ensures vases[i] in old(exact) && vmos[j].length > 0 && (r == Failed(Remapped) || r == Failed(WalksIntoFrame)) ==>
                || base + vmos[j].length >= ADDRESS_BYTES
                || Unforeseen(old(vases[i].mappings.Repr), old(spaces.tables), vases[i].root, base / PAGE_BYTES, Pages(vmos[j]))
    {
      hide Vas.Tidy, Agree, Linked, Rooted, VmosOk, PiecesOk, VasesOk, DisplaysOk, ExactOk, FitsMemory, Pmm.Separated, Pmm.FreePage,
           Elsewhere, Lasts, OnDisplay, IsRoot, NewOnly, Unforeseen, Pages, Reason, Blurs, Vmo.Valid, GrewBy, AddressSpaces.TookFrom, Supplies;
      var vas, vmo := vases[i], vmos[j];
      OthersApart(i);
      r := Enter(i, j, base, user, readOnly);
      if r.Success? {
        if Blurs(vmo, base) {
          exact := exact - {vas};
        }
        displays := displays + {Display(vas, vmo, base, user)};
        EnteredKeeps(i);
        StillDisplayed();
        KeepExact(i);
        TreesGrew();
      }
    }

    /** What entering a mapping into one address space leaves alone. */
    twostate lemma EnteredKeeps(i: nat)
      requires old(spaces.Valid() && FitsMemory(spaces.pmm.free) && VmosOk() && PiecesOk() && VasesOk() && DisplaysOk())
      requires unchanged(this`vmos) && unchanged(this`vases) && i < |vases|
      requires forall o :: o in vmos ==> unchanged(o) && unchanged(o.tree) && unchanged(o.tree.Repr)
      requires spaces.TookFrom(old(spaces.pmm.free), old(spaces.pmm.held), old(spaces.tables))
      requires Elsewhere(old(spaces.tables), spaces.tables, old(spaces.places), spaces.places, vases[i].root)
      requires vases[i].Tidy() && fresh(vases[i].mappings.Repr - old(vases[i].mappings.Repr))
      requires forall k :: 0 <= k < |vases| && k != i ==> unchanged(vases[k].mappings) && unchanged(vases[k].mappings.Repr)
      ensures VmosOk() && PiecesOk() && VasesOk() && FitsMemory(spaces.pmm.free)
      ensures forall d :: d in old(displays) ==>
                d.vas in vases && d.vmo in vmos && OnDisplay(spaces.tables, d.vas.root, d.vmo, d.base, d.user)
    {
      hide Vas.Tidy, VmosOk, PiecesOk, VasesOk, DisplaysOk, FitsMemory, Elsewhere, Lasts, OnDisplay, IsRoot, AddressSpaces.Valid,
           AddressSpaces.TookFrom;
      AllLast(vases[i].root);
      KeepVmos();
      KeepPieces();
      KeepVases(i);
      KeepDisplays();
    }

    /** Without one of them, the other objects still hold their frames. */
    twostate lemma DropVmo(j: nat)
      requires old(VmosOk()) && j < |old(vmos)| && vmos == old(vmos)[..j] + old(vmos)[j + 1..]
      requires (forall o :: o in old(vmos) ==> unchanged(o)) && unchanged(spaces`tables)
      requires spaces.pmm.held == old(spaces.pmm.held) - old(vmos[j].Frames())
      ensures VmosOk()
    {
      hide Bounded, Pmm.HeldPage, Vmo.Frames;
      ghost var was := old(vmos);
      assert forall k :: 0 <= k < |vmos| ==> vmos[k] == if k < j then was[k] else was[k + 1];
      forall k | 0 <= k < |was|
        ensures was[k].Valid() && was[k].Frames() == old(was[k].Frames()) && was[k].elements == old(was[k].elements)
      {
        assert was[k] in was && unchanged(was[k]);
      }
    }

    twostate lemma DropPieces(j: nat)
      requires old(PiecesOk()) && j < |old(vmos)| && vmos == old(vmos)[..j] + old(vmos)[j + 1..]
      requires forall o :: o in old(vmos) ==> unchanged(o) && unchanged(o.tree) && unchanged(o.tree.Repr)
      ensures PiecesOk() && forall o :: o in vmos ==> o in old(vmos)
    {
      hide Vmo.Stored;
      ghost var was := old(vmos);
      assert forall k :: 0 <= k < |vmos| ==> vmos[k] == if k < j then was[k] else was[k + 1];
      forall k | 0 <= k < |was| ensures was[k].Stored() && was[k].tree.Repr == old(was[k].tree.Repr) {
        assert was[k] in was && old(was[k].Stored());
      }
    }

    /** Gives the frames of an object back that is mapped nowhere. */
    method Destroy(j: nat)
      requires Valid() && j < |vmos| && forall d :: d in displays ==> d.vmo != vmos[j]
      modifies this`vmos, spaces.pmm
      ensures Valid() && vmos == old(vmos)[..j] + old(vmos)[j + 1..] && NewOnly()
      ensures spaces.pmm.held == old(spaces.pmm.held) - old(vmos[j].Frames())
      ensures forall p: nat :: Pmm.FreePage(spaces.pmm.free, p) <==> Pmm.FreePage(old(spaces.pmm.free), p) || Pmm.HeldPage(old(vmos[j].Frames()), p)
    {
      hide Agree, Vas.Tidy, Linked, Rooted, Pmm.Separated, Pmm.FreePage, OnDisplay, Bounded, Pmm.HeldPage, FitsMemory, VmosOk, Vmo.Valid, PiecesOk, Vmo.Stored, NewOnly;
      var vmo := vmos[j];
      Holds(j);
      PiecesApart(j);
      vmo.Destroy(spaces.pmm);
      FreedFits(old(spaces.pmm.free), vmo.layer, vmo.elements, spaces.pmm.free);
      vmos := vmos[..j] + vmos[j + 1..];
      DropVmo(j);
      DropPieces(j);
      TreesGrew();
    }

    lemma Holds(j: nat)
      requires VmosOk() && j < |vmos|
      ensures vmos[j].Valid() && vmos[j].Frames() <= spaces.pmm.held && Bounded(vmos[j].layer, vmos[j].elements)
      ensures forall f :: f in spaces.tables ==> !Pmm.HeldPage(vmos[j].Frames(), f)
      ensures Owned(vmos[j].Frames(), spaces.pmm.held, spaces.tables)
    {
      assert Owned(vmos[j].Frames(), spaces.pmm.held, spaces.tables);
    }

    /** All that counts, as values. */
    ghost function Snapshot(): Shot
      reads this, spaces, spaces.pmm, vmos, Trees()
    {
      Shot(vmos, map o | o in vmos :: o.elements, vases, map v | v in vases :: v.mappings.Repr,
           displays, exact, spaces.tables, spaces.places, spaces.pmm.free, spaces.pmm.held)
    }

    ghost function Rest(): Memory
      reads spaces, spaces.pmm
    {
      Memory(spaces.tables, spaces.places, spaces.pmm.free, spaces.pmm.held)
    }

    lemma SnapshotIndexed()
      ensures Indexed(Snapshot())
    {
    }

    /** What holds of the system holds of its values. */
    lemma Sees()
      requires Valid()
      ensures Sane(Snapshot())
    {
      hide Agree, Linked, Rooted, Owned, Bounded, Displays, Exposes, Vmo.Complete, Pmm.Separated, FitsMemory, Vas.Tidy, Meets, Backing;
      SnapshotIndexed();
      Stacked();
      ghost var s := Snapshot();
      forall a, b | a in vmos && b in vmos && a != b
        ensures Backing(a.layer, s.elements[a]) !! Backing(b.layer, s.elements[b])
      {
        OwnFrames(a, b);
      }
      forall a, b | a in vases && b in vases && a != b
        ensures a.root != b.root
      {
        OwnRoots(a, b);
      }
      forall vas, a, b | vas in vases && a in vas.mappings.Repr && b in vas.mappings.Repr && a != b
        ensures !Meets(a.key, b.key)
      {
        vas.Disjoint(a, b);
      }
    }

    lemma OwnFrames(a: Vmo, b: Vmo)
      requires VmosOk() && a in vmos && b in vmos && a != b
      ensures a.Frames() !! b.Frames()
    {
      hide Owned, Bounded, Vmo.Frames, Vmo.Valid;
      var i, j :| 0 <= i < |vmos| && 0 <= j < |vmos| && vmos[i] == a && vmos[j] == b;
      assert i < j ==> vmos[i].Frames() !! vmos[j].Frames();
      assert j < i ==> vmos[j].Frames() !! vmos[i].Frames();
    }

    lemma OwnRoots(a: Vas, b: Vas)
      requires VasesOk() && a in vases && b in vases && a != b
      ensures a.root != b.root
    {
      hide Vas.Tidy, IsRoot;
      var i, j :| 0 <= i < |vases| && 0 <= j < |vases| && vases[i] == a && vases[j] == b;
      assert i < j ==> vases[i].root != vases[j].root;
      assert j < i ==> vases[j].root != vases[i].root;
    }

    twostate lemma CreatedIs(new vmo: Vmo, elements: seq<Element>)
      requires vmos == old(vmos) + [vmo] && vmo !in old(vmos) && vmo.elements == elements && unchanged(this`vases, this`displays, this`exact)
      requires unchanged(spaces) && unchanged(spaces.pmm) && (forall o :: o in old(vmos) ==> unchanged(o))
      requires forall v :: v in vases ==> unchanged(v.mappings)
      ensures Creates(old(Snapshot()), Snapshot(), elements)
    {
    }

    twostate lemma CommittedIs(vmo: Vmo)
      requires vmo in vmos && unchanged(this) && unchanged(spaces) && (forall o :: o in vmos && o != vmo ==> unchanged(o))
      requires forall v :: v in vases ==> unchanged(v.mappings)
      requires vmo.base.None? ==> vmo.Committed()
      requires vmo.base.None? && !old(vmo.Committed()) ==> old(vmo.elements) == [Element(0, None)]
      requires if vmo.base.Some? || old(vmo.Committed()) then vmo.elements == old(vmo.elements) && unchanged(spaces.pmm)
               else Pmm.Took(old(spaces.pmm.free), old(spaces.pmm.held), vmo.Frames(), spaces.pmm.free, spaces.pmm.held)
      ensures Commits(old(Snapshot()), vmo, Snapshot())
    {
      hide Pmm.Took, Vmo.Complete, Backing;
    }

    twostate lemma StoppedHalfway(vmo: Vmo)
      requires unchanged(spaces) && !vmo.Committed()
      requires Pmm.Took(old(spaces.pmm.free), old(spaces.pmm.held), vmo.Frames(), spaces.pmm.free, spaces.pmm.held)
      ensures Halfway(old(Snapshot()), vmo, Rest())
    {
      hide Pmm.Took, Vmo.Complete, Backing;
    }

    twostate lemma ClonedIs(cur: nat)
      requires |vases| == |old(vases)| + 1 && vases[..|old(vases)|] == old(vases) && unchanged(this`vmos, this`displays)
      requires fresh(vases[|old(vases)|]) && vases[|old(vases)|].mappings.Repr == {} && exact == old(exact) + {vases[|old(vases)|]}
      requires Published(old(spaces.tables), spaces.tables, old(spaces.places), spaces.places, cur, vases[|old(vases)|].root)
      requires spaces.TookFrom(old(spaces.pmm.free), old(spaces.pmm.held), old(spaces.tables))
      requires (forall o :: o in vmos ==> unchanged(o)) && (forall v :: v in old(vases) ==> unchanged(v.mappings))
      ensures Clones(old(Snapshot()), cur, Snapshot())
    {
      hide Published, TablesTook;
      assert vases == old(vases) + [vases[|old(vases)|]];
    }

    twostate lemma MappedIs(new i: nat, new j: nat, new base: nat, new user: bool, new readOnly: bool)
      requires vmos == old(vmos) && vases == old(vases) && i < |vases| && j < |vmos| && forall o :: o in vmos ==> o.elements == old(o.elements)
      requires displays == old(displays) + {Display(vases[i], vmos[j], base, user)}
      requires GrewBy(old(vases[i].mappings.Repr), vases[i].mappings.Repr, Extent(base, base + vmos[j].length, readOnly))
      requires forall v :: v in vases && v != vases[i] ==> v.mappings.Repr == old(v.mappings.Repr)
      requires Fitting(old(spaces.tables), vases[i].root, vmos[j], vmos[j].elements, base)
      requires exact == old(exact) - (if Blurs(vmos[j], base) then {vases[i]} else {})
      requires spaces.TookFrom(old(spaces.pmm.free), old(spaces.pmm.held), old(spaces.tables))
      requires Supplies(old(spaces.places), spaces.places, vases[i].root, base / PAGE_BYTES, Pages(vmos[j]))
      ensures Mounts(old(Snapshot()), Display(vases[i], vmos[j], base, user), readOnly, Snapshot())
    {
      hide Fitting, GrewBy, Blurs, TablesTook, Supplies;
    }

    twostate lemma DestroyedIs(j: nat)
      requires old(VmosOk()) && j < |old(vmos)| && vmos == old(vmos)[..j] + old(vmos)[j + 1..] && unchanged(this`vases, this`displays, this`exact)
      requires (forall o :: o in old(vmos) ==> unchanged(o)) && unchanged(spaces) && (forall v :: v in vases ==> unchanged(v.mappings))
      requires spaces.pmm.held == old(spaces.pmm.held) - old(vmos[j].Frames())
      requires forall p: nat :: Pmm.FreePage(spaces.pmm.free, p) <==> Pmm.FreePage(old(spaces.pmm.free), p) || Pmm.HeldPage(old(vmos[j].Frames()), p)
      ensures Destroys(old(Snapshot()), j, Snapshot())
    {
      hide Pmm.FreePage, Pmm.HeldPage, Vmo.Frames, VmosOk;
      ghost var was, o := old(Snapshot()), old(vmos[j]);
      Remaining(j);
      assert Snapshot().elements == was.elements - {o};
      assert old(vmos[j].Frames()) == Backing(o.layer, was.elements[o]) by { FramesAre(j); }
    }

    twostate lemma FramesAre(j: nat)
      requires j < |old(vmos)|
      ensures old(vmos[j].Frames()) == Backing(old(vmos[j]).layer, old(vmos[j].elements))
    {
    }

    twostate lemma Remaining(j: nat)
      requires old(VmosOk()) && j < |old(vmos)| && vmos == old(vmos)[..j] + old(vmos)[j + 1..]
      ensures forall o :: o in vmos <==> o in old(vmos) && o != old(vmos)[j]
    {
      hide Owned, Bounded, Vmo.Valid, Vmo.Frames;
      ghost var was := old(vmos);
      assert forall k :: 0 <= k < |vmos| ==> vmos[k] == if k < j then was[k] else was[k + 1];
      assert forall k :: 0 <= k < |was| && k != j ==> was[k] != was[j] && was[k] == vmos[if k < j then k else k - 1];
    }

    /** One command, and what came of it. */
    method Perform(command: Command) returns (reply: Reply)
      requires Valid()
      modifies this, spaces, spaces.pmm, Objects(), Trees(), Nodes(), PieceTrees(), PieceNodes()
      ensures reply.Performed? ==> Valid() && NewOnly() && Means(boot, old(Snapshot()), command, Snapshot())
      ensures reply.Refused? <==> !Allowed(old(Snapshot()), command)
      ensures !reply.Performed? ==> Explains(boot, old(Snapshot()), command, reply, Rest())
    {
      hide Valid, NewOnly, Creates, Commits, Clones, Mounts, Destroys, Reason, VmosOk, Halfway, Stuck, TablesTook, Supplies;
      SnapshotIndexed();
      match command {
        case Sparse(length, layer) =>
          if length >= ADDRESS_BYTES || layer >= Pmm.LAYERS {
            return Refused;
          }
          CreateSparse(length, layer);
          CreatedIs(vmos[|old(vmos)|], [Element(0, None)]);
        case Physical(base, length, layer) =>
          if base >= ADDRESS_BYTES || length >= ADDRESS_BYTES || layer >= Pmm.LAYERS {
            return Refused;
          }
          CreatePhysical(base, length, layer);
          CreatedIs(vmos[|old(vmos)|], []);
        case Back(_) =>
          reply := PerformBack(command);
          return;
        case Clone(_) =>
          reply := PerformClone(command);
          return;
        case Show(_, _, _, _, _) =>
          reply := PerformShow(command);
          return;
        case Drop(_) =>
          reply := PerformDrop(command);
          return;
      }
      SnapshotIndexed();
      return Performed;
    }

    method PerformBack(command: Command) returns (reply: Reply)
      requires Valid() && command.Back?
      modifies spaces.pmm, Objects(), PieceTrees(), PieceNodes()
      ensures reply.Performed? ==> Valid() && NewOnly() && Means(boot, old(Snapshot()), command, Snapshot())
      ensures reply.Refused? <==> !Allowed(old(Snapshot()), command)
      ensures !reply.Performed? ==> Explains(boot, old(Snapshot()), command, reply, Rest())
    {
      hide Valid, NewOnly, Commits, Pmm.Exhausted, Pmm.Took, Vmo.Complete, Backing, Halfway;
      SnapshotIndexed();
      if command.index >= |vmos| {
        return Refused;
      }
      var ok := Commit(command.index);
      SnapshotIndexed();
      if !ok {
        StoppedHalfway(vmos[command.index]);
        return NoFrames;
      }
      CommittedIs(vmos[command.index]);
      return Performed;
    }

    method PerformClone(command: Command) returns (reply: Reply)
      requires Valid() && command.Clone?
      modifies this`vases, this`exact, spaces, spaces.pmm
      ensures reply.Performed? ==> Valid() && NewOnly() && Means(boot, old(Snapshot()), command, Snapshot())
      ensures reply.Refused? <==> !Allowed(old(Snapshot()), command)
      ensures !reply.Performed? ==> Explains(boot, old(Snapshot()), command, reply, Rest())
    {
      hide Valid, NewOnly, Clones, Pmm.Exhausted, Published, Stuck, TablesTook;
      SnapshotIndexed();
      if command.space > |vases| {
        return Refused;
      }
      HasRoot(command.space);
      var cur := if command.space < |vases| then vases[command.space].root else boot;
      var ok := NewVas(cur);
      SnapshotIndexed();
      if !ok {
        return NoFrames;
      }
      ClonedIs(cur);
      return Performed;
    }

    method PerformShow(command: Command) returns (reply: Reply)
      requires Valid() && command.Show?
      modifies this`displays, this`exact, spaces, spaces.pmm, Trees(), Nodes()
      ensures reply.Performed? ==> Valid() && NewOnly() && Means(boot, old(Snapshot()), command, Snapshot())
      ensures reply.Refused? <==> !Allowed(old(Snapshot()), command)
      ensures !reply.Performed? ==> Explains(boot, old(Snapshot()), command, reply, Rest())
    {
      hide Valid, NewOnly, Mounts, Fitting, InTheWay, InReach, Vmo.Complete, Blurs, GrewBy, Unforeseen, PagesOf, TablesTook, Supplies, Lacking;
      var Show(space, index, address, user, readOnly) := command;
      SnapshotIndexed();
      if space >= |vases| || index >= |vmos| || address >= ADDRESS_BYTES {
        return Refused;
      }
      var r := Map(space, index, address, user, readOnly);
      SnapshotIndexed();
      if !r.Success? {
        return Stopped(r);
      }
      MappedIs(space, index, address, user, readOnly);
      return Performed;
    }

    method PerformDrop(command: Command) returns (reply: Reply)
      requires Valid() && command.Drop?
      modifies this`vmos, spaces.pmm
      ensures reply.Performed? ==> Valid() && NewOnly() && Means(boot, old(Snapshot()), command, Snapshot())
      ensures reply.Refused? <==> !Allowed(old(Snapshot()), command)
      ensures !reply.Performed? ==> Explains(boot, old(Snapshot()), command, reply, Rest())
    {
      hide NewOnly, Destroys, Vmo.Frames, VmosOk, VasesOk, DisplaysOk, ExactOk, FitsMemory, AddressSpaces.Valid;
      SnapshotIndexed();
      if command.index >= |vmos| || exists d | d in displays :: d.vmo == vmos[command.index] {
        return Refused;
      }
      Destroy(command.index);
      SnapshotIndexed();
      DestroyedIs(command.index);
      return Performed;
    }

    /** Every run of commands, up to the first that is not done, with the reason. The commands mean what
        led from each state to the next; in every state the objects hold different frames, none of them
        a page table, every object that is mapped is on display wherever it is mapped, and no
        mappings overlap. */
    method Run(commands: seq<Command>) returns (done: nat, reply: Reply, ghost shots: seq<Shot>)
      requires Valid()
      modifies this, spaces, spaces.pmm, Objects(), Trees(), Nodes(), PieceTrees(), PieceNodes()
      ensures done <= |commands| && (reply.Performed? <==> done == |commands|)
      ensures IsTrace(boot, shots, commands[..done]) && shots[0] == old(Snapshot())
      ensures reply.Performed? ==> Valid() && shots[done] == Snapshot()
      ensures !reply.Performed? ==> Explains(boot, shots[done], commands[done], reply, Rest())
    {
      hide Valid, Trees, Nodes, Snapshot, Means, Sane, Explains, IsTrace, Allowed;
      done, reply := 0, Performed;
      Sees();
      shots := [Snapshot()];
      assert IsTrace(boot, shots, []) by { TraceStart(boot, Snapshot()); }
      while done < |commands|
        invariant done <= |commands| && reply.Performed? && Valid() && NewOnly()
        invariant IsTrace(boot, shots, commands[..done]) && |shots| == done + 1
        invariant shots[0] == old(Snapshot()) && shots[done] == Snapshot()
      {
        reply := Perform(commands[done]);
        if !reply.Performed? {
          return;
        }
        Sees();
        TraceExtend(boot, shots, commands[..done], commands[done], Snapshot());
        assert commands[..done] + [commands[done]] == commands[..done + 1];
        shots, done := shots + [Snapshot()], done + 1;
      }
      assert commands[..done] == commands;
    }

    lemma HasRoot(space: nat)
      requires Valid() && space <= |vases|
      ensures IsRoot(spaces.places, if space < |vases| then vases[space].root else boot)
    {
    }

    lemma Stacked()
      requires spaces.Valid()
      ensures Pmm.Separated(spaces.pmm.free, spaces.pmm.held)
    {
    }
  }
}
