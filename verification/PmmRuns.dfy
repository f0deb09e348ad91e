/** What the allocator guarantees over whole runs, and the tiling of a free run at start-up. */
module PmmRuns {
  import opened Basics
  import opened Levels
  import opened Pmm

  datatype Op = Take(layer: nat) | Give(frame: Frame)

  datatype State = State(free: Stacks, held: set<Frame>)

  /** One call: popping any layer, or pushing back a frame that is held. `None` is a panic or a
      push of a frame the caller does not hold. */
  function Step(st: State, op: Op): Option<State> {
    match op
    case Take(l) =>
      if l >= LAYERS then None
      else
        (match PopStacks(st.free, l)
         case None => None
         case Some((base, t)) => Some(State(t, st.held + {Frame(l, base)})))
    case Give(f) =>
      if f in st.held && f.layer < LAYERS then Some(State(PushStacks(st.free, f), st.held - {f})) else None
  }

  function Run(st: State, ops: seq<Op>): Option<State> {
    if ops == [] then Some(st)
    else
      match Run(st, ops[..|ops| - 1])
      case None => None
      case Some(mid) => Step(mid, ops[|ops| - 1])
  }

  ghost predicate OwnsPage(st: State, p: nat) {
    FreePage(st.free, p) || HeldPage(st.held, p)
  }

  lemma StepConserves(st: State, op: Op)
    requires Separated(st.free, st.held) && Step(st, op).Some?
    ensures var st' := Step(st, op).value;
            Separated(st'.free, st'.held) && forall p: nat :: OwnsPage(st', p) <==> OwnsPage(st, p)
  {
    var st' := Step(st, op).value;
    match op
    case Take(l) =>
      PopKeeps(st.free, st.held, l);
      var f := Frame(l, PopStacks(st.free, l).value.0);
      assert f in st'.held;
      assert forall g :: g in st'.held <==> g in st.held || g == f;
    case Give(f) =>
      assert forall g :: Known(st.free, st.held, g) && g != f ==> Known(st.free, st.held, f) && Apart(f, g);
      PushKeeps(st.free, st.held, f);
      assert forall g :: g in st.held <==> g in st'.held || g == f;
  }

  /** Over every run, all frames stay aligned and pairwise apart, and the pages the allocator
      and its callers own between them never change. */
  lemma {:induction false} RunConserves(st: State, ops: seq<Op>)
    requires Separated(st.free, st.held) && Run(st, ops).Some?
    ensures var st' := Run(st, ops).value;
            Separated(st'.free, st'.held) && forall p: nat :: OwnsPage(st', p) <==> OwnsPage(st, p)
  {
    if ops != [] {
      RunConserves(st, ops[..|ops| - 1]);
      StepConserves(Run(st, ops[..|ops| - 1]).value, ops[|ops| - 1]);
    }
  }

  // ---------------------------------------------------------------------------------------
  // Tiling a free run

  /** `ts` are aligned frames that lie end to end from page `lo` to page `hi`. */
  ghost predicate Tiles(ts: seq<Frame>, lo: nat, hi: nat)
    decreases |ts|
  {
    if ts == [] then lo == hi
    else
      var t := ts[|ts| - 1];
      WellFormed(t) && t.base + Size(t.layer) == hi && Tiles(ts[..|ts| - 1], lo, t.base)
  }

  function AlignDown(p: nat, size: nat): nat
    requires size > 0
  {
    p - p % size
  }

  /** The first boundary from `p` on. */
  function AlignUp(p: nat, size: nat): nat
    requires size > 0
  {
    AlignDown(p + size - 1, size)
  }

  /** No larger aligned frame around `t` fits in the pages `lo..hi`. */
  ghost predicate Maximal(t: Frame, lo: nat, hi: nat) {
    || t.layer + 1 >= LAYERS
    || AlignDown(t.base, Size(t.layer + 1)) < lo
    || AlignDown(t.base, Size(t.layer + 1)) + Size(t.layer + 1) > hi
  }

  function PushAll(s: Stacks, ts: seq<Frame>): Stacks
    requires forall t :: t in ts ==> t.layer < LAYERS
  {
    if ts == [] then s else PushStacks(PushAll(s, ts[..|ts| - 1]), ts[|ts| - 1])
  }

  /** Where the upward loops stand before layer `i`: at its first boundary in the run, or out
      of pages to place. */
  ghost predicate Climbed(i: nat, lo: nat, page: nat, hi: nat)
    requires i < LAYERS
  {
    || page >= hi
    || (i == 2 && hi < page + Size(1) && page % Size(1) == 0)
    || (page % Size(i) == 0 && page <= AlignUp(lo, Size(i)))
  }

  /** Inside the upward loop of layer `i`. */
  ghost predicate Climbing(i: nat, lo: nat, page: nat, hi: nat)
    requires i + 1 < LAYERS
  {
    page >= hi || (page % Size(i) == 0 && page <= AlignUp(lo, Size(i + 1)))
  }

  /** Where the downward loops stand at layer `i`: at one of its boundaries with no larger frame
      fitting, or with less than one frame of it left. */
  ghost predicate Descending(i: nat, page: nat, hi: nat)
    requires i < LAYERS
  {
    || (page % Size(i) == 0 && (i + 1 < LAYERS ==> AlignDown(page, Size(i + 1)) + Size(i + 1) > hi))
    || (hi < page + Size(i) && (i > 0 ==> Descending(i - 1, page, hi)))
  }

  lemma SizeStep(i: nat)
    requires i + 1 < LAYERS
    ensures Size(i + 1) == FANOUT * Size(i) && Size(i) > 0
  {
  }

  lemma MultiplesApart(a: nat, b: nat, s: nat)
    requires s > 0 && a % s == 0 && b % s == 0 && a < b
    ensures a + s <= b
  {
    var x, y := a / s, b / s;
    assert a == x * s && b == y * s;
    if y <= x {
      ProductMonotone(y, x, s);
    } else {
      ProductMonotone(x + 1, y, s);
    }
  }

  lemma NextMultiple(a: nat, s: nat)
    requires s > 0 && a % s == 0
    ensures (a + s) % s == 0
  {
    assert a + s == (a / s + 1) * s + 0;
    Remainder(a + s, s, a / s + 1, 0);
  }

  lemma MultipleBelow(i: nat, m: nat)
    requires i + 1 < LAYERS && m % Size(i + 1) == 0
    ensures m % Size(i) == 0
  {
    SizeStep(i);
    var s, q := Size(i), m / Size(i + 1);
    assert m == q * (FANOUT * s) == (q * FANOUT) * s;
    Remainder(m, s, q * FANOUT, 0);
  }

  lemma AlignedDown(p: nat, s: nat)
    requires s > 0
    ensures AlignDown(p, s) % s == 0 && AlignDown(p, s) <= p < AlignDown(p, s) + s
    ensures p % s == 0 <==> AlignDown(p, s) == p
  {
    assert p == p / s * s + p % s;
    Remainder(AlignDown(p, s), s, p / s, 0);
  }

  lemma AlignedUp(lo: nat, s: nat)
    requires s > 0
    ensures AlignUp(lo, s) % s == 0 && lo <= AlignUp(lo, s) < lo + s
  {
    AlignedDown(lo + s - 1, s);
  }

  lemma ClimbStart(i: nat, lo: nat, page: nat, hi: nat)
    requires i + 1 < LAYERS && Climbed(i, lo, page, hi)
    ensures Climbing(i, lo, page, hi)
  {
    hide AlignDown, Size;
    SizeStep(i);
    var here, next := AlignUp(lo, Size(i)), AlignUp(lo, Size(i + 1));
    AlignedUp(lo, Size(i));
    AlignedUp(lo, Size(i + 1));
    MultipleBelow(i, next);
    if next < here {
      MultiplesApart(next, here, Size(i));
    }
  }

  /** Climbing from `lo`, frames of layer `i` stop exactly at the next boundary of layer `i + 1`. */
  lemma ClimbStep(i: nat, lo: nat, page: nat)
    requires i + 1 < LAYERS && lo <= page <= AlignUp(lo, Size(i + 1))
    requires page % Size(i) == 0 && page % Size(i + 1) != 0
    ensures AlignDown(page, Size(i + 1)) < lo
    ensures page + Size(i) <= AlignUp(lo, Size(i + 1))
    ensures (page + Size(i)) % Size(i) == 0
  {
    hide AlignDown, AlignUp, Size;
    SizeStep(i);
    var down, up := AlignDown(page, Size(i + 1)), AlignUp(lo, Size(i + 1));
    AlignedUp(lo, Size(i + 1));
    AlignedDown(page, Size(i + 1));
    MultiplesApart(down, up, Size(i + 1));
    MultipleBelow(i, up);
    MultiplesApart(page, up, Size(i));
    NextMultiple(page, Size(i));
  }

  lemma ClimbEnd(i: nat, lo: nat, page: nat, hi: nat)
    requires i + 1 < LAYERS && Climbing(i, lo, page, hi)
    requires page % Size(i + 1) == 0 || hi < page + Size(i)
    ensures Climbed(i + 1, lo, page, hi)
  {
  }

  lemma DescendStart(lo: nat, page: nat, hi: nat)
    requires page <= hi && Climbed(LAYERS - 1, lo, page, hi)
    ensures Descending(LAYERS - 1, page, hi)
  {
    assert Descending(0, page, hi) || page % Size(2) == 0;
  }

  lemma AlignDownMonotone(a: nat, b: nat, s: nat)
    requires s > 0 && a <= b
    ensures AlignDown(a, s) <= AlignDown(b, s)
  {
    hide AlignDown;
    AlignedDown(a, s);
    AlignedDown(b, s);
    if AlignDown(b, s) < AlignDown(a, s) {
      MultiplesApart(AlignDown(b, s), AlignDown(a, s), s);
    }
  }

  /** Placing a frame of layer `i` leaves no larger frame fitting around the next page. */
  lemma DescendStep(i: nat, page: nat, lo: nat, hi: nat)
    requires i < LAYERS && Descending(i, page, hi) && page + Size(i) <= hi
    ensures Maximal(Frame(i, page), lo, hi) && page % Size(i) == 0
    ensures Descending(i, page + Size(i), hi)
  {
    hide AlignDown, Size;
    assert Size(i) > 0 by { Sizes(i); }
    NextMultiple(page, Size(i));
    if i + 1 < LAYERS {
      SizeStep(i);
      AlignDownMonotone(page, page + Size(i), Size(i + 1));
    }
  }

  lemma Sizes(i: nat)
    ensures Size(i) > 0 && Size(0) == 1
  {
  }

  lemma DescendLayer(i: nat, page: nat, hi: nat)
    requires i < LAYERS && Descending(i, page, hi) && page <= hi < page + Size(i)
    ensures if i == 0 then page == hi else Descending(i - 1, page, hi)
  {
    hide AlignDown, Size;
    Sizes(i);
    if i > 0 && page % Size(i) == 0 {
      MultipleBelow(i - 1, page);
      AlignedDown(page, Size(i));
    }
  }

  /** The byte tests of the loops, in pages. */
  lemma PageUnits(i: nat, at: nat, remaining: nat)
    requires i < LAYERS && at % PAGE_BYTES == 0
    ensures at % (Size(i) * PAGE_BYTES) == 0 <==> (at / PAGE_BYTES) % Size(i) == 0
    ensures remaining >= Size(i) * PAGE_BYTES <==> remaining / PAGE_BYTES >= Size(i)
  {
    if i == 0 { assert Size(i) == 1; } else if i == 1 { assert Size(i) == 512; } else { assert Size(i) == 0x4_0000; }
  }

  /** Frame `g` keeps clear of the pages `lo..hi`. */
  predicate Clear(g: Frame, lo: nat, hi: nat) {
    g.base + Size(g.layer) <= lo || hi <= g.base
  }

  /** The run `lo..hi` has been tiled with `ts` up to byte `at`, on top of the stacks `before`,
      and `remaining` bytes are left. */
  ghost predicate Tiled(pmm: Instance, before: Stacks, ts: seq<Frame>, lo: nat, at: nat, remaining: nat, hi: nat)
    reads pmm
  {
    && pmm.Valid()
    && at % PAGE_BYTES == 0
    && lo <= at / PAGE_BYTES
    && hi == at / PAGE_BYTES + remaining / PAGE_BYTES
    && Tiles(ts, lo, at / PAGE_BYTES)
    && (forall t :: t in ts ==> t.layer < LAYERS && Maximal(t, lo, hi))
    && pmm.free == PushAll(before, ts)
    && (forall g :: Known(pmm.free, pmm.held, g) ==> Clear(g, at / PAGE_BYTES, hi))
  }

  lemma ClearPushable(s: Stacks, held: set<Frame>, f: Frame, hi: nat)
    requires WellFormed(f) && f.base + Size(f.layer) <= hi
    requires forall g :: Known(s, held, g) ==> Clear(g, f.base, hi)
    ensures Pushable(s, held, f) && f !in held
    ensures forall g :: Known(PushStacks(s, f), held, g) ==> Clear(g, f.base + Size(f.layer), hi)
  {
    assert Known(s, held, f) ==> Clear(f, f.base, hi);
    forall g | Known(PushStacks(s, f), held, g)
      ensures Clear(g, f.base + Size(f.layer), hi)
    {
      if g != f { assert Known(s, held, g) && Clear(g, f.base, hi); }
    }
  }

  method PushTile(pmm: Instance, layer: nat, start: nat, remaining: nat,
                  ghost before: Stacks, ghost ts: seq<Frame>, ghost lo: nat, ghost hi: nat)
    returns (start': nat, remaining': nat, ghost ts': seq<Frame>)
    requires layer < LAYERS && remaining >= Size(layer) * PAGE_BYTES
    requires Tiled(pmm, before, ts, lo, start, remaining, hi)
    requires (start / PAGE_BYTES) % Size(layer) == 0 && Maximal(Frame(layer, start / PAGE_BYTES), lo, hi)
    modifies pmm
    ensures start' == start + Size(layer) * PAGE_BYTES && remaining' == remaining - Size(layer) * PAGE_BYTES
    ensures start' / PAGE_BYTES == start / PAGE_BYTES + Size(layer)
    ensures Tiled(pmm, before, ts', lo, start', remaining', hi) && pmm.held == old(pmm.held)
  {
    ghost var f := Frame(layer, start / PAGE_BYTES);
    PageUnits(layer, start, remaining);
    ClearPushable(pmm.free, pmm.held, f, hi);
    pmm.Push(layer, start / PAGE_BYTES);
    assert pmm.held == old(pmm.held) && pmm.free == PushStacks(old(pmm.free), f);
    start' := start + Size(layer) * PAGE_BYTES;
    remaining' := remaining - Size(layer) * PAGE_BYTES;
    ts' := ts + [f];
    assert ts'[..|ts|] == ts;
  }

  /** The upward loops: the head of the run, up to the first boundary of the largest frames. */
  method Climb(pmm: Instance, start: nat, size: nat, ghost lo: nat, ghost hi: nat)
    returns (at: nat, remaining: nat, ghost ts: seq<Frame>)
    requires Tiled(pmm, pmm.free, [], lo, start, size, hi) && lo == start / PAGE_BYTES
    modifies pmm
    ensures Tiled(pmm, old(pmm.free), ts, lo, at, remaining, hi) && pmm.held == old(pmm.held)
    ensures Climbed(LAYERS - 1, lo, at / PAGE_BYTES, hi)
  {
    at, remaining, ts := start, size, [];
    for i := 0 to LAYERS - 1
      invariant Tiled(pmm, old(pmm.free), ts, lo, at, remaining, hi) && pmm.held == old(pmm.held)
      invariant Climbed(i, lo, at / PAGE_BYTES, hi)
    {
      ClimbStart(i, lo, at / PAGE_BYTES, hi);
      while at % (Size(i + 1) * PAGE_BYTES) != 0 && remaining >= Size(i) * PAGE_BYTES
        invariant Tiled(pmm, old(pmm.free), ts, lo, at, remaining, hi) && pmm.held == old(pmm.held)
        invariant Climbing(i, lo, at / PAGE_BYTES, hi)
        decreases remaining
      {
        PageUnits(i + 1, at, remaining);
        PageUnits(i, at, remaining);
        ClimbStep(i, lo, at / PAGE_BYTES);
        at, remaining, ts := PushTile(pmm, i, at, remaining, old(pmm.free), ts, lo, hi);
      }
      PageUnits(i + 1, at, remaining);
      PageUnits(i, at, remaining);
      ClimbEnd(i, lo, at / PAGE_BYTES, hi);
    }
  }

  /** One downward loop: as many frames of layer `i` as fit. */
  method Descend(pmm: Instance, i: nat, start: nat, size: nat,
                 ghost before: Stacks, ghost ts0: seq<Frame>, ghost lo: nat, ghost hi: nat)
    returns (at: nat, remaining: nat, ghost ts: seq<Frame>)
    requires i < LAYERS && Tiled(pmm, before, ts0, lo, start, size, hi)
    requires Descending(i, start / PAGE_BYTES, hi)
    modifies pmm
    ensures Tiled(pmm, before, ts, lo, at, remaining, hi) && pmm.held == old(pmm.held)
    ensures if i == 0 then at / PAGE_BYTES == hi else Descending(i - 1, at / PAGE_BYTES, hi)
  {
    at, remaining, ts := start, size, ts0;
    while remaining >= Size(i) * PAGE_BYTES
      invariant Tiled(pmm, before, ts, lo, at, remaining, hi) && pmm.held == old(pmm.held)
      invariant Descending(i, at / PAGE_BYTES, hi)
      decreases remaining
    {
      PageUnits(i, at, remaining);
      DescendStep(i, at / PAGE_BYTES, lo, hi);
      at, remaining, ts := PushTile(pmm, i, at, remaining, before, ts, lo, hi);
    }
    PageUnits(i, at, remaining);
    DescendLayer(i, at / PAGE_BYTES, hi);
  }

  /** Tiles a page-aligned free run of `size` bytes with frames aligned to their own size, end
      to end, covering exactly its whole pages; each page gets the largest frame that fits. */
  method AddRun(pmm: Instance, start: nat, size: nat) returns (ghost ts: seq<Frame>)
    requires pmm.Valid() && start % PAGE_BYTES == 0
    requires forall g :: Known(pmm.free, pmm.held, g) ==>
                           Clear(g, start / PAGE_BYTES, start / PAGE_BYTES + size / PAGE_BYTES)
    modifies pmm
    ensures pmm.Valid() && pmm.held == old(pmm.held)
    ensures forall t :: t in ts ==> t.layer < LAYERS
    ensures pmm.free == PushAll(old(pmm.free), ts)
    ensures Tiles(ts, start / PAGE_BYTES, start / PAGE_BYTES + size / PAGE_BYTES)
    ensures forall t :: t in ts ==> Maximal(t, start / PAGE_BYTES, start / PAGE_BYTES + size / PAGE_BYTES)
  {
    ghost var lo, hi := start / PAGE_BYTES, start / PAGE_BYTES + size / PAGE_BYTES;
    var at: nat, remaining: nat;
    at, remaining, ts := Climb(pmm, start, size, lo, hi);
    DescendStart(lo, at / PAGE_BYTES, hi);
    for i := LAYERS downto 0
      invariant Tiled(pmm, old(pmm.free), ts, lo, at, remaining, hi) && pmm.held == old(pmm.held)
      invariant if i == 0 then at / PAGE_BYTES == hi else Descending(i - 1, at / PAGE_BYTES, hi)
    {
      at, remaining, ts := Descend(pmm, i, at, remaining, old(pmm.free), ts, lo, hi);
    }
  }
}
