/** The physical frame allocator: three LIFO stacks of free frames (4 KiB, 2 MiB, 1 GiB).

    Each stack is a linked list whose `next` words live inside the free frames themselves.
    Frames and addresses are counted in 4 KiB pages. */
module Pmm {
  import opened Basics
  import opened Levels

  const LAYERS: nat := 3

  datatype Frame = Frame(layer: nat, base: nat)

  /** Pages in a frame of the given layer. */
  function Size(layer: nat): nat {
    if layer == 0 then 1 else if layer == 1 then 512 else 0x4_0000
  }

  predicate WellFormed(f: Frame) {
    f.layer < LAYERS && f.base % Size(f.layer) == 0
  }

  /** Page `p` lies in frame `f`. */
  predicate Holds(f: Frame, p: nat) {
    f.base <= p < f.base + Size(f.layer)
  }

  predicate Apart(f: Frame, g: Frame) {
    f.base + Size(f.layer) <= g.base || g.base + Size(g.layer) <= f.base
  }

  predicate Distinct(s: seq<nat>) {
    forall i: nat, j: nat :: i < j < |s| ==> s[i] != s[j]
  }

  /** The three free stacks, top first. */
  type Stacks = s: seq<seq<nat>> | |s| == LAYERS witness [[], [], []]

  predicate Free(s: Stacks, f: Frame) {
    f.layer < LAYERS && f.base in s[f.layer]
  }

  /** Page `p` lies in a free frame. */
  ghost predicate FreePage(s: Stacks, p: nat) {
    exists f :: Free(s, f) && Holds(f, p)
  }

  /** Page `p` lies in a frame some caller holds. */
  ghost predicate HeldPage(held: set<Frame>, p: nat) {
    exists f :: f in held && Holds(f, p)
  }

  ghost predicate Known(s: Stacks, held: set<Frame>, f: Frame) {
    Free(s, f) || f in held
  }

  /** Free and held frames are aligned to their own size and pairwise apart, and no frame is
      on a stack twice or both free and held. */
  ghost predicate Separated(s: Stacks, held: set<Frame>) {
    && (forall f :: Known(s, held, f) ==> WellFormed(f))
    && (forall f, g {:trigger Apart(f, g)} ::
          Known(s, held, f) && Known(s, held, g) && f != g ==> Apart(f, g))
    && (forall l: nat :: l < LAYERS ==> Distinct(s[l]))
    && (forall f :: f in held ==> !Free(s, f))
  }

  // ---------------------------------------------------------------------------------------
  // The effect of the operations on the stacks

  /** Sub-frame `k` of a frame of layer `l + 1`. */
  function Part(l: nat, base: nat, k: nat): nat {
    base + k * Size(l)
  }

  /** The sub-frames of a frame of layer `l + 1`, in the order they lie on the stack:
      they are pushed from the lowest up. */
  function SplitFrame(l: nat, base: nat): seq<nat> {
    seq(FANOUT, i requires 0 <= i < FANOUT => Part(l, base, FANOUT - 1 - i))
  }

  function PushStacks(s: Stacks, f: Frame): Stacks
    requires f.layer < LAYERS
  {
    s[f.layer := [f.base] + s[f.layer]]
  }

  /** Popping takes the top of the stack, splitting a frame of the next layer if it is empty. */
  function PopStacks(s: Stacks, l: nat): Option<(nat, Stacks)>
    requires l < LAYERS
    decreases LAYERS - l
  {
    if s[l] != [] then Some((s[l][0], s[l := s[l][1..]]))
    else if l == LAYERS - 1 then None
    else
      match PopStacks(s, l + 1)
      case None => None
      case Some((base, t)) =>
        var parts := SplitFrame(l, base);
        Some((parts[0], t[l := parts[1..]]))
  }

  /** No frame of layer `l` or of one above it is free. */
  predicate Exhausted(s: Stacks, l: nat) {
    forall m :: l <= m < LAYERS ==> s[m] == []
  }

  lemma {:induction false} PopFails(s: Stacks, l: nat)
    requires l < LAYERS
    ensures PopStacks(s, l).None? <==> Exhausted(s, l)
    decreases LAYERS - l
  {
    if l < LAYERS - 1 {
      PopFails(s, l + 1);
    }
  }

  lemma PopLeavesLower(s: Stacks, l: nat)
    requires l < LAYERS && PopStacks(s, l).Some?
    ensures forall k: nat :: k < l ==> PopStacks(s, l).value.1[k] == s[k]
    decreases LAYERS - l
  {
    if s[l] == [] { PopLeavesLower(s, l + 1); }
  }

  /** Frame `f` moves from the free stacks `s` to its holder, leaving `t`: it was apart from
      all others, and its pages are exactly those that stop being free. */
  ghost predicate HandsOut(s: Stacks, held: set<Frame>, f: Frame, t: Stacks) {
    && f !in held
    && Separated(t, held + {f})
    && forall p: nat :: FreePage(s, p) <==> FreePage(t, p) || Holds(f, p)
  }

  lemma TakeTop(s: Stacks, held: set<Frame>, l: nat)
    requires l < LAYERS && s[l] != [] && Separated(s, held)
    ensures HandsOut(s, held, Frame(l, s[l][0]), s[l := s[l][1..]])
  {
    var f := Frame(l, s[l][0]);
    var t: Stacks := s[l := s[l][1..]];
    assert s[l] == [f.base] + t[l];
    assert Distinct(s[l]);
    assert forall g :: Free(t, g) <==> Free(s, g) && g != f;
    assert forall g :: Known(t, held + {f}, g) <==> Known(s, held, g);
    assert forall p: nat :: FreePage(s, p) <==> FreePage(t, p) || Holds(f, p) by {
      assert Free(s, f);
    }
  }

  lemma PartBounds(l: nat, base: nat, k: nat)
    requires l + 1 < LAYERS && base % Size(l + 1) == 0 && k < FANOUT
    ensures WellFormed(Frame(l, Part(l, base, k)))
    ensures base <= Part(l, base, k) && Part(l, base, k) + Size(l) <= base + Size(l + 1)
  {
    if l == 0 { assert Size(l) == 1; } else { assert Size(l) == 512; }
  }

  lemma PartsOrdered(l: nat, base: nat, j: nat, k: nat)
    requires l + 1 < LAYERS && j < k
    ensures Part(l, base, j) + Size(l) <= Part(l, base, k)
  {
    if l == 0 { assert Size(l) == 1; } else { assert Size(l) == 512; }
  }

  /** A part of a frame is aligned, lies inside it, and is apart from its other parts. */
  lemma PartInside(l: nat, base: nat, x: nat)
    requires l + 1 < LAYERS && base % Size(l + 1) == 0 && x in SplitFrame(l, base)
    ensures WellFormed(Frame(l, x)) && base <= x && x + Size(l) <= base + Size(l + 1)
    ensures forall y :: y in SplitFrame(l, base) && y != x ==> Apart(Frame(l, x), Frame(l, y))
  {
    var i: nat :| i < FANOUT && SplitFrame(l, base)[i] == x;
    PartBounds(l, base, FANOUT - 1 - i);
    forall y | y in SplitFrame(l, base) && y != x
      ensures Apart(Frame(l, x), Frame(l, y))
    {
      var j: nat :| j < FANOUT && SplitFrame(l, base)[j] == y;
      if j < i {
        PartsOrdered(l, base, FANOUT - 1 - i, FANOUT - 1 - j);
      } else {
        PartsOrdered(l, base, FANOUT - 1 - j, FANOUT - 1 - i);
      }
    }
  }

  /** Every page of a frame lies in one of its parts. */
  lemma PartHolds(l: nat, base: nat, p: nat) returns (x: nat)
    requires l + 1 < LAYERS && Holds(Frame(l + 1, base), p)
    ensures x in SplitFrame(l, base) && Holds(Frame(l, x), p)
  {
    var k := (p - base) / Size(l);
    if l == 0 { assert Size(l) == 1; } else { assert Size(l) == 512; }
    x := Part(l, base, k);
    assert SplitFrame(l, base)[FANOUT - 1 - k] == x;
  }

  lemma PartsDistinct(l: nat, base: nat)
    requires l + 1 < LAYERS
    ensures Distinct(SplitFrame(l, base))
  {
    forall i: nat, j: nat | i < j < FANOUT
      ensures SplitFrame(l, base)[i] != SplitFrame(l, base)[j]
    {
      PartsOrdered(l, base, FANOUT - 1 - j, FANOUT - 1 - i);
    }
  }

  /** Splitting a frame replaces it by sub-frames that are apart and hold the same pages. */
  lemma SplitKeeps(s: Stacks, held: set<Frame>, l: nat, base: nat)
    requires l + 1 < LAYERS && s[l] == []
    requires var f := Frame(l + 1, base); f !in held && Separated(s, held + {f})
    ensures var f := Frame(l + 1, base);
            var t: Stacks := s[l := SplitFrame(l, base)];
            && Separated(t, held)
            && forall p: nat :: FreePage(t, p) <==> FreePage(s, p) || Holds(f, p)
  {
    var f := Frame(l + 1, base);
    var parts := SplitFrame(l, base);
    var t: Stacks := s[l := parts];
    PartsDistinct(l, base);
    assert Known(s, held + {f}, f);
    assert forall g :: Free(t, g) <==> Free(s, g) || (g.layer == l && g.base in parts);
    forall x | x in parts
      ensures WellFormed(Frame(l, x))
      ensures forall p: nat :: Holds(Frame(l, x), p) ==> Holds(f, p)
      ensures forall g :: Known(t, held, g) && g != Frame(l, x) ==> Apart(Frame(l, x), g) && Apart(g, Frame(l, x))
      ensures Frame(l, x) !in held
    {
      PartInside(l, base, x);
      assert forall g :: Known(s, held + {f}, g) && g != f ==> Apart(f, g);
      assert Frame(l, x) in held ==> Known(s, held + {f}, Frame(l, x));
      assert forall g :: Known(t, held, g) ==> Known(s, held + {f}, g) || (g.layer == l && g.base in parts);
    }
    forall p: nat
      ensures FreePage(t, p) <==> FreePage(s, p) || Holds(f, p)
    {
      if Holds(f, p) {
        var x := PartHolds(l, base, p);
        assert Free(t, Frame(l, x));
      }
      if FreePage(s, p) {
        var g :| Free(s, g) && Holds(g, p);
        assert Free(t, g);
      }
    }
  }

  /** Splitting the frame just handed out and taking one part hands out that part. */
  lemma SplitHandsOut(s: Stacks, held: set<Frame>, l: nat, base: nat, t: Stacks)
    requires l + 1 < LAYERS && t[l] == [] && HandsOut(s, held, Frame(l + 1, base), t)
    ensures var parts := SplitFrame(l, base);
            HandsOut(s, held, Frame(l, parts[0]), t[l := parts[1..]])
  {
    var parts := SplitFrame(l, base);
    SplitKeeps(t, held, l, base);
    var u: Stacks := t[l := parts];
    TakeTop(u, held, l);
    assert u[l := u[l][1..]] == t[l := parts[1..]];
  }

  /** Popping hands out an aligned frame apart from every frame handed out or still free, and
      neither loses nor invents a page, however many layers it has to split. */
  lemma {:induction false} PopKeeps(s: Stacks, held: set<Frame>, l: nat)
    requires l < LAYERS && PopStacks(s, l).Some? && Separated(s, held)
    ensures var (base, t) := PopStacks(s, l).value;
            HandsOut(s, held, Frame(l, base), t)
    decreases LAYERS - l
  {
    if s[l] != [] {
      TakeTop(s, held, l);
    } else {
      PopLeavesLower(s, l + 1);
      PopKeeps(s, held, l + 1);
      var (base, t) := PopStacks(s, l + 1).value;
      SplitHandsOut(s, held, l, base, t);
    }
  }

  /** The pages of a frame just handed out are not free any more. */
  lemma HandedOutNotFree(s: Stacks, held: set<Frame>, f: Frame, t: Stacks)
    requires HandsOut(s, held, f, t)
    ensures forall p: nat :: Holds(f, p) ==> FreePage(s, p) && !FreePage(t, p)
  {
    forall p: nat, g | Holds(f, p) && Free(t, g)
      ensures !Holds(g, p)
    {
      assert Known(t, held + {f}, f) && Known(t, held + {f}, g) && f in held + {f};
      assert g != f ==> Apart(f, g);
    }
  }

  /** The frames went from the free stacks to those who hold them, and nothing else happened. */
  ghost predicate Took(free: Stacks, held: set<Frame>, frames: set<Frame>, free': Stacks, held': set<Frame>) {
    && held' == held + frames && frames !! held
    && (forall p: nat :: FreePage(free, p) <==> FreePage(free', p) || HeldPage(frames, p))
  }

  lemma TookNothing(free: Stacks, held: set<Frame>)
    ensures Took(free, held, {}, free, held)
  {
  }

  lemma TookMore(free: Stacks, held: set<Frame>, frames: set<Frame>, free1: Stacks, held1: set<Frame>, f: Frame, free2: Stacks)
    requires Took(free, held, frames, free1, held1) && HandsOut(free1, held1, f, free2)
    ensures Took(free, held, frames + {f}, free2, held1 + {f}) && f !in frames
  {
    HeldMore(frames, f);
  }

  lemma HeldMore(frames: set<Frame>, f: Frame)
    ensures forall p: nat :: HeldPage(frames + {f}, p) <==> HeldPage(frames, p) || Holds(f, p)
  {
    forall p: nat ensures HeldPage(frames + {f}, p) <==> HeldPage(frames, p) || Holds(f, p) {
      if HeldPage(frames, p) {
        var g :| g in frames && Holds(g, p);
        assert g in frames + {f};
      }
      assert f in frames + {f};
    }
  }

  lemma TookBoth(free: Stacks, held: set<Frame>, frames: set<Frame>, free1: Stacks, held1: set<Frame>,
                 more: set<Frame>, free2: Stacks, held2: set<Frame>)
    requires Took(free, held, frames, free1, held1) && Took(free1, held1, more, free2, held2)
    ensures Took(free, held, frames + more, free2, held2)
  {
    forall p: nat ensures HeldPage(frames + more, p) <==> HeldPage(frames, p) || HeldPage(more, p) {
      HeldEither(frames, more, p);
    }
  }

  lemma HeldEither(frames: set<Frame>, more: set<Frame>, p: nat)
    ensures HeldPage(frames + more, p) <==> HeldPage(frames, p) || HeldPage(more, p)
  {
    if HeldPage(frames, p) {
      var g :| g in frames && Holds(g, p);
      assert g in frames + more;
    }
    if HeldPage(more, p) {
      var g :| g in more && Holds(g, p);
      assert g in frames + more;
    }
  }

  /** Frame `f` can be put on a stack: it is aligned, not free, and apart from the others. */
  ghost predicate Pushable(s: Stacks, held: set<Frame>, f: Frame) {
    && WellFormed(f)
    && !Free(s, f)
    && forall g :: Known(s, held, g) && g != f ==> Apart(f, g)
  }

  lemma PushKeeps(s: Stacks, held: set<Frame>, f: Frame)
    requires Separated(s, held) && Pushable(s, held, f)
    ensures Separated(PushStacks(s, f), held - {f})
    ensures forall p: nat :: FreePage(PushStacks(s, f), p) <==> FreePage(s, p) || Holds(f, p)
  {
    var t := PushStacks(s, f);
    assert forall g :: Free(t, g) <==> Free(s, g) || g == f;
    assert forall g :: Known(t, held - {f}, g) ==> Known(s, held, g) || g == f;
    assert Free(t, f);
    forall p: nat | FreePage(s, p)
      ensures FreePage(t, p)
    {
      var g :| Free(s, g) && Holds(g, p);
      assert Free(t, g);
    }
  }

  /** While a frame is being split, its next part is always apart from everything else. */
  lemma PartPushable(s: Stacks, held: set<Frame>, l: nat, base: nat, i: nat)
    requires l + 1 < LAYERS && s[l] == [] && i < FANOUT
    requires Separated(s, held) && Frame(l + 1, base) in held
    ensures Pushable(s[l := SplitFrame(l, base)[FANOUT - i..]], held - {Frame(l + 1, base)}, Frame(l, Part(l, base, i)))
    ensures Frame(l, Part(l, base, i)) !in held
  {
    var f := Frame(l + 1, base);
    var parts := SplitFrame(l, base);
    var t: Stacks := s[l := parts[FANOUT - i..]];
    var x := Frame(l, Part(l, base, i));
    assert Known(s, held, f);
    PartBounds(l, base, i);
    forall g | Known(t, held - {f}, g)
      ensures g == x ==> !Free(t, x)
      ensures g != x ==> Apart(x, g)
    {
      if Free(t, g) && g.layer == l {
        var j: nat :| j < |t[l]| && g.base == t[l][j];
        assert g.base == parts[FANOUT - i + j];
        PartsOrdered(l, base, i - 1 - j, i);
      } else {
        assert Known(s, held, g) && Apart(f, g);
      }
    }
    assert Free(t, x) ==> Known(t, held - {f}, x);
    assert x in held ==> Known(s, held, x) && Apart(f, x);
  }

  // ---------------------------------------------------------------------------------------
  // The allocator itself

  /** `list` is threaded through memory: `head` is its first frame, and the word at the start
      of each frame names the next. The last word and the head of an empty list are not used. */
  ghost predicate Threaded(next: map<nat, nat>, head: nat, count: nat, list: seq<nat>) {
    && count == |list|
    && (list != [] ==> head == list[0])
    && (forall i: nat :: i < |list| ==> list[i] in next)
    && (forall i: nat :: i + 1 < |list| ==> next[list[i]] == list[i + 1])
  }

  class Instance {
    /** The first word of each physical page: `next` in the header of a free frame, and
        whatever its holder likes in a held one. */
    var next: map<nat, nat>
    var stack: seq<nat>
    var numFrames: seq<nat>

    ghost var free: Stacks
    ghost var held: set<Frame>

    ghost predicate Valid()
      reads this
    {
      && |stack| == LAYERS && |numFrames| == LAYERS
      && (forall l: nat :: l < LAYERS ==> Threaded(next, stack[l], numFrames[l], free[l]))
      && Separated(free, held)
    }

    constructor ()
      ensures Valid() && free == [[], [], []] && held == {}
    {
      next, stack, numFrames := map[], [0, 0, 0], [0, 0, 0];
      free, held := [[], [], []], {};
    }

    /** A write to a page of a frame that is not free leaves all three stacks threaded. */
    lemma WriteElsewhere(f: Frame, p: nat, value: nat)
      requires Valid() && Holds(f, p)
      requires forall g :: Free(free, g) ==> Apart(f, g)
      ensures forall l: nat :: l < LAYERS ==> Threaded(next[p := value], stack[l], numFrames[l], free[l])
    {
      forall l: nat | l < LAYERS
        ensures Threaded(next[p := value], stack[l], numFrames[l], free[l])
      {
        assert p in free[l] ==> Free(free, Frame(l, p));
        assert Threaded(next, stack[l], numFrames[l], free[l]);
      }
    }

    /** A frame goes on top of its stack. Its holder gives it up, or, at start-up, it is new. */
    method Push(layer: nat, frame: nat)
      requires Valid() && layer < LAYERS && Pushable(free, held, Frame(layer, frame))
      modifies this
      ensures Valid()
      ensures free == PushStacks(old(free), Frame(layer, frame))
      ensures held == old(held) - {Frame(layer, frame)}
    {
      ghost var f := Frame(layer, frame);
      WriteElsewhere(f, frame, stack[layer]);
      PushKeeps(free, held, f);
      next := next[frame := stack[layer]];
      stack := stack[layer := frame];
      numFrames := numFrames[layer := numFrames[layer] + 1];
      free, held := PushStacks(free, f), held - {f};
    }

    /** Whoever holds a frame may write anything anywhere in it: the stacks survive. */
    method HolderWrites(f: Frame, page: nat, value: nat)
      requires Valid() && f in held && Holds(f, page)
      modifies this`next
      ensures Valid() && next == old(next)[page := value]
    {
      assert forall g :: Free(free, g) ==> Known(free, held, g) && Known(free, held, f) && g != f;
      WriteElsewhere(f, page, value);
      next := next[page := value];
    }

    /** Splits a frame of the next layer onto an empty stack, lowest part first. */
    method Refill(layer: nat, frame: nat)
      requires Valid() && layer + 1 < LAYERS && free[layer] == [] && Frame(layer + 1, frame) in held
      modifies this
      ensures Valid()
      ensures free == old(free)[layer := SplitFrame(layer, frame)]
      ensures held == old(held) - {Frame(layer + 1, frame)}
    {
      ghost var parts := SplitFrame(layer, frame);
      held := held - {Frame(layer + 1, frame)};
      assert parts[FANOUT..] == free[layer];
      for i := 0 to FANOUT
        invariant Valid() && held == old(held) - {Frame(layer + 1, frame)}
        invariant free == old(free)[layer := parts[FANOUT - i..]]
      {
        PartPushable(old(free), old(held), layer, frame, i);
        assert [Part(layer, frame, i)] + parts[FANOUT - i..] == parts[FANOUT - i - 1..];
        Push(layer, frame + i * Size(layer));
      }
    }

    /** Unlinks the top frame of a stack that is not empty. */
    method Take(layer: nat) returns (ret: nat)
      requires Valid() && layer < LAYERS && free[layer] != []
      modifies this
      ensures Valid()
      ensures ret == old(free[layer][0])
      ensures free == old(free)[layer := old(free)[layer][1..]]
      ensures held == old(held) + {Frame(layer, ret)}
    {
      TakeTop(free, held, layer);
      ret := stack[layer];
      stack := stack[layer := next[ret]];
      numFrames := numFrames[layer := numFrames[layer] - 1];
      free, held := free[layer := free[layer][1..]], held + {Frame(layer, ret)};
    }

    /** Takes the top frame, refilling an empty stack from the next layer up. Fails only when
        this layer and all above it are empty, which is a panic. */
    method Pop(layer: nat) returns (r: Option<nat>)
      requires Valid() && layer < LAYERS
      modifies this
      ensures r.None? <==> Exhausted(old(free), layer)
      ensures r.None? ==> unchanged(this)
      ensures r.Some? ==>
                && Valid()
                && PopStacks(old(free), layer) == Some((r.value, free))
                && held == old(held) + {Frame(layer, r.value)}
                && HandsOut(old(free), old(held), Frame(layer, r.value), free)
      decreases LAYERS - layer
    {
      PopFails(free, layer);
      if numFrames[layer] == 0 {
        if layer == LAYERS - 1 {
          return None;
        }
        PopFails(free, layer + 1);
        var higher := Pop(layer + 1);
        if higher.None? {
          return None;
        }
        PopLeavesLower(old(free), layer + 1);
        ghost var t := free;
        Refill(layer, higher.value);
        assert free[layer := free[layer][1..]] == t[layer := free[layer][1..]];
      }
      PopKeeps(old(free), old(held), layer);
      var ret := Take(layer);
      return Some(ret);
    }
  }
}
