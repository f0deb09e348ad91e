/** Virtual memory objects: stretches of memory that address spaces map. */
module Vmo {
  import opened Basics
  import opened Levels
  import opened Pmm
  import opened Paging
  import opened AvlTree
  import opened AvlOrder
  import AvlShape
  import AvlLinks

  /** Bytes in a frame of the given layer. */
  function Unit(layer: nat): (n: nat)
    ensures n > 0
  {
    Size(layer) * PAGE_BYTES
  }

  /** A length in 64-bit arithmetic, padded to a multiple of `u`. */
  function PadUp(length: nat, u: nat): nat
    requires length < ADDRESS_BYTES && u > 0
  {
    (length + (ADDRESS_BYTES + u - length) % ADDRESS_BYTES % u) % ADDRESS_BYTES
  }

  /** The length as the creators pad it. */
  function Padded(length: nat, layer: nat): nat
    requires length < ADDRESS_BYTES
  {
    PadUp(length, Unit(layer))
  }

  /** Padding gives the least multiple of the frame size that is no shorter, except that a length
      within a frame of 2^64 wraps to zero. */
  lemma PaddedOk(length: nat, layer: nat)
    requires length < ADDRESS_BYTES && layer < LAYERS
    ensures Padded(length, layer) % Unit(layer) == 0
    ensures length <= Padded(length, layer) < length + Unit(layer) <==> length <= ADDRESS_BYTES - Unit(layer)
  {
    hide PadUp;
    if layer == 0 {
      PadToPage(length, 0x1000);
    } else if layer == 1 {
      PadToLarge(length, 0x20_0000);
    } else {
      PadToHuge(length, 0x4000_0000);
    }
  }

  /** One byte short of 2^64 becomes nothing at all. */
  lemma PaddingWraps()
    ensures Padded(ADDRESS_BYTES - 1, 0) == 0
  {
    assert Unit(0) == PAGE_BYTES;
  }

  ghost predicate PadsTo(length: nat, u: nat)
    requires u > 0 && length < ADDRESS_BYTES
  {
    var p := PadUp(length, u);
    p % u == 0 && (length <= p < length + u <==> length <= ADDRESS_BYTES - u)
  }

  lemma PadToPage(length: nat, u: nat)
    requires length < ADDRESS_BYTES && u == 0x1000
    ensures PadsTo(length, u)
  {
  }

  lemma PadToLarge(length: nat, u: nat)
    requires length < ADDRESS_BYTES && u == 0x20_0000
    ensures PadsTo(length, u)
  {
  }

  lemma PadToHuge(length: nat, u: nat)
    requires length < ADDRESS_BYTES && u == 0x4000_0000
    ensures PadsTo(length, u)
  {
  }

  /** A piece of a sparse object, backed by a frame once committed. */
  datatype Element = Element(offset: nat, backing: Option<nat>)

  ghost function Backing(layer: nat, elements: seq<Element>): set<Frame> {
    set e | e in elements && e.backing.Some? :: Frame(layer, e.backing.value)
  }

  /** Element `i` is the one at its place, with a frame. */
  ghost predicate Backed(layer: nat, elements: seq<Element>, i: nat)
    requires i < |elements|
  {
    elements[i].offset == i * Unit(layer) && elements[i].backing.Some?
  }

  /** The first `n` elements have frames of their own. */
  ghost predicate Unshared(elements: seq<Element>, n: nat)
    requires n <= |elements|
  {
    forall i: nat, j: nat :: i < j < n ==> elements[i].backing != elements[j].backing
  }

  lemma BackingExtend(layer: nat, elements: seq<Element>, e: Element)
    ensures Backing(layer, elements + [e]) ==
            Backing(layer, elements) + (if e.backing.Some? then {Frame(layer, e.backing.value)} else {})
  {
    assert elements + [e] == elements + [e];
    forall f | f in Backing(layer, elements) ensures f in Backing(layer, elements + [e]) {
      var x :| x in elements && x.backing.Some? && f == Frame(layer, x.backing.value);
      assert x in elements + [e];
    }
    assert e in elements + [e];
  }

  lemma StillUnshared(was: seq<Element>, now: seq<Element>, n: nat)
    requires |was| == |now| == n + 1 && was[..n] == now[..n] && Unshared(was, n)
    requires forall i: nat :: i < n ==> now[i].backing != now[n].backing
    ensures Unshared(now, n + 1)
  {
    assert forall i: nat :: i < n ==> was[i] == was[..n][i] == now[..n][i] == now[i];
  }

  lemma PieceCount(k: nat, length: nat, u: nat)
    requires u > 0 && length % u == 0 && (k == 0 || k * u < length) && k * u + u >= length
    ensures k + 1 == if length < u then 1 else length / u
  {
    var q := length / u;
    assert length == q * u;
    if k > 0 {
      assert k < q by { Levels.ProductMonotone(q, if q <= k then k else q, u); }
    }
    assert (k + 2) * u == k * u + u + u;
    if k + 1 < q {
      Levels.ProductMonotone(k + 2, q, u);
    }
  }

  // ---------------------------------------------------------------------------------------
  // The tree of pieces

  type Node = AvlLinks.Element<nat>

  predicate Below(a: nat, b: nat) {
    a < b
  }

  lemma BelowBridges(x: nat)
    ensures Bridges(Below, x)
  {
  }

  /** A greatest element goes to the end. */
  lemma Appended(s: seq<Node>, e: Node, s': seq<Node>)
    requires Spliced(s, e, s') && Sorted(Below, s') && forall x :: x in s ==> x.key < e.key
    ensures s' == s + [e]
  {
    var i :| 0 <= i <= |s| && s' == s[..i] + [e] + s[i..];
    SplicedMember(s, e, s', s'[|s|]);
    assert s'[i] == e;
    assert i == |s|;
  }

  /** What comes after the element at `k`. */
  lemma FollowsIs(s: seq<Node>, k: nat, next: AvlLinks.Element?<nat>)
    requires Sorted(Below, s) && k < |s| && Follows(s, s[k], next)
    ensures next == if k + 1 < |s| then s[k + 1] else null
  {
    var i: nat :| FollowsAt(s, i, s[k], next);
    assert i == k;
  }

  /** Nothing comes after a key that none exceeds. */
  lemma BoundsNone(s: seq<Node>, key: nat, r: AvlLinks.Element?<nat>)
    requires (forall e :: e in s ==> e.key <= key) && Bounds(Below, s, key, r)
    ensures r == null
  {
    var i: nat :| BoundsAt(Below, s, i, key, r);
    assert r != null ==> r in s;
  }

  lemma FollowsNone(s: seq<Node>, key: nat, e: Node, r: AvlLinks.Element?<nat>)
    requires (forall x :: x in s ==> x.key <= key) && Sorted(Below, s) && e.key == key && Follows(s, e, r)
    ensures r == null
  {
    var i: nat :| FollowsAt(s, i, e, r);
    assert s[|s| - 1] in s;
    assert i == |s| - 1;
  }

  class Vmo {
    const layer: nat
    const length: nat
    /** The base address of a physical object; a sparse one has none. */
    const base: Option<nat>
    /** The pieces of a sparse object, by their offsets. */
    const tree: AvlTree<nat>
    /** The frames of those pieces that have one. */
    var backing: map<Node, nat>
    /** The pieces in order, as values. */
    ghost var elements: seq<Element>

    function PieceOf(node: Node): Element
      reads this`backing
    {
      Element(node.key, if node in backing then Some(backing[node]) else None)
    }

    /** The tree holds the pieces. */
    ghost predicate Stored()
      reads this, tree, tree.Repr
    {
      && tree.Valid() && tree.less == Below && backing.Keys <= tree.Repr && |elements| == |tree.Contents()|
      && forall i :: 0 <= i < |elements| ==> elements[i] == PieceOf(tree.Contents()[i])
    }

    /** Piece `i` in memory. */
    lemma PieceAt(i: nat)
      requires Stored() && i < |elements|
      ensures |tree.Contents()| == |elements| && elements[i] == PieceOf(tree.Contents()[i]) && tree.Contents()[i] in tree.Repr
      ensures Sorted(Below, tree.Contents())
      ensures forall j :: 0 <= j < |elements| && j != i ==> tree.Contents()[j] != tree.Contents()[i]
    {
      hide AvlTree.At, AvlShape.Balanced;
      ElemsInOrder(tree.tree, tree.Contents()[i]);
      forall j | 0 <= j < |elements| && j != i
        ensures tree.Contents()[j] != tree.Contents()[i]
      {
        assert Below(tree.Contents()[if i < j then i else j].key, tree.Contents()[if i < j then j else i].key);
      }
    }

    /** Node `node` is piece `i`. */
    ghost predicate IsPiece(node: Node, i: nat)
      reads this, tree, tree.Repr
    {
      Stored() && i < |elements| && node == tree.Contents()[i]
    }

    lemma PieceHere(node: Node, i: nat)
      requires IsPiece(node, i)
      ensures Stored() && i < |elements| && node in tree.Repr
      ensures elements[i] == Element(node.key, if node in backing then Some(backing[node]) else None)
    {
      PieceAt(i);
    }

    /** The piece at the start. */
    method FirstPiece() returns (node: AvlLinks.Element?<nat>)
      requires Stored()
      ensures if elements == [] then node == null else node != null && IsPiece(node, 0)
    {
      node := tree.Begin();
    }

    /** The piece after piece `i`. */
    method NextPiece(node: Node, ghost i: nat) returns (next: AvlLinks.Element?<nat>)
      requires IsPiece(node, i)
      ensures if i + 1 < |elements| then next != null && IsPiece(next, i + 1) else next == null
    {
      hide AvlTree.At, AvlShape.Balanced;
      PieceAt(i);
      next := tree.Next(node);
      FollowsIs(tree.Contents(), i, next);
    }

    /** Where the piece after piece `i` starts, or the object ends. */
    method EndOf(node: Node, ghost i: nat) returns (offset: nat)
      requires IsPiece(node, i)
      ensures offset == if i + 1 < |elements| then elements[i + 1].offset else length
    {
      hide Stored;
      var next := NextPiece(node, i);
      if next == null {
        return length;
      }
      PieceHere(next, i + 1);
      return next.key;
    }

    /** A piece without a frame, behind all others. */
    method Append(offset: nat) returns (node: Node)
      requires Stored() && forall e :: e in elements ==> e.offset < offset
      modifies this`elements, tree, tree.Repr
      ensures Stored() && elements == old(elements) + [Element(offset, None)] && fresh(tree.Repr - old(tree.Repr))
      ensures IsPiece(node, |old(elements)|)
    {
      hide AvlTree.At, AvlShape.Balanced, AvlShape.InsertFix, AvlShape.Plug, Bridges;
      node := new AvlLinks.Element<nat>(offset);
      BelowBridges(offset);
      ghost var was := tree.Contents();
      AllBelow(offset);
      var _, inserted, _, _ := tree.Insert(node);
      Appended(was, node, tree.Contents());
      elements := elements + [Element(offset, None)];
    }

    lemma AllBelow(offset: nat)
      requires Stored() && forall e :: e in elements ==> e.offset < offset
      ensures forall x :: x in tree.Contents() ==> x.key < offset
      ensures forall x :: x in tree.Repr ==> x.key < offset
    {
      hide AvlTree.At, AvlShape.Balanced;
      var s := tree.Contents();
      forall i | 0 <= i < |s| ensures s[i].key < offset {
        assert elements[i] in elements && elements[i] == PieceOf(s[i]);
      }
      forall x | x in tree.Repr ensures x.key < offset {
        ElemsInOrder(tree.tree, x);
      }
    }

    /** Pieces a committed sparse object has: an empty object still has one. */
    function Pieces(): (n: nat)
      ensures n >= 1
    {
      if length < Unit(layer) then 1 else length / Unit(layer)
    }

    /** Every piece is there and has a frame of its own. */
    ghost predicate Complete(elements: seq<Element>) {
      && |elements| == Pieces() && Unshared(elements, |elements|)
      && forall i: nat :: i < |elements| ==> Backed(layer, elements, i)
    }

    ghost predicate Committed()
      reads this
    {
      Complete(elements)
    }

    ghost predicate Valid()
      reads this
    {
      && layer < LAYERS && length % Unit(layer) == 0 && length < ADDRESS_BYTES && (base.Some? ==> base.value < ADDRESS_BYTES)
      && (if base.None? then Committed() || elements == [Element(0, None)] else elements == [])
    }

    constructor Sparse(length: nat, layer: nat)
      requires length < ADDRESS_BYTES && layer < LAYERS
      ensures Valid() && Stored() && base.None? && elements == [Element(0, None)] && fresh(tree) && fresh(tree.Repr)
      ensures this.layer == layer && this.length == Padded(length, layer)
    {
      PaddedOk(length, layer);
      this.layer, this.length, base := layer, Padded(length, layer), None;
      tree := new AvlTree(Below);
      backing, elements := map[], [];
      new;
      assert Stored();
      var _ := Append(0);
    }

    constructor Physical(base: nat, length: nat, layer: nat)
      requires base < ADDRESS_BYTES && length < ADDRESS_BYTES && layer < LAYERS
      ensures Valid() && Stored() && this.base == Some(base) && fresh(tree) && tree.Repr == {}
      ensures this.layer == layer && this.length == Padded(length, layer)
    {
      PaddedOk(length, layer);
      this.layer, this.length, this.base := layer, Padded(length, layer), Some(base);
      tree := new AvlTree(Below);
      backing, elements := map[], [];
    }

    ghost function Frames(): set<Frame>
      reads this
    {
      Backing(layer, elements)
    }

    /** Backs the last piece so far with a frame. */
    method Back(pmm: Instance, node: Node, ghost begin: nat, ghost free: Stacks, ghost held: set<Frame>) returns (ok: bool)
      requires pmm.Valid() && IsPiece(node, begin) && layer < LAYERS && begin < |elements| == begin + 1 && elements[begin].backing.None?
      requires Took(free, held, Frames(), pmm.free, pmm.held)
      modifies this`backing, this`elements, pmm
      ensures !ok ==> Exhausted(pmm.free, layer) && unchanged(this) && unchanged(pmm)
      ensures ok ==>
                && pmm.Valid() && IsPiece(node, begin) && |elements| == begin + 1 && elements[..begin] == old(elements)[..begin]
                && elements[begin].offset == old(elements)[begin].offset && elements[begin].backing.Some?
                && (forall i: nat :: i < begin ==> elements[i].backing != elements[begin].backing)
                && Took(free, held, Frames(), pmm.free, pmm.held)
    {
      hide AvlTree.Valid, Took, Separated, FreePage;
      PieceAt(begin);
      var frame := pmm.Pop(layer);
      if frame.None? {
        return false;
      }
      ghost var was := elements;
      forall i: nat | i < begin ensures elements[i].backing != frame {
        assert elements[i] in elements;
        assert elements[i].backing.Some? ==> Frame(layer, elements[i].backing.value) in Frames();
        TookMore(free, held, Frames(), old(pmm.free), old(pmm.held), Frame(layer, frame.value), pmm.free);
      }
      TookMore(free, held, Frames(), old(pmm.free), old(pmm.held), Frame(layer, frame.value), pmm.free);
      backing := backing[node := frame.value];
      elements := elements[begin := elements[begin].(backing := frame)];
      assert was == was[..begin] + [was[begin]] && elements == was[..begin] + [elements[begin]];
      BackingExtend(layer, was[..begin], was[begin]);
      BackingExtend(layer, was[..begin], elements[begin]);
      assert Frames() == old(Frames()) + {Frame(layer, frame.value)};
      return true;
    }

    /** The first `n` pieces have frames, and the last one, at `node`, has none yet. */
    ghost predicate Partly(node: Node, n: nat)
      reads this, tree, tree.Repr
    {
      && IsPiece(node, n) && |elements| == n + 1 && elements[n] == Element(n * Unit(layer), None)
      && (forall i: nat :: i < n ==> Backed(layer, elements, i)) && Unshared(elements, n)
    }

    /** One round: the last piece gets a frame, and one more piece comes after it. */
    method Advance(pmm: Instance, begin: Node, ghost n: nat, ghost free: Stacks, ghost held: set<Frame>) returns (ok: bool, node: Node)
      requires pmm.Valid() && layer < LAYERS && Partly(begin, n) && Took(free, held, Frames(), pmm.free, pmm.held)
      modifies this`backing, this`elements, tree, tree.Repr, pmm
      ensures !ok ==> Exhausted(pmm.free, layer) && unchanged(this) && unchanged(pmm)
      ensures fresh(tree.Repr - old(tree.Repr))
      ensures ok ==> pmm.Valid() && Partly(node, n + 1) && Took(free, held, Frames(), pmm.free, pmm.held)
    {
      hide Took, Exhausted, FreePage, HeldPage, Separated, IsPiece, Stored;
      ghost var was := elements;
      node := begin;
      ok := Back(pmm, begin, n, free, held);
      if !ok {
        return;
      }
      ghost var now := elements;
      StillUnshared(was, now, n);
      NowBacked(layer, was, now, n);
      LastOffset(layer, now, n);
      PieceHere(begin, n);
      node := Append(begin.key + Unit(layer));
      BackingExtend(layer, now, Element(n * Unit(layer) + Unit(layer), None));
      assert Frames() == Backing(layer, now);
      assert elements[..n + 1] == now;
      MoreBacked(layer, now, elements, n + 1);
    }

    /** Splits the piece at `start`, which has no frame, into pieces of one frame each, up to
        `nextOffset`. */
    method CommitFrom(pmm: Instance, start: Node, nextOffset: nat) returns (ok: bool, begin: AvlLinks.Element?<nat>)
      requires Valid() && pmm.Valid() && base.None? && elements == [Element(0, None)]
      requires IsPiece(start, 0) && nextOffset == length
      modifies this`backing, this`elements, tree, tree.Repr, pmm
      ensures pmm.Valid() && Took(old(pmm.free), old(pmm.held), Frames(), pmm.free, pmm.held)
      ensures !ok ==> Exhausted(pmm.free, layer) && !Committed()
      ensures fresh(tree.Repr - old(tree.Repr))
      ensures ok ==> begin == null && Committed() && Stored()
    {
      hide Took, Exhausted, FreePage, HeldPage, Separated, IsPiece, Stored;
      var node: Node := start;
      ghost var n: nat := 0;
      begin := null;
      TookNothing(pmm.free, pmm.held);
      assert Frames() == {};
      PieceHere(node, 0);
      while node.key + Unit(layer) < nextOffset
        invariant pmm.Valid() && Partly(node, n) && fresh(tree.Repr - old(tree.Repr))
        invariant node.key == n * Unit(layer) && (n == 0 || n * Unit(layer) < length)
        invariant Took(old(pmm.free), old(pmm.held), Frames(), pmm.free, pmm.held)
        decreases nextOffset - node.key
      {
        ok, node := Advance(pmm, node, n, old(pmm.free), old(pmm.held));
        if !ok {
          return;
        }
        assert (n + 1) * Unit(layer) == n * Unit(layer) + Unit(layer);
        n := n + 1;
        PieceHere(node, n);
      }
      PieceCount(n, length, Unit(layer));
      ghost var was := elements;
      ok := Back(pmm, node, n, old(pmm.free), old(pmm.held));
      if !ok {
        assert !Backed(layer, elements, n);
        return;
      }
      StillUnshared(was, elements, n);
      NowBacked(layer, was, elements, n);
      PieceHere(node, n);
      begin := NextPiece(node, n);
    }

    /** Where committing stops: behind the last piece. */
    lemma EndIs(end: AvlLinks.Element?<nat>)
      requires Stored() && forall e :: e in elements ==> e.offset <= length
      requires (forall e :: e in tree.Repr ==> !Matches(Below, length, e.key)) ==> end == null || Bounds(Below, tree.Contents(), length, end)
      requires (exists e :: e in tree.Repr && Matches(Below, length, e.key)) ==>
                 exists e :: e in tree.Repr && Matches(Below, length, e.key) && Follows(tree.Contents(), e, end)
      ensures end == null
    {
      hide AvlTree.At, AvlShape.Balanced, Bounds, Follows;
      var s := tree.Contents();
      forall x | x in s ensures x.key <= length {
        var i :| 0 <= i < |s| && s[i] == x;
        assert elements[i] in elements;
      }
      if exists e :: e in tree.Repr && Matches(Below, length, e.key) {
        var e :| e in tree.Repr && Matches(Below, length, e.key) && Follows(s, e, end);
        FollowsNone(s, length, e, end);
      } else if end != null {
        BoundsNone(s, length, end);
      }
    }

    /** Pieces do not start behind the end. */
    lemma OffsetsWithin()
      requires Valid() && base.None?
      ensures forall e :: e in elements ==> e.offset <= length
    {
      forall i | 0 <= i < |elements| ensures elements[i].offset <= length {
        if Committed() {
          assert Backed(layer, elements, i);
          if i > 0 {
            Levels.ProductMonotone(i, length / Unit(layer), Unit(layer));
          }
        }
      }
    }

    /** Backs every piece with a frame of its own, taken from the allocator. Fails only when that runs
        out, which is a panic. */
    method CommitAll(pmm: Instance) returns (ok: bool)
      requires Valid() && Stored() && pmm.Valid()
      modifies this`backing, this`elements, tree, tree.Repr, pmm
      ensures !ok ==> Exhausted(pmm.free, layer) && !Committed()
      ensures base.Some? ==> ok && unchanged(this) && unchanged(pmm) && unchanged(tree) && unchanged(tree.Repr)
      ensures base.None? && old(Committed()) ==> ok && unchanged(this) && unchanged(pmm) && unchanged(tree) && unchanged(tree.Repr)
      ensures fresh(tree.Repr - old(tree.Repr))
      ensures pmm.Valid() && (ok ==> Valid() && Stored() && (base.None? ==> Committed()))
      ensures base.None? && !old(Committed()) ==>
                Took(old(pmm.free), old(pmm.held), Frames(), pmm.free, pmm.held)
    {
      hide Took, Exhausted, FreePage, HeldPage, Separated, Stored, IsPiece;
      if base.Some? {
        return true;
      }
      ghost var committed := Committed();
      var begin, end := FromTo();
      ghost var k: nat := 0;
      while begin != end
        invariant k <= |elements| && pmm.Valid() && Valid() && Stored() && end == null && fresh(tree.Repr - old(tree.Repr))
        invariant if k < |elements| then begin != null && IsPiece(begin, k) else begin == null
        invariant committed ==> unchanged(this) && unchanged(pmm) && unchanged(tree) && unchanged(tree.Repr)
        invariant !committed && k == 0 ==>
                    elements == [Element(0, None)] && unchanged(this) && unchanged(pmm) && unchanged(tree) && unchanged(tree.Repr)
        invariant !committed && k > 0 ==>
                    k == |elements| && Committed() && Took(old(pmm.free), old(pmm.held), Frames(), pmm.free, pmm.held)
        decreases |elements| - k
      {
        PieceHere(begin, k);
        assert committed ==> Backed(layer, elements, k);
        if begin in backing {
          begin := NextPiece(begin, k);
          k := k + 1;
          continue;
        }
        var nextOffset := EndOf(begin, k);
        ok, begin := CommitFrom(pmm, begin, nextOffset);
        if !ok {
          return;
        }
        k := |elements|;
      }
      return true;
    }

    /** Where committing starts and stops, when all of the object is asked for. */
    method FromTo() returns (begin: AvlLinks.Element?<nat>, end: AvlLinks.Element?<nat>)
      requires Valid() && Stored() && base.None?
      ensures |elements| > 0 && begin != null && IsPiece(begin, 0) && end == null
    {
      hide AvlTree.At, AvlShape.Balanced, Bridged, Narrowed, Bounds, Follows, Overlooks, AvlShape.Plug;
      OffsetsWithin();
      PieceAt(0);
      assert elements[0].offset == 0 by {
        assert Committed() ==> Backed(layer, elements, 0);
      }
      var found, c := tree.LowerBound(0);
      begin := found;
      ZeroFirst(begin);
      var last, d := tree.UpperBound(length);
      end := last;
      EndIs(end);
    }

    lemma ZeroFirst(node: Node)
      requires Stored() && node in tree.Repr && node.key == 0 && |elements| > 0 && elements[0].offset == 0
      ensures node == tree.Contents()[0]
    {
      hide AvlTree.At, AvlShape.Balanced;
      ElemsInOrder(tree.tree, node);
      var s := tree.Contents();
      var i :| 0 <= i < |s| && s[i] == node;
      assert elements[0] == PieceOf(s[0]) && s[0].key == s[i].key;
      assert i == 0;
    }

    /** Gives every frame of the object back. */
    method Destroy(pmm: Instance)
      requires Valid() && Stored() && pmm.Valid() && Frames() <= pmm.held
      modifies pmm
      ensures pmm.Valid() && pmm.held == old(pmm.held) - Frames()
      ensures forall p: nat :: FreePage(pmm.free, p) <==> FreePage(old(pmm.free), p) || HeldPage(Frames(), p)
    {
      hide Stored, IsPiece, Separated, FreePage;
      ghost var i := 0;
      var node := FirstPiece();
      assert Backing(layer, elements[..0]) == {};
      while node != null
        invariant i <= |elements| && pmm.Valid() && if i < |elements| then node != null && IsPiece(node, i) else node == null
        invariant pmm.held == old(pmm.held) - Backing(layer, elements[..i])
        invariant forall p: nat :: FreePage(pmm.free, p) <==> FreePage(old(pmm.free), p) || HeldPage(Backing(layer, elements[..i]), p)
        decreases |elements| - i
      {
        assert elements[..i + 1] == elements[..i] + [elements[i]];
        BackingExtend(layer, elements[..i], elements[i]);
        PieceHere(node, i);
        if node in backing {
          var frame := backing[node];
          ghost var f, done := Frame(layer, frame), Backing(layer, elements[..i]);
          assert Committed() && elements[i] in elements && f in Frames();
          assert f !in done;
          HeldPushable(pmm.free, pmm.held, f);
          PushKeeps(pmm.free, pmm.held, f);
          pmm.Push(layer, frame);
          HeldMore(done, f);
        }
        node := NextPiece(node, i);
        i := i + 1;
      }
      assert elements[..i] == elements;
    }
  }

  /** The piece that got a frame is in its place. */
  lemma NowBacked(layer: nat, was: seq<Element>, now: seq<Element>, n: nat)
    requires |was| == |now| == n + 1 && was[..n] == now[..n] && forall i: nat :: i < n ==> Backed(layer, was, i)
    requires was[n].offset == n * Unit(layer) == now[n].offset && now[n].backing.Some?
    ensures forall i: nat :: i < n + 1 ==> Backed(layer, now, i)
  {
    forall i: nat | i < n + 1 ensures Backed(layer, now, i) {
      assert i < n ==> was[i] == was[..n][i] == now[..n][i] && Backed(layer, was, i);
    }
  }

  lemma MoreBacked(layer: nat, was: seq<Element>, now: seq<Element>, n: nat)
    requires |was| == n && |now| == n + 1 && now[..n] == was && (forall i: nat :: i < n ==> Backed(layer, was, i)) && Unshared(was, n)
    ensures (forall i: nat :: i < n ==> Backed(layer, now, i)) && Unshared(now, n)
  {
    assert forall i: nat :: i < n ==> now[i] == now[..n][i] == was[i];
    forall i: nat | i < n ensures Backed(layer, now, i) {
      assert Backed(layer, was, i);
    }
  }

  /** Pieces start before the end of the last one. */
  lemma LastOffset(layer: nat, elements: seq<Element>, n: nat)
    requires |elements| == n + 1 && forall i: nat :: i < n + 1 ==> Backed(layer, elements, i)
    ensures forall e :: e in elements ==> e.offset < n * Unit(layer) + Unit(layer)
  {
    forall i: nat | i < n + 1 ensures elements[i].offset < n * Unit(layer) + Unit(layer) {
      assert Backed(layer, elements, i);
      Levels.ProductMonotone(i, n, Unit(layer));
    }
  }

  lemma HeldPushable(free: Stacks, held: set<Frame>, f: Frame)
    requires Separated(free, held) && f in held
    ensures Pushable(free, held, f)
  {
    assert Known(free, held, f);
  }
}
