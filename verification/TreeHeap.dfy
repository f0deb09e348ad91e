/** The intrusive binary heap that orders timers and ready threads. */
module TreeHeap {
  import opened Basics
  import opened HeapShape
  import opened HeapIndex

  class TreeHeap<K(!new)> {
    const less: (K, K) -> bool
    var top: Element?<K>
    var size: nat

    ghost var Repr: set<Element<K>>
    ghost var slots: seq<Element<K>>

    ghost function Links(): Memory<K>
      reads this`Repr, Repr
    {
      map e | e in Repr :: HeapShape.Links(e.prev, e.next, e.parent)
    }

    /** The pointers in memory are those of a complete tree with the elements of `s`. */
    ghost predicate Wires(s: seq<Element<K>>)
      reads this`top, this`Repr, Repr
    {
      Wired(s, top, Links())
    }

    ghost predicate Valid()
      reads this, Repr
    {
      WeakOrder(less) && Wires(slots) && Repr == (set e | e in slots) && Heaped(less, slots) && size == |slots|
    }

    constructor (less: (K, K) -> bool)
      requires WeakOrder(less)
      ensures Valid() && this.less == less && Repr == {}
    {
      this.less, top, size, Repr, slots := less, null, 0, {}, [];
    }

    lemma SlotLinks(s: seq<Element<K>>, i: int)
      requires Wires(s) && 1 <= i <= |s|
      ensures s[i - 1] in Repr && s[i - 1].prev == Slot(s, 2 * i) && s[i - 1].next == Slot(s, 2 * i + 1)
      ensures s[i - 1].parent == Slot(s, i / 2) && top == s[0]
    {
      assert WiredAt(s, i, Links());
    }

    /** The element of slot `nth`, found by the binary digits of its number. */
    method GetNth(nth: nat, ghost s: seq<Element<K>>) returns (current: Element<K>)
      requires Wires(s) && 1 <= nth <= |s|
      ensures current == s[nth - 1]
    {
      hide Wires;
      SlotLinks(s, 1);
      var level := Digits(nth);
      var n, x := 1, 0;
      current := top;
      var levelElements := Power(level - 1);
      var place := nth - (levelElements - 1);
      ghost var i := 1;
      assert Covers(1, nth, levelElements);
      while n < level
        invariant 1 <= n <= level && 1 <= i && Covers(i, nth, Power(level - n))
        invariant x == i * Power(level - n) - levelElements
        invariant 1 <= i <= |s| && current == s[i - 1]
      {
        ghost var w := Power(level - n - 1);
        PowerQuotient(level - 1, n);
        var y := levelElements / Power(n) + x;
        CoversChild(i, nth, w);
        SlotLinks(s, i);
        if y < place {
          CoversBound(2 * i + 1, nth, w);
          x := y;
          current := current.next;
          i := 2 * i + 1;
        } else {
          CoversBound(2 * i, nth, w);
          current := current.prev;
          i := 2 * i;
        }
        n := n + 1;
      }
      CoversBound(i, nth, 1);
    }

    method SetChildren(e: Element<K>, prev: Element?<K>, next: Element?<K>)
      requires e in Repr
      modifies Repr
      ensures Repr == old(Repr) && Links() == WithChildren(old(Links()), e, prev, next)
    {
      e.prev, e.next := prev, next;
    }

    method SetParent(e: Element?<K>, parent: Element?<K>)
      requires e != null ==> e in Repr
      modifies Repr
      ensures Repr == old(Repr) && Links() == WithParent(old(Links()), e, parent)
    {
      if e != null {
        e.parent := parent;
      }
    }

    method ReplaceChild(e: Element?<K>, child: Element<K>, other: Element?<K>)
      requires e != null ==> e in Repr
      modifies Repr
      ensures Repr == old(Repr) && Links() == Replace(old(Links()), e, child, other)
    {
      if e != null {
        if e.prev == child {
          e.prev := other;
        } else {
          e.next := other;
        }
      }
    }

    method TakeChildren(parent: Element<K>, child: Element<K>)
      requires Reachable(Links(), parent) && Reachable(Links(), child)
      modifies Repr
      ensures Repr == old(Repr) && Links() == SwapBelow(old(Links()), parent, child)
    {
      var prev, next := child.prev, child.next;
      SetChildren(parent, prev, next);
      SetParent(prev, parent);
      SetParent(next, parent);
    }

    /** The child takes its place beside the child's former sibling. */
    method TakeSibling(parent: Element<K>, child: Element<K>, prev: Element?<K>, next: Element?<K>)
      requires parent in Repr && child in Repr && (prev != null ==> prev in Repr) && (next != null ==> next in Repr)
      modifies Repr
      ensures Repr == old(Repr)
      ensures var m := old(Links());
              Links() == if prev == child then WithParent(WithChildren(m, child, parent, next), next, child)
                         else WithChildren(WithParent(m, prev, child), child, prev, parent)
    {
      if prev == child {
        SetChildren(child, parent, next);
        SetParent(next, child);
      } else {
        SetParent(prev, child);
        SetChildren(child, prev, parent);
      }
    }

    lemma LinksAt(e: Element<K>)
      ensures e in Links() <==> e in Repr
      ensures e in Repr ==> Links()[e] == HeapShape.Links(e.prev, e.next, e.parent)
      ensures Links().Keys == Repr
    {
    }

    /** The pointer writes of an exchange. */
    method SwapPointers(parent: Element<K>, child: Element<K>)
      requires Reachable(Links(), parent) && Reachable(Links(), child)
      modifies this`top, Repr
      ensures Repr == old(Repr) && Links() == SwapLinks(old(Links()), parent, child)
      ensures top == if old(parent.parent) == null then child else old(top)
    {
      hide WithChildren, WithParent, Replace, SwapBelow, Links;
      LinksAt(parent);
      LinksAt(child);
      var prev, next, above := parent.prev, parent.next, parent.parent;
      TakeChildren(parent, child);
      SetParent(child, above);
      SetParent(parent, child);
      TakeSibling(parent, child, prev, next);
      ReplaceChild(above, parent, child);
      if above == null {
        top := child;
      }
    }

    /** Exchanges an element with one right below it. */
    method Swap(parent: Element<K>, child: Element<K>, ghost s: seq<Element<K>>, ghost i: int, ghost j: int)
      requires Wires(s) && 1 <= i < j <= |s| && Child(i, j) && parent == s[i - 1] && child == s[j - 1]
      modifies this`top, Repr
      ensures Repr == old(Repr) && Wires(Exchange(s, i, j))
    {
      SwapOk(s, i, j, top, Links());
      SlotLinks(s, i);
      hide Wired, SwapLinks, Swappable, Exchange;
      SwapPointers(parent, child);
    }

    /** Hangs an element on the first empty slot. */
    method Attach(e: Element<K>, parent: Element<K>, ghost s: seq<Element<K>>)
      requires Wires(s) && s != [] && e !in Repr && e !in s && parent == s[(|s| + 1) / 2 - 1]
      modifies this`Repr, parent, e
      ensures Repr == old(Repr) + {e} && Wires(s + [e])
    {
      AttachOk(s, e, top, Links());
      SlotLinks(s, (|s| + 1) / 2);
      hide Wired, AttachLinks;
      AttachPointers(e, parent);
    }

    method AttachPointers(e: Element<K>, parent: Element<K>)
      requires e !in Repr && parent in Repr
      modifies this`Repr, parent, e
      ensures Repr == old(Repr) + {e} && Links() == AttachLinks(old(Links()), parent, e)
    {
      e.parent, e.prev, e.next := parent, null, null;
      if parent.prev != null {
        parent.next := e;
      } else {
        parent.prev := e;
      }
      Repr := Repr + {e};
    }

    /** Lets the element of slot `i` rise to where it belongs. */
    method Rise(element: Element<K>, above: Element<K>, ghost s: seq<Element<K>>, ghost i: int)
      returns (ghost s': seq<Element<K>>)
      requires WeakOrder(less) && Wires(s) && Rising(less, s, i) && 2 <= i <= |s| && element == s[i - 1] && above == s[i / 2 - 1]
      modifies this`top, Repr
      ensures Repr == old(Repr) && Wires(s') && Heaped(less, s') && |s'| == |s| && (set e | e in s') == (set e | e in s)
    {
      hide Wires, Rising, WeakOrder, Heaped, Exchange;
      s' := s;
      ghost var k := i;
      var parent: Element?<K> := above;
      SlotLinks(s', 1);
      while element != top && less(element.key, parent.key)
        invariant Repr == old(Repr) && Wires(s') && Rising(less, s', k) && 1 <= k <= |s'| == |s|
        invariant element == s'[k - 1] && parent == Slot(s', k / 2) && top == s'[0] && (set e | e in s') == (set e | e in s)
        decreases k
      {
        Swap(parent, element, s', k / 2, k);
        RiseStep(less, s', k);
        ExchangeElems(s', k / 2, k);
        ExchangeAt(s', k / 2, k);
        s', k := Exchange(s', k / 2, k), k / 2;
        SlotLinks(s', k);
        parent := element.parent;
      }
      TopSlot(s', k);
      Risen(less, s', k);
    }

    lemma TopSlot(s: seq<Element<K>>, k: int)
      requires Wires(s) && 1 <= k <= |s|
      ensures s[k - 1] == top <==> k == 1
    {
    }

    /** Adds an element. A heap that was empty takes it with the links it has. */
    method Push(e: Element<K>)
      requires Valid() && e !in Repr
      modifies this, Repr, e
      ensures Repr == old(Repr) + {e} && size == old(size) + 1
      ensures Valid() <==> old(Repr) != {} || old(e.prev == null && e.next == null && e.parent == null)
    {
      if top == null {
        top := e;
        size := size + 1;
        Repr := {e};
        slots := [e];
        assert WiredAt([e], 1, Links()) <==> e.prev == null && e.next == null && e.parent == null;
        return;
      }
      SlotLinks(slots, 1);
      RisingAttached(less, slots, e);
      ghost var s, s' := slots, slots;
      hide Wires, Rising, WeakOrder, Heaped;
      var parent := GetNth((size + 1) / 2, s);
      Attach(e, parent, s);
      s' := Rise(e, parent, s + [e], |s| + 1);
      slots := s';
      size := size + 1;
    }

    /** The writes that put the last element at the top. */
    method PromotePointers(was: Element<K>, e: Element<K>)
      requires Reachable(Links(), was) && Reachable(Links(), e)
      modifies this`top, Repr
      ensures Repr == old(Repr) && Links() == PromoteLinks(old(Links()), was, e) && top == e
    {
      hide WithChildren, WithParent, Replace;
      var prev, next, parent := was.prev, was.next, e.parent;
      top := e;
      SetChildren(e, prev, next);
      ReplaceChild(parent, e, null);
      SetParent(e, null);
      SetParent(prev, e);
      SetParent(next, e);
    }

    /** Lets the element of slot `i` sink to where it belongs. */
    method Sink(element: Element<K>, ghost s: seq<Element<K>>) returns (ghost s': seq<Element<K>>)
      requires WeakOrder(less) && Wires(s) && Sinking(less, s, 1) && |s| >= 1 && element == s[0]
      modifies this`top, Repr
      ensures Repr == old(Repr) && Wires(s') && Heaped(less, s') && |s'| == |s| && (set e | e in s') == (set e | e in s)
    {
      hide Wires, Sinking, WeakOrder, Heaped, Exchange;
      s' := s;
      ghost var k := 1;
      while true
        invariant Repr == old(Repr) && Wires(s') && Sinking(less, s', k) && 1 <= k <= |s'| == |s|
        invariant element == s'[k - 1] && (set e | e in s') == (set e | e in s)
        decreases |s| - k
      {
        var best, j := Best(element, s', k);
        if best == element {
          Sunk(less, s', k);
          return;
        }
        Swap(element, best, s', k, j);
        SinkStep(less, s', k, j);
        ExchangeElems(s', k, j);
        ExchangeAt(s', k, j);
        s', k := Exchange(s', k, j), j;
      }
    }

    /** The element, or the one of the two below it that comes first. */
    method Best(element: Element<K>, ghost s: seq<Element<K>>, ghost i: int) returns (best: Element<K>, ghost j: int)
      requires WeakOrder(less) && Wires(s) && 1 <= i <= |s| && element == s[i - 1]
      ensures best == element ==>
                forall k :: Child(i, k) && k <= |s| ==> !less(s[k - 1].key, element.key)
      ensures best != element ==>
                && Child(i, j) && i < j <= |s| && best == s[j - 1] && less(best.key, element.key)
                && var b := Beside(i, j); b <= |s| ==> !less(s[b - 1].key, best.key)
    {
      hide Wires;
      SlotLinks(s, i);
      best, j := element, i;
      if element.prev != null && less(element.prev.key, best.key) {
        best, j := element.prev, 2 * i;
      }
      if element.next != null && less(element.next.key, best.key) {
        best, j := element.next, 2 * i + 1;
      }
    }

    method Drop(e: Element<K>, ghost s: seq<Element<K>>)
      requires Wires(s) && e !in s
      modifies this`Repr
      ensures Repr == old(Repr) - {e} && Wires(s)
    {
      ghost var m := Links();
      Repr := Repr - {e};
      WiredAgree(s, top, m, Links());
    }

    /** Drops an element that the pointers no longer reach. */
    method Forget(e: Element<K>, ghost s: seq<Element<K>>)
      requires WeakOrder(less) && Wires(s) && Heaped(less, s) && size == |s| + 1
      requires (set x | x in s) == Repr - {e}
      modifies this`size, this`Repr, this`slots
      ensures Valid() && Repr == old(Repr) - {e} && slots == s
    {
      Drop(e, s);
      slots := s;
      size := size - 1;
    }

    /** A heap of two that is emptied and given back the first element popped is not a heap any more:
        that element still points to the other. */
    method EmptyAndRefill() returns (a: Element<K>, b: Element<K>)
      requires Valid() && size == 2
      modifies this, Repr
      ensures old(Repr) == {a, b} && Repr == {a} && size == 1 && !Valid()
    {
      a := Pop();
      b := Pop();
      assert Repr == {};
      Push(a);
    }

    lemma First()
      requires Valid() && size >= 1
      ensures top == slots[0] && forall e :: e in Repr ==> !less(e.key, top.key)
    {
      forall e | e in Repr ensures !less(e.key, top.key) {
        var i :| 0 <= i < |slots| && slots[i] == e;
        TopIsFirst(less, slots, i + 1);
      }
    }

    method PopTwo()
      requires Valid() && size == 2
      modifies this, Repr
      ensures Valid() && top != null && Repr == old(Repr) - {old(slots)[0]} && size == 1
      ensures old(slots)[0].prev == old(slots)[1]
    {
      ghost var s := slots;
      SlotLinks(s, 1);
      SlotLinks(s, 2);
      var was := top;
      top := top.prev;
      top.parent := null;
      assert WiredAt([s[1]], 1, Links());
      Forget(was, [s[1]]);
    }

    method PopThree()
      requires Valid() && size == 3
      modifies this, Repr
      ensures Valid() && Repr == old(Repr) - {old(slots)[0]} && size == 2
      ensures old(slots)[0].prev == old(slots)[1]
    {
      ghost var s := slots;
      SlotLinks(s, 1);
      SlotLinks(s, 2);
      SlotLinks(s, 3);
      var was := top;
      ghost var s' := if less(s[1].key, s[2].key) then [s[1], s[2]] else [s[2], s[1]];
      if less(was.prev.key, was.next.key) {
        top := was.prev;
        was.next.parent := top;
        top.prev := was.next;
      } else {
        top := was.next;
        was.prev.parent := top;
        top.prev := was.prev;
      }
      top.parent := null;
      assert WiredAt(s', 1, Links()) && WiredAt(s', 2, Links());
      assert (set x | x in s') == Repr - {was};
      Forget(was, s');
    }

    method PopMany()
      requires Valid() && size >= 4
      modifies this, Repr
      ensures Valid() && Repr == old(Repr) - {old(slots)[0]} && size == old(size) - 1
      ensures old(slots)[0].prev != null
    {
      hide WeakOrder, Heaped, WiredAt, Promoted;
      ghost var s := slots;
      SlotLinks(s, 1);
      var was := top;
      var e := GetNth(size, s);
      Promote(was, e, s);
      SinkingPromoted(less, s);
      PromotedElems(s);
      Drop(was, Promoted(s));
      ghost var s' := Sink(e, Promoted(s));
      slots := s';
      size := size - 1;
    }

    /** The last element takes the place of the first. */
    method Promote(was: Element<K>, e: Element<K>, ghost s: seq<Element<K>>)
      requires Wires(s) && |s| >= 4 && was == s[0] && e == s[|s| - 1]
      modifies this`top, Repr
      ensures Repr == old(Repr) && Wires(Promoted(s)) && was.prev == s[1]
    {
      PromoteOk(s, top, Links());
      PromoteReachable(s, top, Links());
      PromoteTop(s, top, Links());
      hide Wired, PromoteLinks;
      PromotePointers(was, e);
    }

    /** Takes out an element that no other comes before. It keeps the links it had. */
    method Pop() returns (r: Element?<K>)
      requires Valid()
      modifies this, Repr
      ensures Valid() && (r == null <==> old(size) == 0)
      ensures r != null ==>
                && r == old(top) && r in old(Repr) && Repr == old(Repr) - {r} && size == old(size) - 1
                && (forall e :: e in old(Repr) ==> !less(e.key, r.key))
                && (old(size) >= 2 ==> r.prev != null)
    {
      ghost var s := slots;
      if size == 0 {
        return null;
      }
      First();
      r := top;
      assert r in Repr;
      if size == 1 {
        top := null;
        Forget(r, []);
      } else if size == 2 {
        PopTwo();
      } else if size == 3 {
        PopThree();
      } else {
        PopMany();
      }
    }
  }

  lemma ExchangeElems<K>(s: seq<Element<K>>, i: int, j: int)
    requires 1 <= i <= |s| && 1 <= j <= |s|
    ensures (set e | e in Exchange(s, i, j)) == (set e | e in s)
  {
    var s' := Exchange(s, i, j);
    forall e | e in s ensures e in s' {
      var k :| 0 <= k < |s| && s[k] == e;
      assert s'[if k == i - 1 then j - 1 else if k == j - 1 then i - 1 else k] == e;
    }
  }

  lemma Risen<K>(less: (K, K) -> bool, s: seq<Element<K>>, i: int)
    requires Rising(less, s, i) && 1 <= i <= |s| && (i == 1 || !less(s[i - 1].key, s[i / 2 - 1].key))
    ensures Heaped(less, s)
  {
  }

  lemma RisingAttached<K>(less: (K, K) -> bool, s: seq<Element<K>>, e: Element<K>)
    requires Heaped(less, s) && s != []
    ensures Rising(less, s + [e], |s| + 1)
  {
    var s', i := s + [e], |s| + 1;
    forall k {:trigger InPlace(less, s', k)} | k != i ensures InPlace(less, s', k) {
      assert InPlace(less, s, k);
    }
  }

  lemma ExchangeAt<K>(s: seq<Element<K>>, i: int, j: int)
    requires 1 <= i <= |s| && 1 <= j <= |s|
    ensures var s' := Exchange(s, i, j); |s'| == |s| && s'[i - 1] == s[j - 1] && s'[j - 1] == s[i - 1]
  {
  }

  lemma Sunk<K>(less: (K, K) -> bool, s: seq<Element<K>>, i: int)
    requires Sinking(less, s, i) && 1 <= i <= |s|
    requires forall k :: Child(i, k) && k <= |s| ==> !less(s[k - 1].key, s[i - 1].key)
    ensures Heaped(less, s)
  {
    forall k {:trigger InPlace(less, s, k)} ensures InPlace(less, s, k) {
      assert k / 2 == i ==> Child(i, k);
    }
  }

  lemma WiredAgree<K>(s: seq<Element<K>>, top: Element?<K>, m: Memory<K>, m': Memory<K>)
    requires Wired(s, top, m) && forall e :: e in s && e in m ==> e in m' && m'[e] == m[e]
    ensures Wired(s, top, m')
  {
    forall k {:trigger WiredAt(s, k, m')} | 1 <= k <= |s| ensures WiredAt(s, k, m') {
      assert WiredAt(s, k, m);
    }
  }

  lemma SinkingPromoted<K>(less: (K, K) -> bool, s: seq<Element<K>>)
    requires Heaped(less, s) && |s| >= 4
    ensures Sinking(less, Promoted(s), 1)
  {
    var s' := Promoted(s);
    forall k {:trigger InPlace(less, s', k)} | k / 2 != 1 ensures InPlace(less, s', k) {
      assert InPlace(less, s, k);
    }
  }

  lemma PromotedElems<K>(s: seq<Element<K>>)
    requires Distinct(s) && |s| >= 4
    ensures (set e | e in Promoted(s)) == (set e | e in s) - {s[0]} && s[0] !in Promoted(s)
    ensures |Promoted(s)| == |s| - 1 && Promoted(s)[0] == s[|s| - 1]
  {
    var s', n := Promoted(s), |s|;
    forall e | e in s && e != s[0] ensures e in s' {
      var k :| 0 <= k < n && s[k] == e;
      assert s'[if k == n - 1 then 0 else k] == e;
    }
  }

  lemma PromoteTop<K>(s: seq<Element<K>>, top: Element?<K>, m: Memory<K>)
    requires Wired(s, top, m) && |s| >= 4 && Reachable(m, s[0]) && Reachable(m, s[|s| - 1])
    ensures var m' := PromoteLinks(m, s[0], s[|s| - 1]); s[0] in m' && m'[s[0]].prev == s[1]
  {
    PromoteReachable(s, top, m);
    PromoteEffect(m, s[0], s[|s| - 1], s[0]);
  }
}
