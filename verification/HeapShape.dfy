/** The slots of the intrusive binary heap, and how they lie in memory. */
module HeapShape {

  /** An element carries its own links. */
  class Element<K> {
    const key: K
    var prev: Element?<K>
    var next: Element?<K>
    var parent: Element?<K>

    constructor (key: K)
      ensures this.key == key && prev == null && next == null && parent == null
    {
      this.key, prev, next, parent := key, null, null, null;
    }
  }

  datatype Links<K> = Links(prev: Element?<K>, next: Element?<K>, parent: Element?<K>)

  type Memory<!K> = map<Element<K>, Links<K>>

  /** Slot `i` in level order, counted from one; slot `i` has slots `2i` and `2i + 1` below it. */
  ghost function Slot<K>(s: seq<Element<K>>, i: int): Element?<K> {
    if 1 <= i <= |s| then s[i - 1] else null
  }

  ghost predicate Distinct<K>(s: seq<Element<K>>) {
    forall i, j :: 0 <= i < j < |s| ==> s[i] != s[j]
  }

  /** The element of slot `i` points to its neighbours. */
  ghost predicate WiredAt<K>(s: seq<Element<K>>, i: int, m: Memory<K>)
    requires 1 <= i <= |s|
  {
    s[i - 1] in m && m[s[i - 1]] == Links(Slot(s, 2 * i), Slot(s, 2 * i + 1), Slot(s, i / 2))
  }

  /** The pointers in memory are those of a complete binary tree with the elements of `s`. */
  ghost predicate Wired<K>(s: seq<Element<K>>, top: Element?<K>, m: Memory<K>) {
    && top == Slot(s, 1) && Distinct(s)
    && (forall i {:trigger WiredAt(s, i, m)} :: 1 <= i <= |s| ==> WiredAt(s, i, m))
  }

  ghost function WithChildren<K>(m: Memory<K>, e: Element<K>, prev: Element?<K>, next: Element?<K>): Memory<K>
    requires e in m
  {
    m[e := m[e].(prev := prev, next := next)]
  }

  ghost function WithParent<K>(m: Memory<K>, e: Element?<K>, parent: Element?<K>): Memory<K>
    requires e != null ==> e in m
  {
    if e == null then m else m[e := m[e].(parent := parent)]
  }

  /** The pointer of `e` that leads to `child` comes to lead to `other`. */
  ghost function Replace<K>(m: Memory<K>, e: Element?<K>, child: Element<K>, other: Element?<K>): Memory<K>
    requires e != null ==> e in m
  {
    if e == null then m
    else if m[e].prev == child then m[e := m[e].(prev := other)]
    else m[e := m[e].(next := other)]
  }

  // ---------------------------------------------------------------------------------------
  // Exchanging a parent and a child

  ghost predicate Reachable<K>(m: Memory<K>, e: Element<K>) {
    && e in m && (m[e].prev != null ==> m[e].prev in m) && (m[e].next != null ==> m[e].next in m)
    && (m[e].parent != null ==> m[e].parent in m)
  }

  /** The parent takes over what is below the child. */
  ghost function SwapBelow<K>(m: Memory<K>, p: Element<K>, c: Element<K>): (m': Memory<K>)
    requires Reachable(m, p) && Reachable(m, c)
    ensures m'.Keys == m.Keys
  {
    var m1 := WithChildren(m, p, m[c].prev, m[c].next);
    WithParent(WithParent(m1, m[c].prev, p), m[c].next, p)
  }

  ghost function SwapLinks<K>(m: Memory<K>, p: Element<K>, c: Element<K>): Memory<K>
    requires Reachable(m, p) && Reachable(m, c)
  {
    var pprev, pnext, pparent := m[p].prev, m[p].next, m[p].parent;
    var m3 := WithParent(WithParent(SwapBelow(m, p, c), c, pparent), p, c);
    var m4 := if pprev == c then WithParent(WithChildren(m3, c, p, pnext), pnext, c)
              else WithChildren(WithParent(m3, pprev, c), c, pprev, p);
    Replace(m4, pparent, p, c)
  }

  /** Parent, child and their neighbours are different elements. */
  ghost predicate Swappable<K>(m: Memory<K>, p: Element<K>, c: Element<K>) {
    && Reachable(m, p) && Reachable(m, c) && p != c && m[c].parent == p && (m[p].prev == c || m[p].next == c)
    && var sibling := if m[p].prev == c then m[p].next else m[p].prev;
       && Apart4(m[c].prev, m[c].next, sibling, m[p].parent)
       && {p as Element?<K>, c} !! {m[c].prev, m[c].next, sibling, m[p].parent}
  }

  ghost predicate Apart4<K>(a: Element?<K>, b: Element?<K>, c: Element?<K>, d: Element?<K>) {
    && (a == b ==> a == null) && (a == c ==> a == null) && (a == d ==> a == null)
    && (b == c ==> b == null) && (b == d ==> b == null) && (c == d ==> c == null)
  }

  /** What `SwapLinks` does to each element. */
  lemma SwapEffect<K>(m: Memory<K>, p: Element<K>, c: Element<K>, e: Element<K>)
    requires Swappable(m, p, c) && e in m
    ensures var m' := SwapLinks(m, p, c);
            var isPrev := m[p].prev == c;
            var sibling := if isPrev then m[p].next else m[p].prev;
            && e in m'
            && m'[e] ==
               (if e == p then Links(m[c].prev, m[c].next, c)
                else if e == c then Links(if isPrev then p else sibling, if isPrev then sibling else p, m[p].parent)
                else if e == m[c].prev || e == m[c].next then m[e].(parent := p)
                else if e == sibling then m[e].(parent := c)
                else if e == m[p].parent then
                  (if m[e].prev == p then m[e].(prev := c) else m[e].(next := c))
                else m[e])
  {
  }

  ghost function Exchange<K>(s: seq<Element<K>>, i: int, j: int): seq<Element<K>>
    requires 1 <= i <= |s| && 1 <= j <= |s|
  {
    s[i - 1 := s[j - 1]][j - 1 := s[i - 1]]
  }

  lemma DistinctSlots<K>(s: seq<Element<K>>, i: int, j: int)
    requires Distinct(s)
    ensures Slot(s, i) == Slot(s, j) ==> Slot(s, i) == null || i == j
  {
  }

  ghost predicate Child(i: int, j: int) {
    j == 2 * i || j == 2 * i + 1
  }

  /** The slot beside `j`, below `i`. */
  function Beside(i: int, j: int): int {
    if j == 2 * i then 2 * i + 1 else 2 * i
  }

  lemma SwapWired<K>(s: seq<Element<K>>, i: int, j: int, top: Element?<K>, m: Memory<K>)
    requires Wired(s, top, m) && 1 <= i < j <= |s| && Child(i, j)
    ensures Swappable(m, s[i - 1], s[j - 1])
    ensures m[s[i - 1]].prev == s[j - 1] <==> j == 2 * i
  {
    assert WiredAt(s, i, m) && WiredAt(s, j, m);
    var b := Beside(i, j);
    assert 1 <= i / 2 ==> WiredAt(s, i / 2, m);
    assert 2 * j <= |s| ==> WiredAt(s, 2 * j, m);
    assert 2 * j + 1 <= |s| ==> WiredAt(s, 2 * j + 1, m);
    assert b <= |s| ==> WiredAt(s, b, m);
  }

  /** The pointers of slot `k` after the exchange. */
  lemma SwapAt<K>(s: seq<Element<K>>, i: int, j: int, k: int, top: Element?<K>, m: Memory<K>)
    requires Wired(s, top, m) && 1 <= i < j <= |s| && Child(i, j) && 1 <= k <= |s|
    requires Swappable(m, s[i - 1], s[j - 1]) && (m[s[i - 1]].prev == s[j - 1] <==> j == 2 * i)
    ensures WiredAt(Exchange(s, i, j), k, SwapLinks(m, s[i - 1], s[j - 1]))
  {
    hide SwapLinks, Swappable;
    var s' := Exchange(s, i, j);
    var p, c := s[i - 1], s[j - 1];
    assert WiredAt(s, i, m) && WiredAt(s, j, m) && WiredAt(s, k, m);
    SwapEffect(m, p, c, s'[k - 1]);
    if k != i && k != j {
      var e := s[k - 1];
      DistinctSlots(s, k, 2 * j);
      DistinctSlots(s, k, 2 * j + 1);
      DistinctSlots(s, k, Beside(i, j));
      DistinctSlots(s, k, i / 2);
      DistinctSlots(s, 2 * k, i);
    }
  }

  /** Exchanging the pointers exchanges the elements of the two slots. */
  lemma SwapOk<K>(s: seq<Element<K>>, i: int, j: int, top: Element?<K>, m: Memory<K>)
    requires Wired(s, top, m) && 1 <= i < j <= |s| && Child(i, j)
    ensures Swappable(m, s[i - 1], s[j - 1])
    ensures Wired(Exchange(s, i, j), if i == 1 then s[j - 1] else top, SwapLinks(m, s[i - 1], s[j - 1]))
  {
    hide SwapLinks, Swappable;
    SwapWired(s, i, j, top, m);
    var s', m' := Exchange(s, i, j), SwapLinks(m, s[i - 1], s[j - 1]);
    forall k {:trigger WiredAt(s', k, m')} | 1 <= k <= |s| ensures WiredAt(s', k, m') {
      SwapAt(s, i, j, k, top, m);
    }
  }

  // ---------------------------------------------------------------------------------------
  // Adding the last slot, and moving it to the top

  ghost function AttachLinks<K>(m: Memory<K>, p: Element<K>, e: Element<K>): Memory<K>
    requires p in m
  {
    var m1 := m[e := Links(null, null, p)];
    if m[p].prev != null then m1[p := m[p].(next := e)] else m1[p := m[p].(prev := e)]
  }

  lemma AttachOk<K>(s: seq<Element<K>>, e: Element<K>, top: Element?<K>, m: Memory<K>)
    requires Wired(s, top, m) && e !in s && s != []
    ensures var p := s[(|s| + 1) / 2 - 1]; p in m && Wired(s + [e], top, AttachLinks(m, p, e))
  {
    var h, s' := (|s| + 1) / 2, s + [e];
    var p := s[h - 1];
    assert WiredAt(s, h, m);
    var m' := AttachLinks(m, p, e);
    forall k {:trigger WiredAt(s', k, m')} | 1 <= k <= |s'| ensures WiredAt(s', k, m') {
      assert k <= |s| ==> WiredAt(s, k, m);
    }
  }

  /** The last element takes the place of the first. */
  ghost function Promoted<K>(s: seq<Element<K>>): seq<Element<K>>
    requires |s| >= 2
  {
    s[..|s| - 1][0 := s[|s| - 1]]
  }

  ghost function PromoteLinks<K>(m: Memory<K>, top: Element<K>, e: Element<K>): Memory<K>
    requires Reachable(m, top) && Reachable(m, e)
  {
    var m1 := WithChildren(m, e, m[top].prev, m[top].next);
    var m2 := WithParent(Replace(m1, m[e].parent, e, null), e, null);
    WithParent(WithParent(m2, m[top].prev, e), m[top].next, e)
  }

  lemma PromoteReachable<K>(s: seq<Element<K>>, top: Element?<K>, m: Memory<K>)
    requires Wired(s, top, m) && |s| >= 4
    ensures Reachable(m, s[0]) && Reachable(m, s[|s| - 1])
    ensures m[s[0]].prev == s[1] && m[s[0]].next == s[2] && m[s[|s| - 1]].parent == s[|s| / 2 - 1]
  {
    var n := |s|;
    assert WiredAt(s, 1, m) && WiredAt(s, n, m) && WiredAt(s, 2, m) && WiredAt(s, 3, m) && WiredAt(s, n / 2, m);
  }

  lemma PromoteEffect<K>(m: Memory<K>, top: Element<K>, e: Element<K>, x: Element<K>)
    requires Reachable(m, top) && Reachable(m, e) && x in m && top != e
    requires m[top].prev != m[top].next && m[top].prev != null && m[top].next != null && m[e].parent != null
    requires e != m[top].prev && e != m[top].next && e != m[e].parent
    ensures var m' := PromoteLinks(m, top, e);
            && x in m'
            && m'[x] ==
               (if x == e then Links(m[top].prev, m[top].next, null)
                else
                  var l := if x != m[e].parent then m[x]
                           else if m[x].prev == e then m[x].(prev := null) else m[x].(next := null);
                  if x == m[top].prev || x == m[top].next then l.(parent := e) else l)
  {
  }

  lemma PromoteOk<K>(s: seq<Element<K>>, top: Element?<K>, m: Memory<K>)
    requires Wired(s, top, m) && |s| >= 4
    ensures Reachable(m, s[0]) && Reachable(m, s[|s| - 1])
    ensures Wired(Promoted(s), s[|s| - 1], PromoteLinks(m, s[0], s[|s| - 1]))
  {
    hide PromoteLinks, Reachable;
    PromoteReachable(s, top, m);
    var s', m', n := Promoted(s), PromoteLinks(m, s[0], s[|s| - 1]), |s|;
    forall k {:trigger WiredAt(s', k, m')} | 1 <= k <= |s'| ensures WiredAt(s', k, m') {
      PromoteAt(s, top, m, k);
    }
  }

  lemma PromoteAt<K>(s: seq<Element<K>>, top: Element?<K>, m: Memory<K>, k: int)
    requires Wired(s, top, m) && |s| >= 4 && 1 <= k < |s|
    requires Reachable(m, s[0]) && Reachable(m, s[|s| - 1])
    requires m[s[0]].prev == s[1] && m[s[0]].next == s[2] && m[s[|s| - 1]].parent == s[|s| / 2 - 1]
    ensures WiredAt(Promoted(s), k, PromoteLinks(m, s[0], s[|s| - 1]))
  {
    hide PromoteLinks, Reachable;
    var n, s' := |s|, Promoted(s);
    assert WiredAt(s, k, m);
    assert WiredAt(s, n, m);
    assert WiredAt(s, 1, m);
    var x := s'[k - 1];
    assert x in m;
    PromoteEffect(m, s[0], s[n - 1], x);
    DistinctSlots(s, k, n / 2);
    DistinctSlots(s, 2 * k, n);
    DistinctSlots(s, k, 2);
    DistinctSlots(s, k, 3);
  }

  // ---------------------------------------------------------------------------------------
  // Order

  /** All that the heap asks of its comparator. */
  ghost predicate WeakOrder<K(!new)>(less: (K, K) -> bool) {
    && (forall a, b :: less(a, b) ==> !less(b, a))
    && (forall a, b, c :: !less(a, b) && !less(b, c) ==> !less(a, c))
  }

  ghost predicate InPlace<K>(less: (K, K) -> bool, s: seq<Element<K>>, i: int) {
    2 <= i <= |s| ==> !less(s[i - 1].key, s[i / 2 - 1].key)
  }

  /** No element comes before the one above it. */
  ghost predicate Heaped<K>(less: (K, K) -> bool, s: seq<Element<K>>) {
    forall i {:trigger InPlace(less, s, i)} :: InPlace(less, s, i)
  }

  /** The elements below slot `i` do not come before the one above it. */
  ghost predicate Bridged<K>(less: (K, K) -> bool, s: seq<Element<K>>, i: int, k: int) {
    2 <= i && 2 <= k <= |s| && k / 2 == i ==> !less(s[k - 1].key, s[i / 2 - 1].key)
  }

  ghost predicate HeapedBelow<K>(less: (K, K) -> bool, s: seq<Element<K>>, i: int) {
    forall k {:trigger Bridged(less, s, i, k)} :: Bridged(less, s, i, k)
  }

  /** A heap but for slot `i`, which may belong higher. */
  ghost predicate Rising<K>(less: (K, K) -> bool, s: seq<Element<K>>, i: int) {
    HeapedBelow(less, s, i) && forall k {:trigger InPlace(less, s, k)} :: k != i ==> InPlace(less, s, k)
  }

  /** A heap but for slot `i`, which may belong lower. */
  ghost predicate Sinking<K>(less: (K, K) -> bool, s: seq<Element<K>>, i: int) {
    HeapedBelow(less, s, i) && forall k {:trigger InPlace(less, s, k)} :: k / 2 != i ==> InPlace(less, s, k)
  }

  lemma RiseStep<K(!new)>(less: (K, K) -> bool, s: seq<Element<K>>, i: int)
    requires WeakOrder(less) && Rising(less, s, i) && 2 <= i <= |s| && less(s[i - 1].key, s[i / 2 - 1].key)
    ensures Rising(less, Exchange(s, i / 2, i), i / 2)
  {
    var h, s' := i / 2, Exchange(s, i / 2, i);
    forall k {:trigger InPlace(less, s', k)} | k != h ensures InPlace(less, s', k) {
      assert InPlace(less, s, k) || k == i;
      assert Bridged(less, s, i, k);
    }
    forall k {:trigger Bridged(less, s', h, k)} ensures Bridged(less, s', h, k) {
      assert InPlace(less, s, k) || k == i;
      assert InPlace(less, s, h);
    }
  }

  lemma SinkStep<K(!new)>(less: (K, K) -> bool, s: seq<Element<K>>, i: int, j: int)
    requires WeakOrder(less) && Sinking(less, s, i) && 1 <= i < j <= |s| && Child(i, j) && less(s[j - 1].key, s[i - 1].key)
    requires var b := Beside(i, j); b <= |s| ==> !less(s[b - 1].key, s[j - 1].key)
    ensures Sinking(less, Exchange(s, i, j), j)
  {
    var s' := Exchange(s, i, j);
    forall k {:trigger InPlace(less, s', k)} | k / 2 != j ensures InPlace(less, s', k) {
      assert InPlace(less, s, k) || k / 2 == i;
      assert Bridged(less, s, i, j);
    }
    forall k {:trigger Bridged(less, s', j, k)} ensures Bridged(less, s', j, k) {
      assert k / 2 == j ==> InPlace(less, s, k);
    }
  }

  /** The element in the first slot comes no later than any other. */
  lemma {:induction false} TopIsFirst<K(!new)>(less: (K, K) -> bool, s: seq<Element<K>>, i: int)
    requires WeakOrder(less) && Heaped(less, s) && 1 <= i <= |s|
    ensures !less(s[i - 1].key, s[0].key)
  {
    if i > 1 {
      assert InPlace(less, s, i);
      TopIsFirst(less, s, i / 2);
    }
  }
}
