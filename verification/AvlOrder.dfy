/** The order of the elements of an AVL tree, and what a search knows on its way down. */
module AvlOrder {
  import opened Basics
  import opened AvlShape
  import opened AvlLinks

  /** What comes before `b` comes before all that comes after `b`. */
  ghost predicate Bridges<K(!new)>(less: (K, K) -> bool, b: K) {
    forall a, c :: less(a, b) && less(b, c) ==> less(a, c)
  }

  /** All that a search asks of the comparator: to be transitive at the elements of the tree. */
  ghost predicate Bridged<K(!new)>(less: (K, K) -> bool, elements: set<Element<K>>) {
    forall e :: e in elements ==> Bridges(less, e.key)
  }

  ghost predicate Sorted<K>(less: (K, K) -> bool, s: seq<Element<K>>) {
    forall i, j :: 0 <= i < j < |s| ==> less(s[i].key, s[j].key)
  }

  ghost predicate AllBelow<K>(less: (K, K) -> bool, s: seq<Element<K>>, key: K) {
    forall e :: e in s ==> less(e.key, key)
  }

  ghost predicate AllAbove<K>(less: (K, K) -> bool, s: seq<Element<K>>, key: K) {
    forall e :: e in s ==> less(key, e.key)
  }

  /** Neither key comes before the other. */
  predicate Matches<K>(less: (K, K) -> bool, a: K, b: K) {
    !less(a, b) && !less(b, a)
  }

  lemma NotLess<K>(less: (K, K) -> bool, a: K, b: K)
    requires !Matches(less, a, b) && !less(a, b)
    ensures less(b, a)
  {
  }

  /** A search for `key` has come down to `t`: all it passed on the left comes before the key, all on
      the right after it. */
  ghost predicate Narrowed<K>(less: (K, K) -> bool, c: Context<Element<K>>, t: Tree<Element<K>>, key: K) {
    Sorted(less, InOrder(t)) && AllBelow(less, Before(c), key) && AllAbove(less, After(c), key)
  }

  lemma SortedParts<K>(less: (K, K) -> bool, s: seq<Element<K>>, e: Element<K>, r: seq<Element<K>>)
    requires Sorted(less, s + [e] + r)
    ensures Sorted(less, s) && Sorted(less, r) && AllBelow(less, s, e.key) && AllAbove(less, r, e.key)
  {
    var w := s + [e] + r;
    assert w[|s|] == e;
    forall i, j | 0 <= i < j < |s| ensures less(s[i].key, s[j].key) {
      assert w[i] == s[i] && w[j] == s[j];
    }
    forall i, j | 0 <= i < j < |r| ensures less(r[i].key, r[j].key) {
      assert w[|s| + 1 + i] == r[i] && w[|s| + 1 + j] == r[j];
    }
    forall x | x in s ensures less(x.key, e.key) {
      var i :| 0 <= i < |s| && s[i] == x;
      assert w[i] == x;
    }
    forall x | x in r ensures less(e.key, x.key) {
      var i :| 0 <= i < |r| && r[i] == x;
      assert w[|s| + 1 + i] == x;
    }
  }

  lemma GoLeft<K(!new)>(less: (K, K) -> bool, c: Context<Element<K>>, t: Tree<Element<K>>, key: K)
    requires t.Node? && Bridges(less, t.elem.key) && Narrowed(less, c, t, key) && less(key, t.elem.key)
    ensures Narrowed(less, InLeft(c, t.elem, t.bf, t.right), t.left, key)
  {
    SortedParts(less, InOrder(t.left), t.elem, InOrder(t.right));
  }

  lemma GoRight<K(!new)>(less: (K, K) -> bool, c: Context<Element<K>>, t: Tree<Element<K>>, key: K)
    requires t.Node? && Bridges(less, t.elem.key) && Narrowed(less, c, t, key) && less(t.elem.key, key)
    ensures Narrowed(less, InRight(c, t.left, t.elem, t.bf), t.right, key)
  {
    SortedParts(less, InOrder(t.left), t.elem, InOrder(t.right));
  }

  /** A key between two sorted stretches. */
  lemma SortedBetween<K>(less: (K, K) -> bool, s: seq<Element<K>>, e: Element<K>, r: seq<Element<K>>)
    requires Sorted(less, s + r) && AllBelow(less, s, e.key) && AllAbove(less, r, e.key)
    ensures Sorted(less, s + [e] + r)
  {
    var v, w := s + r, s + [e] + r;
    forall i, j | 0 <= i < j < |w| ensures less(w[i].key, w[j].key) {
      if i == |s| {
        assert w[j] == r[j - |s| - 1];
      } else if j == |s| {
        assert w[i] == s[i];
      } else {
        var i', j' := if i < |s| then i else i - 1, if j < |s| then j else j - 1;
        assert w[i] == v[i'] && w[j] == v[j'];
      }
    }
  }

  lemma {:induction false} ElemsInOrder<K>(t: Tree<Element<K>>, e: Element<K>)
    ensures e in Elems(t) <==> e in InOrder(t)
  {
    if t.Node? {
      ElemsInOrder(t.left, e);
      ElemsInOrder(t.right, e);
    }
  }

  lemma {:induction false} ContextElemsInOrder<K>(c: Context<Element<K>>, e: Element<K>)
    ensures e in ContextElems(c) <==> e in Before(c) || e in After(c)
  {
    match c
    case Top =>
    case InLeft(up, _, _, r) =>
      ElemsInOrder(r, e);
      ContextElemsInOrder(up, e);
    case InRight(up, l, _, _) =>
      ElemsInOrder(l, e);
      ContextElemsInOrder(up, e);
  }

  /** A search that ran into an empty subtree has compared unequal to every element. */
  lemma NoneMatches<K>(less: (K, K) -> bool, c: Context<Element<K>>, key: K)
    requires Narrowed(less, c, Nil, key)
    ensures forall e :: e in ContextElems(c) ==> !Matches(less, key, e.key)
  {
    forall e | e in ContextElems(c) ensures !Matches(less, key, e.key) {
      ContextElemsInOrder(c, e);
    }
  }

  /** What putting an element in an empty place does to the elements in order, and to the balance. */
  lemma Inserted<K>(less: (K, K) -> bool, c: Context<Element<K>>, e: Element<K>)
    requires Sorted(less, InOrder(Plug(c, Nil))) && Narrowed(less, c, Nil, e.key)
    ensures var t := InsertFix(c, Node(Nil, e, 0, Nil));
            && (t.Some? ==> Sorted(less, InOrder(t.value)) && Spliced(InOrder(Plug(c, Nil)), e, InOrder(t.value)))
            && (Balanced(Plug(c, Nil)) ==> t.Some? && Balanced(t.value))
  {
    var n := Node(Nil, e, 0, Nil);
    PlugInOrder(c, Nil);
    PlugBalanced(c, Nil);
    assert Before(c) + InOrder(Nil) + After(c) == Before(c) + After(c);
    SortedBetween(less, Before(c), e, After(c));
    if InsertFix(c, n).Some? {
      InsertFixInOrder(c, n);
      assert InOrder(n) == [e];
      var s := Before(c) + After(c);
      assert s[..|Before(c)|] == Before(c) && s[|Before(c)|..] == After(c);
    }
    if Balanced(Plug(c, Nil)) {
      InsertFixOk(c, n, 0);
    }
  }

  /** `s'` is `s` with `e` put in somewhere. */
  ghost predicate Spliced<E>(s: seq<E>, e: E, s': seq<E>)
    ensures Spliced(s, e, s') ==> |s'| == |s| + 1
  {
    exists i :: 0 <= i <= |s| && s' == s[..i] + [e] + s[i..]
  }

  /** `next` comes right after `e` in `s`; null means that `e` is last. */
  ghost predicate Follows<K>(s: seq<Element<K>>, e: Element<K>, next: Element?<K>) {
    exists i :: FollowsAt(s, i, e, next)
  }

  ghost predicate FollowsAt<K>(s: seq<Element<K>>, i: nat, e: Element<K>, next: Element?<K>) {
    i < |s| && s[i] == e && next == FirstOf(s[i + 1..])
  }

  ghost function FirstOf<K>(s: seq<Element<K>>): Element?<K> {
    if s == [] then null else s[0]
  }

  /** `r` is the first of `s` that comes after `key`, and all before it come before `key`; null means
      that there is none. */
  ghost predicate Bounds<K>(less: (K, K) -> bool, s: seq<Element<K>>, key: K, r: Element?<K>) {
    exists i: nat :: BoundsAt(less, s, i, key, r)
  }

  ghost predicate BoundsAt<K>(less: (K, K) -> bool, s: seq<Element<K>>, i: nat, key: K, r: Element?<K>) {
    i <= |s| && AllBelow(less, s[..i], key) && r == FirstOf(s[i..]) && (r != null ==> less(key, r.key))
  }

  /** What a search that ran into an empty place should come up with. */
  lemma BoundHere<K>(less: (K, K) -> bool, c: Context<Element<K>>, key: K)
    requires Narrowed(less, c, Nil, key)
    ensures Bounds(less, InOrder(Plug(c, Nil)), key, FirstOf(After(c)))
  {
    PlugInOrder(c, Nil);
    var s := InOrder(Plug(c, Nil));
    assert s == Before(c) + After(c);
    assert s[..|Before(c)|] == Before(c) && s[|Before(c)|..] == After(c);
    assert BoundsAt(less, s, |Before(c)|, key, FirstOf(After(c)));
  }

  /** The search ended with a turn to the right at an element that is not a left child, though elements
      follow further up. */
  predicate Overlooks<E(==)>(c: Context<E>) {
    c.InRight? && !c.up.InLeft? && After(c) != []
  }

  lemma LeafFacts<E>(e: E)
    ensures var l := Node(Nil, e, 0, Nil); InOrder(l) == [e] && Height(l) == 1 && Balanced(l)
  {
    var n: Tree<E> := Nil;
    assert InOrder(n) == [] && Height(n) == 0 && Balanced(n);
  }

  lemma LeaningFacts<E>(e: E, f: E)
    ensures var l := Node(Nil, e, 1, Node(Nil, f, 0, Nil)); InOrder(l) == [e, f] && Height(l) == 2 && Balanced(l)
  {
    var n: Tree<E> := Nil;
    assert InOrder(n) == [] && Height(n) == 0 && Balanced(n);
    LeafFacts(f);
  }

  /** Where the search among four elements ends, of which the second is below the first. */
  function FourHole<E>(a: E, b: E, c: E, d: E): Context<E> {
    InRight(InRight(InLeft(Top, c, -1, Node(Nil, d, 0, Nil)), Nil, a, 1), Nil, b, 0)
  }

  lemma FourFacts<E>(a: E, b: E, c: E, d: E)
    ensures var h := FourHole(a, b, c, d); Before(h) == [a, b] && After(h) == [c, d]
    ensures Plug(FourHole(a, b, c, d), Nil) == Node(Node(Nil, a, 1, Node(Nil, b, 0, Nil)), c, -1, Node(Nil, d, 0, Nil))
    ensures Balanced(Plug(FourHole(a, b, c, d), Nil)) && InOrder(Plug(FourHole(a, b, c, d), Nil)) == [a, b, c, d]
  {
    LeafFacts(d);
    LeaningFacts(a, b);
    var n: Tree<E> := Nil;
    var c1 := InLeft(Top, c, -1, Node(Nil, d, 0, Nil));
    var c2 := InRight(c1, n, a, 1);
    assert InOrder(n) == [];
    assert After(c1) == [c] + [d] + After<E>(Top) && Before(c1) == Before<E>(Top) == [];
    assert After(c2) == After(c1) && Before(c2) == Before(c1) + InOrder(n) + [a];
    var l := Node(n, a, 1, Node(n, b, 0, n));
    assert Plug(c1, l) == Plug(Top, Node(l, c, -1, Node(Nil, d, 0, Nil)));
    assert Plug(c2, l.right) == Plug(c1, l);
    assert Plug(FourHole(a, b, c, d), n) == Plug(c2, l.right);
  }

  /** Among 10, 20, 30 and 40, with 30 at the top and 20 below 10, a search for what comes after 25 ends
      with a turn to the right at 20, and overlooks 30. */
  lemma OverlooksNext(e10: Element<int>, e20: Element<int>, e30: Element<int>, e40: Element<int>, less: (int, int) -> bool)
    requires e10.key == 10 && e20.key == 20 && e30.key == 30 && e40.key == 40 && forall a, b :: less(a, b) <==> a < b
    ensures var c := FourHole(e10, e20, e30, e40);
            && Balanced(Plug(c, Nil)) && Sorted(less, InOrder(Plug(c, Nil))) && Narrowed(less, c, Nil, 25)
            && Overlooks(c) && FirstOf(After(c)) == e30
  {
    FourFacts(e10, e20, e30, e40);
    var n: Tree<Element<int>> := Nil;
    assert InOrder(n) == [];
    hide Plug, InOrder, After, Before, Balanced;
  }

  lemma FollowsHere<K>(c: Context<Element<K>>, t: Tree<Element<K>>)
    requires t.Node?
    ensures Follows(InOrder(Plug(c, t)), t.elem, FirstOf(InOrder(t.right) + After(c)))
  {
    PlugInOrder(c, t);
    assert InOrder(t) == InOrder(t.left) + [t.elem] + InOrder(t.right);
    hide InOrder, Before, After;
    Regroup(Before(c), InOrder(t.left), t.elem, InOrder(t.right), After(c));
    FollowsSplit(Before(c) + InOrder(t.left), t.elem, InOrder(t.right) + After(c));
  }

  lemma Regroup<E>(a: seq<E>, l: seq<E>, e: E, r: seq<E>, z: seq<E>)
    ensures a + (l + [e] + r) + z == (a + l) + [e] + (r + z)
  {
  }

  lemma FollowsSplit<K>(a: seq<Element<K>>, e: Element<K>, r: seq<Element<K>>)
    ensures Follows(a + [e] + r, e, FirstOf(r))
  {
    var s := a + [e] + r;
    assert s[|a| + 1..] == r;
    assert FollowsAt(s, |a|, e, FirstOf(r));
  }

  /** All elements but the one at the top of subtree `t`. */
  ghost function Rest<E>(c: Context<E>, t: Tree<E>): seq<E>
    requires t.Node?
  {
    Before(c) + InOrder(t.left) + InOrder(t.right) + After(c)
  }

  lemma RestOk<K>(less: (K, K) -> bool, c: Context<Element<K>>, t: Tree<Element<K>>)
    requires t.Node? && Sorted(less, InOrder(Plug(c, t)))
    ensures Spliced(Rest(c, t), t.elem, InOrder(Plug(c, t))) && Sorted(less, Rest(c, t))
  {
    PlugInOrder(c, t);
    assert InOrder(t) == InOrder(t.left) + [t.elem] + InOrder(t.right);
    hide InOrder, Before, After, Plug, Sorted;
    var a, b := Before(c) + InOrder(t.left), InOrder(t.right) + After(c);
    Regroup(Before(c), InOrder(t.left), t.elem, InOrder(t.right), After(c));
    assert Rest(c, t) == a + b;
    assert (a + b)[..|a|] == a && (a + b)[|a|..] == b;
    SortedWithout(less, a, t.elem, b);
  }

  lemma SortedWithout<K>(less: (K, K) -> bool, s: seq<Element<K>>, e: Element<K>, r: seq<Element<K>>)
    requires Sorted(less, s + [e] + r)
    ensures Sorted(less, s + r)
  {
    var v, w := s + r, s + [e] + r;
    forall i, j | 0 <= i < j < |v| ensures less(v[i].key, v[j].key) {
      var i', j' := if i < |s| then i else i + 1, if j < |s| then j else j + 1;
      assert v[i] == w[i'] && v[j] == w[j'];
    }
  }

  lemma {:induction false} LocateIn<K>(c: Context<Element<K>>, t: Tree<Element<K>>, e: Element<K>, root: Element?<K>, m: Memory<K>)
    returns (d: Context<Element<K>>, u: Tree<Element<K>>)
    requires Focus(c, t, root, m) && e in Elems(t)
    ensures Focus(d, u, root, m) && Plug(d, u) == Plug(c, t) && u.Node? && u.elem == e
    decreases t
  {
    if t.elem == e {
      d, u := c, t;
    } else if e in Elems(t.left) {
      FocusLeft(c, t, root, m);
      d, u := LocateIn(InLeft(c, t.elem, t.bf, t.right), t.left, e, root, m);
    } else {
      FocusRight(c, t, root, m);
      d, u := LocateIn(InRight(c, t.left, t.elem, t.bf), t.right, e, root, m);
    }
  }

  lemma SplicedElems<K>(t: Tree<Element<K>>, e: Element<K>, t': Tree<Element<K>>)
    requires Spliced(InOrder(t), e, InOrder(t'))
    ensures Elems(t') == Elems(t) + {e}
  {
    forall x | x in Elems(t') ensures x in Elems(t) + {e} {
      SplicedMember(InOrder(t), e, InOrder(t'), x);
      ElemsInOrder(t, x);
      ElemsInOrder(t', x);
    }
    forall x | x in Elems(t) + {e} ensures x in Elems(t') {
      SplicedMember(InOrder(t), e, InOrder(t'), x);
      ElemsInOrder(t, x);
      ElemsInOrder(t', x);
    }
  }

  lemma SplicedMember<E>(s: seq<E>, e: E, s': seq<E>, x: E)
    requires Spliced(s, e, s')
    ensures x in s' <==> x in s || x == e
  {
    var i :| 0 <= i <= |s| && s' == s[..i] + [e] + s[i..];
    assert x in s <==> x in s[..i] + s[i..] by { assert s == s[..i] + s[i..]; }
  }

  // ---------------------------------------------------------------------------------------
  // How high a balanced tree can be

  function Fib(n: nat): nat {
    if n < 2 then n else Fib(n - 1) + Fib(n - 2)
  }

  lemma {:induction false} FibMonotone(m: nat, n: nat)
    requires m <= n
    ensures Fib(m) <= Fib(n)
    decreases n
  {
    if m < n {
      FibMonotone(m, n - 1);
    }
  }

  /** A balanced tree of height `h` holds at least Fib(h + 2) - 1 elements. */
  lemma {:induction false} ManyElements<E>(t: Tree<E>)
    requires Balanced(t)
    ensures |InOrder(t)| + 1 >= Fib(Height(t) + 2)
  {
    if t.Node? {
      ManyElements(t.left);
      ManyElements(t.right);
      var h, l, r := Height(t), Height(t.left), Height(t.right);
      assert |InOrder(t)| == |InOrder(t.left)| + 1 + |InOrder(t.right)|;
      assert h == 1 + Max(l, r) && (l + 1 == h || r + 1 == h) && l + 2 >= h && r + 2 >= h;
      hide InOrder, Height, Balanced;
      assert Fib(h + 2) == Fib(h + 1) + Fib(h);
      FibMonotone(h, if l + 1 == h then r + 2 else l + 2);
    }
  }

  /** Fibonacci numbers double within two steps, so the height is logarithmic in the size. */
  lemma {:induction false} FibDoubles(h: nat)
    ensures Fib(2 * h + 2) >= Power(h)
  {
    if h > 0 {
      FibDoubles(h - 1);
      assert Fib(2 * h + 2) == Fib(2 * h + 1) + Fib(2 * h);
      FibMonotone(2 * h, 2 * h + 1);
    }
  }

  lemma HeightLogarithmic<E>(t: Tree<E>)
    requires Balanced(t)
    ensures Power(Height(t) / 2) <= |InOrder(t)| + 1
  {
    var h := Height(t) / 2;
    ManyElements(t);
    FibDoubles(h);
    FibMonotone(2 * h + 2, Height(t) + 2);
  }

  /** How many elements a search for `key` looks at. */
  ghost function LooksAt<K>(less: (K, K) -> bool, t: Tree<Element<K>>, key: K): nat {
    if t.Nil? || Matches(less, key, t.elem.key) then (if t.Nil? then 0 else 1)
    else 1 + LooksAt(less, if less(key, t.elem.key) then t.left else t.right, key)
  }

  lemma {:induction false} LooksAtBound<K>(less: (K, K) -> bool, t: Tree<Element<K>>, key: K)
    ensures LooksAt(less, t, key) <= Height(t)
  {
    if t.Node? && !Matches(less, key, t.elem.key) {
      LooksAtBound(less, if less(key, t.elem.key) then t.left else t.right, key);
    }
  }
}
