/** Taking an element out of an AVL tree: what it does to the shape and to the links. */
module AvlErase {
  import opened Basics
  import opened AvlShape
  import opened AvlLinks
  import opened AvlRotate
  import opened AvlOrder

  // ---------------------------------------------------------------------------------------
  // Contexts on top of contexts

  /** Context `p` continued by `base` where it ends. */
  ghost function Graft<E>(p: Context<E>, base: Context<E>): Context<E> {
    match p
    case Top => base
    case InLeft(up, e, b, r) => InLeft(Graft(up, base), e, b, r)
    case InRight(up, l, e, b) => InRight(Graft(up, base), l, e, b)
  }

  /** Down the left from some node: nothing comes before the hole. */
  ghost predicate LeftSpine<E>(p: Context<E>) {
    p.Top? || (p.InLeft? && LeftSpine(p.up))
  }

  lemma {:induction false} LeftSpineOrder<E>(p: Context<E>, base: Context<E>)
    requires LeftSpine(p)
    ensures Before(p) == [] && Before(Graft(p, base)) == Before(base)
    ensures After(Graft(p, base)) == After(p) + After(base)
  {
    if !p.Top? {
      LeftSpineOrder(p.up, base);
    }
  }

  /** Which element is above a graft does not matter to balance. */
  lemma {:induction false} GraftBalanced<E>(p: Context<E>, c: Context<E>, l: Tree<E>, w: E, n: E, b: int, h: nat)
    requires LeftSpine(p) && BalancedAround(Graft(p, InRight(c, l, w, b)), h)
    ensures BalancedAround(Graft(p, InRight(c, l, n, b)), h)
    decreases p
  {
    if !p.Top? {
      GraftBalanced(p.up, c, l, w, n, b, 1 + Max(h, Height(p.right)));
    }
  }

  lemma {:induction false} PlugElems<K>(p: Context<Element<K>>, t: Tree<Element<K>>)
    ensures Elems(Plug(p, t)) == Elems(t) + ContextElems(p)
    decreases p
  {
    if !p.Top? {
      PlugElems(p.up, Wider(p, t));
    }
  }

  lemma {:induction false} GraftElems<K>(p: Context<Element<K>>, base: Context<Element<K>>)
    ensures ContextElems(Graft(p, base)) == ContextElems(p) + ContextElems(base)
  {
    if !p.Top? {
      GraftElems(p.up, base);
    }
  }

  lemma {:induction false} FocusDown<K>(p: Context<Element<K>>, base: Context<Element<K>>, t: Tree<Element<K>>,
                                        root: Element?<K>, m: Memory<K>)
    requires LeftSpine(p) && Focus(base, Plug(p, t), root, m)
    ensures Focus(Graft(p, base), t, root, m)
    decreases p
  {
    if !p.Top? {
      FocusDown(p.up, base, Wider(p, t), root, m);
      FocusLeft(Graft(p.up, base), Wider(p, t), root, m);
    }
  }

  lemma {:induction false} FocusRaise<K>(p: Context<Element<K>>, base: Context<Element<K>>, t: Tree<Element<K>>,
                                         root: Element?<K>, m: Memory<K>)
    requires LeftSpine(p) && Focus(Graft(p, base), t, root, m)
    ensures Focus(base, Plug(p, t), root, m)
    decreases p
  {
    if !p.Top? {
      FocusUp(Graft(p, base), t, root, m);
      FocusRaise(p.up, base, Wider(p, t), root, m);
    }
  }

  // ---------------------------------------------------------------------------------------
  // Changing what hangs in a hole

  /** The root of `t` comes to point back to `e`; nothing else in it changes. */
  ghost predicate Adopted<K>(t: Tree<Element<K>>, e: Element?<K>, m: Memory<K>, m': Memory<K>) {
    && (t.Node? ==> t.elem in m && t.elem in m' && m'[t.elem] == m[t.elem].(parent := e))
    && (forall x :: x in Inner(t) && x in m ==> x in m' && m'[x] == m[x])
  }

  lemma AdoptedLinked<K>(t: Tree<Element<K>>, e: Element?<K>, m: Memory<K>, m': Memory<K>)
    requires Linked(t, m) && Adopted(t, e, m, m')
    ensures Linked(t, m') && Below(t, e, m')
  {
    LinkedAgree(t, m, m');
  }

  /** Subtree `t` hung in the hole. */
  lemma HangOk<K>(c: Context<Element<K>>, t: Tree<Element<K>>, root: Element?<K>, root': Element?<K>,
                  m: Memory<K>, m': Memory<K>)
    requires ContextLinked(c, root, m) && ContextDistinct(c) && Linked(t, m) && Distinct(t) && Elems(t) !! ContextElems(c)
    requires Redirects(c, root, root', m, m', Ptr(t)) && Adopted(t, Hook(c), m, m')
    ensures Focus(c, t, root', m')
  {
    RedirectOk(c, root, root', m, m', Ptr(t));
    AdoptedLinked(t, Hook(c), m, m');
  }

  /** Element `n` put in the hole, with `l` and `r` as its subtrees. */
  lemma PutOk<K>(c: Context<Element<K>>, l: Tree<Element<K>>, n: Element<K>, b: int, r: Tree<Element<K>>,
                 root: Element?<K>, root': Element?<K>, m: Memory<K>, m': Memory<K>)
    requires ContextLinked(c, root, m) && ContextDistinct(c) && Linked(l, m) && Linked(r, m)
    requires Distinct(Node(l, n, b, r)) && Elems(Node(l, n, b, r)) !! ContextElems(c)
    requires Redirects(c, root, root', m, m', n) && n in m' && m'[n] == Links(Ptr(l), Ptr(r), Hook(c), b)
    requires Adopted(l, n, m, m') && Adopted(r, n, m, m')
    ensures Focus(c, Node(l, n, b, r), root', m')
  {
    RedirectOk(c, root, root', m, m', n);
    AdoptedLinked(l, n, m, m');
    AdoptedLinked(r, n, m, m');
  }

  /** Elements that are not in the tree may be forgotten. */
  lemma ForgetOk<K>(c: Context<Element<K>>, t: Tree<Element<K>>, root: Element?<K>, m: Memory<K>, m': Memory<K>)
    requires Focus(c, t, root, m)
    requires forall e :: e in m && e in Elems(t) + ContextElems(c) ==> e in m' && m'[e] == m[e]
    ensures Focus(c, t, root, m')
  {
    LinkedAgree(t, m, m');
    ContextAgree(c, root, m, m');
  }

  // ---------------------------------------------------------------------------------------
  // The three ways to take out the root of a subtree

  /** The element has at most one child, which takes its place. */
  ghost function SpliceOut<K>(m: Memory<K>, w: Element<K>, child: Element?<K>): Memory<K>
    requires w in m && (m[w].parent != null ==> m[w].parent in m) && (child != null ==> child in m)
  {
    Reparent(Redirect(m, m[w].parent, w, child), child, m[w].parent)
  }

  lemma SpliceOutWrites<K>(c: Context<Element<K>>, t: Tree<Element<K>>, y: Tree<Element<K>>, root: Element?<K>, m: Memory<K>)
    requires t.Node? && Hooked(c, t.elem, m) && Apart(c, t.left, t.right, t.elem, t.elem)
    requires (y == t.left && t.right == Nil) || (y == t.right && t.left == Nil)
    requires y.Node? ==> y.elem in m
    ensures Redirects(c, root, if c.Top? then Ptr(y) else root, m, SpliceOut(m, t.elem, Ptr(y)), Ptr(y))
    ensures Adopted(y, Hook(c), m, SpliceOut(m, t.elem, Ptr(y)))
  {
    hide Elems, ContextElems, Inner;
  }

  lemma SpliceOutOk<K>(c: Context<Element<K>>, t: Tree<Element<K>>, y: Tree<Element<K>>, root: Element?<K>, m: Memory<K>)
    requires Focus(c, t, root, m) && t.Node?
    requires (y == t.left && t.right == Nil) || (y == t.right && t.left == Nil)
    ensures t.elem in m && m[t.elem].parent == Hook(c) && (Hook(c) != null ==> Hook(c) in m) && (y.Node? ==> y.elem in m)
    ensures Focus(c, y, if c.Top? then Ptr(y) else root, SpliceOut(m, t.elem, Ptr(y)))
  {
    HookFacts(c, t, root, m);
    assert Linked(y, m) && Distinct(y) && Elems(y) !! ContextElems(c) && t.elem !in Elems(y);
    FocusHooked(c, t, root, m);
    SpliceOutWrites(c, t, y, root, m);
    hide Redirects, Adopted, SpliceOut;
    HangOk(c, y, root, if c.Top? then Ptr(y) else root, m, SpliceOut(m, t.elem, Ptr(y)));
  }

  /** The right child has no left child, and takes the place of the element. */
  ghost function PullUp<K>(m: Memory<K>, w: Element<K>): Memory<K>
    requires w in m && (m[w].parent != null ==> m[w].parent in m)
    requires m[w].left != null && m[w].left in m && m[w].right != null && m[w].right in m
  {
    var l, n, p := m[w].left, m[w].right, m[w].parent;
    var m1 := Redirect(m, p, w, n);
    Reparent(m1[n := m1[n].(bf := m[w].bf, left := l, parent := p)], l, n)
  }

  /** The elements around a place where `n` goes, with subtrees `l` and `r`, are different ones. */
  ghost predicate Apart<K>(c: Context<Element<K>>, l: Tree<Element<K>>, r: Tree<Element<K>>, w: Element<K>, n: Element<K>) {
    && Elems(l) !! Elems(r) && (Elems(l) + Elems(r)) !! ContextElems(c)
    && w !in Elems(l) + Elems(r) + ContextElems(c) && n !in Elems(l) + Elems(r) + ContextElems(c)
    && Inner(l) <= Elems(l) && Inner(r) <= Elems(r)
    && (l.Node? ==> l.elem !in Inner(l)) && (r.Node? ==> r.elem !in Inner(r))
  }

  /** The pointer above leads to `w`. */
  ghost predicate Hooked<K>(c: Context<Element<K>>, w: Element<K>, m: Memory<K>) {
    && w in m && m[w].parent == Hook(c)
    && (!c.Top? ==> c.elem in m && (m[c.elem].left == w <==> c.InLeft?))
  }

  lemma FocusHooked<K>(c: Context<Element<K>>, t: Tree<Element<K>>, root: Element?<K>, m: Memory<K>)
    requires Focus(c, t, root, m) && t.Node?
    ensures Hooked(c, t.elem, m)
    ensures m[t.elem].left == Ptr(t.left) && m[t.elem].right == Ptr(t.right)
    ensures (t.left.Node? ==> t.left.elem in m) && (t.right.Node? ==> t.right.elem in m)
    ensures forall n :: n !in Elems(t) + ContextElems(c) ==> Apart(c, t.left, t.right, t.elem, n)
    ensures Apart(c, t.left, t.right, t.elem, t.elem)
  {
    HookFacts(c, t, root, m);
  }

  lemma PullUpWrites<K>(c: Context<Element<K>>, l: Tree<Element<K>>, r: Tree<Element<K>>, w: Element<K>, n: Element<K>,
                        root: Element?<K>, m: Memory<K>)
    requires Apart(c, l, r, w, n) && Hooked(c, w, m) && w != n && l.Node? && l.elem in m && n in m
    requires m[w].left == l.elem && m[w].right == n && m[n].right == Ptr(r) && (r.Node? ==> r.elem in m && m[r.elem].parent == n)
    ensures Redirects(c, root, if c.Top? then n else root, m, PullUp(m, w), n)
    ensures Adopted(l, n, m, PullUp(m, w)) && Adopted(r, n, m, PullUp(m, w))
    ensures n in PullUp(m, w) && PullUp(m, w)[n] == Links(l.elem, Ptr(r), Hook(c), m[w].bf)
  {
    hide Elems, ContextElems, Inner;
  }

  lemma PullUpOk<K>(c: Context<Element<K>>, t: Tree<Element<K>>, root: Element?<K>, m: Memory<K>)
    requires Focus(c, t, root, m) && t.Node? && t.left.Node? && t.right.Node? && t.right.left.Nil?
    ensures t.elem in m && m[t.elem].left == t.left.elem && m[t.elem].right == t.right.elem
    ensures t.left.elem in m && t.right.elem in m && m[t.elem].parent == Hook(c) && (Hook(c) != null ==> Hook(c) in m)
    ensures Focus(c, Node(t.left, t.right.elem, t.bf, t.right.right), if c.Top? then t.right.elem else root, PullUp(m, t.elem))
  {
    FocusHooked(c, t, root, m);
    FocusRight(c, t, root, m);
    FocusHooked(InRight(c, t.left, t.elem, t.bf), t.right, root, m);
    PullUpWrites(c, t.left, t.right.right, t.elem, t.right.elem, root, m);
    hide Redirects, Adopted, PullUp;
    PutOk(c, t.left, t.right.elem, t.bf, t.right.right, root, if c.Top? then t.right.elem else root, m, PullUp(m, t.elem));
  }

  /** The leftmost element `n` of the right subtree is taken out there and takes the place of `w`. */
  ghost function Supplant<K>(m: Memory<K>, w: Element<K>, n: Element<K>): Memory<K>
    requires w in m && (m[w].parent != null ==> m[w].parent in m)
    requires m[w].left != null && m[w].left in m && m[w].right != null && m[w].right in m
    requires n in m && m[n].parent != null && m[n].parent in m && (m[n].right != null ==> m[n].right in m)
  {
    var l, r, p, q, y := m[w].left, m[w].right, m[w].parent, m[n].parent, m[n].right;
    var m1 := Redirect(m, p, w, n);
    var m2 := Reparent(m1[q := m1[q].(left := y)], y, q);
    Reparent(Reparent(m2[n := Links(l, r, p, m[w].bf)], l, n), r, n)
  }

  /** The tree below `w` once `n` is out. */
  ghost function Supplanted<K>(t: Tree<Element<K>>, p: Context<Element<K>>, u: Tree<Element<K>>): Tree<Element<K>>
    requires t.Node? && u.Node?
  {
    Node(t.left, u.elem, t.bf, Plug(p, u.right))
  }

  /** `u`, the leftmost node of the right subtree of `t`, lies below `p`. */
  ghost predicate Leftmost<K>(t: Tree<Element<K>>, p: Context<Element<K>>, u: Tree<Element<K>>) {
    && t.Node? && t.left.Node? && t.right == Plug(p, u)
    && LeftSpine(p) && !p.Top? && u.Node? && u.left.Nil?
  }

  /** What the pointers say about the elements that `Supplant` touches. */
  lemma SupplantFacts<K>(c: Context<Element<K>>, t: Tree<Element<K>>, p: Context<Element<K>>, u: Tree<Element<K>>,
                         root: Element?<K>, m: Memory<K>)
    requires Focus(c, t, root, m) && Leftmost(t, p, u)
    ensures Focus(Graft(p, InRight(c, t.left, t.elem, t.bf)), u, root, m)
    ensures t.elem in m && m[t.elem].left == t.left.elem && t.left.elem in m && m[t.elem].parent == Hook(c)
    ensures t.right.Node? && m[t.elem].right == t.right.elem && t.right.elem in m
    ensures u.elem in m && m[u.elem].parent == p.elem && p.elem in m && m[u.elem].right == Ptr(u.right)
    ensures (u.right.Node? ==> u.right.elem in m) && (Hook(c) != null ==> Hook(c) in m)
  {
    assert t.right.Node? by { PlugNode(p, u); }
    FocusRight(c, t, root, m);
    FocusDown(p, InRight(c, t.left, t.elem, t.bf), u, root, m);
    assert Linked(t.left, m) && Linked(t.right, m);
    assert Linked(u, m);
  }

  lemma {:induction false} PlugNode<E>(p: Context<E>, t: Tree<E>)
    requires t.Node? || !p.Top?
    ensures Plug(p, t).Node?
    decreases p
  {
    if !p.Top? {
      PlugNode(p.up, Wider(p, t));
    }
  }

  /** First half: `n` is out of the right subtree, and `w` still in place. */
  ghost function Detached<K>(m: Memory<K>, q: Element<K>, y: Element?<K>): Memory<K>
    requires q in m && (y != null ==> y in m)
  {
    Reparent(m[q := m[q].(left := y)], y, q)
  }

  lemma DetachOk<K>(c: Context<Element<K>>, t: Tree<Element<K>>, p: Context<Element<K>>, u: Tree<Element<K>>,
                    root: Element?<K>, m: Memory<K>)
    requires Focus(c, t, root, m) && Leftmost(t, p, u)
    requires p.elem in m && (u.right.Node? ==> u.right.elem in m)
    ensures Focus(c, Node(t.left, t.elem, t.bf, Plug(p, u.right)), root, Detached(m, p.elem, Ptr(u.right)))
  {
    var base := InRight(c, t.left, t.elem, t.bf);
    var m1 := Detached(m, p.elem, Ptr(u.right));
    SupplantFacts(c, t, p, u, root, m);
    DetachHang(Graft(p, base), u, root, m);
    FocusRaise(p, base, u.right, root, m1);
    FocusUp(base, Plug(p, u.right), root, m1);
  }

  lemma DetachHang<K>(d: Context<Element<K>>, u: Tree<Element<K>>, root: Element?<K>, m: Memory<K>)
    requires Focus(d, u, root, m) && d.InLeft? && u.Node? && u.left.Nil?
    ensures d.elem in m && (u.right.Node? ==> u.right.elem in m)
    ensures Focus(d, u.right, root, Detached(m, d.elem, Ptr(u.right)))
  {
    HookFacts(d, u, root, m);
    HangOk(d, u.right, root, root, m, Detached(m, d.elem, Ptr(u.right)));
  }

  /** `n` is not in the tree any more once detached. */
  lemma DetachedElems<K>(c: Context<Element<K>>, t: Tree<Element<K>>, p: Context<Element<K>>, u: Tree<Element<K>>,
                         root: Element?<K>, m: Memory<K>)
    requires Focus(c, t, root, m) && Leftmost(t, p, u)
    ensures u.elem !in Elems(t.left) + Elems(Plug(p, u.right)) + ContextElems(c) + {t.elem}
    ensures p.elem in Elems(t.right) && p.elem in Elems(Plug(p, u.right))
    ensures u.right.Node? ==> u.right.elem in Elems(Plug(p, u.right))
    ensures Elems(t.right) == Elems(Plug(p, u.right)) + {u.elem}
  {
    var base := InRight(c, t.left, t.elem, t.bf);
    SupplantFacts(c, t, p, u, root, m);
    PlugElems(p, u.right);
    PlugElems(p, u);
    GraftElems(p, base);
  }

  /** Second half: `n`, which is not in the tree, takes the place of `w`. */
  ghost function Placed<K>(m: Memory<K>, w: Element<K>, n: Element<K>): Memory<K>
    requires w in m && (m[w].parent != null ==> m[w].parent in m)
    requires m[w].left != null && m[w].left in m && m[w].right != null && m[w].right in m
  {
    var l, r, p := m[w].left, m[w].right, m[w].parent;
    Reparent(Reparent(Redirect(m, p, w, n)[n := m[w]], l, n), r, n)
  }

  lemma PlaceWrites<K>(c: Context<Element<K>>, l: Tree<Element<K>>, r: Tree<Element<K>>, w: Element<K>, n: Element<K>,
                       root: Element?<K>, m: Memory<K>)
    requires Apart(c, l, r, w, n) && Hooked(c, w, m) && w != n && l.Node? && l.elem in m && r.Node? && r.elem in m
    requires m[w].left == l.elem && m[w].right == r.elem
    ensures Redirects(c, root, if c.Top? then n else root, m, Placed(m, w, n), n)
    ensures Adopted(l, n, m, Placed(m, w, n)) && Adopted(r, n, m, Placed(m, w, n))
    ensures n in Placed(m, w, n) && Placed(m, w, n)[n] == m[w]
  {
    hide Elems, ContextElems, Inner;
  }

  lemma PlaceOk<K>(c: Context<Element<K>>, t: Tree<Element<K>>, n: Element<K>, root: Element?<K>, m: Memory<K>)
    requires Focus(c, t, root, m) && t.Node? && t.left.Node? && t.right.Node?
    requires n !in Elems(t) + ContextElems(c)
    ensures t.elem in m && m[t.elem].left == t.left.elem && m[t.elem].right == t.right.elem
    ensures t.left.elem in m && t.right.elem in m && m[t.elem].parent == Hook(c) && (Hook(c) != null ==> Hook(c) in m)
    ensures Focus(c, t.(elem := n), if c.Top? then n else root, Placed(m, t.elem, n))
  {
    FocusHooked(c, t, root, m);
    PlaceWrites(c, t.left, t.right, t.elem, n, root, m);
    hide Redirects, Adopted, Placed;
    PutOk(c, t.left, n, t.bf, t.right, root, if c.Top? then n else root, m, Placed(m, t.elem, n));
  }

  /** Writes to different elements may change places. */
  lemma RedirectLater<K>(m: Memory<K>, p: Element?<K>, w: Element<K>, n: Element<K>, q: Element<K>, y: Element?<K>)
    requires (p != null ==> p in m) && q in m && (y != null ==> y in m) && p != q && q != y && (p != null ==> p != y)
    ensures (p != null ==> p in Detached(m, q, y)) && q in Redirect(m, p, w, n) && (y != null ==> y in Redirect(m, p, w, n))
    ensures Redirect(Detached(m, q, y), p, w, n) == Detached(Redirect(m, p, w, n), q, y)
  {
  }

  /** Taking `n` out first or last makes no difference. */
  lemma SupplantWrites<K>(m: Memory<K>, w: Element<K>, n: Element<K>)
    requires w in m && (m[w].parent != null ==> m[w].parent in m)
    requires m[w].left != null && m[w].left in m && m[w].right != null && m[w].right in m
    requires n in m && m[n].parent != null && m[n].parent in m && (m[n].right != null ==> m[n].right in m)
    requires w != n && m[n].parent != w && m[n].right != w
    requires m[w].parent != null ==> m[w].parent != m[n].parent && m[w].parent != m[n].right
    requires m[n].right != n && m[n].parent != n && m[n].parent != m[n].right
    requires n != m[w].left && n != m[w].right && m[w].left != m[w].right
    ensures Placed(Detached(m, m[n].parent, m[n].right), w, n) == Supplant(m, w, n)
  {
    hide Redirect;
    var p, q, y := m[w].parent, m[n].parent, m[n].right;
    RedirectLater(m, p, w, n, q, y);
    var d := Detached(m, q, y);
    assert d[w] == m[w];
  }

  lemma SupplantOk<K>(c: Context<Element<K>>, t: Tree<Element<K>>, p: Context<Element<K>>, u: Tree<Element<K>>,
                      root: Element?<K>, m: Memory<K>)
    requires Focus(c, t, root, m) && Leftmost(t, p, u)
    ensures t.elem in m && m[t.elem].left == t.left.elem && t.left.elem in m && m[t.elem].parent == Hook(c)
    ensures t.right.Node? && m[t.elem].right == t.right.elem && t.right.elem in m
    ensures u.elem in m && m[u.elem].parent == p.elem && p.elem in m && m[u.elem].right == Ptr(u.right)
    ensures (u.right.Node? ==> u.right.elem in m) && (Hook(c) != null ==> Hook(c) in m)
    ensures Focus(c, Supplanted(t, p, u), if c.Top? then u.elem else root, Supplant(m, t.elem, u.elem))
  {
    SupplantFacts(c, t, p, u, root, m);
    DetachOk(c, t, p, u, root, m);
    DetachedElems(c, t, p, u, root, m);
    FocusHooked(c, t, root, m);
    PlugNode(p, u.right);
    SupplantApart(c, t, p, u, root, m);
    hide Focus, Elems, ContextElems, Apart, Hooked, Placed, Supplant;
    PlaceOk(c, Node(t.left, t.elem, t.bf, Plug(p, u.right)), u.elem, root, Detached(m, p.elem, Ptr(u.right)));
    SupplantWrites(m, t.elem, u.elem);
  }

  lemma SupplantApart<K>(c: Context<Element<K>>, t: Tree<Element<K>>, p: Context<Element<K>>, u: Tree<Element<K>>,
                         root: Element?<K>, m: Memory<K>)
    requires Focus(c, t, root, m) && Leftmost(t, p, u)
    ensures t.elem != u.elem && p.elem != t.elem && Ptr(u.right) != t.elem
    ensures Hook(c) != null ==> Hook(c) != p.elem && Hook(c) != Ptr(u.right)
    ensures Ptr(u.right) != u.elem && p.elem != u.elem && p.elem != Ptr(u.right)
    ensures t.right.Node? && t.left.elem != u.elem && t.right.elem != u.elem && t.left.elem != t.right.elem
    ensures t.right.elem == Ptr(Plug(p, u.right))
    ensures u.elem !in Elems(Node(t.left, t.elem, t.bf, Plug(p, u.right))) + ContextElems(c)
  {
    DetachedElems(c, t, p, u, root, m);
    PlugNode(p, u);
    PlugElem(p, u, u.right);
    FocusHooked(c, t, root, m);
    SupplantFacts(c, t, p, u, root, m);
    FocusHooked(Graft(p, InRight(c, t.left, t.elem, t.bf)), u, root, m);
  }

  lemma {:induction false} PlugElem<K>(p: Context<Element<K>>, t: Tree<Element<K>>, t': Tree<Element<K>>)
    requires !p.Top?
    ensures Ptr(Plug(p, t)) == Ptr(Plug(p, t'))
    decreases p
  {
    if !p.up.Top? {
      PlugElem(p.up, Wider(p, t), Wider(p, t'));
    }
  }

  // ---------------------------------------------------------------------------------------
  // What is left of the tree

  /** Down the left from `t`: the context and the leftmost subtree. */
  ghost function Spine<E>(p: Context<E>, t: Tree<E>): (r: (Context<E>, Tree<E>))
    requires t.Node?
    ensures r.1.Node? && r.1.left.Nil?
    decreases t
  {
    if t.left.Nil? then (p, t) else Spine(InLeft(p, t.elem, t.bf, t.right), t.left)
  }

  lemma {:induction false} SpineOk<E>(p: Context<E>, t: Tree<E>)
    requires t.Node? && LeftSpine(p)
    ensures var (q, u) := Spine(p, t);
            LeftSpine(q) && Plug(q, u) == Plug(p, t) && u.Node? && u.left.Nil? && (q.Top? ==> p.Top? && t.left.Nil?)
    decreases t
  {
    if t.left.Node? {
      SpineOk(InLeft(p, t.elem, t.bf, t.right), t.left);
    }
  }

  /** What the erasure of a root with two children does whose right child has no left child. */
  function RootPull<E>(l: Tree<E>, n: E, b: int, y: Tree<E>): Tree<E>
    requires l.Node?
  {
    if b < 0 then RebalanceRight(l, n, y) else Node(l, n, b - 1, y)
  }

  /** Where the walk up starts when the element at the top of `t` goes: the hole that became lower,
      and what hangs in it. */
  ghost function Gap<E>(c: Context<E>, t: Tree<E>): (Context<E>, Tree<E>)
    requires t.Node?
  {
    if t.left.Nil? || t.right.Nil? then (c, if t.left.Node? then t.left else t.right)
    else if t.right.left.Nil? then (InRight(c, t.left, t.right.elem, t.bf), t.right.right)
    else
      var (p, u) := Spine(Top, t.right);
      (Graft(p, InRight(c, t.left, u.elem, t.bf)), u.right)
  }

  /** The root goes, and its right child, which has no left child, takes its place. */
  predicate PullsRoot<E>(c: Context<E>, t: Tree<E>) {
    c.Top? && t.Node? && t.left.Node? && t.right.Node? && t.right.left.Nil?
  }

  /** The tree without the element at the top of `t`; nothing, where a child that is not there is read. */
  ghost function Erased<E>(c: Context<E>, t: Tree<E>): Option<Tree<E>>
    requires t.Node?
  {
    if PullsRoot(c, t) then Some(RootPull(t.left, t.right.elem, t.bf, t.right.right))
    else var (d, y) := Gap(c, t); EraseFix(d, y)
  }

  /** The elements around the gap are all but the one that goes. */
  lemma GapOrder<E>(c: Context<E>, t: Tree<E>)
    requires t.Node?
    ensures var (d, y) := Gap(c, t); Before(d) + InOrder(y) + After(d) == Rest(c, t)
  {
    if t.left.Nil? || t.right.Nil? {
      var y := if t.left.Node? then t.left else t.right;
      assert InOrder(t.left) + InOrder(t.right) == InOrder(y);
      hide InOrder, Before, After;
      Associate(Before(c), InOrder(t.left), InOrder(t.right));
    } else if t.right.left.Nil? {
      PullOrder(c, t);
    } else {
      var (p, u) := Spine(Top, t.right);
      SpineOk(Top, t.right);
      SupplantOrder(c, t, p, u);
    }
  }

  lemma Associate<E>(a: seq<E>, b: seq<E>, c: seq<E>)
    ensures a + b + c == a + (b + c)
  {
  }

  lemma PullOrder<E>(c: Context<E>, t: Tree<E>)
    requires t.Node? && t.right.Node? && t.right.left.Nil?
    ensures var d, y := InRight(c, t.left, t.right.elem, t.bf), t.right.right;
            Before(d) + InOrder(y) + After(d) == Rest(c, t)
  {
    var d, y := InRight(c, t.left, t.right.elem, t.bf), t.right.right;
    assert InOrder(t.right) == [t.right.elem] + InOrder(y);
    assert Before(d) == Before(c) + InOrder(t.left) + [t.right.elem] && After(d) == After(c);
  }

  lemma SupplantOrder<E>(c: Context<E>, t: Tree<E>, p: Context<E>, u: Tree<E>)
    requires t.Node? && t.right == Plug(p, u) && LeftSpine(p) && u.Node? && u.left.Nil?
    ensures var d := Graft(p, InRight(c, t.left, u.elem, t.bf));
            Before(d) + InOrder(u.right) + After(d) == Rest(c, t)
  {
    var base := InRight(c, t.left, u.elem, t.bf);
    LeftSpineOrder(p, base);
    PlugInOrder(p, u);
    assert InOrder(u) == [u.elem] + InOrder(u.right);
    assert Before(base) == Before(c) + InOrder(t.left) + [u.elem] && After(base) == After(c);
    hide InOrder, Before, After, Plug, Graft;
    RegroupSpine(Before(c) + InOrder(t.left), u.elem, InOrder(u.right), After(p), After(c));
  }

  lemma RegroupSpine<E>(a: seq<E>, e: E, y: seq<E>, b: seq<E>, z: seq<E>)
    ensures (a + [e]) + y + (b + z) == a + ([] + ([e] + y) + b) + z
  {
  }

  lemma {:induction false} PlugGraft<E>(p: Context<E>, base: Context<E>, t: Tree<E>)
    ensures Plug(Graft(p, base), t) == Plug(base, Plug(p, t))
    decreases p
  {
    if !p.Top? {
      PlugGraft(p.up, base, Wider(p, t));
    }
  }

  /** In a balanced tree, what hangs in the gap is one lower than the context expects. */
  lemma GapShrunk<E>(c: Context<E>, t: Tree<E>)
    requires Balanced(Plug(c, t)) && t.Node?
    ensures var (d, y) := Gap(c, t); Shrunk(d, y, Height(y))
  {
    hide Shrunk, Balanced, Height;
    if t.left.Nil? || t.right.Nil? {
      SpliceShrunk(c, t, if t.left.Node? then t.left else t.right);
    } else if t.right.left.Nil? {
      PullShrunk(c, t);
    } else {
      var (p, u) := Spine(Top, t.right);
      SpineOk(Top, t.right);
      SupplantShrunk(c, t, p, u);
    }
  }

  lemma PullShrunk<E>(c: Context<E>, t: Tree<E>)
    requires Balanced(Plug(c, t)) && t.Node? && t.right.Node? && t.right.left.Nil?
    ensures Shrunk(InRight(c, t.left, t.right.elem, t.bf), t.right.right, Height(t.right.right))
  {
    PlugBalanced(c, t);
    hide Plug;
    NoLeft(t.right);
  }

  lemma SpliceShrunk<E>(c: Context<E>, t: Tree<E>, y: Tree<E>)
    requires Balanced(Plug(c, t)) && t.Node?
    requires (y == t.left && t.right == Nil) || (y == t.right && t.left == Nil)
    ensures Shrunk(c, y, Height(y))
  {
    PlugBalanced(c, t);
    hide Plug, BalancedAround;
    assert Height(t) == Height(y) + 1;
  }

  lemma SupplantShrunk<E>(c: Context<E>, t: Tree<E>, p: Context<E>, u: Tree<E>)
    requires Balanced(Plug(c, t)) && t.Node? && t.right == Plug(p, u) && LeftSpine(p) && u.Node? && u.left.Nil?
    ensures Shrunk(Graft(p, InRight(c, t.left, u.elem, t.bf)), u.right, Height(u.right))
  {
    hide Graft, Balanced, BalancedAround, Height, Plug;
    var base := InRight(c, t.left, t.elem, t.bf);
    PlugRight(c, t);
    PlugGraft(p, base, u);
    PlugBalanced(Graft(p, base), u);
    GraftBalanced(p, c, t.left, t.elem, u.elem, t.bf, Height(u));
    NoLeft(u);
  }

  lemma PlugRight<E>(c: Context<E>, t: Tree<E>)
    requires t.Node?
    ensures Plug(c, t) == Plug(InRight(c, t.left, t.elem, t.bf), t.right)
  {
  }

  lemma NoLeft<E>(u: Tree<E>)
    requires u.Node? && u.left.Nil? && Balanced(u)
    ensures Height(u) == Height(u.right) + 1 && Balanced(u.right)
  {
  }

  /** Balanced or not, what is left holds the other elements in order. */
  lemma ErasedInOrder<E>(c: Context<E>, t: Tree<E>)
    requires t.Node? && Erased(c, t).Some?
    ensures InOrder(Erased(c, t).value) == Rest(c, t)
  {
    hide Gap, EraseFix, Rest;
    if PullsRoot(c, t) {
      RootPullInOrder(t);
    } else {
      var (d, y) := Gap(c, t);
      GapOrder(c, t);
      EraseFixInOrder(d, y);
    }
  }

  /** The erasures that leave a tree unbalanced: of a root that leans left, whose left child leans
      right, and whose right child has no left child. */
  predicate Unrepaired<E(==)>(root: Tree<E>, e: E) {
    && root.Node? && root.elem == e && root.bf < 0 && root.right.Node? && root.right.left.Nil?
    && root.left.Node? && root.left.bf > 0
  }

  /** Out of a balanced tree, every child that is read is there, and the rest is balanced unless the
      erasure is one of those. */
  lemma ErasedBalanced<E>(c: Context<E>, t: Tree<E>)
    requires t.Node? && Balanced(Plug(c, t))
    ensures Erased(c, t).Some?
    ensures Balanced(Erased(c, t).value) <==> !(PullsRoot(c, t) && t.bf < 0 && t.left.bf > 0)
  {
    hide Gap, EraseFix;
    if PullsRoot(c, t) {
      RootPullOk(t);
    } else {
      var (d, y) := Gap(c, t);
      GapShrunk(c, t);
      EraseFixOk(d, y);
    }
  }

  lemma RootPullInOrder<E>(t: Tree<E>)
    requires t.Node? && t.right.Node? && t.right.left.Nil? && t.left.Node?
    ensures InOrder(RootPull(t.left, t.right.elem, t.bf, t.right.right)) == Rest(Top, t)
  {
    RightInOrder(t.left, t.right.elem, t.right.right);
    assert InOrder(t.right) == [t.right.elem] + InOrder(t.right.right);
  }

  lemma RootPullOk<E>(t: Tree<E>)
    requires Balanced(t) && t.Node? && t.right.Node? && t.right.left.Nil? && t.left.Node?
    ensures Balanced(RootPull(t.left, t.right.elem, t.bf, t.right.right)) <==> !(t.bf < 0 && t.left.bf > 0)
  {
    var l, n, y := t.left, t.right.elem, t.right.right;
    assert Height(t.right) == 1 + Height(y);
    if t.bf < 0 && l.bf <= 0 {
      RebalanceRightOk(l, n, y);
    }
  }

  /** Four elements suffice: erasing 3 leaves 1, 2 and 4 in order, with a stored factor of 0 where
      the heights differ by two. */
  lemma RootPullUnbalanced()
    ensures var t := Node(Node(Nil, 1, 1, Node(Nil, 2, 0, Nil)), 3, -1, Node(Nil, 4, 0, Nil));
            var t' := RootPull(t.left, t.right.elem, t.bf, t.right.right);
            && Balanced(t) && Unrepaired(t, 3)
            && InOrder(t') == [1, 2, 4] && t'.bf == 0 && Height(t'.right) == 2 && Height(t'.left) == 0
  {
    var a, d: Tree<int> := Node(Nil, 2, 0, Nil), Node(Nil, 4, 0, Nil);
    assert Height(a) == 1 && Height(d) == 1 && Balanced(a) && Balanced(d);
    var l := Node(Nil, 1, 1, a);
    assert Height(l) == 2 && Balanced(l);
    var i := Node(a, 4, 0, Nil);
    assert InOrder(i) == [2, 4] && Height(i) == 2;
  }

  /** Two erasures later a child is read that is not there: of the balanced tree of 1, 2, 3 and 4,
      after 3 goes 4, and then the walk up from 2 asks for the left child of 1. */
  lemma RootPullReadsMissing()
    ensures var two: Tree<int> := Node(Nil, 2, 0, Nil);
            var four := Node(two, 4, 0, Nil);
            var all := Node(Node(Nil, 1, 1, two), 3, -1, Node(Nil, 4, 0, Nil));
            && Balanced(all)
            && Erased(Top, all) == Some(Plug(InRight(Top, Nil, 1, 0), four))
            && Erased(InRight(Top, Nil, 1, 0), four) == Some(Plug(InRight(Top, Nil, 1, -1), two))
            && Erased(InRight(Top, Nil, 1, -1), two) == None
  {
    RootPullUnbalanced();
    var two: Tree<int> := Node(Nil, 2, 0, Nil);
    var c := InRight(Top, Nil, 1, 0);
    assert Gap(c, Node(two, 4, 0, Nil)) == (c, two);
    assert Gap(InRight(Top, Nil, 1, -1), two) == (InRight(Top, Nil, 1, -1), Nil);
  }
}
