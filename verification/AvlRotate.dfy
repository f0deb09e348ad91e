/** Rotations in memory. */
module AvlRotate {
  import opened AvlShape
  import opened AvlLinks

  /** The pointer to the hole comes to be `p`, and nothing else in the context changes. */
  ghost predicate Redirects<K>(c: Context<Element<K>>, root: Element?<K>, root': Element?<K>,
                               m: Memory<K>, m': Memory<K>, p: Element?<K>) {
    && (match c
        case Top => root' == p
        case InLeft(_, e, _, _) => root' == root && e in m && e in m' && m'[e] == m[e].(left := p)
        case InRight(_, _, e, _) => root' == root && e in m && e in m' && m'[e] == m[e].(right := p))
    && (forall e :: e in ContextElems(c) && e in m && e != Hook(c) ==> e in m' && m'[e] == m[e])
  }

  lemma RedirectOk<K>(c: Context<Element<K>>, root: Element?<K>, root': Element?<K>,
                      m: Memory<K>, m': Memory<K>, p: Element?<K>)
    requires ContextLinked(c, root, m) && ContextDistinct(c) && Redirects(c, root, root', m, m', p)
    ensures ContextLinked(c, root', m') && Hole(c, root', m') == p
  {
    match c
    case Top =>
    case InLeft(up, e, _, r) =>
      LinkedAgree(r, m, m');
      ContextAgree(up, root, m, m');
    case InRight(up, l, e, _) =>
      LinkedAgree(l, m, m');
      ContextAgree(up, root, m, m');
  }

  lemma FactorOk<K>(c: Context<Element<K>>, t: Tree<Element<K>>, root: Element?<K>, m: Memory<K>, factor: int)
    requires Focus(c, t, root, m) && t.Node?
    ensures Focus(c, t.(bf := factor), root, m[t.elem := m[t.elem].(bf := factor)])
  {
    var m' := m[t.elem := m[t.elem].(bf := factor)];
    LinkedAgree(t.left, m, m');
    LinkedAgree(t.right, m, m');
    ContextAgree(c, root, m, m');
  }

  ghost function RotatedLeft<K>(t: Tree<Element<K>>): Tree<Element<K>>
    requires t.Node? && t.right.Node?
  {
    Node(Node(t.left, t.elem, t.bf, t.right.left), t.right.elem, t.right.bf, t.right.right)
  }

  ghost function RotatedRight<K>(t: Tree<Element<K>>): Tree<Element<K>>
    requires t.Node? && t.left.Node?
  {
    Node(t.left.left, t.left.elem, t.left.bf, Node(t.left.right, t.elem, t.bf, t.right))
  }

  lemma RotatedLeftElems<K>(t: Tree<Element<K>>)
    requires t.Node? && t.right.Node? && Distinct(t)
    ensures Elems(RotatedLeft(t)) == Elems(t) && Distinct(RotatedLeft(t))
  {
    var r := t.right;
    assert Elems(r) == Elems(r.left) + {r.elem} + Elems(r.right);
    assert Elems(Node(t.left, t.elem, t.bf, r.left)) == Elems(t.left) + {t.elem} + Elems(r.left);
  }

  lemma RotatedRightElems<K>(t: Tree<Element<K>>)
    requires t.Node? && t.left.Node? && Distinct(t)
    ensures Elems(RotatedRight(t)) == Elems(t) && Distinct(RotatedRight(t))
  {
    var l := t.left;
    assert Elems(l) == Elems(l.left) + {l.elem} + Elems(l.right);
    assert Elems(Node(l.right, t.elem, t.bf, t.right)) == Elems(l.right) + {t.elem} + Elems(t.right);
  }

  /** The links a left rotation changes in the subtree. */
  ghost predicate RotatesLeft<K>(hook: Element?<K>, t: Tree<Element<K>>, m: Memory<K>, m': Memory<K>)
    requires t.Node? && t.right.Node? && t.elem in m && t.right.elem in m
  {
    var e, r, y := t.elem, t.right.elem, t.right.left;
    && e in m' && m'[e] == m[e].(right := Ptr(y), parent := r)
    && r in m' && m'[r] == m[r].(left := e, parent := hook)
    && (y.Node? ==> y.elem in m && y.elem in m' && m'[y.elem] == m[y.elem].(parent := e))
    && (forall x :: x in Elems(t) && x in m && x != e && x != r && x != Ptr(y) ==> x in m' && m'[x] == m[x])
  }

  ghost predicate RotatesRight<K>(hook: Element?<K>, t: Tree<Element<K>>, m: Memory<K>, m': Memory<K>)
    requires t.Node? && t.left.Node? && t.elem in m && t.left.elem in m
  {
    var e, l, y := t.elem, t.left.elem, t.left.right;
    && e in m' && m'[e] == m[e].(left := Ptr(y), parent := l)
    && l in m' && m'[l] == m[l].(right := e, parent := hook)
    && (y.Node? ==> y.elem in m && y.elem in m' && m'[y.elem] == m[y.elem].(parent := e))
    && (forall x :: x in Elems(t) && x in m && x != e && x != l && x != Ptr(y) ==> x in m' && m'[x] == m[x])
  }

  lemma RotateLeftLinked<K>(hook: Element?<K>, t: Tree<Element<K>>, m: Memory<K>, m': Memory<K>)
    requires t.Node? && t.right.Node? && Distinct(t) && Linked(t, m) && t.right.elem in m
    requires RotatesLeft(hook, t, m, m')
    ensures Linked(RotatedLeft(t), m') && Below(RotatedLeft(t), hook, m')
  {
    var r := t.right;
    assert Linked(r, m) && Distinct(r);
    LinkedAgree(t.left, m, m');
    LinkedAgree(r.left, m, m');
    LinkedAgree(r.right, m, m');
    assert Linked(Node(t.left, t.elem, t.bf, r.left), m');
  }

  lemma RotateRightLinked<K>(hook: Element?<K>, t: Tree<Element<K>>, m: Memory<K>, m': Memory<K>)
    requires t.Node? && t.left.Node? && Distinct(t) && Linked(t, m) && t.left.elem in m
    requires RotatesRight(hook, t, m, m')
    ensures Linked(RotatedRight(t), m') && Below(RotatedRight(t), hook, m')
  {
    var l := t.left;
    assert Linked(l, m) && Distinct(l);
    LinkedAgree(t.right, m, m');
    LinkedAgree(l.left, m, m');
    LinkedAgree(l.right, m, m');
    assert Linked(Node(l.right, t.elem, t.bf, t.right), m');
  }

  lemma RotateLeftOk<K>(c: Context<Element<K>>, t: Tree<Element<K>>, root: Element?<K>, root': Element?<K>,
                        m: Memory<K>, m': Memory<K>)
    requires Focus(c, t, root, m) && t.Node? && t.right.Node? && t.right.elem in m
    requires RotatesLeft(Hook(c), t, m, m') && Redirects(c, root, root', m, m', t.right.elem)
    ensures Focus(c, RotatedLeft(t), root', m')
  {
    RotatedLeftElems(t);
    RedirectOk(c, root, root', m, m', t.right.elem);
    RotateLeftLinked(Hook(c), t, m, m');
  }

  lemma RotateRightOk<K>(c: Context<Element<K>>, t: Tree<Element<K>>, root: Element?<K>, root': Element?<K>,
                         m: Memory<K>, m': Memory<K>)
    requires Focus(c, t, root, m) && t.Node? && t.left.Node? && t.left.elem in m
    requires RotatesRight(Hook(c), t, m, m') && Redirects(c, root, root', m, m', t.left.elem)
    ensures Focus(c, RotatedRight(t), root', m')
  {
    RotatedRightElems(t);
    RedirectOk(c, root, root', m, m', t.left.elem);
    RotateRightLinked(Hook(c), t, m, m');
  }

  // ---------------------------------------------------------------------------------------
  // The same as updates of the memory

  /** `node` and the elements a rotation around it reaches are in memory and different. */
  ghost predicate Rotatable<K>(m: Memory<K>, node: Element<K>, child: Element?<K>, inner: Element?<K>) {
    && node in m && child != null && child in m && child != node
    && (inner != null ==> inner in m && inner != node && inner != child)
    && var p := m[node].parent;
       p != null ==> p in m && p != node && p != child && p != inner
  }

  /** The pointer of `p` that leads to `node` comes to lead to `child`. */
  ghost function Redirect<K>(m: Memory<K>, p: Element?<K>, node: Element<K>, child: Element?<K>): Memory<K>
    requires p != null ==> p in m
  {
    if p == null then m
    else if m[p].left == node then m[p := m[p].(left := child)]
    else m[p := m[p].(right := child)]
  }

  ghost function Reparent<K>(m: Memory<K>, x: Element?<K>, p: Element?<K>): Memory<K>
    requires x != null ==> x in m
  {
    if x == null then m else m[x := m[x].(parent := p)]
  }

  ghost function LeftRotation<K>(m: Memory<K>, node: Element<K>): Memory<K>
    requires node in m && m[node].right != null && m[node].right in m
    requires Rotatable(m, node, m[node].right, m[m[node].right].left)
  {
    var right, p := m[node].right, m[node].parent;
    var inner := m[right].left;
    Redirect(Reparent(m, inner, node)[node := m[node].(right := inner, parent := right)]
             [right := m[right].(left := node, parent := p)], p, node, right)
  }

  ghost function RightRotation<K>(m: Memory<K>, node: Element<K>): Memory<K>
    requires node in m && m[node].left != null && m[node].left in m
    requires Rotatable(m, node, m[node].left, m[m[node].left].right)
  {
    var left, p := m[node].left, m[node].parent;
    var inner := m[left].right;
    Redirect(Reparent(m, inner, node)[node := m[node].(left := inner, parent := left)]
             [left := m[left].(right := node, parent := p)], p, node, left)
  }

  /** In a context, the element above the hole is not in the subtree, and its pointer to the hole
      tells which side the hole is on. */
  lemma HookFacts<K>(c: Context<Element<K>>, t: Tree<Element<K>>, root: Element?<K>, m: Memory<K>)
    requires Focus(c, t, root, m) && t.Node?
    ensures t.elem in m && m[t.elem].parent == Hook(c)
    ensures !c.Top? ==> c.elem in m && c.elem !in Elems(t) && (m[c.elem].left == t.elem <==> c.InLeft?)
  {
  }

  lemma LeftRotationOk<K>(c: Context<Element<K>>, t: Tree<Element<K>>, root: Element?<K>, m: Memory<K>)
    requires Focus(c, t, root, m) && t.Node? && t.right.Node?
    ensures t.elem in m && m[t.elem].right == t.right.elem && t.right.elem in m
    ensures Rotatable(m, t.elem, t.right.elem, m[t.right.elem].left)
    ensures Focus(c, RotatedLeft(t), if c.Top? then t.right.elem else root, LeftRotation(m, t.elem))
  {
    HookFacts(c, t, root, m);
    assert Linked(t.right, m) && Distinct(t.right);
    var m' := LeftRotation(m, t.elem);
    RotateLeftOk(c, t, root, if c.Top? then t.right.elem else root, m, m');
  }

  lemma RightRotationOk<K>(c: Context<Element<K>>, t: Tree<Element<K>>, root: Element?<K>, m: Memory<K>)
    requires Focus(c, t, root, m) && t.Node? && t.left.Node?
    ensures t.elem in m && m[t.elem].left == t.left.elem && t.left.elem in m
    ensures Rotatable(m, t.elem, t.left.elem, m[t.left.elem].right)
    ensures Focus(c, RotatedRight(t), if c.Top? then t.left.elem else root, RightRotation(m, t.elem))
  {
    HookFacts(c, t, root, m);
    assert Linked(t.left, m) && Distinct(t.left);
    var m' := RightRotation(m, t.elem);
    RotateRightOk(c, t, root, if c.Top? then t.left.elem else root, m, m');
  }

  /** Hanging a fresh element on an empty hole. */
  lemma AttachOk<K>(c: Context<Element<K>>, root: Element?<K>, root': Element?<K>, m: Memory<K>, m': Memory<K>, e: Element<K>)
    requires Focus(c, Nil, root, m) && e !in ContextElems(c)
    requires Redirects(c, root, root', m, m', e) && e in m' && m'[e] == Links(null, null, Hook(c), 0)
    ensures Focus(c, Node(Nil, e, 0, Nil), root', m')
  {
    RedirectOk(c, root, root', m, m', e);
  }

  /** The pointers and factors of a node and its subtrees, read off memory. */
  lemma NodeFacts<K>(c: Context<Element<K>>, t: Tree<Element<K>>, root: Element?<K>, m: Memory<K>)
    requires Focus(c, t, root, m) && t.Node?
    ensures t.elem in m && m[t.elem].left == Ptr(t.left) && m[t.elem].right == Ptr(t.right) && m[t.elem].bf == t.bf
    ensures t.left.Node? ==>
              t.left.elem in m && m[t.left.elem].bf == t.left.bf && m[t.left.elem].right == Ptr(t.left.right)
    ensures t.right.Node? ==>
              t.right.elem in m && m[t.right.elem].bf == t.right.bf && m[t.right.elem].left == Ptr(t.right.left)
  {
    assert Linked(t.left, m) && Linked(t.right, m);
  }

  lemma ContextFacts<K>(c: Context<Element<K>>, t: Tree<Element<K>>, root: Element?<K>, m: Memory<K>)
    requires Focus(c, t, root, m) && !c.Top?
    ensures c.elem in m && m[c.elem].bf == c.bf
    ensures c.InLeft? ==> m[c.elem].left == Ptr(t) && m[c.elem].right == Ptr(c.right)
    ensures c.InRight? ==> m[c.elem].right == Ptr(t) && m[c.elem].left == Ptr(c.left)
    ensures c.InLeft? && t.Node? ==> m[c.elem].right != t.elem
    ensures c.InRight? && t.Node? ==> m[c.elem].left != t.elem
  {
  }
}
