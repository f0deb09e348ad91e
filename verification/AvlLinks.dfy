/** How an AVL tree lies in memory: the links of its elements, as a value. */
module AvlLinks {
  import opened AvlShape

  /** An element carries its own links; in the kernel the balance factor shares a word with
      `parent`. */
  class Element<K> {
    const key: K
    var left: Element?<K>
    var right: Element?<K>
    var parent: Element?<K>
    var bf: int

    constructor (key: K)
      ensures this.key == key && left == null && right == null && parent == null && bf == 0
    {
      this.key, left, right, parent, bf := key, null, null, null, 0;
    }
  }

  datatype Links<K> = Links(left: Element?<K>, right: Element?<K>, parent: Element?<K>, bf: int)

  /** The links of a set of elements at one moment. */
  type Memory<!K> = map<Element<K>, Links<K>>

  ghost function Elems<K>(t: Tree<Element<K>>): (s: set<Element<K>>)
    ensures t.Node? ==> t.elem in s
  {
    match t
    case Nil => {}
    case Node(l, e, _, r) => Elems(l) + {e} + Elems(r)
  }

  ghost function ContextElems<K>(c: Context<Element<K>>): (s: set<Element<K>>)
    ensures !c.Top? ==> c.elem in s
  {
    match c
    case Top => {}
    case InLeft(up, e, _, r) => ContextElems(up) + {e} + Elems(r)
    case InRight(up, l, e, _) => ContextElems(up) + {e} + Elems(l)
  }

  /** All elements but the root. */
  ghost function Inner<K>(t: Tree<Element<K>>): set<Element<K>> {
    if t.Nil? then {} else Elems(t.left) + Elems(t.right)
  }

  ghost function Ptr<K>(t: Tree<Element<K>>): Element?<K> {
    if t.Nil? then null else t.elem
  }

  /** No element is in the tree twice. */
  ghost predicate Distinct<K>(t: Tree<Element<K>>)
    ensures Distinct(t) && t.Node? ==> t.elem !in Inner(t)
  {
    match t
    case Nil => true
    case Node(l, e, _, r) => e !in Elems(l) + Elems(r) && Elems(l) !! Elems(r) && Distinct(l) && Distinct(r)
  }

  ghost predicate ContextDistinct<K>(c: Context<Element<K>>) {
    match c
    case Top => true
    case InLeft(up, e, _, r) =>
      && e !in ContextElems(up) + Elems(r) && ContextElems(up) !! Elems(r) && ContextDistinct(up) && Distinct(r)
    case InRight(up, l, e, _) =>
      && e !in ContextElems(up) + Elems(l) && ContextElems(up) !! Elems(l) && ContextDistinct(up) && Distinct(l)
  }

  /** The root of `t` points back to `e`. */
  ghost predicate Below<K>(t: Tree<Element<K>>, e: Element?<K>, m: Memory<K>) {
    t.Node? ==> t.elem in m && m[t.elem].parent == e
  }

  /** The links and balance factors in memory are those of the tree. */
  ghost predicate Linked<K>(t: Tree<Element<K>>, m: Memory<K>) {
    match t
    case Nil => true
    case Node(l, e, b, r) =>
      && e in m && m[e].bf == b
      && m[e].left == Ptr(l) && Below(l, e, m) && Linked(l, m)
      && m[e].right == Ptr(r) && Below(r, e, m) && Linked(r, m)
  }

  /** The element the hole hangs below. */
  ghost function Hook<K>(c: Context<Element<K>>): Element?<K> {
    if c.Top? then null else c.elem
  }

  /** The pointer that leads to the hole. */
  ghost function Hole<K>(c: Context<Element<K>>, root: Element?<K>, m: Memory<K>): Element?<K>
    requires !c.Top? ==> c.elem in m
  {
    match c
    case Top => root
    case InLeft(_, e, _, _) => m[e].left
    case InRight(_, _, e, _) => m[e].right
  }

  /** The links and balance factors in memory are those of the context, up to the hole. */
  ghost predicate ContextLinked<K>(c: Context<Element<K>>, root: Element?<K>, m: Memory<K>)
    ensures ContextLinked(c, root, m) && !c.Top? ==> c.elem in m
  {
    match c
    case Top => true
    case InLeft(up, e, b, r) =>
      && e in m && m[e].bf == b && m[e].right == Ptr(r) && Below(r, e, m) && Linked(r, m)
      && ContextLinked(up, root, m) && Hole(up, root, m) == e && m[e].parent == Hook(up)
    case InRight(up, l, e, b) =>
      && e in m && m[e].bf == b && m[e].left == Ptr(l) && Below(l, e, m) && Linked(l, m)
      && ContextLinked(up, root, m) && Hole(up, root, m) == e && m[e].parent == Hook(up)
  }

  /** The tree in memory is context `c` around subtree `t`. */
  ghost predicate Focus<K>(c: Context<Element<K>>, t: Tree<Element<K>>, root: Element?<K>, m: Memory<K>) {
    && Distinct(t) && ContextDistinct(c) && Elems(t) !! ContextElems(c)
    && Linked(t, m) && ContextLinked(c, root, m)
    && Hole(c, root, m) == Ptr(t) && Below(t, Hook(c), m)
  }

  // ---------------------------------------------------------------------------------------
  // Moving the focus

  lemma FocusLeft<K>(c: Context<Element<K>>, t: Tree<Element<K>>, root: Element?<K>, m: Memory<K>)
    requires t.Node? && Focus(c, t, root, m)
    ensures Focus(InLeft(c, t.elem, t.bf, t.right), t.left, root, m)
  {
  }

  lemma FocusRight<K>(c: Context<Element<K>>, t: Tree<Element<K>>, root: Element?<K>, m: Memory<K>)
    requires t.Node? && Focus(c, t, root, m)
    ensures Focus(InRight(c, t.left, t.elem, t.bf), t.right, root, m)
  {
  }

  /** The subtree one level up. */
  function Wider<E>(c: Context<E>, t: Tree<E>): Tree<E>
    requires !c.Top?
  {
    if c.InLeft? then Node(t, c.elem, c.bf, c.right) else Node(c.left, c.elem, c.bf, t)
  }

  lemma FocusUp<K>(c: Context<Element<K>>, t: Tree<Element<K>>, root: Element?<K>, m: Memory<K>)
    requires Focus(c, t, root, m) && !c.Top?
    ensures Focus(c.up, Wider(c, t), root, m)
  {
  }

  /** The tree as a whole. */
  lemma {:induction false} FocusWhole<K>(c: Context<Element<K>>, t: Tree<Element<K>>, root: Element?<K>, m: Memory<K>)
    requires Focus(c, t, root, m)
    ensures Focus(Top, Plug(c, t), root, m) && Elems(Plug(c, t)) == Elems(t) + ContextElems(c)
    decreases c
  {
    if !c.Top? {
      FocusUp(c, t, root, m);
      FocusWhole(c.up, Wider(c, t), root, m);
    }
  }

  // ---------------------------------------------------------------------------------------
  // What a change in memory leaves alone

  lemma {:induction false} LinkedAgree<K>(t: Tree<Element<K>>, m: Memory<K>, m': Memory<K>)
    requires Linked(t, m)
    requires forall e :: e in Elems(t) && e in m ==> e in m' && m'[e].(parent := null) == m[e].(parent := null)
    requires forall e :: e in Inner(t) && e in m ==> e in m' && m'[e] == m[e]
    ensures Linked(t, m')
  {
    match t
    case Nil =>
    case Node(l, _, _, r) =>
      LinkedAgree(l, m, m');
      LinkedAgree(r, m, m');
  }

  lemma {:induction false} ContextAgree<K>(c: Context<Element<K>>, root: Element?<K>, m: Memory<K>, m': Memory<K>)
    requires ContextLinked(c, root, m)
    requires forall e :: e in ContextElems(c) && e in m ==> e in m' && m'[e] == m[e]
    ensures ContextLinked(c, root, m')
  {
    match c
    case Top =>
    case InLeft(up, _, _, r) =>
      LinkedAgree(r, m, m');
      ContextAgree(up, root, m, m');
    case InRight(up, l, _, _) =>
      LinkedAgree(l, m, m');
      ContextAgree(up, root, m, m');
  }
}
