/** The intrusive, parent-linked AVL tree. */
module AvlTree {
  import opened Basics
  import opened AvlShape
  import opened AvlLinks
  import opened AvlRotate
  import opened AvlOrder
  import opened AvlErase

  class AvlTree<K(!new)> {
    const less: (K, K) -> bool
    var root: Element?<K>
    var size: nat

    ghost var Repr: set<Element<K>>
    ghost var tree: Tree<Element<K>>

    /** The elements, in order. */
    ghost function Contents(): seq<Element<K>>
      reads this
    {
      InOrder(tree)
    }

    /** Pointers, order and size are in step. */
    ghost predicate Arranged()
      reads this, Repr
    {
      At(Top, tree) && Elems(tree) == Repr && Sorted(less, Contents()) && size == |Contents()|
    }

    /** Searches find their way; balance is a separate matter. */
    ghost predicate Ordered()
      reads this, Repr
    {
      Arranged() && Bridged(less, Repr)
    }

    ghost predicate Valid()
      reads this, Repr
    {
      Ordered() && Balanced(tree)
    }

    constructor (less: (K, K) -> bool)
      ensures Valid() && this.less == less && Contents() == [] && Repr == {}
    {
      this.less, root, size, Repr, tree := less, null, 0, {}, Nil;
    }

    /** Of two elements one comes before the other. */
    lemma Compared(a: Element<K>, b: Element<K>)
      requires Arranged() && a in Repr && b in Repr && a != b
      ensures less(a.key, b.key) || less(b.key, a.key)
    {
      hide At;
      ElemsInOrder(tree, a);
      ElemsInOrder(tree, b);
      var s := Contents();
      var i, j :| 0 <= i < |s| && 0 <= j < |s| && s[i] == a && s[j] == b;
      assert if i < j then less(s[i].key, s[j].key) else less(s[j].key, s[i].key);
    }

    /** The links in memory. */
    ghost function Links(): Memory<K>
      reads this`Repr, Repr
    {
      map e | e in Repr :: AvlLinks.Links(e.left, e.right, e.parent, e.bf)
    }

    /** The tree in memory is context `c` around subtree `t`. */
    ghost predicate At(c: Context<Element<K>>, t: Tree<Element<K>>)
      reads this`root, this`Repr, Repr
    {
      Focus(c, t, root, Links())
    }

    lemma AtLeft(c: Context<Element<K>>, t: Tree<Element<K>>)
      requires t.Node? && At(c, t)
      ensures At(InLeft(c, t.elem, t.bf, t.right), t.left)
    {
      FocusLeft(c, t, root, Links());
    }

    lemma AtRight(c: Context<Element<K>>, t: Tree<Element<K>>)
      requires t.Node? && At(c, t)
      ensures At(InRight(c, t.left, t.elem, t.bf), t.right)
    {
      FocusRight(c, t, root, Links());
    }

    lemma AtUp(c: Context<Element<K>>, t: Tree<Element<K>>)
      requires !c.Top? && At(c, t)
      ensures At(c.up, Wider(c, t))
    {
      FocusUp(c, t, root, Links());
    }

    lemma GrandchildFacts(c: Context<Element<K>>, t: Tree<Element<K>>)
      requires At(c, t) && t.Node?
      ensures t.left.Node? && t.left.right.Node? ==>
                t.elem in Repr && t.elem.left == t.left.elem && t.left.elem in Repr && t.left.elem.right == t.left.right.elem
                && t.left.right.elem in Repr && t.left.right.elem.bf == t.left.right.bf
      ensures t.right.Node? && t.right.left.Node? ==>
                t.elem in Repr && t.elem.right == t.right.elem && t.right.elem in Repr && t.right.elem.left == t.right.left.elem
                && t.right.left.elem in Repr && t.right.left.elem.bf == t.right.left.bf
    {
      var m := Links();
      NodeFacts(c, t, root, m);
      if t.left.Node? {
        assert Linked(t.left, m);
        assert Linked(t.left.right, m);
      }
      if t.right.Node? {
        assert Linked(t.right, m);
        assert Linked(t.right.left, m);
      }
    }

    method SetFactor(e: Element<K>, factor: int, ghost c: Context<Element<K>>, ghost t: Tree<Element<K>>)
      requires At(c, t) && t.Node? && t.elem == e
      modifies Repr
      ensures Repr == old(Repr)
      ensures At(c, t.(bf := factor))
    {
      FactorOk(c, t, root, Links(), factor);
      WriteFactor(e, factor);
    }

    method WriteFactor(e: Element<K>, factor: int)
      requires e in Repr
      modifies Repr
      ensures Repr == old(Repr)
      ensures Links() == old(Links())[e := old(Links())[e].(bf := factor)]
    {
      e.bf := factor;
    }

    /** The pointer of `parent`, or the root, that leads to `node` comes to lead to `child`. */
    method RedirectLink(parent: Element?<K>, node: Element<K>, child: Element?<K>)
      requires parent != null ==> parent in Repr
      modifies this`root, Repr
      ensures Repr == old(Repr)
      ensures Links() == Redirect(old(Links()), parent, node, child)
      ensures root == if parent == null then child else old(root)
    {
      if parent != null {
        if parent.left == node {
          parent.left := child;
        } else {
          parent.right := child;
        }
      } else {
        root := child;
      }
    }

    /** A left rotation, as the links it leaves. */
    method RotateLeftLinks(node: Element<K>) returns (right: Element<K>)
      requires node in Repr && node.right != null && node.right in Repr
      requires Rotatable(Links(), node, node.right, node.right.left)
      modifies this`root, Repr
      ensures Repr == old(Repr)
      ensures right == old(node.right)
      ensures Links() == LeftRotation(old(Links()), node)
      ensures root == if old(node.parent) == null then right else old(root)
    {
      ghost var m := Links();
      var parent := node.parent;
      right := node.right;
      var rightLeft := right.left;
      node.right := rightLeft;
      if rightLeft != null {
        rightLeft.parent := node;
      }
      node.parent := right;
      right.left := node;
      right.parent := parent;
      assert Links() == Reparent(m, rightLeft, node)[node := m[node].(right := rightLeft, parent := right)]
                        [right := m[right].(left := node, parent := parent)];
      RedirectLink(parent, node, right);
    }

    method RotateRightLinks(node: Element<K>) returns (left: Element<K>)
      requires node in Repr && node.left != null && node.left in Repr
      requires Rotatable(Links(), node, node.left, node.left.right)
      modifies this`root, Repr
      ensures Repr == old(Repr)
      ensures left == old(node.left)
      ensures Links() == RightRotation(old(Links()), node)
      ensures root == if old(node.parent) == null then left else old(root)
    {
      ghost var m := Links();
      var parent := node.parent;
      left := node.left;
      var leftRight := left.right;
      node.left := leftRight;
      if leftRight != null {
        leftRight.parent := node;
      }
      node.parent := left;
      left.right := node;
      left.parent := parent;
      assert Links() == Reparent(m, leftRight, node)[node := m[node].(left := leftRight, parent := left)]
                        [left := m[left].(right := node, parent := parent)];
      RedirectLink(parent, node, left);
    }

    method RotateLeft(node: Element<K>, ghost c: Context<Element<K>>, ghost t: Tree<Element<K>>)
      returns (right: Element<K>)
      requires At(c, t) && t.Node? && t.elem == node && t.right.Node?
      modifies this`root, Repr
      ensures Repr == old(Repr)
      ensures right == t.right.elem && At(c, RotatedLeft(t))
    {
      LeftRotationOk(c, t, root, Links());
      RotatedLeftElems(t);
      right := RotateLeftLinks(node);
    }

    method RotateRight(node: Element<K>, ghost c: Context<Element<K>>, ghost t: Tree<Element<K>>)
      returns (left: Element<K>)
      requires At(c, t) && t.Node? && t.elem == node && t.left.Node?
      modifies this`root, Repr
      ensures Repr == old(Repr)
      ensures left == t.left.elem && At(c, RotatedRight(t))
    {
      RightRotationOk(c, t, root, Links());
      RotatedRightElems(t);
      left := RotateRightLinks(node);
    }

    /** Sets the factors of `node` and its right child. */
    method SetRightFactors(node: Element<K>, nodeFactor: int, rightFactor: int,
                           ghost c: Context<Element<K>>, ghost t: Tree<Element<K>>)
      requires At(c, t) && t.Node? && t.elem == node && t.right.Node?
      modifies Repr
      ensures Repr == old(Repr)
      ensures At(c, Node(t.left, t.elem, nodeFactor, t.right.(bf := rightFactor)))
    {
      SetFactor(node, nodeFactor, c, t);
      ghost var u := t.(bf := nodeFactor);
      AtRight(c, u);
      SetFactor(node.right, rightFactor, InRight(c, u.left, u.elem, u.bf), u.right);
      AtUp(InRight(c, u.left, u.elem, u.bf), u.right.(bf := rightFactor));
    }

    method SetLeftFactors(node: Element<K>, nodeFactor: int, leftFactor: int,
                          ghost c: Context<Element<K>>, ghost t: Tree<Element<K>>)
      requires At(c, t) && t.Node? && t.elem == node && t.left.Node?
      modifies Repr
      ensures Repr == old(Repr)
      ensures At(c, Node(t.left.(bf := leftFactor), t.elem, nodeFactor, t.right))
    {
      SetFactor(node, nodeFactor, c, t);
      ghost var u := t.(bf := nodeFactor);
      AtLeft(c, u);
      SetFactor(node.left, leftFactor, InLeft(c, u.elem, u.bf, u.right), u.left);
      AtUp(InLeft(c, u.elem, u.bf, u.right), u.left.(bf := leftFactor));
    }

    method RebalanceLeft(node: Element<K>, ghost c: Context<Element<K>>, ghost t: Tree<Element<K>>)
      returns (top: Element<K>)
      requires At(c, t) && t.Node? && t.elem == node && t.right.Node?
      modifies this`root, Repr
      ensures Repr == old(Repr)
      ensures var u := AvlShape.RebalanceLeft(t.left, t.elem, t.right); At(c, u) && top == u.elem
    {
      assert Linked(t.right, Links());
      if node.right.bf == 0 {
        SetRightFactors(node, 1, -1, c, t);
        top := RotateLeft(node, c, Node(t.left, t.elem, 1, t.right.(bf := -1)));
      } else {
        SetRightFactors(node, 0, 0, c, t);
        top := RotateLeft(node, c, Node(t.left, t.elem, 0, t.right.(bf := 0)));
      }
    }

    method RebalanceRight(node: Element<K>, ghost c: Context<Element<K>>, ghost t: Tree<Element<K>>)
      returns (top: Element<K>)
      requires At(c, t) && t.Node? && t.elem == node && t.left.Node?
      modifies this`root, Repr
      ensures Repr == old(Repr)
      ensures var u := AvlShape.RebalanceRight(t.left, t.elem, t.right); At(c, u) && top == u.elem
    {
      assert Linked(t.left, Links());
      if node.left.bf == 0 {
        SetLeftFactors(node, -1, 1, c, t);
        top := RotateRight(node, c, Node(t.left.(bf := 1), t.elem, -1, t.right));
      } else {
        SetLeftFactors(node, 0, 0, c, t);
        top := RotateRight(node, c, Node(t.left.(bf := 0), t.elem, 0, t.right));
      }
    }

    method RebalanceLeftRight(node: Element<K>, ghost c: Context<Element<K>>, ghost t: Tree<Element<K>>)
      returns (top: Element<K>)
      requires At(c, t) && t.Node? && t.elem == node && t.left.Node? && t.left.right.Node?
      modifies this`root, Repr
      ensures Repr == old(Repr)
      ensures var u := AvlShape.RebalanceLeftRight(t.left, t.elem, t.right); At(c, u) && top == u.elem
    {
      hide At;
      GrandchildFacts(c, t);
      var bf := node.left.right.bf;
      var nodeFactor, leftFactor := if bf < 0 then 1 else 0, if bf > 0 then -1 else 0;
      SetLeftFactors(node, nodeFactor, leftFactor, c, t);
      ghost var u := Node(t.left.(bf := leftFactor), t.elem, nodeFactor, t.right);
      ghost var d := InLeft(c, u.elem, u.bf, u.right);
      AtLeft(c, u);
      AtNode(c, u);
      var _ := RotateLeft(node.left, d, u.left);
      AtUp(d, RotatedLeft(u.left));
      ghost var v := Node(RotatedLeft(u.left), u.elem, u.bf, u.right);
      top := RotateRight(node, c, v);
      SetFactor(top, 0, c, RotatedRight(v));
    }

    method RebalanceRightLeft(node: Element<K>, ghost c: Context<Element<K>>, ghost t: Tree<Element<K>>)
      returns (top: Element<K>)
      requires At(c, t) && t.Node? && t.elem == node && t.right.Node? && t.right.left.Node?
      modifies this`root, Repr
      ensures Repr == old(Repr)
      ensures var u := AvlShape.RebalanceRightLeft(t.left, t.elem, t.right); At(c, u) && top == u.elem
    {
      hide At;
      GrandchildFacts(c, t);
      var bf := node.right.left.bf;
      var nodeFactor, rightFactor := if bf > 0 then -1 else 0, if bf < 0 then 1 else 0;
      SetRightFactors(node, nodeFactor, rightFactor, c, t);
      ghost var u := Node(t.left, t.elem, nodeFactor, t.right.(bf := rightFactor));
      ghost var d := InRight(c, u.left, u.elem, u.bf);
      AtRight(c, u);
      AtNode(c, u);
      var _ := RotateRight(node.right, d, u.right);
      AtUp(d, RotatedRight(u.right));
      ghost var v := Node(u.left, u.elem, u.bf, RotatedRight(u.right));
      top := RotateLeft(node, c, v);
      SetFactor(top, 0, c, RotatedLeft(v));
    }

    /** One step up after the subtree of `current` became one higher; not `ok`, where the rebalancing
        would read a child that is not there. */
    method InsertStep(current: Element<K>, parent: Element<K>, ghost c: Context<Element<K>>, ghost t: Tree<Element<K>>)
      returns (next: Element<K>, done: bool, ok: bool)
      requires At(c, t) && t.Node? && t.elem == current && parent == Hook(c) && !c.Top?
      modifies this`root, Repr
      ensures Repr == old(Repr) && ok == GrowReady(c, t)
      ensures ok ==> var f := Grow(c, t); At(c.up, f.tree) && next == f.tree.elem && done == f.done
    {
      ContextFacts(c, t, root, Links());
      ghost var u := Wider(c, t);
      AtNode(c, t);
      AtUp(c, t);
      hide At;
      if parent.right == current {
        if parent.bf > 0 {
          if current.bf < 0 {
            if current.left == null {
              return current, true, false;
            }
            next := RebalanceRightLeft(parent, c.up, u);
          } else {
            next := RebalanceLeft(parent, c.up, u);
          }
          return next, true, true;
        } else if parent.bf < 0 {
          SetFactor(parent, 0, c.up, u);
          return parent, true, true;
        }
        SetFactor(parent, 1, c.up, u);
        return parent, false, true;
      } else {
        if parent.bf < 0 {
          if current.bf > 0 {
            if current.right == null {
              return current, true, false;
            }
            next := RebalanceLeftRight(parent, c.up, u);
          } else {
            next := RebalanceRight(parent, c.up, u);
          }
          return next, true, true;
        } else if parent.bf > 0 {
          SetFactor(parent, 0, c.up, u);
          return parent, true, true;
        }
        SetFactor(parent, -1, c.up, u);
        return parent, false, true;
      }
    }

    /** One iteration of the walk up after an insertion. */
    method InsertClimb(current: Element<K>, parent: Element<K>, ghost c: Context<Element<K>>, ghost t: Tree<Element<K>>)
      returns (next: Element<K>, above: Element?<K>, done: bool, ok: bool, ghost u: Tree<Element<K>>)
      requires At(c, t) && t.Node? && t.elem == current && parent == Hook(c) && !c.Top?
      modifies this`root, Repr
      ensures Repr == old(Repr)
      ensures done ==> ok == InsertFix(c, t).Some? && (ok ==> At(Top, InsertFix(c, t).value))
      ensures !done ==>
                && At(c.up, u) && u.Node? && next == u.elem && above == Hook(c.up)
                && InsertFix(c.up, u) == InsertFix(c, t)
    {
      hide At, GrowReady, Grow;
      next, done, ok := InsertStep(current, parent, c, t);
      if !ok {
        return current, null, true, false, Nil;
      }
      u := Grow(c, t).tree;
      AtWhole(c.up, u);
      above := ParentOf(next, c.up, u);
    }

    /** The walk up after an insertion. */
    method InsertRebalance(element: Element<K>, ghost c: Context<Element<K>>, ghost t: Tree<Element<K>>) returns (ok: bool)
      requires At(c, t) && t.Node? && t.elem == element
      modifies this`root, Repr
      ensures Repr == old(Repr)
      ensures ok == InsertFix(c, t).Some? && (ok ==> At(Top, InsertFix(c, t).value))
    {
      hide At;
      var current := element;
      ghost var d, u, goal := c, t, InsertFix(c, t);
      var parent := ParentOf(current, d, u);
      while parent != null
        invariant Repr == old(Repr)
        invariant At(d, u) && u.Node? && u.elem == current && parent == Hook(d)
        invariant InsertFix(d, u) == goal
        decreases d
      {
        var next, above, done, found, v := InsertClimb(current, parent, d, u);
        if done {
          return found;
        }
        current, parent, d, u := next, above, d.up, v;
      }
      ok := true;
    }

    method ParentOf(e: Element<K>, ghost c: Context<Element<K>>, ghost t: Tree<Element<K>>) returns (parent: Element?<K>)
      requires At(c, t) && t.Node? && t.elem == e
      ensures parent == Hook(c)
    {
      parent := e.parent;
    }

    lemma AtRoot(key: K)
      requires Ordered()
      ensures root == Ptr(tree) && Narrowed(less, Top, tree, key)
    {
    }

    /** What the pointers of a node say. */
    lemma AtNode(c: Context<Element<K>>, t: Tree<Element<K>>)
      requires At(c, t) && t.Node?
      ensures t.elem in Repr && t.elem.bf == t.bf && t.elem.parent == Hook(c)
      ensures t.elem.left == Ptr(t.left) && t.elem.right == Ptr(t.right)
    {
    }

    lemma AtWhole(c: Context<Element<K>>, t: Tree<Element<K>>)
      requires At(c, t)
      ensures At(Top, Plug(c, t))
    {
      FocusWhole(c, t, root, Links());
    }

    /** Hangs a fresh element on the hole of `c`, below `parent`. */
    method Attach(element: Element<K>, parent: Element?<K>, toLeft: bool, ghost c: Context<Element<K>>)
      requires At(c, Nil) && ContextElems(c) <= Repr && parent == Hook(c) && (parent != null ==> toLeft == c.InLeft?)
      requires element !in Repr && element.left == null && element.right == null && element.parent == null && element.bf == 0
      modifies this`root, this`Repr, parent, element
      ensures Repr == old(Repr) + {element} && At(c, Node(Nil, element, 0, Nil))
    {
      ghost var m, root' := Links(), root;
      if parent == null {
        root := element;
      } else {
        if toLeft {
          parent.left := element;
        } else {
          parent.right := element;
        }
        element.parent := parent;
      }
      Repr := Repr + {element};
      AttachOk(c, root', root, m, Links(), element);
    }

    /** The way down to where `key` belongs: to an element that matches it, or to an empty place. */
    method Descend(key: K) returns (found: Element?<K>, parent: Element?<K>, toLeft: bool, ghost c: Context<Element<K>>)
      requires Ordered()
      ensures found != null ==> found in Repr && Matches(less, key, found.key)
      ensures found == null ==>
                && At(c, Nil) && ContextElems(c) == Repr && Plug(c, Nil) == tree && Narrowed(less, c, Nil, key)
                && parent == Hook(c) && (parent != null ==> toLeft == c.InLeft?)
    {
      AtRoot(key);
      hide At, Narrowed, Bridges;
      parent, toLeft, c := null, true, Top;
      var current := root;
      ghost var t := tree;
      while current != null
        invariant At(c, t) && current == Ptr(t) && parent == Hook(c) && (parent != null ==> toLeft == c.InLeft?)
        invariant Elems(t) + ContextElems(c) == Repr && Plug(c, t) == tree && Narrowed(less, c, t, key)
        decreases t
      {
        AtNode(c, t);
        if less(key, current.key) {
          AtLeft(c, t);
          GoLeft(less, c, t, key);
          parent, toLeft, current := current, true, current.left;
          c, t := InLeft(c, t.elem, t.bf, t.right), t.left;
        } else if less(current.key, key) {
          AtRight(c, t);
          GoRight(less, c, t, key);
          parent, toLeft, current := current, false, current.right;
          c, t := InRight(c, t.left, t.elem, t.bf), t.right;
        } else {
          found := current;
          return;
        }
      }
      found := null;
    }

    /** Adds an element, unless one that matches it is there. Not `ok`, where the rebalancing reads a
        child that is not there: never in a balanced tree. */
    method Insert(element: Element<K>) returns (at: Element<K>, inserted: bool, ok: bool, ghost c: Context<Element<K>>)
      requires Ordered() && element !in Repr
      requires element.left == null && element.right == null && element.parent == null && element.bf == 0
      modifies this, Repr, element
      ensures ok ==> Arranged() && (!inserted || Bridges(less, element.key) ==> Ordered())
      ensures old(Valid()) ==> ok && Balanced(tree)
      ensures inserted <==> forall e :: e in old(Repr) ==> !Matches(less, element.key, e.key)
      ensures inserted ==>
                && at == element && Repr == old(Repr) + {element} && Plug(c, Nil) == old(tree)
                && ok == InsertFix(c, Node(Nil, element, 0, Nil)).Some?
                && (ok ==> Some(tree) == InsertFix(c, Node(Nil, element, 0, Nil)) && Spliced(old(Contents()), element, Contents()))
      ensures !inserted ==>
                && ok && Matches(less, element.key, at.key) && at in Repr && Repr == old(Repr)
                && tree == old(tree) && Links() == old(Links())
    {
      hide At, Narrowed, InsertFix, Matches, Balanced, Spliced, Sorted, Plug, Elems;
      var found, parent, toLeft;
      found, parent, toLeft, c := Descend(element.key);
      if found != null {
        return found, false, true, c;
      }
      ghost var n := Node(Nil, element, 0, Nil);
      NoneMatches(less, c, element.key);
      Inserted(less, c, element);
      Attach(element, parent, toLeft, c);
      ok := InsertRebalance(element, c, n);
      if ok {
        SplicedElems(tree, element, InsertFix(c, n).value);
        tree := InsertFix(c, n).value;
      }
      size := size + 1;
      return element, true, ok, c;
    }

    /** The element that matches `key`, if there is one; no more comparisons than the tree is high. */
    method Find(key: K) returns (found: Element?<K>, ghost steps: nat)
      requires Ordered()
      ensures found != null ==> found in Repr && Matches(less, key, found.key)
      ensures found == null <==> forall e :: e in Repr ==> !Matches(less, key, e.key)
      ensures steps == LooksAt(less, tree, key) <= Height(tree)
    {
      LooksAtBound(less, tree, key);
      AtRoot(key);
      hide At, Narrowed, Bridges;
      var current := root;
      ghost var c, t := Top, tree;
      steps := 0;
      while current != null
        invariant At(c, t) && current == Ptr(t) && Elems(t) + ContextElems(c) == Repr && Narrowed(less, c, t, key)
        invariant steps + LooksAt(less, t, key) == LooksAt(less, tree, key)
        decreases t
      {
        AtNode(c, t);
        steps := steps + 1;
        var isLess, isGreater := less(key, current.key), less(current.key, key);
        if !isLess && !isGreater {
          return current, steps;
        }
        if isLess {
          AtLeft(c, t);
          GoLeft(less, c, t, key);
          current := current.left;
          c, t := InLeft(c, t.elem, t.bf, t.right), t.left;
        } else {
          AtRight(c, t);
          GoRight(less, c, t, key);
          current := current.right;
          c, t := InRight(c, t.left, t.elem, t.bf), t.right;
        }
      }
      NoneMatches(less, c, key);
      return null, steps;
    }

    // -------------------------------------------------------------------------------------
    // Walking in order

    lemma Locate(e: Element<K>) returns (c: Context<Element<K>>, t: Tree<Element<K>>)
      requires Ordered() && e in Repr
      ensures At(c, t) && Plug(c, t) == tree && t.Node? && t.elem == e
    {
      c, t := LocateIn(Top, tree, e, root, Links());
    }

    /** Down the left of the subtree at `e`. */
    method First(e: Element<K>, ghost c: Context<Element<K>>, ghost t: Tree<Element<K>>)
      returns (first: Element<K>, ghost p: Context<Element<K>>, ghost u: Tree<Element<K>>)
      requires At(c, t) && t.Node? && t.elem == e
      ensures LeftSpine(p) && Plug(p, u) == t && u.Node? && u.left.Nil? && first == u.elem
      ensures (p, u) == Spine(Top, t) && (t.left.Node? ==> !p.Top?)
    {
      hide At;
      first, p, u := e, Top, t;
      AtNode(c, u);
      while first.left != null
        invariant At(Graft(p, c), u) && u.Node? && first == u.elem && first.left == Ptr(u.left)
        invariant LeftSpine(p) && Plug(p, u) == t && (p.Top? ==> u == t) && Spine(p, u) == Spine(Top, t)
        decreases u
      {
        AtLeft(Graft(p, c), u);
        first := first.left;
        p, u := InLeft(p, u.elem, u.bf, u.right), u.left;
        AtNode(Graft(p, c), u);
      }
    }

    lemma FirstInOrder(t: Tree<Element<K>>, p: Context<Element<K>>, u: Tree<Element<K>>, rest: seq<Element<K>>)
      requires LeftSpine(p) && Plug(p, u) == t && u.Node? && u.left.Nil?
      ensures FirstOf(InOrder(t) + rest) == u.elem
    {
      PlugInOrder(p, u);
      LeftSpineOrder(p, Top);
    }

    /** The first element, or null. */
    method Begin() returns (first: Element?<K>)
      requires Ordered()
      ensures first == FirstOf(Contents())
    {
      if root == null {
        return null;
      }
      ghost var p, u;
      first, p, u := First(root, Top, tree);
      FirstInOrder(tree, p, u, []);
      assert InOrder(tree) + [] == InOrder(tree);
    }

    /** The element after `e`, or null. */
    method Next(e: Element<K>) returns (next: Element?<K>)
      requires Ordered() && e in Repr
      ensures Follows(Contents(), e, next)
    {
      ghost var c, t := Locate(e);
      AtNode(c, t);
      FollowsHere(c, t);
      if e.right != null {
        AtRight(c, t);
        ghost var p, u;
        next, p, u := First(e.right, InRight(c, t.left, t.elem, t.bf), t.right);
        FirstInOrder(t.right, p, u, After(c));
        return;
      }
      next := Ascend(e, c, t);
    }

    /** Up to the first element that `e` is to the left of. */
    method Ascend(e: Element<K>, ghost c: Context<Element<K>>, ghost t: Tree<Element<K>>) returns (next: Element?<K>)
      requires At(c, t) && t.Node? && t.elem == e
      ensures next == FirstOf(After(c))
    {
      hide At;
      var current: Element?<K> := e;
      ghost var d, u := c, t;
      while current != null
        invariant current != null ==> At(d, u) && u.Node? && u.elem == current && After(d) == After(c)
        invariant current == null ==> After(c) == []
        decreases if current == null then 0 else 1, d
      {
        AtNode(d, u);
        var parent := current.parent;
        if parent != null {
          AtBelow(d, u);
          if parent.left == current {
            return parent;
          }
          AtUp(d, u);
          d, u := d.up, Wider(d, u);
        }
        current := parent;
      }
      return null;
    }

    /** Which side of its parent a subtree is on. */
    lemma AtBelow(c: Context<Element<K>>, t: Tree<Element<K>>)
      requires At(c, t) && !c.Top?
      ensures c.elem in Repr && c.elem.bf == c.bf
      ensures t.Node? ==> (c.elem.left == t.elem <==> c.InLeft?) && (c.elem.right == t.elem <==> c.InRight?)
    {
      ContextFacts(c, t, root, Links());
    }

    /** After a turn to the right into an empty place: the parent, if this is a left child. */
    method BoundAbove(current: Element<K>, ghost c: Context<Element<K>>, ghost t: Tree<Element<K>>)
      returns (bound: Element?<K>)
      requires At(c, t) && t.Node? && t.elem == current
      ensures bound == if Overlooks(InRight(c, t.left, t.elem, t.bf)) then null else FirstOf(After(c))
    {
      hide At;
      AtNode(c, t);
      if current.parent == null {
        return null;
      }
      AtBelow(c, t);
      if current.parent.right == current {
        return null;
      }
      return current.parent;
    }

    /** A search for `key` has come down to subtree `t`. */
    ghost predicate Reached(c: Context<Element<K>>, t: Tree<Element<K>>, key: K)
      reads this, Repr
    {
      At(c, t) && Elems(t) + ContextElems(c) == Repr && Plug(c, t) == tree && Narrowed(less, c, t, key)
    }

    lemma ReachedRoot(key: K)
      requires Ordered()
      ensures Reached(Top, tree, key) && root == Ptr(tree)
    {
      AtRoot(key);
    }

    lemma ReachedLeft(c: Context<Element<K>>, t: Tree<Element<K>>, key: K)
      requires Bridged(less, Repr) && Reached(c, t, key) && t.Node? && less(key, t.elem.key)
      ensures var d := InLeft(c, t.elem, t.bf, t.right);
              Reached(d, t.left, key) && !Overlooks(d) && FirstOf(After(d)) == t.elem
    {
      AtLeft(c, t);
      GoLeft(less, c, t, key);
    }

    lemma ReachedRight(c: Context<Element<K>>, t: Tree<Element<K>>, key: K)
      requires Bridged(less, Repr) && Reached(c, t, key) && t.Node? && less(t.elem.key, key)
      ensures var d := InRight(c, t.left, t.elem, t.bf); Reached(d, t.right, key) && After(d) == After(c)
    {
      AtRight(c, t);
      GoRight(less, c, t, key);
    }

    lemma ReachedEnd(c: Context<Element<K>>, key: K)
      requires Reached(c, Nil, key)
      ensures forall e :: e in Repr ==> !Matches(less, key, e.key)
      ensures Plug(c, Nil) == tree && Narrowed(less, c, Nil, key) && Bounds(less, Contents(), key, FirstOf(After(c)))
    {
      NoneMatches(less, c, key);
      BoundHere(less, c, key);
    }

    lemma ReachedNode(c: Context<Element<K>>, t: Tree<Element<K>>, key: K)
      requires Reached(c, t, key) && t.Node?
      ensures At(c, t) && t.elem in Repr && t.elem.left == Ptr(t.left) && t.elem.right == Ptr(t.right)
    {
    }

    /** An element that matches `key`, or else the first that comes after it, except where the search
        overlooks that one. */
    method LowerBound(key: K) returns (bound: Element?<K>, ghost c: Context<Element<K>>)
      requires Ordered()
      ensures (exists e :: e in Repr && Matches(less, key, e.key)) ==>
                bound != null && bound in Repr && Matches(less, key, bound.key)
      ensures (forall e :: e in Repr ==> !Matches(less, key, e.key)) ==>
                && Plug(c, Nil) == tree && Narrowed(less, c, Nil, key)
                && Bounds(less, Contents(), key, FirstOf(After(c)))
                && bound == if Overlooks(c) then null else FirstOf(After(c))
    {
      hide At, Narrowed, Bounds, Matches, InOrder, Sorted, Bridged, After, Plug, Elems, ContextElems, Reached, Overlooks;
      ReachedRoot(key);
      c := Top;
      ghost var t := tree;
      if root == null {
        ReachedEnd(c, key);
        EmptyBound();
        return null, c;
      }
      var current: Element<K> := root;
      while true
        invariant Reached(c, t, key) && t.Node? && current == t.elem
        decreases t
      {
        ReachedNode(c, t, key);
        if Matches(less, key, current.key) {
          return current, c;
        }
        if less(key, current.key) {
          ReachedLeft(c, t, key);
          c, t := InLeft(c, t.elem, t.bf, t.right), t.left;
          if current.left == null {
            ReachedEnd(c, key);
            return current, c;
          }
          current := current.left;
        } else {
          NotLess(less, key, current.key);
          ReachedRight(c, t, key);
          if current.right == null {
            bound := BoundAbove(current, c, t);
            c := InRight(c, t.left, t.elem, t.bf);
            ReachedEnd(c, key);
            return bound, c;
          }
          c, t := InRight(c, t.left, t.elem, t.bf), t.right;
          current := current.right;
        }
      }
    }

    lemma EmptyBound()
      ensures After<Element<K>>(Top) == [] && !Overlooks<Element<K>>(Top)
    {
    }

    /** The element after one that matches `key`, or else the first that comes after it, except where the
        search overlooks that one. */
    method UpperBound(key: K) returns (bound: Element?<K>, ghost c: Context<Element<K>>)
      requires Ordered()
      ensures (exists e :: e in Repr && Matches(less, key, e.key)) ==>
                exists e :: e in Repr && Matches(less, key, e.key) && Follows(Contents(), e, bound)
      ensures (forall e :: e in Repr ==> !Matches(less, key, e.key)) ==>
                && Plug(c, Nil) == tree && Narrowed(less, c, Nil, key)
                && Bounds(less, Contents(), key, FirstOf(After(c)))
                && bound == if Overlooks(c) then null else FirstOf(After(c))
    {
      hide Narrowed, Overlooks, Plug, After, Follows, At, Sorted;
      bound, c := LowerBound(key);
      if bound == null {
        return;
      }
      if Matches(less, key, bound.key) {
        bound := Next(bound);
      }
    }

    // -------------------------------------------------------------------------------------
    // Erasing

    /** One step up after the subtree in the hole of `c` became one lower; not `ok`, where it reads a
        child that is not there. */
    method EraseStep(parent: Element<K>, shortenedLeft: bool, ghost c: Context<Element<K>>, ghost t: Tree<Element<K>>)
      returns (current: Element<K>, done: bool, ok: bool)
      requires At(c, t) && !c.Top? && parent == c.elem && shortenedLeft == c.InLeft?
      modifies this`root, Repr
      ensures Repr == old(Repr) && ok == ShrinkReady(c)
      ensures ok ==> var f := Shrink(c, t); At(c.up, f.tree) && current == f.tree.elem && done == f.done
    {
      ghost var u := Wider(c, t);
      AtUp(c, t);
      hide At;
      AtNode(c.up, u);
      ok := true;
      if shortenedLeft {
        if parent.bf > 0 {
          current, done, ok := EraseStepLeft(parent, c, t);
        } else if parent.bf == 0 {
          SetFactor(parent, 1, c.up, u);
          current, done := parent, true;
        } else {
          SetFactor(parent, 0, c.up, u);
          current, done := parent, false;
        }
      } else {
        if parent.bf < 0 {
          current, done, ok := EraseStepRight(parent, c, t);
        } else if parent.bf == 0 {
          SetFactor(parent, -1, c.up, u);
          current, done := parent, true;
        } else {
          SetFactor(parent, 0, c.up, u);
          current, done := parent, false;
        }
      }
    }

    /** The left subtree became lower and the right one was higher already. */
    method EraseStepLeft(parent: Element<K>, ghost c: Context<Element<K>>, ghost t: Tree<Element<K>>)
      returns (current: Element<K>, done: bool, ok: bool)
      requires c.InLeft? && At(c.up, Wider(c, t)) && parent == c.elem && c.bf > 0
      modifies this`root, Repr
      ensures Repr == old(Repr) && ok == ShrinkReady(c)
      ensures ok ==> var f := Shrink(c, t); At(c.up, f.tree) && current == f.tree.elem && done == f.done
    {
      ghost var u := Wider(c, t);
      hide At;
      AtNode(c.up, u);
      var right := parent.right;
      if right == null {
        return parent, true, false;
      }
      AtRight(c.up, u);
      AtNode(InRight(c.up, u.left, u.elem, u.bf), u.right);
      var b := right.bf;
      if b < 0 {
        if right.left == null {
          return parent, true, false;
        }
        current := RebalanceRightLeft(parent, c.up, u);
      } else {
        current := RebalanceLeft(parent, c.up, u);
      }
      done, ok := b == 0, true;
    }

    /** The right subtree became lower and the left one was higher already. */
    method EraseStepRight(parent: Element<K>, ghost c: Context<Element<K>>, ghost t: Tree<Element<K>>)
      returns (current: Element<K>, done: bool, ok: bool)
      requires c.InRight? && At(c.up, Wider(c, t)) && parent == c.elem && c.bf < 0
      modifies this`root, Repr
      ensures Repr == old(Repr) && ok == ShrinkReady(c)
      ensures ok ==> var f := Shrink(c, t); At(c.up, f.tree) && current == f.tree.elem && done == f.done
    {
      ghost var u := Wider(c, t);
      hide At;
      AtNode(c.up, u);
      var left := parent.left;
      if left == null {
        return parent, true, false;
      }
      AtLeft(c.up, u);
      AtNode(InLeft(c.up, u.elem, u.bf, u.right), u.left);
      var b := left.bf;
      if b > 0 {
        if left.right == null {
          return parent, true, false;
        }
        current := RebalanceLeftRight(parent, c.up, u);
      } else {
        current := RebalanceRight(parent, c.up, u);
      }
      done, ok := b == 0, true;
    }

    /** One iteration of the walk up after an erasure. */
    method EraseClimb(parent: Element<K>, shortenedLeft: bool, ghost c: Context<Element<K>>, ghost t: Tree<Element<K>>)
      returns (above: Element?<K>, isLeft: bool, done: bool, ok: bool, ghost u: Tree<Element<K>>)
      requires At(c, t) && !c.Top? && parent == c.elem && shortenedLeft == c.InLeft?
      modifies this`root, Repr
      ensures Repr == old(Repr)
      ensures done ==> ok == EraseFix(c, t).Some? && (ok ==> At(Top, EraseFix(c, t).value))
      ensures !done ==>
                && At(c.up, u) && above == Hook(c.up) && (above != null ==> isLeft == c.up.InLeft?)
                && EraseFix(c.up, u) == EraseFix(c, t)
    {
      hide At, ShrinkReady, Shrink;
      var current;
      current, done, ok := EraseStep(parent, shortenedLeft, c, t);
      if !ok {
        return null, false, true, false, Nil;
      }
      u := Shrink(c, t).tree;
      AtNode(c.up, u);
      above, isLeft := current.parent, false;
      if above != null {
        AtBelow(c.up, u);
        isLeft := current == above.left;
      }
      if done {
        AtWhole(c.up, u);
      }
    }

    /** The walk up after an erasure, from the element below which the hole of `c` is. */
    method EraseRebalance(base: Element?<K>, shortenedLeft: bool, ghost c: Context<Element<K>>, ghost t: Tree<Element<K>>)
      returns (ok: bool)
      requires At(c, t) && base == Hook(c) && (base != null ==> shortenedLeft == c.InLeft?)
      modifies this`root, Repr
      ensures Repr == old(Repr)
      ensures ok == EraseFix(c, t).Some? && (ok ==> At(Top, EraseFix(c, t).value))
    {
      hide At;
      var parent, isLeft := base, shortenedLeft;
      ghost var d, u, goal := c, t, EraseFix(c, t);
      while parent != null
        invariant Repr == old(Repr)
        invariant At(d, u) && parent == Hook(d) && (parent != null ==> isLeft == d.InLeft?)
        invariant EraseFix(d, u) == goal
        decreases d
      {
        var above, left, done, found, v := EraseClimb(parent, isLeft, d, u);
        if done {
          return found;
        }
        parent, isLeft, d, u := above, left, d.up, v;
      }
      ok := true;
    }

    method ReparentLink(e: Element?<K>, parent: Element?<K>)
      requires e != null ==> e in Repr
      modifies Repr
      ensures Repr == old(Repr)
      ensures Links() == Reparent(old(Links()), e, parent)
    {
      if e != null {
        e.parent := parent;
      }
    }

    method WriteLeft(e: Element<K>, left: Element?<K>)
      requires e in Repr
      modifies Repr
      ensures Repr == old(Repr)
      ensures Links() == old(Links())[e := old(Links())[e].(left := left)]
    {
      e.left := left;
    }

    method WriteLinks(e: Element<K>, left: Element?<K>, right: Element?<K>, parent: Element?<K>, bf: int)
      requires e in Repr
      modifies Repr
      ensures Repr == old(Repr)
      ensures Links() == old(Links())[e := AvlLinks.Links(left, right, parent, bf)]
    {
      e.left, e.right, e.parent, e.bf := left, right, parent, bf;
    }

    /** An element with at most one child: the child takes its place. */
    method EraseSplice(e: Element<K>, ghost c: Context<Element<K>>, ghost t: Tree<Element<K>>) returns (ok: bool)
      requires At(c, t) && t.Node? && t.elem == e && (t.left.Nil? || t.right.Nil?)
      modifies this`root, Repr
      ensures Repr == old(Repr)
      ensures ok == Erased(c, t).Some? && (ok ==> At(Top, Erased(c, t).value))
    {
      ghost var y := if t.left.Node? then t.left else t.right;
      AtNode(c, t);
      SpliceOutOk(c, t, y, root, Links());
      var replacement := if e.left != null then e.left else e.right;
      var parent, isLeft := e.parent, false;
      if parent != null {
        AtBelow(c, t);
        isLeft := e == parent.left;
      }
      hide EraseFix, Focus;
      RedirectLink(parent, e, replacement);
      ReparentLink(replacement, parent);
      ok := EraseRebalance(parent, isLeft, c, y);
    }

    /** An element whose right child has no left child: the right child takes its place. */
    method ErasePull(e: Element<K>, ghost c: Context<Element<K>>, ghost t: Tree<Element<K>>) returns (ok: bool)
      requires At(c, t) && t.Node? && t.elem == e && t.left.Node? && t.right.Node? && t.right.left.Nil?
      modifies this`root, Repr
      ensures Repr == old(Repr)
      ensures ok == Erased(c, t).Some? && (ok ==> At(Top, Erased(c, t).value))
    {
      AtNode(c, t);
      PullUpOk(c, t, root, Links());
      var parent, left, next, bf := e.parent, e.left, e.right, e.bf;
      ghost var n, y := Node(t.left, t.right.elem, t.bf, t.right.right), t.right.right;
      hide EraseFix, Focus, PullUp;
      PullUpLinks(e);
      if parent != null {
        AtRight(c, n);
        ok := EraseRebalance(next, false, InRight(c, n.left, n.elem, n.bf), y);
      } else {
        SetFactor(next, bf - 1, c, n);
        if bf < 0 {
          var _ := RebalanceRight(next, c, n.(bf := bf - 1));
        }
        ok := true;
      }
    }

    /** Away from the root, the element of a subtree is not the root. */
    lemma PlugOther(c: Context<Element<K>>, t: Tree<Element<K>>)
      requires At(c, t) && t.Node?
      ensures c.Top? <==> Plug(c, t).Node? && Plug(c, t).elem == t.elem
      ensures c.Top? ==> Plug(c, t) == t
    {
      FocusWhole(c, t, root, Links());
      PlugNode(c, t);
      if !c.Top? {
        PlugElem(c, t, Nil);
        PlugElems(c, Nil);
      }
    }

    method PullUpLinks(e: Element<K>)
      requires e in Repr && e.left != null && e.left in Repr && e.right != null && e.right in Repr
      requires e.parent != null ==> e.parent in Repr && e.parent != e && e.parent != e.right
      modifies this`root, Repr
      ensures Repr == old(Repr)
      ensures Links() == PullUp(old(Links()), e) && root == if old(e.parent) == null then old(e.right) else old(root)
    {
      var parent, left, next, bf := e.parent, e.left, e.right, e.bf;
      RedirectLink(parent, e, next);
      WriteLinks(next, left, next.right, parent, bf);
      ReparentLink(left, next);
    }

    /** Any other element: the leftmost of its right subtree takes its place. */
    method EraseSupplant(e: Element<K>, ghost c: Context<Element<K>>, ghost t: Tree<Element<K>>) returns (ok: bool)
      requires At(c, t) && t.Node? && t.elem == e && t.left.Node? && t.right.Node? && t.right.left.Node?
      modifies this`root, Repr
      ensures Repr == old(Repr)
      ensures ok == Erased(c, t).Some? && (ok ==> At(Top, Erased(c, t).value))
    {
      AtNode(c, t);
      AtRight(c, t);
      var next, p, u := First(e.right, InRight(c, t.left, t.elem, t.bf), t.right);
      SupplantOk(c, t, p, u, root, Links());
      var base := next.parent;
      hide EraseFix, Focus, Supplant;
      SupplantLinks(e, next);
      ghost var s := Supplanted(t, p, u);
      AtRight(c, s);
      AtDown(p, InRight(c, s.left, s.elem, s.bf), u.right);
      ok := EraseRebalance(base, true, Graft(p, InRight(c, s.left, s.elem, s.bf)), u.right);
    }

    lemma AtDown(p: Context<Element<K>>, base: Context<Element<K>>, t: Tree<Element<K>>)
      requires LeftSpine(p) && At(base, Plug(p, t))
      ensures At(Graft(p, base), t)
    {
      FocusDown(p, base, t, root, Links());
    }

    method SupplantLinks(e: Element<K>, next: Element<K>)
      requires e in Repr && e.left != null && e.left in Repr && e.right != null && e.right in Repr
      requires e.parent != null ==> e.parent in Repr
      requires next in Repr && next.parent != null && next.parent in Repr && (next.right != null ==> next.right in Repr)
      modifies this`root, Repr
      ensures Repr == old(Repr)
      ensures Links() == Supplant(old(Links()), e, next) && root == if old(e.parent) == null then next else old(root)
    {
      var parent, left, right, bf, base, inner := e.parent, e.left, e.right, e.bf, next.parent, next.right;
      RedirectLink(parent, e, next);
      WriteLeft(base, inner);
      ReparentLink(inner, base);
      WriteLinks(next, left, right, parent, bf);
      ReparentLink(left, next);
      ReparentLink(right, next);
    }

    lemma RestWithout(c: Context<Element<K>>, t: Tree<Element<K>>)
      requires At(c, t) && t.Node?
      ensures t.elem !in Rest(c, t)
    {
      ElemsInOrder(t.left, t.elem);
      ElemsInOrder(t.right, t.elem);
      ContextElemsInOrder(c, t.elem);
    }

    /** Drops an element that the pointers no longer reach. */
    method Forget(e: Element<K>, ghost t': Tree<Element<K>>)
      requires Bridged(less, Repr) && At(Top, t') && Elems(tree) == Repr && size == |Contents()|
      requires Spliced(InOrder(t'), e, Contents()) && e !in InOrder(t') && Sorted(less, InOrder(t'))
      modifies this
      ensures Ordered() && tree == t' && Repr == old(Repr) - {e}
    {
      ghost var m := Links();
      SplicedElems(t', e, tree);
      ElemsInOrder(t', e);
      Repr := Repr - {e};
      tree := t';
      size := size - 1;
      ForgetOk(Top, t', root, m, Links());
    }

    /** Takes an element out, and returns the one after it. Not `ok`, where the rebalancing reads a
        child that is not there: never in a balanced tree. */
    method Erase(e: Element<K>) returns (next: Element?<K>, ok: bool, ghost c: Context<Element<K>>, ghost t: Tree<Element<K>>)
      requires Ordered() && e in Repr
      modifies this, Repr
      ensures Follows(old(Contents()), e, next)
      ensures Plug(c, t) == old(tree) && t.Node? && t.elem == e
      ensures ok == Erased(c, t).Some? && (ok ==> tree == Erased(c, t).value)
      ensures ok ==> Ordered() && Repr == old(Repr) - {e} && Spliced(Contents(), e, old(Contents()))
      ensures old(Valid()) ==> ok && (Valid() <==> !Unrepaired(old(tree), e))
    {
      hide At, Rest, Sorted, Spliced, Follows, Balanced, Plug, InOrder, Elems, Bridges, Erased;
      next := Next(e);
      c, t := Locate(e);
      AtNode(c, t);
      RestOk(less, c, t);
      PlugOther(c, t);
      RestWithout(c, t);
      if Balanced(tree) {
        ErasedBalanced(c, t);
      }
      if e.left == null || e.right == null {
        ok := EraseSplice(e, c, t);
      } else {
        AtRight(c, t);
        AtNode(InRight(c, t.left, t.elem, t.bf), t.right);
        if e.right.left == null {
          ok := ErasePull(e, c, t);
        } else {
          ok := EraseSupplant(e, c, t);
        }
      }
      if ok {
        ErasedInOrder(c, t);
        Forget(e, Erased(c, t).value);
      }
    }
  }
}
