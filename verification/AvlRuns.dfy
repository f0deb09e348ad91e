/** Whole runs of insertions and erasures. */
module AvlRuns {
  import opened Basics
  import opened AvlShape
  import opened AvlLinks
  import opened AvlOrder
  import opened AvlErase
  import opened AvlTree

  datatype Call<K> = Put(key: K) | Take(key: K)

  /** What a call did: nothing, put an element in an empty place, or took the top of a subtree out. */
  datatype Event<K> =
    | Nothing
    | Added(hole: Context<Element<K>>, element: Element<K>)
    | Removed(around: Context<Element<K>>, subtree: Tree<Element<K>>)

  /** Call `call` led from tree `t` to tree `t'`. */
  ghost predicate Step<K>(less: (K, K) -> bool, t: Tree<Element<K>>, call: Call<K>, event: Event<K>, t': Tree<Element<K>>) {
    match event
    case Nothing =>
      t' == t && (call.Put? <==> exists e :: e in Elems(t) && Matches(less, call.key, e.key))
    case Added(c, e) =>
      && call.Put? && e.key == call.key && Plug(c, Nil) == t
      && InsertFix(c, Node(Nil, e, 0, Nil)) == Some(t')
    case Removed(c, u) =>
      && call.Take? && u.Node? && Plug(c, u) == t && Matches(less, call.key, u.elem.key)
      && Erased(c, u) == Some(t')
  }

  /** The code does not repair what the erasure did to the balance. */
  ghost predicate Unbalances<K>(t: Tree<Element<K>>, event: Event<K>) {
    event.Removed? && event.subtree.Node? && Unrepaired(t, event.subtree.elem)
  }

  /** Every run of calls, up to the first that reads a child that is not there. The tree is balanced as
      long as no erasure left it unrepaired; so only after such an erasure can a call read a child
      that is not there. */
  method Run<K(!new)>(tree: AvlTree<K>, calls: seq<Call<K>>)
    returns (done: nat, ghost trees: seq<Tree<Element<K>>>, ghost events: seq<Event<K>>)
    requires tree.Valid() && forall call :: call in calls && call.Put? ==> Bridges(tree.less, call.key)
    modifies tree, tree.Repr
    ensures done <= |calls| && |trees| == done + 1 && |events| == done && trees[0] == old(tree.tree)
    ensures forall i :: 0 <= i < done ==> Step(tree.less, trees[i], calls[i], events[i], trees[i + 1])
    ensures done == |calls| ==> tree.Ordered() && trees[done] == tree.tree
    ensures done < |calls| ==> exists i :: 0 <= i < done && Unbalances(trees[i], events[i])
    ensures (forall i :: 0 <= i < done ==> !Unbalances(trees[i], events[i])) ==> done == |calls| && tree.Valid()
  {
    hide Bridges, AvlTree.At, Balanced, Sorted, Elems, Step, Unbalances, AvlTree.Links;
    done, trees, events := 0, [tree.tree], [];
    while done < |calls|
      invariant done <= |calls| && |trees| == done + 1 && |events| == done && trees[0] == old(tree.tree)
      invariant tree.Ordered() && trees[done] == tree.tree && fresh(tree.Repr - old(tree.Repr))
      invariant forall i :: 0 <= i < done ==> Step(tree.less, trees[i], calls[i], events[i], trees[i + 1])
      invariant (forall i :: 0 <= i < done ==> !Unbalances(trees[i], events[i])) ==> Balanced(tree.tree)
    {
      var ok, event := Perform(tree, calls[done]);
      if !ok {
        return;
      }
      ghost var was, past := trees, events;
      trees, events, done := trees + [tree.tree], events + [event], done + 1;
      assert forall i :: 0 <= i < done - 1 ==> Unbalances(trees[i], events[i]) == Unbalances(was[i], past[i]);
      assert Unbalances(trees[done - 1], events[done - 1]) == Unbalances(was[done - 1], event);
    }
  }

  /** One call; not `ok`, if it reads a child that is not there. */
  method Perform<K(!new)>(tree: AvlTree<K>, call: Call<K>) returns (ok: bool, ghost event: Event<K>)
    requires tree.Ordered() && (call.Put? ==> Bridges(tree.less, call.key))
    modifies tree, tree.Repr
    ensures ok ==> tree.Ordered() && fresh(tree.Repr - old(tree.Repr))
    ensures ok ==> Step(tree.less, old(tree.tree), call, event, tree.tree)
    ensures old(tree.Valid()) ==> ok && (tree.Valid() || Unbalances(old(tree.tree), event))
  {
    hide Bridges, AvlTree.At, Balanced, Sorted, Elems, Matches, Spliced, Follows, AvlTree.Links,
         InsertFix, Erased, Plug, Unrepaired;
    event := Nothing;
    if call.Put? {
      var e := new Element<K>(call.key);
      var at, inserted, found, c := tree.Insert(e);
      if inserted {
        event := Added(c, e);
      }
      return found, event;
    }
    var e, _ := tree.Find(call.key);
    if e == null {
      return true, event;
    }
    var _, found, c, t := tree.Erase(e);
    return found, Removed(c, t);
  }
}
