/** The shapes of AVL trees: what rebalancing does, apart from pointers. */
module AvlShape {
  import opened Basics

  /** A tree with the balance factor stored at each node. */
  datatype Tree<E> = Nil | Node(left: Tree<E>, elem: E, bf: int, right: Tree<E>)

  /** A tree with a hole, seen from the hole upwards. */
  datatype Context<E> =
    | Top
    | InLeft(up: Context<E>, elem: E, bf: int, right: Tree<E>)
    | InRight(up: Context<E>, left: Tree<E>, elem: E, bf: int)

  function InOrder<E>(t: Tree<E>): seq<E> {
    match t
    case Nil => []
    case Node(l, e, _, r) => InOrder(l) + [e] + InOrder(r)
  }

  function Height<E>(t: Tree<E>): nat {
    match t
    case Nil => 0
    case Node(l, _, _, r) => 1 + Max(Height(l), Height(r))
  }

  function Max(a: nat, b: nat): nat {
    if a < b then b else a
  }

  /** Every stored balance factor is the real height difference, and at most one. */
  predicate Balanced<E>(t: Tree<E>) {
    match t
    case Nil => true
    case Node(l, _, b, r) => b == Height(r) - Height(l) && -1 <= b <= 1 && Balanced(l) && Balanced(r)
  }

  function Plug<E>(c: Context<E>, t: Tree<E>): Tree<E> {
    match c
    case Top => t
    case InLeft(up, e, b, r) => Plug(up, Node(t, e, b, r))
    case InRight(up, l, e, b) => Plug(up, Node(l, e, b, t))
  }

  /** The elements before and after the hole. */
  function Before<E>(c: Context<E>): seq<E> {
    match c
    case Top => []
    case InLeft(up, _, _, _) => Before(up)
    case InRight(up, l, e, _) => Before(up) + InOrder(l) + [e]
  }

  function After<E>(c: Context<E>): seq<E> {
    match c
    case Top => []
    case InLeft(up, e, _, r) => [e] + InOrder(r) + After(up)
    case InRight(up, _, _, _) => After(up)
  }

  /** The context is balanced around a hole of height `h`. */
  predicate BalancedAround<E>(c: Context<E>, h: nat) {
    match c
    case Top => true
    case InLeft(up, _, b, r) =>
      b == Height(r) - h && -1 <= b <= 1 && Balanced(r) && BalancedAround(up, 1 + Max(h, Height(r)))
    case InRight(up, l, _, b) =>
      b == h - Height(l) && -1 <= b <= 1 && Balanced(l) && BalancedAround(up, 1 + Max(Height(l), h))
  }

  lemma {:induction false} PlugInOrder<E>(c: Context<E>, t: Tree<E>)
    ensures InOrder(Plug(c, t)) == Before(c) + InOrder(t) + After(c)
  {
    match c
    case Top =>
    case InLeft(up, e, b, r) => PlugInOrder(up, Node(t, e, b, r));
    case InRight(up, l, e, b) => PlugInOrder(up, Node(l, e, b, t));
  }

  lemma {:induction false} PlugBalanced<E>(c: Context<E>, t: Tree<E>)
    ensures Balanced(Plug(c, t)) <==> Balanced(t) && BalancedAround(c, Height(t))
  {
    hide Balanced, Height;
    match c
    case Top =>
    case InLeft(up, e, b, r) =>
      NodeParts(t, e, b, r);
      PlugBalanced(up, Node(t, e, b, r));
    case InRight(up, l, e, b) =>
      NodeParts(l, e, b, t);
      PlugBalanced(up, Node(l, e, b, t));
  }

  lemma NodeParts<E>(l: Tree<E>, e: E, b: int, r: Tree<E>)
    ensures Height(Node(l, e, b, r)) == 1 + Max(Height(l), Height(r))
    ensures Balanced(Node(l, e, b, r)) <==> b == Height(r) - Height(l) && -1 <= b <= 1 && Balanced(l) && Balanced(r)
  {
  }

  // ---------------------------------------------------------------------------------------
  // Rotations, with the balance factors the code stores

  /** `q` with left subtree `l` and right subtree `t`, rotated left. */
  function RebalanceLeft<E>(l: Tree<E>, q: E, t: Tree<E>): Tree<E>
    requires t.Node?
  {
    if t.bf == 0 then Node(Node(l, q, 1, t.left), t.elem, -1, t.right)
    else Node(Node(l, q, 0, t.left), t.elem, 0, t.right)
  }

  function RebalanceRight<E>(t: Tree<E>, q: E, r: Tree<E>): Tree<E>
    requires t.Node?
  {
    if t.bf == 0 then Node(t.left, t.elem, 1, Node(t.right, q, -1, r))
    else Node(t.left, t.elem, 0, Node(t.right, q, 0, r))
  }

  function RebalanceRightLeft<E>(l: Tree<E>, q: E, t: Tree<E>): Tree<E>
    requires t.Node? && t.left.Node?
  {
    var g := t.left;
    Node(Node(l, q, if g.bf > 0 then -1 else 0, g.left), g.elem, 0, Node(g.right, t.elem, if g.bf < 0 then 1 else 0, t.right))
  }

  function RebalanceLeftRight<E>(t: Tree<E>, q: E, r: Tree<E>): Tree<E>
    requires t.Node? && t.right.Node?
  {
    var g := t.right;
    Node(Node(t.left, t.elem, if g.bf > 0 then -1 else 0, g.left), g.elem, 0, Node(g.right, q, if g.bf < 0 then 1 else 0, r))
  }

  lemma LeftInOrder<E>(l: Tree<E>, q: E, t: Tree<E>)
    requires t.Node?
    ensures InOrder(RebalanceLeft(l, q, t)) == InOrder(l) + [q] + InOrder(t)
  {
  }

  lemma RightInOrder<E>(t: Tree<E>, q: E, r: Tree<E>)
    requires t.Node?
    ensures InOrder(RebalanceRight(t, q, r)) == InOrder(t) + [q] + InOrder(r)
  {
  }

  lemma RightLeftInOrder<E>(l: Tree<E>, q: E, t: Tree<E>)
    requires t.Node? && t.left.Node?
    ensures InOrder(RebalanceRightLeft(l, q, t)) == InOrder(l) + [q] + InOrder(t)
  {
    var g := t.left;
    assert InOrder(g) == InOrder(g.left) + [g.elem] + InOrder(g.right);
  }

  lemma LeftRightInOrder<E>(t: Tree<E>, q: E, r: Tree<E>)
    requires t.Node? && t.right.Node?
    ensures InOrder(RebalanceLeftRight(t, q, r)) == InOrder(t) + [q] + InOrder(r)
  {
    var g := t.right;
    assert InOrder(g) == InOrder(g.left) + [g.elem] + InOrder(g.right);
  }

  /** A right subtree two higher, not leaning left: one rotation. */
  lemma RebalanceLeftOk<E>(l: Tree<E>, q: E, t: Tree<E>)
    requires Balanced(l) && Balanced(t) && Height(t) == Height(l) + 2 && t.bf >= 0
    ensures var n := RebalanceLeft(l, q, t);
            Balanced(n) && Height(n) == Height(t) + (if t.bf == 0 then 1 else 0)
  {
    assert Height(Node(l, q, 1, t.left)) == 1 + Max(Height(l), Height(t.left));
  }

  lemma RebalanceRightOk<E>(t: Tree<E>, q: E, r: Tree<E>)
    requires Balanced(r) && Balanced(t) && Height(t) == Height(r) + 2 && t.bf <= 0
    ensures var n := RebalanceRight(t, q, r);
            Balanced(n) && Height(n) == Height(t) + (if t.bf == 0 then 1 else 0)
  {
    assert Height(Node(t.right, q, 1, r)) == 1 + Max(Height(t.right), Height(r));
  }

  /** A right subtree two higher that leans left: two rotations. */
  lemma RebalanceRightLeftOk<E>(l: Tree<E>, q: E, t: Tree<E>)
    requires Balanced(l) && Balanced(t) && Height(t) == Height(l) + 2 && t.bf < 0
    ensures t.left.Node?
    ensures var n := RebalanceRightLeft(l, q, t); Balanced(n) && Height(n) == Height(t)
  {
    var g := t.left;
    assert Height(g) == 1 + Max(Height(g.left), Height(g.right));
    assert Height(Node(l, q, 0, g.left)) == 1 + Max(Height(l), Height(g.left));
    assert Height(Node(g.right, t.elem, 0, t.right)) == 1 + Max(Height(g.right), Height(t.right));
  }

  lemma RebalanceLeftRightOk<E>(t: Tree<E>, q: E, r: Tree<E>)
    requires Balanced(r) && Balanced(t) && Height(t) == Height(r) + 2 && t.bf > 0
    ensures t.right.Node?
    ensures var n := RebalanceLeftRight(t, q, r); Balanced(n) && Height(n) == Height(t)
  {
    var g := t.right;
    assert Height(g) == 1 + Max(Height(g.left), Height(g.right));
    assert Height(Node(t.left, t.elem, 0, g.left)) == 1 + Max(Height(t.left), Height(g.left));
    assert Height(Node(g.right, q, 0, r)) == 1 + Max(Height(g.right), Height(r));
  }

  // ---------------------------------------------------------------------------------------
  // Insertion

  /** The subtree in the hole has become one higher than the `h` its context expects. */
  predicate Grown<E>(c: Context<E>, t: Tree<E>, h: nat) {
    BalancedAround(c, h) && Balanced(t) && Height(t) == h + 1 && (t.bf == 0 ==> h == 0)
  }

  /** A subtree after one step of a walk up, and whether the walk is over. */
  datatype Fixed<E> = Fixed(tree: Tree<E>, done: bool)

  /** One step up after the right subtree `t` of `q` became one higher. */
  function GrowRight<E>(l: Tree<E>, q: E, b: int, t: Tree<E>): Fixed<E>
    requires t.Node? && (b > 0 && t.bf < 0 ==> t.left.Node?)
  {
    if b > 0 then Fixed(if t.bf < 0 then RebalanceRightLeft(l, q, t) else RebalanceLeft(l, q, t), true)
    else if b < 0 then Fixed(Node(l, q, 0, t), true)
    else Fixed(Node(l, q, 1, t), false)
  }

  function GrowLeft<E>(t: Tree<E>, q: E, b: int, r: Tree<E>): Fixed<E>
    requires t.Node? && (b < 0 && t.bf > 0 ==> t.right.Node?)
  {
    if b < 0 then Fixed(if t.bf > 0 then RebalanceLeftRight(t, q, r) else RebalanceRight(t, q, r), true)
    else if b > 0 then Fixed(Node(t, q, 0, r), true)
    else Fixed(Node(t, q, -1, r), false)
  }

  lemma NodeBalanced<E>(l: Tree<E>, e: E, b: int, r: Tree<E>)
    requires Balanced(l) && Balanced(r) && b == Height(r) - Height(l) && -1 <= b <= 1
    ensures Balanced(Node(l, e, b, r)) && Height(Node(l, e, b, r)) == 1 + Max(Height(l), Height(r))
  {
  }

  lemma NodeHeight<E>(t: Tree<E>)
    ensures t.Node? <==> Height(t) > 0
    ensures t.Node? && Balanced(t) && t.bf < 0 ==> t.left.Node?
    ensures t.Node? && Balanced(t) && t.bf > 0 ==> t.right.Node?
  {
  }

  /** What a balanced context says about the parent of its hole. */
  ghost predicate Parts<E>(c: Context<E>, h: nat)
    requires !c.Top?
  {
    -1 <= c.bf <= 1
    && (if c.InRight? then
          c.bf == h - Height(c.left) && Balanced(c.left) && BalancedAround(c.up, 1 + Max(Height(c.left), h))
        else
          c.bf == Height(c.right) - h && Balanced(c.right) && BalancedAround(c.up, 1 + Max(h, Height(c.right))))
  }

  lemma GrownParts<E>(c: Context<E>, t: Tree<E>, h: nat)
    requires Grown(c, t, h) && !c.Top?
    ensures Parts(c, h)
  {
  }

  lemma ShrunkParts<E>(c: Context<E>, t: Tree<E>, h: nat)
    requires Shrunk(c, t, h) && !c.Top?
    ensures Parts(c, h + 1)
  {
  }

  lemma GrowRightOk<E>(up: Context<E>, l: Tree<E>, q: E, b: int, t: Tree<E>, h: nat)
    requires Grown(InRight(up, l, q, b), t, h)
    ensures t.Node? && (t.bf < 0 ==> t.left.Node?)
    ensures var f := GrowRight(l, q, b, t);
            (if f.done then Balanced(f.tree) && BalancedAround(up, Height(f.tree)) else Grown(up, f.tree, h + 1))
  {
    hide Balanced, Height, BalancedAround;
    NodeHeight(t);
    GrownParts(InRight(up, l, q, b), t, h);
    if b > 0 {
      if t.bf < 0 {
        RebalanceRightLeftOk(l, q, t);
      } else {
        RebalanceLeftOk(l, q, t);
      }
    } else {
      NodeBalanced(l, q, b + 1, t);
    }
  }

  lemma GrowLeftOk<E>(up: Context<E>, t: Tree<E>, q: E, b: int, r: Tree<E>, h: nat)
    requires Grown(InLeft(up, q, b, r), t, h)
    ensures t.Node? && (t.bf > 0 ==> t.right.Node?)
    ensures var f := GrowLeft(t, q, b, r);
            (if f.done then Balanced(f.tree) && BalancedAround(up, Height(f.tree)) else Grown(up, f.tree, h + 1))
  {
    hide Balanced, Height, BalancedAround;
    NodeHeight(t);
    GrownParts(InLeft(up, q, b, r), t, h);
    if b < 0 {
      if t.bf > 0 {
        RebalanceLeftRightOk(t, q, r);
      } else {
        RebalanceRightOk(t, q, r);
      }
    } else {
      NodeBalanced(t, q, b - 1, r);
    }
  }

  /** The children that a step up reads after the subtree in the hole became one higher are there. */
  predicate GrowReady<E>(c: Context<E>, t: Tree<E>)
    requires !c.Top? && t.Node?
  {
    if c.InRight? then c.bf > 0 && t.bf < 0 ==> t.left.Node? else c.bf < 0 && t.bf > 0 ==> t.right.Node?
  }

  /** One step up after the subtree in the hole became one higher. */
  function Grow<E>(c: Context<E>, t: Tree<E>): (f: Fixed<E>)
    requires !c.Top? && t.Node? && GrowReady(c, t)
    ensures f.tree.Node?
  {
    if c.InRight? then GrowRight(c.left, c.elem, c.bf, t) else GrowLeft(t, c.elem, c.bf, c.right)
  }

  /** A step either ends the walk with all balanced, or leaves the next subtree one higher. */
  lemma GrowOk<E>(c: Context<E>, t: Tree<E>, h: nat)
    requires Grown(c, t, h) && !c.Top?
    ensures t.Node? && GrowReady(c, t)
    ensures var f := Grow(c, t);
            if f.done then Balanced(f.tree) && BalancedAround(c.up, Height(f.tree)) else Grown(c.up, f.tree, h + 1)
  {
    if c.InRight? { GrowRightOk(c.up, c.left, c.elem, c.bf, t, h); } else { GrowLeftOk(c.up, t, c.elem, c.bf, c.right, h); }
  }

  lemma GrowInOrder<E>(c: Context<E>, t: Tree<E>)
    requires !c.Top? && t.Node? && GrowReady(c, t)
    ensures Before(c.up) + InOrder(Grow(c, t).tree) + After(c.up) == Before(c) + InOrder(t) + After(c)
  {
    if c.InRight? {
      GrowRightInOrder(c.left, c.elem, c.bf, t);
      AroundRight(c.up, c.left, c.elem, c.bf, t);
    } else {
      GrowLeftInOrder(t, c.elem, c.bf, c.right);
      AroundLeft(c.up, t, c.elem, c.bf, c.right);
    }
  }

  /** The walk up after an insertion; it comes to nothing where it reads a child that is not there. */
  function InsertFix<E>(c: Context<E>, t: Tree<E>): Option<Tree<E>>
    requires t.Node?
    decreases c
  {
    if c.Top? then Some(t)
    else if !GrowReady(c, t) then None
    else
      var f := Grow(c, t);
      if f.done then Some(Plug(c.up, f.tree)) else InsertFix(c.up, f.tree)
  }

  /** The walk keeps the elements in order, in a balanced tree or not. */
  lemma {:induction false} InsertFixInOrder<E>(c: Context<E>, t: Tree<E>)
    requires t.Node? && InsertFix(c, t).Some?
    ensures InOrder(InsertFix(c, t).value) == Before(c) + InOrder(t) + After(c)
    decreases c
  {
    if !c.Top? {
      GrowInOrder(c, t);
      var f := Grow(c, t);
      if f.done {
        PlugInOrder(c.up, f.tree);
      } else {
        InsertFixInOrder(c.up, f.tree);
      }
    }
  }

  /** In a balanced tree it finds every child it reads, and restores exact balance factors within one. */
  lemma {:induction false} InsertFixOk<E>(c: Context<E>, t: Tree<E>, h: nat)
    requires Grown(c, t, h) && t.Node?
    ensures InsertFix(c, t).Some? && Balanced(InsertFix(c, t).value)
    decreases c
  {
    if !c.Top? {
      GrowOk(c, t, h);
      var f := Grow(c, t);
      if f.done {
        PlugBalanced(c.up, f.tree);
      } else {
        InsertFixOk(c.up, f.tree, h + 1);
      }
    }
  }

  lemma GrowRightInOrder<E>(l: Tree<E>, q: E, b: int, t: Tree<E>)
    requires t.Node? && (b > 0 && t.bf < 0 ==> t.left.Node?)
    ensures InOrder(GrowRight(l, q, b, t).tree) == InOrder(l) + [q] + InOrder(t)
  {
    if b > 0 && t.bf < 0 { RightLeftInOrder(l, q, t); } else { LeftInOrder(l, q, t); }
  }

  lemma GrowLeftInOrder<E>(t: Tree<E>, q: E, b: int, r: Tree<E>)
    requires t.Node? && (b < 0 && t.bf > 0 ==> t.right.Node?)
    ensures InOrder(GrowLeft(t, q, b, r).tree) == InOrder(t) + [q] + InOrder(r)
  {
    if b < 0 && t.bf > 0 { LeftRightInOrder(t, q, r); } else { RightInOrder(t, q, r); }
  }

  /** Taking in the parent does not change what is where. */
  lemma AroundRight<E>(up: Context<E>, l: Tree<E>, q: E, b: int, t: Tree<E>)
    ensures var c := InRight(up, l, q, b);
            Before(up) + (InOrder(l) + [q] + InOrder(t)) + After(up) == Before(c) + InOrder(t) + After(c)
  {
  }

  lemma AroundLeft<E>(up: Context<E>, t: Tree<E>, q: E, b: int, r: Tree<E>)
    ensures var c := InLeft(up, q, b, r);
            Before(up) + (InOrder(t) + [q] + InOrder(r)) + After(up) == Before(c) + InOrder(t) + After(c)
  {
  }

  // ---------------------------------------------------------------------------------------
  // Erasure

  /** The subtree in the hole has become one lower than the `h + 1` its context expects. */
  predicate Shrunk<E>(c: Context<E>, t: Tree<E>, h: nat) {
    BalancedAround(c, h + 1) && Balanced(t) && Height(t) == h
  }

  /** One step up after the left subtree `t` of `q` became one lower. */
  function ShrinkLeft<E>(t: Tree<E>, q: E, b: int, r: Tree<E>): Fixed<E>
    requires b > 0 ==> r.Node? && (r.bf < 0 ==> r.left.Node?)
  {
    if b > 0 then Fixed(if r.bf < 0 then RebalanceRightLeft(t, q, r) else RebalanceLeft(t, q, r), r.bf == 0)
    else if b == 0 then Fixed(Node(t, q, 1, r), true)
    else Fixed(Node(t, q, 0, r), false)
  }

  function ShrinkRight<E>(l: Tree<E>, q: E, b: int, t: Tree<E>): Fixed<E>
    requires b < 0 ==> l.Node? && (l.bf > 0 ==> l.right.Node?)
  {
    if b < 0 then Fixed(if l.bf > 0 then RebalanceLeftRight(l, q, t) else RebalanceRight(l, q, t), l.bf == 0)
    else if b == 0 then Fixed(Node(l, q, -1, t), true)
    else Fixed(Node(l, q, 0, t), false)
  }

  lemma ShrinkLeftOk<E>(up: Context<E>, t: Tree<E>, q: E, b: int, r: Tree<E>, h: nat)
    requires Shrunk(InLeft(up, q, b, r), t, h)
    ensures b > 0 ==> r.Node? && (r.bf < 0 ==> r.left.Node?)
    ensures var f := ShrinkLeft(t, q, b, r);
            (if f.done then Balanced(f.tree) && BalancedAround(up, Height(f.tree))
                else Height(f.tree) > 0 && Shrunk(up, f.tree, Height(f.tree)))
  {
    hide Balanced, Height, BalancedAround;
    ShrunkParts(InLeft(up, q, b, r), t, h);
    NodeHeight(r);
    if b > 0 {
      if r.bf < 0 {
        RebalanceRightLeftOk(t, q, r);
      } else {
        RebalanceLeftOk(t, q, r);
      }
    } else {
      NodeBalanced(t, q, b + 1, r);
    }
  }

  lemma ShrinkRightOk<E>(up: Context<E>, l: Tree<E>, q: E, b: int, t: Tree<E>, h: nat)
    requires Shrunk(InRight(up, l, q, b), t, h)
    ensures b < 0 ==> l.Node? && (l.bf > 0 ==> l.right.Node?)
    ensures var f := ShrinkRight(l, q, b, t);
            (if f.done then Balanced(f.tree) && BalancedAround(up, Height(f.tree))
                else Height(f.tree) > 0 && Shrunk(up, f.tree, Height(f.tree)))
  {
    hide Balanced, Height, BalancedAround;
    ShrunkParts(InRight(up, l, q, b), t, h);
    NodeHeight(l);
    if b < 0 {
      if l.bf > 0 {
        RebalanceLeftRightOk(l, q, t);
      } else {
        RebalanceRightOk(l, q, t);
      }
    } else {
      NodeBalanced(l, q, b - 1, t);
    }
  }

  /** The children that a step up reads after the subtree in the hole became one lower are there. */
  predicate ShrinkReady<E>(c: Context<E>)
    requires !c.Top?
  {
    if c.InLeft? then c.bf > 0 ==> c.right.Node? && (c.right.bf < 0 ==> c.right.left.Node?)
    else c.bf < 0 ==> c.left.Node? && (c.left.bf > 0 ==> c.left.right.Node?)
  }

  /** One step up after the subtree in the hole became one lower. */
  function Shrink<E>(c: Context<E>, t: Tree<E>): (f: Fixed<E>)
    requires !c.Top? && ShrinkReady(c)
    ensures f.tree.Node?
  {
    if c.InLeft? then ShrinkLeft(t, c.elem, c.bf, c.right) else ShrinkRight(c.left, c.elem, c.bf, t)
  }

  lemma ShrinkOk<E>(c: Context<E>, t: Tree<E>)
    requires Shrunk(c, t, Height(t)) && !c.Top?
    ensures ShrinkReady(c)
    ensures var f := Shrink(c, t);
            if f.done then Balanced(f.tree) && BalancedAround(c.up, Height(f.tree)) else Shrunk(c.up, f.tree, Height(f.tree))
  {
    if c.InLeft? {
      ShrinkLeftOk(c.up, t, c.elem, c.bf, c.right, Height(t));
    } else {
      ShrinkRightOk(c.up, c.left, c.elem, c.bf, t, Height(t));
    }
  }

  lemma ShrinkInOrder<E>(c: Context<E>, t: Tree<E>)
    requires !c.Top? && ShrinkReady(c)
    ensures Before(c.up) + InOrder(Shrink(c, t).tree) + After(c.up) == Before(c) + InOrder(t) + After(c)
  {
    if c.InRight? {
      ShrinkRightInOrder(c.left, c.elem, c.bf, t);
      AroundRight(c.up, c.left, c.elem, c.bf, t);
    } else {
      ShrinkLeftInOrder(t, c.elem, c.bf, c.right);
      AroundLeft(c.up, t, c.elem, c.bf, c.right);
    }
  }

  /** The walk up after an erasure; it comes to nothing where it reads a child that is not there. */
  function EraseFix<E>(c: Context<E>, t: Tree<E>): Option<Tree<E>>
    decreases c
  {
    if c.Top? then Some(t)
    else if !ShrinkReady(c) then None
    else
      var f := Shrink(c, t);
      if f.done then Some(Plug(c.up, f.tree)) else EraseFix(c.up, f.tree)
  }

  lemma {:induction false} EraseFixInOrder<E>(c: Context<E>, t: Tree<E>)
    requires EraseFix(c, t).Some?
    ensures InOrder(EraseFix(c, t).value) == Before(c) + InOrder(t) + After(c)
    decreases c
  {
    if !c.Top? {
      ShrinkInOrder(c, t);
      var f := Shrink(c, t);
      if f.done {
        PlugInOrder(c.up, f.tree);
      } else {
        EraseFixInOrder(c.up, f.tree);
      }
    }
  }

  lemma {:induction false} EraseFixOk<E>(c: Context<E>, t: Tree<E>)
    requires Shrunk(c, t, Height(t))
    ensures EraseFix(c, t).Some? && Balanced(EraseFix(c, t).value)
    decreases c
  {
    if !c.Top? {
      ShrinkOk(c, t);
      var f := Shrink(c, t);
      if f.done {
        PlugBalanced(c.up, f.tree);
      } else {
        EraseFixOk(c.up, f.tree);
      }
    }
  }

  lemma ShrinkLeftInOrder<E>(t: Tree<E>, q: E, b: int, r: Tree<E>)
    requires b > 0 ==> r.Node? && (r.bf < 0 ==> r.left.Node?)
    ensures InOrder(ShrinkLeft(t, q, b, r).tree) == InOrder(t) + [q] + InOrder(r)
  {
    if b > 0 {
      if r.bf < 0 { RightLeftInOrder(t, q, r); } else { LeftInOrder(t, q, r); }
    }
  }

  lemma ShrinkRightInOrder<E>(l: Tree<E>, q: E, b: int, t: Tree<E>)
    requires b < 0 ==> l.Node? && (l.bf > 0 ==> l.right.Node?)
    ensures InOrder(ShrinkRight(l, q, b, t).tree) == InOrder(l) + [q] + InOrder(t)
  {
    if b < 0 {
      if l.bf > 0 { LeftRightInOrder(l, q, t); } else { RightInOrder(l, q, t); }
    }
  }
}
