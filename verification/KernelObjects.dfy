/** The handle tables of processes and the queues of mailboxes, as they lie in memory. */
module KernelObjects {
  import opened Basics
  import opened AvlShape
  import opened AvlLinks
  import opened AvlOrder
  import opened AvlErase
  import opened AvlTree
  import opened Fifo
  import opened Kernel

  // ---------------------------------------------------------------------------------------
  // Tokens

  function Number(x: bv64): nat {
    x as nat
  }

  function Mix(process: bv64, handle: bv64, reading: bv64): bv64 {
    process ^ handle ^ reading
  }

  /** The token tried for a handle at one reading of the clock, from the addresses of both. */
  function TokenAt(process: bv64, handle: bv64, reading: bv64): nat {
    Number(Mix(process, handle, reading))
  }

  lemma MixDiffers(process: bv64, handle: bv64, x: bv64, y: bv64)
    requires x != y
    ensures Mix(process, handle, x) != Mix(process, handle, y)
  {
  }

  lemma TokensDiffer(process: bv64, handle: bv64, x: bv64, y: bv64)
    requires x != y
    ensures TokenAt(process, handle, x) != TokenAt(process, handle, y)
  {
    hide Number, Mix;
    MixDiffers(process, handle, x, y);
    if TokenAt(process, handle, x) == TokenAt(process, handle, y) {
      SameNumber(Mix(process, handle, x), Mix(process, handle, y));
    }
  }

  lemma SameNumber(x: bv64, y: bv64)
    requires Number(x) == Number(y)
    ensures x == y
  {
    assert (x as nat) as bv64 == x;
    assert (y as nat) as bv64 == y;
  }

  /** The readings of a clock that advances. */
  predicate Advancing(readings: seq<bv64>) {
    forall i, j :: 0 <= i < j < |readings| ==> readings[i] < readings[j]
  }

  // ---------------------------------------------------------------------------------------
  // Handle tables

  /** A handle with the token it is filed under. */
  datatype Filed = Filed(token: nat, handle: nat)

  predicate ByToken(a: Filed, b: Filed) {
    a.token < b.token
  }

  /** The token comes of the first reading that gives one not in use. */
  ghost predicate FirstUnused(process: bv64, handle: bv64, readings: seq<bv64>, table: map<nat, nat>, token: nat) {
    exists k :: 0 <= k <= |table| && k < |readings| && token == TokenAt(process, handle, readings[k])
                && forall j :: 0 <= j < k ==> TokenAt(process, handle, readings[j]) in table
  }

  /** `table` is what the elements file, under one token each. */
  ghost predicate Lists(elements: set<Element<Filed>>, table: map<nat, nat>) {
    && (forall e :: e in elements ==> e.key.token in table && table[e.key.token] == e.key.handle)
    && (forall k :: k in table ==> exists e :: e in elements && e.key.token == k)
    && (forall e, f :: e in elements && f in elements && e.key.token == f.key.token ==> e == f)
  }

  lemma ListsAdd(elements: set<Element<Filed>>, table: map<nat, nat>, e: Element<Filed>)
    requires Lists(elements, table) && e.key.token !in table
    ensures Lists(elements + {e}, table[e.key.token := e.key.handle])
  {
    var table' := table[e.key.token := e.key.handle];
    forall k | k in table' ensures exists f :: f in elements + {e} && f.key.token == k {
      if k == e.key.token {
        assert e in elements + {e};
      } else {
        var f :| f in elements && f.key.token == k;
        assert f in elements + {e};
      }
    }
  }

  lemma ListsRemove(elements: set<Element<Filed>>, table: map<nat, nat>, e: Element<Filed>)
    requires Lists(elements, table) && e in elements
    ensures Lists(elements - {e}, table - {e.key.token})
  {
    forall k | k in table - {e.key.token} ensures exists f :: f in elements - {e} && f.key.token == k {
      var f :| f in elements && f.key.token == k;
      assert f in elements - {e};
    }
  }

  ghost function Tokens(s: seq<Element<Filed>>): set<nat> {
    set e | e in s :: e.key.token
  }

  lemma {:induction false} CountSorted(s: seq<Element<Filed>>)
    requires Sorted(ByToken, s)
    ensures |Tokens(s)| == |s|
  {
    if s != [] {
      var n := |s| - 1;
      CountSorted(s[..n]);
      assert s == s[..n] + [s[n]];
      assert Tokens(s) == Tokens(s[..n]) + {s[n].key.token};
      assert forall e :: e in s[..n] ==> e.key.token < s[n].key.token;
    }
  }

  /** Dropping the token leaves the tree unbalanced. */
  ghost predicate Topples(t: Tree<Element<Filed>>, token: nat) {
    t.Node? && t.elem.key.token == token && Unrepaired(t, t.elem)
  }

  /** The handles of a process, in its tree. */
  class HandleTable {
    const tree: AvlTree<Filed>
    ghost var table: map<nat, nat>

    ghost predicate Valid()
      reads this, tree, tree.Repr
    {
      tree.Ordered() && tree.less == ByToken && Lists(tree.Repr, table)
    }

    constructor ()
      ensures Valid() && tree.Valid() && table == map[] && fresh(tree) && tree.Repr == {}
    {
      tree := new AvlTree(ByToken);
      table := map[];
    }

    method Find(token: nat) returns (found: Element?<Filed>)
      requires Valid()
      ensures found == null <==> token !in table
      ensures found != null ==> found in tree.Repr && found.key == Filed(token, table[token])
    {
      hide Sorted, Bridges, AvlTree.At, AvlTree.Ordered;
      Loose();
      var it, _ := tree.Find(Filed(token, 0));
      found := it;
    }

    /** The tree has as many elements as there are tokens. */
    lemma SizeIs()
      requires Valid()
      ensures tree.size == |table|
    {
      hide AvlTree.At, Bridges;
      var s := tree.Contents();
      CountSorted(s);
      forall k ensures k in table.Keys <==> k in Tokens(s) {
        if k in table {
          var e :| e in tree.Repr && e.key.token == k;
          ElemsInOrder(tree.tree, e);
        }
        if k in Tokens(s) {
          var e :| e in s && e.key.token == k;
          ElemsInOrder(tree.tree, e);
        }
      }
      assert table.Keys == Tokens(s);
    }

    lemma Loose()
      requires Valid()
      ensures tree.Ordered()
    {
    }

    /** The handle under a token, if there is one. */
    method Get(token: nat) returns (handle: Option<nat>)
      requires Valid()
      ensures handle == if token in table then Some(table[token]) else None
    {
      var found := Find(token);
      if found == null {
        return None;
      }
      return Some(found.key.handle);
    }

    /** Tries readings of the clock until one gives a token that is not in use: no more of them than
        tokens are in use, and one. */
    method FindToken(process: bv64, handle: bv64, readings: seq<bv64>) returns (token: nat)
      requires Valid() && Advancing(readings) && |readings| > |table|
      ensures token !in table && FirstUnused(process, handle, readings, table, token)
    {
      hide TokenAt, Valid;
      var i := 0;
      ghost var tried: set<nat> := {};
      token := TokenAt(process, handle, readings[0]);
      var found := Find(token);
      while found != null
        invariant 0 <= i <= |table| && token == TokenAt(process, handle, readings[i])
        invariant found == null <==> token !in table
        invariant |tried| == i && tried <= table.Keys && (forall k :: 0 <= k < i ==> TokenAt(process, handle, readings[k]) in table)
        invariant forall t :: t in tried ==> exists k :: 0 <= k < i && t == TokenAt(process, handle, readings[k])
        decreases |readings| - i
      {
        forall k | 0 <= k < i ensures TokenAt(process, handle, readings[k]) != token {
          TokensDiffer(process, handle, readings[k], readings[i]);
        }
        assert token !in tried;
        tried := tried + {token};
        SmallerSet(tried, table.Keys);
        i := i + 1;
        token := TokenAt(process, handle, readings[i]);
        found := Find(token);
      }
    }

    /** Files a handle under a token that is not in use. Not `ok`, if the tree was unbalanced and
        rebalancing it reads a child that is not there. */
    method Register(process: bv64, address: bv64, handle: nat, readings: seq<bv64>) returns (token: nat, ok: bool)
      requires Valid() && Advancing(readings) && |readings| > |table|
      modifies this, tree, tree.Repr
      ensures token !in old(table) && table == old(table)[token := handle]
      ensures FirstUnused(process, address, readings, old(table), token)
      ensures ok ==> Valid() && fresh(tree.Repr - old(tree.Repr))
      ensures old(tree.Valid()) ==> ok && tree.Valid()
    {
      hide TokenAt, Sorted, Bridges, AvlTree.At, AvlTree.Ordered, AvlTree.Links, Spliced, Balanced, InsertFix, Plug, FirstUnused;
      token := FindToken(process, address, readings);
      var element := new Element<Filed>(Filed(token, handle));
      Loose();
      ByTokenBridges(element.key);
      var at, inserted, found, c := tree.Insert(element);
      ListsAdd(old(tree.Repr), table, element);
      table := table[token := handle];
      ok := found;
    }

    lemma RootIs(token: nat, e: Element<Filed>)
      requires Valid() && e in tree.Repr && e.key.token == token
      ensures Topples(tree.tree, token) <==> Unrepaired(tree.tree, e)
    {
      assert tree.tree.Node? ==> tree.tree.elem in Elems(tree.tree);
    }

    /** Drops a token. Not `ok`, if the tree was unbalanced and rebalancing it reads a child that is
        not there. */
    method Unregister(token: nat) returns (ok: bool)
      requires Valid() && token in table
      modifies this, tree, tree.Repr
      ensures table == old(table) - {token}
      ensures ok ==> Valid() && tree.Repr <= old(tree.Repr)
      ensures old(tree.Valid()) ==> ok && (tree.Valid() <==> !Topples(old(tree.tree), token))
    {
      hide Sorted, Bridges, AvlTree.At, AvlTree.Ordered, AvlTree.Links, Spliced, Balanced, Erased, Plug, Follows, Unrepaired;
      var found := Find(token);
      Loose();
      RootIs(token, found);
      ListsRemove(tree.Repr, table, found);
      var next, done, c, t := tree.Erase(found);
      table := table - {token};
      ok := done;
    }
  }

  lemma ByTokenBridges(f: Filed)
    ensures Bridges(ByToken, f)
  {
  }

  // ---------------------------------------------------------------------------------------
  // Mailboxes

  /** What the elements of a queue hold. */
  ghost function Values<T>(nodes: seq<Node<T>>): (s: seq<T>)
    ensures |s| == |nodes|
  {
    seq(|nodes|, i requires 0 <= i < |nodes| => nodes[i].value)
  }

  lemma ValuesPush<T>(nodes: seq<Node<T>>, node: Node<T>)
    ensures Values(nodes + [node]) == Values(nodes) + [node.value]
  {
  }

  lemma ValuesPop<T>(nodes: seq<Node<T>>)
    requires nodes != []
    ensures Values(nodes[1..]) == Values(nodes)[1..] && Values(nodes)[0] == nodes[0].value
  {
  }

  /** A mailbox with its two queues. */
  class Mailbox {
    const messages: Fifo<Message>
    const waiting: Fifo<nat>

    ghost predicate Valid()
      reads messages, waiting, MessageNodes(), WaitingNodes()
    {
      messages.Valid() && waiting.Valid()
    }

    ghost function Value(): Box
      reads messages, waiting
    {
      Box(Values(messages.Contents), Values(waiting.Contents))
    }

    constructor ()
      ensures Valid() && Value() == Box([], []) && fresh(messages) && fresh(waiting)
      ensures messages.Contents == [] && waiting.Contents == []
    {
      messages := new Fifo();
      waiting := new Fifo();
    }

    ghost function MessageNodes(): set<Node<Message>>
      reads messages
    {
      set n | n in messages.Contents
    }

    ghost function WaitingNodes(): set<Node<nat>>
      reads waiting
    {
      set n | n in waiting.Contents
    }

    method PushMessage(message: Message)
      requires Valid()
      modifies messages, MessageNodes()
      ensures Valid() && Value() == old(Value()).(queue := old(Value()).queue + [message])
      ensures fresh(MessageNodes() - old(MessageNodes()))
    {
      var node := new Node(message);
      ValuesPush(messages.Contents, node);
      messages.PushBack(node);
    }

    method PopMessage() returns (message: Message)
      requires Valid() && Value().queue != []
      modifies messages
      ensures Valid() && message == old(Value()).queue[0] && Value() == old(Value()).(queue := old(Value()).queue[1..])
      ensures MessageNodes() <= old(MessageNodes())
    {
      ValuesPop(messages.Contents);
      var node := messages.PopFront();
      message := node.value;
    }

    method PushWaiting(thread: nat)
      requires Valid()
      modifies waiting, WaitingNodes()
      ensures Valid() && Value() == old(Value()).(waiting := old(Value()).waiting + [thread])
      ensures fresh(WaitingNodes() - old(WaitingNodes()))
    {
      var node := new Node(thread);
      ValuesPush(waiting.Contents, node);
      waiting.PushBack(node);
    }

    /** The first thread that waits, if any, and whether its link still leads somewhere. */
    method PopWaiting() returns (thread: Option<nat>, linked: bool)
      requires Valid()
      modifies waiting
      ensures Valid()
      ensures if old(Value()).waiting == [] then thread == None && Value() == old(Value())
              else thread == Some(old(Value()).waiting[0]) && Value() == old(Value()).(waiting := old(Value()).waiting[1..])
      ensures linked <==> |old(Value()).waiting| >= 2
      ensures WaitingNodes() <= old(WaitingNodes())
    {
      if waiting.Contents != [] {
        ValuesPop(waiting.Contents);
      }
      var node := waiting.PopFront();
      if node == null {
        return None, false;
      }
      return Some(node.value), node.next != null;
    }

    method Empty() returns (empty: bool)
      requires Valid()
      ensures empty <==> Value().queue == []
    {
      empty := messages.head == null;
    }
  }
}
