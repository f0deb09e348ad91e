/** The intrusive queue of messages and of waiting threads. */
module Fifo {

  /** An element carries its own link; once it has been taken out, the link is stale. */
  class Node<T> {
    const value: T
    var next: Node?<T>

    constructor (value: T)
      ensures this.value == value && next == null
    {
      this.value, next := value, null;
    }
  }

  class Fifo<T> {
    var head: Node?<T>
    var tail: Node?<T>
    var size: nat

    /** The elements, first to last. */
    ghost var Contents: seq<Node<T>>

    ghost predicate Valid()
      reads this, Contents
    {
      && size == |Contents|
      && (forall i, j :: 0 <= i < j < |Contents| ==> Contents[i] != Contents[j])
      && (if Contents == [] then head == null else head == Contents[0] && tail == Contents[|Contents| - 1])
      && (forall i {:trigger Contents[i].next} :: 0 <= i < |Contents| ==>
            Contents[i].next == if i + 1 < |Contents| then Contents[i + 1] else null)
    }

    constructor ()
      ensures Valid() && Contents == []
    {
      head, tail, size, Contents := null, null, 0, [];
    }

    /** Adds an element at the end, whatever its link was. */
    method PushBack(element: Node<T>)
      requires Valid() && element !in Contents
      modifies this, Contents, element
      ensures Valid() && Contents == old(Contents) + [element]
    {
      if head == null {
        head := element;
        tail := head;
        head.next := null;
      } else {
        tail.next := element;
        tail.next.next := null;
        tail := tail.next;
      }
      size := size + 1;
      Contents := Contents + [element];
    }

    /** Takes out the first element, if there is one. */
    method PopFront() returns (element: Node?<T>)
      requires Valid()
      modifies this
      ensures Valid()
      ensures if old(Contents) == [] then element == null && Contents == []
              else element == old(Contents)[0] && Contents == old(Contents)[1..]
    {
      if head == null {
        return null;
      }
      size := size - 1;
      element := head;
      head := head.next;
      ghost var was := Contents;
      Contents := Contents[1..];
      assert forall i {:trigger Contents[i].next} :: 0 <= i < |Contents| ==> Contents[i] == was[i + 1] && was[i + 1].next == Contents[i].next;
    }
  }
}
