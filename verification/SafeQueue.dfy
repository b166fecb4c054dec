/**
 * The linked queue of src/thread_safe/safe_queue.c as a heap structure, one call at a time.
 * Module Threads treats the same statements interleaved.
 */
module SafeQueue {
  import opened Base

  class Node<T> {
    const data: T
    var next: Node?<T>

    constructor (data: T)
      ensures this.data == data && next == null
    {
      this.data := data;
      next := null;
    }
  }

  class SafeQueue<T> {
    var head: Node?<T>
    var tail: Node?<T>
    // The linked nodes from head to tail.
    ghost var spine: seq<Node<T>>

    // Every linked node occurs once, points to its successor, and the ends are head and tail.
    ghost predicate Valid()
      reads this, spine
    {
      && (forall i, j :: 0 <= i < j < |spine| ==> spine[i] != spine[j])
      && (forall i :: 0 <= i < |spine| - 1 ==> spine[i].next == spine[i + 1])
      && (if spine == [] then head == null && tail == null
          else head == spine[0] && tail == spine[|spine| - 1] && tail.next == null)
    }

    ghost function Contents(): (s: seq<T>)
      reads this
      ensures |s| == |spine|
      ensures forall i :: 0 <= i < |s| ==> s[i] == spine[i].data
    {
      seq(|spine|, i requires 0 <= i < |spine| reads this => spine[i].data)
    }

    constructor ()
      ensures Valid() && Contents() == []
    {
      head, tail, spine := null, null, [];
    }

    method Push(data: T)
      requires Valid()
      modifies this, tail
      ensures Valid() && Contents() == old(Contents()) + [data]
      ensures |spine| == |old(spine)| + 1 && spine[..|old(spine)|] == old(spine) && fresh(spine[|old(spine)|])
    {
      var node := new Node(data);
      if tail != null {
        tail.next := node;
      } else {
        head := node;
      }
      tail := node;
      spine := spine + [node];
    }

    // The part of ifb_safe_queue_pop behind its wait loop.
    method TakeHead() returns (data: T)
      requires Valid() && Contents() != []
      modifies this
      ensures Valid() && old(Contents()) == [data] + Contents()
      ensures spine == old(spine)[1..]
    {
      var temp := head;
      data := temp.data;
      head := head.next;
      spine := spine[1..];
      if head == null {
        tail := null;
      }
    }

    method TryPop() returns (data: Option<T>)
      requires Valid()
      modifies this
      ensures Valid()
      ensures data == (if old(Contents()) == [] then None else Some(old(Contents())[0]))
      ensures Contents() == if old(Contents()) == [] then [] else old(Contents())[1..]
    {
      if head == null {
        return None;
      }
      var taken := TakeHead();
      data := Some(taken);
    }
  }
}
