/** The linked list in which a function call finds its arguments (slst). */
module ArgumentStack {

  class Node<T> {
    const obj: T
    var next: Node?<T>

    constructor (obj: T)
      ensures this.obj == obj && next == null
    {
      this.obj := obj;
      next := null;
    }
  }

  ghost function NodeAt<T>(spine: seq<Node<T>>, i: nat): Node?<T> {
    if i < |spine| then spine[i] else null
  }

  ghost predicate Linked<T>(spine: seq<Node<T>>)
    reads spine
  {
    forall i :: 0 <= i < |spine| ==> spine[i].next == NodeAt(spine, i + 1)
  }

  lemma LinkedOneMore<T>(n: Node<T>, spine: seq<Node<T>>)
    requires Linked(spine) && n.next == NodeAt(spine, 0)
    ensures Linked([n] + spine)
  {
  }

  ghost function Objects<T>(spine: seq<Node<T>>): (s: seq<T>)
    ensures |s| == |spine|
  {
    seq(|spine|, i requires 0 <= i < |spine| => spine[i].obj)
  }

  lemma ObjectsOneMore<T>(n: Node<T>, spine: seq<Node<T>>)
    ensures Objects([n] + spine) == [n.obj] + Objects(spine)
  {
  }

  class Slst<T> {
    var head: Node?<T>
    var length: int
    /** The nodes from the head on. */
    ghost var spine: seq<Node<T>>

    constructor ()
      ensures Valid() && Contents() == [] && spine == []
    {
      head, length, spine := null, 0, [];
    }

    ghost predicate Valid()
      reads this, spine
    {
      length == |spine| && head == NodeAt(spine, 0) && Linked(spine)
    }

    ghost function Contents(): (s: seq<T>)
      reads this
      ensures |s| == |spine|
    {
      Objects(spine)
    }

    method PushFront(s: T)
      requires Valid()
      modifies this
      ensures Valid() && Contents() == [s] + old(Contents())
      ensures forall n <- spine :: n in old(spine) || fresh(n)
    {
      var n := new Node(s);
      n.next := head;
      assert Linked(spine);
      LinkedOneMore(n, spine);
      ObjectsOneMore(n, spine);
      head := n;
      length := length + 1;
      spine := [n] + spine;
    }

    /** Fails on an empty list, where the source throws. */
    method PopFront() returns (ok: bool, s: seq<T>)
      requires Valid()
      modifies this
      ensures Valid() && ok == (old(Contents()) != [])
      ensures ok ==> old(Contents()) == s + Contents() && |s| == 1
      ensures !ok ==> s == [] && Contents() == []
      ensures forall n <- spine :: n in old(spine)
    {
      if head == null {
        return false, [];
      }
      var n: Node<T> := head;
      head := n.next;
      length := length - 1;
      spine := spine[1..];
      forall i | 0 <= i < |spine|
        ensures spine[i].next == NodeAt(spine, i + 1)
      {
        assert spine[i] == old(spine)[i + 1] && old(spine)[i + 1].next == NodeAt(old(spine), i + 2);
      }
      assert old(Contents()) == [n.obj] + Contents();
      return true, [n.obj];
    }

    method Size() returns (n: int)
      requires Valid()
      ensures n == |Contents()|
    {
      n := length;
    }
  }
}
