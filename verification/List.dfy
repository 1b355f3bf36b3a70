/** The doubly linked list, which carries every collection of the compiler. */
module Lists {
  import opened Runs

  class Node<T> {
    var element: T
    var next: Node?<T>
    var prev: Node?<T>

    constructor (element: T)
      ensures this.element == element && next == null && prev == null
    {
      this.element := element;
      next := null;
      prev := null;
    }
  }

  class List<T> {
    var length: nat
    var head: Node?<T>
    var tail: Node?<T>
    /** The nodes from head to tail, and the elements they hold. */
    ghost var nodes: seq<Node<T>>
    ghost var contents: seq<T>
    ghost var Repr: set<object>

    ghost predicate Valid()
      reads this, Repr
      ensures Valid() ==> this in Repr
    {
      this in Repr && (forall i :: 0 <= i < |nodes| ==> nodes[i] in Repr) && Shape()
    }

    ghost predicate Shape()
      reads this, nodes
    {
      length == |nodes| == |contents| &&
      (if |nodes| == 0 then head == null && tail == null else head == nodes[0] && tail == nodes[|nodes| - 1] && Ends()) &&
      (forall i :: 0 <= i < |nodes| ==> nodes[i].element == contents[i]) &&
      forall i, j {:trigger nodes[i], nodes[j]} :: 0 <= i < j < |nodes| ==> nodes[i] != nodes[j] && (j == i + 1 ==> Linked(nodes[i], nodes[j]))
    }

    ghost predicate Ends()
      requires |nodes| > 0
      reads this, nodes
    {
      nodes[0].prev == null && nodes[|nodes| - 1].next == null
    }

    ghost predicate Linked(a: Node<T>, b: Node<T>)
      reads a, b
    {
      a.next == b && b.prev == a
    }

    constructor ()
      ensures Valid() && contents == [] && fresh(Repr)
    {
      length := 0;
      head := null;
      tail := null;
      nodes := [];
      contents := [];
      Repr := {this};
    }

    function Length(): (n: nat)
      requires Valid()
      reads Repr
      ensures n == |contents|
    {
      length
    }

    /** Appends at the tail. */
    method Push(element: T)
      requires Valid()
      modifies Repr
      ensures Valid() && contents == old(contents) + [element] && fresh(Repr - old(Repr))
    {
      var node := new Node(element);
      if head == null {
        head := node;
      } else {
        tail.next := node;
        node.prev := tail;
      }
      tail := node;
      length := length + 1;
      nodes := nodes + [node];
      contents := contents + [element];
      Repr := Repr + {node};
    }

    /** Removes the tail's element. */
    method Pop() returns (element: Option<T>)
      requires Valid()
      modifies Repr
      ensures Valid() && Repr == old(Repr)
      ensures old(contents) == [] ==> element == None && contents == []
      ensures var n := old(|contents|) - 1; n >= 0 ==> element == Some(old(contents)[n]) && contents == old(contents)[..n]
    {
      if head == null {
        return None;
      }
      assert |nodes| >= 2 ==> Linked(nodes[|nodes| - 2], nodes[|nodes| - 1]);
      element := Some(tail.element);
      tail := tail.prev;
      if tail != null {
        tail.next := null;
      } else {
        head := null;
      }
      length := length - 1;
      nodes := nodes[..|nodes| - 1];
      contents := contents[..|contents| - 1];
    }

    /** Removes the head's element. */
    method Shift() returns (element: Option<T>)
      requires Valid()
      modifies Repr
      ensures Valid() && Repr == old(Repr)
      ensures old(contents) == [] ==> element == None && contents == []
      ensures old(contents) != [] ==> element == Some(old(contents)[0]) && contents == old(contents)[1..]
    {
      if head == null {
        return None;
      }
      assert |nodes| >= 2 ==> Linked(nodes[0], nodes[1]);
      element := Some(head.element);
      head := head.next;
      if head != null {
        head.prev := null;
      } else {
        tail := null;
      }
      length := length - 1;
      nodes := nodes[1..];
      contents := contents[1..];
    }

    /** Puts an element before the head. */
    method Shiftify(element: T)
      requires Valid()
      modifies Repr
      ensures Valid() && contents == [element] + old(contents) && fresh(Repr - old(Repr))
    {
      var node := new Node(element);
      node.next := head;
      if head != null {
        head.prev := node;
      }
      head := node;
      if tail == null {
        tail := node;
      }
      length := length + 1;
      nodes := [node] + nodes;
      contents := [element] + contents;
      Repr := Repr + {node};
    }

    /** A new list in the opposite order; this one is left alone. */
    method Reverse() returns (reversed: List<T>)
      requires Valid()
      ensures reversed.Valid() && reversed.contents == Reversed(contents)
      ensures fresh(reversed.Repr)
    {
      reversed := new List();
      var pointer := head;
      ghost var i := 0;
      while pointer != null
        invariant 0 <= i <= |nodes| && pointer == if i < |nodes| then nodes[i] else null
        invariant reversed.Valid() && fresh(reversed.Repr) && reversed.contents == Reversed(contents[..i])
        decreases |nodes| - i
      {
        ReversedStep(contents, i);
        assert i + 1 < |nodes| ==> Linked(nodes[i], nodes[i + 1]);
        reversed.Shiftify(pointer.element);
        pointer := pointer.next;
        i := i + 1;
      }
      assert contents[..i] == contents;
    }
  }

  function Reversed<T>(s: seq<T>): (r: seq<T>)
    ensures |r| == |s|
  {
    if |s| == 0 then [] else Reversed(s[1..]) + [s[0]]
  }

  lemma {:induction false} ReversedAppend<T>(s: seq<T>, t: seq<T>)
    ensures Reversed(s + t) == Reversed(t) + Reversed(s)
    decreases |s|
  {
    if |s| == 0 {
      assert s + t == t;
    } else {
      assert (s + t)[1..] == s[1..] + t;
      ReversedAppend(s[1..], t);
    }
  }

  lemma ReversedStep<T>(s: seq<T>, i: nat)
    requires i < |s|
    ensures Reversed(s[..i + 1]) == [s[i]] + Reversed(s[..i])
  {
    assert s[..i + 1] == s[..i] + [s[i]];
    ReversedAppend(s[..i], [s[i]]);
    assert Reversed([s[i]]) == [s[i]];
  }

  lemma {:induction false} ReversedAt<T>(s: seq<T>, k: nat)
    requires k < |s|
    ensures Reversed(s)[k] == s[|s| - 1 - k]
    decreases |s|
  {
    if k < |s| - 1 {
      ReversedAt(s[1..], k);
    }
  }

  lemma {:induction false} ReversedTwice<T>(s: seq<T>)
    ensures Reversed(Reversed(s)) == s
    decreases |s|
  {
    if |s| > 0 {
      ReversedTwice(s[1..]);
      ReversedAppend(Reversed(s[1..]), [s[0]]);
      assert Reversed([s[0]]) == [s[0]];
    }
  }
}
