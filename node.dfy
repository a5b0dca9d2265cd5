/**
 * The links of the chain (src/node.rs) and the recursive length that
 * `Head::len` and `Node::len` compute together.
 *
 * A `Link` is what a `Head` holds: either nothing, or one boxed `Node`.
 * A `Node` owns its value and its tail link. Because every node is owned by
 * exactly one predecessor, the chain is a finite, acyclic value, and Dafny's
 * inductive datatypes model it directly.
 */
module Nodes {

  datatype Option<T> = None | Some(value: T)

  /** `Option<Box<Node<T>>>`: the handle's (or a tail's) optional first node. */
  datatype Link<T> = Nil | Box(node: Node<T>)

  /** A node: its owned tail and its value, in the source's field order. */
  datatype Node<T> = Node(next: Link<T>, value: T)

  /** The abstract sequence a chain stands for, front to back. */
  function Elems<T>(l: Link<T>): seq<T>
  {
    match l
    case Nil => []
    case Box(node) => [node.value] + Elems(node.next)
  }

  /** The sequence starting at a node: that of the link holding it. */
  function NodeElems<T>(node: Node<T>): seq<T>
  {
    Elems(Box(node))
  }

  /** `Node::new`: a node holding `v` whose tail is empty. */
  function NewNode<T>(v: T): (node: Node<T>)
    ensures NodeElems(node) == [v]
    ensures NodeLen(node) == 1
  {
    assert Elems(Box(Node(Nil, v))) == [v] + Elems(Nil);
    Node(Nil, v)
  }

  /** `Head::len` on a link: 0 when empty, else the first node's length. */
  function Len<T>(l: Link<T>): (n: nat)
    ensures n == |Elems(l)|
    ensures n == 0 <==> l == Nil
  {
    match l
    case Nil => 0
    case Box(node) => NodeLen(node)
  }

  /** `Node::len`: one for the node plus the length of its tail. */
  function NodeLen<T>(node: Node<T>): (n: nat)
    ensures n == |NodeElems(node)|
    ensures n >= 1
  {
    1 + Len(node.next)
  }

  /** `Deref::deref`: a node reads as its value, the first of its sequence. */
  function Deref<T>(node: Node<T>): (v: T)
    ensures v == NodeElems(node)[0]
  {
    node.value
  }

  /**
   * The node after `v` is written through `DerefMut::deref_mut`: only the
   * value changes, the tail and hence the length stay as they were.
   */
  function DerefMut<T>(node: Node<T>, v: T): (node': Node<T>)
    ensures NodeElems(node') == NodeElems(node)[0 := v]
    ensures NodeLen(node') == NodeLen(node)
    ensures Elems(node'.next) == Elems(node.next)
  {
    node.(value := v)
  }

  /**
   * `len` counts exactly the nodes reached by following `next`: each of the
   * first `len` steps from the handle lands on a node, and the step after
   * the last of them lands on the empty tail.
   */
  lemma LenIsReachable<T>(l: Link<T>)
    ensures forall k :: 0 <= k < Len(l) ==> Skip(l, k).Box?
    ensures Skip(l, Len(l)) == Nil
  {
    forall k | 0 <= k < Len(l)
      ensures Skip(l, k).Box?
    {
      SkipNext(l, k);
    }
  }

  /** The link that remains after skipping the first `k` nodes. */
  function Skip<T>(l: Link<T>, k: nat): (rest: Link<T>)
    requires k <= |Elems(l)|
    ensures Elems(rest) == Elems(l)[k..]
  {
    if k == 0 then l else Skip(l.node.next, k - 1)
  }

  /** The value held by the node at position `i`, found by walking the chain. */
  function ValueAt<T>(l: Link<T>, i: nat): (v: T)
    requires i < |Elems(l)|
    ensures v == Elems(l)[i]
  {
    if i == 0 then l.node.value else ValueAt(l.node.next, i - 1)
  }

  /**
   * The chain after `v` is written into the node at position `i` through a
   * mutable reference to its value: that element changes, no other does.
   */
  function SetAt<T>(l: Link<T>, i: nat, v: T): (l': Link<T>)
    requires i < |Elems(l)|
    ensures Elems(l') == Elems(l)[i := v]
  {
    if i == 0 then Box(DerefMut(l.node, v))
    else Box(l.node.(next := SetAt(l.node.next, i - 1, v)))
  }

  /** Writing the node at a position before `k` leaves the chain from node `k` onward unchanged. */
  lemma {:induction false} SkipSetAt<T>(l: Link<T>, i: nat, k: nat, v: T)
    requires i < k <= |Elems(l)|
    ensures Skip(SetAt(l, i, v), k) == Skip(l, k)
  {
    if i > 0 {
      SkipSetAt(l.node.next, i - 1, k - 1, v);
    }
  }

  /** Skipping one more node lands on the tail of the node skipping `k` stands on. */
  lemma {:induction false} SkipNext<T>(l: Link<T>, k: nat)
    requires k < |Elems(l)|
    ensures Skip(l, k).Box?
    ensures Skip(l, k + 1) == Skip(l, k).node.next
  {
    if k > 0 {
      SkipNext(l.node.next, k - 1);
    }
  }
}
