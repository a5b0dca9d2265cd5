/**
 * What the earlier draft in src/main.rs adds to the handle: `Head` itself is
 * a draining iterator, `HeadIter` is a shared iterator built by `Head::iter`,
 * and `main` runs a push/pop scenario. Its `new`, `len`, `push` and `pop`
 * are the same code as src/head.rs and are modelled by `Heads.Head`.
 */
module Draft {
  import opened Nodes
  import opened Heads

  /** `Iterator for Head`: each `next` is a `pop`, so iteration drains the list from the front. */
  method DrainNext<T>(h: Head<T>) returns (r: Option<T>)
    modifies h
    ensures Popped(h.link, r) == PoppedFront(old(h.link))
    ensures old(h.Contents()) == [] ==> r == None && h.Contents() == []
    ensures old(h.Contents()) != [] ==> r == Some(old(h.Contents())[0]) && h.Contents() == old(h.Contents())[1..]
  {
    r := h.Pop();
  }

  /** Draining a list yields its values front to back and leaves it empty. */
  method DrainAll<T>(h: Head<T>) returns (out: seq<T>)
    modifies h
    ensures out == old(h.Contents())
    ensures h.Contents() == [] && h.Len() == 0
  {
    out := [];
    while true
      invariant out + h.Contents() == old(h.Contents())
      decreases |h.Contents()|
    {
      var r := DrainNext(h);
      if r == None {
        break;
      }
      out := out + [r.value];
    }
  }

  /**
   * Building a list with `from_iter` (every item pushed to the front) and
   * draining it hands the items back in reverse order, and the list ends empty.
   */
  method FromIterThenDrain<T>(items: seq<T>) returns (out: seq<T>, lenAfter: nat)
    ensures out == Reverse(items)
    ensures |out| == |items|
    ensures lenAfter == 0
  {
    var h := Head.FromIter(items);
    out := DrainAll(h);
    lenAfter := h.Len();
  }

  /** `HeadIter`: a shared iterator holding the handle (`&Head<T>`) it will read next. */
  class HeadIter<T> {
    var cursor: Link<T>

    function Remaining(): seq<T>
      reads this
    {
      Elems(cursor)
    }

    /** `Head::iter`: an iterator over `h` from its first node. */
    constructor (h: Head<T>)
      ensures cursor == h.link
      ensures Remaining() == h.Contents()
    {
      cursor := h.link;
    }

    /**
     * `HeadIter::next`: nothing on an empty handle (which stays as it is);
     * otherwise the first node's value, moving on to the node's tail.
     */
    method Next() returns (r: Option<T>)
      modifies this
      ensures old(cursor) == Nil ==> r == None && cursor == Nil
      ensures old(cursor) != Nil ==> r == Some(old(cursor).node.value) && cursor == old(cursor).node.next
      ensures old(Remaining()) != [] ==> r == Some(old(Remaining())[0]) && Remaining() == old(Remaining())[1..]
    {
      match cursor
      case Nil =>
        r := None;
      case Box(node) =>
        var Node(next, value) := node;
        cursor := next;
        r := Some(value);
    }
  }

  /**
   * A full `HeadIter` traversal (the order the `Debug` rendering lists)
   * yields the handle's values in order without changing the handle.
   */
  method CollectHeadIter<T>(h: Head<T>) returns (out: seq<T>)
    ensures out == h.Contents()
    ensures |out| == h.Len()
  {
    var it := new HeadIter(h);
    out := [];
    while true
      invariant out + it.Remaining() == h.Contents()
      decreases |it.Remaining()|
    {
      var r := it.Next();
      if r == None {
        break;
      }
      out := out + [r.value];
    }
  }

  /**
   * The `main` scenario: push 1, 2, 3; the length is 3; four pops give
   * 3, 2, 1 and then nothing; the length is 0 before and after that last pop.
   */
  method PushPopScenario() returns (lenFull: nat, pops: seq<Option<int>>, lenEmpty: nat, lenAfterExtraPop: nat)
    ensures lenFull == 3
    ensures pops == [Some(3), Some(2), Some(1), None]
    ensures lenEmpty == 0 && lenAfterExtraPop == 0
  {
    var head := new Head();
    head.Push(1);
    head.Push(2);
    head.Push(3);
    lenFull := head.Len();
    var a := head.Pop();
    var b := head.Pop();
    var c := head.Pop();
    lenEmpty := head.Len();
    var d := head.Pop();
    lenAfterExtraPop := head.Len();
    pops := [a, b, c, d];
  }
}
