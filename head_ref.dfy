/**
 * `HeadRef` (src/head_ref.rs): a shared cursor over a chain. It holds the
 * node it will read next, or nothing, and each step reads that node's value
 * and moves on to the node's tail. The chain itself is only read: the cursor
 * holds the remaining chain as a value and nothing it does reaches the owner.
 */
module HeadRefs {
  import opened Nodes

  class HeadRef<T> {
    /** The node the cursor stands on (`Option<&Node<T>>`), as the link to it. */
    var cursor: Link<T>

    /** The values still to be read, front to back. */
    function Remaining(): seq<T>
      reads this
    {
      Elems(cursor)
    }

    /** A cursor standing on the first node of `first`. */
    constructor (first: Link<T>)
      ensures cursor == first
    {
      cursor := first;
    }

    /**
     * `HeadRef::pop`: take the node off the cursor; with none, stay empty and
     * give nothing; otherwise read its value and stand on its tail.
     */
    method Pop() returns (r: Option<T>)
      modifies this
      ensures old(cursor) == Nil ==> r == None && cursor == Nil
      ensures old(cursor) != Nil ==> r == Some(old(cursor).node.value) && cursor == old(cursor).node.next
      ensures old(Remaining()) == [] ==> Remaining() == []
      ensures old(Remaining()) != [] ==> r == Some(old(Remaining())[0]) && Remaining() == old(Remaining())[1..]
    {
      var taken := cursor;
      cursor := Nil;
      match taken
      case Nil =>
        return None;
      case Box(node) =>
        cursor := node.next;
        return Some(node.value);
    }

    /** `Iterator::next`: one `pop`. */
    method Next() returns (r: Option<T>)
      modifies this
      ensures old(Remaining()) == [] ==> r == None && Remaining() == []
      ensures old(Remaining()) != [] ==> r == Some(old(Remaining())[0]) && Remaining() == old(Remaining())[1..]
    {
      r := Pop();
    }
  }

  /**
   * Reading a chain with a fresh `HeadRef` until it gives nothing yields
   * every value exactly once, front to back: `Len(first)` values in all.
   */
  method CollectRef<T>(first: Link<T>) returns (out: seq<T>)
    ensures out == Elems(first)
    ensures |out| == Len(first)
  {
    var it := new HeadRef(first);
    out := [];
    while true
      invariant out + it.Remaining() == Elems(first)
      decreases |it.Remaining()|
    {
      var r := it.Next();
      if r == None {
        break;
      }
      out := out + [r.value];
    }
  }

  /** Once the cursor has given nothing, it keeps giving nothing. */
  method PopAfterEnd<T>(first: Link<T>) returns (r1: Option<T>, r2: Option<T>)
    ensures first == Nil ==> r1 == None && r2 == None
    ensures first != Nil ==> r1 == Some(first.node.value)
    ensures Len(first) <= 1 ==> r2 == None
  {
    var it := new HeadRef(first);
    r1 := it.Pop();
    r2 := it.Pop();
  }
}
