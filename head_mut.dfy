/**
 * `HeadMut` (src/head_mut.rs): an exclusive cursor over the chain of a
 * `Head`, created by `Head::iter_mut` (src/head.rs:61-63). Each step hands
 * out a mutable slot for the value of the node the cursor stands on and
 * moves on to that node's tail.
 *
 * A mutable reference into the owner's chain is modelled as the position of
 * its node: `pos` counts the slots handed out so far, so the cursor stands on
 * node `pos`, and writing slot `i` rewrites the value of node `i` in the
 * owner. Nothing else can reach the owner while the cursor lives, which the
 * model reflects by letting only `Set` modify it.
 */
module HeadMuts {
  import opened Nodes
  import opened Heads

  class HeadMut<T> {
    /** The list whose chain is traversed. */
    const owner: Head<T>
    /** The number of slots handed out: the cursor stands on node `pos`. */
    var pos: nat

    ghost predicate Valid()
      reads this, owner
    {
      pos <= |owner.Contents()|
    }

    /** The chain from the node the cursor stands on (`Option<&mut Node<T>>`). */
    function Cursor(): Link<T>
      reads this, owner
      requires Valid()
    {
      Skip(owner.link, pos)
    }

    /** `Head::iter_mut`: a cursor standing on the first node of `h`. */
    constructor (h: Head<T>)
      ensures owner == h && pos == 0
      ensures Valid() && Cursor() == h.link
    {
      owner := h;
      pos := 0;
    }

    /**
     * `HeadMut::pop`: with no node under the cursor, give nothing and stay
     * empty; otherwise hand out the slot of the node's value and stand on the
     * node's tail. The owner's chain is not changed.
     */
    method Pop() returns (slot: Option<nat>)
      requires Valid()
      modifies this
      ensures Valid()
      ensures old(Cursor()) == Nil ==> slot == None && Cursor() == Nil && pos == old(pos)
      ensures old(Cursor()) != Nil ==>
        && slot == Some(old(pos))
        && pos == old(pos) + 1
        && Cursor() == old(Cursor()).node.next
        && owner.Contents()[slot.value] == old(Cursor()).node.value
    {
      var taken := Cursor();
      match taken
      case Nil =>
        return None;
      case Box(node) =>
        SkipNext(owner.link, pos);
        pos := pos + 1;
        return Some(pos - 1);
    }

    /** `Iterator::next`: one `pop`. */
    method Next() returns (slot: Option<nat>)
      requires Valid()
      modifies this
      ensures Valid()
      ensures old(pos) == |owner.Contents()| ==> slot == None && pos == old(pos)
      ensures old(pos) < |owner.Contents()| ==> slot == Some(old(pos)) && pos == old(pos) + 1
    {
      slot := Pop();
    }

    /** Reading through a slot handed out earlier gives that node's value. */
    function Get(slot: nat): (v: T)
      reads this, owner
      requires Valid() && slot < pos
      ensures v == owner.Contents()[slot]
    {
      ValueAt(owner.link, slot)
    }

    /**
     * Writing `v` through a slot handed out earlier: that element of the
     * owner changes and no other, the length stays, and the nodes still
     * ahead of the cursor are untouched.
     */
    method Set(slot: nat, v: T)
      requires Valid() && slot < pos
      modifies owner
      ensures owner.link == SetAt(old(owner.link), slot, v)
      ensures owner.Contents() == old(owner.Contents())[slot := v]
      ensures Valid() && Cursor() == old(Cursor())
    {
      SkipSetAt(owner.link, slot, pos, v);
      owner.link := SetAt(owner.link, slot, v);
    }
  }

  /**
   * A full traversal with `iter_mut` visits every node exactly once, front to
   * back, starting from the first: the slots handed out are 0, 1, ..., len - 1.
   */
  method VisitedSlots<T>(h: Head<T>) returns (slots: seq<nat>)
    ensures |slots| == h.Len()
    ensures forall k :: 0 <= k < |slots| ==> slots[k] == k
  {
    var it := new HeadMut(h);
    slots := [];
    while true
      invariant it.owner == h && it.Valid()
      invariant |slots| == it.pos
      invariant forall k :: 0 <= k < |slots| ==> slots[k] == k
      decreases |h.Contents()| - it.pos
    {
      var s := it.Next();
      if s == None {
        break;
      }
      slots := slots + [s.value];
    }
  }
}
