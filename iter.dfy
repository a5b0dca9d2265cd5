/**
 * The iterators of src/iter.rs: the owning `IntoIter`, the shared `Iter` and
 * the exclusive `IterMut`. They are written for a `LinkedList` type whose
 * definition is not part of this model; they are modelled over the same node
 * chain (`Nodes.Link`) as the rest of the project, and `IterMut` over a
 * `Heads.Head` that owns such a chain.
 */
module Iters {
  import opened Nodes
  import opened Heads

  /** The owning iterator: it holds the whole list and drains it from the front. */
  class IntoIter<T> {
    var list: Link<T>

    function Remaining(): seq<T>
      reads this
    {
      Elems(list)
    }

    /** `IntoIterator::into_iter`: take the list by value. */
    constructor (list: Link<T>)
      ensures this.list == list
    {
      this.list := list;
    }

    /**
     * `IntoIter::next`: `pop_front` on the owned list; nothing once it is
     * empty (the iterator is fused), else its first value, leaving the rest.
     */
    method Next() returns (r: Option<T>)
      modifies this
      ensures old(Remaining()) == [] ==> r == None && Remaining() == []
      ensures old(Remaining()) != [] ==> r == Some(old(Remaining())[0]) && Remaining() == old(Remaining())[1..]
    {
      match list
      case Nil =>
        return None;
      case Box(node) =>
        list := node.next;
        return Some(node.value);
    }
  }

  /**
   * Draining a list through `IntoIter` yields its values front to back, and
   * once exhausted a further `next` still gives nothing.
   */
  method CollectIntoIter<T>(l: Link<T>) returns (out: seq<T>, after: Option<T>)
    ensures out == Elems(l)
    ensures after == None
  {
    var it := new IntoIter(l);
    out := [];
    while true
      invariant out + it.Remaining() == Elems(l)
      decreases |it.Remaining()|
    {
      var r := it.Next();
      if r == None {
        break;
      }
      out := out + [r.value];
    }
    after := it.Next();
  }

  /** The shared iterator: a cursor over the link it will read next. */
  class Iter<T> {
    var cursor: Link<T>

    function Remaining(): seq<T>
      reads this
    {
      Elems(cursor)
    }

    /** `IntoIterator for &LinkedList`: a cursor on the list's first link. */
    constructor (first: Link<T>)
      ensures cursor == first
    {
      cursor := first;
    }

    /**
     * `Iter::next`: nothing when the cursor link is empty (and it stays so);
     * otherwise the node's value, the cursor moving to the node's tail.
     */
    method Next() returns (r: Option<T>)
      modifies this
      ensures old(cursor) == Nil ==> r == None && cursor == Nil
      ensures old(cursor) != Nil ==> r == Some(old(cursor).node.value) && cursor == old(cursor).node.next
      ensures old(Remaining()) != [] ==> r == Some(old(Remaining())[0]) && Remaining() == old(Remaining())[1..]
    {
      match cursor
      case Nil =>
        r := None;
      case Box(node) =>
        cursor := node.next;
        r := Some(node.value);
    }
  }

  /** A full `Iter` traversal yields the list's values in order and leaves the list as it was. */
  method CollectIter<T>(l: Link<T>) returns (out: seq<T>)
    ensures out == Elems(l)
  {
    var it := new Iter(l);
    out := [];
    while true
      invariant out + it.Remaining() == Elems(l)
      decreases |it.Remaining()|
    {
      var r := it.Next();
      if r == None {
        break;
      }
      out := out + [r.value];
    }
  }

  /**
   * The exclusive iterator over the chain of `owner`. A handed-out `&mut T`
   * is modelled as the position of its node; `pos` counts those handed out,
   * so the cursor stands on node `pos`. This is the same representation as
   * `HeadMuts.HeadMut` (src/head_mut.rs), with the same `Valid`, `Cursor`,
   * `Get` and `Set`; the two classes stand for the source's two distinct
   * cursor types, which differ only in how `next` is written.
   */
  class IterMut<T> {
    const owner: Head<T>
    var pos: nat

    ghost predicate Valid()
      reads this, owner
    {
      pos <= |owner.Contents()|
    }

    /** The link the cursor refers to (`&mut Option<NonNull<Node<T>>>`). */
    function Cursor(): Link<T>
      reads this, owner
      requires Valid()
    {
      Skip(owner.link, pos)
    }

    /** `IntoIterator for &mut LinkedList`: a cursor on the first link of `h`. */
    constructor (h: Head<T>)
      ensures owner == h && pos == 0
      ensures Valid() && Cursor() == h.link
    {
      owner := h;
      pos := 0;
    }

    /**
     * `IterMut::next`: nothing when the cursor link is empty; otherwise the
     * slot of the node's value, the cursor moving to the node's tail.
     */
    method Next() returns (slot: Option<nat>)
      requires Valid()
      modifies this
      ensures Valid()
      ensures old(Cursor()) == Nil ==> slot == None && pos == old(pos)
      ensures old(Cursor()) != Nil ==>
        && slot == Some(old(pos))
        && pos == old(pos) + 1
        && Cursor() == old(Cursor()).node.next
        && owner.Contents()[slot.value] == old(Cursor()).node.value
    {
      match Cursor()
      case Nil =>
        slot := None;
      case Box(node) =>
        SkipNext(owner.link, pos);
        pos := pos + 1;
        slot := Some(pos - 1);
    }

    /** Reading through a handed-out slot. */
    function Get(slot: nat): (v: T)
      reads this, owner
      requires Valid() && slot < pos
      ensures v == owner.Contents()[slot]
    {
      ValueAt(owner.link, slot)
    }

    /** Writing through a handed-out slot changes that element of the owner and no other. */
    method Set(slot: nat, v: T)
      requires Valid() && slot < pos
      modifies owner
      ensures owner.link == SetAt(old(owner.link), slot, v)
      ensures owner.Contents() == old(owner.Contents())[slot := v]
      ensures Valid() && Cursor() == old(Cursor())
    {
      SkipSetAt(owner.link, slot, pos, v);
      owner.link := SetAt(owner.link, slot, v);
    }
  }

  /** The first `k` elements of `now` are those of `was` doubled; the others are as in `was`. */
  ghost predicate DoubledBelow(now: seq<int>, was: seq<int>, k: nat)
  {
    && |now| == |was| && k <= |was|
    && (forall j :: 0 <= j < k ==> now[j] == 2 * was[j])
    && (forall j :: k <= j < |was| ==> now[j] == was[j])
  }

  /** Doubling element `k` extends the doubled prefix by one. */
  lemma DoubleOneMore(now: seq<int>, was: seq<int>, k: nat)
    requires DoubledBelow(now, was, k) && k < |was|
    ensures DoubledBelow(now[k := 2 * now[k]], was, k + 1)
  {
  }

  /** `iter_mut().for_each(|i| *i *= 2)`: every element is doubled exactly once, none skipped. */
  method DoubleEach(h: Head<int>)
    modifies h
    ensures |h.Contents()| == |old(h.Contents())|
    ensures forall k :: 0 <= k < |h.Contents()| ==> h.Contents()[k] == 2 * old(h.Contents())[k]
  {
    ghost var before := h.Contents();
    var it := new IterMut(h);
    while true
      invariant it.owner == h && it.Valid()
      invariant DoubledBelow(h.Contents(), before, it.pos)
      decreases |before| - it.pos
    {
      var s := it.Next();
      if s == None {
        break;
      }
      var x := it.Get(s.value);
      DoubleOneMore(h.Contents(), before, s.value);
      ghost var now := h.Contents();
      it.Set(s.value, 2 * x);
      assert h.Contents() == now[s.value := 2 * now[s.value]];
    }
  }

  /** The chain 1, 2, 3 in that order. */
  function OneTwoThree(): (l: Link<int>)
    ensures Elems(l) == [1, 2, 3]
  {
    Box(Node(Box(Node(Box(Node(Nil, 3)), 2)), 1))
  }

  /** The `iter` test: iterating the list 1, 2, 3 yields 1, 2, 3. */
  method IterScenario() returns (out: seq<int>)
    ensures out == [1, 2, 3]
  {
    out := CollectIter(OneTwoThree());
  }

  /** The `iter_mut` test: doubling 1, 2, 3 in place, then draining, yields 2, 4, 6. */
  method IterMutScenario() returns (out: seq<int>)
    ensures out == [2, 4, 6]
  {
    var h := new Head();
    h.link := OneTwoThree();
    DoubleEach(h);
    var after;
    out, after := CollectIntoIter(h.link);
  }
}
