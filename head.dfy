/**
 * The list handle `Head` (src/head.rs; the earlier draft in src/main.rs has
 * the same `new`, `len`, `push` and `pop`).
 *
 * The handle is an object whose one field, `link`, the operations replace
 * in place. Each operation is specified by a pure function on links
 * (`Pushed`, `PoppedFront`, `PushedBack`, `PoppedBack`); the lemmas below
 * relate those functions to each other and to the abstract sequence.
 */
module Heads {
  import opened Nodes

  /** What a pop leaves behind, and what it hands out. */
  datatype Popped<T> = Popped(rest: Link<T>, value: Option<T>)

  /** The link after `push(v)`: a new first node holding `v` whose tail is the old link. */
  function Pushed<T>(l: Link<T>, v: T): (l': Link<T>)
    ensures Elems(l') == [v] + Elems(l)
    ensures Len(l') == Len(l) + 1
  {
    Box(Node(l, v))
  }

  /** What `pop()` does: nothing on an empty link, else hand out the first value and keep its tail. */
  function PoppedFront<T>(l: Link<T>): (p: Popped<T>)
    ensures Elems(l) == [] ==> p == Popped(Nil, None)
    ensures Elems(l) != [] ==> p.value == Some(Elems(l)[0]) && Elems(p.rest) == Elems(l)[1..]
    ensures Len(p.rest) == if l == Nil then 0 else Len(l) - 1
  {
    match l
    case Nil => Popped(Nil, None)
    case Box(node) => Popped(node.next, Some(node.value))
  }

  /** The link after `push_back(v)`: walk to the empty tail and put a new node there. */
  function PushedBack<T>(l: Link<T>, v: T): (l': Link<T>)
    ensures Elems(l') == Elems(l) + [v]
    ensures Len(l') == Len(l) + 1
  {
    match l
    case Nil => Box(NewNode(v))
    case Box(node) => Box(node.(next := PushedBack(node.next, v)))
  }

  /**
   * What `pop_back()` does: on an empty link, nothing; otherwise pop back the
   * tail first, and when the tail had nothing to give, pop this node itself.
   */
  function PoppedBack<T>(l: Link<T>): (p: Popped<T>)
    ensures Elems(l) == [] ==> p == Popped(Nil, None)
    ensures Elems(l) != [] ==>
      p.value == Some(Elems(l)[|Elems(l)| - 1]) && Elems(p.rest) == Elems(l)[..|Elems(l)| - 1]
  {
    match l
    case Nil => Popped(Nil, None)
    case Box(node) =>
      var inner := PoppedBack(node.next);
      match inner.value
      case None => PoppedFront(Box(node.(next := inner.rest)))
      case Some(t) => Popped(Box(node.(next := inner.rest)), Some(t))
  }

  /** `push(v)` then `pop()` hands back `v` and restores the original link exactly. */
  lemma PushThenPop<T>(l: Link<T>, v: T)
    ensures PoppedFront(Pushed(l, v)) == Popped(l, Some(v))
  {
  }

  /** `push_back(v)` then `pop_back()` hands back `v` and restores the original link exactly. */
  lemma {:induction false} PushBackThenPopBack<T>(l: Link<T>, v: T)
    ensures PoppedBack(PushedBack(l, v)) == Popped(l, Some(v))
  {
    match l
    case Nil =>
    case Box(node) =>
      PushBackThenPopBack(node.next, v);
      assert PushedBack(l, v) == Box(node.(next := PushedBack(node.next, v)));
  }

  /** On a one-element list, `pop_back` is exactly `pop`. */
  lemma PopBackOfSingleton<T>(l: Link<T>)
    requires Len(l) == 1
    ensures PoppedBack(l) == PoppedFront(l)
  {
  }

  /** On an empty list `push_back` is `push`: both give the one-element list. */
  lemma PushBackOnEmpty<T>(v: T)
    ensures PushedBack(Nil, v) == Pushed(Nil, v)
    ensures Elems(PushedBack(Nil, v)) == [v]
  {
  }

  /** The reverse of a sequence: the order that pushing it item by item to the front produces. */
  function Reverse<T>(s: seq<T>): (r: seq<T>)
    ensures |r| == |s|
  {
    if s == [] then [] else Reverse(s[1..]) + [s[0]]
  }

  /** Reversing `s` then appending one more item puts that item first. */
  lemma {:induction false} ReverseSnoc<T>(s: seq<T>, x: T)
    ensures Reverse(s + [x]) == [x] + Reverse(s)
  {
    if s == [] {
      assert Reverse([x]) == Reverse([x][1..]) + [x];
    } else {
      assert (s + [x])[1..] == s[1..] + [x];
      ReverseSnoc(s[1..], x);
    }
  }

  /** The item at position `k` of the reverse is the item `k` places from the end. */
  lemma {:induction false} ReverseAt<T>(s: seq<T>, k: nat)
    requires k < |s|
    ensures Reverse(s)[k] == s[|s| - 1 - k]
  {
    if k < |s| - 1 {
      ReverseAt(s[1..], k);
    }
  }

  /** The list handle: an optional boxed first node, replaced in place by the operations. */
  class Head<T> {
    var link: Link<T>

    /** The handle's sequence, front to back. */
    function Contents(): seq<T>
      reads this
    {
      Elems(link)
    }

    /** `Head::new`: the empty list. */
    constructor ()
      ensures link == Nil
      ensures Contents() == [] && Len() == 0
    {
      link := Nil;
    }

    /** `Head::len`: the number of nodes in the chain. */
    function Len(): (n: nat)
      reads this
      ensures n == |Contents()|
    {
      Nodes.Len(link)
    }

    /** `Head::first`: the first value, or nothing on an empty list. */
    function First(): (r: Option<T>)
      reads this
      ensures r.Some? <==> Contents() != []
      ensures r.Some? ==> r.value == Contents()[0]
    {
      match link
      case Nil => None
      case Box(node) => Some(node.value)
    }

    /** `Head::push`: put a new node holding `v` in front, the old chain becoming its tail. */
    method Push(v: T)
      modifies this
      ensures link == Pushed(old(link), v)
      ensures Contents() == [v] + old(Contents())
      ensures Len() == old(Len()) + 1 && First() == Some(v)
    {
      var next := link;
      link := Box(NewNode(v));
      link := Box(link.node.(next := next));
    }

    /** `Head::pop`: take the first node off, if any, and hand out its value. */
    method Pop() returns (r: Option<T>)
      modifies this
      ensures Popped(link, r) == PoppedFront(old(link))
      ensures old(Contents()) == [] ==> r == None && Contents() == [] && Len() == 0
      ensures old(Contents()) != [] ==> r == Some(old(Contents())[0]) && Contents() == old(Contents())[1..]
    {
      match link
      case Nil =>
        return None;
      case Box(node) =>
        link := Nil;
        link := node.next;
        return Some(node.value);
    }

    /** `Head::push_back`: attach a new node holding `v` at the end of the chain. */
    method PushBack(v: T)
      modifies this
      ensures link == PushedBack(old(link), v)
      ensures Contents() == old(Contents()) + [v]
      ensures Len() == old(Len()) + 1
    {
      link := PushedBack(link, v);
    }

    /** `Head::pop_back`: detach the last node, if any, and hand out its value. */
    method PopBack() returns (r: Option<T>)
      modifies this
      ensures Popped(link, r) == PoppedBack(old(link))
      ensures old(Contents()) == [] ==> r == None && Contents() == []
      ensures old(Contents()) != [] ==>
        var n := |old(Contents())|;
        r == Some(old(Contents())[n - 1]) && Contents() == old(Contents())[..n - 1]
    {
      var p := PoppedBack(link);
      link := p.rest;
      r := p.value;
    }

    /** `Extend::extend`: push every item to the front in turn, so they end up in reverse order. */
    method Extend(items: seq<T>)
      modifies this
      ensures Contents() == Reverse(items) + old(Contents())
      ensures Len() == old(Len()) + |items|
    {
      for i := 0 to |items|
        invariant Contents() == Reverse(items[..i]) + old(Contents())
      {
        assert items[..i + 1] == items[..i] + [items[i]];
        ReverseSnoc(items[..i], items[i]);
        Push(items[i]);
      }
      assert items[..|items|] == items;
    }

    /** `FromIterator::from_iter`: extend a new empty list, so the list holds the items reversed. */
    static method FromIter(items: seq<T>) returns (h: Head<T>)
      ensures fresh(h)
      ensures h.Contents() == Reverse(items)
      ensures h.Len() == |items|
    {
      h := new Head();
      h.Extend(items);
    }
  }
}
