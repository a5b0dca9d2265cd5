# A singly-linked list of owned nodes, modelled in Dafny

The repository builds a generic singly-linked list out of recursively owned
nodes. The list handle `Head<T>` holds an optional boxed first `Node<T>`;
each node holds a value and owns its tail, which is again a `Head<T>`. The
handle offers O(1) `push`/`pop`/`first` at the front, a recursive `len`,
recursive O(n) `push_back`/`pop_back`, and bulk construction (`from_iter`,
`extend`) that pushes every item to the front and so reverses the input.
Three families of iterators walk the chain: shared cursors (`HeadRef`,
`HeadIter`, `Iter`), exclusive cursors (`HeadMut`, `IterMut`) that hand out
mutable slots, and owning iterators that drain the list from the front
(`IntoIter`, and `Head` itself in the draft `src/main.rs`).

Files and modules:

- `node.dfy`, module `Nodes` (src/node.rs): the chain as inductive values,
  `Link<T> = Nil | Box(node)` for `Option<Box<Node<T>>>` and
  `Node<T> = Node(next, value)`; `Elems` maps a chain to the sequence it
  stands for; `Len`/`NodeLen` are the mutually recursive `Head::len` and
  `Node::len`; `Deref`/`DerefMut` project the value.
- `head.dfy`, module `Heads` (src/head.rs): the class `Head` whose field
  `link` the methods replace in place, and the pure functions that specify
  each method (`Pushed`, `PoppedFront`, `PushedBack`, `PoppedBack`) with the
  lemmas that relate them.
- `head_ref.dfy`, `head_mut.dfy`, `iter.dfy`: the cursor classes, one module
  per source file, each with a method that runs a full traversal and states
  what it yields.
- `main.dfy`, module `Draft` (src/main.rs): the draining `Iterator for
  Head`, `HeadIter`, and the `main` scenario. The draft's `new`, `len`,
  `push` and `pop` are the same code as in src/head.rs and are modelled once,
  by `Heads.Head`.

A node is owned by exactly one predecessor, so a chain is a finite acyclic
value and an in-place change to it is indistinguishable from replacing it by
the changed value; the handle and the cursors are objects whose fields hold
such values. An exclusive cursor hands out a mutable reference into the
owner's chain; the model represents that reference by the position of its
node in the owner, and writing through it rewrites that node's value.

Bulk construction pushes every item to the front (src/head.rs:80-85), so it
reverses its input.

## Model

| member | source | states |
|---|---|---|
| `Nodes.NewNode` | src/node.rs:10-15 | a new node holds exactly its value: its sequence is `[v]` and its length 1 |
| `Nodes.NodeLen` | src/node.rs:17-19 | `Node::len` is the length of the sequence starting at the node, hence at least 1 |
| `Nodes.Len` | src/main.rs:12-17 | `len` of a handle (also a tail handle) is the length of its sequence, and is 0 exactly when the handle holds no node |
| `Nodes.LenIsReachable` | src/node.rs:17-19 | following `next` from the handle reaches a node at each of the first `len` steps and the empty tail at step `len`, so `len` counts exactly the reachable nodes |
| `Nodes.Deref` | src/node.rs:22-28 | a node dereferences to its value, the first element of its sequence |
| `Nodes.DerefMut` | src/node.rs:30-34 | writing through `deref_mut` changes only the value: the first element is replaced, tail and length unchanged |
| `Nodes.SetAt` | src/head_mut.rs:10-12 | writing a value through the slot of node `i` gives the old sequence with element `i` replaced and nothing else changed |
| `Nodes.SkipSetAt` | src/head_mut.rs:10-12 | a write through an earlier slot leaves the chain ahead of the cursor untouched |
| `Heads.Pushed` | src/head.rs:20-25 | `push(v)` gives sequence `[v] + old` and length `old + 1` |
| `Heads.PoppedFront` | src/head.rs:27-31 | `pop` on an empty list gives nothing and leaves it empty; otherwise gives the first value and leaves the rest, length one less |
| `Heads.PushedBack` | src/head.rs:40-45 | `push_back(v)` gives sequence `old + [v]` and length `old + 1` |
| `Heads.PoppedBack` | src/head.rs:47-55 | `pop_back` on an empty list gives nothing; otherwise gives the last value and leaves all but the last |
| `Heads.PushThenPop` | src/head.rs:20-31 | `push(v)` then `pop()` gives `v` back and restores the original chain exactly |
| `Heads.PushBackThenPopBack` | src/head.rs:40-55 | `push_back(v)` then `pop_back()` gives `v` back and restores the original chain exactly |
| `Heads.PopBackOfSingleton` | src/head.rs:47-55 | on a one-element list `pop_back` is exactly `pop` |
| `Heads.PushBackOnEmpty` | src/head.rs:40-45 | on an empty list `push_back(v)` builds the same one-element list as `push(v)` |
| `Heads.Reverse` | src/head.rs:80-85 | the order produced by pushing items one by one to the front; same length as the input |
| `Heads.ReverseSnoc` | src/head.rs:82-84 | pushing one more item to the front of the reversed prefix gives the reverse of the longer prefix |
| `Heads.ReverseAt` | src/head.rs:72-78 | item `k` of a list built by `from_iter` is the input item `k` places from its end |
| `Heads.Head.constructor` | src/head.rs:9-11 | `new()` is the empty list, with `len` 0 |
| `Heads.Head.Len` | src/head.rs:13-18 | `len` equals the number of elements of the list |
| `Heads.Head.First` | src/head.rs:33-38 | `first` is present exactly when the list is non-empty, and is then its first element |
| `Heads.Head.Push` | src/head.rs:20-25 | the new chain is `Pushed(old, v)`: sequence `[v] + old`, `len` grows by 1, `first()` is `v` |
| `Heads.Head.Pop` | src/head.rs:27-31 | the new chain and result are `PoppedFront(old)`: nothing (and still empty, `len` 0) on an empty list, else the first value, leaving the tail |
| `Heads.Head.PushBack` | src/head.rs:40-45 | the new chain is `PushedBack(old, v)`: sequence `old + [v]`, `len` grows by 1 |
| `Heads.Head.PopBack` | src/head.rs:47-55 | the new chain and result are `PoppedBack(old)`: nothing on empty, else the last value, leaving `old[..n-1]` |
| `Heads.Head.Extend` | src/head.rs:80-85 | pushing each item to the front in order gives `reverse(items) + old`, `len` grows by the item count |
| `Heads.Head.FromIter` | src/head.rs:72-78 | a list built from `items` holds `reverse(items)` |
| `HeadRefs.HeadRef.constructor` | src/head_ref.rs:6 | the cursor stands on the given first node |
| `HeadRefs.HeadRef.Pop` | src/head_ref.rs:9-13 | an empty cursor gives nothing and stays empty; otherwise gives the node's value and moves to its tail |
| `HeadRefs.HeadRef.Next` | src/head_ref.rs:16-22 | `next` removes exactly the first remaining value and yields it, or yields nothing when none remain |
| `HeadRefs.CollectRef` | src/head_ref.rs:9-22 | repeated `next` yields the chain's values front to back, exactly `len` of them |
| `HeadRefs.PopAfterEnd` | src/head_ref.rs:9-10 | once a cursor has given nothing it gives nothing again (fused) |
| `HeadMuts.HeadMut.constructor` | src/head.rs:61-63 | `iter_mut` starts the cursor on the list's first node |
| `HeadMuts.HeadMut.Pop` | src/head_mut.rs:9-13 | an empty cursor gives nothing and stays empty; otherwise hands out the slot of the node's value and moves to its tail, the owner unchanged |
| `HeadMuts.HeadMut.Next` | src/head_mut.rs:16-22 | `next` hands out the next slot, or nothing once every node has been visited |
| `HeadMuts.HeadMut.Get` | src/head_mut.rs:12 | reading through a handed-out slot gives that element of the owner |
| `HeadMuts.HeadMut.Set` | src/head_mut.rs:10-12 | writing through a slot changes that element only; length, other elements and the cursor's position are unchanged |
| `HeadMuts.VisitedSlots` | src/head_mut.rs:9-22 | a full traversal hands out the slots of nodes 0, 1, ..., len-1 in order: each exactly once, from the first node |
| `Iters.IntoIter.constructor` | src/iter.rs:7-13 | the owning iterator takes the whole list |
| `Iters.IntoIter.Next` | src/iter.rs:20-26 | `next` is `pop_front`: nothing and still empty when empty (fused), else the first value, leaving the rest |
| `Iters.CollectIntoIter` | src/iter.rs:15-26 | draining yields the values front to back and a further `next` gives nothing |
| `Iters.Iter.constructor` | src/iter.rs:28-34 | the shared iterator starts on the list's first link |
| `Iters.Iter.Next` | src/iter.rs:40-50 | an empty cursor gives nothing and stays; otherwise yields the node's value and moves to the node's `next` |
| `Iters.CollectIter` | src/iter.rs:40-50 | a full traversal yields the list's values in order |
| `Iters.IterMut.constructor` | src/iter.rs:52-58 | the exclusive iterator starts on the list's first link |
| `Iters.IterMut.Next` | src/iter.rs:63-73 | an empty cursor gives nothing; otherwise hands out the slot of the node's value and moves to the node's `next` |
| `Iters.IterMut.Get` | src/iter.rs:68-70 | reading through a handed-out slot gives that element |
| `Iters.IterMut.Set` | src/iter.rs:68-70 | writing through a slot changes that element only and leaves the cursor where it is |
| `Iters.DoubleEach` | src/iter.rs:88-94 | doubling through every slot doubles every element exactly once, length unchanged |
| `Iters.IterScenario` | src/iter.rs:81-86 | iterating the list 1, 2, 3 yields `[1, 2, 3]` |
| `Iters.IterMutScenario` | src/iter.rs:88-94 | doubling 1, 2, 3 through `IterMut` and draining yields `[2, 4, 6]` |
| `Draft.DrainNext` | src/main.rs:43-49 | `Iterator::next` on a `Head` is `pop`: the first value and the tail, or nothing on an empty list |
| `Draft.DrainAll` | src/main.rs:43-49 | iterating a `Head` to the end yields its values front to back and leaves it empty with `len` 0 |
| `Draft.FromIterThenDrain` | src/head.rs:72-85 | building with `from_iter` and draining returns the items reversed (LIFO) and ends with `len` 0 |
| `Draft.HeadIter.constructor` | src/main.rs:32-34 | `iter()` starts on the handle, its remaining values being the whole list |
| `Draft.HeadIter.Next` | src/main.rs:51-65 | an empty handle gives nothing and stays; otherwise yields the first node's value and moves to its tail |
| `Draft.CollectHeadIter` | src/main.rs:51-65 | a full traversal yields the list in order, `len` values, without modifying it |
| `Draft.PushPopScenario` | src/main.rs:100-121 | after pushing 1, 2, 3 `len` is 3; pops give 3, 2, 1, then nothing; `len` is 0 before and after the extra pop |

## Left out

- The `Debug` impls (src/main.rs:37-41, src/head.rs:66-70) and the `println!` calls: formatting and output. `Draft.CollectHeadIter` states the order they would list.
- `Box` allocation, `Box::into_inner` and allocation failure: nodes are values.
- Recursion depth: `len`, `Node::len`, `push_back`, `pop_back` and the derived `Clone`/`PartialEq` recurse once per node and would overflow the native stack on a very long chain; the model's functions always return.
- Heads.Head.Extend and Heads.Head.FromIter take a finite sequence of items, whereas `extend`/`from_iter` (src/head.rs:73, src/head.rs:81) accept any `IntoIterator`, including one that never ends.
- The recursive `&mut` descent of `push_back`/`pop_back` is modelled by recomputing the chain (`PushedBack`, `PoppedBack`); since every node has a single owner, no other handle could observe the difference.
- Raw `NonNull` dereferences in `Iter`/`IterMut`: cursors are modelled as the remaining chain or as a node position, not as pointers.
- Lifetimes and the borrow checker: reflected only by the frames (a shared cursor holds a value and modifies no owner; an exclusive cursor's slots may only modify its owner).
- The `LinkedList` type of src/iter.rs and `LinkedList::from_iter` are not part of this model; its iterators run over the same node chain, and the test list 1, 2, 3 is built directly (`Iters.OneTwoThree`).
- `LinkedList::pop_front`, whose code is not part of this model, is modelled as removing the first node of the same chain, as `Head::pop` does (`Iters.IntoIter.Next`); `Iters.CollectIntoIter` and `Iters.IterMutScenario` rest on that reading.
- `Head::iter` in src/head.rs:57-59 builds an `Iter` from `&Head`, which does not match `Iter`'s field type; the shared iterators are modelled on their own (`Iters.Iter.constructor`, `Draft.HeadIter.constructor`).
- Derived `Clone` and `PartialEq`: structural copy and equality are those of Dafny datatypes.
- Module wiring and the feature flag in src/lib.rs; `usize` overflow of `len` (lengths are `nat`).
- Iters.DoubleEach: element arithmetic is on unbounded integers, so the `i32` overflow that `*i *= 2` (src/iter.rs:91) would hit for large elements is not modelled.
