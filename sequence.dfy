/** `LinkedSequence`: a list of pending moves that `convert` turns into a
    circular singly-linked ring, read at its head and rotated by `step`.
    The nodes live in an arena: `values[j]` is node j's value and `next[j]`
    the index of its successor; `head` is the index of the head node. */
module Sequence {

  /** The observable state: the pending list, the ring's values in link
      order starting from the first node built, and the cursor (the head's
      position in that order). An empty ring is a null head. */
  datatype View = View(pending: seq<int>, ring: seq<int>, cursor: nat)

  ghost predicate Wf(v: View)
  {
    if v.ring == [] then v.cursor == 0 else v.cursor < |v.ring|
  }

  /** The value at the head of a non-empty ring. */
  function Head(v: View): int
    requires Wf(v) && v.ring != []
  {
    v.ring[v.cursor]
  }

  /** `convert`: a non-empty pending list becomes the new ring, headed by its
      first entry; an empty one changes nothing. */
  function Converted(v: View): (r: View)
    requires Wf(v)
    ensures Wf(r) && r.pending == []
    ensures v.pending == [] ==> r == v
    ensures v.pending != [] ==> r.ring == v.pending && r.cursor == 0 && Head(r) == v.pending[0]
  {
    if v.pending == [] then v else View([], v.pending, 0)
  }

  /** `step`: the head moves along its link; nothing happens on an empty ring. */
  function Advanced(v: View): (r: View)
    requires Wf(v)
    ensures Wf(r) && r.pending == v.pending && r.ring == v.ring
    ensures v.ring != [] ==> r.cursor == (v.cursor + 1) % |v.ring|
  {
    if v.ring == [] then v
    else View(v.pending, v.ring, if v.cursor + 1 < |v.ring| then v.cursor + 1 else 0)
  }

  /** `step` called k times. */
  function AdvancedBy(v: View, k: nat): View
    requires Wf(v)
  {
    if k == 0 then v else Advanced(AdvancedBy(v, k - 1))
  }

  lemma {:induction false} AdvancedByCursor(v: View, k: nat)
    requires Wf(v)
    ensures Wf(AdvancedBy(v, k))
    ensures AdvancedBy(v, k).pending == v.pending && AdvancedBy(v, k).ring == v.ring
    ensures v.ring != [] ==> AdvancedBy(v, k).cursor == (v.cursor + k) % |v.ring|
    ensures v.ring == [] ==> AdvancedBy(v, k) == v
  {
    if k > 0 {
      AdvancedByCursor(v, k - 1);
      if v.ring != [] {
        ModSuccessor(v.cursor + k - 1, |v.ring|);
      }
    }
  }

  lemma MulAtLeast(d: int, n: int)
    requires d >= 1 && n > 0
    ensures d * n >= n
  {
  }

  lemma ModUnique(a: int, n: int, q: int, r: int)
    requires n > 0 && 0 <= r < n && a == q * n + r
    ensures a % n == r
  {
    var q', r' := a / n, a % n;
    assert a == q' * n + r';
    assert (q - q') * n == r' - r;
    if q - q' >= 1 {
      MulAtLeast(q - q', n);
    } else if q' - q >= 1 {
      MulAtLeast(q' - q, n);
    }
  }

  lemma ModAddN(x: nat, n: nat)
    requires n > 0
    ensures (x + n) % n == x % n
  {
    ModUnique(x + n, n, x / n + 1, x % n);
  }

  lemma {:induction false} ModSuccessor(a: nat, n: nat)
    requires n > 0
    ensures (a % n + 1) % n == (a + 1) % n
    decreases a
  {
    if a >= n {
      ModAddN(a - n, n);
      ModAddN(a + 1 - n, n);
      ModSuccessor(a - n, n);
    }
  }

  /** After converting a non-empty pending list d and stepping k times, the
      head holds d[k mod |d|]: the ring replays d in insertion order. */
  lemma PlaysInOrder(v: View, k: nat)
    requires Wf(v) && v.pending != []
    ensures Wf(AdvancedBy(Converted(v), k))
    ensures AdvancedBy(Converted(v), k).ring != []
    ensures Head(AdvancedBy(Converted(v), k)) == v.pending[k % |v.pending|]
  {
    AdvancedByCursor(Converted(v), k);
  }

  /** Stepping once per entry brings the head back where it was. */
  lemma FullTurn(v: View)
    requires Wf(v)
    ensures AdvancedBy(v, |v.ring|) == v
  {
    AdvancedByCursor(v, |v.ring|);
    if v.ring != [] {
      var w := AdvancedBy(v, |v.ring|);
      ModAddN(v.cursor, |v.ring|);
      ModUnique(v.cursor, |v.ring|, 0, v.cursor);
      assert w.cursor == v.cursor;
    }
  }

  /** The ring the `convert` loop links up: node j points to node j + 1,
      the last node back to the first. */
  ghost predicate IsRing(next: seq<nat>)
  {
    forall j :: 0 <= j < |next| ==> next[j] == if j + 1 < |next| then j + 1 else 0
  }

  class LinkedSequence {
    var data: seq<int>
    var values: seq<int>
    var next: seq<nat>
    var head: nat

    ghost predicate Valid()
      reads this
    {
      |next| == |values| && IsRing(next) && Wf(Abs())
    }

    ghost function Abs(): View
      reads this
    {
      View(data, values, head)
    }

    /** `LinkedSequence()`: no pending moves, null head. */
    constructor ()
      ensures Valid() && Abs() == View([], [], 0)
    {
      data, values, next, head := [], [], [], 0;
    }

    /** `LinkedSequence(init_data)`: the list converted at once. */
    constructor FromData(init: seq<int>)
      ensures Valid() && Abs() == Converted(View(init, [], 0))
    {
      data, values, next, head := init, [], [], 0;
      new;
      Convert();
    }

    /** `add_move`: appends to the pending list; the ring is not touched. */
    method AddMove(move: int)
      requires Valid()
      modifies this
      ensures Valid() && Abs() == old(Abs()).(pending := old(data) + [move])
      ensures next == old(next)
    {
      data := data + [move];
    }

    /** `convert`: builds the nodes one by one, linking each to the next and
        the last to the first, then clears the pending list. */
    method Convert()
      requires Valid()
      modifies this
      ensures Valid() && Abs() == Converted(old(Abs()))
    {
      if data == [] {
        return;
      }
      var nodeValues: seq<int> := [];
      var links: seq<nat> := [];
      for i := 0 to |data|
        invariant nodeValues == data[..i]
        invariant |links| == i
        invariant forall j :: 0 <= j < i ==> links[j] == if j + 1 < |data| then j + 1 else 0
      {
        nodeValues := nodeValues + [data[i]];
        if i < |data| - 1 {
          links := links + [i + 1];
        } else {
          links := links + [0];
        }
      }
      values, next, head := nodeValues, links, 0;
      data := [];
    }

    /** `get_data`: the head's value; a null head is not allowed. */
    method GetData() returns (v: int)
      requires Valid() && values != []
      ensures v == Head(Abs())
    {
      v := values[head];
    }

    /** `step`: follows the head's link; a no-op on a null head. */
    method Step()
      requires Valid()
      modifies this
      ensures Valid() && Abs() == Advanced(old(Abs()))
      ensures next == old(next)
    {
      if values != [] {
        head := next[head];
      }
    }
  }
}
