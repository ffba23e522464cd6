/** list.h: circular doubly linked lists, threaded through the objects they hold. */
module LinkedLists {
  import opened Sequences

  class Node {
    var next: Node
    var prev: Node

    /** ll_init. */
    constructor ()
      ensures next == this && prev == this && Ring([this])
    {
      next, prev := this, this;
    }
  }

  function After(n: nat, i: nat): nat { if i + 1 == n then 0 else i + 1 }

  /** The node at position i and its successor point at each other. */
  ghost predicate Tied(r: seq<Node>, i: nat)
    requires i < |r|
    reads r
  {
    r[i].next == r[After(|r|, i)] && r[After(|r|, i)].prev == r[i]
  }

  /** A list: its head first, then its elements in order. */
  ghost predicate Ring(r: seq<Node>)
    reads r
  {
    r != [] && NoDup(r) && forall i {:trigger Tied(r, i)} :: 0 <= i < |r| ==> Tied(r, i)
  }

  /** ll_empty. */
  method Empty(list: Node, ghost r: seq<Node>) returns (b: bool)
    requires Ring(r) && list == r[0]
    ensures b <==> r == [list]
  {
    assert Tied(r, 0);
    b := list.next == list;
  }

  ghost function Inserted(r: seq<Node>, i: nat, n: Node): seq<Node>
    requires i < |r|
  {
    r[..i + 1] + [n] + r[i + 1..]
  }

  /** ll_add_after: behind position i; at the head of the list for i = 0. */
  method AddAfter(list: Node, element: Node, ghost r: seq<Node>, ghost i: nat)
    requires Ring(r) && i < |r| && list == r[i] && element !in r
    modifies list, list.next, element
    ensures Ring(Inserted(r, i, element))
  {
    assert Tied(r, i);
    element.next := list.next;
    element.prev := list;
    list.next.prev := element;
    list.next := element;
    ghost var t := Inserted(r, i, element);
    InsertedNoDup(r, i, element);
    forall j | 0 <= j < |t|
      ensures Tied(t, j)
    {
      if j < i {
        assert old(Tied(r, j));
      } else if j > i + 1 {
        assert old(Tied(r, j - 1));
      }
    }
  }

  lemma InsertedNoDup(r: seq<Node>, i: nat, n: Node)
    requires i < |r| && NoDup(r) && n !in r
    ensures NoDup(Inserted(r, i, n))
  {
  }

  /** ll_add_before: in front of position i; at the end of the list for i = 0. */
  method AddBefore(list: Node, element: Node, ghost r: seq<Node>, ghost i: nat)
    requires Ring(r) && i < |r| && list == r[i] && element !in r
    modifies list, list.prev, element
    ensures Ring(Inserted(r, if i == 0 then |r| - 1 else i - 1, element))
  {
    ghost var h := if i == 0 then |r| - 1 else i - 1;
    assert Tied(r, h);
    element.next := list;
    element.prev := list.prev;
    list.prev.next := element;
    list.prev := element;
    ghost var t := Inserted(r, h, element);
    InsertedNoDup(r, h, element);
    forall j | 0 <= j < |t|
      ensures Tied(t, j)
    {
      if j < h {
        assert old(Tied(r, j));
      } else if j > h + 1 {
        assert old(Tied(r, j - 1));
      }
    }
  }

  ghost function Removed(r: seq<Node>, i: nat): seq<Node>
    requires 0 < i < |r|
  {
    r[..i] + r[i + 1..]
  }

  /** On the elements, without the head, this is removal from a sequence. */
  lemma RemovedElements(r: seq<Node>, i: nat)
    requires NoDup(r) && 0 < i < |r|
    ensures Removed(r, i)[1..] == Without(r[1..], r[i])
  {
    var s := r[1..];
    assert NoDup(s) && s[i - 1] == r[i];
    WithoutAt(s, i - 1);
    assert Removed(r, i)[1..] == s[..i - 1] + s[i..];
  }

  /** ll_remove: the element leaves the ring and keeps its stale pointers. */
  method Remove(element: Node, ghost r: seq<Node>, ghost i: nat)
    requires Ring(r) && 0 < i < |r| && element == r[i]
    modifies element.next`prev, element.prev`next
    ensures Ring(Removed(r, i)) && element !in Removed(r, i)
    ensures element.next == old(element.next) && element.prev == old(element.prev)
  {
    assert Tied(r, i - 1) && Tied(r, i);
    element.next.prev := element.prev;
    element.prev.next := element.next;
    ghost var t := Removed(r, i);
    forall j | 0 <= j < |t|
      ensures Tied(t, j)
    {
      if j < i - 1 {
        assert old(Tied(r, j));
      } else if j >= i {
        assert old(Tied(r, j + 1));
      }
    }
    assert forall j :: 0 <= j < |t| ==> t[j] == r[if j < i then j else j + 1];
  }

  /** No node is in both lists. */
  ghost predicate Apart(a: seq<Node>, b: seq<Node>) { forall i, j :: 0 <= i < |a| && 0 <= j < |b| ==> a[i] != b[j] }

  /** The first element of one list is moved to the end of another; the successor saved before is still the
      first element afterwards, or the head if there is none. */
  method MoveFirst(list: Node, other: Node, element: Node, ghost r: seq<Node>, ghost q: seq<Node>) returns (next: Node)
    requires Ring(r) && Ring(q) && Apart(r, q) && list == r[0] && other == q[0] && |r| > 1 && element == r[1]
    modifies r, q
    ensures Ring(Removed(r, 1)) && Ring(q + [element]) && Apart(Removed(r, 1), q + [element])
    ensures next == Removed(r, 1)[After(|r| - 1, 0)]
  {
    assert Tied(r, 1) && Tied(r, 0);
    next := element.next;
    Remove(element, r, 1);
    ghost var t := Removed(r, 1);
    assert forall j :: 0 <= j < |t| ==> t[j] == r[if j < 1 then j else j + 1];
    forall j | 0 <= j < |q|
      ensures Tied(q, j)
    {
      assert old(Tied(q, j));
    }
    AppendTo(other, element, q, t);
  }

  method AppendTo(other: Node, element: Node, ghost q: seq<Node>, ghost r: seq<Node>)
    requires Ring(q) && other == q[0] && Ring(r) && Apart(r, q) && element !in q && element !in r
    modifies q, element
    ensures Ring(r) && Ring(q + [element]) && Apart(r, q + [element])
  {
    assert Tied(q, |q| - 1);
    AddBefore(other, element, q, 0);
    assert Inserted(q, |q| - 1, element) == q + [element];
    forall j | 0 <= j < |r|
      ensures Tied(r, j)
    {
      assert old(Tied(r, j));
    }
  }

  /** queueWakeup over threads: LL_FOR_EACH_SAFE whose body moves each element to the end of another list.
      Every element is visited once, in order, though it leaves the list while it is visited. */
  method MoveAll(list: Node, other: Node, ghost r: seq<Node>, ghost q: seq<Node>)
    requires Ring(r) && Ring(q) && Apart(r, q) && list == r[0] && other == q[0]
    modifies r, q
    ensures Ring([list]) && Ring(q + r[1..])
  {
    ghost var i := 1;
    assert Tied(r, 0);
    assert [list] + r[1..] == r && q + r[1..1] == q;
    var element := list.next;
    while element != list
      invariant 1 <= i <= |r| && Ring([list] + r[i..]) && Ring(q + r[1..i]) && Apart([list] + r[i..], q + r[1..i])
      invariant element == if i < |r| then r[i] else list
      decreases |r| - i
    {
      ghost var rest, moved := [list] + r[i..], q + r[1..i];
      assert rest[1] == r[i];
      element := MoveFirst(list, other, element, rest, moved);
      assert Removed(rest, 1) == [list] + r[i + 1..];
      assert moved + [r[i]] == q + r[1..i + 1];
      i := i + 1;
    }
    assert [list] + r[i..] == [list] && r[1..i] == r[1..];
  }
}
