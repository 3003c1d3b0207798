/**
 The circular doubly-linked list with a sentinel of local_include/dll.h: the links live in the
 elements. The ghost sequence `s` is the elements in order from the head.
 */
module Dll {

  class Link<T> {
    var next: Link?<T>
    var prev: Link?<T>
    const item: T

    constructor (item: T)
      ensures this.item == item
    {
      this.item := item;
      next, prev := null, null;
    }
  }

  /** Position 0 and position |s| + 1 of the ring are both the head. */
  ghost function Node<T>(head: Link<T>, s: seq<Link<T>>, i: nat): Link<T> {
    if 1 <= i <= |s| then s[i - 1] else head
  }

  ghost predicate Distinct<T>(head: Link<T>, s: seq<Link<T>>) {
    && head !in s
    && forall i, j :: 0 <= i < j < |s| ==> s[i] != s[j]
  }

  /** The elements at positions `i` and `i + 1` point at each other. */
  ghost predicate Linked<T>(head: Link<T>, s: seq<Link<T>>, i: nat)
    reads head, s
  {
    Node(head, s, i).next == Node(head, s, i + 1) && Node(head, s, i + 1).prev == Node(head, s, i)
  }

  /** From `head` the list goes through `s` and back, and every prev undoes a next. */
  ghost predicate IsList<T>(head: Link<T>, s: seq<Link<T>>)
    reads head, s
  {
    && Distinct(head, s)
    && (forall i: nat :: i <= |s| ==> Linked(head, s, i))
  }

  /** dll_init */
  method Init<T>(head: Link<T>)
    modifies head
    ensures IsList(head, [])
  {
    head.next, head.prev := head, head;
  }

  predicate Empty<T>(head: Link<T>)
    reads head
  {
    head.next == head
  }

  lemma EmptyIsEmpty<T>(head: Link<T>, s: seq<Link<T>>)
    requires IsList(head, s)
    ensures Empty(head) <==> s == []
    ensures if s == [] then head.next == head == head.prev else head.next == s[0] && head.prev == s[|s| - 1]
  {
    assert Linked(head, s, 0) && Linked(head, s, |s|);
  }

  /** dll_enter: append. Only the head, the new element and the last element are written. */
  method Enter<T>(head: Link<T>, elt: Link<T>, ghost s: seq<Link<T>>)
    requires IsList(head, s) && elt != head && elt !in s
    modifies head, elt, if s == [] then {} else {s[|s| - 1]}
    ensures IsList(head, s + [elt])
  {
    EmptyIsEmpty(head, s);
    if Empty(head) {
      head.next := elt;
      head.prev := elt;
      elt.next := head;
      elt.prev := head;
    } else {
      var prev := head.prev;
      elt.prev := prev;
      elt.next := head;
      head.prev := elt;
      prev.next := elt;
    }
    ghost var s' := s + [elt];
    forall i: nat | i <= |s'| ensures Linked(head, s', i) {
      if i < |s| {
        assert old(Linked(head, s, i));
        assert Node(head, s', i) == Node(head, s, i) && Node(head, s', i + 1) == Node(head, s, i + 1);
      }
    }
  }

  /** dll_enter_first: prepend. */
  method EnterFirst<T>(head: Link<T>, elt: Link<T>, ghost s: seq<Link<T>>)
    requires IsList(head, s) && elt != head && elt !in s
    modifies head, elt, if s == [] then {} else {s[0]}
    ensures IsList(head, [elt] + s)
  {
    EmptyIsEmpty(head, s);
    if Empty(head) {
      head.next := elt;
      head.prev := elt;
      elt.next := head;
      elt.prev := head;
    } else {
      var next := head.next;
      elt.prev := head;
      elt.next := next;
      head.next := elt;
      next.prev := elt;
    }
    ghost var s' := [elt] + s;
    forall i: nat | i <= |s'| ensures Linked(head, s', i) {
      if i >= 2 {
        assert old(Linked(head, s, i - 1));
        assert Node(head, s', i) == Node(head, s, i - 1) && Node(head, s', i + 1) == Node(head, s, i);
      }
    }
  }

  /** dll_remove: only the two neighbours are written. */
  method Remove<T>(head: Link<T>, elt: Link<T>, ghost s: seq<Link<T>>, ghost k: nat, ghost rest: seq<Link<T>>)
    requires IsList(head, s) && k < |s| && s[k] == elt && rest == s[..k] + s[k + 1..]
    modifies Node(head, s, k), Node(head, s, k + 2)
    ensures IsList(head, rest)
  {
    assert Linked(head, s, k) && Linked(head, s, k + 1);
    var next, prev := elt.next, elt.prev;
    next.prev := prev;
    prev.next := next;
    forall i: nat | i <= |rest| ensures Linked(head, rest, i) {
      var j := if i < k then i else i + 1;
      assert old(Linked(head, s, j));
      assert Node(head, rest, i + 1) == Node(head, s, j + 1);
      assert i != k ==> Node(head, rest, i) == Node(head, s, j);
    }
  }

  /** dll_remove_first on a list that is not empty. */
  method RemoveFirst<T>(head: Link<T>, ghost s: seq<Link<T>>) returns (elt: Link<T>)
    requires IsList(head, s) && s != []
    modifies head, Node(head, s, 2)
    ensures elt == s[0] && IsList(head, s[1..])
  {
    EmptyIsEmpty(head, s);
    elt := head.next;
    assert s[1..] == s[..0] + s[1..];
    Remove(head, elt, s, 0, s[1..]);
  }

  /** dll_assign moves a list to a new head exactly when it is not empty: on an empty list the
      macro writes the old head through its own links. */
  method Assign<T>(to: Link<T>, from: Link<T>, ghost s: seq<Link<T>>)
    requires IsList(from, s) && to != from && to !in s
    modifies to, from, if s == [] then {} else {s[0], s[|s| - 1]}
    ensures IsList(to, s) <==> s != []
  {
    EmptyIsEmpty(from, s);
    from.prev.next := to;
    from.next.prev := to;
    to.next, to.prev := from.next, from.prev;
    if s == [] {
      assert !Linked(to, s, 0);
    } else {
      forall i: nat | i <= |s| ensures Linked(to, s, i) {
        assert old(Linked(from, s, i));
      }
    }
  }
}
