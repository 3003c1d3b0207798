/**
 The set of emulator stacks of lib/emul/emul_misc.cc: a move-to-front list, on Dll, of masked
 stack addresses. The mask is any function on addresses.
 */
module Stacks {
  import opened Dll

  type Address = nat

  // The list of keys as a sequence.

  function IndexOf(s: seq<Address>, k: Address): (i: nat)
    requires k in s
    ensures i < |s| && s[i] == k && k !in s[..i]
  {
    if s[0] == k then 0
    else
      assert s[1..][..IndexOf(s[1..], k)] == s[1..IndexOf(s[1..], k) + 1];
      1 + IndexOf(s[1..], k)
  }

  function MoveToFront(s: seq<Address>, k: Address): seq<Address> {
    if k in s then [k] + s[..IndexOf(s, k)] + s[IndexOf(s, k) + 1..] else s
  }

  lemma MoveToFrontPermutes(s: seq<Address>, k: Address)
    ensures multiset(MoveToFront(s, k)) == multiset(s)
  {
    if k in s {
      var i := IndexOf(s, k);
      assert s == s[..i] + [k] + s[i + 1..];
    }
  }

  // Histories.

  datatype Call = AddStack(stack: Address) | ResetTo(stack: Address) | AskMember(stack: Address)

  function After(mask: Address -> Address, s: seq<Address>, call: Call): seq<Address> {
    match call
    case AddStack(a) => [mask(a)] + s
    case ResetTo(a) => [mask(a)]
    case AskMember(a) => MoveToFront(s, mask(a))
  }

  function AfterAll(mask: Address -> Address, calls: seq<Call>): seq<Address> {
    if calls == [] then []
    else After(mask, AfterAll(mask, calls[..|calls| - 1]), calls[|calls| - 1])
  }

  /** Some stack with this key was put in, by an addition or a reset, and no reset came after. */
  ghost predicate PutSinceReset(mask: Address -> Address, calls: seq<Call>, k: Address) {
    exists i :: PutAt(mask, calls, k, i)
  }

  ghost predicate PutAt(mask: Address -> Address, calls: seq<Call>, k: Address, i: int) {
    && 0 <= i < |calls|
    && !calls[i].AskMember? && mask(calls[i].stack) == k
    && forall j :: i < j < |calls| ==> !calls[j].ResetTo?
  }

  lemma AfterAllSnoc(mask: Address -> Address, calls: seq<Call>, call: Call)
    ensures AfterAll(mask, calls + [call]) == After(mask, AfterAll(mask, calls), call)
  {
    assert (calls + [call])[..|calls|] == calls;
  }

  lemma InAfter(mask: Address -> Address, s: seq<Address>, call: Call, k: Address)
    ensures k in After(mask, s, call) <==>
              (!call.AskMember? && mask(call.stack) == k) || (!call.ResetTo? && k in s)
  {
    if call.AskMember? {
      MoveToFrontPermutes(s, mask(call.stack));
      assert k in MoveToFront(s, mask(call.stack)) <==> k in multiset(MoveToFront(s, mask(call.stack)));
      assert k in s <==> k in multiset(s);
    }
  }

  lemma PutStep(mask: Address -> Address, calls: seq<Call>, call: Call, k: Address)
    ensures PutSinceReset(mask, calls + [call], k) <==>
              (!call.AskMember? && mask(call.stack) == k) || (!call.ResetTo? && PutSinceReset(mask, calls, k))
  {
    var all := calls + [call];
    if !call.AskMember? && mask(call.stack) == k {
      assert PutAt(mask, all, k, |calls|);
    }
    if !call.ResetTo? && PutSinceReset(mask, calls, k) {
      var i :| PutAt(mask, calls, k, i);
      assert PutAt(mask, all, k, i);
    }
    if PutSinceReset(mask, all, k) {
      var i :| PutAt(mask, all, k, i);
      if i < |calls| {
        assert all[|calls|] == call;
        forall j | i < j < |calls| ensures !calls[j].ResetTo? {
          assert all[j] == calls[j];
        }
        assert PutAt(mask, calls, k, i);
      }
    }
  }

  /** After any history, a key is in the list exactly when a stack with that key was put in since
      the last reset. */
  lemma {:induction false} MemberIffAdded(mask: Address -> Address, calls: seq<Call>, k: Address)
    ensures k in AfterAll(mask, calls) <==> PutSinceReset(mask, calls, k)
  {
    if calls != [] {
      var n := |calls| - 1;
      assert calls == calls[..n] + [calls[n]];
      MemberIffAdded(mask, calls[..n], k);
      InAfter(mask, AfterAll(mask, calls[..n]), calls[n], k);
      PutStep(mask, calls[..n], calls[n], k);
    }
  }

  class StackSet {
    const head: Link<Address>
    const mask: Address -> Address
    ghost var links: seq<Link<Address>>
    ghost var calls: seq<Call>

    /** The list, and that it is what the calls so far have made of it. */
    ghost predicate Valid()
      reads this, head, links
    {
      IsList(head, links) && Keys() == AfterAll(mask, calls)
    }

    /** The keys, front to back. */
    ghost function Keys(): seq<Address>
      reads this
    {
      Items(links)
    }

    /** The elements are those there were, or new. */
    twostate predicate OnlyNew()
      reads this
    {
      forall l :: l in links ==> l in old(links) || fresh(l)
    }

    /** emul_stacks_init */
    constructor (mask: Address -> Address)
      ensures Valid() && this.mask == mask && calls == []
      ensures fresh(head) && links == []
    {
      this.mask := mask;
      head := new Link<Address>(0);
      links := [];
      calls := [];
      new;
      Init(head);
    }

    /** dll_enter_first of a new element. */
    method Push(key: Address)
      requires IsList(head, links)
      modifies this`links, head, links
      ensures IsList(head, links) && Keys() == [key] + old(Keys()) && OnlyNew()
    {
      var link := new Link<Address>(key);
      EnterFirst(head, link, links);
      ItemsAppend([link], links);
      links := [link] + links;
    }

    /** emul_stacks_add */
    method Add(stack: Address)
      requires Valid()
      modifies this, head, links
      ensures Valid() && OnlyNew() && calls == old(calls) + [AddStack(stack)]
      ensures Keys() == After(mask, old(Keys()), AddStack(stack)) == [mask(stack)] + old(Keys())
    {
      Push(mask(stack));
      AfterAllSnoc(mask, calls, AddStack(stack));
      calls := calls + [AddStack(stack)];
    }

    /** The loop of emul_stacks_reset. */
    method Clear()
      requires IsList(head, links)
      modifies this`links, head, links
      ensures IsList(head, links) && links == []
    {
      while !Empty(head)
        invariant IsList(head, links) && forall l :: l in links ==> l in old(links)
        decreases |links|
      {
        EmptyIsEmpty(head, links);
        assert Node(head, links, 2) == head || Node(head, links, 2) in links;
        var link := RemoveFirst(head, links);
        links := links[1..];
      }
      EmptyIsEmpty(head, links);
    }

    /** emul_stacks_reset */
    method Reset(stack: Address)
      requires Valid()
      modifies this, head, links
      ensures Valid() && OnlyNew() && calls == old(calls) + [ResetTo(stack)]
      ensures Keys() == After(mask, old(Keys()), ResetTo(stack)) == [mask(stack)]
    {
      Clear();
      Push(mask(stack));
      AfterAllSnoc(mask, calls, ResetTo(stack));
      calls := calls + [ResetTo(stack)];
    }

    /** emul_stacks_member: look the key up and, if it is there, bring it to the front. The answer is
        whether the key was put there since the last reset. */
    method Member(stack: Address) returns (found: bool)
      requires Valid()
      modifies this, head, links
      ensures Valid() && OnlyNew() && calls == old(calls) + [AskMember(stack)]
      ensures found <==> PutSinceReset(mask, old(calls), mask(stack))
      ensures Keys() == After(mask, old(Keys()), AskMember(stack))
      ensures found ==>
                exists i :: 0 <= i < |old(Keys())| && old(Keys())[i] == mask(stack)
                            && mask(stack) !in old(Keys())[..i]
                            && Keys() == [mask(stack)] + old(Keys())[..i] + old(Keys())[i + 1..]
      ensures !found ==> Keys() == old(Keys())
    {
      MemberIffAdded(mask, calls, mask(stack));
      AfterAllSnoc(mask, calls, AskMember(stack));
      found := Look(mask(stack));
      calls := calls + [AskMember(stack)];
    }

    /** The look-up on the list itself. */
    method Look(base: Address) returns (found: bool)
      requires IsList(head, links)
      modifies this`links, head, links
      ensures IsList(head, links) && OnlyNew()
      ensures (found <==> base in old(Keys())) && Keys() == MoveToFront(old(Keys()), base)
    {
      ghost var was := links;
      var link, i := Seek(base);
      found := link != head;
      if found {
        Found(was, i, base);
        ToFront(link, i);
        assert links == [was[i]] + (was[..i] + was[i + 1..]);
      } else {
        assert Keys() == MoveToFront(Items(was), base);
      }
    }

    /** The walk along the list: to the first element of the key, or back to the head. */
    method Seek(base: Address) returns (link: Link<Address>, ghost i: nat)
      requires IsList(head, links)
      ensures i <= |links| && link == Node(head, links, i + 1)
      ensures link == head <==> i == |links|
      ensures base !in Items(links[..i]) && (i < |links| ==> links[i].item == base)
      ensures i == |links| ==> base !in Keys()
    {
      assert Linked(head, links, 0);
      link := head.next;
      i := 0;
      while link != head && link.item != base
        invariant i <= |links| && link == Node(head, links, i + 1)
        invariant base !in Items(links[..i])
        decreases |links| - i
      {
        ItemsSnoc(links, i);
        assert Linked(head, links, i + 1);
        link := link.next;
        i := i + 1;
      }
      assert links[..|links|] == links;
    }

    /** dll_remove and dll_enter_first. */
    method ToFront(link: Link<Address>, ghost i: nat)
      requires IsList(head, links) && i < |links| && links[i] == link
      modifies this`links, head, links
      ensures IsList(head, links) && OnlyNew()
      ensures links == [link] + (old(links)[..i] + old(links)[i + 1..])
    {
      ghost var rest := links[..i] + links[i + 1..];
      Remove(head, link, links, i, rest);
      EnterFirst(head, link, rest);
      links := [link] + rest;
    }

    /** One call of any kind; the answer of one that does not ask is false. */
    method Perform(call: Call) returns (answer: bool)
      requires Valid()
      modifies this, head, links
      ensures Valid() && OnlyNew() && calls == old(calls) + [call]
      ensures answer <==> call.AskMember? && PutSinceReset(mask, old(calls), mask(call.stack))
    {
      answer := false;
      match call
      case AddStack(stack) => Add(stack);
      case ResetTo(stack) => Reset(stack);
      case AskMember(stack) => answer := Member(stack);
    }
  }

  /** Any sequence of calls on a new list: every look-up says whether the key was put there since the
      last reset before it. */
  method Answers(mask: Address -> Address, calls: seq<Call>) returns (answers: seq<bool>)
    ensures |answers| == |calls|
    ensures forall i :: 0 <= i < |calls| ==>
              (answers[i] <==> calls[i].AskMember? && PutSinceReset(mask, calls[..i], mask(calls[i].stack)))
  {
    var stacks := new StackSet(mask);
    answers := [];
    for n := 0 to |calls|
      invariant fresh(stacks) && fresh(stacks.head) && fresh(set l | l in stacks.links)
      invariant stacks.Valid() && stacks.mask == mask && stacks.calls == calls[..n] && |answers| == n
      invariant forall i :: 0 <= i < n ==>
                  (answers[i] <==> calls[i].AskMember? && PutSinceReset(mask, calls[..i], mask(calls[i].stack)))
    {
      var answer := stacks.Perform(calls[n]);
      assert calls[..n + 1] == calls[..n] + [calls[n]];
      answers := answers + [answer];
    }
  }

  ghost function Items(links: seq<Link<Address>>): (items: seq<Address>)
    ensures |items| == |links| && forall i :: 0 <= i < |links| ==> items[i] == links[i].item
  {
    seq(|links|, i requires 0 <= i < |links| => links[i].item)
  }

  lemma ItemsAppend(a: seq<Link<Address>>, b: seq<Link<Address>>)
    ensures Items(a + b) == Items(a) + Items(b)
  {
  }

  lemma ItemsSnoc(links: seq<Link<Address>>, i: nat)
    requires i < |links|
    ensures Items(links[..i + 1]) == Items(links[..i]) + [links[i].item]
  {
  }

  lemma MoveToFrontSplit(a: seq<Address>, k: Address, c: seq<Address>)
    requires k !in a
    ensures MoveToFront(a + [k] + c, k) == [k] + a + c
  {
    var s := a + [k] + c;
    assert s[|a|] == k;
    var j := IndexOf(s, k);
    assert forall x :: 0 <= x < |a| ==> s[x] == a[x];
    assert forall x :: 0 <= x < j ==> s[x] in s[..j];
    assert j == |a|;
    assert s[..j] == a && s[j + 1..] == c;
  }

  lemma ItemsSplit(links: seq<Link<Address>>, i: nat)
    requires i < |links|
    ensures Items(links) == Items(links[..i]) + [links[i].item] + Items(links[i + 1..])
  {
  }

  lemma ItemsMoved(link: Link<Address>, a: seq<Link<Address>>, c: seq<Link<Address>>)
    ensures Items([link] + (a + c)) == [link.item] + Items(a) + Items(c)
  {
    ItemsAppend([link], a + c);
    ItemsAppend(a, c);
  }

  lemma Found(links: seq<Link<Address>>, i: nat, k: Address)
    requires i < |links| && links[i].item == k && k !in Items(links[..i])
    ensures k in Items(links)
    ensures Items([links[i]] + (links[..i] + links[i + 1..])) == MoveToFront(Items(links), k)
  {
    ItemsSplit(links, i);
    ItemsMoved(links[i], links[..i], links[i + 1..]);
    MoveToFrontSplit(Items(links[..i]), k, Items(links[i + 1..]));
    assert Items(links)[|Items(links[..i])|] == k;
  }
}
