/**
 The generator of the system call tables, lib/emul/gen_syscalls.c: rows are marked with the masks
 of the calls to emulate, and the sparse list of rows becomes three dense vectors.
 */
module Syscalls {
  import opened Options

  datatype Entry = Entry(num: int, name: string, protocol: char, args: int, mask: bv32)

  /** A line of the list of calls to emulate; without a mask it means all of them. */
  datatype Request = Request(name: string, mask: Option<bv32>)

  function MaskOf(r: Request): bv32 {
    if r.mask.Some? then r.mask.value else 0xffff_ffff
  }

  // Marking.

  /** The mask that the last request for `name` gives it. */
  function LastMask(requests: seq<Request>, name: string): Option<bv32> {
    if requests == [] then None
    else
      var last := requests[|requests| - 1];
      if last.name == name then Some(MaskOf(last)) else LastMask(requests[..|requests| - 1], name)
  }

  /** Request `k` names it, and no later one does. */
  ghost predicate LastFor(requests: seq<Request>, name: string, k: nat) {
    && k < |requests| && requests[k].name == name
    && forall l :: k < l < |requests| ==> requests[l].name != name
  }

  /** The mask is that of the last request for the name, and there is none exactly if no request
      names it. */
  lemma {:induction false} LastMaskIs(requests: seq<Request>, name: string)
    ensures LastMask(requests, name) == None <==> forall k :: 0 <= k < |requests| ==> requests[k].name != name
    ensures forall k: nat :: LastFor(requests, name, k) ==> LastMask(requests, name) == Some(MaskOf(requests[k]))
  {
    if requests != [] {
      var n := |requests| - 1;
      LastMaskIs(requests[..n], name);
      assert forall k :: 0 <= k < n ==> requests[..n][k] == requests[k];
      forall k: nat | LastFor(requests, name, k) ensures LastMask(requests, name) == Some(MaskOf(requests[k])) {
        if k < n {
          assert requests[n].name != name;
          assert LastFor(requests[..n], name, k);
        }
      }
    }
  }

  ghost predicate FirstOfName(tab: seq<Entry>, i: nat)
    requires i < |tab|
  {
    forall j :: 0 <= j < i ==> tab[j].name != tab[i].name
  }

  ghost predicate Known(tab: seq<Entry>, name: string) {
    exists i :: 0 <= i < |tab| && tab[i].name == name
  }

  /** The row as the requests leave it: only the first row of a name can be marked. */
  ghost function Marked(tab: seq<Entry>, requests: seq<Request>, i: nat): Entry
    requires i < |tab|
  {
    match LastMask(requests, tab[i].name)
    case Some(mask) => if FirstOfName(tab, i) then tab[i].(mask := mask) else tab[i]
    case None => tab[i]
  }

  /** The linear search. */
  method Find(tab: array<Entry>, name: string) returns (i: nat)
    ensures i <= tab.Length && (i == tab.Length <==> !Known(tab[..], name))
    ensures i < tab.Length ==> tab[i].name == name && FirstOfName(tab[..], i)
  {
    i := 0;
    while i < tab.Length
      invariant i <= tab.Length && forall j :: 0 <= j < i ==> tab[j].name != name
    {
      if name == tab[i].name {
        assert tab[..][i].name == name;
        return;
      }
      i := i + 1;
    }
  }

  /** The requests one after the other; a name that is in no row is reported. */
  method Mark(tab: array<Entry>, requests: seq<Request>) returns (unknown: seq<string>)
    modifies tab
    ensures forall i :: 0 <= i < tab.Length ==> tab[i] == Marked(old(tab[..]), requests, i)
    ensures forall name :: name in unknown <==>
              (exists k :: 0 <= k < |requests| && requests[k].name == name) && !Known(old(tab[..]), name)
  {
    unknown := [];
    ghost var was := tab[..];
    var n := 0;
    while n < |requests|
      invariant n <= |requests|
      invariant forall i :: 0 <= i < tab.Length ==> tab[i] == Marked(was, requests[..n], i)
      invariant forall name :: name in unknown <==>
                  (exists k :: 0 <= k < n && requests[k].name == name) && !Known(was, name)
    {
      SameNames(was, tab[..], requests[..n]);
      var i := Find(tab, requests[n].name);
      ghost var before := tab[..];
      if i < tab.Length {
        tab[i] := tab[i].(mask := MaskOf(requests[n]));
      } else {
        unknown := unknown + [requests[n].name];
      }
      MarkedStep(was, requests, n, before, i, tab[..]);
      n := n + 1;
    }
    assert requests[..n] == requests;
  }

  lemma SameNames(was: seq<Entry>, now: seq<Entry>, requests: seq<Request>)
    requires |now| == |was| && forall i :: 0 <= i < |was| ==> now[i] == Marked(was, requests, i)
    ensures forall i :: 0 <= i < |was| ==> now[i].name == was[i].name
    ensures forall name :: Known(now, name) <==> Known(was, name)
    ensures forall i :: 0 <= i < |was| ==> (FirstOfName(now, i) <==> FirstOfName(was, i))
  {
    forall i | 0 <= i < |was| ensures now[i].name == was[i].name {
      assert now[i] == Marked(was, requests, i);
    }
    forall name ensures Known(now, name) <==> Known(was, name) {
      if Known(now, name) {
        var i :| 0 <= i < |now| && now[i].name == name;
        assert was[i].name == name;
      }
      if Known(was, name) {
        var i :| 0 <= i < |was| && was[i].name == name;
        assert now[i].name == name;
      }
    }
  }

  lemma MarkedStep(was: seq<Entry>, requests: seq<Request>, n: nat, before: seq<Entry>, i: nat, after: seq<Entry>)
    requires n < |requests| && |before| == |was| && |after| == |was| && i <= |was|
    requires forall j :: 0 <= j < |was| ==> before[j] == Marked(was, requests[..n], j)
    requires i == |was| ==> after == before && !Known(was, requests[n].name)
    requires i < |was| ==> was[i].name == requests[n].name && FirstOfName(was, i)
                           && after == before[i := before[i].(mask := MaskOf(requests[n]))]
    ensures forall j :: 0 <= j < |was| ==> after[j] == Marked(was, requests[..n + 1], j)
  {
    assert requests[..n + 1][..n] == requests[..n];
    forall j | 0 <= j < |was| ensures after[j] == Marked(was, requests[..n + 1], j) {
      if was[j].name == requests[n].name && i < |was| {
        assert FirstOfName(was, j) ==> j <= i;
      }
    }
  }

  // From the sparse list to a dense vector.

  /** Where a row comes out: at its number, or right after the row before it if that is further. */
  function Place(tab: seq<Entry>, i: nat): nat
    requires i < |tab|
  {
    var next := if i == 0 then 0 else Place(tab, i - 1) + 1;
    if tab[i].num > next then tab[i].num else next
  }

  /** The numbers are natural and strictly increasing. */
  ghost predicate Increasing(tab: seq<Entry>) {
    && (tab != [] ==> tab[0].num >= 0)
    && forall i :: 0 <= i < |tab| - 1 ==> tab[i].num < tab[i + 1].num
  }

  ghost predicate InPlace(tab: seq<Entry>) {
    forall i :: 0 <= i < |tab| ==> Place(tab, i) == tab[i].num
  }

  /** Rows come out at their own numbers exactly for an increasing list. */
  lemma InPlaceIff(tab: seq<Entry>)
    ensures InPlace(tab) <==> Increasing(tab)
  {
    if Increasing(tab) {
      forall i | 0 <= i < |tab| ensures Place(tab, i) == tab[i].num {
        IncreasingInPlace(tab, i);
      }
    }
    if InPlace(tab) {
      forall i | 0 <= i < |tab| - 1 ensures tab[i].num < tab[i + 1].num {
        assert Place(tab, i) == tab[i].num && Place(tab, i + 1) == tab[i + 1].num;
      }
      assert tab != [] ==> Place(tab, 0) == tab[0].num;
    }
  }

  lemma {:induction false} IncreasingInPlace(tab: seq<Entry>, i: nat)
    requires Increasing(tab) && i < |tab|
    ensures Place(tab, i) == tab[i].num
  {
    if i > 0 {
      IncreasingInPlace(tab, i - 1);
      assert tab[i - 1].num < tab[i - 1 + 1].num;
    }
  }

  /** Row `i` of the first `n` comes out at `p`. */
  ghost predicate At(tab: seq<Entry>, n: nat, i: nat, p: nat)
    requires n <= |tab|
  {
    i < n && Place(tab, i) == p
  }

  /** The vector holds every row at its place, and the default elsewhere. */
  ghost predicate Dense<T>(out: seq<T>, tab: seq<Entry>, n: nat, default: T, entry: Entry -> T)
    requires n <= |tab|
  {
    && |out| == (if n == 0 then 0 else Place(tab, n - 1) + 1)
    && (forall i :: 0 <= i < n ==> Place(tab, i) < |out| && out[Place(tab, i)] == entry(tab[i]))
    && (forall p :: 0 <= p < |out| && (forall i :: !At(tab, n, i, p)) ==> out[p] == default)
  }

  /** The loop of the three generators. */
  method Generate<T>(tab: seq<Entry>, default: T, entry: Entry -> T) returns (out: seq<T>)
    ensures Dense(out, tab, |tab|, default, entry)
  {
    out := [];
    var n := 0;
    while n < |tab|
      invariant n <= |tab| && Dense(out, tab, n, default, entry)
    {
      var padded := Pad(out, tab[n].num, default);
      DenseStep(out, padded, tab, n, default, entry);
      out := padded + [entry(tab[n])];
      n := n + 1;
    }
  }

  /** The inner loop: the default for every number before the row's. */
  method Pad<T>(before: seq<T>, num: int, default: T) returns (out: seq<T>)
    ensures |out| == (if num > |before| then num else |before|) && before <= out
    ensures forall p :: |before| <= p < |out| ==> out[p] == default
  {
    out := before;
    var syscallNum := |before|;
    while syscallNum < num
      invariant syscallNum == |out| && before <= out
      invariant |out| == |before| || |out| <= num
      invariant forall p :: |before| <= p < |out| ==> out[p] == default
    {
      out := out + [default];
      syscallNum := syscallNum + 1;
    }
  }

  lemma DenseStep<T>(before: seq<T>, padded: seq<T>, tab: seq<Entry>, n: nat, default: T, entry: Entry -> T)
    requires n < |tab| && Dense(before, tab, n, default, entry)
    requires before <= padded && |padded| == Place(tab, n)
    requires forall p :: |before| <= p < |padded| ==> padded[p] == default
    ensures Dense(padded + [entry(tab[n])], tab, n + 1, default, entry)
  {
    var out, m := padded + [entry(tab[n])], n + 1;
    forall i | 0 <= i < n + 1 ensures Place(tab, i) < |out| && out[Place(tab, i)] == entry(tab[i]) {
      if i < n {
        assert out[Place(tab, i)] == before[Place(tab, i)];
      }
    }
    forall p | 0 <= p < |out| && (forall i :: !At(tab, m, i, p)) ensures out[p] == default {
      assert !At(tab, m, n, p);
      if p < |before| {
        forall i: nat ensures !At(tab, n, i, p) {
          assert !At(tab, m, i, p);
        }
        assert out[p] == before[p];
      }
    }
  }

  // The three vectors.

  datatype Sysent = Generic | Sys(protocol: char, name: string, args: int)

  function NameOf(e: Entry): Option<string> {
    if e.mask != 0 then Some("emul_" + e.name) else None
  }

  function SysentOf(e: Entry): Sysent {
    if e.mask != 0 then Sys(e.protocol, "emul_" + e.name, e.args) else Generic
  }

  /** The row numbered `p` is found at `p`, and the default where no row has that number. */
  ghost predicate Indexed<T>(out: seq<T>, tab: seq<Entry>, default: T, entry: Entry -> T) {
    && |out| == (if tab == [] then 0 else tab[|tab| - 1].num + 1)
    && (forall i :: 0 <= i < |tab| ==> 0 <= tab[i].num < |out| && out[tab[i].num] == entry(tab[i]))
    && (forall p :: 0 <= p < |out| && (forall i :: 0 <= i < |tab| ==> tab[i].num != p) ==> out[p] == default)
  }

  lemma DenseIndexed<T>(out: seq<T>, tab: seq<Entry>, default: T, entry: Entry -> T)
    requires Increasing(tab) && Dense(out, tab, |tab|, default, entry)
    ensures Indexed(out, tab, default, entry)
  {
    InPlaceIff(tab);
    forall i | 0 <= i < |tab| ensures 0 <= tab[i].num < |out| && out[tab[i].num] == entry(tab[i]) {
      assert Place(tab, i) == tab[i].num;
    }
    forall p | 0 <= p < |out| && (forall i :: 0 <= i < |tab| ==> tab[i].num != p) ensures out[p] == default {
      assert forall i :: !At(tab, |tab|, i, p);
    }
  }

  /** Two dense vectors of the same rows have their defaults in the same places, if the entries do. */
  lemma DenseAgree<T, U>(a: seq<T>, b: seq<U>, tab: seq<Entry>, c: T, d: U, f: Entry -> T, g: Entry -> U)
    requires Dense(a, tab, |tab|, c, f) && Dense(b, tab, |tab|, d, g)
    requires forall e :: f(e) == c <==> g(e) == d
    ensures |a| == |b| && forall p :: 0 <= p < |a| ==> (a[p] == c <==> b[p] == d)
  {
    forall p | 0 <= p < |a| ensures a[p] == c <==> b[p] == d {
      if i: nat :| At(tab, |tab|, i, p) {
        assert a[Place(tab, i)] == f(tab[i]) && b[Place(tab, i)] == g(tab[i]);
      }
    }
  }

  /** emul_vec, emul_names and sysent. */
  method GenerateAll(tab: seq<Entry>)
    returns (vec: seq<bv32>, names: seq<Option<string>>, sysent: seq<Sysent>)
    ensures |vec| == |names| == |sysent|
    ensures forall p :: 0 <= p < |vec| ==> (vec[p] == 0 <==> names[p] == None)
    ensures forall p :: 0 <= p < |vec| ==> (vec[p] == 0 <==> sysent[p] == Generic)
    ensures Increasing(tab) ==>
              && Indexed(vec, tab, 0, (e: Entry) => e.mask)
              && Indexed(names, tab, None, NameOf) && Indexed(sysent, tab, Generic, SysentOf)
  {
    var mask := (e: Entry) => e.mask;
    vec := Generate(tab, 0, mask);
    names := Generate(tab, None, NameOf);
    sysent := Generate(tab, Generic, SysentOf);
    DenseAgree(vec, names, tab, 0, None, mask, NameOf);
    DenseAgree(vec, sysent, tab, 0, Generic, mask, SysentOf);
    if Increasing(tab) {
      DenseIndexed(vec, tab, 0, mask);
      DenseIndexed(names, tab, None, NameOf);
      DenseIndexed(sysent, tab, Generic, SysentOf);
    }
  }

  /** The whole of the generator: mark, then generate. For an increasing list the entry at the number
      of a row is the mask of the last request for its name, if the row is the first of that name. */
  method MakeTables(tab: array<Entry>, requests: seq<Request>)
    returns (vec: seq<bv32>, names: seq<Option<string>>, sysent: seq<Sysent>, unknown: seq<string>)
    modifies tab
    ensures |vec| == |names| == |sysent|
    ensures forall p :: 0 <= p < |vec| ==> (vec[p] == 0 <==> names[p] == None) && (vec[p] == 0 <==> sysent[p] == Generic)
    ensures Increasing(old(tab[..])) ==>
              forall i :: 0 <= i < tab.Length ==>
                var e := Marked(old(tab[..]), requests, i);
                && 0 <= e.num < |vec| && e.num == old(tab[..])[i].num
                && vec[e.num] == e.mask && names[e.num] == NameOf(e) && sysent[e.num] == SysentOf(e)
    ensures Increasing(old(tab[..])) ==>
              forall p :: 0 <= p < |vec| && (forall i :: 0 <= i < tab.Length ==> old(tab[..])[i].num != p) ==> vec[p] == 0
  {
    ghost var was := tab[..];
    unknown := Mark(tab, requests);
    MarkedIncreasing(was, requests, tab[..]);
    vec, names, sysent := GenerateAll(tab[..]);
  }

  /** The entries of a row in the end. Its mask is that of the last request for its name, if it is the first row of the
      name, and else the one it had. */
  lemma MarkedIs(tab: seq<Entry>, requests: seq<Request>, i: nat)
    requires i < |tab|
    ensures Marked(tab, requests, i) == tab[i].(mask := Marked(tab, requests, i).mask)
    ensures NameOf(Marked(tab, requests, i)) ==
            if Marked(tab, requests, i).mask != 0 then Some("emul_" + tab[i].name) else None
    ensures SysentOf(Marked(tab, requests, i)) ==
            if Marked(tab, requests, i).mask != 0 then Sys(tab[i].protocol, "emul_" + tab[i].name, tab[i].args)
            else Generic
    ensures (forall k :: 0 <= k < |requests| ==> requests[k].name != tab[i].name) ==>
              Marked(tab, requests, i).mask == tab[i].mask
    ensures (exists j :: 0 <= j < i && tab[j].name == tab[i].name) ==> Marked(tab, requests, i).mask == tab[i].mask
    ensures forall k :: 0 <= k < |requests| && requests[k].name == tab[i].name
                        && (forall l :: k < l < |requests| ==> requests[l].name != requests[k].name)
                        && (forall j :: 0 <= j < i ==> tab[j].name != tab[i].name) ==>
              Marked(tab, requests, i).mask == if requests[k].mask.Some? then requests[k].mask.value else 0xffff_ffff
  {
    LastMaskIs(requests, tab[i].name);
    forall k | 0 <= k < |requests| && requests[k].name == tab[i].name
               && (forall l :: k < l < |requests| ==> requests[l].name != requests[k].name)
      ensures LastMask(requests, tab[i].name) == Some(MaskOf(requests[k]))
    {
      assert LastFor(requests, tab[i].name, k);
    }
  }

  lemma MarkedIncreasing(was: seq<Entry>, requests: seq<Request>, now: seq<Entry>)
    requires |now| == |was| && forall i :: 0 <= i < |was| ==> now[i] == Marked(was, requests, i)
    ensures forall i :: 0 <= i < |was| ==> now[i].num == was[i].num
    ensures Increasing(was) ==> Increasing(now)
  {
    forall i | 0 <= i < |was| ensures now[i].num == was[i].num {
      assert now[i] == Marked(was, requests, i);
    }
  }

  /** A list that is not increasing: row 3 behind row 5 comes out at 6. */
  lemma RowMisplaced()
    ensures var tab := [Entry(5, "a", 'a', 0, 1), Entry(3, "b", 'b', 0, 1)];
            !Increasing(tab) && Place(tab, 0) == 5 && Place(tab, 1) == 6
  {
    var tab := [Entry(5, "a", 'a', 0, 1), Entry(3, "b", 'b', 0, 1)];
    assert tab[0].num >= tab[1].num;
    assert Place(tab, 0) == 5;
  }
}
