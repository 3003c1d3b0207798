/**
 The break of an emulated program, lib/emul/emul_basic.cc:208-303: emul_init_brk, emul_sbrk and
 emul_obreak over the kernel's map of allocated pages. Addresses are 32-bit and unsigned.
 */
module BreakArea {

  const Page: nat := 4096
  const TwoMeg: nat := 0x20_0000
  const Limit: nat := 0x1_0000_0000
  const VmMax: nat := 0xc000_0000

  function Trunc(x: nat): (r: nat)
    ensures r <= x < r + Page && r % Page == 0
  {
    x / Page * Page
  }

  /** round_page, which wraps around in the last page. */
  function Round(x: nat): nat {
    Trunc((x + (Page - 1)) % Limit)
  }

  /** cur_brk and max_brk. */
  datatype Arena = Arena(cur: nat, max: nat)

  predicate Sound(a: Arena) {
    a.cur < a.max <= VmMax && a.max % Page == 0
  }

  /** No page of the range is taken, and the range is in user space. */
  predicate Fits(pages: set<nat>, at: nat, size: nat) {
    at + size <= VmMax && forall p :: at / Page <= p < (at + size) / Page ==> p !in pages
  }

  predicate Between(lo: nat, x: nat, hi: nat) {
    lo <= x < hi
  }

  function Interval(lo: nat, hi: nat): (r: set<nat>)
    ensures forall x :: x in r <==> lo <= x < hi
  {
    set x: nat | lo <= x < hi && Between(lo, x, hi)
  }

  /** The pages of a range. */
  function Range(at: nat, size: nat): set<nat> {
    Interval(at / Page, (at + size) / Page)
  }

  lemma SmallerFits(pages: set<nat>, at: nat, size: nat, smaller: nat)
    requires Fits(pages, at, size) && smaller <= size
    ensures Fits(pages, at, smaller)
  {
    assert (at + smaller) / Page <= (at + size) / Page;
  }

  // How much the code asks for.

  /** From the page of the break to the page that holds `addr`. */
  function Needed(a: Arena, addr: nat): nat {
    (Round(addr) - Trunc(a.cur)) % Limit
  }

  lemma Multiples(x: nat, y: nat)
    requires x % Page == 0 && y % Page == 0 && y < x
    ensures (x - y) % Page == 0 && x - y >= Page
  {
  }

  /** A break in page 0, and an address in the last page: rounding both gives 0. */
  predicate Overshoots(a: Arena, addr: nat) {
    a.cur < Page && addr > Limit - Page
  }

  lemma NeededIs(a: Arena, addr: nat)
    requires Sound(a) && a.max <= addr < Limit && !Overshoots(a, addr)
    ensures var n := Needed(a, addr);
            && n >= Page && n % Page == 0
            && (if addr <= Limit - Page then n == Round(addr) - Trunc(a.cur) && Round(addr) >= addr
                else n == Limit - Trunc(a.cur))
  {
    if addr <= Limit - Page {
      assert Round(addr) == Trunc(addr + Page - 1);
      assert Trunc(a.cur) < addr <= Round(addr) < Limit;
      Multiples(Round(addr), Trunc(a.cur));
    } else {
      assert (addr + Page - 1) % Limit == addr + Page - 1 - Limit;
      assert Round(addr) == 0;
      Multiples(Limit, Trunc(a.cur));
      assert (0 - Trunc(a.cur)) % Limit == Limit - Trunc(a.cur);
    }
  }

  /** Only that makes the size come out as nothing. */
  lemma NeededZeroIff(a: Arena, addr: nat)
    requires Sound(a) && a.max <= addr < Limit
    ensures Needed(a, addr) == 0 <==> Overshoots(a, addr)
    ensures Needed(a, addr) % Page == 0
  {
    if Overshoots(a, addr) {
      assert (addr + Page - 1) % Limit == addr + Page - 1 - Limit;
      assert Round(addr) == 0 && Trunc(a.cur) == 0;
    } else {
      NeededIs(a, addr);
    }
  }

  function First(needed: nat): nat {
    if needed > TwoMeg then needed else TwoMeg
  }

  /** The last size that is tried: halving stops when it would not do. */
  function Least(size: nat, needed: nat): (r: nat)
    requires 0 < needed <= size
    ensures needed <= r <= size && r / 2 < needed
  {
    if size / 2 < needed then size else Least(size / 2, needed)
  }

  function LastTry(needed: nat): nat
    requires needed > 0
  {
    Least(First(needed), needed)
  }

  /** Two megabytes halved, down to a page. */
  predicate Halving(size: nat) {
    || size == 0x20_0000 || size == 0x10_0000 || size == 0x8_0000 || size == 0x4_0000 || size == 0x2_0000
    || size == 0x1_0000 || size == 0x8000 || size == 0x4000 || size == 0x2000 || size == 0x1000
  }

  /** The sizes that are tried: what is needed if that is more than two megabytes, else two megabytes
      halved. */
  predicate Tried(size: nat, needed: nat) {
    if needed > TwoMeg then size == needed else Halving(size)
  }

  lemma Halves(size: nat, needed: nat)
    requires Page <= needed <= size / 2 && Tried(size, needed)
    ensures Tried(size / 2, needed) && 2 * (size / 2) == size
  {
  }

  /** To whole pages, as vm_allocate does with a size. */
  function PageUp(size: nat): nat {
    (size + (Page - 1)) / Page * Page
  }

  /** Where the trying of sizes stands. */
  ghost predicate Trying(size: nat, needed: nat, pages: set<nat>, max: nat) {
    && 0 < needed <= size && Tried(size, needed)
    && Least(size, needed) == LastTry(needed)
    && PageUp(size) == size
    && (size == First(needed) || !Fits(pages, max, 2 * size))
  }

  lemma WholeSize(size: nat, needed: nat)
    requires needed % Page == 0 && Tried(size, needed)
    ensures PageUp(size) == size
  {
  }

  lemma TryNext(size: nat, needed: nat, pages: set<nat>, max: nat)
    requires Trying(size, needed, pages, max) && needed % Page == 0 && needed <= size / 2
    requires !Fits(pages, max, size)
    ensures Trying(size / 2, needed, pages, max)
  {
    Halves(size, needed);
    WholeSize(size / 2, needed);
  }

  /** A size that is granted is the one that `Grown` says, and then the last try would fit too. */
  lemma Granted(size: nat, needed: nat, pages: set<nat>, max: nat)
    requires Trying(size, needed, pages, max) && Fits(pages, max, size)
    ensures Fits(pages, max, LastTry(needed))
    ensures Grown(max, pages, needed, max + size, pages + Range(max, size))
  {
    SmallerFits(pages, max, size, Least(size, needed));
  }

  // What a call does.

  /** The break moves, or the arena grows by the largest of the sizes tried that fits; and when
      none fits, the break falls back to the start of its page. If the size comes out as nothing,
      anything is good enough, and the break ends up where no memory is. */
  ghost predicate Called(a: Arena, pages: set<nat>, addr: nat, ok: bool, a': Arena, pages': set<nat>) {
    if addr < a.max then
      ok && a' == a.(cur := if addr > a.cur then addr else a.cur) && pages' == pages
    else if Needed(a, addr) == 0 then
      ok && a'.cur == addr && a.max <= a'.max <= a.max + TwoMeg && pages <= pages'
    else
      && (ok <==> Fits(pages, a.max, LastTry(Needed(a, addr))))
      && (if ok then a'.cur == addr && Grown(a.max, pages, Needed(a, addr), a'.max, pages')
          else a' == a.(cur := Trunc(a.cur)) && pages' == pages)
  }

  ghost predicate Grown(max: nat, pages: set<nat>, needed: nat, max': nat, pages': set<nat>) {
    && max + needed <= max' && Tried(max' - max, needed)
    && Fits(pages, max, max' - max) && (max' - max == First(needed) || !Fits(pages, max, 2 * (max' - max)))
    && pages' == pages + Range(max, max' - max)
  }

  /** The arena stays sound exactly if the call does not overshoot. */
  lemma CallKeepsSound(a: Arena, pages: set<nat>, addr: nat, ok: bool, a': Arena, pages': set<nat>)
    requires Sound(a) && addr < Limit && Called(a, pages, addr, ok, a', pages')
    ensures Sound(a') <==> !Overshoots(a, addr)
    ensures a.max <= a'.max && (ok && !Overshoots(a, addr) ==> addr < a'.max)
  {
    if addr >= a.max {
      NeededZeroIff(a, addr);
      if !Overshoots(a, addr) {
        NeededIs(a, addr);
        if ok {
          WholePages(a.max, a'.max, Needed(a, addr));
        }
      }
    }
  }

  lemma WholePages(max: nat, max': nat, needed: nat)
    requires max % Page == 0 && needed % Page == 0 && max + needed <= max'
    requires Tried(max' - max, needed)
    ensures max' % Page == 0
  {
    assert (max' - max) % Page == 0;
  }

  /** The pages from `at` on are free and in user space. */
  ghost predicate FreePages(pages: set<nat>, at: nat, size: nat) {
    at + size <= 0xc000_0000 && forall p :: at / 4096 <= p < (at + size) / 4096 ==> p !in pages
  }

  /** By how much the arena grows, from the page of the break to that of the address being `need` bytes:
      by just that if it is more than two megabytes; else by two megabytes if they are free, or else by
      the largest half, quarter and so on of them that is free and not less than the need. If not even
      the smallest is, the call fails. */
  lemma GrowthIs(a: Arena, pages: set<nat>, addr: nat, ok: bool, a': Arena, pages': set<nat>)
    requires Sound(a) && a.max <= addr < Limit && Called(a, pages, addr, ok, a', pages')
    requires addr <= 0xffff_f000
    ensures var need, g := (addr + 4095) / 4096 * 4096 - a.cur / 4096 * 4096, a'.max - a.max;
            && need > 0
            && (need > 0x20_0000 ==> (ok <==> FreePages(pages, a.max, need)) && (ok ==> g == need))
            && (need <= 0x20_0000 && FreePages(pages, a.max, 0x20_0000) ==> ok && g == 0x20_0000)
            && (need <= 0x20_0000 && !FreePages(pages, a.max, 0x20_0000) && ok ==>
                  && need <= g && FreePages(pages, a.max, g) && !FreePages(pages, a.max, 2 * g)
                  && g in {0x10_0000, 0x8_0000, 0x4_0000, 0x2_0000, 0x1_0000, 0x8000, 0x4000, 0x2000, 0x1000})
            && (need <= 0x20_0000 && !ok ==>
                  exists g :: need <= g < 2 * need && !FreePages(pages, a.max, g))
            && (ok ==> forall p :: p in pages' <==> p in pages || a.max / 4096 <= p < a'.max / 4096)
  {
    NeededIs(a, addr);
    var need := Needed(a, addr);
    FreeIsFits(pages, a.max);
    AllSmallerFit(pages, a.max, 0x20_0000);
    assert need <= LastTry(need) < 2 * need;
  }

  lemma FreeIsFits(pages: set<nat>, at: nat)
    ensures forall size :: FreePages(pages, at, size) <==> Fits(pages, at, size)
  {
  }

  lemma AllSmallerFit(pages: set<nat>, at: nat, size: nat)
    ensures Fits(pages, at, size) ==> forall smaller: nat :: smaller <= size ==> Fits(pages, at, smaller)
  {
    if Fits(pages, at, size) {
      forall smaller: nat | smaller <= size ensures Fits(pages, at, smaller) {
        SmallerFits(pages, at, size, smaller);
      }
    }
  }

  /** A request that would fit with twice the room it needs is never refused. */
  lemma RoomySucceeds(a: Arena, pages: set<nat>, addr: nat, ok: bool, a': Arena, pages': set<nat>)
    requires Sound(a) && a.max <= addr < Limit && Called(a, pages, addr, ok, a', pages')
    requires Fits(pages, a.max, 2 * Needed(a, addr))
    ensures ok
  {
    var n := Needed(a, addr);
    if n > 0 {
      SmallerFits(pages, a.max, 2 * n, LastTry(n));
    }
  }

  /** But one that would just fit may be: the sizes tried are powers of two. Here three pages are
      free and needed, and four are asked for. */
  lemma FailsThoughFree(ok: bool, a': Arena, pages': set<nat>)
    ensures var a, addr, pages := Arena(0x101f_f000, 0x1020_0000), 0x1020_1001, {0x1_0203};
            && Sound(a) && Fits(pages, a.max, Needed(a, addr))
            && (Called(a, pages, addr, ok, a', pages') ==> !ok)
  {
    var a, addr, pages := Arena(0x101f_f000, 0x1020_0000), 0x1020_1001, {0x1_0203};
    NeededIs(a, addr);
    assert Needed(a, addr) == 0x3000;
    assert LastTry(0x3000) == Least(0x4000, 0x3000) == 0x4000;
    assert 0x1020_0000 / Page <= 0x1_0203 < (0x1020_0000 + 0x4000) / Page;
  }

  /** And one that succeeds had room at least for what it needs. */
  lemma SuccessFits(a: Arena, pages: set<nat>, addr: nat, a': Arena, pages': set<nat>)
    requires Sound(a) && a.max <= addr < Limit && Called(a, pages, addr, true, a', pages')
    requires !Overshoots(a, addr)
    ensures Fits(pages, a.max, Needed(a, addr)) && addr <= Limit - Page
  {
    var n := Needed(a, addr);
    NeededIs(a, addr);
    SmallerFits(pages, a.max, LastTry(n), n);
  }

  lemma StillWhole(base: nat, a: Arena, before: set<nat>, max: nat, after: set<nat>)
    requires base % Page == 0 && base <= a.cur && a.max % Page == 0 && a.max <= max
    requires forall p :: base / Page <= p < a.max / Page ==> p in before
    requires after == before + Range(a.max, max - a.max)
    ensures base <= Trunc(a.cur)
    ensures forall p :: base / Page <= p < max / Page ==> p in after
  {
    assert base / Page <= a.cur / Page && base == base / Page * Page;
    assert a.max + (max - a.max) == max;
    forall p | base / Page <= p < max / Page ensures p in after {
      assert p >= a.max / Page ==> p in Range(a.max, max - a.max);
    }
  }

  // The code, as the object that the static variables make up, with the kernel's map.

  /** `base` is where the arena began; the code does not keep it. */
  class Brk {
    var cur: nat
    var max: nat
    var pages: set<nat>
    const base: nat

    ghost function Now(): Arena
      reads this`cur, this`max
    {
      Arena(cur, max)
    }

    /** The arena is allocated without a hole. */
    ghost predicate Valid()
      reads this
    {
      && Sound(Now()) && base % Page == 0 && base <= cur
      && forall p :: base / Page <= p < max / Page ==> p in pages
    }

    /** vm_allocate of what exec sets aside, and emul_init_brk. */
    constructor (pages: set<nat>, newBrk: nat, size: nat)
      requires newBrk % Page == 0 && size % Page == 0 && 0 < size && Fits(pages, newBrk, size)
      ensures Valid() && base == newBrk && Now() == Arena(newBrk, newBrk + size)
      ensures this.pages == pages + Range(newBrk, size)
    {
      cur, max, base := newBrk, newBrk + size, newBrk;
      this.pages := pages + Range(newBrk, size);
    }

    /** Others allocate, and free what is not the arena's. */
    method Others()
      requires Valid()
      modifies this`pages
      ensures Valid()
    {
      var more: set<nat> := *;
      var less: set<nat> := *;
      pages := pages + more - (less - Interval(base / Page, max / Page));
    }

    /** vm_allocate(…, FALSE) at max_brk, of whole pages. */
    method Allocate(size: nat) returns (ok: bool)
      modifies this`pages
      ensures ok == Fits(old(pages), max, PageUp(size))
      ensures pages == if ok then old(pages) + Range(max, PageUp(size)) else old(pages)
    {
      ok := Fits(pages, max, PageUp(size));
      if ok {
        pages := pages + Range(max, PageUp(size));
      }
    }

    method Obreak(addr: nat) returns (ok: bool)
      requires Valid() && addr < Limit
      modifies this
      ensures Called(old(Now()), old(pages), addr, ok, Now(), pages)
      ensures Valid() <==> !Overshoots(old(Now()), addr)
      ensures ok ==> cur == if addr > old(cur) then addr else old(cur)
      ensures !ok ==> cur == old(cur) / 4096 * 4096 && max == old(max) && pages == old(pages)
      ensures addr < old(max) ==> ok && max == old(max) && pages == old(pages)
    {
      ghost var a, before := Now(), pages;
      if addr < max {
        if addr > cur {
          cur := addr;
        }
        ok := true;
      } else {
        NeededZeroIff(a, addr);
        ok := Extend(addr, a);
        CallKeepsSound(a, before, addr, ok, Now(), pages);
        if !Overshoots(a, addr) {
          StillWhole(base, a, before, max, pages);
        }
      }
    }

    /** Truncate the break, then ask for more. */
    method Extend(addr: nat, ghost a: Arena) returns (ok: bool)
      requires a == Now() && Sound(a) && a.max <= addr < Limit
      requires Needed(a, addr) % Page == 0 && (Needed(a, addr) == 0 <==> Overshoots(a, addr))
      modifies this
      ensures Called(a, old(pages), addr, ok, Now(), pages)
      ensures cur >= Trunc(a.cur) && max >= a.max
      ensures !Overshoots(a, addr) ==> pages == old(pages) + Range(a.max, max - a.max)
    {
      cur := Trunc(cur);
      ok := TrySizes((Round(addr) - cur) % Limit);
      if ok {
        cur := addr;
      }
    }

    /** Try sizes until one is granted or the next would not do. */
    method TrySizes(needed: nat) returns (ok: bool)
      requires needed % Page == 0 && max <= VmMax
      modifies this`max, this`pages
      ensures needed == 0 ==> ok && old(max) <= max <= old(max) + TwoMeg && old(pages) <= pages
      ensures needed > 0 ==> (ok <==> Fits(old(pages), old(max), LastTry(needed)))
      ensures needed > 0 && ok ==> Grown(old(max), old(pages), needed, max, pages)
      ensures !ok ==> max == old(max) && pages == old(pages)
    {
      var size: nat := if needed > TwoMeg then needed else TwoMeg;
      WholeSize(size, needed);
      while true
        invariant max == old(max) && pages == old(pages)
        invariant needed == 0 ==> size <= TwoMeg
        invariant needed > 0 ==> Trying(size, needed, pages, max)
        decreases size
      {
        ok := Allocate(size);
        if ok {
          if needed > 0 {
            Granted(size, needed, old(pages), max);
          }
          max := max + size;
          return;
        }
        if size / 2 < needed {
          return;
        }
        if needed > 0 {
          TryNext(size, needed, pages, max);
        }
        size := size / 2;
      }
    }

    /** The old break, when the call succeeds. */
    method Sbrk(delta: nat) returns (ok: bool, value: nat)
      requires Valid() && delta < Limit
      modifies this
      ensures Called(old(Now()), old(pages), (old(cur) + delta) % Limit, ok, Now(), pages)
      ensures Valid() <==> !Overshoots(old(Now()), (old(cur) + delta) % Limit)
      ensures ok ==> value == old(cur)
    {
      value := cur;
      ok := Obreak((cur + delta) % Limit);
    }

    method Perform(c: Call) returns (ok: bool)
      requires Valid() && !Overshoots(Now(), Address(Now(), c))
      modifies this
      ensures Valid() && Step(old(Now()), c, ok, Now())
    {
      match c
      case ObreakCall(addr) => ok := Obreak(addr % Limit);
      case SbrkCall(delta) =>
        assert (cur + delta % Limit) % Limit == (cur + delta) % Limit;
        var value;
        ok, value := Sbrk(delta % Limit);
    }

    /** Any calls, with others at work in between, make a run. */
    method Drive(calls: seq<Call>) returns (ghost r: Run)
      requires Valid() && Page <= cur
      modifies this
      ensures Valid() && IsRun(r) && r.calls == calls
      ensures r.arenas[0] == old(Now()) && r.arenas[|calls|] == Now()
    {
      r := Run([Now()], [], []);
      for i := 0 to |calls|
        invariant Valid() && Page <= cur && IsRun(r) && r.calls == calls[..i]
        invariant r.arenas[0] == old(Now()) && r.arenas[i] == Now()
      {
        Others();
        ghost var a := Now();
        var ok := Perform(calls[i]);
        StepMoves(a, calls[i], ok, Now());
        RunSnoc(r, calls[i], ok, Now());
        assert calls[..i + 1] == calls[..i] + [calls[i]];
        r := Run(r.arenas + [Now()], r.calls + [calls[i]], r.oks + [ok]);
      }
      assert calls[..|calls|] == calls;
    }
  }

  // Whole runs: any calls, with the rest of memory changing in any way between them.

  datatype Call = ObreakCall(addr: nat) | SbrkCall(delta: nat)

  function Address(a: Arena, c: Call): nat {
    match c
    case ObreakCall(addr) => addr % Limit
    case SbrkCall(delta) => (a.cur + delta) % Limit
  }

  ghost predicate Step(a: Arena, c: Call, ok: bool, a': Arena) {
    exists pages, pages' :: Called(a, pages, Address(a, c), ok, a', pages')
  }

  datatype Run = Run(arenas: seq<Arena>, calls: seq<Call>, oks: seq<bool>)

  ghost predicate StepAt(r: Run, i: nat)
    requires i < |r.calls| && |r.arenas| == |r.calls| + 1 && |r.oks| == |r.calls|
  {
    && Step(r.arenas[i], r.calls[i], r.oks[i], r.arenas[i + 1])
    && !Overshoots(r.arenas[i], Address(r.arenas[i], r.calls[i]))
  }

  /** No call of a run overshoots; from a break above page 0 none can. */
  ghost predicate IsRun(r: Run) {
    && |r.arenas| == |r.calls| + 1 && |r.oks| == |r.calls| && Sound(r.arenas[0])
    && forall i :: 0 <= i < |r.calls| ==> StepAt(r, i)
  }

  lemma RunSnoc(r: Run, c: Call, ok: bool, a: Arena)
    requires IsRun(r)
    requires var last := r.arenas[|r.calls|]; Step(last, c, ok, a) && !Overshoots(last, Address(last, c))
    ensures IsRun(Run(r.arenas + [a], r.calls + [c], r.oks + [ok]))
  {
    var r' := Run(r.arenas + [a], r.calls + [c], r.oks + [ok]);
    forall i | 0 <= i < |r'.calls| ensures StepAt(r', i) {
      assert i < |r.calls| ==> StepAt(r, i);
    }
  }

  /** A step never takes the break below its page, and a successful one never takes it back. */
  lemma StepMoves(a: Arena, c: Call, ok: bool, a': Arena)
    requires Sound(a) && Step(a, c, ok, a') && !Overshoots(a, Address(a, c))
    ensures Sound(a') && a.max <= a'.max && Trunc(a.cur) <= Trunc(a'.cur) && (Page <= a.cur ==> Page <= a'.cur)
    ensures ok ==> a.cur <= a'.cur && Address(a, c) <= a'.cur
  {
    var pages, pages' :| Called(a, pages, Address(a, c), ok, a', pages');
    CallKeepsSound(a, pages, Address(a, c), ok, a', pages');
    if Address(a, c) >= a.max {
      NeededZeroIff(a, Address(a, c));
    }
    assert a.cur <= a'.cur ==> a.cur / Page <= a'.cur / Page;
  }

  lemma {:induction false} RunMoves(r: Run, i: nat, j: nat)
    requires IsRun(r) && i <= j < |r.arenas|
    ensures Sound(r.arenas[j]) && r.arenas[i].max <= r.arenas[j].max
    ensures Trunc(r.arenas[i].cur) <= Trunc(r.arenas[j].cur)
    ensures (forall k :: i <= k < j ==> r.oks[k]) ==> r.arenas[i].cur <= r.arenas[j].cur
    decreases j
  {
    if i < j {
      RunMoves(r, i, j - 1);
      assert StepAt(r, j - 1);
      StepMoves(r.arenas[j - 1], r.calls[j - 1], r.oks[j - 1], r.arenas[j]);
    } else if j > 0 {
      RunMoves(r, j - 1, j - 1);
      assert StepAt(r, j - 1);
      StepMoves(r.arenas[j - 1], r.calls[j - 1], r.oks[j - 1], r.arenas[j]);
    }
  }

  /** What sbrk hands out stays in the arena, and later calls do not hand it out again: nothing of
      it if none failed in between, and at most its last, partial page otherwise. */
  lemma HandedOutOnce(r: Run, i: nat, delta: nat, j: nat)
    requires IsRun(r) && i < j < |r.arenas| && r.oks[i] && r.calls[i] == SbrkCall(delta)
    requires r.arenas[i].cur + delta < Limit
    ensures r.arenas[i].cur + delta < r.arenas[j].max
    ensures Trunc(r.arenas[i].cur + delta) <= r.arenas[j].cur
    ensures (forall k :: i < k < j ==> r.oks[k]) ==> r.arenas[i].cur + delta <= r.arenas[j].cur
  {
    RunMoves(r, i, i);
    assert StepAt(r, i);
    StepMoves(r.arenas[i], r.calls[i], true, r.arenas[i + 1]);
    RunMoves(r, i + 1, j);
    var end := r.arenas[i].cur + delta;
    assert end / Page <= r.arenas[i + 1].cur / Page;
  }

  /** Bytes already handed out are handed out again exactly when the call has to extend the arena,
      even the smallest size tried does not fit, and the break is inside a page. */
  lemma ReusedIff(a: Arena, pages: set<nat>, addr: nat, ok: bool, a': Arena, pages': set<nat>)
    requires Sound(a) && addr < Limit && Called(a, pages, addr, ok, a', pages')
    ensures a'.cur < a.cur <==>
            && addr >= a.max && !Overshoots(a, addr)
            && Needed(a, addr) > 0 && !Fits(pages, a.max, LastTry(Needed(a, addr))) && a.cur % Page != 0
  {
    if addr >= a.max {
      NeededZeroIff(a, addr);
    }
    assert a.cur == a.cur / Page * Page + a.cur % Page;
  }

  /** For instance: a hundred bytes, a request beyond user space, and the same hundred bytes. */
  lemma ReusedRun()
    ensures var a, b := Arena(0x1000_0000, 0x1020_0000), Arena(0x1000_0064, 0x1020_0000);
            IsRun(Run([a, b, a, b], [SbrkCall(100), ObreakCall(VmMax), SbrkCall(100)], [true, false, true]))
  {
    var a, b := Arena(0x1000_0000, 0x1020_0000), Arena(0x1000_0064, 0x1020_0000);
    assert Called(a, {}, Address(a, SbrkCall(100)), true, b, {});
    assert Address(b, ObreakCall(VmMax)) == VmMax;
    var n := Needed(b, VmMax);
    NeededIs(b, VmMax);
    assert n == 0xb000_0000;
    assert Called(b, {}, VmMax, false, a, {});
    var r := Run([a, b, a, b], [SbrkCall(100), ObreakCall(VmMax), SbrkCall(100)], [true, false, true]);
    assert StepAt(r, 0) && StepAt(r, 1) && StepAt(r, 2);
  }

  /** And for a break in page 0: the last address there is, and the arena is beyond all memory. */
  lemma OvershootInstance()
    ensures var a, a' := Arena(0, TwoMeg), Arena(Limit - 1, 2 * TwoMeg);
            Sound(a) && Called(a, {}, Limit - 1, true, a', Range(TwoMeg, TwoMeg)) && !Sound(a')
  {
    NeededZeroIff(Arena(0, TwoMeg), Limit - 1);
  }
}
