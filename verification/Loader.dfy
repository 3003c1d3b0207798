/**
 The loading of a program file, lib/emul/loader.cc:67-172: text and data are mapped from the file,
 the rest of the last data page is cleared and the remaining bss pages are allocated. Then exec
 sets the break area aside (lib/emul/emul_exec.cc:508-511). Addresses are 32-bit and unsigned.
 */
module Loader {
  import opened BreakArea

  const InitialBrkSize: nat := 0x20_0000

  datatype LoaderInfo = LoaderInfo(textOffset: nat, textStart: nat, textSize: nat,
                                   dataOffset: nat, dataStart: nat, dataSize: nat, bssSize: nat)

  type Memory = map<nat, bv8>
  /** The file's bytes, with whatever the pager supplies past its end. */
  type FileBytes = nat -> bv8

  ghost predicate Words(lp: LoaderInfo) {
    && lp.textOffset < Limit && lp.textStart < Limit && lp.textSize < Limit
    && lp.dataOffset < Limit && lp.dataStart < Limit && lp.dataSize < Limit && lp.bssSize < Limit
  }

  /** The mathematical end of the data and of the bss. */
  function DataEnd(lp: LoaderInfo): nat {
    lp.dataStart + lp.dataSize
  }

  function BssEnd(lp: LoaderInfo): nat {
    DataEnd(lp) + lp.bssSize
  }

  /** The sums and the rounding of the header's sizes stay below 2^32. */
  predicate NoWrap(lp: LoaderInfo) {
    BssEnd(lp) + (Page - 1) < Limit
  }

  lemma RoundUp(x: nat)
    requires x + (Page - 1) < Limit
    ensures x <= Round(x) < x + Page && Round(x) % Page == 0
  {
  }

  // The kernel.

  predicate Free(mem: Memory, at: nat, size: nat) {
    size == 0 || (at + size <= VmMax && forall a :: at <= a < at + size ==> a !in mem)
  }

  function Span(at: nat, size: nat): set<nat> {
    Interval(at, at + size)
  }

  /** Memory with the bytes of a file, from `offset` on, in place. */
  function Placed(mem: Memory, at: nat, size: nat, file: FileBytes, offset: nat): (m: Memory)
    ensures m.Keys == mem.Keys + Span(at, size)
    ensures forall a :: a in m ==> m[a] == if at <= a < at + size then file(offset + (a - at)) else mem[a]
  {
    map a | a in mem.Keys + Span(at, size) :: if at <= a < at + size then file(offset + (a - at)) else mem[a]
  }

  function Zeros(): FileBytes {
    _ => 0
  }

  datatype Outcome = Loaded(newBrk: nat) | Failed | Fault

  // What a good image is.

  /** Text and data are the file's; the bss, up to the end of its last page, is zero; and without
      a bss the last data page goes on with what follows in the file. */
  function ByteOf(mem: Memory, file: FileBytes, lp: LoaderInfo, a: nat): bv8 {
    if a in mem then mem[a]
    else if lp.textStart <= a < lp.textStart + lp.textSize then file(lp.textOffset + (a - lp.textStart))
    else if a < lp.dataStart || (DataEnd(lp) <= a && lp.bssSize > 0) then 0
    else file(lp.dataOffset + (a - lp.dataStart))
  }

  /** Where the image goes is aligned, free, and in two separate pieces. */
  ghost predicate Loadable(mem: Memory, lp: LoaderInfo)
    requires NoWrap(lp)
  {
    RoundUp(BssEnd(lp));
    && lp.textStart % Page == 0 && lp.dataStart % Page == 0
    && Free(mem, lp.textStart, lp.textSize) && Free(mem, lp.dataStart, Round(BssEnd(lp)) - lp.dataStart)
    && Span(lp.textStart, lp.textSize) !! Span(lp.dataStart, Round(BssEnd(lp)) - lp.dataStart)
  }

  // The image in four steps.

  function Width(lo: nat, hi: nat): nat {
    if lo < hi then hi - lo else 0
  }

  function WithText(mem: Memory, file: FileBytes, lp: LoaderInfo): Memory {
    Placed(mem, lp.textStart, lp.textSize, file, lp.textOffset)
  }

  function WithData(mem: Memory, file: FileBytes, lp: LoaderInfo): Memory {
    Placed(mem, lp.dataStart, Round(lp.dataSize), file, lp.dataOffset)
  }

  /** The last data page cleared from the end of the data on. */
  function Cleared(mem: Memory, dataEnd: nat): Memory {
    Placed(mem, dataEnd, Width(dataEnd, Round(dataEnd)), Zeros(), 0)
  }

  function WithBss(mem: Memory, dataEnd: nat, newBrk: nat): Memory {
    Placed(Cleared(mem, dataEnd), Round(dataEnd), Width(Round(dataEnd), newBrk), Zeros(), 0)
  }

  lemma PlacedNone(mem: Memory, at: nat, file: FileBytes, offset: nat)
    ensures Placed(mem, at, 0, file, offset) == mem
  {
  }

  lemma NewBrkIs(lp: LoaderInfo)
    ensures var newBrk := Round(BssEnd(lp) % Limit);
            newBrk % Page == 0 && (BssEnd(lp) <= newBrk <==> NoWrap(lp))
  {
    if NoWrap(lp) {
      RoundUp(BssEnd(lp));
    } else if BssEnd(lp) < Limit {
      assert (BssEnd(lp) + (Page - 1)) % Limit < Page;
    }
  }

  lemma Sizes(lp: LoaderInfo)
    requires NoWrap(lp) && lp.dataStart % Page == 0
    ensures Round(DataEnd(lp)) == lp.dataStart + Round(lp.dataSize)
    ensures lp.dataSize <= Round(lp.dataSize)
    ensures DataEnd(lp) <= Round(DataEnd(lp)) <= Round(BssEnd(lp))
  {
    RoundUp(lp.dataSize);
    RoundUp(DataEnd(lp));
    RoundUp(BssEnd(lp));
    RoundShift(lp.dataStart, lp.dataSize);
    RoundGrows(DataEnd(lp), BssEnd(lp));
  }

  lemma RoundShift(start: nat, size: nat)
    requires start % Page == 0 && start + size + (Page - 1) < Limit
    ensures Round(start + size) == start + Round(size)
  {
    var k, x := start / Page, size + (Page - 1);
    assert start == k * Page;
    PagesMore(k, x);
    assert Round(size) == x / Page * Page;
    assert Round(start + size) == (k * Page + x) / Page * Page;
  }

  lemma PagesMore(k: nat, x: nat)
    ensures (k * Page + x) / Page == k + x / Page
  {
  }

  lemma RoundGrows(x: nat, y: nat)
    requires x <= y && y + (Page - 1) < Limit
    ensures Round(x) <= Round(y)
  {
    assert (x + (Page - 1)) / Page <= (y + (Page - 1)) / Page;
  }

  /** The three mappings succeed exactly when the image can be loaded. */
  lemma LoadableIff(mem: Memory, file: FileBytes, lp: LoaderInfo)
    requires NoWrap(lp) && lp.dataStart % Page == 0 && lp.textStart % Page == 0
    requires Free(mem, lp.textStart, lp.textSize)
    ensures var m1 := WithText(mem, file, lp);
            var m2 := WithData(m1, file, lp);
            Loadable(mem, lp) <==>
            && Free(m1, lp.dataStart, Round(lp.dataSize))
            && Free(Cleared(m2, DataEnd(lp)), Round(DataEnd(lp)), Width(Round(DataEnd(lp)), Round(BssEnd(lp))))
  {
    Sizes(lp);
  }

  lemma ClearsData(mem: Memory, file: FileBytes, lp: LoaderInfo)
    requires NoWrap(lp) && lp.dataStart % Page == 0
    ensures Span(DataEnd(lp), Width(DataEnd(lp), Round(DataEnd(lp)))) <= WithData(mem, file, lp).Keys
  {
    Sizes(lp);
  }

  /** The byte at `a` when both segments are mapped. */
  lemma MappedByte(mem: Memory, file: FileBytes, lp: LoaderInfo, a: nat)
    requires NoWrap(lp) && Loadable(mem, lp)
    ensures DataEnd(lp) <= Round(DataEnd(lp)) <= Round(BssEnd(lp))
    ensures var m2 := WithData(WithText(mem, file, lp), file, lp);
            && (a in m2 <==> || a in mem || lp.textStart <= a < lp.textStart + lp.textSize
                             || lp.dataStart <= a < Round(DataEnd(lp)))
            && (a in m2 && !(DataEnd(lp) <= a < Round(DataEnd(lp))) ==> m2[a] == ByteOf(mem, file, lp, a))
            && (DataEnd(lp) <= a < Round(DataEnd(lp)) ==>
                  a in m2 && m2[a] == file(lp.dataOffset + (a - lp.dataStart)))
  {
    Sizes(lp);
    var m1 := WithText(mem, file, lp);
    assert a in m1 <==> a in mem || lp.textStart <= a < lp.textStart + lp.textSize;
    if lp.dataStart <= a < Round(BssEnd(lp)) {
      Elsewhere(mem, lp, a);
    }
  }

  lemma Elsewhere(mem: Memory, lp: LoaderInfo, a: nat)
    requires NoWrap(lp) && Loadable(mem, lp) && lp.dataStart <= a < Round(BssEnd(lp))
    ensures a !in mem && !(lp.textStart <= a < lp.textStart + lp.textSize)
  {
    assert a in Span(lp.dataStart, Round(BssEnd(lp)) - lp.dataStart);
    assert lp.textStart <= a < lp.textStart + lp.textSize ==> a in Span(lp.textStart, lp.textSize);
  }

  /** The byte at `a`, when the image is loaded. */
  lemma ByteIs(mem: Memory, file: FileBytes, lp: LoaderInfo, a: nat)
    requires NoWrap(lp) && Loadable(mem, lp)
    ensures var m2 := WithData(WithText(mem, file, lp), file, lp);
            var m' := if lp.bssSize == 0 then m2 else WithBss(m2, DataEnd(lp), Round(BssEnd(lp)));
            && (a in m' <==> || a in mem || lp.textStart <= a < lp.textStart + lp.textSize
                             || lp.dataStart <= a < Round(BssEnd(lp)))
            && (a in m' ==> m'[a] == ByteOf(mem, file, lp, a))
  {
    MappedByte(mem, file, lp, a);
    if lp.dataStart <= a < Round(BssEnd(lp)) {
      Elsewhere(mem, lp, a);
    }
    if lp.bssSize > 0 {
      BssByte(WithData(WithText(mem, file, lp), file, lp), DataEnd(lp), Round(BssEnd(lp)), a);
    }
  }

  lemma BssByte(mem: Memory, dataEnd: nat, newBrk: nat, a: nat)
    requires dataEnd <= Round(dataEnd) <= newBrk
    ensures var m' := WithBss(mem, dataEnd, newBrk);
            && (a in m' <==> a in mem || dataEnd <= a < newBrk)
            && (a in m' ==> m'[a] == if dataEnd <= a < newBrk then 0 else mem[a])
  {
    var m := Cleared(mem, dataEnd);
    assert a in m <==> a in mem || dataEnd <= a < Round(dataEnd);
  }

  /** The new memory, byte by byte, when the image ends at `newBrk`. */
  ghost predicate Image(mem: Memory, mem': Memory, file: FileBytes, lp: LoaderInfo, newBrk: nat) {
    && (forall a :: a in mem' <==>
          a in mem || lp.textStart <= a < lp.textStart + lp.textSize || lp.dataStart <= a < newBrk)
    && (forall a :: a in mem' ==> mem'[a] == ByteOf(mem, file, lp, a))
  }

  lemma ImageIs(mem: Memory, m2: Memory, mem': Memory, file: FileBytes, lp: LoaderInfo)
    requires NoWrap(lp) && Loadable(mem, lp) && m2 == WithData(WithText(mem, file, lp), file, lp)
    requires mem' == if lp.bssSize == 0 then m2 else WithBss(m2, DataEnd(lp), Round(BssEnd(lp)))
    ensures Image(mem, mem', file, lp, Round(BssEnd(lp)))
  {
    forall a: nat {
      ByteIs(mem, file, lp, a);
    }
  }

  /** What a load must come to. */
  ghost predicate Right(mem: Memory, mem': Memory, file: FileBytes, lp: LoaderInfo, r: Outcome) {
    NoWrap(lp) ==>
      && r != Fault && (r == Failed <==> !Loadable(mem, lp))
      && (r.Loaded? ==> Image(mem, mem', file, lp, r.newBrk))
  }

  lemma TextFails(mem: Memory, mem': Memory, file: FileBytes, lp: LoaderInfo)
    requires lp.textStart % Page != 0 || !Free(mem, lp.textStart, lp.textSize)
    ensures Right(mem, mem', file, lp, Failed)
  {
  }

  lemma DataFails(mem: Memory, mem': Memory, file: FileBytes, lp: LoaderInfo)
    requires lp.textStart % Page == 0 && Free(mem, lp.textStart, lp.textSize)
    requires lp.dataStart % Page != 0 || !Free(WithText(mem, file, lp), lp.dataStart, Round(lp.dataSize))
    ensures Right(mem, mem', file, lp, Failed)
  {
    if NoWrap(lp) && lp.dataStart % Page == 0 {
      LoadableIff(mem, file, lp);
    }
  }

  /** Both segments are mapped. */
  ghost predicate BothMapped(mem: Memory, m2: Memory, file: FileBytes, lp: LoaderInfo) {
    && lp.textStart % Page == 0 && Free(mem, lp.textStart, lp.textSize)
    && lp.dataStart % Page == 0 && Free(WithText(mem, file, lp), lp.dataStart, Round(lp.dataSize))
    && m2 == WithData(WithText(mem, file, lp), file, lp)
  }

  lemma WithoutBss(mem: Memory, m2: Memory, file: FileBytes, lp: LoaderInfo)
    requires BothMapped(mem, m2, file, lp) && lp.bssSize == 0
    ensures Right(mem, m2, file, lp, Loaded(Round(BssEnd(lp) % Limit)))
  {
    if NoWrap(lp) {
      BssEndIs(lp);
      NoBssLoadable(mem, m2, file, lp);
      ImageIs(mem, m2, m2, file, lp);
    }
  }

  lemma BssEndIs(lp: LoaderInfo)
    requires NoWrap(lp)
    ensures DataEnd(lp) % Limit == DataEnd(lp) && BssEnd(lp) % Limit == BssEnd(lp)
  {
  }

  lemma NoBssLoadable(mem: Memory, m2: Memory, file: FileBytes, lp: LoaderInfo)
    requires BothMapped(mem, m2, file, lp) && NoWrap(lp) && lp.bssSize == 0
    ensures Loadable(mem, lp)
  {
    LoadableIff(mem, file, lp);
  }

  lemma WithItsBss(mem: Memory, m2: Memory, mem': Memory, file: FileBytes, lp: LoaderInfo, r: Outcome)
    requires BothMapped(mem, m2, file, lp) && lp.bssSize > 0
    requires BssMade(m2, mem', DataEnd(lp) % Limit, Round(BssEnd(lp) % Limit), r)
    ensures Right(mem, mem', file, lp, r)
  {
    if NoWrap(lp) {
      BssEndIs(lp);
      BssOutcome(mem, m2, mem', file, lp, r);
      if r.Loaded? {
        ImageIs(mem, m2, mem', file, lp);
      }
    }
  }

  lemma BssOutcome(mem: Memory, m2: Memory, mem': Memory, file: FileBytes, lp: LoaderInfo, r: Outcome)
    requires BothMapped(mem, m2, file, lp) && NoWrap(lp)
    requires BssMade(m2, mem', DataEnd(lp), Round(BssEnd(lp)), r)
    ensures r != Fault && (r == Failed <==> !Loadable(mem, lp))
  {
    LoadableIff(mem, file, lp);
    ClearsData(WithText(mem, file, lp), file, lp);
  }

  /** The outcome of clearing the rest of the last data page and allocating the pages after it. */
  ghost predicate BssMade(mem: Memory, mem': Memory, dataEnd: nat, newBrk: nat, r: Outcome) {
    && (r == Fault <==> !(Span(dataEnd, Width(dataEnd, Round(dataEnd))) <= mem.Keys))
    && (r == Failed <==>
        r != Fault && !Free(Cleared(mem, dataEnd), Round(dataEnd), Width(Round(dataEnd), newBrk)))
    && (r.Loaded? ==> r.newBrk == newBrk && mem' == WithBss(mem, dataEnd, newBrk))
  }

  /** What the read of a region's last, partial page comes to. The code never sets the length that it
      passes, so that any number of bytes may be read. */
  datatype Tail = ReadFails | Reads(count: nat)

  datatype Region = Mapped | Unmapped | Faulted

  /** What map_region comes to: whole pages are mapped, and the rest is read behind them, where there
      must be memory already. */
  ghost predicate RegionRan(mem: Memory, mem': Memory, file: FileBytes, offset: nat, at: nat, size: nat,
                            tail: Tail, r: Region)
  {
    if at % Page != 0 || !Free(mem, at, Trunc(size)) then r == Unmapped && mem' == mem
    else
      var m := Placed(mem, at, Trunc(size), file, offset);
      if size % Page == 0 then r == Mapped && mem' == m
      else if tail == ReadFails then r == Unmapped && mem' == m
      else if !(Span(at + Trunc(size), tail.count) <= m.Keys) then r == Faulted && mem' == m
      else r == Mapped && mem' == Placed(m, at + Trunc(size), tail.count, file, offset + Trunc(size))
  }

  /** The steps behind the text as the code takes them, whatever the header says: sums are 32-bit sums. */
  ghost predicate RestRan(m1: Memory, mem': Memory, file: FileBytes, lp: LoaderInfo, r: Outcome) {
    if lp.dataStart % Page != 0 || !Free(m1, lp.dataStart, Round(lp.dataSize)) then
      r == Failed
    else if lp.bssSize == 0 then
      r == Loaded(Round(BssEnd(lp) % Limit)) && mem' == WithData(m1, file, lp)
    else
      BssMade(WithData(m1, file, lp), mem', DataEnd(lp) % Limit, Round(BssEnd(lp) % Limit), r)
  }

  /** All of it; `m1` is memory behind the first step. */
  ghost predicate Ran(mem: Memory, m1: Memory, mem': Memory, file: FileBytes, lp: LoaderInfo, tail: Tail, r: Outcome) {
    if RegionRan(mem, m1, file, lp.textOffset, lp.textStart, lp.textSize, tail, Mapped) then
      RestRan(m1, mem', file, lp, r)
    else if RegionRan(mem, m1, file, lp.textOffset, lp.textStart, lp.textSize, tail, Faulted) then r == Fault
    else RegionRan(mem, m1, file, lp.textOffset, lp.textStart, lp.textSize, tail, Unmapped) && r == Failed
  }

  lemma WholeText(mem: Memory, m1: Memory, file: FileBytes, lp: LoaderInfo, tail: Tail, r: Region)
    requires lp.textSize % Page == 0
    requires RegionRan(mem, m1, file, lp.textOffset, lp.textStart, lp.textSize, tail, r)
    ensures r != Faulted
    ensures r == Mapped <==> lp.textStart % Page == 0 && Free(mem, lp.textStart, lp.textSize)
    ensures r == Mapped ==> m1 == WithText(mem, file, lp)
  {
    assert Trunc(lp.textSize) == lp.textSize;
  }

  lemma WholeData(m1: Memory, m2: Memory, file: FileBytes, lp: LoaderInfo, r: Region)
    requires RegionRan(m1, m2, file, lp.dataOffset, lp.dataStart, Round(lp.dataSize), ReadFails, r)
    ensures r == Mapped <==> lp.dataStart % Page == 0 && Free(m1, lp.dataStart, Round(lp.dataSize))
    ensures r == Mapped ==> m2 == WithData(m1, file, lp)
  {
    assert Round(lp.dataSize) % Page == 0 && Trunc(Round(lp.dataSize)) == Round(lp.dataSize);
  }

  /** What a load comes to, byte by byte, for a header whose sums stay below 2^32. */
  lemma RightMeans(mem: Memory, mem': Memory, file: FileBytes, lp: LoaderInfo, newBrk: nat)
    requires lp.dataStart + lp.dataSize + lp.bssSize + 4095 < 0x1_0000_0000
    requires Right(mem, mem', file, lp, Loaded(newBrk))
    requires newBrk == (lp.dataStart + lp.dataSize + lp.bssSize + 4095) / 4096 * 4096
    ensures forall a: nat :: a in mem' <==>
              a in mem || lp.textStart <= a < lp.textStart + lp.textSize || lp.dataStart <= a < newBrk
    ensures forall a: nat :: a in mem ==> mem'[a] == mem[a]
    ensures forall a: nat :: lp.textStart <= a < lp.textStart + lp.textSize ==>
              a !in mem && mem'[a] == file(lp.textOffset + (a - lp.textStart))
    ensures forall a: nat :: lp.dataStart <= a < newBrk ==>
              && a !in mem
              && mem'[a] == if lp.dataStart + lp.dataSize <= a && lp.bssSize > 0 then 0
                            else file(lp.dataOffset + (a - lp.dataStart))
  {
    assert NoWrap(lp) && newBrk == Round(BssEnd(lp));
    forall a: nat | lp.textStart <= a < lp.textStart + lp.textSize ensures a in mem' && a !in mem {
      assert a in mem' <==> a in mem || lp.textStart <= a < lp.textStart + lp.textSize || lp.dataStart <= a < newBrk;
    }
    forall a: nat | lp.dataStart <= a < newBrk
      ensures a in mem' && a !in mem && !(lp.textStart <= a < lp.textStart + lp.textSize)
    {
      Elsewhere(mem, lp, a);
      assert a in mem' <==> a in mem || lp.textStart <= a < lp.textStart + lp.textSize || lp.dataStart <= a < newBrk;
    }
  }

  /** Without such sums, with text of whole pages, it is loaded exactly if both pieces start at a page, are
      free and do not meet. */
  lemma LoadableMeans(mem: Memory, lp: LoaderInfo)
    requires lp.dataStart + lp.dataSize + lp.bssSize + 4095 < 0x1_0000_0000
    ensures var end := (lp.dataStart + lp.dataSize + lp.bssSize + 4095) / 4096 * 4096;
            Loadable(mem, lp) <==>
              && lp.textStart % 4096 == 0 && lp.dataStart % 4096 == 0
              && (lp.textSize > 0 ==> lp.textStart + lp.textSize <= 0xc000_0000)
              && (forall a: nat :: lp.textStart <= a < lp.textStart + lp.textSize ==> a !in mem)
              && (end > lp.dataStart ==> end <= 0xc000_0000)
              && (forall a: nat :: lp.dataStart <= a < end ==> a !in mem)
              && (|| lp.textSize == 0 || end <= lp.dataStart
                  || lp.textStart + lp.textSize <= lp.dataStart || end <= lp.textStart)
  {
    RoundUp(BssEnd(lp));
    var end := Round(BssEnd(lp));
    assert end == (BssEnd(lp) + 4095) / 4096 * 4096 && lp.dataStart <= end;
    Apart(lp.textStart, lp.textSize, lp.dataStart, end - lp.dataStart);
  }

  lemma Apart(at: nat, size: nat, at': nat, size': nat)
    ensures Span(at, size) !! Span(at', size') <==>
              size == 0 || size' == 0 || at + size <= at' || at' + size' <= at
  {
    if Span(at, size) !! Span(at', size') && size > 0 && size' > 0 {
      var a := if at < at' then at' else at;
      assert !(a in Span(at, size) && a in Span(at', size'));
    }
  }

  /** What map_region does with whole pages, byte by byte. */
  lemma RegionMeans(mem: Memory, mem': Memory, file: FileBytes, offset: nat, at: nat, size: nat, tail: Tail, r: Region)
    requires RegionRan(mem, mem', file, offset, at, size, tail, r) && size % 4096 == 0
    ensures r == Mapped <==>
              && at % 4096 == 0 && (size > 0 ==> at + size <= 0xc000_0000)
              && forall a: nat :: at <= a < at + size ==> a !in mem
    ensures r == Mapped ==> forall a: nat :: at <= a < at + size ==> a in mem' && mem'[a] == file(offset + (a - at))
    ensures forall a: nat :: r != Mapped || !(at <= a < at + size) ==>
              (a in mem' <==> a in mem) && (a in mem' ==> mem'[a] == mem[a])
  {
    assert Trunc(size) == size;
    PlacedNone(mem, at, file, offset);
  }

  /** A text that does not end at a page is never loaded to its end where nothing was before: the
      load fails or faults, or the read brought nothing. */
  lemma TailNeverLoaded(mem: Memory, m1: Memory, mem': Memory, file: FileBytes, lp: LoaderInfo, tail: Tail, r: Outcome)
    requires Ran(mem, m1, mem', file, lp, tail, r) && lp.textSize % Page != 0
    requires lp.textStart + Trunc(lp.textSize) !in mem && r.Loaded?
    ensures tail == Reads(0) && lp.textStart + Trunc(lp.textSize) !in m1
  {
    var end := lp.textStart + Trunc(lp.textSize);
    assert forall n: nat :: n > 0 ==> end in Span(end, n);
  }

  /** For a header that does not wrap, that is the image if it can be loaded. And a break that covers
      the image is what comes out exactly for such a header. */
  lemma RanIsRight(mem: Memory, m1: Memory, mem': Memory, file: FileBytes, lp: LoaderInfo, tail: Tail, r: Outcome)
    requires Ran(mem, m1, mem', file, lp, tail, r)
    ensures lp.textSize % Page == 0 ==> Right(mem, mem', file, lp, r)
    ensures r.Loaded? ==> r.newBrk == Round(BssEnd(lp) % Limit) && r.newBrk % Page == 0
    ensures r.Loaded? ==> (BssEnd(lp) <= r.newBrk <==> NoWrap(lp))
  {
    NewBrkIs(lp);
    if lp.textSize % Page == 0 {
      var region := if RegionRan(mem, m1, file, lp.textOffset, lp.textStart, lp.textSize, tail, Mapped)
                    then Mapped else Unmapped;
      WholeText(mem, m1, file, lp, tail, region);
      if region == Unmapped {
        TextFails(mem, mem', file, lp);
      } else {
        RestIsRight(mem, mem', file, lp, r);
      }
    }
  }

  lemma RestIsRight(mem: Memory, mem': Memory, file: FileBytes, lp: LoaderInfo, r: Outcome)
    requires lp.textStart % Page == 0 && Free(mem, lp.textStart, lp.textSize)
    requires RestRan(WithText(mem, file, lp), mem', file, lp, r)
    ensures Right(mem, mem', file, lp, r)
  {
    if lp.dataStart % Page != 0 || !Free(WithText(mem, file, lp), lp.dataStart, Round(lp.dataSize)) {
      DataFails(mem, mem', file, lp);
    } else if lp.bssSize == 0 {
      WithoutBss(mem, mem', file, lp);
    } else {
      WithItsBss(mem, WithData(WithText(mem, file, lp), file, lp), mem', file, lp, r);
    }
  }

  /** A header that wraps: four gigabytes of bss behind one page, and it loads with a break of one
      page and no memory at all. */
  lemma WrappedHeaderLoads(m1: Memory, mem': Memory, file: FileBytes, tail: Tail, r: Outcome)
    requires Ran(map[], m1, mem', file, LoaderInfo(0, 0x2000, 0, 0, 0x1000, 0, 0xffff_ffff), tail, r)
    ensures r == Loaded(0x1000) && mem' == map[]
    ensures BssEnd(LoaderInfo(0, 0x2000, 0, 0, 0x1000, 0, 0xffff_ffff)) == 0x1_0000_0fff
  {
    var lp := LoaderInfo(0, 0x2000, 0, 0, 0x1000, 0, 0xffff_ffff);
    WrappedSums(lp);
    NothingMapped(file, lp);
    var region := if RegionRan(map[], m1, file, lp.textOffset, lp.textStart, lp.textSize, tail, Mapped)
                  then Mapped else Unmapped;
    WholeText(map[], m1, file, lp, tail, region);
    EmptyBss(mem', 0x1000, r);
  }

  /** Without a bss: one byte of data, and the file goes on behind it to the end of the page. */
  lemma TailNotCleared(file: FileBytes)
    ensures var lp := LoaderInfo(0, 0, 0, 0, 0x1000, 1, 0);
            DataEnd(lp) == 0x1001 && ByteOf(map[], file, lp, 0x1001) == file(1)
  {
  }

  lemma WrappedSums(lp: LoaderInfo)
    requires lp == LoaderInfo(0, 0x2000, 0, 0, 0x1000, 0, 0xffff_ffff)
    ensures BssEnd(lp) == 0x1_0000_0fff && DataEnd(lp) % Limit == 0x1000 && Round(BssEnd(lp) % Limit) == 0x1000
  {
    assert BssEnd(lp) % Limit == 0xfff && Round(0xfff) == 0x1000;
  }

  /** Segments of no bytes leave empty memory as it is. */
  lemma NothingMapped(file: FileBytes, lp: LoaderInfo)
    requires lp.textSize == 0 && lp.dataSize == 0
    ensures WithText(map[], file, lp) == map[] && WithData(map[], file, lp) == map[] && Round(0) == 0
  {
    PlacedNone(map[], lp.textStart, file, lp.textOffset);
    PlacedNone(map[], lp.dataStart, file, lp.dataOffset);
  }

  /** A bss that ends where it starts, at a page, needs nothing. */
  lemma EmptyBss(mem': Memory, at: nat, r: Outcome)
    requires at % Page == 0 && at < Limit && BssMade(map[], mem', at, at, r)
    ensures r == Loaded(at) && mem' == map[]
  {
    Aligned(at);
    PlacedNone(map[], at, Zeros(), 0);
  }

  // The code, over the address space that it changes.

  class AddressSpace {
    var mem: Memory

    /** io_map and vm_allocate at a fixed place. */
    method Map(at: nat, size: nat, file: FileBytes, offset: nat) returns (ok: bool)
      modifies this
      ensures ok == Free(old(mem), at, size)
      ensures mem == if ok then Placed(old(mem), at, size, file, offset) else old(mem)
    {
      ok := Free(mem, at, size);
      if ok {
        mem := Placed(mem, at, size, file, offset);
      }
    }

    method Bzero(at: nat, size: nat) returns (ok: bool)
      modifies this
      ensures ok == (Span(at, size) <= old(mem.Keys))
      ensures mem == if ok then Placed(old(mem), at, size, Zeros(), 0) else old(mem)
    {
      ok := Span(at, size) <= mem.Keys;
      if ok {
        mem := Placed(mem, at, size, Zeros(), 0);
      }
    }

    /** map_region */
    method MapRegion(file: FileBytes, fileOffset: nat, vmOffset: nat, size: nat, tail: Tail) returns (r: Region)
      requires vmOffset < Limit
      modifies this
      ensures RegionRan(old(mem), mem, file, fileOffset, vmOffset, size, tail, r)
    {
      var rsize := Trunc(size);
      Aligned(vmOffset);
      PlacedNone(mem, vmOffset, file, fileOffset);
      if vmOffset != Round(vmOffset) {
        return Unmapped;
      }
      if rsize > 0 {
        var ok := Map(vmOffset, rsize, file, fileOffset);
        if !ok {
          return Unmapped;
        }
      }
      r := if size - rsize == 0 then Mapped else Unmapped;
      if size - rsize != 0 && tail.Reads? {
        r := ReadTail(file, fileOffset + rsize, vmOffset + rsize, tail.count);
      }
    }

    /** io_read into memory that must be there. */
    method ReadTail(file: FileBytes, offset: nat, at: nat, count: nat) returns (r: Region)
      modifies this
      ensures r == if Span(at, count) <= old(mem.Keys) then Mapped else Faulted
      ensures mem == if r == Mapped then Placed(old(mem), at, count, file, offset) else old(mem)
    {
      r := if Span(at, count) <= mem.Keys then Mapped else Faulted;
      if r == Mapped {
        mem := Placed(mem, at, count, file, offset);
      }
    }

    /** loader_load_program_file. */
    method LoadProgramFile(file: FileBytes, lp: LoaderInfo, tail: Tail) returns (r: Outcome, ghost m1: Memory)
      requires Words(lp)
      modifies this
      ensures Ran(old(mem), m1, mem, file, lp, tail, r)
      ensures lp.textSize % Page == 0 ==> Right(old(mem), mem, file, lp, r)
      ensures r.Loaded? ==> r.newBrk == Round(BssEnd(lp) % Limit) && r.newBrk % Page == 0
      ensures r.Loaded? ==> (BssEnd(lp) <= r.newBrk <==> NoWrap(lp))
    {
      ghost var before := mem;
      r, m1 := Load(file, lp, tail);
      RanIsRight(before, m1, mem, file, lp, tail, r);
    }

    method Load(file: FileBytes, lp: LoaderInfo, tail: Tail) returns (r: Outcome, ghost m1: Memory)
      requires Words(lp)
      modifies this
      ensures Ran(old(mem), m1, mem, file, lp, tail, r)
    {
      var region := MapRegion(file, lp.textOffset, lp.textStart, lp.textSize, tail);
      m1 := mem;
      if region == Mapped {
        r := LoadRest(file, lp);
      } else {
        r := if region == Faulted then Fault else Failed;
      }
    }

    /** The data and the bss. */
    method LoadRest(file: FileBytes, lp: LoaderInfo) returns (r: Outcome)
      requires Words(lp)
      modifies this
      ensures RestRan(old(mem), mem, file, lp, r)
    {
      ghost var m1 := mem;
      var region := MapRegion(file, lp.dataOffset, lp.dataStart, Round(lp.dataSize), ReadFails);
      WholeData(m1, mem, file, lp, region);
      if region != Mapped {
        return Failed;
      }
      var newBrk := Round((lp.dataStart + lp.dataSize + lp.bssSize) % Limit);
      if lp.bssSize == 0 {
        return Loaded(newBrk);
      }
      r := MakeBss((lp.dataStart + lp.dataSize) % Limit, newBrk);
    }

    method MakeBss(dataEnd: nat, newBrk: nat) returns (r: Outcome)
      modifies this
      ensures BssMade(old(mem), mem, dataEnd, newBrk, r)
    {
      var bssPageStart := Round(dataEnd);
      var ok := Clear(dataEnd, bssPageStart);
      if !ok {
        return Fault;
      }
      ok := AllocateUpTo(bssPageStart, newBrk);
      r := if ok then Loaded(newBrk) else Failed;
    }

    method Clear(from: nat, end: nat) returns (ok: bool)
      modifies this
      ensures ok == (Span(from, Width(from, end)) <= old(mem.Keys))
      ensures mem == if ok then Placed(old(mem), from, Width(from, end), Zeros(), 0) else old(mem)
    {
      ok := true;
      if end > from {
        ok := Bzero(from, end - from);
      } else {
        PlacedNone(mem, from, Zeros(), 0);
      }
    }

    method AllocateUpTo(from: nat, end: nat) returns (ok: bool)
      modifies this
      ensures ok == Free(old(mem), from, Width(from, end))
      ensures mem == if ok then Placed(old(mem), from, Width(from, end), Zeros(), 0) else old(mem)
    {
      ok := true;
      if from < end {
        ok := Map(from, end - from, Zeros(), 0);
      } else {
        PlacedNone(mem, from, Zeros(), 0);
      }
    }

    /** Set the break area aside at `newBrk`, where the kernel must still have room. */
    method SetBreakAside(newBrk: nat) returns (brk: Brk?)
      requires newBrk % Page == 0
      ensures brk == null <==> !Fits(PagesOf(mem), newBrk, InitialBrkSize)
      ensures brk != null ==>
                && fresh(brk) && brk.Valid() && brk.base == newBrk
                && brk.Now() == Arena(newBrk, newBrk + InitialBrkSize)
                && brk.pages == PagesOf(mem) + Range(newBrk, InitialBrkSize)
    {
      brk := null;
      if Fits(PagesOf(mem), newBrk, InitialBrkSize) {
        brk := new Brk(PagesOf(mem), newBrk, InitialBrkSize);
      }
    }

    /** reset_user_stack, with the argument block at the top of the new stack. */
    method ResetStack(was: Stack, now: Stack, block: seq<bv8>) returns (ok: bool)
      requires |block| <= now.size
      modifies this
      ensures ok == Free(Removed(old(mem), was), now.base, now.size)
      ensures ok ==> mem == WithStack(old(mem), was, now, block)
      ensures ok <==> || now.size == 0
                      || (&& now.base + now.size <= 0xc000_0000
                          && forall a: nat :: now.base <= a < now.base + now.size ==>
                               a !in old(mem) || was.base <= a < was.base + was.size)
      ensures ok ==> forall a: nat :: now.base <= a < now.base + now.size ==>
                && a in mem
                && mem[a] == if a < now.base + now.size - |block| then 0 else block[a - (now.base + now.size - |block|)]
      ensures ok ==> forall a: nat ::
                was.base <= a < was.base + was.size && !(now.base <= a < now.base + now.size) ==> a !in mem
      ensures ok ==> forall a: nat ::
                !(was.base <= a < was.base + was.size) && !(now.base <= a < now.base + now.size) ==>
                (a in mem <==> a in old(mem)) && (a in mem ==> mem[a] == old(mem)[a])
    {
      StackRoomIs(mem, was, now);
      ghost var before := mem;
      ok := Restack(was, now, block);
      if ok {
        StackIs(before, was, now, block, mem);
      }
    }

    /** Its steps. */
    method Restack(was: Stack, now: Stack, block: seq<bv8>) returns (ok: bool)
      requires |block| <= now.size
      modifies this
      ensures ok == Free(Removed(old(mem), was), now.base, now.size)
      ensures ok ==> mem == WithStack(old(mem), was, now, block)
    {
      mem := Removed(mem, was);
      ok := Map(now.base, now.size, Zeros(), 0);
      if ok {
        mem := Placed(mem, now.base + now.size - |block|, |block|, Bytes(block), 0);
      }
    }

    /** Load the program, give it its stack with the argument block, and start its break area where
        the loader says: right behind the image, exactly for a header that does not wrap. */
    method StartProgram(file: FileBytes, lp: LoaderInfo, tail: Tail, was: Stack, now: Stack, block: seq<bv8>)
      returns (r: Outcome, ghost m1: Memory, ghost loaded: Memory, brk: Brk?)
      requires Words(lp) && |block| <= now.size
      modifies this
      ensures Ran(old(mem), m1, loaded, file, lp, tail, r)
      ensures lp.textSize % Page == 0 ==> Right(old(mem), loaded, file, lp, r)
      ensures r.Loaded? ==> (BssEnd(lp) <= r.newBrk <==> NoWrap(lp))
      ensures brk != null ==> mem == WithStack(loaded, was, now, block)
      ensures brk != null ==> forall a: nat :: now.base <= a < now.base + now.size ==>
                && a in mem
                && mem[a] == if a < now.base + now.size - |block| then 0 else block[a - (now.base + now.size - |block|)]
      ensures brk != null ==> forall a: nat ::
                was.base <= a < was.base + was.size && !(now.base <= a < now.base + now.size) ==> a !in mem
      ensures brk != null ==> forall a: nat ::
                !(was.base <= a < was.base + was.size) && !(now.base <= a < now.base + now.size) ==>
                (a in mem <==> a in loaded) && (a in mem ==> mem[a] == loaded[a])
      ensures brk != null <==>
              && r.Loaded? && Free(Removed(loaded, was), now.base, now.size)
              && Fits(PagesOf(WithStack(loaded, was, now, block)), r.newBrk, InitialBrkSize)
      ensures brk != null ==>
                && fresh(brk) && brk.Valid() && brk.base == r.newBrk
                && brk.Now() == Arena(r.newBrk, r.newBrk + 0x20_0000)
                && brk.pages == PagesOf(mem) + Range(r.newBrk, 0x20_0000)
    {
      r, m1, loaded, brk := Start(file, lp, tail, was, now, block);
      if brk != null {
        StackIs(loaded, was, now, block, mem);
      }
    }

    /** Its steps. */
    method Start(file: FileBytes, lp: LoaderInfo, tail: Tail, was: Stack, now: Stack, block: seq<bv8>)
      returns (r: Outcome, ghost m1: Memory, ghost loaded: Memory, brk: Brk?)
      requires Words(lp) && |block| <= now.size
      modifies this
      ensures Ran(old(mem), m1, loaded, file, lp, tail, r)
      ensures lp.textSize % Page == 0 ==> Right(old(mem), loaded, file, lp, r)
      ensures r.Loaded? ==> (BssEnd(lp) <= r.newBrk <==> NoWrap(lp))
      ensures brk != null ==> mem == WithStack(loaded, was, now, block)
      ensures brk != null <==>
              && r.Loaded? && Free(Removed(loaded, was), now.base, now.size)
              && Fits(PagesOf(WithStack(loaded, was, now, block)), r.newBrk, InitialBrkSize)
      ensures brk != null ==>
                && fresh(brk) && brk.Valid() && brk.base == r.newBrk
                && brk.Now() == Arena(r.newBrk, r.newBrk + 0x20_0000)
                && brk.pages == PagesOf(mem) + Range(r.newBrk, 0x20_0000)
    {
      brk := null;
      r, m1 := LoadProgramFile(file, lp, tail);
      loaded := mem;
      if r.Loaded? {
        var ok := Restack(was, now, block);
        if ok {
          brk := SetBreakAside(r.newBrk);
        }
      }
    }
  }

  /** The user stack: where it is and how large. */
  datatype Stack = Stack(base: nat, size: nat)

  function Removed(mem: Memory, stack: Stack): Memory {
    mem - Span(stack.base, stack.size)
  }

  function Bytes(block: seq<bv8>): FileBytes {
    (i: nat) => if i < |block| then block[i] else 0
  }

  /** The old stack gone, the new one in place, and the block at its top. */
  function WithStack(mem: Memory, was: Stack, now: Stack, block: seq<bv8>): Memory
    requires |block| <= now.size
  {
    Placed(Placed(Removed(mem, was), now.base, now.size, Zeros(), 0),
           now.base + now.size - |block|, |block|, Bytes(block), 0)
  }

  /** Byte by byte: the block ends where the stack ends, what is below it is zero, the old stack is gone
      where the new one is not, and the rest is as it was. */
  lemma StackIs(mem: Memory, was: Stack, now: Stack, block: seq<bv8>, mem': Memory)
    requires |block| <= now.size && mem' == WithStack(mem, was, now, block)
    ensures forall a: nat :: now.base <= a < now.base + now.size ==>
              && a in mem'
              && mem'[a] == if a < now.base + now.size - |block| then 0 else block[a - (now.base + now.size - |block|)]
    ensures forall a: nat :: was.base <= a < was.base + was.size && !(now.base <= a < now.base + now.size) ==> a !in mem'
    ensures forall a: nat :: !(was.base <= a < was.base + was.size) && !(now.base <= a < now.base + now.size) ==>
              (a in mem' <==> a in mem) && (a in mem' ==> mem'[a] == mem[a])
  {
    var top := now.base + now.size;
    var m := Placed(Removed(mem, was), now.base, now.size, Zeros(), 0);
    assert forall a: nat :: a in m <==> (a in mem && !(was.base <= a < was.base + was.size)) || now.base <= a < top;
    assert forall a: nat :: a in mem' <==> a in m || top - |block| <= a < top;
  }

  /** There is room for the new stack, also where the old one was. */
  lemma StackRoomIs(mem: Memory, was: Stack, now: Stack)
    ensures Free(Removed(mem, was), now.base, now.size) <==>
              || now.size == 0
              || (&& now.base + now.size <= 0xc000_0000
                  && forall a: nat :: now.base <= a < now.base + now.size ==>
                       a !in mem || was.base <= a < was.base + was.size)
  {
    var m := Removed(mem, was);
    assert forall a: nat :: a in m <==> a in mem && !(was.base <= a < was.base + was.size);
    assert forall a: nat :: a !in mem || was.base <= a < was.base + was.size <==> a !in m;
  }

  function PagesOf(mem: Memory): set<nat> {
    set a | a in mem :: a / Page
  }

  /** There is room for the break area where no byte of it is in use. */
  lemma BreakRoomIs(mem: Memory, newBrk: nat)
    requires newBrk % 4096 == 0
    ensures Fits(PagesOf(mem), newBrk, 0x20_0000) <==>
              && newBrk + 0x20_0000 <= 0xc000_0000
              && forall a: nat :: newBrk <= a < newBrk + 0x20_0000 ==> a !in mem
  {
    var lo, hi := newBrk / Page, (newBrk + 0x20_0000) / Page;
    forall a: nat ensures newBrk <= a < newBrk + 0x20_0000 <==> lo <= a / Page < hi {
    }
    forall a: nat | a in mem ensures a / Page in PagesOf(mem) {
    }
    forall p: nat | p in PagesOf(mem) ensures exists a: nat :: a in mem && a / Page == p {
    }
  }

  lemma Aligned(x: nat)
    requires x < Limit
    ensures x == Round(x) <==> x % Page == 0
  {
    if x + (Page - 1) < Limit {
      RoundUp(x);
    }
  }
}
