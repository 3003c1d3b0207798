/**
 The argument path of lib/emul/emul_exec.cc: argument and environment strings are gathered in a
 buffer that doubles on demand. Here are that buffer, and the form and the decoder of the block
 that the new program finds on its stack. A string here is the characters of a C string, up to its NUL.
 */
module ExecArgs {
  import opened Options

  const NUL := '\0'
  const NBPW := 4

  ghost predicate CString(s: string) {
    NUL !in s
  }

  ghost predicate CStrings(ss: seq<string>) {
    forall i :: 0 <= i < |ss| ==> CString(ss[i])
  }

  /** The strings one after the other, each with its NUL. */
  function Packed(ss: seq<string>): seq<char> {
    if ss == [] then [] else Packed(ss[..|ss| - 1]) + ss[|ss| - 1] + [NUL]
  }

  lemma {:induction false} PackedAppend(a: seq<string>, b: seq<string>)
    ensures Packed(a + b) == Packed(a) + Packed(b)
    decreases |b|
  {
    if b == [] {
      assert a + b == a;
    } else {
      var n, ab := |b| - 1, a + b;
      PackedAppend(a, b[..n]);
      assert ab[..|ab| - 1] == a + b[..n] && ab[|ab| - 1] == b[n];
      assert Packed(ab) == Packed(a + b[..n]) + b[n] + [NUL];
    }
  }

  lemma PackedFirst(ss: seq<string>)
    requires ss != []
    ensures Packed(ss) == ss[0] + [NUL] + Packed(ss[1..])
  {
    assert ss == [ss[0]] + ss[1..];
    PackedAppend([ss[0]], ss[1..]);
    assert [ss[0]][..0] == [];
    assert Packed([ss[0]]) == ss[0] + [NUL];
  }

  lemma PackedPrefix(ss: seq<string>, k: nat)
    requires k <= |ss|
    ensures |Packed(ss[..k])| <= |Packed(ss)|
  {
    assert ss == ss[..k] + ss[k..];
    PackedAppend(ss[..k], ss[k..]);
  }

  // Reading a string back from memory.

  /** The characters before the first NUL. */
  function CRead(m: seq<char>): Option<string> {
    if m == [] then None
    else if m[0] == NUL then Some("")
    else match CRead(m[1..])
      case None => None
      case Some(s) => Some([m[0]] + s)
  }

  lemma {:induction false} CReadString(s: string, rest: seq<char>)
    requires CString(s)
    ensures CRead(s + [NUL] + rest) == Some(s)
    decreases |s|
  {
    var m := s + [NUL] + rest;
    if s != "" {
      assert m[1..] == s[1..] + [NUL] + rest;
      CReadString(s[1..], rest);
      assert [s[0]] + s[1..] == s;
    }
  }

  // The block: words and characters.

  /** Where string `k` starts in the character area. */
  function Offset(ss: seq<string>, k: nat): nat
    requires k <= |ss|
  {
    |Packed(ss[..k])|
  }

  function Pointers(ss: seq<string>, base: nat, n: nat): (ps: seq<nat>)
    requires n <= |ss|
    ensures |ps| == n && forall k :: 0 <= k < n ==> ps[k] == base + Offset(ss, k)
  {
    if n == 0 then [] else Pointers(ss, base, n - 1) + [base + Offset(ss, n - 1)]
  }

  /** The word area for `argc` arguments followed by the environment. */
  function Words(ss: seq<string>, argc: nat, base: nat): (ws: seq<nat>)
    requires argc <= |ss|
    ensures |ws| == |ss| + 3
  {
    var ps := Pointers(ss, base, |ss|);
    [argc] + ps[..argc] + [0] + ps[argc..] + [0]
  }

  // The decoder: what the new program's start-up code sees.

  function StringAt(p: nat, chars: seq<char>, base: nat): Option<string> {
    if base <= p <= base + |chars| then CRead(chars[p - base..]) else None
  }

  /** Exactly `n` pointers, none of them null. */
  function ReadMany(ws: seq<nat>, n: nat, chars: seq<char>, base: nat): Option<seq<string>> {
    if n == 0 then Some([])
    else if n > |ws| || ws[n - 1] == 0 then None
    else match (ReadMany(ws, n - 1, chars, base), StringAt(ws[n - 1], chars, base))
      case (Some(ss), Some(s)) => Some(ss + [s])
      case _ => None
  }

  /** The number of words before the first null. */
  function UntilNull(ws: seq<nat>): (n: nat)
    ensures n <= |ws|
  {
    if ws == [] || ws[0] == 0 then 0 else 1 + UntilNull(ws[1..])
  }

  datatype Arguments = Arguments(argv: seq<string>, envp: seq<string>)

  function Decode(ws: seq<nat>, chars: seq<char>, base: nat): Option<Arguments> {
    if ws == [] || 1 + ws[0] >= |ws| || ws[1 + ws[0]] != 0 then None
    else
      var rest := ws[2 + ws[0]..];
      var n := UntilNull(rest);
      if n == |rest| then None
      else match (ReadMany(ws[1..], ws[0], chars, base), ReadMany(rest, n, chars, base))
        case (Some(argv), Some(envp)) => Some(Arguments(argv, envp))
        case _ => None
  }

  /** The character area begins with the strings, packed. */
  ghost predicate Carries(chars: seq<char>, ss: seq<string>) {
    Packed(ss) <= chars
  }

  lemma StringHere(ss: seq<string>, k: nat, chars: seq<char>, base: nat)
    requires k < |ss| && CStrings(ss) && Carries(chars, ss)
    ensures Offset(ss, k) <= |chars| && StringAt(base + Offset(ss, k), chars, base) == Some(ss[k])
  {
    assert ss == ss[..k] + ss[k..];
    PackedAppend(ss[..k], ss[k..]);
    PackedFirst(ss[k..]);
    var at := Offset(ss, k);
    assert chars == Packed(ss) + chars[|Packed(ss)|..];
    var rest := Packed(ss[k..][1..]) + chars[|Packed(ss)|..];
    assert chars[at..] == ss[k] + [NUL] + rest;
    CReadString(ss[k], rest);
  }

  lemma {:induction false} ReadManyPointers(ss: seq<string>, lo: nat, n: nat, ws: seq<nat>,
                                            chars: seq<char>, base: nat)
    requires lo + n <= |ss| && n <= |ws| && base > 0 && CStrings(ss) && Carries(chars, ss)
    requires forall k :: 0 <= k < n ==> ws[k] == base + Offset(ss, lo + k)
    ensures ReadMany(ws, n, chars, base) == Some(ss[lo..lo + n])
  {
    if n == 0 {
      assert ss[lo..lo] == [];
    } else {
      ReadManyPointers(ss, lo, n - 1, ws, chars, base);
      var k := lo + (n - 1);
      StringHere(ss, k, chars, base);
      assert ws[n - 1] == base + Offset(ss, k);
      assert StringAt(ws[n - 1], chars, base) == Some(ss[k]);
      assert ss[lo..lo + n] == ss[lo..k] + [ss[k]];
    }
  }

  /** The string stands at address `p`, with its NUL. */
  ghost predicate LiesAt(s: string, p: nat, chars: seq<char>, base: nat) {
    && base <= p && p - base + |s| < |chars|
    && chars[p - base..p - base + |s|] == s && chars[p - base + |s|] == '\0' && '\0' !in s
  }

  lemma StringLies(p: nat, chars: seq<char>, base: nat)
    requires StringAt(p, chars, base).Some?
    ensures LiesAt(StringAt(p, chars, base).value, p, chars, base)
  {
    var m := chars[p - base..];
    CReadPrefix(m);
    var s := CRead(m).value;
    assert m[..|s|] == chars[p - base..p - base + |s|];
  }

  lemma {:induction false} ManyLie(ws: seq<nat>, n: nat, chars: seq<char>, base: nat, k: nat)
    requires ReadMany(ws, n, chars, base).Some?
    ensures n <= |ws| && |ReadMany(ws, n, chars, base).value| == n
    ensures k < n ==> ws[k] != 0 && LiesAt(ReadMany(ws, n, chars, base).value[k], ws[k], chars, base)
  {
    if n > 0 {
      ManyLie(ws, n - 1, chars, base, k);
      StringLies(ws[n - 1], chars, base);
    }
  }

  lemma {:induction false} NullThere(ws: seq<nat>)
    requires UntilNull(ws) < |ws|
    ensures ws[UntilNull(ws)] == 0
  {
    if ws[0] != 0 {
      NullThere(ws[1..]);
    }
  }

  /** What the decoder sees is there, word by word and character by character: the count, a pointer to
      each string, and a null behind each list. */
  lemma DecodeMeans(ws: seq<nat>, chars: seq<char>, base: nat, argv: seq<string>, envp: seq<string>)
    requires Decode(ws, chars, base) == Some(Arguments(argv, envp))
    ensures 2 + |argv| + |envp| < |ws|
    ensures ws[0] == |argv| && ws[1 + |argv|] == 0 && ws[2 + |argv| + |envp|] == 0
    ensures forall k :: 0 <= k < |argv| ==> LiesAt(argv[k], ws[1 + k], chars, base)
    ensures forall k :: 0 <= k < |envp| ==> LiesAt(envp[k], ws[2 + |argv| + k], chars, base)
  {
    var rest := ws[2 + ws[0]..];
    var n := UntilNull(rest);
    NullThere(rest);
    ManyLie(ws[1..], ws[0], chars, base, 0);
    ManyLie(rest, n, chars, base, 0);
    forall k: nat | k < |argv| ensures LiesAt(argv[k], ws[1 + k], chars, base) {
      ManyLie(ws[1..], ws[0], chars, base, k);
    }
    forall k: nat | k < |envp| ensures LiesAt(envp[k], ws[2 + |argv| + k], chars, base) {
      ManyLie(rest, n, chars, base, k);
    }
  }

  lemma {:induction false} UntilNullAt(ws: seq<nat>, n: nat)
    requires n < |ws| && ws[n] == 0 && forall k :: 0 <= k < n ==> ws[k] != 0
    ensures UntilNull(ws) == n
  {
    if n > 0 {
      UntilNullAt(ws[1..], n - 1);
    }
  }

  lemma WordsShape(ss: seq<string>, argc: nat, base: nat)
    requires argc <= |ss|
    ensures var ws := Words(ss, argc, base);
            && ws[0] == argc && ws[1 + argc] == 0
            && (forall k :: 0 <= k < argc ==> ws[1..][k] == base + Offset(ss, k))
            && ws[2 + argc..] == Pointers(ss, base, |ss|)[argc..] + [0]
  {
  }

  lemma EnvShape(ss: seq<string>, argc: nat, base: nat, rest: seq<nat>)
    requires argc <= |ss| && base > 0 && rest == Pointers(ss, base, |ss|)[argc..] + [0]
    ensures |rest| == |ss| - argc + 1 && UntilNull(rest) == |ss| - argc
    ensures forall k :: 0 <= k < |ss| - argc ==> rest[k] == base + Offset(ss, argc + k)
  {
    UntilNullAt(rest, |ss| - argc);
  }

  lemma DecodeParts(ws: seq<nat>, argc: nat, n: nat, chars: seq<char>, base: nat, argv: seq<string>, envp: seq<string>)
    requires 1 + argc < |ws| && ws[0] == argc && ws[1 + argc] == 0
    requires UntilNull(ws[2 + argc..]) == n && 2 + argc + n < |ws|
    requires ReadMany(ws[1..], argc, chars, base) == Some(argv)
    requires ReadMany(ws[2 + argc..], n, chars, base) == Some(envp)
    ensures Decode(ws, chars, base) == Some(Arguments(argv, envp))
  {
  }

  /** The block decodes to the very strings that were laid out. */
  lemma DecodeWords(ss: seq<string>, argc: nat, ws: seq<nat>, chars: seq<char>, base: nat)
    requires argc <= |ss| && base > 0 && CStrings(ss) && Carries(chars, ss) && ws == Words(ss, argc, base)
    ensures Decode(ws, chars, base) == Some(Arguments(ss[..argc], ss[argc..]))
  {
    WordsShape(ss, argc, base);
    DecodeShaped(ss, argc, ws, chars, base);
  }

  lemma DecodeShaped(ss: seq<string>, argc: nat, ws: seq<nat>, chars: seq<char>, base: nat)
    requires argc <= |ss| && base > 0 && CStrings(ss) && Carries(chars, ss)
    requires |ws| == |ss| + 3 && ws[0] == argc && ws[1 + argc] == 0
    requires forall k :: 0 <= k < argc ==> ws[1..][k] == base + Offset(ss, k)
    requires ws[2 + argc..] == Pointers(ss, base, |ss|)[argc..] + [0]
    ensures Decode(ws, chars, base) == Some(Arguments(ss[..argc], ss[argc..]))
  {
    var rest, n := ws[2 + argc..], |ss| - argc;
    EnvShape(ss, argc, base, rest);
    ReadManyPointers(ss, 0, argc, ws[1..], chars, base);
    ReadManyPointers(ss, argc, n, rest, chars, base);
    assert ss[0..0 + argc] == ss[..argc] && ss[argc..argc + n] == ss[argc..];
    DecodeParts(ws, argc, n, chars, base, ss[..argc], ss[argc..]);
  }

  // The code.

  /** copystr: copy a NUL-terminated string of at most `maxLen` characters, NUL included. */
  method CopyStr(from: seq<char>, to: array<char>, at: nat, maxLen: nat) returns (len: int)
    requires CRead(from).Some? && at + maxLen <= to.Length
    modifies to
    ensures var n := |CRead(from).value| + 1;
            && (if n <= maxLen then len == n else len == -1)
            && to[..at] == old(to[..at]) && to[at + maxLen..] == old(to[at + maxLen..])
            && (len == n ==> to[at..at + n] == CRead(from).value + [NUL] && to[at + n..] == old(to[at + n..]))
  {
    var count := 0;
    CReadPrefix(from);
    ghost var s := CRead(from).value;
    while count < maxLen
      invariant count <= maxLen && count <= |s|
      invariant to[..at] == old(to[..at]) && to[at..at + count] == s[..count]
      invariant to[at + count..] == old(to[at + count..])
    {
      count := count + 1;
      to[at + count - 1] := from[count - 1];
      if to[at + count - 1] == NUL {
        assert count - 1 == |s|;
        assert to[at..at + count] == s + [NUL];
        return count;
      }
      assert to[at..at + count] == s[..count];
    }
    return -1;
  }

  lemma {:induction false} CReadPrefix(m: seq<char>)
    requires CRead(m).Some?
    ensures var s := CRead(m).value;
            |s| < |m| && m[..|s|] == s && m[|s|] == NUL && CString(s)
    ensures forall i :: 0 <= i < |CRead(m).value| ==> m[i] != NUL
  {
    if m[0] != NUL {
      CReadPrefix(m[1..]);
      var s := CRead(m[1..]).value;
      assert m[..|s| + 1] == [m[0]] + m[1..][..|s|];
      forall i | 0 <= i < |s| + 1 ensures m[i] != NUL {
        if i > 0 {
          assert m[i] == m[1..][i - 1];
        }
      }
    }
  }

  /** vm_allocate twice the size, vm_copy, vm_deallocate. */
  method Double(buf: array<char>) returns (bigger: array<char>)
    ensures fresh(bigger) && bigger.Length == 2 * buf.Length
    ensures bigger[..buf.Length] == buf[..]
    ensures forall i :: buf.Length <= i < bigger.Length ==> bigger[i] == NUL
  {
    bigger := new char[2 * buf.Length](_ => NUL);
    var n := buf.Length;
    forall i | 0 <= i < n {
      bigger[i] := buf[i];
    }
  }

  /** The size of the buffer when it has doubled until it holds `need` characters. */
  function Doubled(have: nat, need: nat): (size: nat)
    requires have > 0
    ensures have <= size && need <= size && (size == have || size < 2 * need)
    decreases need - have
  {
    if need <= have then have else Doubled(2 * have, need)
  }

  /** The kernel grants every doubling on the way there. */
  ghost predicate Granted(canAllocate: nat -> bool, have: nat, need: nat)
    requires have > 0
    decreases need - have
  {
    have < need ==> canAllocate(2 * have) && Granted(canAllocate, 2 * have, need)
  }

  /** Going on from a size on the way is the same as having started before. */
  lemma {:induction false} DoubledOn(canAllocate: nat -> bool, have: nat, need: nat, more: nat)
    requires have > 0 && need <= more
    ensures Doubled(Doubled(have, need), more) == Doubled(have, more)
    ensures Granted(canAllocate, have, more) <==>
            Granted(canAllocate, have, need) && Granted(canAllocate, Doubled(have, need), more)
    decreases need - have
  {
    if have < need {
      DoubledOn(canAllocate, 2 * have, need, more);
    }
  }

  /** If not, some buffer was refused that is less than twice as large as needed. */
  lemma {:induction false} NotGranted(canAllocate: nat -> bool, have: nat, need: nat)
    requires have > 0 && !Granted(canAllocate, have, need)
    ensures exists size :: have < size < 2 * need && !canAllocate(size)
    decreases need - have
  {
    if canAllocate(2 * have) {
      NotGranted(canAllocate, 2 * have, need);
      var size :| 2 * have < size < 2 * need && !canAllocate(size);
      assert have < size < 2 * need && !canAllocate(size);
    }
  }

  /** One turn of the loop: a buffer twice as large, and another try. */
  method DoubleAndCopy(arg: string, buf: array<char>, cc: nat) returns (bigger: array<char>, len: int)
    requires CString(arg) && cc <= buf.Length
    ensures fresh(bigger) && bigger.Length == 2 * buf.Length && bigger[..cc] == buf[..cc]
    ensures if cc + |arg| + 1 <= bigger.Length then len == |arg| + 1 else len == -1
    ensures len > 0 ==> bigger[cc..cc + len] == arg + [NUL]
  {
    bigger := Double(buf);
    assert bigger[..cc] == bigger[..buf.Length][..cc];
    CReadString(arg, []);
    assert arg + [NUL] + [] == arg + [NUL];
    len := CopyStr(arg + [NUL], bigger, cc, bigger.Length - cc);
  }

  /** The inner loop of copy_args: double the buffer until the string fits. It gives up exactly when
      the kernel refuses a doubling on the way. */
  method GrowAndCopy(arg: string, buf: array<char>, cc: nat, canAllocate: nat -> bool)
    returns (ok: bool, buf': array<char>)
    requires CString(arg) && cc <= buf.Length < cc + |arg| + 1 && 0 < buf.Length
    ensures ok <==> Granted(canAllocate, buf.Length, cc + |arg| + 1)
    ensures ok ==> fresh(buf') && buf'.Length == Doubled(buf.Length, cc + |arg| + 1)
    ensures ok ==> buf'[..cc] == buf[..cc] && buf'[cc..cc + |arg| + 1] == arg + [NUL]
    ensures !ok ==> (buf' == buf || fresh(buf')) && buf.Length <= buf'.Length
  {
    ghost var need := cc + |arg| + 1;
    ghost var granted, size := Granted(canAllocate, buf.Length, need), Doubled(buf.Length, need);
    var len := -1;
    buf' := buf;
    while len < 0
      invariant buf' == buf || fresh(buf')
      invariant cc <= buf.Length <= buf'.Length && buf'[..cc] == buf[..cc]
      invariant granted == Granted(canAllocate, buf'.Length, need) && size == Doubled(buf'.Length, need)
      invariant len < 0 ==> need > buf'.Length
      invariant len >= 0 ==> need <= buf'.Length && buf'[cc..need] == arg + [NUL] && fresh(buf')
      decreases need - buf'.Length
    {
      if !canAllocate(2 * buf'.Length) {
        return false, buf';
      }
      buf', len := DoubleAndCopy(arg, buf', cc);
    }
    ok := true;
  }

  /** One string: try, and if it does not fit, grow. */
  method CopyArg(arg: string, buf: array<char>, cc: nat, canAllocate: nat -> bool)
    returns (ok: bool, buf': array<char>)
    requires CString(arg) && cc <= buf.Length && 0 < buf.Length
    modifies buf
    ensures (buf' == buf || fresh(buf')) && buf.Length <= buf'.Length
    ensures ok <==> Granted(canAllocate, buf.Length, cc + |arg| + 1)
    ensures ok ==> buf'.Length == Doubled(buf.Length, cc + |arg| + 1)
    ensures ok ==> cc + |arg| + 1 <= buf'.Length && buf'[..cc + |arg| + 1] == old(buf[..cc]) + arg + [NUL]
  {
    ok, buf' := true, buf;
    ghost var before := buf[..cc];
    CReadString(arg, []);
    assert arg + [NUL] + [] == arg + [NUL];
    var len := CopyStr(arg + [NUL], buf, cc, buf.Length - cc);
    assert buf[..cc] == before;
    if len < 0 {
      ok, buf' := GrowAndCopy(arg, buf, cc, canAllocate);
    }
    if ok {
      Joined(buf'[..], cc, |arg| + 1, before, arg + [NUL]);
      assert buf'[..][..cc + |arg| + 1] == buf'[..cc + |arg| + 1];
      assert before + (arg + [NUL]) == before + arg + [NUL];
    }
  }

  lemma Joined(m: seq<char>, cp: nat, len: nat, before: seq<char>, s: seq<char>)
    requires cp + len <= |m| && m[..cp] == before && m[cp..cp + len] == s
    ensures m[..cp + len] == before + s
  {
    assert m[..cp + len] == m[..cp] + m[cp..cp + len];
  }

  /** The strings up to `k` are in the buffer, behind what it held before. */
  ghost predicate Appended(buf: seq<char>, before: seq<char>, args: seq<string>, k: nat) {
    && k <= |args| && |before| + |Packed(args[..k])| <= |buf|
    && buf[..|before| + |Packed(args[..k])|] == before + Packed(args[..k])
  }

  lemma AppendedNext(buf: seq<char>, before: seq<char>, args: seq<string>, k: nat, cc: nat)
    requires k < |args| && cc == |before| + |Packed(args[..k])| && cc + |args[k]| + 1 <= |buf|
    requires buf[..cc + |args[k]| + 1] == before + Packed(args[..k]) + args[k] + [NUL]
    ensures Appended(buf, before, args, k + 1)
    ensures |Packed(args[..k + 1])| == |Packed(args[..k])| + |args[k]| + 1 <= |Packed(args)|
  {
    assert args[..k + 1][..k] == args[..k];
    PackedPrefix(args, k + 1);
  }

  /** The growth so far and the growth still to come. */
  lemma GrantedSoFar(canAllocate: nat -> bool, first: nat, have: nat, cc: nat, next: nat, total: nat)
    requires first > 0 && cc <= next <= total && have == Doubled(first, cc) && Granted(canAllocate, first, cc)
    ensures Granted(canAllocate, have, next) <==> Granted(canAllocate, first, next)
    ensures Doubled(have, next) == Doubled(first, next)
    ensures Granted(canAllocate, first, total) ==> Granted(canAllocate, first, next)
  {
    DoubledOn(canAllocate, first, cc, next);
    DoubledOn(canAllocate, first, next, total);
  }

  /** Where copy_args stands after `k` strings. */
  ghost predicate Copied(buf: seq<char>, first: nat, before: seq<char>, args: seq<string>, k: nat,
                         cc: nat, canAllocate: nat -> bool)
  {
    && 0 < first <= |buf| && Appended(buf, before, args, k) && cc == |before| + |Packed(args[..k])|
    && |buf| == Doubled(first, cc) && Granted(canAllocate, first, cc)
  }

  /** One turn of the loop of copy_args. */
  method CopyNext(args: seq<string>, k: nat, buf: array<char>, cc: nat, canAllocate: nat -> bool,
                  ghost first: nat, ghost before: seq<char>)
    returns (ok: bool, buf': array<char>)
    requires CStrings(args) && k < |args| && Copied(buf[..], first, before, args, k, cc, canAllocate)
    modifies buf
    ensures (buf' == buf || fresh(buf')) && buf.Length <= buf'.Length
    ensures ok ==> Copied(buf'[..], first, before, args, k + 1, cc + |args[k]| + 1, canAllocate)
    ensures !ok ==> !Granted(canAllocate, first, |before| + |Packed(args)|)
  {
    NextCount(args, k);
    var arg := args[k];
    GrantedSoFar(canAllocate, first, buf.Length, cc, cc + |arg| + 1, |before| + |Packed(args)|);
    assert buf[..cc] == before + Packed(args[..k]);
    ok, buf' := CopyArg(arg, buf, cc, canAllocate);
    if ok {
      assert buf'[..][..cc + |arg| + 1] == buf'[..cc + |arg| + 1];
      CopiedNext(buf.Length, buf'[..], first, before, args, k, cc, canAllocate);
    }
  }

  lemma CopiedNext(had: nat, buf: seq<char>, first: nat, before: seq<char>, args: seq<string>, k: nat,
                   cc: nat, canAllocate: nat -> bool)
    requires k < |args| && cc == |before| + |Packed(args[..k])| && cc + |args[k]| + 1 <= |buf|
    requires first > 0 && had == Doubled(first, cc) && Granted(canAllocate, first, cc)
    requires |buf| == Doubled(had, cc + |args[k]| + 1) && Granted(canAllocate, had, cc + |args[k]| + 1)
    requires buf[..cc + |args[k]| + 1] == before + Packed(args[..k]) + args[k] + [NUL]
    ensures Copied(buf, first, before, args, k + 1, cc + |args[k]| + 1, canAllocate)
  {
    AppendedNext(buf, before, args, k, cc);
    DoubledOn(canAllocate, first, cc, cc + |args[k]| + 1);
  }

  /** copy_args: append the strings to what the buffer already holds. */
  method CopyArgs(args: seq<string>, buf: array<char>, charCount: nat, canAllocate: nat -> bool)
    returns (ok: bool, buf': array<char>, charCount': nat, argCount: nat)
    requires CStrings(args) && charCount <= buf.Length && 0 < buf.Length
    modifies buf
    ensures (buf' == buf || fresh(buf')) && buf.Length <= buf'.Length
    ensures args == [] ==> buf' == buf && buf[..] == old(buf[..])
    ensures ok <==> Granted(canAllocate, buf.Length, charCount + |Packed(args)|)
    ensures ok ==> buf'.Length == Doubled(buf.Length, charCount + |Packed(args)|)
    ensures ok ==>
              && argCount == |args|
              && charCount' == charCount + |Packed(args)| <= buf'.Length
              && buf'[..charCount'] == old(buf[..charCount]) + Packed(args)
  {
    ghost var before, first := buf[..charCount], buf.Length;
    buf', charCount', argCount, ok := buf, charCount, 0, true;
    NothingCopied(buf[..], before, args, charCount, canAllocate);
    while argCount < |args|
      invariant argCount <= |args| && (buf' == buf || fresh(buf')) && buf.Length <= buf'.Length
      invariant argCount == 0 ==> buf' == buf && buf[..] == old(buf[..])
      invariant Copied(buf'[..], first, before, args, argCount, charCount', canAllocate)
    {
      ok, buf' := CopyNext(args, argCount, buf', charCount', canAllocate, first, before);
      if !ok {
        return;
      }
      charCount' := charCount' + |args[argCount]| + 1;
      argCount := argCount + 1;
    }
    assert args[..argCount] == args;
    assert buf'[..][..charCount'] == buf'[..charCount'];
    ok := true;
  }

  lemma NothingCopied(buf: seq<char>, before: seq<char>, args: seq<string>, cc: nat, canAllocate: nat -> bool)
    requires 0 < |buf| && cc <= |buf| && before == buf[..cc]
    ensures Copied(buf, |buf|, before, args, 0, cc, canAllocate)
  {
    assert args[..0] == [];
  }

  lemma NextCount(args: seq<string>, k: nat)
    requires k < |args|
    ensures |Packed(args[..k + 1])| == |Packed(args[..k])| + |args[k]| + 1 <= |Packed(args)|
  {
    assert args[..k + 1][..k] == args[..k];
    PackedPrefix(args, k + 1);
  }
}
