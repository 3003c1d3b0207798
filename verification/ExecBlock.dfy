/**
 The block that lib/emul/emul_exec.cc lays out on the new program's stack: the argument count,
 the argument and environment pointers with a null after each list, and the strings. For a
 script, the interpreter and its argument take the place of the first argument.
 */
module ExecBlock {
  import opened Options
  import opened ExecArgs

  // The argument block.

  /** For a script: the interpreter, its argument if any, and the script itself. */
  function Command(cfname: string, cfarg: string, fname: string): seq<string> {
    if cfname == "" then [] else if cfarg == "" then [cfname, fname] else [cfname, cfarg, fname]
  }

  /** What is left of the gathered strings: a script takes the place of the first. */
  function Remaining(cmd: seq<string>, list: seq<string>): seq<string> {
    if cmd == [] || list == [] then list else list[1..]
  }

  function Total(cmd: seq<string>, list: seq<string>): nat {
    if cmd == [] then |list| else |list| + |cmd| - 1
  }

  /** The strings that end up in the block, in order. */
  function LaidOut(cmd: seq<string>, list: seq<string>): (out: seq<string>)
    ensures |out| == Total(cmd, list)
  {
    (cmd + Remaining(cmd, list))[..Total(cmd, list)]
  }

  /** The character count that the code arrives at, before rounding. */
  function Chars(cmd: seq<string>, list: seq<string>): int {
    if cmd == [] then |Packed(list)|
    else |Packed(list)| - (if list == [] then 0 else |list[0]|) - 1 + |Packed(cmd)|
  }

  lemma CharCount(cmd: seq<string>, list: seq<string>)
    requires cmd != []
    ensures |Packed(LaidOut(cmd, list))| <= Chars(cmd, list)
  {
    var out := LaidOut(cmd, list);
    if list == [] {
      var n := |cmd| - 1;
      assert cmd + Remaining(cmd, list) == cmd;
      assert out == cmd[..n];
    } else {
      assert out == cmd + list[1..];
      PackedAppend(cmd, list[1..]);
      PackedFirst(list);
    }
  }

  method StrLen(m: seq<char>) returns (n: nat)
    requires CRead(m).Some?
    ensures n == |CRead(m).value|
  {
    CReadPrefix(m);
    n := 0;
    while m[n] != NUL
      invariant n <= |CRead(m).value|
      decreases |CRead(m).value| - n
    {
      n := n + 1;
    }
  }

  /** The command strings of a script, how many characters they take and how many strings they add. */
  method CommandOf(cfname: string, cfarg: string, fname: string) returns (cmd: seq<string>, size: nat, extra: nat)
    requires cfname != ""
    ensures cmd == Command(cfname, cfarg, fname) && size == |Packed(cmd)| && extra == |cmd| - 1
  {
    CommandSize(cfname, cfarg, fname);
    cmd, size, extra := [cfname], |cfname| + 1, 0;
    if cfarg != "" {
      cmd := cmd + [cfarg];
      size := size + (|cfarg| + 1);
      extra := extra + 1;
    }
    cmd := cmd + [fname];
    size := size + (|fname| + 1);
    extra := extra + 1;
  }

  /** The buffer from behind its first string on. */
  lemma BehindFirst(buf: seq<char>, charCount: nat, list: seq<string>)
    requires list != [] && charCount == |Packed(list)| <= |buf| && buf[..charCount] == Packed(list)
    ensures |list[0]| + 1 + |Packed(list[1..])| == charCount
    ensures buf[|list[0]| + 1..charCount] == Packed(list[1..])
  {
    PackedFirst(list);
    assert buf[|list[0]| + 1..charCount] == Packed(list)[|list[0]| + 1..];
  }

  /** The arguments of the layout: the strings in hand, their count in characters, where the
      gathered ones start, and how many strings there will be. */
  method Prepare(buf: array<char>, charCount: nat, cfname: string, cfarg: string, fname: string,
                 ghost list: seq<string>)
    returns (cmd: seq<string>, chars: int, start: nat, extra: nat)
    requires CStrings(list) && charCount == |Packed(list)| <= buf.Length && buf[..charCount] == Packed(list)
    requires list == [] ==> 0 < buf.Length && buf[0] == NUL
    ensures cmd == Command(cfname, cfarg, fname) && Total(cmd, list) == |list| + extra
    ensures |Packed(LaidOut(cmd, list))| <= chars == Chars(cmd, list)
    ensures list != [] || cmd == [] ==> start + |Packed(Remaining(cmd, list))| == charCount
    ensures list != [] || cmd == [] ==> buf[start..charCount] == Packed(Remaining(cmd, list))
  {
    chars, start, extra, cmd := charCount, 0, 0, [];
    if cfname != "" {
      FirstInBuffer(buf[..], list);
      var len := StrLen(buf[..]);
      start := len + 1;
      chars := chars - (len + 1);
      var size;
      cmd, size, extra := CommandOf(cfname, cfarg, fname);
      chars := chars + size;
      CharCount(cmd, list);
      if list != [] {
        assert buf[..][..charCount] == Packed(list);
        BehindFirst(buf[..], charCount, list);
        assert buf[start..charCount] == buf[..][start..charCount];
      }
    } else {
      assert LaidOut(cmd, list) == list;
    }
  }

  lemma CommandSize(cfname: string, cfarg: string, fname: string)
    requires cfname != ""
    ensures |Packed(Command(cfname, cfarg, fname))| ==
              |cfname| + 1 + (if cfarg == "" then 0 else |cfarg| + 1) + |fname| + 1
  {
    var cmd := Command(cfname, cfarg, fname);
    PackedFirst(cmd);
    PackedFirst(cmd[1..]);
    if cfarg != "" {
      PackedFirst(cmd[1..][1..]);
    }
  }

  lemma FirstInBuffer(m: seq<char>, list: seq<string>)
    requires CStrings(list) && Packed(list) <= m
    requires list == [] ==> m != [] && m[0] == NUL
    ensures CRead(m) == Some(if list == [] then "" else list[0])
  {
    if list != [] {
      StringHere(list, 0, m, 0);
      assert list[..0] == [];
      assert m[0..] == m;
    }
  }

  // Laying the block out.

  /** Up to a whole number of words. */
  function Rounded(n: nat): (r: nat)
    ensures n <= r < n + NBPW && r % NBPW == 0
  {
    (n + NBPW - 1) / NBPW * NBPW
  }

  function BlockSize(total: nat, chars: nat): nat {
    total * NBPW + 3 * NBPW + chars + NBPW
  }

  /** The block has room in a stack of that size, which the code does not check. */
  predicate Fits(cmd: seq<string>, list: seq<string>, room: nat) {
    Chars(cmd, list) >= 0 ==> BlockSize(Total(cmd, list), Rounded(Chars(cmd, list))) <= room
  }

  /** The block ends at the top of the stack. */
  ghost predicate EndsAt(cmd: seq<string>, list: seq<string>, argStart: nat, stackTop: nat) {
    Chars(cmd, list) >= 0 && argStart + BlockSize(Total(cmd, list), Rounded(Chars(cmd, list))) == stackTop
  }

  /** How large the block is, said of the strings in it: a word for the count, one for each string, one
      behind each list and one to spare, and the characters up to a whole word. */
  lemma SizeIs(cmd: seq<string>, list: seq<string>, out: seq<string>, argStart: nat, stackTop: nat, room: nat)
    requires if cmd == [] then out == list else list != [] && out == cmd + list[1..]
    ensures var size := 4 * |out| + 16 + (|Packed(out)| + 3) / 4 * 4;
            && (Fits(cmd, list, room) <==> size <= room)
            && (EndsAt(cmd, list, argStart, stackTop) <==> argStart + size == stackTop)
  {
    CharsAre(cmd, list, out);
    BlockSizeIs(|out|, |Packed(out)|);
  }

  lemma CharsAre(cmd: seq<string>, list: seq<string>, out: seq<string>)
    requires if cmd == [] then out == list else list != [] && out == cmd + list[1..]
    ensures Total(cmd, list) == |out| && Chars(cmd, list) == |Packed(out)|
  {
    if cmd != [] {
      PackedAppend(cmd, list[1..]);
      PackedFirst(list);
    }
  }

  lemma BlockSizeIs(total: nat, chars: nat)
    ensures BlockSize(total, Rounded(chars)) == 4 * total + 16 + (chars + 3) / 4 * 4
  {
  }

  /** Where the k-th pointer goes: the environment comes after a null. */
  function WordIndex(k: nat, argc: nat): nat {
    if k < argc then 1 + k else 2 + k
  }

  lemma WordAt(ss: seq<string>, argc: nat, base: nat, k: nat)
    requires k < |ss| && argc <= |ss|
    ensures WordIndex(k, argc) < |ss| + 3
    ensures Words(ss, argc, base)[WordIndex(k, argc)] == base + Offset(ss, k)
  {
  }

  /** `ws` is the word area for the strings `out`, the first `argc` of them arguments. */
  ghost predicate IsWords(ws: seq<nat>, out: seq<string>, argc: nat, base: nat) {
    && argc <= |out| && |ws| == |out| + 3
    && ws[0] == argc && ws[1 + argc] == 0 && ws[|out| + 2] == 0
    && forall k :: 0 <= k < |out| ==> ws[WordIndex(k, argc)] == base + Offset(out, k)
  }

  lemma WordsAre(out: seq<string>, argc: nat, base: nat)
    requires argc <= |out|
    ensures IsWords(Words(out, argc, base), out, argc, base)
  {
    WordsShape(out, argc, base);
    forall k | 0 <= k < |out| ensures Words(out, argc, base)[WordIndex(k, argc)] == base + Offset(out, k) {
      WordAt(out, argc, base, k);
    }
  }

  /** The first `k` strings are written, in the first `cp` characters. */
  ghost predicate StringsDone(area: seq<char>, cp: nat, out: seq<string>, k: nat) {
    && k <= |out| && |Packed(out)| <= |area|
    && cp == Offset(out, k) <= |area| && area[..cp] == Packed(out[..k])
  }

  /** The block starts with the command strings. */
  ghost predicate Leads(cmd: seq<string>, out: seq<string>) {
    forall i :: 0 <= i < |out| && i < |cmd| ==> out[i] == cmd[i]
  }

  /** The strings from `k` on that are not the command's are in the buffer from `pos` on. */
  ghost predicate Pending(cmd: seq<string>, buf: seq<char>, pos: nat, out: seq<string>, k: nat) {
    && k <= |out|
    && (|out| > |cmd| ==> pos <= |buf| && Packed(out[if k < |cmd| then |cmd| else k..]) <= buf[pos..])
  }

  lemma FromBuffer(buf: seq<char>, pos: nat, out: seq<string>, k: nat)
    requires k < |out| && CStrings(out) && pos <= |buf| && Packed(out[k..]) <= buf[pos..]
    ensures CRead(buf[pos..]) == Some(out[k])
    ensures var pos' := pos + |out[k]| + 1; pos' <= |buf| && Packed(out[k + 1..]) <= buf[pos'..]
  {
    var m, ss := buf[pos..], out[k..];
    FirstInBuffer(m, ss);
    PackedFirst(ss);
    assert ss[1..] == out[k + 1..];
    Behind(m, ss[0] + [NUL], Packed(ss[1..]));
    assert buf[pos + |out[k]| + 1..] == m[|ss[0]| + 1..];
  }

  lemma Behind(m: seq<char>, first: seq<char>, rest: seq<char>)
    requires first + rest <= m
    ensures |first| <= |m| && rest <= m[|first|..]
  {
    assert m[|first|..][..|rest|] == (first + rest)[|first|..] == rest;
  }

  lemma OffsetStep(out: seq<string>, k: nat)
    requires k < |out|
    ensures Packed(out[..k + 1]) == Packed(out[..k]) + out[k] + [NUL]
    ensures Offset(out, k) + |out[k]| + 1 == Offset(out, k + 1) <= |Packed(out)|
  {
    assert out[..k + 1][..k] == out[..k];
    assert out == out[..k + 1] + out[k + 1..];
    PackedAppend(out[..k + 1], out[k + 1..]);
  }

  method LayFrom(from: seq<char>, area: array<char>, cp: nat, left: int, ghost out: seq<string>, ghost k: nat)
    returns (len: int)
    requires k < |out| && CRead(from) == Some(out[k])
    requires StringsDone(area[..], cp, out, k) && |Packed(out)| <= cp + left <= area.Length
    modifies area
    ensures len == |out[k]| + 1 && StringsDone(area[..], cp + len, out, k + 1)
  {
    OffsetStep(out, k);
    ghost var before := area[..];
    assert area[..cp] == before[..cp];
    len := CopyStr(from, area, cp, left);
    Joined(area[..], cp, len, before[..cp], out[k] + [NUL]);
  }

  /** One string of the block: from the command while it lasts, then from the buffer. */
  method LayString(cmd: seq<string>, buf: array<char>, pos: nat, area: array<char>, cp: nat, left: int,
                   k: nat, ghost out: seq<string>)
    returns (len: int, pos': nat)
    requires buf != area && k < |out| && CStrings(out) && Leads(cmd, out) && Pending(cmd, buf[..], pos, out, k)
    requires StringsDone(area[..], cp, out, k) && |Packed(out)| <= cp + left <= area.Length
    modifies area
    ensures len == |out[k]| + 1 && StringsDone(area[..], cp + len, out, k + 1)
    ensures Pending(cmd, buf[..], pos', out, k + 1)
  {
    pos' := pos;
    if k < |cmd| {
      CReadString(cmd[k], []);
      assert cmd[k] + [NUL] + [] == cmd[k] + [NUL];
      len := LayFrom(cmd[k] + [NUL], area, cp, left, out, k);
    } else {
      FromBuffer(buf[..], pos, out, k);
      assert buf[pos..] == buf[..][pos..];
      len := LayFrom(buf[pos..], area, cp, left, out, k);
      pos' := pos + len;
    }
  }

  method PutWord(words: array<nat>, ap: nat, w: nat, ghost ws: seq<nat>)
    requires words.Length == |ws| && ap < |ws| && w == ws[ap] && words[..ap] == ws[..ap]
    modifies words
    ensures words[..ap + 1] == ws[..ap + 1]
  {
    words[ap] := w;
    assert words[..ap + 1] == words[..ap] + [w];
    assert ws[..ap + 1] == ws[..ap] + [w];
  }

  /** The null between the arguments and the environment, when it is its turn. */
  method PutNull(words: array<nat>, ap: nat, turn: bool, ghost ws: seq<nat>) returns (ap': nat)
    requires words.Length == |ws| && ap < |ws| && words[..ap] == ws[..ap] && (turn ==> ws[ap] == 0)
    modifies words
    ensures ap' == (if turn then ap + 1 else ap) && words[..ap'] == ws[..ap']
  {
    ap' := ap;
    if turn {
      PutWord(words, ap, 0, ws);
      ap' := ap + 1;
    }
  }

  /** Where the loop stands when `k` strings are laid and the next goes to word `ap`. */
  ghost predicate Laying(words: seq<nat>, ap: nat, area: seq<char>, cp: nat, cmd: seq<string>, buf: seq<char>,
                         pos: nat, k: nat, out: seq<string>, ws: seq<nat>)
  {
    && |words| == |ws| && ap <= |ws| && words[..ap] == ws[..ap]
    && StringsDone(area, cp, out, k) && Pending(cmd, buf, pos, out, k)
  }

  method LayEntry(cmd: seq<string>, buf: array<char>, pos: nat, words: array<nat>, ap: nat,
                  area: array<char>, cp: nat, left: int, base: nat, k: nat,
                  ghost out: seq<string>, ghost ws: seq<nat>)
    returns (len: int, pos': nat)
    requires buf != area && k < |out| && CStrings(out) && Leads(cmd, out) && |Packed(out)| <= cp + left <= area.Length
    requires Laying(words[..], ap, area[..], cp, cmd, buf[..], pos, k, out, ws)
    requires ap < |ws| && ws[ap] == base + Offset(out, k)
    modifies words, area
    ensures len == |out[k]| + 1
    ensures Laying(words[..], ap + 1, area[..], cp + len, cmd, buf[..], pos', k + 1, out, ws)
  {
    PutWord(words, ap, base + cp, ws);
    len, pos' := LayString(cmd, buf, pos, area, cp, left, k, out);
  }

  /** The word that comes after `k` strings, before the null is considered. */
  function WordAfter(k: nat, argc: nat): nat {
    if k <= argc then 1 + k else 2 + k
  }

  /** One turn of the loop: the null if it is its turn, and the next string if there is one. */
  method LayTurn(cmd: seq<string>, buf: array<char>, pos: nat, remaining: nat, envCount: nat,
                 words: array<nat>, ap: nat, area: array<char>, cp: nat, left: int, base: nat, k: nat,
                 ghost out: seq<string>, ghost ws: seq<nat>)
    returns (more: bool, ap': nat, len: nat, pos': nat)
    requires buf != area && k + remaining == |out| && envCount <= |out| && CStrings(out) && Leads(cmd, out)
    requires |Packed(out)| <= cp + left <= area.Length && IsWords(ws, out, |out| - envCount, base)
    requires ap == WordAfter(k, |out| - envCount)
    requires Laying(words[..], ap, area[..], cp, cmd, buf[..], pos, k, out, ws)
    modifies words, area
    ensures more <==> remaining > 0
    ensures more ==> ap' == WordAfter(k + 1, |out| - envCount)
    ensures more ==> Laying(words[..], ap', area[..], cp + len, cmd, buf[..], pos', k + 1, out, ws)
    ensures !more ==> ap' == |out| + 2 && words[..ap'] == ws[..ap'] && area[..] == old(area[..]) && pos' == pos
  {
    len, pos' := 0, pos;
    ap' := PutNull(words, ap, remaining == envCount, ws);
    more := remaining > 0;
    if more {
      NextWord(ws, out, |out| - envCount, base, k, ap');
      len, pos' := LayEntry(cmd, buf, pos, words, ap', area, cp, left, base, k, out, ws);
      ap' := ap' + 1;
    }
  }

  /** The loop that writes pointers and strings, and the null between the two lists. */
  method LayAll(cmd: seq<string>, buf: array<char>, start: nat, total: nat, envCount: nat,
                words: array<nat>, area: array<char>, chars: nat, base: nat,
                ghost out: seq<string>, ghost ws: seq<nat>)
    returns (ap: nat)
    requires buf != area && envCount <= total == |out| && CStrings(out) && Leads(cmd, out)
    requires words.Length == total + 3 && |Packed(out)| <= chars <= area.Length
    requires Pending(cmd, buf[..], start, out, 0) && IsWords(ws, out, total - envCount, base)
    requires words[..1] == ws[..1]
    modifies words, area
    ensures ap == total + 2 && words[..ap] == ws[..ap] && Carries(area[..], out)
  {
    var cp: nat, left: int, pos: nat, remaining: int, k: nat := 0, chars, start, total, 0;
    var more, len := true, 0;
    ap := 1;
    NothingDone(area[..], out);
    while more
      invariant k + remaining == total && 0 <= remaining && left == chars - cp
      invariant StringsDone(area[..], cp, out, k) && (!more ==> k == total)
      invariant if more then ap == WordAfter(k, total - envCount) else ap == total + 2
      invariant words[..ap] == ws[..ap] && Pending(cmd, buf[..], pos, out, k)
      decreases remaining, more
    {
      more, ap, len, pos :=
        LayTurn(cmd, buf, pos, remaining, envCount, words, ap, area, cp, left, base, k, out, ws);
      if more {
        cp, left, k, remaining := cp + len, left - len, k + 1, remaining - 1;
      }
    }
    AllDone(area[..], cp, out);
  }

  lemma NextWord(ws: seq<nat>, out: seq<string>, argc: nat, base: nat, k: nat, ap: nat)
    requires IsWords(ws, out, argc, base) && k < |out| && ap == if k < argc then 1 + k else 2 + k
    ensures ap < |ws| && ws[ap] == base + Offset(out, k)
  {
    assert ap == WordIndex(k, argc);
  }

  /** The whole block: the count, the lists and the last null. */
  method FillBlock(cmd: seq<string>, buf: array<char>, start: nat, total: nat, envCount: nat,
                   words: array<nat>, area: array<char>, chars: nat, base: nat,
                   ghost out: seq<string>, ghost ws: seq<nat>)
    requires buf != area && envCount <= total == |out| && CStrings(out)
    requires words.Length == total + 3 && |Packed(out)| <= chars <= area.Length
    requires Leads(cmd, out) && Pending(cmd, buf[..], start, out, 0) && IsWords(ws, out, total - envCount, base)
    modifies words, area
    ensures words[..] == ws && Carries(area[..], out)
  {
    PutWord(words, 0, total - envCount, ws);
    var ap := LayAll(cmd, buf, start, total, envCount, words, area, chars, base, out, ws);
    PutWord(words, ap, 0, ws);
    assert words[..] == words[..ap + 1] && ws == ws[..ap + 1];
  }

  lemma NothingDone(area: seq<char>, out: seq<string>)
    requires |Packed(out)| <= |area|
    ensures StringsDone(area, 0, out, 0)
  {
    assert out[..0] == [] && area[..0] == [];
  }

  lemma AllDone(area: seq<char>, cp: nat, out: seq<string>)
    requires StringsDone(area, cp, out, |out|)
    ensures Carries(area, out)
  {
    assert out[..|out|] == out;
  }

  // The whole of it.

  /** The program and its arguments as the caller meant them. */
  function Asked(cmd: seq<string>, argv: seq<string>, envp: seq<string>): Arguments {
    Arguments(cmd + Remaining(cmd, argv), envp)
  }

  /** The strings of the block, split where the code puts the null. */
  function Handed(cmd: seq<string>, argv: seq<string>, envp: seq<string>): Arguments {
    var out := LaidOut(cmd, argv + envp);
    Arguments(out[..|out| - |envp|], out[|out| - |envp|..])
  }

  /** A script needs an argument to replace: without one the new program is not what was asked. */
  lemma HandedIsAskedIff(cmd: seq<string>, argv: seq<string>, envp: seq<string>)
    ensures Handed(cmd, argv, envp) == Asked(cmd, argv, envp) <==> cmd == [] || argv != []
  {
    var list, out := argv + envp, LaidOut(cmd, argv + envp);
    if cmd == [] {
      assert out == argv + envp;
    } else if argv == [] {
      assert |Handed(cmd, argv, envp).argv| == |cmd| - 1;
      assert |Asked(cmd, argv, envp).argv| == |cmd|;
    } else {
      assert list[1..] == argv[1..] + envp;
      assert out == cmd + argv[1..] + envp;
    }
  }

  /** What an executable is handed. */
  lemma HandedPlain(argv: seq<string>, envp: seq<string>)
    ensures Handed([], argv, envp) == Arguments(argv, envp)
  {
    HandedIsAskedIff([], argv, envp);
  }

  /** What the interpreter of a command file is handed: its argument, if any, before the file's name. */
  lemma HandedScript(name: string, arg: string, fname: string, argv: seq<string>, envp: seq<string>)
    requires name != "" && argv != []
    ensures arg == "" ==>
              Handed(Command(name, arg, fname), argv, envp) == Arguments([name, fname] + argv[1..], envp)
    ensures arg != "" ==>
              Handed(Command(name, arg, fname), argv, envp) == Arguments([name, arg, fname] + argv[1..], envp)
  {
    HandedIsAskedIff(Command(name, arg, fname), argv, envp);
  }

  /** And without arguments: one string less, and the file's name in the environment if there is one. */
  lemma HandedBare(name: string, arg: string, fname: string, envp: seq<string>)
    requires name != ""
    ensures var front := if arg == "" then [name] else [name, arg];
            Handed(Command(name, arg, fname), [], envp) ==
            Arguments(front, if envp == [] then [] else [fname] + envp[1..])
  {
    var cmd := Command(name, arg, fname);
    var front := if arg == "" then [name] else [name, arg];
    assert [] + envp == envp && cmd == front + [fname];
    if envp == [] {
      assert LaidOut(cmd, envp) == front;
    } else {
      assert LaidOut(cmd, envp) == front + ([fname] + envp[1..]);
    }
  }

  /** With no arguments the script's name becomes the first environment string. */
  lemma ScriptWithoutArguments()
    ensures Handed(["/bin/sh", "run"], [], ["A=1", "B=2"]) == Arguments(["/bin/sh"], ["run", "B=2"])
  {
    var cmd, list := ["/bin/sh", "run"], ["A=1", "B=2"];
    assert [] + list == list && list[1..] == ["B=2"];
    assert cmd + Remaining(cmd, list) == ["/bin/sh", "run", "B=2"];
    var out := LaidOut(cmd, list);
    assert out == ["/bin/sh", "run", "B=2"];
    assert out[..1] == ["/bin/sh"] && out[1..] == ["run", "B=2"];
  }

  lemma LaidOutStrings(cmd: seq<string>, list: seq<string>, buf: seq<char>, start: nat, charCount: nat)
    requires CStrings(cmd) && CStrings(list)
    requires cmd == [] || list != [] ==>
               start <= charCount <= |buf| && Packed(Remaining(cmd, list)) == buf[start..charCount]
    ensures CStrings(LaidOut(cmd, list)) && Leads(cmd, LaidOut(cmd, list))
    ensures Pending(cmd, buf, start, LaidOut(cmd, list), 0)
  {
    var out := LaidOut(cmd, list);
    if cmd == [] || list != [] {
      assert out == cmd + Remaining(cmd, list);
      assert out[|cmd|..] == Remaining(cmd, list);
      assert buf[start..] == buf[start..charCount] + buf[charCount..];
    }
  }

  lemma CommandStrings(cfname: string, cfarg: string, fname: string)
    requires CString(cfname) && CString(cfarg) && CString(fname)
    ensures CStrings(Command(cfname, cfarg, fname))
  {
  }

  /** The block at `argStart`: the words for the strings `out`, the last `envCount` of them the
      environment, and the strings right behind the words. */
  ghost predicate IsBlock(words: seq<nat>, area: seq<char>, argStart: nat, out: seq<string>, envCount: nat) {
    && envCount <= |out| && |words| == |out| + 3
    && words == Words(out, |out| - envCount, argStart + NBPW * |words|) && Carries(area, out)
  }

  /** set_arg_addr, and the block written there. */
  method PlaceBlock(cmd: seq<string>, buf: array<char>, start: nat, total: nat, envCount: nat, chars: nat,
                    stackTop: nat, ghost out: seq<string>)
    returns (argStart: nat, words: array<nat>, area: array<char>)
    requires envCount <= total == |out| && CStrings(out) && |Packed(out)| <= chars
    requires Leads(cmd, out) && Pending(cmd, buf[..], start, out, 0) && BlockSize(total, Rounded(chars)) <= stackTop
    ensures argStart + BlockSize(total, Rounded(chars)) == stackTop
    ensures argStart + NBPW * words.Length + area.Length == stackTop
    ensures IsBlock(words[..], area[..], argStart, out, envCount)
  {
    var size := Rounded(chars);
    argStart := stackTop - BlockSize(total, size);
    var base := argStart + total * NBPW + 3 * NBPW;
    words := new nat[total + 3];
    area := new char[size + NBPW];
    WordsAre(out, total - envCount, base);
    FillBlock(cmd, buf, start, total, envCount, words, area, size, base, out, Words(out, total - envCount, base));
    FilledIsBlock(words[..], area[..], argStart, out, envCount, base);
  }

  lemma FilledIsBlock(words: seq<nat>, area: seq<char>, argStart: nat, out: seq<string>, envCount: nat, base: nat)
    requires envCount <= |out| && words == Words(out, |out| - envCount, base) && Carries(area, out)
    requires base == argStart + |out| * NBPW + 3 * NBPW
    ensures IsBlock(words, area, argStart, out, envCount)
  {
    assert base == argStart + NBPW * |words|;
  }

  /** The gathered strings `list` are the first `charCount` characters of the buffer. */
  ghost predicate Gathered(buf: seq<char>, charCount: nat, list: seq<string>) {
    && CStrings(list) && charCount == |Packed(list)| <= |buf| && buf[..charCount] == Packed(list)
    && (list == [] ==> 0 < |buf| && buf[0] == NUL)
  }

  method Ready(buf: array<char>, charCount: nat, cfname: string, cfarg: string, fname: string,
               ghost list: seq<string>)
    returns (cmd: seq<string>, chars: nat, start: nat, extra: nat)
    requires CString(cfname) && CString(cfarg) && CString(fname) && Gathered(buf[..], charCount, list)
    ensures cmd == Command(cfname, cfarg, fname) && chars == Chars(cmd, list)
    ensures var out := LaidOut(cmd, list);
            && |out| == |list| + extra && |Packed(out)| <= chars
            && CStrings(out) && Leads(cmd, out) && Pending(cmd, buf[..], start, out, 0)
  {
    cmd, chars, start, extra := Prepare(buf, charCount, cfname, cfarg, fname, list);
    CommandStrings(cfname, cfarg, fname);
    LaidOutStrings(cmd, list, buf[..], start, charCount);
  }

  /** The layout of the gathered strings, the last `envCount` of them the environment, in a block
      that ends at the top of the stack. */
  method BuildBlock(buf: array<char>, charCount: nat, argCount: nat, envCount: nat,
                    cfname: string, cfarg: string, fname: string, stackBase: nat, stackTop: nat,
                    ghost cmd: seq<string>, ghost list: seq<string>)
    returns (fits: bool, argStart: nat, words: array<nat>, area: array<char>)
    requires CString(cfname) && CString(cfarg) && CString(fname) && cmd == Command(cfname, cfarg, fname)
    requires argCount + envCount == |list| && Gathered(buf[..], charCount, list) && stackBase <= stackTop
    ensures fits <==> Fits(cmd, list, stackTop - stackBase)
    ensures fits ==> stackBase <= argStart && argStart + NBPW * words.Length + area.Length == stackTop
    ensures fits ==> EndsAt(cmd, list, argStart, stackTop)
    ensures fits ==> IsBlock(words[..], area[..], argStart, LaidOut(cmd, list), envCount)
  {
    var cmd', chars, start, extra := Ready(buf, charCount, cfname, cfarg, fname, list);
    var total := argCount + envCount + extra;
    fits := BlockSize(total, Rounded(chars)) <= stackTop - stackBase;
    if fits {
      argStart, words, area := PlaceBlock(cmd', buf, start, total, envCount, chars, stackTop, LaidOut(cmd, list));
    } else {
      argStart, words, area := 0, new nat[0], new char[0];
    }
  }

  /** copy_args for the arguments and then for the environment, into a page of zeros. */
  method Gather(argv: seq<string>, envp: seq<string>, pageSize: nat, canAllocate: nat -> bool)
    returns (ok: bool, buf: array<char>, charCount: nat, argCount: nat, envCount: nat)
    requires CStrings(argv) && CStrings(envp) && 0 < pageSize
    ensures ok ==> argCount == |argv| && envCount == |envp| && Gathered(buf[..], charCount, argv + envp)
    ensures ok <==> Granted(canAllocate, pageSize, |Packed(argv + envp)|)
  {
    buf := new char[pageSize](_ => NUL);
    charCount, envCount := 0, 0;
    ghost var page := buf[..];
    PackedAppend(argv, envp);
    DoubledOn(canAllocate, pageSize, |Packed(argv)|, |Packed(argv + envp)|);
    ok, buf, charCount, argCount := CopyArgs(argv, buf, 0, canAllocate);
    if ok {
      assert argv == [] ==> buf[..] == page && page[0] == NUL;
      assert buf[..][..charCount] == buf[..charCount];
      ok, buf, charCount, envCount := GatherMore(argv, envp, buf, charCount, canAllocate);
    }
  }

  /** The second of the two. */
  method GatherMore(ghost argv: seq<string>, envp: seq<string>, buf: array<char>, charCount: nat,
                    canAllocate: nat -> bool)
    returns (ok: bool, buf': array<char>, charCount': nat, envCount: nat)
    requires CStrings(argv) && CStrings(envp) && 0 < buf.Length && Gathered(buf[..], charCount, argv)
    modifies buf
    ensures ok <==> Granted(canAllocate, buf.Length, |Packed(argv)| + |Packed(envp)|)
    ensures ok ==> envCount == |envp| && Gathered(buf'[..], charCount', argv + envp)
  {
    ghost var before := buf[..];
    assert buf[..charCount] == before[..charCount];
    ok, buf', charCount', envCount := CopyArgs(envp, buf, charCount, canAllocate);
    if ok {
      PackedAppend(argv, envp);
      assert buf'[..][..charCount'] == buf'[..charCount'];
      assert argv + envp == [] ==> buf'[..] == before;
    }
  }

  method BuildArguments(buf: array<char>, charCount: nat, argCount: nat, envCount: nat,
                        cfname: string, cfarg: string, fname: string, stackBase: nat, stackTop: nat,
                        ghost cmd: seq<string>, ghost argv: seq<string>, ghost envp: seq<string>)
    returns (fits: bool, argStart: nat, words: array<nat>, area: array<char>)
    requires CString(cfname) && CString(cfarg) && CString(fname) && cmd == Command(cfname, cfarg, fname)
    requires CStrings(argv) && CStrings(envp) && stackBase <= stackTop
    requires argCount == |argv| && envCount == |envp| && Gathered(buf[..], charCount, argv + envp)
    ensures fits <==> Fits(cmd, argv + envp, stackTop - stackBase)
    ensures fits ==> stackBase <= argStart && argStart + NBPW * words.Length + area.Length == stackTop
    ensures fits ==> EndsAt(cmd, argv + envp, argStart, stackTop)
    ensures fits ==> Delivered(words[..], area[..], argStart, cmd, argv, envp)
  {
    fits, argStart, words, area :=
      BuildBlock(buf, charCount, argCount, envCount, cfname, cfarg, fname, stackBase, stackTop, cmd, argv + envp);
    if fits {
      CommandStrings(cfname, cfarg, fname);
      BlockDelivers(words[..], area[..], argStart, cmd, argv, envp, LaidOut(cmd, argv + envp));
    }
  }

  lemma BlockDelivers(words: seq<nat>, area: seq<char>, argStart: nat,
                      cmd: seq<string>, argv: seq<string>, envp: seq<string>, out: seq<string>)
    requires CStrings(cmd) && CStrings(argv) && CStrings(envp) && out == LaidOut(cmd, argv + envp)
    requires IsBlock(words, area, argStart, out, |envp|)
    ensures Delivered(words, area, argStart, cmd, argv, envp)
  {
    BlockDecodes(cmd, argv, envp, out, |out| - |envp|, words, area, argStart + NBPW * |words|);
  }

  /** What the new program decodes is what was asked for, except for a script that is started with
      no arguments at all. */
  ghost predicate Delivered(words: seq<nat>, area: seq<char>, argStart: nat,
                            cmd: seq<string>, argv: seq<string>, envp: seq<string>) {
    var seen := Decode(words, area, argStart + NBPW * |words|);
    && seen == Some(Handed(cmd, argv, envp))
    && (seen == Some(Asked(cmd, argv, envp)) <==> cmd == [] || argv != [])
  }

  /** Overrun: the block is larger than the stack, and the code writes below it. */
  datatype Making = Made | TooBig | Overrun

  /** The argument path of emul_exec_call. It fails exactly when the kernel refuses memory that the
      strings need. */
  method MakeArguments(argv: seq<string>, envp: seq<string>, cfname: string, cfarg: string, fname: string,
                       pageSize: nat, stackBase: nat, stackTop: nat, canAllocate: nat -> bool)
    returns (res: Making, argStart: nat, words: array<nat>, area: array<char>)
    requires CStrings(argv) && CStrings(envp) && CString(cfname) && CString(cfarg) && CString(fname)
    requires 0 < pageSize && stackBase <= stackTop
    ensures res == TooBig <==> !Granted(canAllocate, pageSize, |Packed(argv + envp)|)
    ensures res == Overrun <==>
            res != TooBig && !Fits(Command(cfname, cfarg, fname), argv + envp, stackTop - stackBase)
    ensures res == Made ==>
              && stackBase <= argStart && argStart + NBPW * words.Length + area.Length == stackTop
              && EndsAt(Command(cfname, cfarg, fname), argv + envp, argStart, stackTop)
              && Delivered(words[..], area[..], argStart, Command(cfname, cfarg, fname), argv, envp)
  {
    var ok, buf, charCount, argCount, envCount := Gather(argv, envp, pageSize, canAllocate);
    if ok {
      ghost var cmd := Command(cfname, cfarg, fname);
      ok, argStart, words, area := BuildArguments(buf, charCount, argCount, envCount, cfname, cfarg, fname,
                                                  stackBase, stackTop, cmd, argv, envp);
      res := if ok then Made else Overrun;
    } else {
      res, argStart, words, area := TooBig, 0, new nat[0], new char[0];
    }
  }

  lemma BlockDecodes(cmd: seq<string>, argv: seq<string>, envp: seq<string>, out: seq<string>, argc: nat,
                     words: seq<nat>, area: seq<char>, base: nat)
    requires CStrings(cmd) && CStrings(argv) && CStrings(envp)
    requires out == LaidOut(cmd, argv + envp) && argc + |envp| == |out|
    requires base > 0 && words == Words(out, argc, base) && Carries(area, out)
    ensures Decode(words, area, base) == Some(Handed(cmd, argv, envp))
    ensures Decode(words, area, base) == Some(Asked(cmd, argv, envp)) <==> cmd == [] || argv != []
  {
    LaidOutCStrings(cmd, argv + envp);
    HandedIs(cmd, argv, envp, out);
    DecodeWords(out, argc, words, area, base);
    HandedIsAskedIff(cmd, argv, envp);
  }

  lemma LaidOutCStrings(cmd: seq<string>, list: seq<string>)
    requires CStrings(cmd) && CStrings(list)
    ensures CStrings(LaidOut(cmd, list))
  {
  }

  lemma HandedIs(cmd: seq<string>, argv: seq<string>, envp: seq<string>, out: seq<string>)
    requires out == LaidOut(cmd, argv + envp) && |envp| <= |out|
    ensures Handed(cmd, argv, envp) == Arguments(out[..|out| - |envp|], out[|out| - |envp|..])
  {
  }
}
