/**
 The first line of a command file, lib/emul/emul_exec.cc:285-325: after "#!", the name of the
 interpreter and, after blanks, the rest of the line as one argument.
 */
module ScriptLine {
  import opened Options
  import opened ExecArgs

  const BufferSize := 256

  /** What io_read delivers: as much of the file as leaves room for a NUL. */
  function Head(file: seq<char>): seq<char> {
    if |file| < BufferSize then file else file[..BufferSize - 1]
  }

  predicate Blank(c: char) {
    c == ' ' || c == '\t'
  }

  predicate EndOfLine(c: char) {
    c == '\n' || c == NUL
  }

  predicate Blanks(s: seq<char>) {
    forall i :: 0 <= i < |s| ==> Blank(s[i])
  }

  ghost predicate NoBlank(s: seq<char>) {
    forall i :: 0 <= i < |s| ==> !Blank(s[i])
  }

  ghost predicate NoEnd(s: seq<char>) {
    forall i :: 0 <= i < |s| ==> !EndOfLine(s[i])
  }

  function Line(m: seq<char>): (s: seq<char>)
    ensures NoEnd(s)
  {
    if m == [] || EndOfLine(m[0]) then [] else [m[0]] + Line(m[1..])
  }

  /** Without the blanks in front. */
  function Trimmed(s: seq<char>): seq<char> {
    if s != [] && Blank(s[0]) then Trimmed(s[1..]) else s
  }

  function Word(s: seq<char>): (w: seq<char>)
    ensures |w| <= |s|
  {
    if s == [] || Blank(s[0]) then [] else [s[0]] + Word(s[1..])
  }

  function Name(line: seq<char>): seq<char> {
    Word(Trimmed(line))
  }

  function Argument(line: seq<char>): seq<char> {
    Trimmed(Trimmed(line)[|Name(line)|..])
  }

  // The line is what one writes: blanks, a name, blanks, an argument.

  /** A name and an argument that can be written on a line, with `gap` between them. */
  ghost predicate Writable(name: seq<char>, gap: seq<char>, arg: seq<char>) {
    && NoBlank(name) && Blanks(gap) && (arg != [] ==> !Blank(arg[0]))
    && (gap == [] ==> arg == []) && (name == [] ==> gap == [])
  }

  ghost predicate Reads(line: seq<char>, name: seq<char>, arg: seq<char>) {
    exists lead, gap :: Blanks(lead) && Writable(name, gap, arg) && line == lead + name + gap + arg
  }

  lemma {:induction false} TrimBlanks(lead: seq<char>, s: seq<char>)
    requires Blanks(lead) && (s != [] ==> !Blank(s[0]))
    ensures Trimmed(lead + s) == s
    decreases |lead|
  {
    if lead == [] {
      assert lead + s == s;
    } else {
      assert (lead + s)[1..] == lead[1..] + s;
      TrimBlanks(lead[1..], s);
    }
  }

  lemma {:induction false} WordFirst(w: seq<char>, s: seq<char>)
    requires NoBlank(w) && (s != [] ==> Blank(s[0]))
    ensures Word(w + s) == w
    decreases |w|
  {
    if w != [] {
      assert (w + s)[1..] == w[1..] + s;
      WordFirst(w[1..], s);
      assert [w[0]] + w[1..] == w;
    } else {
      assert w + s == s;
    }
  }

  lemma {:induction false} TrimSplits(s: seq<char>)
    ensures |Trimmed(s)| <= |s|
    ensures var n := |s| - |Trimmed(s)|;
            Blanks(s[..n]) && s[n..] == Trimmed(s) && (Trimmed(s) != [] ==> !Blank(Trimmed(s)[0]))
  {
    if s != [] && Blank(s[0]) {
      TrimSplits(s[1..]);
      var n := |s| - |Trimmed(s)|;
      assert s[..n] == [s[0]] + s[1..][..n - 1];
    }
  }

  lemma {:induction false} WordSplits(s: seq<char>)
    ensures var w := Word(s); NoBlank(w) && s[..|w|] == w && (|w| < |s| ==> Blank(s[|w|]))
  {
    if s != [] && !Blank(s[0]) {
      WordSplits(s[1..]);
      var w := Word(s[1..]);
      assert s[..|w| + 1] == [s[0]] + s[1..][..|w|];
    }
  }

  /** Whatever is written is read back, and what is read is the only way to write the line. */
  lemma ReadsIff(line: seq<char>, name: seq<char>, arg: seq<char>)
    ensures Reads(line, name, arg) <==> name == Name(line) && arg == Argument(line)
  {
    ReadsNameAndArgument(line);
    if Reads(line, name, arg) {
      var lead, gap :| Blanks(lead) && Writable(name, gap, arg) && line == lead + name + gap + arg;
      var rest := gap + arg;
      assert line == lead + (name + rest);
      TrimBlanks(lead, name + rest);
      WordFirst(name, rest);
      assert (name + rest)[|name|..] == rest;
      TrimBlanks(gap, arg);
    }
  }

  lemma Parts(lead: seq<char>, t: seq<char>, name: seq<char>, rest: seq<char>, gap: seq<char>, arg: seq<char>)
    requires Blanks(lead) && (t != [] ==> !Blank(t[0]))
    requires t == name + rest && NoBlank(name) && (rest != [] ==> Blank(rest[0]))
    requires rest == gap + arg && Blanks(gap) && (arg != [] ==> !Blank(arg[0]))
    ensures Reads(lead + t, name, arg)
  {
    assert gap == [] ==> rest == arg;
    assert name == [] ==> t == rest;
    assert Writable(name, gap, arg);
    assert lead + t == lead + name + gap + arg;
  }

  lemma ReadsNameAndArgument(line: seq<char>)
    ensures Reads(line, Name(line), Argument(line))
  {
    var t := Trimmed(line);
    TrimSplits(line);
    WordSplits(t);
    ReadsTrimmed(line[..|line| - |t|], t, Word(t));
    assert line == line[..|line| - |t|] + t;
  }

  lemma ReadsTrimmed(lead: seq<char>, t: seq<char>, name: seq<char>)
    requires Blanks(lead) && (t != [] ==> !Blank(t[0]))
    requires |name| <= |t| && t[..|name|] == name && NoBlank(name) && (|name| < |t| ==> Blank(t[|name|]))
    ensures Reads(lead + t, name, Trimmed(t[|name|..]))
  {
    var rest := t[|name|..];
    TrimSplits(rest);
    var n := |rest| - |Trimmed(rest)|;
    assert t == name + rest && rest == rest[..n] + Trimmed(rest);
    Parts(lead, t, name, rest, rest[..n], Trimmed(rest));
  }

  // The code.

  /** The buffer holds `len` characters of the file and a NUL. */
  ghost predicate Loaded(cmdbuf: seq<char>, len: nat) {
    len < |cmdbuf| == BufferSize && cmdbuf[len] == NUL
  }

  method SkipBlanks(cmdbuf: array<char>, cp: nat, ghost len: nat) returns (end: nat)
    requires Loaded(cmdbuf[..], len) && cp <= len
    ensures cp <= end <= len && Blanks(cmdbuf[cp..end]) && !Blank(cmdbuf[end])
  {
    end := cp;
    while Blank(cmdbuf[end])
      invariant cp <= end <= len && Blanks(cmdbuf[cp..end])
      decreases len - end
    {
      assert end < len;
      end := end + 1;
    }
  }

  /** The loop that copies a name, or with `toEnd` the one that copies an argument. */
  method CopyUntil(cmdbuf: array<char>, cp: nat, to: array<char>, toEnd: bool, ghost len: nat)
    returns (end: nat)
    requires cmdbuf != to && to.Length == BufferSize && Loaded(cmdbuf[..], len) && cp <= len
    modifies to
    ensures cp <= end <= len && CRead(to[..]) == Some(cmdbuf[cp..end])
    ensures NoEnd(cmdbuf[cp..end]) && (toEnd || NoBlank(cmdbuf[cp..end]))
    ensures EndOfLine(cmdbuf[end]) || (!toEnd && Blank(cmdbuf[end]))
  {
    end := cp;
    var ap := 0;
    while !EndOfLine(cmdbuf[end]) && (toEnd || !Blank(cmdbuf[end]))
      invariant cp <= end <= len && ap == end - cp && to[..ap] == cmdbuf[cp..end]
      invariant NoEnd(cmdbuf[cp..end]) && (toEnd || NoBlank(cmdbuf[cp..end]))
      decreases len - end
    {
      assert end < len;
      to[ap] := cmdbuf[end];
      ap, end := ap + 1, end + 1;
    }
    to[ap] := NUL;
    assert to[..] == to[..ap] + [NUL] + to[ap + 1..];
    CReadString(to[..ap], to[ap + 1..]);
  }

  lemma HeadStarts(file: seq<char>, text: seq<char>, rest: seq<char>)
    requires |file| >= 2 && file[2..] == text + rest && 2 + |text| < BufferSize
    ensures |Head(file)| >= 2 + |text| && Head(file)[2..][..|text|] == text
    ensures |text| < |Head(file)[2..]| ==> rest != [] && Head(file)[2..][|text|] == rest[0]
  {
    var all, m := file[2..], Head(file)[2..];
    assert m == all[..|m|];
  }

  /** A command file that fits the buffer says what its author wrote. */
  lemma ScriptRoundTrip(lead: seq<char>, name: seq<char>, gap: seq<char>, arg: seq<char>, rest: seq<char>)
    requires Blanks(lead) && Writable(name, gap, arg) && NoEnd(name) && NoEnd(arg)
    requires rest != [] ==> rest[0] == '\n'
    requires |"#!" + lead + name + gap + arg| < BufferSize
    ensures var line := Line(Head("#!" + lead + name + gap + arg + rest)[2..]);
            name == Name(line) && arg == Argument(line)
  {
    var text := lead + name + gap + arg;
    var file := "#!" + lead + name + gap + arg + rest;
    assert file == "#!" + text + rest;
    var m := Head(file)[2..];
    assert file[2..] == text + rest;
    HeadStarts(file, text, rest);
    assert NoEnd(text);
    LineIs(m, |text|);
    assert Reads(text, name, arg);
    ReadsIff(text, name, arg);
  }

  lemma {:induction false} LineIs(m: seq<char>, n: nat)
    requires n <= |m| && NoEnd(m[..n]) && (n < |m| ==> EndOfLine(m[n]))
    ensures Line(m) == m[..n]
  {
    if n > 0 {
      assert !EndOfLine(m[..n][0]);
      var shorter, longer := m[1..][..n - 1], m[..n];
      assert forall i :: 0 <= i < n - 1 ==> shorter[i] == longer[i + 1];
      LineIs(m[1..], n - 1);
      assert m[..n] == [m[0]] + m[1..][..n - 1];
    }
  }

  /** The four stops of the scan, at the ends of the blanks, the name, the blanks and the argument. */
  lemma Scanned(m: seq<char>, len: nat, c1: nat, c2: nat, c3: nat, c4: nat)
    requires 2 <= c1 <= c2 <= c3 <= c4 <= len && Loaded(m, len)
    requires Blanks(m[2..c1]) && !Blank(m[c1])
    requires NoEnd(m[c1..c2]) && NoBlank(m[c1..c2]) && (EndOfLine(m[c2]) || Blank(m[c2]))
    requires Blanks(m[c2..c3]) && !Blank(m[c3])
    requires NoEnd(m[c3..c4]) && EndOfLine(m[c4])
    ensures var line := Line(m[..len][2..]); Name(line) == m[c1..c2] && Argument(line) == m[c3..c4]
  {
    var lead, name, gap, arg := m[2..c1], m[c1..c2], m[c2..c3], m[c3..c4];
    var line := m[2..c4];
    assert line == lead + name + gap + arg;
    assert c3 < c4 ==> arg[0] == m[c3];
    assert c2 < c3 ==> gap[0] == m[c2];
    assert Writable(name, gap, arg);
    ReadsIff(line, name, arg);
    assert m[..len][2..][..c4 - 2] == line;
    assert c4 < len ==> m[..len][2..][c4 - 2] == m[c4];
    LineIs(m[..len][2..], c4 - 2);
  }

  /** The name and the argument, from behind the magic characters. */
  method Scan(cmdbuf: array<char>, ghost len: nat) returns (cfname: array<char>, cfarg: array<char>)
    requires Loaded(cmdbuf[..], len) && 2 <= len
    ensures var line := Line(cmdbuf[..][..len][2..]);
            CRead(cfname[..]) == Some(Name(line)) && CRead(cfarg[..]) == Some(Argument(line))
  {
    cfname := new char[BufferSize];
    cfarg := new char[BufferSize];
    var c1 := SkipBlanks(cmdbuf, 2, len);
    var c2 := CopyUntil(cmdbuf, c1, cfname, false, len);
    var c3 := SkipBlanks(cmdbuf, c2, len);
    var c4 := CopyUntil(cmdbuf, c3, cfarg, true, len);
    ghost var m := cmdbuf[..];
    Scanned(m, len, c1, c2, c3, c4);
  }

  /** The `#!` branch of emul_exec_call: ENOEXEC, or the two strings. */
  method ParseScript(file: seq<char>) returns (ok: bool, cfname: array<char>, cfarg: array<char>)
    ensures ok <==> "#!" <= file
    ensures ok ==>
              var line := Line(Head(file)[2..]);
              CRead(cfname[..]) == Some(Name(line)) && CRead(cfarg[..]) == Some(Argument(line))
  {
    var head := Head(file);
    var cmdbuf := new char[BufferSize](i => if 0 <= i < |head| then head[i] else NUL);
    ok := cmdbuf[0] == '#' && cmdbuf[1] == '!';
    if ok {
      assert cmdbuf[..][..|head|] == head;
      cfname, cfarg := Scan(cmdbuf, |head|);
    } else {
      cfname, cfarg := cmdbuf, cmdbuf;
    }
  }
}
