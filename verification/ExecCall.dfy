/**
 The arguments of a new program from start to end, lib/emul/emul_exec.cc:279-488: a file that is
 not an executable is read as a command file, and the block is built for what it names.
 */
module ExecCall {
  import opened Options
  import opened ExecArgs
  import opened ExecBlock
  import opened ScriptLine

  /** What stands in front of the arguments: nothing for an executable. */
  function Interpreter(executable: bool, file: seq<char>, fname: string): seq<string>
    requires executable || "#!" <= file
  {
    if executable then []
    else var line := Line(Head(file)[2..]); Command(Name(line), Argument(line), fname)
  }

  /** The beginning of the file, as far as it is read, is the magic characters, blanks, a name, blanks and
      an argument, up to the end of the line or of what is read. Blanks come with a name, and an
      argument with blanks before it. */
  ghost predicate Written(file: seq<char>, lead: string, name: string, gap: string, arg: string, rest: seq<char>) {
    && (if |file| < 256 then file else file[..255]) == "#!" + lead + name + gap + arg + rest
    && (forall i :: 0 <= i < |lead| ==> lead[i] == ' ' || lead[i] == '\t')
    && (forall i :: 0 <= i < |name| ==> name[i] != ' ' && name[i] != '\t' && name[i] != '\n' && name[i] != '\0')
    && (forall i :: 0 <= i < |gap| ==> gap[i] == ' ' || gap[i] == '\t')
    && (forall i :: 0 <= i < |arg| ==> arg[i] != '\n' && arg[i] != '\0')
    && (arg != "" ==> gap != "" && arg[0] != ' ' && arg[0] != '\t') && (gap != "" ==> name != "")
    && (rest != [] ==> rest[0] == '\n' || rest[0] == '\0')
  }

  lemma WrittenParts(file: seq<char>, lead: string, name: string, gap: string, arg: string, rest: seq<char>)
    requires Written(file, lead, name, gap, arg, rest)
    ensures Blanks(lead) && Writable(name, gap, arg)
    ensures NoEnd(lead) && NoEnd(name) && NoEnd(gap) && NoEnd(arg) && (rest != [] ==> EndOfLine(rest[0]))
    ensures Head(file) == "#!" + lead + name + gap + arg + rest
  {
  }

  /** A line of such parts is read as them. */
  lemma LineIsRead(lead: string, name: string, gap: string, arg: string, rest: seq<char>)
    requires Blanks(lead) && Writable(name, gap, arg)
    requires NoEnd(lead) && NoEnd(name) && NoEnd(gap) && NoEnd(arg) && (rest != [] ==> EndOfLine(rest[0]))
    ensures var line := Line(lead + name + gap + arg + rest); Name(line) == name && Argument(line) == arg
  {
    var text := lead + name + gap + arg;
    assert (text + rest)[..|text|] == text;
    LineIs(text + rest, |text|);
    assert Reads(text, name, arg);
    ReadsIff(text, name, arg);
  }

  lemma Joined(lead: string, name: string, gap: string, arg: string, rest: seq<char>)
    ensures "#!" + lead + name + gap + arg + rest == "#!" + (lead + name + gap + arg + rest)
  {
  }

  lemma HeadIsRead(file: seq<char>, m: seq<char>, fname: string)
    requires Head(file) == "#!" + m
    ensures "#!" <= file && Interpreter(false, file, fname) == Command(Name(Line(m)), Argument(Line(m)), fname)
  {
    assert Head(file)[2..] == m;
    assert file[0] == Head(file)[0] && file[1] == Head(file)[1];
  }

  /** Such a file says just that. */
  lemma WrittenIsRead(file: seq<char>, lead: string, name: string, gap: string, arg: string, rest: seq<char>, fname: string)
    requires Written(file, lead, name, gap, arg, rest)
    ensures "#!" <= file && Interpreter(false, file, fname) == Command(name, arg, fname)
  {
    WrittenParts(file, lead, name, gap, arg, rest);
    LineIsRead(lead, name, gap, arg, rest);
    Joined(lead, name, gap, arg, rest);
    HeadIsRead(file, lead + name + gap + arg + rest, fname);
  }

  method CfString(buf: array<char>) returns (s: string)
    requires CRead(buf[..]).Some?
    ensures s == CRead(buf[..]).value && CString(s)
  {
    CReadPrefix(buf[..]);
    var n := StrLen(buf[..]);
    s := buf[..n];
    assert s == buf[..][..n];
  }

  method CommandFile(executable: bool, file: seq<char>) returns (ok: bool, cfname: string, cfarg: string)
    ensures ok <==> executable || "#!" <= file
    ensures ok ==> CString(cfname) && CString(cfarg)
    ensures ok ==> forall fname :: Command(cfname, cfarg, fname) == Interpreter(executable, file, fname)
  {
    ok, cfname, cfarg := true, "", "";
    if !executable {
      var name, arg;
      ok, name, arg := ParseScript(file);
      if ok {
        cfname := CfString(name);
        cfarg := CfString(arg);
      }
    }
  }

  /** What the program decodes, for each form of file. */
  lemma DecodesSaid(executable: bool, file: seq<char>, fname: string, argv: seq<string>, envp: seq<string>,
                    seen: Option<Arguments>)
    requires executable || "#!" <= file
    requires seen == Some(Handed(Interpreter(executable, file, fname), argv, envp))
    ensures executable ==> seen == Some(Arguments(argv, envp))
    ensures forall lead, name, gap, arg, rest :: !executable && Written(file, lead, name, gap, arg, rest) ==>
              && (name == "" ==> seen == Some(Arguments(argv, envp)))
              && (name != "" && arg == "" && argv != [] ==> seen == Some(Arguments([name, fname] + argv[1..], envp)))
              && (name != "" && arg != "" && argv != [] ==>
                    seen == Some(Arguments([name, arg, fname] + argv[1..], envp)))
              && (name != "" && argv == [] ==>
                    seen == Some(Arguments(if arg == "" then [name] else [name, arg],
                                           if envp == [] then [] else [fname] + envp[1..])))
  {
    HandedPlain(argv, envp);
    forall lead, name, gap, arg, rest | !executable && Written(file, lead, name, gap, arg, rest)
      ensures name == "" ==> seen == Some(Arguments(argv, envp))
      ensures name != "" && arg == "" && argv != [] ==> seen == Some(Arguments([name, fname] + argv[1..], envp))
      ensures name != "" && arg != "" && argv != [] ==>
                seen == Some(Arguments([name, arg, fname] + argv[1..], envp))
      ensures name != "" && argv == [] ==>
                seen == Some(Arguments(if arg == "" then [name] else [name, arg],
                                       if envp == [] then [] else [fname] + envp[1..]))
    {
      WrittenIsRead(file, lead, name, gap, arg, rest, fname);
      if name != "" && argv != [] {
        HandedScript(name, arg, fname, argv, envp);
      } else if name != "" {
        HandedBare(name, arg, fname, envp);
      }
    }
  }

  /** How large the block is, for each form of file. */
  lemma SizesSaid(executable: bool, file: seq<char>, fname: string, argv: seq<string>, envp: seq<string>,
                  argStart: nat, stackBase: nat, stackTop: nat, made: bool, overrun: bool)
    requires stackBase <= stackTop && (executable || "#!" <= file)
    requires made ==> EndsAt(Interpreter(executable, file, fname), argv + envp, argStart, stackTop)
    requires overrun ==> !Fits(Interpreter(executable, file, fname), argv + envp, stackTop - stackBase)
    ensures executable ==> Measured(argv + envp, argStart, stackBase, stackTop, made, overrun)
    ensures forall lead, name, gap, arg, rest ::
              !executable && Written(file, lead, name, gap, arg, rest) && name != "" && argv != [] ==>
                && (arg == "" ==> Measured([name, fname] + argv[1..] + envp, argStart, stackBase, stackTop, made, overrun))
                && (arg != "" ==>
                      Measured([name, arg, fname] + argv[1..] + envp, argStart, stackBase, stackTop, made, overrun))
  {
    if executable {
      SizeIs([], argv + envp, argv + envp, argStart, stackTop, stackTop - stackBase);
    }
    forall lead, name, gap, arg, rest |
      !executable && Written(file, lead, name, gap, arg, rest) && name != "" && argv != []
      ensures Measured((if arg == "" then [name, fname] else [name, arg, fname]) + argv[1..] + envp,
                       argStart, stackBase, stackTop, made, overrun)
    {
      WrittenIsRead(file, lead, name, gap, arg, rest, fname);
      SizeOfScript(name, arg, fname, argv, envp, argStart, stackTop, stackTop - stackBase);
    }
  }

  /** The block for these strings ends at the top of the stack, or it is larger than the stack: a word for
      the count, one for each string, one behind each list and one to spare, and the characters up to a
      whole word. */
  ghost predicate Measured(out: seq<string>, argStart: nat, stackBase: nat, stackTop: nat, made: bool, overrun: bool) {
    var size := 4 * |out| + 16 + (|Packed(out)| + 3) / 4 * 4;
    (made ==> argStart + size == stackTop) && (overrun ==> stackBase + size > stackTop)
  }

  lemma SizeOfScript(name: string, arg: string, fname: string, argv: seq<string>, envp: seq<string>,
                     argStart: nat, stackTop: nat, room: nat)
    requires name != "" && argv != []
    ensures Sized(Command(name, arg, fname), argv + envp,
                  (if arg == "" then [name, fname] else [name, arg, fname]) + argv[1..] + envp,
                  argStart, stackTop, room)
  {
    var cmd, list := Command(name, arg, fname), argv + envp;
    assert list[1..] == argv[1..] + envp;
    var out := cmd + argv[1..] + envp;
    assert out == cmd + list[1..];
    SizeIs(cmd, list, out, argStart, stackTop, room);
  }

  /** The size of the block is that of the strings `out` in it. */
  ghost predicate Sized(cmd: seq<string>, list: seq<string>, out: seq<string>, argStart: nat, stackTop: nat, room: nat) {
    var size := 4 * |out| + 16 + (|Packed(out)| + 3) / 4 * 4;
    && (Fits(cmd, list, room) <==> size <= room)
    && (EndsAt(cmd, list, argStart, stackTop) <==> argStart + size == stackTop)
  }

  lemma DeliveredIs(words: seq<nat>, area: seq<char>, argStart: nat, cmd: seq<string>, argv: seq<string>, envp: seq<string>)
    requires Delivered(words, area, argStart, cmd, argv, envp)
    ensures Decode(words, area, argStart + NBPW * |words|) == Some(Handed(cmd, argv, envp))
  {
  }

  datatype ExecResult = NoExec | Tried(making: Making)

  /** The block for what the file names. */
  method BlockFor(executable: bool, file: seq<char>, fname: string,
                  argv: seq<string>, envp: seq<string>,
                  pageSize: nat, stackBase: nat, stackTop: nat, canAllocate: nat -> bool)
    returns (res: ExecResult, argStart: nat, words: array<nat>, area: array<char>)
    requires CString(fname) && CStrings(argv) && CStrings(envp) && 0 < pageSize && stackBase <= stackTop
    ensures res == NoExec <==> !executable && !("#!" <= file)
    ensures res == Tried(TooBig) <==>
            res != NoExec && !Granted(canAllocate, pageSize, |Packed(argv + envp)|)
    ensures res == Tried(Overrun) <==>
            && res != NoExec && res != Tried(TooBig)
            && !Fits(Interpreter(executable, file, fname), argv + envp, stackTop - stackBase)
    ensures res == Tried(Made) ==>
              && stackBase <= argStart && argStart + NBPW * words.Length + area.Length == stackTop
              && EndsAt(Interpreter(executable, file, fname), argv + envp, argStart, stackTop)
              && Delivered(words[..], area[..], argStart, Interpreter(executable, file, fname), argv, envp)
  {
    var ok, cfname, cfarg := CommandFile(executable, file);
    if ok {
      assert Command(cfname, cfarg, fname) == Interpreter(executable, file, fname);
      var making;
      making, argStart, words, area :=
        MakeArguments(argv, envp, cfname, cfarg, fname, pageSize, stackBase, stackTop, canAllocate);
      res := Tried(making);
    } else {
      res, argStart, words, area := NoExec, 0, new nat[0], new char[0];
    }
  }

  /** Either the program finds the block at the top of its stack, or the file is neither kind of
      program, or the kernel refused memory for the strings, or the block is larger than the stack. */
  method PrepareArguments(executable: bool, file: seq<char>, fname: string,
                          argv: seq<string>, envp: seq<string>,
                          pageSize: nat, stackBase: nat, stackTop: nat, canAllocate: nat -> bool)
    returns (res: ExecResult, argStart: nat, words: array<nat>, area: array<char>, ghost seen: Option<Arguments>)
    requires CString(fname) && CStrings(argv) && CStrings(envp) && 0 < pageSize && stackBase <= stackTop
    ensures res == NoExec <==> !executable && !("#!" <= file)
    ensures res == Tried(TooBig) <==>
            res != NoExec && !Granted(canAllocate, pageSize, |Packed(argv + envp)|)
    ensures res == Tried(Overrun) <==>
            && res != NoExec && res != Tried(TooBig)
            && !Fits(Interpreter(executable, file, fname), argv + envp, stackTop - stackBase)
    ensures res == Tried(Made) ==>
              && stackBase <= argStart && argStart + NBPW * words.Length + area.Length == stackTop
              && EndsAt(Interpreter(executable, file, fname), argv + envp, argStart, stackTop)
              && Delivered(words[..], area[..], argStart, Interpreter(executable, file, fname), argv, envp)
    ensures seen == Decode(words[..], area[..], argStart + 4 * words.Length)
    ensures executable && res == Tried(Made) ==> seen == Some(Arguments(argv, envp))
    ensures forall lead, name, gap, arg, rest ::
              !executable && Written(file, lead, name, gap, arg, rest) && res == Tried(Made) ==>
                && (name == "" ==> seen == Some(Arguments(argv, envp)))
                && (name != "" && arg == "" && argv != [] ==> seen == Some(Arguments([name, fname] + argv[1..], envp)))
                && (name != "" && arg != "" && argv != [] ==>
                      seen == Some(Arguments([name, arg, fname] + argv[1..], envp)))
                && (name != "" && argv == [] ==>
                      seen == Some(Arguments(if arg == "" then [name] else [name, arg],
                                             if envp == [] then [] else [fname] + envp[1..])))
    ensures executable ==>
              Measured(argv + envp, argStart, stackBase, stackTop, res == Tried(Made), res == Tried(Overrun))
    ensures forall lead, name, gap, arg, rest ::
              !executable && Written(file, lead, name, gap, arg, rest) && name != "" && argv != [] ==>
                && (arg == "" ==>
                      Measured([name, fname] + argv[1..] + envp, argStart, stackBase, stackTop,
                               res == Tried(Made), res == Tried(Overrun)))
                && (arg != "" ==>
                      Measured([name, arg, fname] + argv[1..] + envp, argStart, stackBase, stackTop,
                               res == Tried(Made), res == Tried(Overrun)))
  {
    res, argStart, words, area :=
      BlockFor(executable, file, fname, argv, envp, pageSize, stackBase, stackTop, canAllocate);
    if res != NoExec {
      SizesSaid(executable, file, fname, argv, envp, argStart, stackBase, stackTop,
                res == Tried(Made), res == Tried(Overrun));
    }
    seen := Decode(words[..], area[..], argStart + NBPW * |words[..]|);
    if res == Tried(Made) {
      DeliveredIs(words[..], area[..], argStart, Interpreter(executable, file, fname), argv, envp);
      DecodesSaid(executable, file, fname, argv, envp, seen);
    }
  }
}
