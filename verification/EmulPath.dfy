/**
 emul_path of lib/emul/emul_misc.cc: split a path into directory and leaf, in two buffers of
 bounded size. A path is the characters of a C string, up to its NUL.
 */
module EmulPath {

  datatype Outcome = Fine | NameTooLong | MinusOne | Fault

  // What a path means.

  /** The components: the longest stretches without a slash. */
  function Components(p: string): seq<string> {
    if p == [] then []
    else if p[0] == '/' then Components(p[1..])
    else
      var n := Run(p);
      [p[..n]] + Components(p[n..])
  }

  /** The length of the stretch without a slash at the front. */
  function Run(p: string): (n: nat)
    ensures n <= |p| && '/' !in p[..n] && (n < |p| ==> p[n] == '/')
    ensures p != [] && p[0] != '/' ==> n > 0
  {
    if p == [] || p[0] == '/' then 0
    else
      assert p[..1 + Run(p[1..])] == [p[0]] + p[1..][..Run(p[1..])];
      1 + Run(p[1..])
  }

  predicate IsAbsolute(p: string) {
    p != [] && p[0] == '/'
  }

  // The same, read from left to right.

  /** Components that a slash has ended, and the one being read. */
  datatype Reading = Reading(done: seq<string>, current: string)

  function Step(r: Reading, c: char): Reading {
    if c != '/' then r.(current := r.current + [c])
    else if r.current == "" then r
    else Reading(r.done + [r.current], "")
  }

  function Read(p: string): Reading {
    if p == [] then Reading([], "") else Step(Read(p[..|p| - 1]), p[|p| - 1])
  }

  function Join(cs: seq<string>): string {
    if cs == [] then "" else if |cs| == 1 then cs[0] else Join(cs[..|cs| - 1]) + "/" + cs[|cs| - 1]
  }

  /** The directory part as it is written. */
  function Dir(p: string): string {
    (if IsAbsolute(p) then "/" else "") + Join(Read(p).done)
  }

  function Leaf(p: string): string {
    Read(p).current
  }

  function OrDot(s: string): string {
    if s == "" then "." else s
  }

  /** Some component does not fit the leaf buffer, or a directory with components its own. */
  ghost predicate Overflows(p: string, dirSize: nat, leafSize: nat) {
    || (Read(p).done != [] && |Dir(p)| >= dirSize)
    || (Read(p).current != "" && |Read(p).current| >= leafSize)
    || exists i :: 0 <= i < |Read(p).done| && |Read(p).done[i]| >= leafSize
  }

  /** The code writes outside a buffer: there is no room for "." or "/" and a NUL, and nothing has
      overflowed before. */
  ghost predicate Faults(p: string, dirSize: nat, leafSize: nat) {
    (IsAbsolute(p) && dirSize == 0) || (!Overflows(p, dirSize, leafSize) && (dirSize < 2 || leafSize < 2))
  }

  ghost predicate Whole(cs: seq<string>) {
    forall i :: 0 <= i < |cs| ==> cs[i] != "" && '/' !in cs[i]
  }

  lemma {:induction false} ReadWhole(p: string)
    ensures Whole(Read(p).done) && '/' !in Read(p).current
  {
    if p != [] {
      ReadWhole(p[..|p| - 1]);
    }
  }

  lemma {:induction false} RunOfWhole(c: string, rest: string)
    requires '/' !in c && (rest == [] || rest[0] == '/')
    ensures Run(c + rest) == |c|
  {
    if c == [] {
      assert c + rest == rest;
    } else {
      var p := c + rest;
      assert p[0] == c[0] != '/' && p[1..] == c[1..] + rest;
      RunOfWhole(c[1..], rest);
    }
  }

  lemma OneComponent(c: string)
    requires '/' !in c
    ensures Components(c) == if c == "" then [] else [c]
  {
    assert c + [] == c;
    RunOfWhole(c, []);
  }

  /** Where a slash stands, components split. */
  lemma {:induction false} SplitAtSlash(a: string, b: string)
    ensures Components(a + "/" + b) == Components(a) + Components(b)
    decreases |a|
  {
    var p := a + "/" + b;
    if a == [] {
      assert p[1..] == b;
    } else if a[0] == '/' {
      assert p[1..] == a[1..] + "/" + b;
      SplitAtSlash(a[1..], b);
    } else {
      var n := Run(a);
      assert p == a[..n] + (a[n..] + "/" + b) && a == a[..n] + a[n..];
      FirstComponent(a[..n], a[n..] + "/" + b);
      FirstComponent(a[..n], a[n..]);
      SplitAtSlash(a[n..], b);
    }
  }

  /** A stretch without a slash, up to a slash or the end, is the first component. */
  lemma FirstComponent(c: string, rest: string)
    requires c != "" && '/' !in c && (rest == [] || rest[0] == '/')
    ensures Components(c + rest) == [c] + Components(rest)
  {
    RunOfWhole(c, rest);
    var p := c + rest;
    assert p[0] == c[0];
    assert p[..|c|] == c && p[|c|..] == rest;
  }

  /** The reading from left to right has the same components. */
  lemma {:induction false} ReadIsComponents(p: string)
    ensures Components(p) == Read(p).done + Components(Read(p).current)
  {
    // generalised below: what has been read, put back together, has the components of `p`
    ReadPrefix(p, |p|);
    assert p[..|p|] == p;
    assert p[|p|..] == [];
    assert Read(p).current + [] == Read(p).current;
  }

  lemma StepComponents(r: Reading, c: char, rest: string)
    requires '/' !in r.current
    ensures r.done + Components(r.current + [c] + rest) == Step(r, c).done + Components(Step(r, c).current + rest)
  {
    if c == '/' {
      SplitAtSlash(r.current, rest);
      OneComponent(r.current);
      assert "" + rest == rest;
    }
  }

  lemma {:induction false} ReadPrefix(p: string, i: nat)
    requires i <= |p|
    ensures Components(p) == Read(p[..i]).done + Components(Read(p[..i]).current + p[i..])
  {
    if i == 0 {
      assert p[..0] == [] && "" + p[0..] == p;
    } else {
      ReadPrefix(p, i - 1);
      ReadNext(p, i - 1);
      ReadWhole(p[..i - 1]);
      ReadOneMore(p, i, Read(p[..i - 1]));
    }
  }

  lemma ReadOneMore(p: string, i: nat, r: Reading)
    requires 0 < i <= |p| && '/' !in r.current
    ensures r.done + Components(r.current + p[i - 1..]) ==
            Step(r, p[i - 1]).done + Components(Step(r, p[i - 1]).current + p[i..])
  {
    assert r.current + p[i - 1..] == r.current + [p[i - 1]] + p[i..];
    StepComponents(r, p[i - 1], p[i..]);
  }

  lemma ReadNext(p: string, i: nat)
    requires i < |p|
    ensures Read(p[..i + 1]) == Step(Read(p[..i]), p[i])
  {
    assert p[..i + 1][..i] == p[..i];
  }

  lemma {:induction false} JoinComponents(cs: seq<string>)
    requires Whole(cs)
    ensures Components(Join(cs)) == cs
    ensures cs != [] ==> Join(cs) != [] && Join(cs)[0] != '/'
  {
    if |cs| == 1 {
      OneComponent(cs[0]);
    } else if cs != [] {
      var n := |cs| - 1;
      JoinComponents(cs[..n]);
      MoreComponents(Join(cs[..n]), cs[n]);
      assert cs == cs[..n] + [cs[n]];
    }
  }

  lemma MoreComponents(joined: string, last: string)
    requires last != "" && '/' !in last
    ensures Components(joined + "/" + last) == Components(joined) + [last]
  {
    SplitAtSlash(joined, last);
    OneComponent(last);
  }

  /** The directory and the leaf have between them the components of the path, in order; the
      directory is absolute exactly when the path is. */
  lemma SplitKeepsComponents(p: string)
    ensures Components(Dir(p)) + Components(Leaf(p)) == Components(p)
    ensures IsAbsolute(Dir(p)) <==> IsAbsolute(p)
    ensures '/' !in Leaf(p)
  {
    ReadWhole(p);
    ReadIsComponents(p);
    var done := Read(p).done;
    JoinComponents(done);
    if IsAbsolute(p) {
      assert Dir(p)[1..] == Join(done);
    } else {
      assert Dir(p) == Join(done);
    }
  }

  /** The bounds are on the components of the path, however it is read. */
  lemma OverflowIsTooLong(p: string, dirSize: nat, leafSize: nat)
    ensures Overflows(p, dirSize, leafSize) <==>
              || (Read(p).done != [] && |Dir(p)| >= dirSize)
              || exists c :: c in Components(p) && |c| >= leafSize
  {
    ReadIsComponents(p);
    ReadWhole(p);
    OneComponent(Read(p).current);
    var done, current := Read(p).done, Read(p).current;
    if c :| c in Components(p) && |c| >= leafSize {
      assert c in done || c == current;
    }
    if current != "" {
      assert Components(current) == [current];
      assert current in Components(p);
    }
    if i :| 0 <= i < |done| && |done[i]| >= leafSize {
      assert done[i] in Components(p);
    }
  }

  // Overflow, once it has happened, stays.

  lemma OverflowStays(p: string, i: nat, j: nat, dirSize: nat, leafSize: nat)
    requires i <= j <= |p| && Overflows(p[..i], dirSize, leafSize)
    ensures Overflows(p[..j], dirSize, leafSize)
    decreases j - i
  {
    if i < j {
      OverflowNext(p, i, dirSize, leafSize);
      OverflowStays(p, i + 1, j, dirSize, leafSize);
    }
  }

  lemma JoinGrows(cs: seq<string>, c: string)
    ensures |Join(cs + [c])| >= |Join(cs)|
    ensures Join(cs + [c]) == if cs == [] then c else Join(cs) + "/" + c
  {
    assert (cs + [c])[..|cs|] == cs;
  }

  lemma DirNext(p: string, i: nat)
    requires i < |p|
    ensures var r := Read(p[..i]);
            Dir(p[..i + 1]) ==
              if p[i] != '/' || (r.current == "" && i > 0) then Dir(p[..i])
              else if i == 0 then "/"
              else if r.done == [] then Dir(p[..i]) + r.current
              else Dir(p[..i]) + "/" + r.current
  {
    ReadNext(p, i);
    var r, root := Read(p[..i]), if IsAbsolute(p[..i + 1]) then "/" else "";
    if i == 0 {
      assert p[..0] == [] && p[..1] == [p[0]];
    } else {
      assert p[..i + 1][0] == p[..i][0] == p[0];
      assert Dir(p[..i]) == root + Join(r.done);
      DirStep(root, r, p[i]);
    }
  }

  lemma DirStep(root: string, r: Reading, c: char)
    ensures var d := root + Join(r.done);
            root + Join(Step(r, c).done) ==
              if c != '/' || r.current == "" then d
              else if r.done == [] then d + r.current
              else d + "/" + r.current
  {
    if c == '/' && r.current != "" {
      JoinGrows(r.done, r.current);
      assert r.done == [] ==> Join(r.done) == "";
    }
  }

  lemma OverflowNext(p: string, i: nat, dirSize: nat, leafSize: nat)
    requires i < |p| && Overflows(p[..i], dirSize, leafSize)
    ensures Overflows(p[..i + 1], dirSize, leafSize)
  {
    ReadNext(p, i);
    DirNext(p, i);
    var r, q := Read(p[..i]), Read(p[..i + 1]);
    if r.done != [] && |Dir(p[..i])| >= dirSize {
      assert |q.done| >= |r.done|;
    } else if r.current != "" && |r.current| >= leafSize {
      if p[i] == '/' && r.current != "" {
        assert q.done[|r.done|] == r.current;
      }
    } else {
      var k :| 0 <= k < |r.done| && |r.done[k]| >= leafSize;
      assert q.done[k] == r.done[k];
    }
  }

  // The code.

  /** The buffer holds the string and its NUL. */
  ghost predicate Contains(a: array<char>, s: string)
    reads a
  {
    |s| < a.Length && a[..|s|] == s && a[|s|] == '\0'
  }

  function Appended(d: string, c: string): string {
    (if d == "" || d[|d| - 1] == '/' then d else d + "/") + c
  }

  lemma {:induction false} JoinEnd(cs: seq<string>)
    requires Whole(cs)
    ensures cs != [] ==> Join(cs) != "" && Join(cs)[|Join(cs)| - 1] != '/'
  {
    if cs != [] {
      var c := cs[|cs| - 1];
      assert c[|c| - 1] in c;
      assert Join(cs)[|Join(cs)| - 1] == c[|c| - 1];
    }
  }

  /** What the slash after a component does to the directory. */
  lemma SlashNext(p: string, i: nat)
    requires 0 < i < |p| && p[i] == '/' && Read(p[..i]).current != ""
    ensures Dir(p[..i + 1]) == Appended(Dir(p[..i]), Read(p[..i]).current)
    ensures Read(p[..i + 1]) == Reading(Read(p[..i]).done + [Read(p[..i]).current], "")
  {
    ReadNext(p, i);
    DirNext(p, i);
    ReadWhole(p[..i]);
    JoinEnd(Read(p[..i]).done);
  }

  /** The component in `leaf` goes to the end of `dir`, after a slash if one is needed. */
  method AppendComponent(dir: array<char>, dsize: nat, leaf: array<char>, lsize: nat)
    returns (res: Outcome, newSize: nat)
    requires dir != leaf && dsize <= dir.Length && lsize <= leaf.Length && 0 < lsize
    modifies dir
    ensures var joined := Appended(old(dir[..dsize]), leaf[..lsize]);
            && res != Fault && (res == Fine <==> |joined| < dir.Length)
            && (res == MinusOne <==> dsize != 0 && old(dir[dsize - 1]) != '/' && dsize + 1 >= dir.Length)
            && (res == Fine ==> newSize == |joined| && dir[..newSize] == joined)
  {
    newSize := dsize;
    if dsize != 0 && dir[dsize - 1] != '/' {
      if newSize + 1 < dir.Length {
        dir[newSize] := '/';
        newSize := newSize + 1;
      } else {
        return MinusOne, dsize;
      }
    }
    if lsize + newSize >= dir.Length {
      return NameTooLong, newSize;
    }
    newSize := CopyLeaf(dir, newSize, leaf, lsize);
    res := Fine;
  }

  method CopyLeaf(dir: array<char>, start: nat, leaf: array<char>, lsize: nat) returns (end: nat)
    requires dir != leaf && start + lsize <= dir.Length && lsize <= leaf.Length
    modifies dir
    ensures end == start + lsize && dir[..end] == old(dir[..start]) + leaf[..lsize]
  {
    end := start;
    for i := 0 to lsize
      invariant end == start + i <= dir.Length
      invariant dir[..start] == old(dir[..start]) && dir[start..end] == leaf[..i]
    {
      dir[end] := leaf[i];
      end := end + 1;
    }
    assert dir[..end] == dir[..start] + dir[start..end];
  }

  /** Where the scan stands after `i` characters. */
  ghost predicate At(path: string, i: nat, dir: array<char>, dsize: nat, leaf: array<char>, lsize: nat)
    reads dir, leaf
  {
    && i <= |path| && dsize <= dir.Length && lsize <= leaf.Length
    && dir[..dsize] == Dir(path[..i]) && leaf[..lsize] == Read(path[..i]).current
    && !Overflows(path[..i], dir.Length, leaf.Length)
  }

  lemma Overflown(path: string, i: nat, dirSize: nat, leafSize: nat)
    requires i <= |path| && Overflows(path[..i], dirSize, leafSize)
    ensures Overflows(path, dirSize, leafSize)
  {
    OverflowStays(path, i, |path|, dirSize, leafSize);
    assert path[..|path|] == path;
  }

  /** The first `i` characters fit, and one more does not. */
  ghost predicate StopsAt(p: string, i: nat, dirSize: nat, leafSize: nat) {
    i < |p| && !Overflows(p[..i], dirSize, leafSize) && Overflows(p[..i + 1], dirSize, leafSize)
  }

  /** A slash is to go behind what is in the directory, and there is no room for it. */
  ghost predicate NoRoomForSlash(p: string, i: nat, dirSize: nat)
    requires i < |p|
  {
    var d := Dir(p[..i]);
    p[i] == '/' && d != "" && d[|d| - 1] != '/' && |d| + 1 >= dirSize
  }

  /** -1 if it stops where there is no room for a slash, and ENAMETOOLONG anywhere else. */
  ghost predicate StopIs(res: Outcome, p: string, dirSize: nat, leafSize: nat) {
    && (res == MinusOne ==> exists i :: StopsAt(p, i, dirSize, leafSize) && NoRoomForSlash(p, i, dirSize))
    && (res == NameTooLong ==> exists i :: StopsAt(p, i, dirSize, leafSize) && !NoRoomForSlash(p, i, dirSize))
  }

  /** One character of a component. */
  method ReadChar(path: string, i: nat, dir: array<char>, dsize: nat, leaf: array<char>, lsize: nat)
    returns (res: Outcome)
    requires dir != leaf && At(path, i, dir, dsize, leaf, lsize) && i < |path| && path[i] != '/'
    modifies leaf
    ensures res == Fine ==> At(path, i + 1, dir, dsize, leaf, lsize + 1)
    ensures res != Fine ==> res == NameTooLong && Overflows(path, dir.Length, leaf.Length)
    ensures StopIs(res, path, dir.Length, leaf.Length)
  {
    ReadNext(path, i);
    DirNext(path, i);
    if lsize + 1 < leaf.Length {
      leaf[lsize] := path[i];
      assert leaf[..lsize + 1] == Read(path[..i + 1]).current;
      return Fine;
    }
    Overflown(path, i + 1, dir.Length, leaf.Length);
    assert StopsAt(path, i, dir.Length, leaf.Length);
    return NameTooLong;
  }

  /** A slash behind a component. */
  method EndComponent(path: string, i: nat, dir: array<char>, dsize: nat, leaf: array<char>, lsize: nat)
    returns (res: Outcome, newDsize: nat)
    requires dir != leaf && At(path, i, dir, dsize, leaf, lsize) && i < |path| && path[i] == '/'
    requires lsize != 0 && i > 0
    modifies dir
    ensures res == Fine ==> At(path, i + 1, dir, newDsize, leaf, 0)
    ensures res != Fault
    ensures res != Fine ==> Overflows(path, dir.Length, leaf.Length) && StopsAt(path, i, dir.Length, leaf.Length)
    ensures res == MinusOne ==> NoRoomForSlash(path, i, dir.Length)
    ensures res == NameTooLong ==> !NoRoomForSlash(path, i, dir.Length)
  {
    SlashNext(path, i);
    res, newDsize := AppendComponent(dir, dsize, leaf, lsize);
    if res == Fine {
      NoOverflow(path, i, dir.Length, leaf.Length);
    } else {
      DirTooLong(path, i, dir.Length, leaf.Length);
      Overflown(path, i + 1, dir.Length, leaf.Length);
    }
  }

  lemma DirTooLong(path: string, i: nat, dirSize: nat, leafSize: nat)
    requires 0 < i < |path| && path[i] == '/' && Read(path[..i]).current != ""
    requires |Dir(path[..i + 1])| >= dirSize
    ensures Overflows(path[..i + 1], dirSize, leafSize)
  {
    SlashNext(path, i);
  }

  /** A slash. */
  method ReadSlash(path: string, i: nat, dir: array<char>, dsize: nat, leaf: array<char>, lsize: nat)
    returns (res: Outcome, newDsize: nat)
    requires dir != leaf && At(path, i, dir, dsize, leaf, lsize) && i < |path| && path[i] == '/'
    modifies dir
    ensures res == Fine ==> At(path, i + 1, dir, newDsize, leaf, 0)
    ensures res == Fault ==> i == 0 && dir.Length == 0
    ensures res != Fine && res != Fault ==> i > 0 && Overflows(path, dir.Length, leaf.Length)
    ensures StopIs(res, path, dir.Length, leaf.Length)
  {
    newDsize := dsize;
    assert i == 0 ==> path[..i] == [];
    if lsize != 0 {
      res, newDsize := EndComponent(path, i, dir, dsize, leaf, lsize);
    } else {
      ReadNext(path, i);
      DirNext(path, i);
      if dsize == 0 {
        StartOfPath(path, i);
        if dir.Length == 0 {
          return Fault, newDsize;
        }
        dir[newDsize] := '/';
        newDsize := newDsize + 1;
      }
      res := Fine;
    }
  }

  lemma NoOverflow(path: string, i: nat, dirSize: nat, leafSize: nat)
    requires 0 < i < |path| && path[i] == '/' && Read(path[..i]).current != ""
    requires !Overflows(path[..i], dirSize, leafSize) && |Dir(path[..i + 1])| < dirSize
    ensures !Overflows(path[..i + 1], dirSize, leafSize)
  {
    SlashNext(path, i);
  }

  /** Nothing in the directory and no component: only at the very start. */
  lemma StartOfPath(path: string, i: nat)
    requires i < |path| && Dir(path[..i]) == "" && Read(path[..i]).current == ""
    ensures i == 0
  {
    if i > 0 {
      ReadIsComponents(path[..i]);
      ReadWhole(path[..i]);
      JoinComponents(Read(path[..i]).done);
    }
  }

  /** emul_path. It fails exactly when a bound is exceeded, and for buffers of two characters or more
      it never writes outside them. When it succeeds, `d` and `l` are the strings in the buffers: the
      directory, absolute exactly if the path is, with single slashes and none at its end, and the leaf,
      which is one component. For a part that the path has not got there is ".". */
  method EmulPath(path: string, dir: array<char>, leaf: array<char>)
    returns (res: Outcome, ghost d: string, ghost l: string)
    requires dir != leaf && '\0' !in path
    modifies dir, leaf
    ensures res == Fault <==> Faults(path, dir.Length, leaf.Length)
    ensures res == Fine ==> !Overflows(path, dir.Length, leaf.Length)
    ensures res == NameTooLong || res == MinusOne ==> Overflows(path, dir.Length, leaf.Length)
    ensures StopIs(res, path, dir.Length, leaf.Length)
    ensures res == Fine ==> Contains(dir, OrDot(Dir(path))) && Contains(leaf, OrDot(Leaf(path)))
    ensures res == Fine ==>
              && |d| < dir.Length && dir[..|d|] == d && dir[|d|] == '\0' && '\0' !in d
              && |l| < leaf.Length && leaf[..|l|] == l && leaf[|l|] == '\0' && '\0' !in l
    ensures res == Fine ==> d != "" && l != "" && '/' !in l
    ensures res == Fine ==> (d[0] == '/' <==> path != "" && path[0] == '/')
    ensures res == Fine ==> (forall k :: 0 <= k < |d| - 1 ==> d[k] != '/' || d[k + 1] != '/')
    ensures res == Fine ==> d == "/" || d[|d| - 1] != '/'
    ensures res == Fine && '/' !in path ==> d == "."
    ensures res == Fine && (path == "" || path[|path| - 1] == '/') ==> l == "."
    ensures res == Fine ==>
              (if '/' in path then Components(d) else []) + (if path != "" && path[|path| - 1] != '/' then [l] else [])
              == Components(path)
  {
    var dsize, lsize;
    res, dsize, lsize := Scan(path, dir, leaf);
    if res == Fine {
      res := Finish(path, dir, dsize, leaf, lsize);
    }
    d, l := OrDot(Dir(path)), OrDot(Leaf(path));
    PartsAre(path);
  }

  /** The outer loop. */
  method Scan(path: string, dir: array<char>, leaf: array<char>) returns (res: Outcome, dsize: nat, lsize: nat)
    requires dir != leaf
    modifies dir, leaf
    ensures res == Fine ==> At(path, |path|, dir, dsize, leaf, lsize) && (IsAbsolute(path) ==> dir.Length > 0)
    ensures res == Fine ==> !Overflows(path, dir.Length, leaf.Length)
    ensures res == Fault ==> IsAbsolute(path) && dir.Length == 0
    ensures res != Fine && res != Fault ==>
              Overflows(path, dir.Length, leaf.Length) && !(IsAbsolute(path) && dir.Length == 0)
    ensures StopIs(res, path, dir.Length, leaf.Length)
  {
    var i := 0;
    res, dsize, lsize := Fine, 0, 0;
    assert path[..0] == [];
    while i < |path|
      invariant res == Fine && At(path, i, dir, dsize, leaf, lsize)
      invariant i > 0 && IsAbsolute(path) ==> dir.Length > 0
    {
      res, i, lsize := ReadName(path, i, dir, dsize, leaf, lsize);
      if res != Fine {
        return;
      }
      if i < |path| {
        res, dsize := ReadSlash(path, i, dir, dsize, leaf, lsize);
        if res != Fine {
          return;
        }
        i, lsize := i + 1, 0;
      }
    }
    assert path[..i] == path;
  }

  /** The inner loop: a component, up to a slash or the end. */
  method ReadName(path: string, start: nat, dir: array<char>, dsize: nat, leaf: array<char>, length: nat)
    returns (res: Outcome, i: nat, lsize: nat)
    requires dir != leaf && At(path, start, dir, dsize, leaf, length) && start < |path|
    modifies leaf
    ensures start <= i <= |path| && (i < |path| ==> res != Fine || path[i] == '/')
    ensures res == Fine ==> At(path, i, dir, dsize, leaf, lsize)
    ensures res != Fine ==> res == NameTooLong && Overflows(path, dir.Length, leaf.Length)
    ensures res != Fine ==> path[start] != '/'
    ensures StopIs(res, path, dir.Length, leaf.Length)
  {
    res, i, lsize := Fine, start, length;
    while i < |path| && path[i] != '/'
      invariant start <= i && res == Fine && At(path, i, dir, dsize, leaf, lsize)
      invariant i > start ==> path[start] != '/'
    {
      res := ReadChar(path, i, dir, dsize, leaf, lsize);
      if res != Fine {
        return;
      }
      i, lsize := i + 1, lsize + 1;
    }
  }

  // The parts as they are written.

  lemma LeafIs(p: string)
    ensures Leaf(p) == "" <==> p == "" || p[|p| - 1] == '/'
  {
  }

  lemma {:induction false} NoSlash(p: string)
    requires '/' !in p
    ensures Read(p) == Reading([], p)
  {
    if p != [] {
      var n := |p| - 1;
      NoSlash(p[..n]);
      assert p[n] != '/' && p == p[..n] + [p[n]];
    }
  }

  lemma {:induction false} SlashEnds(p: string)
    requires '/' in p && p[0] != '/'
    ensures Read(p).done != []
  {
    var q := p[..|p| - 1];
    if '/' in q {
      SlashEnds(q);
    } else {
      NoSlash(q);
      assert p == q + [p[|p| - 1]];
    }
  }

  lemma {:induction false} SingleSlashes(cs: seq<string>)
    requires Whole(cs)
    ensures var j := Join(cs); forall k :: 0 <= k < |j| - 1 ==> j[k] != '/' || j[k + 1] != '/'
  {
    if |cs| > 1 {
      SingleSlashes(cs[..|cs| - 1]);
      JoinEnd(cs[..|cs| - 1]);
    }
  }

  /** No two slashes in a row, and none at the end but that of the root. */
  ghost predicate Tidy(d: string) {
    && (forall k :: 0 <= k < |d| - 1 ==> d[k] != '/' || d[k + 1] != '/')
    && (d != "" ==> d == "/" || d[|d| - 1] != '/')
  }

  lemma DirEmptyIff(p: string)
    ensures Dir(p) == "" <==> '/' !in p
  {
    if '/' !in p {
      NoSlash(p);
    } else if p[0] != '/' {
      SlashEnds(p);
      ReadWhole(p);
      JoinComponents(Read(p).done);
    }
  }

  lemma DirTidy(p: string)
    ensures Tidy(Dir(p))
  {
    var done := Read(p).done;
    ReadWhole(p);
    JoinComponents(done);
    JoinTidy(done);
    if IsAbsolute(p) {
      assert Dir(p) == "/" + Join(done);
      Rooted(Join(done));
    } else {
      assert Dir(p) == Join(done);
    }
  }

  lemma JoinTidy(cs: seq<string>)
    requires Whole(cs)
    ensures Tidy(Join(cs))
  {
    JoinEnd(cs);
    SingleSlashes(cs);
  }

  lemma Rooted(d: string)
    requires Tidy(d) && (d != "" ==> d[0] != '/')
    ensures Tidy("/" + d)
  {
    var r := "/" + d;
    assert forall k :: 0 <= k < |d| ==> r[k + 1] == d[k];
    forall k | 0 <= k < |r| - 1 ensures r[k] != '/' || r[k + 1] != '/' {
      if k > 0 {
        assert r[k] == d[k - 1] && r[k + 1] == d[k];
      }
    }
  }

  lemma PartsAre(p: string)
    requires '\0' !in p
    ensures var d, l := OrDot(Dir(p)), OrDot(Leaf(p));
            && '\0' !in d && '\0' !in l && d != "" && l != "" && '/' !in l
            && (d[0] == '/' <==> p != "" && p[0] == '/') && Tidy(d)
            && ('/' !in p ==> d == ".") && (p == "" || p[|p| - 1] == '/' ==> l == ".")
            && (if '/' in p then Components(d) else []) + (if p != "" && p[|p| - 1] != '/' then [l] else [])
               == Components(p)
  {
    SplitKeepsComponents(p);
    DirEmptyIff(p);
    DirTidy(p);
    LeafIs(p);
    OneComponent(Leaf(p));
    ReadNoNul(p);
    JoinNoNul(Read(p).done);
  }

  lemma {:induction false} JoinNoNul(cs: seq<string>)
    requires forall i :: 0 <= i < |cs| ==> '\0' !in cs[i]
    ensures '\0' !in Join(cs)
  {
    if |cs| > 1 {
      JoinNoNul(cs[..|cs| - 1]);
    }
  }

  // The rest of the code.

  /** The NULs, and a dot for nothing; each write where there is room for it. */
  method Finish(path: string, dir: array<char>, dsize: nat, leaf: array<char>, lsize: nat) returns (res: Outcome)
    requires dir != leaf && '\0' !in path && At(path, |path|, dir, dsize, leaf, lsize)
    modifies dir, leaf
    ensures res == if dir.Length < 2 || leaf.Length < 2 then Fault else Fine
    ensures res == Fine ==> Contains(dir, OrDot(Dir(path))) && Contains(leaf, OrDot(Leaf(path)))
  {
    assert path[..|path|] == path;
    ShortParts(path, dir.Length, leaf.Length);
    if dsize >= dir.Length || lsize >= leaf.Length {
      return Fault;
    }
    NoNul(path);
    dir[dsize] := '\0';
    leaf[lsize] := '\0';
    assert dir[..dsize] == Dir(path) && leaf[..lsize] == Leaf(path);
    assert dsize > 0 ==> dir[0] == dir[..dsize][0];
    assert lsize > 0 ==> leaf[0] == leaf[..lsize][0];
    if dir[0] == '\0' {
      dir[0] := '.';
      if dir.Length < 2 {
        return Fault;
      }
      dir[1] := '\0';
    }
    if leaf[0] == '\0' {
      leaf[0] := '.';
      if leaf.Length < 2 {
        return Fault;
      }
      leaf[1] := '\0';
    }
    res := Fine;
  }

  /** The parts leave room for a NUL, except for "/" in a buffer of one character, and for nothing
      in one of none; and a buffer of one character has room for nothing but "/" or nothing. */
  lemma ShortParts(p: string, dirSize: nat, leafSize: nat)
    requires !Overflows(p, dirSize, leafSize)
    ensures |Dir(p)| >= dirSize ==> dirSize < 2
    ensures |Leaf(p)| >= leafSize ==> leafSize == 0
    ensures dirSize < 2 && |Dir(p)| < dirSize ==> Dir(p) == ""
    ensures leafSize < 2 && |Leaf(p)| < leafSize ==> Leaf(p) == ""
  {
  }

  /** A path without a NUL splits into parts without one at the front. */
  lemma NoNul(path: string)
    requires '\0' !in path
    ensures Dir(path) != "" ==> Dir(path)[0] != '\0'
    ensures Leaf(path) != "" ==> Leaf(path)[0] != '\0'
  {
    ReadNoNul(path);
    ReadWhole(path);
    JoinFirst(Read(path).done);
  }

  lemma {:induction false} ReadNoNul(p: string)
    requires '\0' !in p
    ensures '\0' !in Read(p).current
    ensures forall i :: 0 <= i < |Read(p).done| ==> '\0' !in Read(p).done[i]
  {
    if p != [] {
      ReadNoNul(p[..|p| - 1]);
    }
  }

  lemma {:induction false} JoinFirst(cs: seq<string>)
    requires Whole(cs)
    ensures cs != [] ==> Join(cs) != "" && Join(cs)[0] == cs[0][0]
  {
    if |cs| > 1 {
      JoinFirst(cs[..|cs| - 1]);
    }
  }

  /** For instance: an empty path, with one character for the directory. */
  lemma FaultInstance()
    ensures Faults("", 1, 256) && !Overflows("", 1, 256)
  {
    assert Read("") == Reading([], "");
  }
}
