/**
 do_host_tasks (bin/machid/machid_procs.c:304-419): the tasks of all the processor sets of a host.
 Every set's two ports are named and associated on the way.
 */
module MachidHostTasks {
  import opened Options
  import opened MachKernel
  import opened PortTables
  import opened MachidMachine
  import opened MachidServer
  import opened MachidHandlers

  /** What the kernel tells do_host_tasks of one processor set: its name port, its privileged
      port (MACH_PORT_DEAD if refused), and its tasks. */
  datatype SetAnswer = SetAnswer(name: Port, priv: Port, tasks: seq<Port>)

  /** The references of several lists of ports. */
  function ListRefs(lists: seq<seq<Port>>): multiset<Port> {
    if lists == [] then multiset{} else ListRefs(lists[..|lists| - 1]) + Refs(lists[|lists| - 1])
  }

  function Flatten(lists: seq<seq<Port>>): seq<Port> {
    if lists == [] then [] else Flatten(lists[..|lists| - 1]) + lists[|lists| - 1]
  }

  lemma ListSnoc(lists: seq<seq<Port>>, i: nat)
    requires i < |lists|
    ensures ListRefs(lists[..i + 1]) == ListRefs(lists[..i]) + Refs(lists[i])
    ensures Flatten(lists[..i + 1]) == Flatten(lists[..i]) + lists[i]
  {
    assert lists[..i + 1][..i] == lists[..i];
  }

  lemma {:induction false} ListRefsMonotone(lists: seq<seq<Port>>, i: nat)
    requires i <= |lists|
    ensures ListRefs(lists[..i]) <= ListRefs(lists)
    decreases |lists| - i
  {
    if i < |lists| {
      ListSnoc(lists, i);
      ListRefsMonotone(lists, i + 1);
    } else {
      assert lists[..i] == lists;
    }
  }

  /** The answer for one processor set arrives: its privileged port and, if that is a port, its
      tasks. */
  method ReceiveSet(m: Server, answer: SetAnswer) returns (procset: Port, tasks: seq<Port>)
    requires m.Valid()
    modifies m`space, m`run, m`owned
    ensures m.Valid() && m.owned == old(m.owned) + RefOf(procset) + Refs(tasks)
    ensures Quiet(old(Last(m.run)), Last(m.run))
    ensures old(m.run) <= m.run && |old(m.run)| < |m.run|
    ensures SetCame(answer, procset, tasks, m.run, |old(m.run)|)
  {
    tasks := [];
    procset := m.ReceiveRight(answer.priv);
    ghost var run := m.run;
    if PortValid(procset) {
      tasks := ReceivePorts(m, answer.tasks);
      ArrivedGrows(answer.tasks, tasks, m.run, |run|, m.run, |old(m.run)|);
    }
    CameGrows(answer.priv, procset, run, |old(m.run)|, m.run, |old(m.run)|);
    m.Quietly();
  }

  /** What do_host_tasks ties to a processor set: the host, and the set's two names to each other. */
  function SetTags(host: Name, mprocset: Name, mprocsetname: Name): map<MachType, Name> {
    map[HostPriv := host, ProcessorSet := mprocset, ProcessorSetName := mprocsetname]
  }

  /** The associations that the sets' ports get. */
  ghost function SetMarks(procsets: seq<Port>, names: seq<Port>): set<Mark> {
    (set p, t | p in procsets && t in {HostPriv, ProcessorSetName} :: Mark(p, t))
    + (set q, t | q in names && t in {HostPriv, ProcessorSet} :: Mark(q, t))
  }

  lemma SetMarksHave(procset: Port, mprocset: Name, name: Port, mprocsetname: Name)
    ensures Marks([procset], Tag(ProcessorSetName, mprocsetname)) <= SetMarks([procset], [name])
    ensures Marks([name], Tag(ProcessorSet, mprocset)) <= SetMarks([procset], [name])
  {
  }

  lemma SetMarksGrow(procsets: seq<Port>, names: seq<Port>, procset: Port, i: nat)
    requires i < |names|
    ensures SetMarks(procsets, names) <= SetMarks(procsets + [procset], names)
    ensures SetMarks([procset], [names[i]]) <= SetMarks(procsets + [procset], names)
  {
    var more := procsets + [procset];
    assert forall p :: p in procsets ==> p in more;
    assert procset in more;
  }

  /** The set's privileged port and its name port have their names and their associations. */
  ghost predicate SetSettled(a: State, procset: Port, mprocset: Name, name: Port, mprocsetname: Name, host: Name) {
    && Settled(a, procset, mprocset, Tags(HostPriv, host, ProcessorSetName, mprocsetname))
    && Settled(a, name, mprocsetname, Tags(HostPriv, host, ProcessorSet, mprocset))
  }

  /** The name that a port has in a state; 0 for what has none. */
  ghost function NameIn(a: State, p: Port): Name {
    if PortValid(p) && p in a.recs then a.recs[p].name else 0
  }

  /** At some state of the run, from `from` on, the set was named and associated. */
  ghost predicate SetDone(run: seq<State>, from: nat, procset: Port, name: Port, host: Name) {
    exists k :: from <= k < |run|
                && SetSettled(run[k], procset, NameIn(run[k], procset), name, NameIn(run[k], name), host)
  }

  lemma SetDoneNow(run: seq<State>, from: nat, procset: Port, mprocset: Name, name: Port, mprocsetname: Name, host: Name)
    requires from < |run| && SetSettled(Last(run), procset, mprocset, name, mprocsetname, host)
    ensures SetDone(run, from, procset, name, host)
  {
    var k := |run| - 1;
    assert NameIn(run[k], procset) == mprocset && NameIn(run[k], name) == mprocsetname;
  }

  /** What came of the kernel's answer for a set: its port and, if that is one, its tasks. */
  ghost predicate SetCame(answer: SetAnswer, procset: Port, tasks: seq<Port>, run: seq<State>, from: nat) {
    && Came(answer.priv, procset, run, from)
    && (if PortValid(procset) then Arrived(answer.tasks, tasks, run, from) else tasks == [])
  }

  lemma SetCameGrows(answer: SetAnswer, procset: Port, tasks: seq<Port>, run: seq<State>, from: nat,
                     run': seq<State>, from': nat)
    requires SetCame(answer, procset, tasks, run, from) && run <= run' && from' <= from
    ensures SetCame(answer, procset, tasks, run', from')
  {
    CameGrows(answer.priv, procset, run, from, run', from');
    if PortValid(procset) {
      ArrivedGrows(answer.tasks, tasks, run, from, run', from');
    }
  }

  lemma SetDoneGrows(run: seq<State>, from: nat, procset: Port, name: Port, host: Name, run': seq<State>, from': nat)
    requires SetDone(run, from, procset, name, host) && run <= run' && from' <= from
    ensures SetDone(run', from', procset, name, host)
  {
    var k :| from <= k < |run|
             && SetSettled(run[k], procset, NameIn(run[k], procset), name, NameIn(run[k], name), host);
    assert run'[k] == run[k];
  }

  /** The sets worked through so far: what came of each, and that it was named and associated. */
  ghost predicate Collected(run: seq<State>, from: nat, answers: seq<SetAnswer>, names: seq<Port>,
                            procsets: seq<Port>, lists: seq<seq<Port>>, host: Name)
    decreases |procsets|
  {
    if procsets == [] then lists == []
    else
      var n := |procsets| - 1;
      && |lists| == n + 1 && n < |answers| && n < |names|
      && Collected(run, from, answers, names, procsets[..n], lists[..n], host)
      && SetCame(answers[n], procsets[n], lists[n], run, from)
      && SetDone(run, from, procsets[n], names[n], host)
  }

  lemma {:induction false} CollectedGrows(run: seq<State>, from: nat, answers: seq<SetAnswer>, names: seq<Port>,
                                          procsets: seq<Port>, lists: seq<seq<Port>>, host: Name,
                                          run': seq<State>, from': nat)
    requires Collected(run, from, answers, names, procsets, lists, host) && run <= run' && from' <= from
    ensures Collected(run', from', answers, names, procsets, lists, host)
    decreases |procsets|
  {
    if procsets != [] {
      var n := |procsets| - 1;
      CollectedGrows(run, from, answers, names, procsets[..n], lists[..n], host, run', from');
      SetCameGrows(answers[n], procsets[n], lists[n], run, from, run', from');
      SetDoneGrows(run, from, procsets[n], names[n], host, run', from');
    }
  }

  lemma CollectedSnoc(run: seq<State>, from: nat, answers: seq<SetAnswer>, names: seq<Port>,
                      procsets: seq<Port>, lists: seq<seq<Port>>, host: Name,
                      run': seq<State>, from': nat, procset: Port, tasks: seq<Port>)
    requires Collected(run, from, answers, names, procsets, lists, host) && run <= run' && from <= from'
    requires |procsets| < |answers| && |procsets| < |names|
    requires SetCame(answers[|procsets|], procset, tasks, run', from')
    requires SetDone(run', from', procset, names[|procsets|], host)
    ensures Collected(run', from, answers, names, procsets + [procset], lists + [tasks], host)
  {
    var n := |procsets|;
    CollectedGrows(run, from, answers, names, procsets, lists, host, run', from);
    SetCameGrows(answers[n], procset, tasks, run', from', run', from);
    SetDoneGrows(run', from', procset, names[n], host, run', from);
    CollectedLength(run, from, answers, names, procsets, lists, host);
    assert (procsets + [procset])[..n] == procsets && (lists + [tasks])[..n] == lists;
  }

  lemma CollectedLength(run: seq<State>, from: nat, answers: seq<SetAnswer>, names: seq<Port>,
                        procsets: seq<Port>, lists: seq<seq<Port>>, host: Name)
    requires Collected(run, from, answers, names, procsets, lists, host)
    ensures |lists| == |procsets|
  {
  }

  /** The kernel sent the port, for some set. */
  ghost predicate Shown(answers: seq<SetAnswer>, p: Port) {
    exists n :: 0 <= n < |answers| && ShownBy(answers[n], p)
  }

  ghost predicate ShownBy(answer: SetAnswer, p: Port) {
    answer.name == p || answer.priv == p || p in answer.tasks
  }

  /** A task that came had been sent. */
  lemma {:induction false} CollectedSent(run: seq<State>, from: nat, answers: seq<SetAnswer>, names: seq<Port>,
                                         procsets: seq<Port>, lists: seq<seq<Port>>, host: Name, p: Port)
    requires Collected(run, from, answers, names, procsets, lists, host) && PortValid(p) && p in Flatten(lists)
    ensures Shown(answers, p)
    decreases |procsets|
  {
    var n := |procsets| - 1;
    if p in lists[n] {
      var i :| 0 <= i < |lists[n]| && lists[n][i] == p;
      ArrivedSent(answers[n].tasks, lists[n], run, from, i);
      assert ShownBy(answers[n], p);
    } else {
      CollectedSent(run, from, answers, names, procsets[..n], lists[..n], host, p);
    }
  }

  // The types of new records.

  /** The type that a new record has: by the first set that the port belongs to, or `other`. */
  ghost function FirstType(procsets: seq<Port>, names: seq<Port>, p: Port, other: MachType): MachType
    requires |procsets| <= |names|
    decreases |procsets|
  {
    if procsets == [] then other
    else
      var n := |procsets| - 1;
      FirstType(procsets[..n], names, p,
                if p == procsets[n] then ProcessorSet else if p == names[n] then ProcessorSetName else other)
  }

  ghost predicate OfSets(procsets: seq<Port>, names: seq<Port>, p: Port)
    requires |procsets| <= |names|
  {
    exists i :: 0 <= i < |procsets| && (p == procsets[i] || p == names[i])
  }

  lemma {:induction false} FirstTypeOf(procsets: seq<Port>, names: seq<Port>, p: Port, t: MachType, u: MachType)
    requires |procsets| <= |names|
    ensures OfSets(procsets, names, p) ==> FirstType(procsets, names, p, t) == FirstType(procsets, names, p, u)
    ensures !OfSets(procsets, names, p) ==> FirstType(procsets, names, p, t) == t
    decreases |procsets|
  {
    if procsets != [] {
      var n := |procsets| - 1;
      FirstTypeOf(procsets[..n], names, p,
                  if p == procsets[n] then ProcessorSet else if p == names[n] then ProcessorSetName else t,
                  if p == procsets[n] then ProcessorSet else if p == names[n] then ProcessorSetName else u);
      if OfSets(procsets, names, p) && p != procsets[n] && p != names[n] {
        var i :| 0 <= i < |procsets| && (p == procsets[i] || p == names[i]);
        assert p == procsets[..n][i] || p == names[i];
      }
      if OfSets(procsets[..n], names, p) {
        var i :| 0 <= i < n && (p == procsets[..n][i] || p == names[i]);
        assert p == procsets[i] || p == names[i];
      }
      assert !OfSets(procsets, names, p) ==> !(p == procsets[n] || p == names[n]);
    }
  }

  /** The records that `b` has and `a` had not are of the type that `FirstType` says. */
  ghost predicate NewTypes(a: State, b: State, procsets: seq<Port>, names: seq<Port>, other: MachType)
    requires |procsets| <= |names|
  {
    forall p :: p in b.recs && p !in a.recs ==> b.recs[p].ptype == FirstType(procsets, names, p, other)
  }

  /** In the middle of the work: every new record is one of the sets', and all the sets' ports
      have records. */
  ghost predicate SetsTyped(a: State, b: State, procsets: seq<Port>, names: seq<Port>)
    requires |procsets| <= |names|
  {
    && NewTypes(a, b, procsets, names, NoType)
    && (forall p :: p in b.recs && p !in a.recs ==> OfSets(procsets, names, p))
    && (forall p :: PortValid(p) && OfSets(procsets, names, p) ==> p in b.recs)
  }

  /** One set more, whose two ports have become records if they were none. */
  ghost predicate SetTyped(a: State, b: State, procset: Port, name: Port) {
    && b.recs.Keys <= a.recs.Keys + Ones(procset) + Ones(name)
    && Typed(a, b, procset, ProcessorSet) && (PortValid(name) ==> name in b.recs)
    && (name != procset ==> Typed(a, b, name, ProcessorSetName))
  }

  lemma SetTypedGrows(a: State, b: State, c: State, procset: Port, name: Port)
    requires SetTyped(a, b, procset, name) && Grows(b, c, map[]) && b.recs.Keys == c.recs.Keys
    ensures SetTyped(a, c, procset, name)
  {
    TypedGrows(a, b, c, procset, ProcessorSet, map[]);
    if name != procset {
      TypedGrows(a, b, c, name, ProcessorSetName, map[]);
    }
  }

  lemma SetTypedSince(a: State, b: State, c: State, procset: Port, name: Port)
    requires Grows(a, b, map[]) && a.recs.Keys == b.recs.Keys && SetTyped(b, c, procset, name)
    ensures SetTyped(a, c, procset, name)
  {
    forall p | p in a.recs ensures a.recs[p].ptype == b.recs[p].ptype {
      assert Inherits(a.recs[p], b.recs[p], map[]);
    }
  }

  lemma OfSetsSnoc(procsets: seq<Port>, names: seq<Port>, procset: Port, p: Port)
    requires |procsets| < |names|
    ensures OfSets(procsets + [procset], names, p) <==>
            OfSets(procsets, names, p) || p == procset || p == names[|procsets|]
  {
    var n := |procsets|;
    if OfSets(procsets, names, p) {
      var i :| 0 <= i < n && (p == procsets[i] || p == names[i]);
      assert p == (procsets + [procset])[i] || p == names[i];
    }
    assert (procsets + [procset])[n] == procset;
  }

  lemma SetsTypedNext(a: State, b: State, c: State, procsets: seq<Port>, names: seq<Port>, procset: Port)
    requires |procsets| < |names| && SetsTyped(a, b, procsets, names)
    requires Grows(b, c, map[]) && SetTyped(b, c, procset, names[|procsets|])
    ensures SetsTyped(a, c, procsets + [procset], names)
  {
    var n, procsets' := |procsets|, procsets + [procset];
    assert procsets'[..n] == procsets;
    forall p {
      OfSetsSnoc(procsets, names, procset, p);
    }
    forall p | p in b.recs ensures p in c.recs && c.recs[p].ptype == b.recs[p].ptype {
      assert Inherits(b.recs[p], c.recs[p], map[]);
    }
    forall p | p in c.recs && p !in a.recs
      ensures c.recs[p].ptype == FirstType(procsets', names, p, NoType) && OfSets(procsets', names, p)
    {
      FirstTypeOf(procsets, names, p, NoType,
                  if p == procset then ProcessorSet else if p == names[n] then ProcessorSetName else NoType);
      FirstTypeOf(procsets, names, p,
                  if p == procset then ProcessorSet else if p == names[n] then ProcessorSetName else NoType, NoType);
    }
  }

  lemma NewTypesAfter(a: State, b: State, c: State, procsets: seq<Port>, names: seq<Port>, tags: map<MachType, Name>)
    requires |procsets| <= |names| && SetsTyped(a, b, procsets, names)
    requires Grows(b, c, tags) && AllNewOf(b, c, Task)
    requires forall p :: p in c.recs ==> PortValid(p)
    ensures NewTypes(a, c, procsets, names, Task)
  {
    forall p | p in c.recs && p !in a.recs ensures c.recs[p].ptype == FirstType(procsets, names, p, Task) {
      FirstTypeOf(procsets, names, p, NoType, Task);
      FirstTypeOf(procsets, names, p, Task, NoType);
      assert p in b.recs ==> Inherits(b.recs[p], c.recs[p], tags);
    }
  }

  /** Two assoc_create on one name with others in between that agree with the tags. */
  lemma TaggedTwice(a: State, b: State, p: Port, name: Name, t1: MachType, n1: Name, t2: MachType, n2: Name,
                    tags: map<MachType, Name>)
    requires Settled(a, p, name, Tag(t1, n1)) && Grows(a, b, tags)
    requires t1 in tags && tags[t1] == n1 && t2 in tags && tags[t2] == n2
    requires Settled(b, p, name, Tag(t2, n2))
    ensures Settled(b, p, name, Tags(t1, n1, t2, n2))
  {
    GrownFewer(a, b, tags, Tags(t1, n1, t2, n2));
    SettledTwice(a, b, p, name, t1, n1, t2, n2);
  }

  /** The first two of the four associations: the host, for both names. */
  method RelateToHost(m: Server, ghost procset: Port, mprocset: Name, ghost name: Port, mprocsetname: Name,
                      host: Name, ghost tags: map<MachType, Name>)
    requires m.Valid() && host < m.next && HostPriv in tags && tags[HostPriv] == host
    requires Settled(Last(m.run), procset, mprocset, map[]) && Settled(Last(m.run), name, mprocsetname, map[])
    modifies m`run, m.tables.recs.Values`assocs
    ensures m.Valid() && Grows(old(Last(m.run)), Last(m.run), tags)
    ensures Touched(old(Last(m.run)), Last(m.run), SetMarks([procset], [name]))
    ensures old(m.run) <= m.run && Last(m.run).recs.Keys == old(Last(m.run)).recs.Keys
    ensures Settled(Last(m.run), procset, mprocset, Tag(HostPriv, host))
    ensures Settled(Last(m.run), name, mprocsetname, Tag(HostPriv, host))
  {
    ghost var a := Last(m.run);
    TagBeside(m, procset, mprocset, HostPriv, host, name, mprocsetname, map[], tags);
    ghost var b := Last(m.run);
    TagBeside(m, name, mprocsetname, HostPriv, host, procset, mprocset, Tag(HostPriv, host), tags);
    GrownTrans(a, b, Last(m.run), tags);
    TouchedOn(a, b, Last(m.run), Marks([procset], Tag(HostPriv, host)), Marks([name], Tag(HostPriv, host)),
              SetMarks([procset], [name]));
  }

  /** The other two: each name gets the other. */
  method RelateToEachOther(m: Server, ghost procset: Port, mprocset: Name, ghost name: Port, mprocsetname: Name,
                           ghost tags: map<MachType, Name>)
    requires m.Valid() && mprocset < m.next && mprocsetname < m.next
    requires ProcessorSet in tags && tags[ProcessorSet] == mprocset
    requires ProcessorSetName in tags && tags[ProcessorSetName] == mprocsetname
    requires Settled(Last(m.run), procset, mprocset, map[]) && Settled(Last(m.run), name, mprocsetname, map[])
    modifies m`run, m.tables.recs.Values`assocs
    ensures m.Valid() && Grows(old(Last(m.run)), Last(m.run), tags)
    ensures Touched(old(Last(m.run)), Last(m.run), SetMarks([procset], [name]))
    ensures old(m.run) <= m.run && Last(m.run).recs.Keys == old(Last(m.run)).recs.Keys
    ensures Settled(Last(m.run), procset, mprocset, Tag(ProcessorSetName, mprocsetname))
    ensures Settled(Last(m.run), name, mprocsetname, Tag(ProcessorSet, mprocset))
  {
    ghost var named: map<MachType, Name> := Tag(ProcessorSetName, mprocsetname);
    ghost var placed: map<MachType, Name> := Tag(ProcessorSet, mprocset);
    SetMarksHave(procset, mprocset, name, mprocsetname);
    ghost var a := Last(m.run);
    TagBeside(m, procset, mprocset, ProcessorSetName, mprocsetname, name, mprocsetname, map[], tags);
    ghost var b := Last(m.run);
    TagBeside(m, name, mprocsetname, ProcessorSet, mprocset, procset, mprocset, named, tags);
    GrownTrans(a, b, Last(m.run), tags);
    TouchedOn(a, b, Last(m.run), Marks([procset], named), Marks([name], placed), SetMarks([procset], [name]));
  }

  /** The four associations that do_host_tasks makes for a processor set. */
  method RelateSet(m: Server, ghost procset: Port, mprocset: Name, ghost name: Port, mprocsetname: Name, host: Name)
    requires m.Valid() && mprocset < m.next && mprocsetname < m.next && host < m.next
    requires Settled(Last(m.run), procset, mprocset, map[]) && Settled(Last(m.run), name, mprocsetname, map[])
    modifies m`run, m.tables.recs.Values`assocs
    ensures m.Valid() && old(m.run) <= m.run && Last(m.run).recs.Keys == old(Last(m.run)).recs.Keys
    ensures Undisturbed(old(Last(m.run)), Last(m.run), SetMarks([procset], [name]))
    ensures SetSettled(Last(m.run), procset, mprocset, name, mprocsetname, host)
  {
    ghost var tags := SetTags(host, mprocset, mprocsetname);
    ghost var a := Last(m.run);
    RelateToHost(m, procset, mprocset, name, mprocsetname, host, tags);
    ghost var b := Last(m.run);
    RelateToEachOther(m, procset, mprocset, name, mprocsetname, tags);
    TaggedTwice(b, Last(m.run), procset, mprocset, HostPriv, host, ProcessorSetName, mprocsetname, tags);
    TaggedTwice(b, Last(m.run), name, mprocsetname, HostPriv, host, ProcessorSet, mprocset, tags);
    GrownTrans(a, b, Last(m.run), tags);
    TouchedTrans(a, b, Last(m.run), SetMarks([procset], [name]));
    GrownFewer(a, Last(m.run), tags, map[]);
  }

  /** The naming half of a turn of the first loop of do_host_tasks. */
  method NameSet(m: Server, procset: Port, name: Port, host: Name)
    returns (quit: bool, mprocset: Name, mprocsetname: Name)
    requires m.Valid() && RefOf(procset) + RefOf(name) <= m.owned && host < m.next
    modifies m.Repr
    ensures quit ==> old(m.monitor) == Some(procset) || old(m.monitor) == Some(name)
    ensures old(m.run) <= m.run
    ensures !quit ==> m.Valid() && m.OnlyNew() && m.owned == old(m.owned) - RefOf(procset) - RefOf(name)
    ensures !quit ==> Undisturbed(old(Last(m.run)), Last(m.run), SetMarks([procset], [name]))
    ensures !quit ==> SetSettled(Last(m.run), procset, mprocset, name, mprocsetname, host)
    ensures !quit ==> SetTyped(old(Last(m.run)), Last(m.run), procset, name)
  {
    quit, mprocset, mprocsetname := NameBoth(m, procset, ProcessorSet, name, ProcessorSetName, map[]);
    if !quit {
      ghost var a := Last(m.run);
      m.GrownBounds(old(Last(m.run)), map[]);
      RelateSet(m, procset, mprocset, name, mprocsetname, host);
      GrownTrans(old(Last(m.run)), a, Last(m.run), map[]);
      TouchedOn(old(Last(m.run)), a, Last(m.run), {}, SetMarks([procset], [name]), SetMarks([procset], [name]));
      SetTypedGrows(old(Last(m.run)), a, Last(m.run), procset, name);
    }
  }

  lemma SetRefs(base: multiset<Port>, all: multiset<Port>, name: Port, procset: Port, tasks: seq<Port>)
    requires RefOf(name) <= base && all == base + RefOf(procset) + Refs(tasks)
    ensures RefOf(procset) + RefOf(name) <= all
    ensures all - RefOf(procset) - RefOf(name) == base - RefOf(name) + Refs(tasks)
  {
  }

  /** One turn of the first loop of do_host_tasks: the set's ports go, its tasks come. */
  method CollectSet(m: Server, answer: SetAnswer, name: Port, host: Name)
    returns (quit: bool, procset: Port, tasks: seq<Port>)
    requires m.Valid() && RefOf(name) <= m.owned && host < m.next
    modifies m.Repr
    ensures quit ==> old(m.monitor) == Some(answer.priv) || old(m.monitor) == Some(name)
    ensures old(m.run) <= m.run
    ensures !quit ==> m.Valid() && m.OnlyNew() && m.owned == old(m.owned) - RefOf(name) + Refs(tasks)
    ensures !quit ==> Undisturbed(old(Last(m.run)), Last(m.run), SetMarks([procset], [name]))
    ensures !quit ==> SetCame(answer, procset, tasks, m.run, |old(m.run)|)
    ensures !quit ==> SetDone(m.run, |old(m.run)|, procset, name, host)
    ensures !quit ==> SetTyped(old(Last(m.run)), Last(m.run), procset, name)
  {
    ghost var base := m.owned;
    procset, tasks := ReceiveSet(m, answer);
    ghost var a, all := m.run, m.owned;
    QuietIsUndisturbed(old(Last(m.run)), Last(a));
    m.GrownBounds(old(Last(m.run)), map[]);
    SetRefs(base, all, name, procset, tasks);
    MonitorCame(m, answer.priv, procset, |old(m.run)|);
    var mprocset, mprocsetname;
    quit, mprocset, mprocsetname := NameSet(m, procset, name, host);
    SetCameGrows(answer, procset, tasks, a, |old(m.run)|, m.run, |old(m.run)|);
    if !quit {
      QuietThen(old(Last(m.run)), Last(a), Last(m.run), SetMarks([procset], [name]));
      SetDoneNow(m.run, |old(m.run)|, procset, mprocset, name, mprocsetname, host);
      SetTypedSince(old(Last(m.run)), Last(a), Last(m.run), procset, name);
    }
  }

  lemma MonitorCame(m: Server, p: Port, q: Port, from: nat)
    requires m.Valid() && Came(p, q, m.run, from)
    ensures m.monitor == Some(q) ==> p == q
  {
    m.MonitorIsPort();
  }

  lemma ListRefsSnoc(lists: seq<seq<Port>>, tasks: seq<Port>)
    ensures ListRefs(lists + [tasks]) == ListRefs(lists) + Refs(tasks)
  {
    assert (lists + [tasks])[..|lists|] == lists;
  }

  lemma CollectRefs(rest: multiset<Port>, names: seq<Port>, i: nat, lists: seq<seq<Port>>, tasks: seq<Port>)
    requires i < |names|
    ensures var all := rest + ListRefs(lists) + Refs(names[i..]);
            && RefOf(names[i]) <= all
            && all - RefOf(names[i]) + Refs(tasks) == rest + ListRefs(lists + [tasks]) + Refs(names[i + 1..])
  {
    RefsFirst(names, i);
    ListRefsSnoc(lists, tasks);
  }

  /** Where the first loop stands after the sets in `procsets`. */
  ghost predicate Halfway(start: State, run: seq<State>, from: nat, answers: seq<SetAnswer>, names: seq<Port>,
                          procsets: seq<Port>, lists: seq<seq<Port>>, host: Name) {
    && |names| == |answers| && |procsets| <= |names|
    && Collected(run, from, answers, names, procsets, lists, host)
    && SetsTyped(start, Last(run), procsets, names)
    && Undisturbed(start, Last(run), SetMarks(procsets, names))
  }

  lemma HalfwayNext(start: State, run: seq<State>, from: nat, answers: seq<SetAnswer>, names: seq<Port>,
                    procsets: seq<Port>, lists: seq<seq<Port>>, host: Name,
                    run': seq<State>, procset: Port, tasks: seq<Port>)
    requires Halfway(start, run, from, answers, names, procsets, lists, host) && |procsets| < |names|
    requires run <= run' && from <= |run|
    requires Undisturbed(Last(run), Last(run'), SetMarks([procset], [names[|procsets|]]))
    requires SetCame(answers[|procsets|], procset, tasks, run', |run|)
    requires SetDone(run', |run|, procset, names[|procsets|], host)
    requires SetTyped(Last(run), Last(run'), procset, names[|procsets|])
    ensures Halfway(start, run', from, answers, names, procsets + [procset], lists + [tasks], host)
  {
    CollectedSnoc(run, from, answers, names, procsets, lists, host, run', |run|, procset, tasks);
    SetsTypedNext(start, Last(run), Last(run'), procsets, names, procset);
    SetMarksGrow(procsets, names, procset, |procsets|);
    GrownTrans(start, Last(run), Last(run'), map[]);
    TouchedOn(start, Last(run), Last(run'), SetMarks(procsets, names),
              SetMarks([procset], [names[|procsets|]]), SetMarks(procsets + [procset], names));
  }

  method CollectNext(m: Server, answers: seq<SetAnswer>, names: seq<Port>, i: nat, lists: seq<seq<Port>>,
                     host: Name, procsets: seq<Port>, ghost start: State, ghost from: nat,
                     ghost rest: multiset<Port>, ghost held: multiset<Port>)
    returns (quit: bool, lists': seq<seq<Port>>, procsets': seq<Port>, ghost held': multiset<Port>)
    requires m.Valid() && i < |names| && host < m.next && i == |procsets| && from <= |m.run|
    requires Halfway(start, m.run, from, answers, names, procsets, lists, host)
    requires m.owned == held + Refs(names[i..]) && held == rest + ListRefs(lists)
    requires Grows(start, Last(m.run), map[])
    modifies m.Repr
    ensures quit ==> start.monitor == Some(answers[i].priv) || start.monitor == Some(names[i])
    ensures old(m.run) <= m.run
    ensures !quit ==> m.Valid() && m.OnlyNew() && host < m.next && |procsets'| == i + 1
    ensures !quit ==> Halfway(start, m.run, from, answers, names, procsets', lists', host)
    ensures !quit ==> m.owned == held' + Refs(names[i + 1..])
    ensures !quit ==> held' == rest + ListRefs(lists')
    ensures !quit ==> Grows(start, Last(m.run), map[])
  {
    CollectRefs(rest, names, i, lists, []);
    m.GrownBounds(start, map[]);
    ghost var a := m.run;
    var procset, tasks;
    quit, procset, tasks := CollectSet(m, answers[i], names[i], host);
    lists', procsets', held' := lists + [tasks], procsets + [procset], rest + ListRefs(lists + [tasks]);
    if !quit {
      m.GrownBounds(Last(a), map[]);
      HalfwayNext(start, a, from, answers, names, procsets, lists, host, m.run, procset, tasks);
      CollectRefs(rest, names, i, lists, tasks);
      GrownTrans(start, Last(a), Last(m.run), map[]);
    }
  }

  /** The first loop of do_host_tasks: every processor set is named and its tasks collected. */
  method CollectAll(m: Server, answers: seq<SetAnswer>, names: seq<Port>, host: Name, ghost rest: multiset<Port>)
    returns (quit: bool, lists: seq<seq<Port>>, procsets: seq<Port>)
    requires m.Valid() && |names| == |answers| && host < m.next && m.owned == rest + Refs(names)
    modifies m.Repr
    ensures quit ==> old(m.monitor).Some? && OneOf(answers, names, old(m.monitor).value)
    ensures old(m.run) <= m.run
    ensures !quit ==> m.Valid() && m.OnlyNew() && host < m.next && |procsets| == |answers|
    ensures !quit ==> Halfway(old(Last(m.run)), m.run, |old(m.run)|, answers, names, procsets, lists, host)
    ensures !quit ==> m.owned == rest + ListRefs(lists)
    ensures !quit ==> Grows(old(Last(m.run)), Last(m.run), map[])
  {
    ghost var start, from := Last(m.run), |m.run|;
    ghost var held := rest;
    assert names[0..] == names;
    assert start.monitor == m.monitor;
    lists, procsets, quit := [], [], false;
    for i := 0 to |names|
      invariant m.Valid() && m.OnlyNew() && host < m.next && old(m.run) <= m.run
      invariant i == |procsets| && Halfway(start, m.run, from, answers, names, procsets, lists, host)
      invariant m.owned == held + Refs(names[i..])
      invariant held == rest + ListRefs(lists)
      invariant Grows(start, Last(m.run), map[])
    {
      quit, lists, procsets, held :=
        CollectNext(m, answers, names, i, lists, host, procsets, start, from, rest, held);
      if quit {
        return;
      }
    }
    assert names[|names|..] == [];
    quit := false;
  }

  /** The port is a set's, or came as a set's name. */
  ghost predicate OneOf(answers: seq<SetAnswer>, names: seq<Port>, p: Port)
    requires |names| == |answers|
  {
    exists n :: 0 <= n < |answers| && (answers[n].priv == p || names[n] == p)
  }

  lemma {:induction false} InFlatten(lists: seq<seq<Port>>, i: nat, p: Port)
    requires i < |lists| && p in lists[i]
    ensures p in Flatten(lists)
  {
    if i < |lists| - 1 {
      InFlatten(lists[..|lists| - 1], i, p);
    }
  }

  lemma FlattenMarks(lists: seq<seq<Port>>, i: nat, tags: map<MachType, Name>)
    requires i < |lists|
    ensures Marks(lists[i], tags) <= Marks(Flatten(lists), tags)
  {
    forall p | p in lists[i] ensures p in Flatten(lists) {
      InFlatten(lists, i, p);
    }
  }

  lemma ListRefsLast(rest: multiset<Port>, lists: seq<seq<Port>>, i: nat)
    requires i < |lists|
    ensures var all := rest + (ListRefs(lists) - ListRefs(lists[..i]));
            && Refs(lists[i]) <= all
            && all - Refs(lists[i]) == rest + (ListRefs(lists) - ListRefs(lists[..i + 1]))
  {
    ListSnoc(lists, i);
    ListRefsMonotone(lists, i + 1);
  }

  /** One turn of the outer of the two loops that name the tasks; NameAll is the inner one. */
  method NameListNext(m: Server, lists: seq<seq<Port>>, i: nat, mtasks: seq<Name>, host: Name,
                      ghost start: State, ghost rest: multiset<Port>)
    returns (quit: bool, mtasks': seq<Name>)
    requires m.Valid() && i < |lists| && host < m.next && 0 < m.next
    requires m.owned == rest + (ListRefs(lists) - ListRefs(lists[..i]))
    requires Grows(start, Last(m.run), Tags(HostPriv, host, NoType, 0))
    requires AllSettled(Last(m.run), Flatten(lists[..i]), mtasks, Tags(HostPriv, host, NoType, 0))
    requires AllNewOf(start, Last(m.run), Task) && Touched(start, Last(m.run), Marks(Flatten(lists), Tags(HostPriv, host, NoType, 0)))
    modifies m.Repr
    ensures quit ==> start.monitor.Some? && start.monitor.value in lists[i]
    ensures old(m.run) <= m.run
    ensures !quit ==> m.Valid() && m.OnlyNew() && host < m.next && 0 < m.next
    ensures !quit ==> m.owned == rest + (ListRefs(lists) - ListRefs(lists[..i + 1]))
    ensures !quit ==> Grows(start, Last(m.run), Tags(HostPriv, host, NoType, 0))
    ensures !quit ==> AllSettled(Last(m.run), Flatten(lists[..i + 1]), mtasks', Tags(HostPriv, host, NoType, 0))
    ensures !quit ==> AllNewOf(start, Last(m.run), Task)
    ensures !quit ==> Touched(start, Last(m.run), Marks(Flatten(lists), Tags(HostPriv, host, NoType, 0)))
  {
    ListRefsLast(rest, lists, i);
    m.GrownBounds(start, Tags(HostPriv, host, NoType, 0));
    ghost var a := Last(m.run);
    var names;
    quit, names := NameAll(m, lists[i], Task, HostPriv, host, NoType, 0);
    mtasks' := mtasks + names;
    if !quit {
      m.GrownBounds(a, Tags(HostPriv, host, NoType, 0));
      ListSnoc(lists, i);
      AllSettledGrows(a, Last(m.run), Flatten(lists[..i]), mtasks, Tags(HostPriv, host, NoType, 0));
      AllSettledAppend(Last(m.run), Flatten(lists[..i]), mtasks, lists[i], names, Tags(HostPriv, host, NoType, 0));
      GrownTrans(start, a, Last(m.run), Tags(HostPriv, host, NoType, 0));
      NewcomersTrans(start, a, Last(m.run), Task, Tags(HostPriv, host, NoType, 0));
      FlattenMarks(lists, i, Tags(HostPriv, host, NoType, 0));
      TouchedOn(start, a, Last(m.run), Marks(Flatten(lists), Tags(HostPriv, host, NoType, 0)),
                Marks(lists[i], Tags(HostPriv, host, NoType, 0)), Marks(Flatten(lists), Tags(HostPriv, host, NoType, 0)));
    }
  }

  /** The nested loops of do_host_tasks, over the tasks of every set in turn. */
  method NameLists(m: Server, lists: seq<seq<Port>>, host: Name) returns (quit: bool, mtasks: seq<Name>)
    requires m.Valid() && host < m.next && 0 < m.next && ListRefs(lists) <= m.owned
    modifies m.Repr
    ensures quit ==> old(m.monitor).Some? && old(m.monitor).value in Flatten(lists)
    ensures old(m.run) <= m.run
    ensures !quit ==> m.Valid() && m.OnlyNew() && m.owned == old(m.owned) - ListRefs(lists)
    ensures !quit ==> Grows(old(Last(m.run)), Last(m.run), Tags(HostPriv, host, NoType, 0))
    ensures !quit ==> AllSettled(Last(m.run), Flatten(lists), mtasks, Tags(HostPriv, host, NoType, 0))
    ensures !quit ==> AllNewOf(old(Last(m.run)), Last(m.run), Task)
    ensures !quit ==> Touched(old(Last(m.run)), Last(m.run), Marks(Flatten(lists), Tags(HostPriv, host, NoType, 0)))
  {
    ghost var start, rest := Last(m.run), m.owned - ListRefs(lists);
    assert start.monitor == m.monitor;
    mtasks, quit := [], false;
    for i := 0 to |lists|
      invariant m.Valid() && m.OnlyNew() && host < m.next && 0 < m.next && old(m.run) <= m.run
      invariant m.owned == rest + (ListRefs(lists) - ListRefs(lists[..i]))
      invariant Grows(start, Last(m.run), Tags(HostPriv, host, NoType, 0))
      invariant AllSettled(Last(m.run), Flatten(lists[..i]), mtasks, Tags(HostPriv, host, NoType, 0))
      invariant AllNewOf(start, Last(m.run), Task) && Touched(start, Last(m.run), Marks(Flatten(lists), Tags(HostPriv, host, NoType, 0)))
    {
      quit, mtasks := NameListNext(m, lists, i, mtasks, host, start, rest);
      if quit {
        InFlatten(lists, i, start.monitor.value);
        return;
      }
    }
    assert lists[..|lists|] == lists;
    quit := false;
  }

  function SetNames(answers: seq<SetAnswer>): (names: seq<Port>)
    ensures |names| == |answers|
  {
    if answers == [] then [] else [answers[0].name] + SetNames(answers[1..])
  }

  lemma {:induction false} SetNamesAt(answers: seq<SetAnswer>, i: nat)
    requires i < |answers|
    ensures SetNames(answers)[i] == answers[i].name
  {
    if i > 0 {
      SetNamesAt(answers[1..], i - 1);
    }
  }

  /** All that came of the kernel's answer. */
  datatype Sets = Sets(names: seq<Port>, procsets: seq<Port>, lists: seq<seq<Port>>)

  /** Every set's name port and privileged port came or had died; a set whose port came has its
      tasks, those that had not died; and every set was named and associated. */
  ghost predicate AllCame(run: seq<State>, from: nat, answers: seq<SetAnswer>, sets: Sets, host: Name) {
    && |sets.procsets| == |answers| && Arrived(SetNames(answers), sets.names, run, from)
    && Collected(run, from, answers, sets.names, sets.procsets, sets.lists, host)
  }

  /** The associations that do_host_tasks makes: for the sets' ports and for the tasks. */
  ghost function AllMarks(sets: Sets, host: Name): set<Mark> {
    SetMarks(sets.procsets, sets.names) + Marks(Flatten(sets.lists), Tags(HostPriv, host, NoType, 0))
  }

  lemma AllCameGrows(run: seq<State>, from: nat, answers: seq<SetAnswer>, sets: Sets, host: Name,
                     run': seq<State>, from': nat)
    requires AllCame(run, from, answers, sets, host) && run <= run' && from' <= from
    ensures AllCame(run', from', answers, sets, host)
  {
    ArrivedGrows(SetNames(answers), sets.names, run, from, run', from');
    CollectedGrows(run, from, answers, sets.names, sets.procsets, sets.lists, host, run', from');
  }

  lemma OneOfShown(answers: seq<SetAnswer>, names: seq<Port>, run: seq<State>, from: nat, p: Port)
    requires Arrived(SetNames(answers), names, run, from) && |names| == |answers|
    requires PortValid(p) && OneOf(answers, names, p)
    ensures Shown(answers, p)
  {
    var n :| 0 <= n < |answers| && (answers[n].priv == p || names[n] == p);
    if names[n] == p {
      ArrivedSent(SetNames(answers), names, run, from, n);
      SetNamesAt(answers, n);
    }
    assert ShownBy(answers[n], p);
  }

  /** do_host_tasks up to the point where the processor sets are done with. */
  method FetchSets(m: Server, auth: Port, host: Name, answer: Answer<seq<SetAnswer>>)
    returns (quit: bool, st: Status, sets: Sets)
    requires m.Valid()
    modifies m.Repr
    ensures st == Reply(Decision(old(Last(m.run)), host, auth, OpInfo), InvalidHostPriv, answer)
    ensures quit ==> st == KernSuccess && old(m.monitor).Some? && Shown(answer.value, old(m.monitor).value)
    ensures old(m.run) <= m.run
    ensures !quit ==> m.Valid() && m.OnlyNew() && m.monitor == old(m.monitor)
    ensures !quit ==> m.owned == if st == KernSuccess then old(m.owned) + ListRefs(sets.lists) else old(m.owned)
    ensures !quit && st == KernSuccess ==>
              && host < m.next && 0 < m.next && answer.Ok?
              && AllCame(m.run, |old(m.run)|, answer.value, sets, host) && |sets.names| == |answer.value|
              && SetsTyped(old(Last(m.run)), Last(m.run), sets.procsets, sets.names)
              && Undisturbed(old(Last(m.run)), Last(m.run), SetMarks(sets.procsets, sets.names))
    ensures !quit && st != KernSuccess ==> Quiet(old(Last(m.run)), Last(m.run))
  {
    sets, quit := Sets([], [], []), false;
    var res := m.Acquire(host, auth, OpInfo);
    st := Reply(VerdictOf(res), InvalidHostPriv, answer);
    if res.Found? {
      quit, sets := TakeSets(m, res.port, host, answer, old(m.owned), old(Last(m.run)), |old(m.run)|);
    }
  }

  lemma SetsTypedSince(a: State, b: State, c: State, procsets: seq<Port>, names: seq<Port>)
    requires |procsets| <= |names| && a.recs.Keys == b.recs.Keys && SetsTyped(b, c, procsets, names)
    ensures SetsTyped(a, c, procsets, names)
  {
  }

  /** The sets are worked through, if the kernel gave any, and the host's reference goes back. */
  method TakeSets(m: Server, port: Port, host: Name, answer: Answer<seq<SetAnswer>>, ghost base: multiset<Port>,
                  ghost start: State, ghost from: nat)
    returns (quit: bool, sets: Sets)
    requires m.Valid() && m.IsNameOf(port, host) && m.owned == base + multiset{port}
    requires from <= |m.run| && Quiet(start, Last(m.run))
    modifies m.Repr
    ensures quit ==> answer.Ok? && old(m.monitor).Some? && Shown(answer.value, old(m.monitor).value)
    ensures old(m.run) <= m.run
    ensures !quit ==> m.Valid() && m.OnlyNew() && m.monitor == old(m.monitor)
    ensures !quit ==> m.owned == if answer.Ok? then base + ListRefs(sets.lists) else base
    ensures !quit && answer.Ok? ==>
              && host < m.next && 0 < m.next
              && AllCame(m.run, from, answer.value, sets, host) && |sets.names| == |answer.value|
              && SetsTyped(start, Last(m.run), sets.procsets, sets.names)
              && Undisturbed(start, Last(m.run), SetMarks(sets.procsets, sets.names))
    ensures !quit && answer.Err? ==> Quiet(start, Last(m.run))
  {
    sets, quit := Sets([], [], []), false;
    PlusMinus(base, multiset{port});
    if answer.Err? {
      ghost var a := Last(m.run);
      m.ReturnIt(port);
      QuietTrans(start, a, Last(m.run));
    } else {
      m.NamesIssued();
      quit, sets := CollectSets(m, port, host, answer.value, start, from);
    }
  }

  lemma SetsRefs(base: multiset<Port>, port: Port, tasks: multiset<Port>)
    requires base[port] > 0
    ensures (base + tasks)[port] > 0 && base + tasks - multiset{port} == base - multiset{port} + tasks
  {
  }

  /** The processor sets arrive and are worked through, and the host's reference goes back. */
  method CollectSets(m: Server, port: Port, host: Name, answers: seq<SetAnswer>, ghost start: State, ghost from: nat)
    returns (quit: bool, sets: Sets)
    requires m.Valid() && port in m.tables.recs && host < m.next && m.owned[port] > 0
    requires from <= |m.run| && Quiet(start, Last(m.run))
    modifies m.Repr
    ensures quit ==> old(m.monitor).Some? && Shown(answers, old(m.monitor).value)
    ensures old(m.run) <= m.run
    ensures !quit ==> m.Valid() && m.OnlyNew() && host < m.next
    ensures !quit ==> m.owned == old(m.owned) - multiset{port} + ListRefs(sets.lists) && m.monitor == old(m.monitor)
    ensures !quit ==> AllCame(m.run, from, answers, sets, host) && |sets.names| == |answers|
    ensures !quit ==> SetsTyped(start, Last(m.run), sets.procsets, sets.names)
    ensures !quit ==> Undisturbed(start, Last(m.run), SetMarks(sets.procsets, sets.names))
  {
    var names := ReceivePorts(m, SetNames(answers));
    ArrivedLength(SetNames(answers), names, m.run, |old(m.run)|);
    ghost var a := m.run;
    m.Quietly();
    QuietTrans(start, old(Last(m.run)), Last(a));
    m.MonitorIsPort();
    var lists, procsets;
    quit, lists, procsets := WorkThrough(m, port, host, answers, names, old(m.owned));
    sets := Sets(names, procsets, lists);
    if quit {
      OneOfShown(answers, names, a, |old(m.run)|, old(m.monitor).value);
    } else {
      ArrivedGrows(SetNames(answers), names, a, |old(m.run)|, m.run, from);
      CollectedGrows(m.run, |a|, answers, names, procsets, lists, host, m.run, from);
      SetsTypedSince(start, Last(a), Last(m.run), procsets, names);
      QuietThen(start, Last(a), Last(m.run), SetMarks(procsets, names));
    }
  }

  method WorkThrough(m: Server, port: Port, host: Name, answers: seq<SetAnswer>, names: seq<Port>,
                     ghost base: multiset<Port>)
    returns (quit: bool, lists: seq<seq<Port>>, procsets: seq<Port>)
    requires m.Valid() && port in m.tables.recs && host < m.next && base[port] > 0
    requires m.owned == base + Refs(names) && |names| == |answers|
    modifies m.Repr
    ensures quit ==> old(m.monitor).Some? && OneOf(answers, names, old(m.monitor).value)
    ensures old(m.run) <= m.run
    ensures !quit ==> m.Valid() && m.OnlyNew() && host < m.next
    ensures !quit ==> m.owned == base - multiset{port} + ListRefs(lists) && m.monitor == old(m.monitor)
    ensures !quit ==> |procsets| == |answers|
    ensures !quit ==> Halfway(old(Last(m.run)), m.run, |old(m.run)|, answers, names, procsets, lists, host)
  {
    ghost var a := Last(m.run);
    m.GrownBounds(a, map[]);
    quit, lists, procsets := CollectAll(m, answers, names, host, base);
    if !quit {
      ghost var b := m.run;
      SetsRefs(base, port, ListRefs(lists));
      ConsumeLater(m, port, a);
      HalfwayStays(a, b, |old(m.run)|, answers, names, procsets, lists, host, m.run);
    }
  }

  lemma HalfwayStays(start: State, run: seq<State>, from: nat, answers: seq<SetAnswer>, names: seq<Port>,
                     procsets: seq<Port>, lists: seq<seq<Port>>, host: Name, run': seq<State>)
    requires Halfway(start, run, from, answers, names, procsets, lists, host) && run <= run'
    requires Quiet(Last(run), Last(run'))
    ensures Halfway(start, run', from, answers, names, procsets, lists, host)
  {
    CollectedGrows(run, from, answers, names, procsets, lists, host, run', from);
    ThenQuiet(start, Last(run), Last(run'), SetMarks(procsets, names));
    forall p | p in Last(run).recs ensures Last(run').recs[p].ptype == Last(run).recs[p].ptype {
      assert SameRecord(Last(run).recs[p], Last(run').recs[p]);
    }
  }

  /** port_consume of a port that had a record in an earlier state of a growing server. */
  method ConsumeLater(m: Server, port: Port, ghost a: State)
    requires m.Valid() && Grows(a, Last(m.run), map[]) && port in a.recs && m.owned[port] > 0
    modifies m`space, m`run, m`owned, m.tables.recs.Values`urefs
    ensures m.Valid() && m.owned == old(m.owned) - multiset{port} && m.monitor == a.monitor && old(m.run) <= m.run
    ensures Quiet(old(Last(m.run)), Last(m.run))
  {
    m.GrownBounds(a, map[]);
    m.ReturnIt(port);
  }

  /** do_host_tasks: the names of all the tasks of all the processor sets, set by set and in
      order, each associated with the host. The server quits only if the kernel showed it the
      port that it watches itself. */
  method DoHostTasks(m: Server, auth: Port, host: Name, answer: Answer<seq<SetAnswer>>)
    returns (quit: bool, st: Status, sets: Sets, mtasks: seq<Name>)
    requires m.Valid() && RefOf(auth) <= m.owned
    modifies m.Repr
    ensures st == Reply(Decision(old(Last(m.run)), host, auth, OpInfo), InvalidHostPriv, answer)
    ensures quit ==> st == KernSuccess && old(m.monitor).Some? && Shown(answer.value, old(m.monitor).value)
    ensures old(m.run) <= m.run && (!quit ==> m.Valid() && m.OnlyNew())
    ensures !quit && st == KernSuccess ==> Undisturbed(old(Last(m.run)), Last(m.run), AllMarks(sets, host))
    ensures !quit && st != KernSuccess ==> Quiet(old(Last(m.run)), Last(m.run))
    ensures !quit ==> m.owned == if st == KernSuccess then old(m.owned) - RefOf(auth) else old(m.owned)
    ensures !quit && st == KernSuccess ==> AllCame(m.run, |old(m.run)|, answer.value, sets, host)
    ensures !quit && st == KernSuccess ==>
              AllSettled(Last(m.run), Flatten(sets.lists), mtasks, Tags(HostPriv, host, NoType, 0))
    ensures !quit && st == KernSuccess ==>
              |sets.procsets| <= |sets.names|
              && NewTypes(old(Last(m.run)), Last(m.run), sets.procsets, sets.names, Task)
    ensures (forall p :: !HasName(old(Last(m.run)), p, host)) ==> st == KernFail(InvalidHostPriv)
    ensures forall p :: HasName(old(Last(m.run)), p, host) ==>
              st == if !Authorized(old(Last(m.run)), p, auth, OpInfo) then KernFail(ProtectionFailure)
                    else if answer.Err? then KernFail(Remote(answer.code)) else KernSuccess
  {
    m.Healthy();
    ReplyIs(Last(m.run), host, auth, OpInfo, InvalidHostPriv, answer);
    mtasks := [];
    quit, st, sets := FetchSets(m, auth, host, answer);
    if !quit && st == KernSuccess {
      ghost var a := m.run;
      m.MonitorIsPort();
      quit, mtasks := FinishTasks(m, auth, host, sets.lists, old(m.owned));
      if quit {
        CollectedSent(a, |old(m.run)|, answer.value, sets.names, sets.procsets, sets.lists, host, Last(a).monitor.value);
      } else {
        AllCameGrows(a, |old(m.run)|, answer.value, sets, host, m.run, |old(m.run)|);
        m.RecordsArePorts();
        UndisturbedOn(old(Last(m.run)), Last(a), Last(m.run), SetMarks(sets.procsets, sets.names),
                      Marks(Flatten(sets.lists), Tags(HostPriv, host, NoType, 0)));
        NewTypesAfter(old(Last(m.run)), Last(a), Last(m.run), sets.procsets, sets.names,
                      Tags(HostPriv, host, NoType, 0));
      }
    }
  }

  method FinishTasks(m: Server, auth: Port, host: Name, lists: seq<seq<Port>>, ghost base: multiset<Port>)
    returns (quit: bool, mtasks: seq<Name>)
    requires m.Valid() && host < m.next && 0 < m.next && RefOf(auth) <= base && m.owned == base + ListRefs(lists)
    modifies m.Repr
    ensures quit ==> old(m.monitor).Some? && old(m.monitor).value in Flatten(lists)
    ensures old(m.run) <= m.run
    ensures !quit ==> m.Valid() && m.OnlyNew() && m.owned == base - RefOf(auth)
    ensures !quit ==> Undisturbed(old(Last(m.run)), Last(m.run), Marks(Flatten(lists), Tags(HostPriv, host, NoType, 0)))
    ensures !quit ==> Grows(old(Last(m.run)), Last(m.run), Tags(HostPriv, host, NoType, 0))
    ensures !quit ==> AllSettled(Last(m.run), Flatten(lists), mtasks, Tags(HostPriv, host, NoType, 0))
    ensures !quit ==> AllNewOf(old(Last(m.run)), Last(m.run), Task)
  {
    PlusMinus(base, ListRefs(lists));
    quit, mtasks := NameLists(m, lists, host);
    if !quit {
      ghost var a, tags := Last(m.run), Tags(HostPriv, host, NoType, 0);
      m.TakeAuth(auth, tags);
      AllSettledGrows(a, Last(m.run), Flatten(lists), mtasks, tags);
      NoNewcomers(a, Last(m.run), Task);
      NewcomersTrans(old(Last(m.run)), a, Last(m.run), Task, tags);
      GrownTrans(old(Last(m.run)), a, Last(m.run), tags);
      UndisturbedAfter(old(Last(m.run)), a, Last(m.run), tags, Marks(Flatten(lists), Tags(HostPriv, host, NoType, 0)));
    }
  }
}
