/**
 What the handlers of the machid server mean for one another: whoever is told a name, what may be done
 with it, and by whom. Nothing here is said in terms of how a handler works.
 */
module MachidLaws {
  import opened Options
  import opened MachKernel
  import opened PortTables
  import opened MachidMachine
  import opened MachidServer
  import opened MachidHandlers
  import opened MachidHostTasks

  // What a listing leaves behind, port by port.

  /** The names are those of the ports in order, and every port has both associations. */
  lemma {:induction false} ListedAt(a: State, ports: seq<Port>, names: seq<Name>,
                                    t1: MachType, n1: Name, t2: MachType, n2: Name, i: nat)
    requires t1 != t2 && AllSettled(a, ports, names, Tags(t1, n1, t2, n2)) && i < |ports|
    ensures |names| == |ports|
    ensures ports[i] == 0 || ports[i] == 0xffff_ffff ==> names[i] == 0
    ensures ports[i] != 0 && ports[i] != 0xffff_ffff ==>
              && ports[i] in a.recs && a.recs[ports[i]].name == names[i]
              && (n1 != 0 ==> AssocGet(a.recs[ports[i]].assocs, t1) == n1)
              && (n2 != 0 ==> AssocGet(a.recs[ports[i]].assocs, t2) == n2)
  {
    var n := |ports| - 1;
    if i < n {
      ListedAt(a, ports[..n], names[..n], t1, n1, t2, n2, i);
    } else if n > 0 {
      ListedAt(a, ports[..n], names[..n], t1, n1, t2, n2, 0);
    }
  }

  /** No other association of any port has changed or come into being. */
  lemma ListingTouches(a: State, b: State, ports: seq<Port>, t1: MachType, n1: Name, t2: MachType, n2: Name)
    requires Undisturbed(a, b, Marks(ports, Tags(t1, n1, t2, n2)))
    ensures forall p, t :: !(p in ports && (t == t1 || t == t2)) ==> AssocIn(b, p, t) == AssocIn(a, p, t)
    ensures forall p :: p in a.recs ==>
              p in b.recs && b.recs[p].name == a.recs[p].name && b.recs[p].ptype == a.recs[p].ptype
  {
    forall p | p in a.recs
      ensures p in b.recs && b.recs[p].name == a.recs[p].name && b.recs[p].ptype == a.recs[p].ptype
    {
      assert Inherits(a.recs[p], b.recs[p], map[]);
    }
  }

  lemma HostPortsTouch(a: State, b: State, hostSelf: Port, host: Name, hostPrivSelf: Port, phost: Name)
    requires Undisturbed(a, b, HostMarks(hostSelf, host, hostPrivSelf, phost))
    ensures forall p, t :: !(t == HostPriv && (p == hostSelf || p == hostPrivSelf))
                           && !(t == MachType.Host && p == hostPrivSelf) ==>
              AssocIn(b, p, t) == AssocIn(a, p, t)
  {
  }

  // The sets of do_host_tasks.

  /** A set's port and its name port have their names, know the host, and know each other. */
  lemma SetAt(a: State, procset: Port, mprocset: Name, name: Port, mprocsetname: Name, host: Name)
    requires SetSettled(a, procset, mprocset, name, mprocsetname, host) && host != 0
    requires procset != 0 && procset != 0xffff_ffff && name != 0 && name != 0xffff_ffff
    requires mprocset != 0 && mprocsetname != 0
    ensures procset in a.recs && a.recs[procset].name == mprocset && name in a.recs && a.recs[name].name == mprocsetname
    ensures AssocGet(a.recs[procset].assocs, HostPriv) == host == AssocGet(a.recs[name].assocs, HostPriv)
    ensures AssocGet(a.recs[procset].assocs, ProcessorSetName) == mprocsetname
    ensures AssocGet(a.recs[name].assocs, ProcessorSet) == mprocset
  {
  }

  /** The tasks of the k-th list come behind those of the lists before it. */
  lemma {:induction false} FlattenAt(lists: seq<seq<Port>>, k: nat, j: nat)
    requires k < |lists| && j < |lists[k]|
    ensures |Flatten(lists[..k])| + j < |Flatten(lists)|
    ensures Flatten(lists)[|Flatten(lists[..k])| + j] == lists[k][j]
    decreases |lists|
  {
    var n := |lists| - 1;
    assert lists[..|lists|] == lists;
    if k < n {
      FlattenAt(lists[..n], k, j);
      assert lists[..n][..k] == lists[..k];
    }
  }

  /** No port belongs to a set before the i-th. */
  ghost predicate FirstSeenAt(procsets: seq<Port>, names: seq<Port>, p: Port, i: nat)
    requires i <= |procsets| <= |names|
  {
    forall j :: 0 <= j < i ==> p != procsets[j] && p != names[j]
  }

  /** A new record has the type of the first mention of its port, and of its set's own port if it is
      mentioned twice there. */
  lemma {:induction false} NewTypeIs(procsets: seq<Port>, names: seq<Port>, p: Port, other: MachType, i: nat)
    requires i <= |procsets| <= |names| && FirstSeenAt(procsets, names, p, i)
    ensures i < |procsets| && p == procsets[i] ==> FirstType(procsets, names, p, other) == ProcessorSet
    ensures i < |procsets| && p == names[i] && p != procsets[i] ==>
              FirstType(procsets, names, p, other) == ProcessorSetName
    ensures i == |procsets| ==> FirstType(procsets, names, p, other) == other
    decreases |procsets|
  {
    if procsets != [] {
      var n := |procsets| - 1;
      var last := if p == procsets[n] then ProcessorSet else if p == names[n] then ProcessorSetName else other;
      if i <= n {
        assert FirstSeenAt(procsets[..n], names, p, i);
        NewTypeIs(procsets[..n], names, p, last, i);
      } else {
        assert FirstSeenAt(procsets[..n], names, p, n);
        NewTypeIs(procsets[..n], names, p, last, n);
      }
    }
  }

  // Who may do what afterwards.

  /** The host's own port is for everyone; the privileged one is for who has it already. */
  method HostPortsThenLookUp(m: Server, auth: Port, hostSelf: Port, hostPrivSelf: Port,
                             privileged: bool, who: Port, op: Op)
    returns (quit: bool, res: LookupResult)
    requires m.Valid() && RefOf(auth) + RefOf(hostSelf) + RefOf(hostPrivSelf) <= m.owned
    requires PortValid(hostSelf) && PortValid(hostPrivSelf) && hostSelf != hostPrivSelf
    requires hostSelf !in Last(m.run).recs && hostPrivSelf !in Last(m.run).recs
    modifies m.Repr
    ensures !quit && !privileged ==> res == Found(hostSelf)
    ensures !quit && privileged && op != OpInfo ==>
              res == if who == hostPrivSelf then Found(hostPrivSelf) else Protected
  {
    ghost var a := Last(m.run);
    var host, phost;
    quit, host, phost := DoHostPorts(m, auth, hostSelf, hostPrivSelf);
    res := BadName;
    if !quit {
      m.Healthy();
      NewHostPorts(a, Last(m.run), hostSelf, host, hostPrivSelf, phost);
      res := LookUpHostPort(m, hostSelf, host, hostPrivSelf, phost, privileged, who, op);
    }
  }

  /** The two records, and that no one else has either name. */
  ghost predicate HostPair(a: State, hostSelf: Port, host: Name, hostPrivSelf: Port, phost: Name) {
    && hostSelf in a.recs && a.recs[hostSelf].name == host && a.recs[hostSelf].ptype == MachType.Host
    && hostPrivSelf in a.recs && a.recs[hostPrivSelf].name == phost && a.recs[hostPrivSelf].ptype == HostPriv
    && AssocGet(a.recs[hostPrivSelf].assocs, HostPriv) == phost && AssocGet(a.recs[hostPrivSelf].assocs, Task) == 0
    && forall q :: q in a.recs ==> a.recs[q].name != 0 && (a.recs[q].name == phost ==> q == hostPrivSelf)
  }

  method LookUpHostPort(m: Server, ghost hostSelf: Port, host: Name, ghost hostPrivSelf: Port, phost: Name,
                        privileged: bool, who: Port, op: Op)
    returns (res: LookupResult)
    requires m.Valid() && HostPair(Last(m.run), hostSelf, host, hostPrivSelf, phost)
    requires PortValid(hostPrivSelf)
    modifies m`space, m`run, m`owned, m.tables.recs.Values`urefs
    ensures !privileged ==> res == Found(hostSelf)
    ensures privileged && op != OpInfo ==>
              res == if who == hostPrivSelf then Found(hostPrivSelf) else Protected
  {
    res := m.PortLookup(if privileged then phost else host, who, op);
  }

  lemma NewHostPorts(a: State, b: State, hostSelf: Port, host: Name, hostPrivSelf: Port, phost: Name)
    requires Inv(b) && PortValid(hostSelf) && PortValid(hostPrivSelf) && hostSelf != hostPrivSelf
    requires hostSelf !in a.recs && hostPrivSelf !in a.recs
    requires Settled(b, hostSelf, host, Tag(HostPriv, phost))
    requires Settled(b, hostPrivSelf, phost, Tags(MachType.Host, host, HostPriv, phost))
    requires Typed(a, b, hostSelf, MachType.Host) && Typed(a, b, hostPrivSelf, HostPriv)
    requires Touched(a, b, HostMarks(hostSelf, host, hostPrivSelf, phost))
    ensures HostPair(b, hostSelf, host, hostPrivSelf, phost)
  {
    assert AssocIn(b, hostPrivSelf, Task) == AssocIn(a, hostPrivSelf, Task);
    assert PortInv(b, hostPrivSelf);
    assert HasName(b, hostPrivSelf, phost);
    forall q | q in b.recs ensures b.recs[q].name != 0 && (b.recs[q].name == phost ==> q == hostPrivSelf) {
      assert PortInv(b, q) && HasName(b, q, b.recs[q].name);
    }
  }

  /** Whoever shows the task's port may do anything with the threads that were listed. */
  method ThreadsThenLookUp(m: Server, auth: Port, taskPort: Port, task: Name, answer: Answer<seq<Port>>,
                           i: nat, op: Op)
    returns (quit: bool, st: Status, ghost got: seq<Port>, threads: seq<Name>, res: LookupResult)
    requires m.Valid() && RefOf(auth) <= m.owned && HasName(Last(m.run), taskPort, task)
    modifies m.Repr
    ensures st == KernSuccess ==> answer.Ok? && Arrived(answer.value, got, m.run, |old(m.run)|)
    ensures !quit && st == KernSuccess ==> |threads| == |got|
    ensures !quit && st == KernSuccess && i < |threads| && PortValid(got[i]) ==> res == Found(got[i])
  {
    ghost var start, from := Last(m.run), |m.run|;
    m.IsIssued(taskPort);
    ghost var host;
    quit, st, got, host, threads := DoTaskThreads(m, auth, task, answer);
    res := BadName;
    if !quit && st == KernSuccess {
      ListedLength(Last(m.run), got, threads, Tags(Task, task, HostPriv, host));
      if i < |threads| {
        ListingTouches(start, Last(m.run), got, Task, task, HostPriv, host);
        ListedAt(Last(m.run), got, threads, Task, task, HostPriv, host, i);
        ghost var run := m.run;
        res := m.PortLookup(threads[i], taskPort, op);
        ArrivedGrows(answer.value, got, run, from, m.run, from);
      }
    }
  }

  lemma ListedLength(a: State, ports: seq<Port>, names: seq<Name>, tags: map<MachType, Name>)
    requires AllSettled(a, ports, names, tags)
    ensures |names| == |ports|
  {
  }

  /** Whoever shows the privileged host port may do anything with the tasks that were listed. */
  method TasksThenLookUp(m: Server, auth: Port, hostPort: Port, host: Name, answer: Answer<seq<SetAnswer>>,
                         i: nat, op: Op)
    returns (quit: bool, st: Status, sets: Sets, mtasks: seq<Name>, res: LookupResult)
    requires m.Valid() && RefOf(auth) <= m.owned && HasName(Last(m.run), hostPort, host)
    modifies m.Repr
    ensures !quit && st == KernSuccess ==> |mtasks| == |Flatten(sets.lists)|
    ensures !quit && st == KernSuccess && i < |mtasks| && PortValid(Flatten(sets.lists)[i]) ==>
              res == Found(Flatten(sets.lists)[i])
  {
    ghost var start := Last(m.run);
    m.IsIssued(hostPort);
    quit, st, sets, mtasks := DoHostTasks(m, auth, host, answer);
    res := BadName;
    if !quit && st == KernSuccess {
      ListedLength(Last(m.run), Flatten(sets.lists), mtasks, Tags(HostPriv, host, NoType, 0));
      if i < |mtasks| {
        assert Inherits(start.recs[hostPort], Last(m.run).recs[hostPort], map[]);
        ListedAt(Last(m.run), Flatten(sets.lists), mtasks, HostPriv, host, NoType, 0, i);
        res := m.PortLookup(mtasks[i], hostPort, op);
      }
    }
  }

  /** The objects that were listed, if they were not known before, are for everyone. */
  method ObjectsThenLookUp(m: Server, auth: Port, pager: Name, answer: Answer<seq<Port>>, numObjects: nat, i: nat,
                           who: Port, op: Op)
    returns (quit: bool, st: Status, ghost got: seq<Port>, objects: seq<Name>, res: LookupResult)
    requires m.Valid() && RefOf(auth) <= m.owned
    modifies m.Repr
    ensures !quit && st == KernSuccess ==> |objects| == |got| == numObjects
    ensures !quit && st == KernSuccess && i < |got| && PortValid(got[i]) && got[i] !in old(Last(m.run)).recs ==>
              res == Found(got[i])
  {
    ghost var host;
    quit, st, got, host, objects := DoDefaultPagerObjects(m, auth, pager, answer, numObjects);
    res := BadName;
    if !quit && st == KernSuccess {
      ListedLength(Last(m.run), got, objects, Tags(HostPriv, host, NoType, 0));
      if i < |objects| {
        ListedAt(Last(m.run), got, objects, HostPriv, host, NoType, 0, i);
        res := m.PortLookup(objects[i], who, op);
      }
    }
  }

  /** A port that is registered twice has one name, which is then the name of that port. */
  method RegisterTwice(m: Server, auth: Port, port: Port, ptype: MachType, auth': Port, ptype': MachType)
    returns (quit: bool, name: Name, name': Name, t: MachType)
    requires m.Valid() && RefOf(auth) + RefOf(port) + (RefOf(auth') + RefOf(port)) <= m.owned
    requires PortValid(port)
    modifies m.Repr
    ensures !quit ==> name == name' && name != 0
    ensures !quit && port !in old(Last(m.run)).recs ==> t == ptype
    ensures !quit && port in old(Last(m.run)).recs ==> t == old(Last(m.run)).recs[port].ptype
  {
    ghost var start := Last(m.run);
    RoomForBoth(m.owned, RefOf(port), RefOf(auth), RefOf(auth') + RefOf(port));
    quit, name := DoMachRegister(m, auth, port, ptype);
    name', t := 0, NoType;
    if !quit {
      ghost var once := Last(m.run);
      quit, name' := DoMachRegister(m, auth', port, ptype');
      if !quit {
        StillNamed(start, once, Last(m.run), port, ptype, ptype');
        m.NamesIssued();
        t := m.TypeLookup(name');
      }
    }
  }

  lemma RoomForBoth(all: multiset<Port>, x: multiset<Port>, y: multiset<Port>, more: multiset<Port>)
    requires y + x + more <= all
    ensures y + x <= all && more <= all - x - y
  {
  }

  lemma StillNamed(a: State, b: State, c: State, port: Port, t: MachType, u: MachType)
    requires PortValid(port) && Recorded(a, b, port, t) && Recorded(b, c, port, u)
    ensures port in b.recs && port in c.recs && b.recs[port].name == c.recs[port].name
    ensures c.recs[port].ptype == if port in a.recs then a.recs[port].ptype else t
  {
    assert SameRecord(b.recs[port], c.recs[port]);
    assert port in a.recs ==> SameRecord(a.recs[port], b.recs[port]);
  }

  // When nothing dies.

  /** The ports of a set are ports, and none of them is to die by the end of the run. */
  ghost predicate SparedSet(answer: SetAnswer, run: seq<State>) {
    var s := Last(run).space;
    && PortValid(answer.name) && !Doomed(s.fate, answer.name, s.time)
    && PortValid(answer.priv) && !Doomed(s.fate, answer.priv, s.time)
    && forall p :: p in answer.tasks ==> PortValid(p) && !Doomed(s.fate, p, s.time)
  }

  /** Then do_host_tasks has every set of the kernel's answer, with all its tasks in order. */
  lemma {:induction false} SparedSetsArrive(run: seq<State>, from: nat, answers: seq<SetAnswer>, sets: Sets, host: Name)
    requires FromStart(run) && AllCame(run, from, answers, sets, host)
    requires forall i :: 0 <= i < |answers| ==> SparedSet(answers[i], run)
    ensures |sets.names| == |sets.procsets| == |sets.lists| == |answers|
    ensures forall i :: 0 <= i < |answers| ==>
              sets.names[i] == answers[i].name && sets.procsets[i] == answers[i].priv && sets.lists[i] == answers[i].tasks
  {
    forall p | p in SetNames(answers)
      ensures PortValid(p) && !Doomed(Last(run).space.fate, p, Last(run).space.time)
    {
      var i :| 0 <= i < |answers| && SetNames(answers)[i] == p;
      SetNamesAt(answers, i);
      assert SparedSet(answers[i], run);
    }
    SparedArrive(SetNames(answers), sets.names, run, from);
    CollectedLength(run, from, answers, sets.names, sets.procsets, sets.lists, host);
    forall i: nat | i < |answers|
      ensures sets.names[i] == answers[i].name && sets.procsets[i] == answers[i].priv && sets.lists[i] == answers[i].tasks
    {
      SetNamesAt(answers, i);
      SparedSetAt(run, from, answers, sets.names, sets.procsets, sets.lists, host, i);
    }
  }

  lemma {:induction false} SparedSetAt(run: seq<State>, from: nat, answers: seq<SetAnswer>, names: seq<Port>,
                                       procsets: seq<Port>, lists: seq<seq<Port>>, host: Name, i: nat)
    requires FromStart(run) && Collected(run, from, answers, names, procsets, lists, host)
    requires i < |procsets| && i < |answers| && SparedSet(answers[i], run)
    ensures |lists| == |procsets| && procsets[i] == answers[i].priv && lists[i] == answers[i].tasks
    decreases |procsets|
  {
    var n := |procsets| - 1;
    if i < n {
      SparedSetAt(run, from, answers, names, procsets[..n], lists[..n], host, i);
    } else {
      SparedComes(answers[n].priv, procsets[n], run, from);
      SparedArrive(answers[n].tasks, lists[n], run, from);
    }
  }
}
