/**
 The life of the machid server between mach_msg_server and its handlers (bin/machid/machid.c:101-167,
 261-274): messages in any order and number. A request brings a right for `auth`. If its handler fails,
 mach_msg_server destroys the rights of the request; if do_mach_port succeeds, the reply takes the
 port's reference away.
 */
module MachidService {
  import opened Options
  import opened MachKernel
  import opened PortTables
  import opened MachidMachine
  import opened MachidServer
  import opened MachidHandlers
  import opened MachidHostTasks

  /** A message, with what the kernel, the pager or the name server answer while it is handled. */
  datatype Message =
    | MachPort(auth: Port, name: Name)
    | MachRegister(auth: Port, port: Port, ptype: MachType)
    | TaskTerminate(auth: Port, task: Name, done: Answer<()>)
    | ThreadAssign(auth: Port, thread: Name, pset: Name, done: Answer<()>)
    | ObjectPages(auth: Port, pager: Name, memObject: Name, done: Answer<()>)
    | HostPorts(auth: Port, hostSelf: Port, hostPrivSelf: Port)
    | TaskThreads(auth: Port, task: Name, threads: Answer<seq<Port>>)
    | PagerObjects(auth: Port, pager: Name, objects: Answer<seq<Port>>, numObjects: nat)
    | HostTasks(auth: Port, host: Name, sets: Answer<seq<SetAnswer>>)
    | DeadNameNotice(dead: Port, script: seq<Attempt>)

  datatype Service = Serving | Trying | Stopped

  /** What became of a message: its ports as they came, and the reply. */
  datatype Outcome =
    | PortGiven(auth: Port, st: Status, port: Port)
    | Registered(port: Port, name: Name)
    | Called(auth: Port, st: Status)
    | HostsNamed(hostSelf: Port, host: Name, hostPrivSelf: Port, phost: Name)
    | PortsListed(auth: Port, st: Status, ports: seq<Port>, host: Name, names: seq<Name>)
    | TasksListed(auth: Port, st: Status, sets: Sets, names: seq<Name>)
    | Noticed

  // What each message has done by the time that the run `before` has become `after`.

  ghost predicate GavePort(name: Name, out: Outcome, a: State, b: State)
    requires out.PortGiven?
  {
    && out.st == Reply(Decision(a, name, out.auth, OpPort), InvalidMachName, Ok(()))
    && (out.st == KernSuccess ==> HasName(b, out.port, name)) && Quiet(a, b)
  }

  ghost predicate DidRegister(ptype: MachType, out: Outcome, a: State, b: State)
    requires out.Registered?
  {
    out.name == NameIn(b, out.port) && Recorded(a, b, out.port, ptype)
  }

  /** The status of a request that names no new port. */
  ghost function CallStatus(msg: Message, auth: Port, a: State): Status
    requires msg.TaskTerminate? || msg.ThreadAssign? || msg.ObjectPages?
  {
    match msg
    case TaskTerminate(_, task, done) => Reply(Decision(a, task, auth, OpWrite), InvalidTask, done)
    case ThreadAssign(_, thread, pset, done) =>
      Both(Decision(a, thread, auth, OpWrite), InvalidThread, Decision(a, pset, auth, OpWrite), InvalidProcessorSet, done)
    case ObjectPages(_, pager, memObject, done) =>
      Both(Decision(a, pager, auth, OpInfo), InvalidDefaultPager, Decision(a, memObject, auth, OpInfo), InvalidMemoryObject, done)
  }

  ghost predicate NamedHosts(out: Outcome, a: State, b: State)
    requires out.HostsNamed?
  {
    && Settled(b, out.hostSelf, out.host, Tag(HostPriv, out.phost))
    && Settled(b, out.hostPrivSelf, out.phost, Tags(MachType.Host, out.host, HostPriv, out.phost))
    && Typed(a, b, out.hostSelf, MachType.Host)
    && (out.hostPrivSelf != out.hostSelf ==> Typed(a, b, out.hostPrivSelf, HostPriv))
    && Undisturbed(a, b, HostMarks(out.hostSelf, out.host, out.hostPrivSelf, out.phost))
  }

  /** `host` is the privileged host port that the object of the name is associated with. */
  ghost predicate HostOf(a: State, name: Name, host: Name) {
    exists p :: HasName(a, p, name) && host == AssocGet(a.recs[p].assocs, HostPriv)
  }

  /** The ports of the answer were named and tagged, and nothing else; or nothing was done. */
  ghost predicate ListedPorts(out: Outcome, name: Name, sent: seq<Port>, ptype: MachType, tags: map<MachType, Name>,
                              before: seq<State>, after: seq<State>)
    requires out.PortsListed?
  {
    var a, b := Last(before), Last(after);
    if out.st == KernSuccess then
      && Arrived(sent, out.ports, after, |before|) && HostOf(a, name, out.host)
      && AllSettled(b, out.ports, out.names, tags) && AllNewOf(a, b, ptype)
      && Undisturbed(a, b, Marks(out.ports, tags))
    else
      Quiet(a, b)
  }

  ghost predicate ListedTasks(out: Outcome, host: Name, sent: seq<SetAnswer>, before: seq<State>, after: seq<State>)
    requires out.TasksListed?
  {
    var a, b := Last(before), Last(after);
    if out.st == KernSuccess then
      && AllCame(after, |before|, sent, out.sets, host) && |out.sets.procsets| <= |out.sets.names|
      && AllSettled(b, Flatten(out.sets.lists), out.names, Tags(HostPriv, host, NoType, 0))
      && NewTypes(a, b, out.sets.procsets, out.sets.names, Task)
      && Undisturbed(a, b, AllMarks(out.sets, host))
    else
      Quiet(a, b)
  }

  /** The kernel sends a notification only if it has one. It ends a record, or makes the server look
      for another monitor port. */
  ghost predicate TookNotice(dead: Port, script: seq<Attempt>, a: State, b: State) {
    if a.space.pending[dead] == 0 then b == a
    else if a.monitor == Some(dead) then
      b.recs == a.recs && b.monitor.Some? && Attempt(Answer(b.monitor.value), CheckInOk) in script
    else
      dead in a.recs && b.recs == a.recs - {dead} && b.monitor == a.monitor
  }

  ghost predicate Handled(msg: Message, out: Outcome, before: seq<State>, after: seq<State>) {
    var a, b := Last(before), Last(after);
    match msg
    case MachPort(auth, name) =>
      out.PortGiven? && Came(auth, out.auth, after, |before|) && GavePort(name, out, a, b)
    case MachRegister(_, port, ptype) =>
      out.Registered? && Came(port, out.port, after, |before|) && DidRegister(ptype, out, a, b)
    case HostPorts(_, hostSelf, hostPrivSelf) =>
      && out.HostsNamed? && Came(hostSelf, out.hostSelf, after, |before|)
      && Came(hostPrivSelf, out.hostPrivSelf, after, |before|) && NamedHosts(out, a, b)
    case TaskThreads(auth, task, threads) =>
      && out.PortsListed? && Came(auth, out.auth, after, |before|)
      && out.st == Reply(Decision(a, task, out.auth, OpInfo), InvalidTask, threads)
      && ListedPorts(out, task, Value(threads), Thread, Tags(Task, task, HostPriv, out.host), before, after)
    case PagerObjects(auth, pager, objects, numObjects) =>
      && out.PortsListed? && Came(auth, out.auth, after, |before|)
      && out.st == ObjectsStatus(Decision(a, pager, out.auth, OpInfo), objects, numObjects)
      && ListedPorts(out, pager, Value(objects), ObjectName, Tags(HostPriv, out.host, NoType, 0), before, after)
    case HostTasks(auth, host, sets) =>
      && out.TasksListed? && Came(auth, out.auth, after, |before|)
      && out.st == Reply(Decision(a, host, out.auth, OpInfo), InvalidHostPriv, sets)
      && ListedTasks(out, host, Value(sets), before, after)
    case DeadNameNotice(dead, script) => out.Noticed? && TookNotice(dead, script, a, b)
    case _ =>
      && out.Called? && Came(msg.auth, out.auth, after, |before|)
      && out.st == CallStatus(msg, out.auth, a) && Quiet(a, b)
  }

  ghost function Value<T>(answer: Answer<seq<T>>): seq<T> {
    if answer.Ok? then answer.value else []
  }

  ghost function ObjectsStatus(v: Verdict, objects: Answer<seq<Port>>, numObjects: nat): Status {
    var reply := Reply(v, InvalidDefaultPager, objects);
    if reply == KernSuccess && numObjects != |objects.value| then KernFail(Failure) else reply
  }

  /** The message shows the server the port `p`, in itself or in an answer. */
  ghost predicate Shows(msg: Message, p: Port) {
    match msg
    case MachRegister(_, port, _) => port == p
    case HostPorts(_, hostSelf, hostPrivSelf) => hostSelf == p || hostPrivSelf == p
    case TaskThreads(_, _, threads) => threads.Ok? && p in threads.value
    case PagerObjects(_, _, objects, _) => objects.Ok? && p in objects.value
    case HostTasks(_, _, sets) => sets.Ok? && Shown(sets.value, p)
    case _ => false
  }

  /** The first `n` attempts had to be tried again. */
  ghost predicate Tried(script: seq<Attempt>, n: nat, run: seq<State>, from: nat) {
    n <= |script| && forall k :: 0 <= k < n ==> Retried(script[k], run, from)
  }

  /** Still without a name server: the monitor port has died, and every attempt had to be tried again. */
  ghost predicate TriesFor(msg: Message, monitor: Port, run: seq<State>, from: nat) {
    msg.DeadNameNotice? && msg.dead == monitor && Tried(msg.script, |msg.script|, run, from)
  }

  /** The reasons to stop while handling a message. */
  ghost predicate StopsFor(msg: Message, monitor: Port, run: seq<State>, from: nat) {
    || Shows(msg, monitor)
    || (msg.DeadNameNotice? && msg.dead == monitor
        && exists n :: 0 <= n < |msg.script| && Tried(msg.script, n, run, from) && QuitFor(msg.script[n], run, from))
  }

  /** A right arrives. */
  method Receive(m: Server, p: Port) returns (q: Port)
    requires m.Valid()
    modifies m`space, m`run, m`owned
    ensures m.Valid() && m.owned == old(m.owned) + RefOf(q) && old(m.run) <= m.run
    ensures Came(p, q, m.run, |old(m.run)|) && Quiet(old(Last(m.run)), Last(m.run))
  {
    q := m.ReceiveRight(p);
    m.Quietly();
  }

  /** mach_msg_destroy of a request, or the sending of a reply: the right goes. */
  method Discard(m: Server, p: Port)
    requires m.Valid() && RefOf(p) <= m.owned
    modifies m`space, m`run, m`owned
    ensures m.Valid() && m.owned == old(m.owned) - RefOf(p) && old(m.run) <= m.run
    ensures Quiet(old(Last(m.run)), Last(m.run))
  {
    if PortValid(p) {
      m.ReleaseRight(p);
    }
    m.Quietly();
  }

  /** The end of a request: what its handler left of `auth` goes. */
  method Conclude(m: Server, auth: Port, st: Status)
    requires m.Valid() && m.owned == if st == KernSuccess then multiset{} else RefOf(auth)
    modifies m`space, m`run, m`owned
    ensures m.Valid() && m.owned == multiset{} && old(m.run) <= m.run
    ensures st == KernSuccess ==> m.run == old(m.run)
    ensures Quiet(old(Last(m.run)), Last(m.run))
  {
    if st != KernSuccess {
      Discard(m, auth);
    }
  }

  /** do_mach_port, and the reply that takes the port. */
  method HandlePort(m: Server, auth: Port, name: Name) returns (ghost out: Outcome)
    requires m.Valid() && m.owned == RefOf(auth)
    modifies m`space, m`run, m`owned, m.tables.recs.Values`urefs
    ensures m.Valid() && m.owned == multiset{} && old(m.run) <= m.run
    ensures out.PortGiven? && out.auth == auth && GavePort(name, out, old(Last(m.run)), Last(m.run))
  {
    var st, port := DoMachPort(m, auth, name);
    out := PortGiven(auth, st, port);
    ghost var a := Last(m.run);
    m.RecordsArePorts();
    Discard(m, if st == KernSuccess then port else auth);
    QuietTrans(old(Last(m.run)), a, Last(m.run));
    assert st == KernSuccess ==> SameRecord(a.recs[port], Last(m.run).recs[port]);
  }

  lemma SameDecisions(a: State, b: State, name: Name, auth: Port, op: Op)
    requires Quiet(a, b)
    ensures Decision(a, name, auth, op) == Decision(b, name, auth, op)
  {
    forall p | p in a.recs ensures a.recs[p].name == b.recs[p].name && a.recs[p].assocs == b.recs[p].assocs {
      assert SameRecord(a.recs[p], b.recs[p]);
    }
    DecisionKept(a, b, name, auth, op);
  }

  method ServePort(m: Server, auth: Port, name: Name) returns (ghost out: Outcome)
    requires m.Idle()
    modifies m`space, m`run, m`owned, m.tables.recs.Values`urefs
    ensures m.Idle() && old(m.run) <= m.run && Handled(MachPort(auth, name), out, old(m.run), m.run)
  {
    var q := Receive(m, auth);
    ghost var came := m.run;
    out := HandlePort(m, q, name);
    CameGrows(auth, q, came, |old(m.run)|, m.run, |old(m.run)|);
    QuietTrans(old(Last(m.run)), Last(came), Last(m.run));
    SameDecisions(old(Last(m.run)), Last(came), name, q, OpPort);
  }

  /** Two rights arrive. If one of them is for the watched port, it had been sent. */
  method ReceiveTwo(m: Server, p: Port, q: Port) returns (p': Port, q': Port)
    requires m.Valid()
    modifies m`space, m`run, m`owned
    ensures m.Valid() && m.owned == old(m.owned) + RefOf(p') + RefOf(q') && old(m.run) <= m.run
    ensures (m.monitor == Some(p') ==> p == p') && (m.monitor == Some(q') ==> q == q')
    ensures Came(p, p', m.run, |old(m.run)|) && Came(q, q', m.run, |old(m.run)|)
    ensures Quiet(old(Last(m.run)), Last(m.run))
  {
    p' := Receive(m, p);
    MonitorCame(m, p, p', |old(m.run)|);
    ghost var before := m.run;
    q' := Receive(m, q);
    MonitorCame(m, q, q', |before|);
    CameGrows(p, p', before, |old(m.run)|, m.run, |old(m.run)|);
    CameGrows(q, q', m.run, |before|, m.run, |old(m.run)|);
    QuietTrans(old(Last(m.run)), Last(before), Last(m.run));
  }

  lemma RecordedSince(a: State, b: State, c: State, port: Port, t: MachType)
    requires Quiet(a, b) && Recorded(b, c, port, t)
    ensures Recorded(a, c, port, t)
  {
    forall p | p in a.recs ensures SameRecord(a.recs[p], c.recs[p]) {
      assert SameRecord(a.recs[p], b.recs[p]) && SameRecord(b.recs[p], c.recs[p]);
    }
  }

  lemma RegisterHandled(auth: Port, port: Port, ptype: MachType, out: Outcome,
                        before: seq<State>, came: seq<State>, after: seq<State>)
    requires out.Registered? && Came(port, out.port, came, |before|)
    requires before <= came <= after && Quiet(Last(before), Last(came))
    requires DidRegister(ptype, out, Last(came), Last(after))
    ensures Handled(MachRegister(auth, port, ptype), out, before, after)
  {
    CameGrows(port, out.port, came, |before|, after, |before|);
    RecordedSince(Last(before), Last(came), Last(after), out.port, ptype);
  }

  method HandleRegister(m: Server, auth: Port, port: Port, ptype: MachType) returns (quit: bool, ghost out: Outcome)
    requires m.Valid() && m.owned == RefOf(auth) + RefOf(port) && m.monitor.Some?
    modifies m.Repr
    ensures quit ==> old(m.monitor) == Some(port)
    ensures old(m.run) <= m.run && (!quit ==> m.Idle() && m.OnlyNew())
    ensures out.Registered? && out.port == port
    ensures !quit ==> DidRegister(ptype, out, old(Last(m.run)), Last(m.run))
  {
    var name;
    quit, name := DoMachRegister(m, auth, port, ptype);
    out := Registered(port, name);
  }

  method ServeRegister(m: Server, auth: Port, port: Port, ptype: MachType) returns (quit: bool, ghost out: Outcome)
    requires m.Idle()
    modifies m.Repr
    ensures quit ==> old(m.monitor) == Some(port)
    ensures old(m.run) <= m.run && (!quit ==> m.Idle() && m.OnlyNew())
    ensures !quit ==> Handled(MachRegister(auth, port, ptype), out, old(m.run), m.run)
  {
    var q, p := ReceiveTwo(m, auth, port);
    ghost var came := m.run;
    quit, out := HandleRegister(m, q, p, ptype);
    if !quit {
      RegisterHandled(auth, port, ptype, out, old(m.run), came, m.run);
    }
  }

  /** The right of a request, and two that the server asks the kernel for. */
  method ReceiveThree(m: Server, auth: Port, p: Port, q: Port) returns (auth': Port, p': Port, q': Port)
    requires m.Idle()
    modifies m`space, m`run, m`owned
    ensures m.Valid() && m.owned == RefOf(auth') + RefOf(p') + RefOf(q') && old(m.run) <= m.run
    ensures (m.monitor == Some(p') ==> p == p') && (m.monitor == Some(q') ==> q == q')
    ensures Came(p, p', m.run, |old(m.run)|) && Came(q, q', m.run, |old(m.run)|)
    ensures Quiet(old(Last(m.run)), Last(m.run))
  {
    auth' := Receive(m, auth);
    ghost var before := m.run;
    p', q' := ReceiveTwo(m, p, q);
    CameGrows(p, p', m.run, |before|, m.run, |old(m.run)|);
    CameGrows(q, q', m.run, |before|, m.run, |old(m.run)|);
    QuietTrans(old(Last(m.run)), Last(before), Last(m.run));
  }

  lemma TypedQuietly(a: State, b: State, c: State, p: Port, t: MachType)
    requires Quiet(a, b) && Typed(b, c, p, t)
    ensures Typed(a, c, p, t)
  {
    assert p in a.recs ==> SameRecord(a.recs[p], b.recs[p]);
  }

  lemma NamedHostsSince(out: Outcome, a: State, b: State, c: State)
    requires out.HostsNamed? && Quiet(a, b) && NamedHosts(out, b, c)
    ensures NamedHosts(out, a, c)
  {
    TypedQuietly(a, b, c, out.hostSelf, MachType.Host);
    if out.hostPrivSelf != out.hostSelf {
      TypedQuietly(a, b, c, out.hostPrivSelf, HostPriv);
    }
    QuietThen(a, b, c, HostMarks(out.hostSelf, out.host, out.hostPrivSelf, out.phost));
  }

  method ServeHostPorts(m: Server, auth: Port, hostSelf: Port, hostPrivSelf: Port)
    returns (quit: bool, ghost out: Outcome)
    requires m.Idle()
    modifies m.Repr
    ensures quit ==> old(m.monitor) == Some(hostSelf) || old(m.monitor) == Some(hostPrivSelf)
    ensures old(m.run) <= m.run && (!quit ==> m.Idle() && m.OnlyNew())
    ensures !quit ==> Handled(HostPorts(auth, hostSelf, hostPrivSelf), out, old(m.run), m.run)
  {
    var q, p, r := ReceiveThree(m, auth, hostSelf, hostPrivSelf);
    ghost var came := m.run;
    quit, out := HandleHostPorts(m, q, p, r);
    CameGrows(hostSelf, p, came, |old(m.run)|, m.run, |old(m.run)|);
    CameGrows(hostPrivSelf, r, came, |old(m.run)|, m.run, |old(m.run)|);
    if !quit {
      NamedHostsSince(out, old(Last(m.run)), Last(came), Last(m.run));
    }
  }

  method HandleHostPorts(m: Server, auth: Port, hostSelf: Port, hostPrivSelf: Port)
    returns (quit: bool, ghost out: Outcome)
    requires m.Valid() && m.owned == RefOf(auth) + RefOf(hostSelf) + RefOf(hostPrivSelf) && m.monitor.Some?
    modifies m.Repr
    ensures quit ==> old(m.monitor) == Some(hostSelf) || old(m.monitor) == Some(hostPrivSelf)
    ensures old(m.run) <= m.run && (!quit ==> m.Idle() && m.OnlyNew())
    ensures out.HostsNamed? && out.hostSelf == hostSelf && out.hostPrivSelf == hostPrivSelf
    ensures !quit ==> NamedHosts(out, old(Last(m.run)), Last(m.run))
  {
    ThreeRefs(m.owned, auth, hostSelf, hostPrivSelf);
    var host, phost;
    quit, host, phost := DoHostPorts(m, auth, hostSelf, hostPrivSelf);
    out := HostsNamed(hostSelf, host, hostPrivSelf, phost);
  }

  lemma ThreeRefs(all: multiset<Port>, q: Port, p: Port, r: Port)
    requires all == RefOf(q) + RefOf(p) + RefOf(r)
    ensures all - RefOf(p) - RefOf(r) - RefOf(q) == multiset{}
  {
  }

  lemma HostOfSince(a: State, b: State, name: Name, host: Name)
    requires Quiet(a, b) && HostOf(b, name, host)
    ensures HostOf(a, name, host)
  {
    var p :| HasName(b, p, name) && host == AssocGet(b.recs[p].assocs, HostPriv);
    assert SameRecord(a.recs[p], b.recs[p]);
    assert HasName(a, p, name);
  }

  /** What was listed after the request came in, and before its right went. */
  lemma ListedPortsSince(out: Outcome, name: Name, sent: seq<Port>, ptype: MachType, tags: map<MachType, Name>,
                         before: seq<State>, came: seq<State>, done: seq<State>, after: seq<State>)
    requires out.PortsListed? && ListedPorts(out, name, sent, ptype, tags, came, done)
    requires before <= came <= done <= after && Quiet(Last(before), Last(came)) && Quiet(Last(done), Last(after))
    requires out.st == KernSuccess ==> after == done
    ensures ListedPorts(out, name, sent, ptype, tags, before, after)
  {
    if out.st == KernSuccess {
      ArrivedGrows(sent, out.ports, done, |came|, after, |before|);
      HostOfSince(Last(before), Last(came), name, out.host);
      NewcomersSince(Last(before), Last(came), Last(after), ptype);
      QuietThen(Last(before), Last(came), Last(after), Marks(out.ports, tags));
    } else {
      QuietTrans(Last(before), Last(came), Last(done));
      QuietTrans(Last(before), Last(done), Last(after));
    }
  }

  method HandleThreads(m: Server, auth: Port, task: Name, threads: Answer<seq<Port>>)
    returns (quit: bool, st: Status, ghost out: Outcome)
    requires m.Valid() && m.owned == RefOf(auth) && m.monitor.Some?
    modifies m.Repr
    ensures quit ==> threads.Ok? && old(m.monitor).value in threads.value
    ensures old(m.run) <= m.run && out.PortsListed? && out.auth == auth && out.st == st
    ensures out.st == Reply(Decision(old(Last(m.run)), task, auth, OpInfo), InvalidTask, threads)
    ensures !quit ==> m.Valid() && m.OnlyNew() && m.monitor.Some?
    ensures !quit ==> m.owned == if out.st == KernSuccess then multiset{} else RefOf(auth)
    ensures !quit ==> ListedPorts(out, task, Value(threads), Thread, Tags(Task, task, HostPriv, out.host), old(m.run), m.run)
  {
    var names;
    ghost var got, host;
    quit, st, got, host, names := DoTaskThreads(m, auth, task, threads);
    out := PortsListed(auth, st, got, host, names);
  }

  lemma ThreadsHandled(auth: Port, task: Name, threads: Answer<seq<Port>>, out: Outcome,
                     before: seq<State>, came: seq<State>, done: seq<State>, after: seq<State>)
    requires out.PortsListed? && Came(auth, out.auth, came, |before|)
    requires out.st == Reply(Decision(Last(came), task, out.auth, OpInfo), InvalidTask, threads)
    requires ListedPorts(out, task, Value(threads), Thread, Tags(Task, task, HostPriv, out.host), came, done)
    requires before <= came <= done <= after && Quiet(Last(before), Last(came)) && Quiet(Last(done), Last(after))
    requires out.st == KernSuccess ==> after == done
    ensures Handled(TaskThreads(auth, task, threads), out, before, after)
  {
    CameGrows(auth, out.auth, came, |before|, after, |before|);
    SameDecisions(Last(before), Last(came), task, out.auth, OpInfo);
    ListedPortsSince(out, task, Value(threads), Thread, Tags(Task, task, HostPriv, out.host), before, came, done, after);
  }

  method ServeThreads(m: Server, auth: Port, task: Name, threads: Answer<seq<Port>>)
    returns (quit: bool, ghost out: Outcome)
    requires m.Idle()
    modifies m.Repr
    ensures quit ==> threads.Ok? && old(m.monitor).value in threads.value
    ensures old(m.run) <= m.run && (!quit ==> m.Idle() && m.OnlyNew())
    ensures !quit ==> Handled(TaskThreads(auth, task, threads), out, old(m.run), m.run)
  {
    var q := Receive(m, auth);
    ghost var came := m.run;
    var st;
    quit, st, out := HandleThreads(m, q, task, threads);
    if !quit {
      ghost var done := m.run;
      Conclude(m, q, st);
      ThreadsHandled(auth, task, threads, out, old(m.run), came, done, m.run);
    }
  }

  method HandleObjects(m: Server, auth: Port, pager: Name, objects: Answer<seq<Port>>, numObjects: nat)
    returns (quit: bool, st: Status, ghost out: Outcome)
    requires m.Valid() && m.owned == RefOf(auth) && m.monitor.Some?
    modifies m.Repr
    ensures quit ==> objects.Ok? && old(m.monitor).value in objects.value
    ensures old(m.run) <= m.run && out.PortsListed? && out.auth == auth && out.st == st
    ensures out.st == ObjectsStatus(Decision(old(Last(m.run)), pager, auth, OpInfo), objects, numObjects)
    ensures !quit ==> m.Valid() && m.OnlyNew() && m.monitor.Some?
    ensures !quit ==> m.owned == if out.st == KernSuccess then multiset{} else RefOf(auth)
    ensures !quit ==> ListedPorts(out, pager, Value(objects), ObjectName, Tags(HostPriv, out.host, NoType, 0), old(m.run), m.run)
  {
    var names;
    ghost var got, host;
    quit, st, got, host, names := DoDefaultPagerObjects(m, auth, pager, objects, numObjects);
    out := PortsListed(auth, st, got, host, names);
  }

  lemma ObjectsHandled(auth: Port, pager: Name, objects: Answer<seq<Port>>, numObjects: nat, out: Outcome,
                     before: seq<State>, came: seq<State>, done: seq<State>, after: seq<State>)
    requires out.PortsListed? && Came(auth, out.auth, came, |before|)
    requires out.st == ObjectsStatus(Decision(Last(came), pager, out.auth, OpInfo), objects, numObjects)
    requires ListedPorts(out, pager, Value(objects), ObjectName, Tags(HostPriv, out.host, NoType, 0), came, done)
    requires before <= came <= done <= after && Quiet(Last(before), Last(came)) && Quiet(Last(done), Last(after))
    requires out.st == KernSuccess ==> after == done
    ensures Handled(PagerObjects(auth, pager, objects, numObjects), out, before, after)
  {
    CameGrows(auth, out.auth, came, |before|, after, |before|);
    SameDecisions(Last(before), Last(came), pager, out.auth, OpInfo);
    ListedPortsSince(out, pager, Value(objects), ObjectName, Tags(HostPriv, out.host, NoType, 0), before, came, done, after);
  }

  method ServeObjects(m: Server, auth: Port, pager: Name, objects: Answer<seq<Port>>, numObjects: nat)
    returns (quit: bool, ghost out: Outcome)
    requires m.Idle()
    modifies m.Repr
    ensures quit ==> objects.Ok? && old(m.monitor).value in objects.value
    ensures old(m.run) <= m.run && (!quit ==> m.Idle() && m.OnlyNew())
    ensures !quit ==> Handled(PagerObjects(auth, pager, objects, numObjects), out, old(m.run), m.run)
  {
    var q := Receive(m, auth);
    ghost var came := m.run;
    var st;
    quit, st, out := HandleObjects(m, q, pager, objects, numObjects);
    if !quit {
      ghost var done := m.run;
      Conclude(m, q, st);
      ObjectsHandled(auth, pager, objects, numObjects, out, old(m.run), came, done, m.run);
    }
  }

  lemma ListedTasksSince(out: Outcome, host: Name, sent: seq<SetAnswer>,
                         before: seq<State>, came: seq<State>, done: seq<State>, after: seq<State>)
    requires out.TasksListed? && ListedTasks(out, host, sent, came, done)
    requires before <= came <= done <= after && Quiet(Last(before), Last(came)) && Quiet(Last(done), Last(after))
    requires out.st == KernSuccess ==> after == done
    ensures ListedTasks(out, host, sent, before, after)
  {
    if out.st == KernSuccess {
      AllCameGrows(done, |came|, sent, out.sets, host, after, |before|);
      QuietThen(Last(before), Last(came), Last(after), AllMarks(out.sets, host));
    } else {
      QuietTrans(Last(before), Last(came), Last(done));
      QuietTrans(Last(before), Last(done), Last(after));
    }
  }

  method HandleTasks(m: Server, auth: Port, host: Name, sets: Answer<seq<SetAnswer>>)
    returns (quit: bool, st: Status, ghost out: Outcome)
    requires m.Valid() && m.owned == RefOf(auth) && m.monitor.Some?
    modifies m.Repr
    ensures quit ==> sets.Ok? && Shown(sets.value, old(m.monitor).value)
    ensures old(m.run) <= m.run && out.TasksListed? && out.auth == auth && out.st == st
    ensures out.st == Reply(Decision(old(Last(m.run)), host, auth, OpInfo), InvalidHostPriv, sets)
    ensures !quit ==> m.Valid() && m.OnlyNew() && m.monitor.Some?
    ensures !quit ==> m.owned == if out.st == KernSuccess then multiset{} else RefOf(auth)
    ensures !quit ==> ListedTasks(out, host, Value(sets), old(m.run), m.run)
  {
    var came, names;
    quit, st, came, names := DoHostTasks(m, auth, host, sets);
    out := TasksListed(auth, st, came, names);
  }

  lemma TasksHandled(auth: Port, host: Name, sets: Answer<seq<SetAnswer>>, out: Outcome,
                     before: seq<State>, came: seq<State>, done: seq<State>, after: seq<State>)
    requires out.TasksListed? && Came(auth, out.auth, came, |before|)
    requires out.st == Reply(Decision(Last(came), host, out.auth, OpInfo), InvalidHostPriv, sets)
    requires ListedTasks(out, host, Value(sets), came, done)
    requires before <= came <= done <= after && Quiet(Last(before), Last(came)) && Quiet(Last(done), Last(after))
    requires out.st == KernSuccess ==> after == done
    ensures Handled(HostTasks(auth, host, sets), out, before, after)
  {
    CameGrows(auth, out.auth, came, |before|, after, |before|);
    SameDecisions(Last(before), Last(came), host, out.auth, OpInfo);
    ListedTasksSince(out, host, Value(sets), before, came, done, after);
  }

  method ServeTasks(m: Server, auth: Port, host: Name, sets: Answer<seq<SetAnswer>>)
    returns (quit: bool, ghost out: Outcome)
    requires m.Idle()
    modifies m.Repr
    ensures quit ==> sets.Ok? && Shown(sets.value, old(m.monitor).value)
    ensures old(m.run) <= m.run && (!quit ==> m.Idle() && m.OnlyNew())
    ensures !quit ==> Handled(HostTasks(auth, host, sets), out, old(m.run), m.run)
  {
    var q := Receive(m, auth);
    ghost var came := m.run;
    var st;
    quit, st, out := HandleTasks(m, q, host, sets);
    if !quit {
      ghost var done := m.run;
      Conclude(m, q, st);
      TasksHandled(auth, host, sets, out, old(m.run), came, done, m.run);
    }
  }

  /** The handler of a request that names no new port. */
  method HandleCall(m: Server, msg: Message, auth: Port) returns (st: Status)
    requires m.Valid() && m.owned == RefOf(auth)
    requires msg.TaskTerminate? || msg.ThreadAssign? || msg.ObjectPages?
    modifies m`space, m`run, m`owned, m.tables.recs.Values`urefs
    ensures m.Valid() && old(m.run) <= m.run && Quiet(old(Last(m.run)), Last(m.run))
    ensures m.owned == if st == KernSuccess then multiset{} else RefOf(auth)
    ensures st == CallStatus(msg, auth, old(Last(m.run)))
  {
    PlusMinus(multiset{}, RefOf(auth));
    match msg {
      case TaskTerminate(_, task, done) => st := DoTaskTerminate(m, auth, task, done);
      case ThreadAssign(_, thread, pset, done) => st := DoThreadAssign(m, auth, thread, pset, done);
      case ObjectPages(_, pager, memObject, done) => st := DoDefaultPagerObjectPages(m, auth, pager, memObject, done);
    }
  }

  lemma SameStatus(msg: Message, auth: Port, a: State, b: State)
    requires msg.TaskTerminate? || msg.ThreadAssign? || msg.ObjectPages?
    requires Quiet(a, b)
    ensures CallStatus(msg, auth, a) == CallStatus(msg, auth, b)
  {
    forall name: Name, op {
      SameDecisions(a, b, name, auth, op);
    }
  }

  method ServeCall(m: Server, msg: Message) returns (ghost out: Outcome)
    requires m.Idle() && (msg.TaskTerminate? || msg.ThreadAssign? || msg.ObjectPages?)
    modifies m`space, m`run, m`owned, m.tables.recs.Values`urefs
    ensures m.Idle() && old(m.run) <= m.run && Handled(msg, out, old(m.run), m.run)
  {
    var q := Receive(m, msg.auth);
    ghost var came := m.run;
    var st := HandleCall(m, msg, q);
    ghost var done := m.run;
    Conclude(m, q, st);
    out := Called(q, st);
    CameGrows(msg.auth, q, came, |old(m.run)|, m.run, |old(m.run)|);
    SameStatus(msg, q, old(Last(m.run)), Last(came));
    QuietTrans(old(Last(m.run)), Last(came), Last(done));
    QuietTrans(old(Last(m.run)), Last(done), Last(m.run));
  }

  /** The records of the machine are those of the tables. */
  twostate lemma RecordsLeft(m: Server, new gone: set<Port>)
    requires old(m.Valid()) && m.Valid() && m.tables.recs.Keys == old(m.tables.recs).Keys - gone
    requires forall p :: p in m.tables.recs ==> m.tables.recs[p] == old(m.tables.recs)[p]
    requires unchanged(old(m.tables.recs).Values`urefs) && unchanged(old(m.tables.recs).Values`assocs)
    ensures Last(m.run).recs == old(Last(m.run)).recs - gone
    ensures gone == {} ==> Last(m.run).recs == old(Last(m.run)).recs
  {
  }

  /** A dead-name notification, if there is one: a message of that kind comes from the kernel only. */
  method ServeNotice(m: Server, dead: Port, script: seq<Attempt>) returns (s: Service)
    requires m.Idle()
    modifies m.Repr
    ensures old(m.run) <= m.run
    ensures s == Serving ==> m.Idle() && m.OnlyNew()
    ensures s == Serving ==> TookNotice(dead, script, old(Last(m.run)), Last(m.run))
    ensures s == Trying ==> TriesFor(DeadNameNotice(dead, script), old(m.monitor).value, m.run, |old(m.run)|)
    ensures s == Stopped ==> StopsFor(DeadNameNotice(dead, script), old(m.monitor).value, m.run, |old(m.run)|)
  {
    s := Serving;
    if m.space.pending[dead] > 0 {
      var res, n := m.DoMachNotifyDeadName(dead, script);
      s := match res { case Done => Serving case Retry => Trying case Quit => Stopped };
      if s == Serving {
        RecordsLeft(m, if old(m.monitor) == Some(dead) then {} else {dead});
      }
    }
  }

  method ServeOne(m: Server, msg: Message) returns (s: Service, ghost out: Outcome)
    requires m.Idle()
    modifies m.Repr
    ensures old(m.run) <= m.run
    ensures s == Serving ==> m.Idle() && m.OnlyNew() && Handled(msg, out, old(m.run), m.run)
    ensures s == Trying ==> TriesFor(msg, old(m.monitor).value, m.run, |old(m.run)|)
    ensures s == Stopped ==> StopsFor(msg, old(m.monitor).value, m.run, |old(m.run)|)
  {
    var quit := false;
    match msg {
      case MachPort(auth, name) => out := ServePort(m, auth, name);
      case TaskTerminate(_, _, _) => out := ServeCall(m, msg);
      case ThreadAssign(_, _, _, _) => out := ServeCall(m, msg);
      case ObjectPages(_, _, _, _) => out := ServeCall(m, msg);
      case MachRegister(auth, port, ptype) => quit, out := ServeRegister(m, auth, port, ptype);
      case HostPorts(auth, hostSelf, hostPrivSelf) => quit, out := ServeHostPorts(m, auth, hostSelf, hostPrivSelf);
      case TaskThreads(auth, task, threads) => quit, out := ServeThreads(m, auth, task, threads);
      case PagerObjects(auth, pager, objects, numObjects) =>
        quit, out := ServeObjects(m, auth, pager, objects, numObjects);
      case HostTasks(auth, host, sets) => quit, out := ServeTasks(m, auth, host, sets);
      case DeadNameNotice(dead, script) =>
        s := ServeNotice(m, dead, script);
        out := Noticed;
        return;
    }
    s := if quit then Stopped else Serving;
  }

  /** The run as it was before the first message and after each one, and what became of each. */
  datatype History = History(runs: seq<seq<State>>, outs: seq<Outcome>)

  ghost predicate ServedAt(h: History, messages: seq<Message>, k: nat)
    requires k < |messages| && k + 1 < |h.runs| && k < |h.outs|
  {
    h.runs[k] <= h.runs[k + 1] && Handled(messages[k], h.outs[k], h.runs[k], h.runs[k + 1])
  }

  /** The first `n` messages were handled, one after the other. */
  ghost predicate AllServed(h: History, messages: seq<Message>, n: nat) {
    && n <= |messages| && |h.runs| == n + 1 && |h.outs| == n
    && forall k: nat :: k < n ==> ServedAt(h, messages, k)
  }

  lemma AllServedSnoc(h: History, messages: seq<Message>, n: nat, out: Outcome, after: seq<State>)
    requires AllServed(h, messages, n) && n < |messages|
    requires h.runs[n] <= after && Handled(messages[n], out, h.runs[n], after)
    ensures AllServed(History(h.runs + [after], h.outs + [out]), messages, n + 1)
  {
    var h' := History(h.runs + [after], h.outs + [out]);
    forall k: nat | k < n + 1 ensures ServedAt(h', messages, k) {
      if k < n {
        assert ServedAt(h, messages, k);
      }
    }
  }

  /** How serving the messages ended, after `n` of them. */
  ghost predicate Ended(s: Service, messages: seq<Message>, n: nat, h: History, run: seq<State>) {
    && AllServed(h, messages, n) && h.runs[n] <= run
    && match s
       case Serving => n == |messages| && run == h.runs[n]
       case Trying =>
         && n < |messages| && Last(h.runs[n]).monitor.Some?
         && TriesFor(messages[n], Last(h.runs[n]).monitor.value, run, |h.runs[n]|)
       case Stopped =>
         && n < |messages| && Last(h.runs[n]).monitor.Some?
         && StopsFor(messages[n], Last(h.runs[n]).monitor.value, run, |h.runs[n]|)
  }

  /** Every reference that the kernel counts is banked, the monitor's or a notification's. */
  ghost predicate Accounted(a: State) {
    forall p :: Urefs(a.space, p) == Banked(a, p) + Monitored(a, p) + a.space.pending[p]
  }

  lemma IdleAccounts(m: Server)
    requires m.Idle()
    ensures Accounted(Last(m.run))
  {
    forall p ensures Urefs(m.space, p) == Banked(Last(m.run), p) + Monitored(Last(m.run), p) + m.space.pending[p] {
      Conservation(m.run, |m.run| - 1, p);
    }
  }

  /** The names given out by state `a` denote in `b` what they denoted then, or nothing. */
  ghost predicate NamesKept(a: State, b: State) {
    forall name: Name, p, t :: name < a.next && Bound(b, name, p, t) ==> Bound(a, name, p, t)
  }

  lemma RunKeepsNames(run: seq<State>, i: nat)
    requires FromStart(run) && i < |run|
    ensures NamesKept(run[i], Last(run))
  {
    forall name: Name, p, t | name < run[i].next && Bound(Last(run), name, p, t) ensures Bound(run[i], name, p, t) {
      NameStable(run, i, |run| - 1, name, p, t);
    }
  }

  /** Any messages, one after the other, each handled as it should be. As long as it serves, the
      server is idle in between: every reference that the kernel counts is banked, the monitor's or a
      notification's, and no name that was ever given out denotes anything else than it did. It
      stops only for the port that it watches or for the name server. */
  method Serve(m: Server, messages: seq<Message>) returns (s: Service, n: nat, ghost h: History)
    requires m.Idle()
    modifies m.Repr
    ensures Ended(s, messages, n, h, m.run) && h.runs[0] == old(m.run) && old(m.run) <= m.run
    ensures s == Serving ==> m.Idle() && m.OnlyNew()
    ensures s == Serving ==> Accounted(Last(m.run)) && NamesKept(old(Last(m.run)), Last(m.run))
  {
    s, n, h := Serving, 0, History([m.run], []);
    while n < |messages|
      invariant n <= |messages| && s == Serving && m.Idle() && m.OnlyNew() && old(m.run) <= m.run
      invariant AllServed(h, messages, n) && h.runs[0] == old(m.run) && h.runs[n] == m.run
    {
      ghost var out;
      s, out := ServeOne(m, messages[n]);
      if s != Serving {
        return;
      }
      AllServedSnoc(h, messages, n, out, m.run);
      h := History(h.runs + [m.run], h.outs + [out]);
      n := n + 1;
    }
    IdleAccounts(m);
    RunKeepsNames(m.run, |old(m.run)| - 1);
  }

  /** The life of a server, from nothing: it checks in, and then serves. */
  method Live(fate: Fate, script: seq<Attempt>, messages: seq<Message>)
    returns (s: Service, m: Server, k: nat, n: nat, ghost h: History)
    ensures fresh(m) && k <= |script| && |h.runs| > 0 && |h.runs[0]| > 0 && h.runs[0][0] == Initial(fate)
    ensures Tried(script, k, h.runs[0], 1)
    ensures k == |script| ==> s == Trying
    ensures k < |script| ==>
              || (s == Stopped && QuitFor(script[k], h.runs[0], 1))
              || (&& Last(h.runs[0]).monitor.Some?
                  && script[k] == Attempt(Answer(Last(h.runs[0]).monitor.value), CheckInOk)
                  && Ended(s, messages, n, h, m.run))
    ensures s == Serving ==> k < |script| && m.Idle() && Accounted(Last(m.run))
  {
    m := new Server(fate);
    var res;
    res, k := m.DoCheckIn(false, script);
    n, h := 0, History([m.run], []);
    match res {
      case Retry => s := Trying;
      case Quit => s := Stopped;
      case Done => s, n, h := Serve(m, messages);
    }
  }
}
