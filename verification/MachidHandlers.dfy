/**
 Request handlers of the machid server (bin/machid/machid_procs.c, machid_dpager_procs.c). The
 message has put a reference for `auth` in the server's hands. What the kernel and the pager
 answer to the server's own calls comes in as a parameter; ports in an answer arrive as
 references too. A handler keeps `auth` and everything else as it was when it fails, and takes
 `auth` when it succeeds; no other reference is left over.
 */
module MachidHandlers {
  import opened Options
  import opened MachKernel
  import opened PortTables
  import opened MachidMachine
  import opened MachidServer

  datatype KernError =
    | InvalidHostPriv | InvalidTask | InvalidThread | InvalidProcessorSet | InvalidDefaultPager
    | InvalidMemoryObject | InvalidMachName | ProtectionFailure | Failure | Remote(code: nat)

  datatype Status = KernSuccess | KernFail(error: KernError)

  datatype Answer<T> = Ok(value: T) | Err(code: nat)

  /** The status of a call on a name: the error for a name that is not bound, or protection, or
      what the remote call answers. */
  function Reply<T>(v: Verdict, badName: KernError, answer: Answer<T>): Status {
    match v
    case NoSuchName => KernFail(badName)
    case Refused => KernFail(ProtectionFailure)
    case Granted => if answer.Ok? then KernSuccess else KernFail(Remote(answer.code))
  }

  /** The status, said of the records. */
  lemma ReplyIs<T>(a: State, name: Name, auth: Port, op: Op, badName: KernError, answer: Answer<T>)
    requires NamesDistinct(a)
    ensures var st := Reply(Decision(a, name, auth, op), badName, answer);
            && ((forall p :: !HasName(a, p, name)) ==> st == KernFail(badName))
            && forall p :: HasName(a, p, name) ==>
                 st == if !Authorized(a, p, auth, op) then KernFail(ProtectionFailure)
                       else if answer.Err? then KernFail(Remote(answer.code)) else KernSuccess
  {
    forall p | HasName(a, p, name)
      ensures Decision(a, name, auth, op) == if Authorized(a, p, auth, op) then Granted else Refused
    {
      DecisionIs(a, p, name, auth, op);
    }
  }

  /** The references that come with a list of ports. */
  function Refs(ports: seq<Port>): multiset<Port> {
    if ports == [] then multiset{} else RefOf(ports[0]) + Refs(ports[1..])
  }

  lemma RefsAppend(ports: seq<Port>, more: seq<Port>)
    ensures Refs(ports + more) == Refs(ports) + Refs(more)
  {
    if ports == [] {
      assert ports + more == more;
    } else {
      assert (ports + more)[1..] == ports[1..] + more;
    }
  }

  lemma PlusMinus(base: multiset<Port>, more: multiset<Port>)
    ensures more <= base + more && base + more - more == base
  {
  }

  lemma MinusRoom(base: multiset<Port>, x: multiset<Port>, y: multiset<Port>)
    requires x + y <= base
    ensures y <= base - x
  {
  }

  /** The one handler that passes its reference on to the client. */
  method DoMachPort(m: Server, auth: Port, name: Name) returns (st: Status, port: Port)
    requires m.Valid() && RefOf(auth) <= m.owned
    modifies m`space, m`run, m`owned, m.tables.recs.Values`urefs
    ensures m.Valid() && old(m.run) <= m.run && Quiet(old(Last(m.run)), Last(m.run))
    ensures st == Reply(Decision(old(Last(m.run)), name, auth, OpPort), InvalidMachName, Ok(()))
    ensures st == KernSuccess ==> m.IsNameOf(port, name)
    ensures m.owned == if st == KernSuccess then old(m.owned) - RefOf(auth) + multiset{port} else old(m.owned)
    ensures (forall p :: !HasName(old(Last(m.run)), p, name)) ==> st == KernFail(InvalidMachName)
    ensures forall p :: HasName(old(Last(m.run)), p, name) ==>
              st == if Authorized(old(Last(m.run)), p, auth, OpPort) then KernSuccess else KernFail(ProtectionFailure)
  {
    m.Healthy();
    ReplyIs(Last(m.run), name, auth, OpPort, InvalidMachName, Ok(()));
    ghost var base := m.owned;
    var res := m.Acquire(name, auth, OpPort);
    st := Reply(VerdictOf(res), InvalidMachName, Ok(()));
    port := if res.Found? then res.port else MACH_PORT_NULL;
    ghost var a := Last(m.run);
    PassOn(m, auth, port, st, base);
    QuietTrans(old(Last(m.run)), a, Last(m.run));
  }

  /** The end of do_mach_port: a reference for `auth`. */
  method PassOn(m: Server, auth: Port, ghost port: Port, st: Status, ghost base: multiset<Port>)
    requires m.Valid() && RefOf(auth) <= base
    requires m.owned == base + if st == KernSuccess then multiset{port} else multiset{}
    modifies m`space, m`run, m`owned, m.tables.recs.Values`urefs
    ensures m.Valid() && old(m.run) <= m.run && Quiet(old(Last(m.run)), Last(m.run))
    ensures m.owned == if st == KernSuccess then base - RefOf(auth) + multiset{port} else base
  {
    PassedOn(base, auth, port);
    Settle(m, auth, st);
  }

  lemma PassedOn(base: multiset<Port>, auth: Port, port: Port)
    requires RefOf(auth) <= base
    ensures RefOf(auth) <= base + multiset{port}
    ensures base + multiset{port} - RefOf(auth) == base - RefOf(auth) + multiset{port}
  {
  }

  method DoMachRegister(m: Server, auth: Port, port: Port, ptype: MachType) returns (quit: bool, name: Name)
    requires m.Valid() && RefOf(auth) + RefOf(port) <= m.owned
    modifies m.Repr
    ensures quit ==> old(m.monitor) == Some(port)
    ensures old(m.run) <= m.run
    ensures !quit ==> m.Valid() && m.OnlyNew() && m.monitor == old(m.monitor) && name == m.NameOf(port)
    ensures !quit ==> m.owned == old(m.owned) - RefOf(port) - RefOf(auth)
    ensures !quit ==> Recorded(old(Last(m.run)), Last(m.run), port, ptype)
  {
    MinusRoom(m.owned, RefOf(port), RefOf(auth));
    quit, name := m.NameIt(port, ptype);
    if !quit {
      ghost var a := Last(m.run);
      m.ConsumeIt(auth);
      RecordedThenKept(old(Last(m.run)), a, Last(m.run), port, ptype);
    }
  }

  /** Look a name up, make the call, and hand the reference back. */
  method AskOne(m: Server, auth: Port, name: Name, op: Op, badName: KernError, answer: Answer<()>)
    returns (st: Status)
    requires m.Valid()
    modifies m`space, m`run, m`owned, m.tables.recs.Values`urefs
    ensures m.Valid() && m.owned == old(m.owned) && old(m.run) <= m.run
    ensures st == Reply(Decision(old(Last(m.run)), name, auth, op), badName, answer)
    ensures Quiet(old(Last(m.run)), Last(m.run))
  {
    var res := m.Acquire(name, auth, op);
    st := Reply(VerdictOf(res), badName, answer);
    if res.Found? {
      ghost var a := Last(m.run);
      m.ReturnIt(res.port);
      QuietTrans(old(Last(m.run)), a, Last(m.run));
    }
  }

  /** The end of a handler: `auth` is taken exactly when it succeeds. */
  method Settle(m: Server, auth: Port, st: Status)
    requires m.Valid() && RefOf(auth) <= m.owned
    modifies m`space, m`run, m`owned, m.tables.recs.Values`urefs
    ensures m.Valid() && old(m.run) <= m.run && Quiet(old(Last(m.run)), Last(m.run))
    ensures m.owned == if st == KernSuccess then old(m.owned) - RefOf(auth) else old(m.owned)
  {
    if st == KernSuccess {
      m.AuthConsume(auth);
    }
    m.Quietly();
  }

  /** The shape of do_task_terminate and its like: one object, one call. */
  method OnePortCall(m: Server, auth: Port, name: Name, op: Op, badName: KernError, answer: Answer<()>)
    returns (st: Status)
    requires m.Valid() && RefOf(auth) <= m.owned
    modifies m`space, m`run, m`owned, m.tables.recs.Values`urefs
    ensures m.Valid() && old(m.run) <= m.run && Quiet(old(Last(m.run)), Last(m.run))
    ensures m.owned == if st == KernSuccess then old(m.owned) - RefOf(auth) else old(m.owned)
    ensures st == Reply(Decision(old(Last(m.run)), name, auth, op), badName, answer)
    ensures (forall p :: !HasName(old(Last(m.run)), p, name)) ==> st == KernFail(badName)
    ensures forall p :: HasName(old(Last(m.run)), p, name) ==>
              st == if !Authorized(old(Last(m.run)), p, auth, op) then KernFail(ProtectionFailure)
                    else if answer.Err? then KernFail(Remote(answer.code)) else KernSuccess
  {
    m.Healthy();
    ReplyIs(Last(m.run), name, auth, op, badName, answer);
    st := AskOne(m, auth, name, op, badName, answer);
    ghost var a := Last(m.run);
    Settle(m, auth, st);
    QuietTrans(old(Last(m.run)), a, Last(m.run));
  }

  method DoTaskTerminate(m: Server, auth: Port, task: Name, answer: Answer<()>) returns (st: Status)
    requires m.Valid() && RefOf(auth) <= m.owned
    modifies m`space, m`run, m`owned, m.tables.recs.Values`urefs
    ensures m.Valid() && old(m.run) <= m.run && Quiet(old(Last(m.run)), Last(m.run))
    ensures m.owned == if st == KernSuccess then old(m.owned) - RefOf(auth) else old(m.owned)
    ensures st == Reply(Decision(old(Last(m.run)), task, auth, OpWrite), InvalidTask, answer)
    ensures (forall p :: !HasName(old(Last(m.run)), p, task)) ==> st == KernFail(InvalidTask)
    ensures forall p :: HasName(old(Last(m.run)), p, task) ==>
              st == if !Authorized(old(Last(m.run)), p, auth, OpWrite) then KernFail(ProtectionFailure)
                    else if answer.Err? then KernFail(Remote(answer.code)) else KernSuccess
  {
    st := OnePortCall(m, auth, task, OpWrite, InvalidTask, answer);
  }

  /** The same for two names: the first that is not granted decides. */
  function Both(v: Verdict, badFirst: KernError, w: Verdict, badSecond: KernError, answer: Answer<()>): Status {
    if v != Granted then Reply(v, badFirst, answer) else Reply(w, badSecond, answer)
  }

  /** One call while another reference is held, which then goes back. */
  method AskAnd(m: Server, auth: Port, name: Name, op: Op, badName: KernError, answer: Answer<()>,
                held: Port, ghost base: multiset<Port>, ghost v: Verdict)
    returns (st: Status)
    requires m.Valid() && held in m.tables.recs && m.owned == base + multiset{held}
    requires v == Decision(Last(m.run), name, auth, op)
    modifies m`space, m`run, m`owned, m.tables.recs.Values`urefs
    ensures old(m.run) <= m.run
    ensures m.Valid() && m.owned == base && st == Reply(v, badName, answer)
    ensures Quiet(old(Last(m.run)), Last(m.run))
  {
    st := AskOne(m, auth, name, op, badName, answer);
    ghost var a := Last(m.run);
    PlusMinus(base, multiset{held});
    m.ReturnIt(held);
    QuietTrans(old(Last(m.run)), a, Last(m.run));
  }

  /** The second look-up and the call, if the first succeeded. */
  method AskSecond(m: Server, auth: Port, res: LookupResult, second: Name, op: Op, badFirst: KernError,
                   badSecond: KernError, answer: Answer<()>, ghost base: multiset<Port>, ghost w: Verdict)
    returns (st: Status)
    requires m.Valid() && w == Decision(Last(m.run), second, auth, op)
    requires res.Found? ==> res.port in m.tables.recs
    requires m.owned == base + if res.Found? then multiset{res.port} else multiset{}
    modifies m`space, m`run, m`owned, m.tables.recs.Values`urefs
    ensures old(m.run) <= m.run
    ensures m.Valid() && m.owned == base && st == Both(VerdictOf(res), badFirst, w, badSecond, answer)
    ensures Quiet(old(Last(m.run)), Last(m.run))
  {
    m.Quietly();
    st := Reply(VerdictOf(res), badFirst, answer);
    if res.Found? {
      st := AskAnd(m, auth, second, op, badSecond, answer, res.port, base, w);
    }
  }

  /** Look up two names; if the second is refused, the first reference goes back. */
  method AskBoth(m: Server, auth: Port, first: Name, second: Name, op: Op,
                 badFirst: KernError, badSecond: KernError, answer: Answer<()>, ghost v: Verdict, ghost w: Verdict)
    returns (st: Status)
    requires m.Valid()
    requires v == Decision(Last(m.run), first, auth, op) && w == Decision(Last(m.run), second, auth, op)
    modifies m`space, m`run, m`owned, m.tables.recs.Values`urefs
    ensures old(m.run) <= m.run
    ensures m.Valid() && m.owned == old(m.owned) && st == Both(v, badFirst, w, badSecond, answer)
    ensures Quiet(old(Last(m.run)), Last(m.run))
  {
    ghost var base := m.owned;
    var res := m.AcquireKeeping(first, auth, op, second, v, w);
    ghost var a := Last(m.run);
    st := AskSecond(m, auth, res, second, op, badFirst, badSecond, answer, base, w);
    QuietTrans(old(Last(m.run)), a, Last(m.run));
  }

  /** The status of a call on two objects, said of the records. */
  lemma BothIs(a: State, first: Name, second: Name, auth: Port, op: Op,
               badFirst: KernError, badSecond: KernError, answer: Answer<()>)
    requires NamesDistinct(a)
    ensures var st := Both(Decision(a, first, auth, op), badFirst, Decision(a, second, auth, op), badSecond, answer);
            && ((forall p :: !HasName(a, p, first)) ==> st == KernFail(badFirst))
            && (forall p :: HasName(a, p, first) && !Authorized(a, p, auth, op) ==> st == KernFail(ProtectionFailure))
            && forall p :: HasName(a, p, first) && Authorized(a, p, auth, op) ==>
                 && ((forall q :: !HasName(a, q, second)) ==> st == KernFail(badSecond))
                 && forall q :: HasName(a, q, second) ==>
                      st == if !Authorized(a, q, auth, op) then KernFail(ProtectionFailure)
                            else if answer.Err? then KernFail(Remote(answer.code)) else KernSuccess
  {
    ReplyIs(a, first, auth, op, badFirst, answer);
    ReplyIs(a, second, auth, op, badSecond, answer);
  }

  /** The shape of do_thread_assign and do_default_pager_object_pages: two objects, one call. */
  method TwoPortCall(m: Server, auth: Port, first: Name, second: Name, op: Op,
                     badFirst: KernError, badSecond: KernError, answer: Answer<()>)
    returns (st: Status)
    requires m.Valid() && RefOf(auth) <= m.owned
    modifies m`space, m`run, m`owned, m.tables.recs.Values`urefs
    ensures m.Valid() && old(m.run) <= m.run && Quiet(old(Last(m.run)), Last(m.run))
    ensures m.owned == if st == KernSuccess then old(m.owned) - RefOf(auth) else old(m.owned)
    ensures st == Both(Decision(old(Last(m.run)), first, auth, op), badFirst,
                       Decision(old(Last(m.run)), second, auth, op), badSecond, answer)
    ensures (forall p :: !HasName(old(Last(m.run)), p, first)) ==> st == KernFail(badFirst)
    ensures forall p :: HasName(old(Last(m.run)), p, first) && !Authorized(old(Last(m.run)), p, auth, op) ==>
              st == KernFail(ProtectionFailure)
    ensures forall p :: HasName(old(Last(m.run)), p, first) && Authorized(old(Last(m.run)), p, auth, op) ==>
              && ((forall q :: !HasName(old(Last(m.run)), q, second)) ==> st == KernFail(badSecond))
              && forall q :: HasName(old(Last(m.run)), q, second) ==>
                   st == if !Authorized(old(Last(m.run)), q, auth, op) then KernFail(ProtectionFailure)
                         else if answer.Err? then KernFail(Remote(answer.code)) else KernSuccess
  {
    m.Healthy();
    BothIs(Last(m.run), first, second, auth, op, badFirst, badSecond, answer);
    st := AskBoth(m, auth, first, second, op, badFirst, badSecond, answer,
                  Decision(Last(m.run), first, auth, op), Decision(Last(m.run), second, auth, op));
    ghost var a := Last(m.run);
    Settle(m, auth, st);
    QuietTrans(old(Last(m.run)), a, Last(m.run));
  }

  method DoThreadAssign(m: Server, auth: Port, thread: Name, pset: Name, answer: Answer<()>)
    returns (st: Status)
    requires m.Valid() && RefOf(auth) <= m.owned
    modifies m`space, m`run, m`owned, m.tables.recs.Values`urefs
    ensures m.Valid() && old(m.run) <= m.run && Quiet(old(Last(m.run)), Last(m.run))
    ensures m.owned == if st == KernSuccess then old(m.owned) - RefOf(auth) else old(m.owned)
    ensures st == Both(Decision(old(Last(m.run)), thread, auth, OpWrite), InvalidThread,
                       Decision(old(Last(m.run)), pset, auth, OpWrite), InvalidProcessorSet, answer)
    ensures (forall p :: !HasName(old(Last(m.run)), p, thread)) ==> st == KernFail(InvalidThread)
    ensures forall p :: HasName(old(Last(m.run)), p, thread) && !Authorized(old(Last(m.run)), p, auth, OpWrite) ==>
              st == KernFail(ProtectionFailure)
    ensures forall p :: HasName(old(Last(m.run)), p, thread) && Authorized(old(Last(m.run)), p, auth, OpWrite) ==>
              && ((forall q :: !HasName(old(Last(m.run)), q, pset)) ==> st == KernFail(InvalidProcessorSet))
              && forall q :: HasName(old(Last(m.run)), q, pset) ==>
                   st == if !Authorized(old(Last(m.run)), q, auth, OpWrite) then KernFail(ProtectionFailure)
                         else if answer.Err? then KernFail(Remote(answer.code)) else KernSuccess
  {
    st := TwoPortCall(m, auth, thread, pset, OpWrite, InvalidThread, InvalidProcessorSet, answer);
  }

  method DoDefaultPagerObjectPages(m: Server, auth: Port, defaultPager: Name, memObject: Name, answer: Answer<()>)
    returns (st: Status)
    requires m.Valid() && RefOf(auth) <= m.owned
    modifies m`space, m`run, m`owned, m.tables.recs.Values`urefs
    ensures m.Valid() && old(m.run) <= m.run && Quiet(old(Last(m.run)), Last(m.run))
    ensures m.owned == if st == KernSuccess then old(m.owned) - RefOf(auth) else old(m.owned)
    ensures st == Both(Decision(old(Last(m.run)), defaultPager, auth, OpInfo), InvalidDefaultPager,
                       Decision(old(Last(m.run)), memObject, auth, OpInfo), InvalidMemoryObject, answer)
    ensures (forall p :: !HasName(old(Last(m.run)), p, defaultPager)) ==> st == KernFail(InvalidDefaultPager)
    ensures forall p :: HasName(old(Last(m.run)), p, defaultPager) && !Authorized(old(Last(m.run)), p, auth, OpInfo) ==>
              st == KernFail(ProtectionFailure)
    ensures forall p :: HasName(old(Last(m.run)), p, defaultPager) && Authorized(old(Last(m.run)), p, auth, OpInfo) ==>
              && ((forall q :: !HasName(old(Last(m.run)), q, memObject)) ==> st == KernFail(InvalidMemoryObject))
              && forall q :: HasName(old(Last(m.run)), q, memObject) ==>
                   st == if !Authorized(old(Last(m.run)), q, auth, OpInfo) then KernFail(ProtectionFailure)
                         else if answer.Err? then KernFail(Remote(answer.code)) else KernSuccess
  {
    st := TwoPortCall(m, auth, defaultPager, memObject, OpInfo, InvalidDefaultPager, InvalidMemoryObject, answer);
  }

  /** Each port came through, or was none, or had died since. */
  ghost predicate Arrived(ports: seq<Port>, got: seq<Port>, run: seq<State>, from: nat) {
    if ports == [] then got == []
    else
      && got != [] && Arrived(ports[..|ports| - 1], got[..|got| - 1], run, from)
      && Came(ports[|ports| - 1], got[|got| - 1], run, from)
  }

  lemma {:induction false} ArrivedGrows(ports: seq<Port>, got: seq<Port>, run: seq<State>, from: nat,
                                        run': seq<State>, from': nat)
    requires Arrived(ports, got, run, from) && run <= run' && from' <= from
    ensures Arrived(ports, got, run', from')
  {
    if ports != [] {
      ArrivedGrows(ports[..|ports| - 1], got[..|got| - 1], run, from, run', from');
      CameGrows(ports[|ports| - 1], got[|got| - 1], run, from, run', from');
    }
  }

  lemma ArrivedSnoc(ports: seq<Port>, i: nat, got: seq<Port>, q: Port, run: seq<State>, from: nat,
                    run': seq<State>, from': nat)
    requires i < |ports| && Arrived(ports[..i], got, run, from)
    requires run <= run' && from <= from' && Came(ports[i], q, run', from')
    ensures Arrived(ports[..i + 1], got + [q], run', from)
  {
    ArrivedGrows(ports[..i], got, run, from, run', from);
    CameGrows(ports[i], q, run', from', run', from);
    assert ports[..i + 1][..i] == ports[..i];
    assert (got + [q])[..|got|] == got;
  }

  lemma {:induction false} ArrivedLength(ports: seq<Port>, got: seq<Port>, run: seq<State>, from: nat)
    requires Arrived(ports, got, run, from)
    ensures |got| == |ports|
  {
    if ports != [] {
      ArrivedLength(ports[..|ports| - 1], got[..|got| - 1], run, from);
    }
  }

  /** A valid port that came had been sent. */
  lemma {:induction false} ArrivedSent(ports: seq<Port>, got: seq<Port>, run: seq<State>, from: nat, i: nat)
    requires Arrived(ports, got, run, from) && i < |got| && PortValid(got[i])
    ensures i < |ports| && got[i] == ports[i]
  {
    var n := |got| - 1;
    ArrivedLength(ports, got, run, from);
    if i < n {
      ArrivedSent(ports[..n], got[..n], run, from, i);
    }
  }

  /** Ports that are not to die by the end of the run all arrive. */
  lemma {:induction false} SparedArrive(ports: seq<Port>, got: seq<Port>, run: seq<State>, from: nat)
    requires FromStart(run) && Arrived(ports, got, run, from)
    requires forall p :: p in ports ==> PortValid(p) && !Doomed(Last(run).space.fate, p, Last(run).space.time)
    ensures got == ports
  {
    if ports != [] {
      var n := |ports| - 1;
      ArrivedLength(ports, got, run, from);
      SparedArrive(ports[..n], got[..n], run, from);
      SparedComes(ports[n], got[n], run, from);
      assert ports == ports[..n] + [ports[n]] && got == got[..n] + [got[n]];
    }
  }

  /** The ports of an answer arrive; one that died on the way is no port any more. */
  method ReceivePorts(m: Server, ports: seq<Port>) returns (got: seq<Port>)
    requires m.Valid()
    modifies m`space, m`run, m`owned
    ensures m.Valid() && old(m.run) <= m.run && Arrived(ports, got, m.run, |old(m.run)|)
    ensures m.owned == old(m.owned) + Refs(got)
  {
    got := [];
    for i := 0 to |ports|
      invariant m.Valid() && old(m.run) <= m.run && Arrived(ports[..i], got, m.run, |old(m.run)|)
      invariant m.owned == old(m.owned) + Refs(got)
    {
      ghost var run := m.run;
      var q := m.ReceiveRight(ports[i]);
      RefsSnoc(old(m.owned), got, q);
      ArrivedSnoc(ports, i, got, q, run, |old(m.run)|, m.run, |run|);
      got := got + [q];
    }
    assert ports[..|ports|] == ports;
  }

  lemma RefsSnoc(base: multiset<Port>, ports: seq<Port>, p: Port)
    ensures base + Refs(ports) + RefOf(p) == base + Refs(ports + [p])
  {
    RefsAppend(ports, [p]);
    assert Refs([p]) == RefOf(p) + Refs([]);
  }

  lemma RefsFirst(ports: seq<Port>, i: nat)
    requires i < |ports|
    ensures Refs(ports[i..]) == RefOf(ports[i]) + Refs(ports[i + 1..])
  {
    assert ports[i..][1..] == ports[i + 1..];
  }

  method ReleaseNext(m: Server, ports: seq<Port>, i: nat, ghost rest: multiset<Port>)
    requires m.Valid() && i < |ports| && m.owned == rest + Refs(ports[i..])
    modifies m`space, m`run, m`owned
    ensures m.Valid() && m.owned == rest + Refs(ports[i + 1..]) && old(m.run) <= m.run
  {
    RefsFirst(ports, i);
    if PortValid(ports[i]) {
      m.ReleaseRight(ports[i]);
    }
  }

  /** Give a list of ports back to the kernel, each valid one once. */
  method ReleaseAll(m: Server, ports: seq<Port>)
    requires m.Valid() && Refs(ports) <= m.owned
    modifies m`space, m`run, m`owned
    ensures m.Valid() && m.owned == old(m.owned) - Refs(ports) && old(m.run) <= m.run
  {
    ghost var rest := m.owned - Refs(ports);
    assert ports[0..] == ports;
    for i := 0 to |ports|
      invariant m.Valid() && m.owned == rest + Refs(ports[i..]) && old(m.run) <= m.run
    {
      ReleaseNext(m, ports, i, rest);
    }
  }

  /** One turn of a listing loop: the names so far, and the name of the next port. */
  method NameNext(m: Server, ports: seq<Port>, i: nat, names: seq<Name>, ptype: MachType,
                  t1: MachType, n1: Name, t2: MachType, n2: Name, ghost start: State, ghost rest: multiset<Port>)
    returns (quit: bool, names': seq<Name>)
    requires m.Valid() && i < |ports| && m.owned == rest + Refs(ports[i..])
    requires n1 < m.next && n2 < m.next && t1 != t2
    requires Grows(start, Last(m.run), Tags(t1, n1, t2, n2))
    requires AllSettled(Last(m.run), ports[..i], names, Tags(t1, n1, t2, n2))
    requires AllNewOf(start, Last(m.run), ptype) && Touched(start, Last(m.run), Marks(ports, Tags(t1, n1, t2, n2)))
    modifies m.Repr
    ensures quit ==> old(m.monitor) == Some(ports[i])
    ensures old(m.run) <= m.run
    ensures !quit ==> m.Valid() && m.OnlyNew() && m.owned == rest + Refs(ports[i + 1..])
    ensures !quit ==> Grows(start, Last(m.run), Tags(t1, n1, t2, n2)) && old(m.next) <= m.next
    ensures !quit ==> m.monitor == old(m.monitor)
    ensures !quit ==> AllSettled(Last(m.run), ports[..i + 1], names', Tags(t1, n1, t2, n2))
    ensures !quit ==> AllNewOf(start, Last(m.run), ptype) && Touched(start, Last(m.run), Marks(ports, Tags(t1, n1, t2, n2)))
  {
    RefsFirst(ports, i);
    ghost var a := Last(m.run);
    var name;
    quit, name := m.NameAndTag(ports[i], ptype, t1, n1, t2, n2);
    names' := names + [name];
    if !quit {
      AllSettledSnoc(a, Last(m.run), ports, i, names, name, Tags(t1, n1, t2, n2));
      GrownTrans(start, a, Last(m.run), Tags(t1, n1, t2, n2));
      NewcomersTrans(start, a, Last(m.run), ptype, Tags(t1, n1, t2, n2));
      MarksOfOne(ports, ports[i], Tags(t1, n1, t2, n2), Tags(t1, n1, t2, n2));
      TouchedOn(start, a, Last(m.run), Marks(ports, Tags(t1, n1, t2, n2)),
                Marks([ports[i]], Tags(t1, n1, t2, n2)), Marks(ports, Tags(t1, n1, t2, n2)));
    }
  }

  lemma WholeList(ports: seq<Port>)
    ensures ports[0..] == ports[..|ports|] == ports && ports[..0] == ports[|ports|..] == []
  {
  }

  /** Turn a list of ports into their exported names, each tagged with two associations. The names
      are in the order of the ports, and every reference is taken. */
  method NameAll(m: Server, ports: seq<Port>, ptype: MachType, t1: MachType, n1: Name, t2: MachType, n2: Name)
    returns (quit: bool, names: seq<Name>)
    requires m.Valid() && Refs(ports) <= m.owned && n1 < m.next && n2 < m.next && t1 != t2
    modifies m.Repr
    ensures quit ==> old(m.monitor).Some? && old(m.monitor).value in ports
    ensures old(m.run) <= m.run
    ensures !quit ==> m.Valid() && m.OnlyNew() && m.owned == old(m.owned) - Refs(ports)
    ensures !quit ==> Grows(old(Last(m.run)), Last(m.run), Tags(t1, n1, t2, n2))
    ensures !quit ==> AllSettled(Last(m.run), ports, names, Tags(t1, n1, t2, n2))
    ensures !quit ==> AllNewOf(old(Last(m.run)), Last(m.run), ptype)
    ensures !quit ==> Touched(old(Last(m.run)), Last(m.run), Marks(ports, Tags(t1, n1, t2, n2)))
  {
    ghost var start, rest := Last(m.run), m.owned - Refs(ports);
    NoNewcomers(start, start, ptype);
    WholeList(ports);
    names, quit := [], false;
    for i := 0 to |ports|
      invariant m.Valid() && m.OnlyNew() && m.owned == rest + Refs(ports[i..]) && old(m.run) <= m.run
      invariant n1 < m.next && n2 < m.next && m.monitor == old(m.monitor)
      invariant Grows(start, Last(m.run), Tags(t1, n1, t2, n2))
      invariant AllSettled(Last(m.run), ports[..i], names, Tags(t1, n1, t2, n2))
      invariant AllNewOf(start, Last(m.run), ptype) && Touched(start, Last(m.run), Marks(ports, Tags(t1, n1, t2, n2)))
    {
      quit, names := NameNext(m, ports, i, names, ptype, t1, n1, t2, n2, start, rest);
      if quit {
        assert ports[i] in ports;
        return;
      }
    }
    quit := false;
  }

  /** The first half of a listing handler: look up the object, ask for its ports, and hand the
      object's reference back. */
  method FetchPorts(m: Server, auth: Port, name: Name, badName: KernError, answer: Answer<seq<Port>>)
    returns (st: Status, got: seq<Port>)
    requires m.Valid()
    modifies m`space, m`run, m`owned, m.tables.recs.Values`urefs
    ensures m.Valid()
    ensures st == Reply(Decision(old(Last(m.run)), name, auth, OpInfo), badName, answer)
    ensures old(m.run) <= m.run && (st == KernSuccess ==> name < m.next)
    ensures st == KernSuccess ==> exists p :: HasName(old(Last(m.run)), p, name)
    ensures st == KernSuccess ==> answer.Ok? && Arrived(answer.value, got, m.run, |old(m.run)|)
    ensures m.owned == if st == KernSuccess then old(m.owned) + Refs(got) else old(m.owned)
    ensures Quiet(old(Last(m.run)), Last(m.run))
  {
    got := [];
    var res := m.Acquire(name, auth, OpInfo);
    st := Reply(VerdictOf(res), badName, answer);
    if res.Found? {
      m.NamesIssued();
      got := TakePorts(m, res.port, answer, old(m.owned), |old(m.run)|);
    }
    m.Quietly();
  }

  /** The answer's ports arrive and the object's reference goes back. */
  method TakePorts(m: Server, held: Port, answer: Answer<seq<Port>>, ghost base: multiset<Port>, ghost from: nat)
    returns (got: seq<Port>)
    requires m.Valid() && held in m.tables.recs && m.owned == base + multiset{held} && from <= |m.run|
    modifies m`space, m`run, m`owned, m.tables.recs.Values`urefs
    ensures m.Valid() && m.owned == base + Refs(got) && old(m.run) <= m.run
    ensures if answer.Ok? then Arrived(answer.value, got, m.run, from) else got == []
  {
    got := [];
    if answer.Ok? {
      got := ReceivePorts(m, answer.value);
    }
    ghost var run := m.run;
    HeldBack(base, held, got);
    m.PortConsume(held);
    if answer.Ok? {
      ArrivedGrows(answer.value, got, run, |old(m.run)|, m.run, from);
    }
  }

  lemma HeldBack(base: multiset<Port>, held: Port, got: seq<Port>)
    ensures var all := base + multiset{held} + Refs(got);
            all[held] > 0 && all - multiset{held} == base + Refs(got)
  {
  }

  /** The first half, followed by assoc_lookup of the object's privileged host port. */
  method FetchPortsAndHost(m: Server, auth: Port, name: Name, badName: KernError, answer: Answer<seq<Port>>)
    returns (st: Status, got: seq<Port>, host: Name)
    requires m.Valid()
    modifies m`space, m`run, m`owned, m.tables.recs.Values`urefs
    ensures m.Valid() && host < m.next
    ensures st == Reply(Decision(old(Last(m.run)), name, auth, OpInfo), badName, answer)
    ensures old(m.run) <= m.run && (st == KernSuccess ==> name < m.next)
    ensures st == KernSuccess ==> answer.Ok? && Arrived(answer.value, got, m.run, |old(m.run)|)
    ensures m.owned == if st == KernSuccess then old(m.owned) + Refs(got) else old(m.owned)
    ensures st == KernSuccess ==>
              exists p :: HasName(old(Last(m.run)), p, name) && host == AssocGet(old(Last(m.run)).recs[p].assocs, HostPriv)
    ensures Quiet(old(Last(m.run)), Last(m.run))
  {
    st, got := FetchPorts(m, auth, name, badName, answer);
    ghost var a := Last(m.run);
    host := HostName(m, name);
    if st == KernSuccess {
      HostSince(old(Last(m.run)), a, name, host);
    }
  }

  /** The privileged host port of the object of a name is the one it was. */
  lemma HostSince(a: State, b: State, name: Name, host: Name)
    requires Quiet(a, b)
    requires exists p :: HasName(a, p, name)
    requires forall p :: HasName(b, p, name) ==> host == AssocGet(b.recs[p].assocs, HostPriv)
    ensures exists p :: HasName(a, p, name) && host == AssocGet(a.recs[p].assocs, HostPriv)
  {
    var p :| HasName(a, p, name);
    assert SameRecord(a.recs[p], b.recs[p]);
    assert HasName(b, p, name);
  }

  /** assoc_lookup of the privileged host port, seen on states. */
  method HostName(m: Server, name: Name) returns (host: Name)
    requires m.Valid()
    ensures host < m.next
    ensures forall p :: HasName(Last(m.run), p, name) ==> host == AssocGet(Last(m.run).recs[p].assocs, HostPriv)
  {
    host := m.AssocLookup(name, HostPriv);
  }

  /** The second half of a listing handler: name the ports, then take `auth`. */
  method NameAndFinish(m: Server, auth: Port, ports: seq<Port>, ptype: MachType,
                       t1: MachType, n1: Name, t2: MachType, n2: Name)
    returns (quit: bool, names: seq<Name>)
    requires m.Valid() && RefOf(auth) + Refs(ports) <= m.owned && n1 < m.next && n2 < m.next && t1 != t2
    modifies m.Repr
    ensures quit ==> old(m.monitor).Some? && old(m.monitor).value in ports
    ensures old(m.run) <= m.run
    ensures !quit ==> m.Valid() && m.OnlyNew() && m.owned == old(m.owned) - Refs(ports) - RefOf(auth)
    ensures !quit ==> Undisturbed(old(Last(m.run)), Last(m.run), Marks(ports, Tags(t1, n1, t2, n2)))
    ensures !quit ==> AllSettled(Last(m.run), ports, names, Tags(t1, n1, t2, n2))
    ensures !quit ==> AllNewOf(old(Last(m.run)), Last(m.run), ptype)
  {
    quit, names := NameAll(m, ports, ptype, t1, n1, t2, n2);
    if !quit {
      ghost var a := Last(m.run);
      m.TakeAuth(auth, Tags(t1, n1, t2, n2));
      AllSettledGrows(a, Last(m.run), ports, names, Tags(t1, n1, t2, n2));
      NoNewcomers(a, Last(m.run), ptype);
      NewcomersTrans(old(Last(m.run)), a, Last(m.run), ptype, Tags(t1, n1, t2, n2));
      UndisturbedAfter(old(Last(m.run)), a, Last(m.run), Tags(t1, n1, t2, n2), Marks(ports, Tags(t1, n1, t2, n2)));
    }
  }

  lemma UndisturbedAfter(a: State, b: State, c: State, tags: map<MachType, Name>, may: set<Mark>)
    requires Grows(a, b, tags) && Touched(a, b, may) && Grows(b, c, tags) && Touched(b, c, {})
    ensures Undisturbed(a, c, may)
  {
    GrownTrans(a, b, c, tags);
    GrownFewer(a, c, tags, map[]);
    TouchedOn(a, b, c, may, {}, may);
  }

  lemma RefsSplit(base: multiset<Port>, auth: Port, got: seq<Port>)
    requires RefOf(auth) <= base
    ensures RefOf(auth) + Refs(got) <= base + Refs(got)
    ensures base + Refs(got) - Refs(got) == base
    ensures base + Refs(got) - Refs(got) - RefOf(auth) == base - RefOf(auth)
  {
  }

  /** If the monitor port came, it had been sent. */
  lemma MonitorSent(m: Server, ports: seq<Port>, got: seq<Port>, from: nat)
    requires m.Valid() && Arrived(ports, got, m.run, from)
    ensures m.monitor.Some? && m.monitor.value in got ==> m.monitor.value in ports
  {
    if m.monitor.Some? && m.monitor.value in got {
      m.MonitorIsPort();
      var i :| 0 <= i < |got| && got[i] == m.monitor.value;
      ArrivedSent(ports, got, m.run, from, i);
    }
  }

  /** do_task_threads: the names of a task's threads, in order, each associated with the task and
      with the task's own host. */
  method DoTaskThreads(m: Server, auth: Port, task: Name, answer: Answer<seq<Port>>)
    returns (quit: bool, st: Status, ghost got: seq<Port>, ghost host: Name, threads: seq<Name>)
    requires m.Valid() && RefOf(auth) <= m.owned
    modifies m.Repr
    ensures old(m.run) <= m.run && (!quit ==> m.Valid() && m.OnlyNew())
    ensures !quit && st == KernSuccess ==>
              Undisturbed(old(Last(m.run)), Last(m.run), Marks(got, Tags(Task, task, HostPriv, host)))
    ensures !quit && st != KernSuccess ==> Quiet(old(Last(m.run)), Last(m.run))
    ensures !quit ==> m.owned == if st == KernSuccess then old(m.owned) - RefOf(auth) else old(m.owned)
    ensures st == Reply(Decision(old(Last(m.run)), task, auth, OpInfo), InvalidTask, answer)
    ensures quit ==> st == KernSuccess && old(m.monitor).Some? && old(m.monitor).value in answer.value
    ensures st == KernSuccess ==> Arrived(answer.value, got, m.run, |old(m.run)|)
    ensures !quit && st == KernSuccess ==>
              AllSettled(Last(m.run), got, threads, Tags(Task, task, HostPriv, host))
    ensures !quit && st == KernSuccess ==> AllNewOf(old(Last(m.run)), Last(m.run), Thread)
    ensures !quit && st == KernSuccess ==>
              exists p :: HasName(old(Last(m.run)), p, task) && host == AssocGet(old(Last(m.run)).recs[p].assocs, HostPriv)
    ensures (forall p :: !HasName(old(Last(m.run)), p, task)) ==> st == KernFail(InvalidTask)
    ensures forall p :: HasName(old(Last(m.run)), p, task) ==>
              st == if !Authorized(old(Last(m.run)), p, auth, OpInfo) then KernFail(ProtectionFailure)
                    else if answer.Err? then KernFail(Remote(answer.code)) else KernSuccess
  {
    m.Healthy();
    ReplyIs(Last(m.run), task, auth, OpInfo, InvalidTask, answer);
    threads, quit := [], false;
    var ports, taskHost;
    st, ports, taskHost := FetchPortsAndHost(m, auth, task, InvalidTask, answer);
    got, host := ports, taskHost;
    if st == KernSuccess {
      quit, threads := NameListed(m, auth, ports, Thread, Task, task, HostPriv, taskHost,
                                  answer.value, old(m.owned), old(Last(m.run)), |old(m.run)|);
    }
  }

  /** The second half for ports that came of an answer; `start` is the state before the call. */
  method NameListed(m: Server, auth: Port, ports: seq<Port>, ptype: MachType,
                    t1: MachType, n1: Name, t2: MachType, n2: Name,
                    ghost sent: seq<Port>, ghost base: multiset<Port>, ghost start: State, ghost from: nat)
    returns (quit: bool, names: seq<Name>)
    requires m.Valid() && RefOf(auth) <= base && m.owned == base + Refs(ports)
    requires n1 < m.next && n2 < m.next && t1 != t2
    requires Arrived(sent, ports, m.run, from) && Quiet(start, Last(m.run))
    modifies m.Repr
    ensures quit ==> old(m.monitor).Some? && old(m.monitor).value in sent
    ensures old(m.run) <= m.run && Arrived(sent, ports, m.run, from)
    ensures !quit ==> m.Valid() && m.OnlyNew() && m.owned == base - RefOf(auth)
    ensures !quit ==> AllSettled(Last(m.run), ports, names, Tags(t1, n1, t2, n2))
    ensures !quit ==> AllNewOf(start, Last(m.run), ptype)
    ensures !quit ==> Undisturbed(start, Last(m.run), Marks(ports, Tags(t1, n1, t2, n2)))
  {
    RefsSplit(base, auth, ports);
    ghost var a := m.run;
    MonitorSent(m, sent, ports, from);
    quit, names := NameAndFinish(m, auth, ports, ptype, t1, n1, t2, n2);
    ArrivedGrows(sent, ports, a, from, m.run, from);
    if !quit {
      NewcomersSince(start, Last(a), Last(m.run), ptype);
      QuietThen(start, Last(a), Last(m.run), Marks(ports, Tags(t1, n1, t2, n2)));
    }
  }

  /** do_default_pager_objects. If the pager sends a different number of objects and ports, every
      port goes back and the call fails; else each object gets the name of its port and the
      pager's own host. */
  method DoDefaultPagerObjects(m: Server, auth: Port, pager: Name, answer: Answer<seq<Port>>, numObjects: nat)
    returns (quit: bool, st: Status, ghost got: seq<Port>, ghost host: Name, objects: seq<Name>)
    requires m.Valid() && RefOf(auth) <= m.owned
    modifies m.Repr
    ensures old(m.run) <= m.run && (!quit ==> m.Valid() && m.OnlyNew())
    ensures !quit && st == KernSuccess ==>
              Undisturbed(old(Last(m.run)), Last(m.run), Marks(got, Tags(HostPriv, host, NoType, 0)))
    ensures !quit && st != KernSuccess ==> Quiet(old(Last(m.run)), Last(m.run))
    ensures !quit ==> m.owned == if st == KernSuccess then old(m.owned) - RefOf(auth) else old(m.owned)
    ensures var reply := Reply(Decision(old(Last(m.run)), pager, auth, OpInfo), InvalidDefaultPager, answer);
            st == if reply == KernSuccess && numObjects != |answer.value| then KernFail(Failure) else reply
    ensures quit ==> st == KernSuccess && old(m.monitor).Some? && old(m.monitor).value in answer.value
    ensures st == KernSuccess ==> Arrived(answer.value, got, m.run, |old(m.run)|) && numObjects == |got|
    ensures !quit && st == KernSuccess ==>
              AllSettled(Last(m.run), got, objects, Tags(HostPriv, host, NoType, 0))
    ensures !quit && st == KernSuccess ==> AllNewOf(old(Last(m.run)), Last(m.run), ObjectName)
    ensures !quit && st == KernSuccess ==>
              exists p :: HasName(old(Last(m.run)), p, pager) && host == AssocGet(old(Last(m.run)).recs[p].assocs, HostPriv)
    ensures (forall p :: !HasName(old(Last(m.run)), p, pager)) ==> st == KernFail(InvalidDefaultPager)
    ensures forall p :: HasName(old(Last(m.run)), p, pager) ==>
              st == if !Authorized(old(Last(m.run)), p, auth, OpInfo) then KernFail(ProtectionFailure)
                    else if answer.Err? then KernFail(Remote(answer.code)) else if numObjects != |answer.value| then KernFail(Failure) else KernSuccess
  {
    m.Healthy();
    ReplyIs(Last(m.run), pager, auth, OpInfo, InvalidDefaultPager, answer);
    objects, quit := [], false;
    var ports, pagerHost;
    st, ports, pagerHost := FetchPortsAndHost(m, auth, pager, InvalidDefaultPager, answer);
    got, host := ports, pagerHost;
    if st == KernSuccess {
      ArrivedLength(answer.value, ports, m.run, |old(m.run)|);
      quit, st, objects := NameObjects(m, auth, ports, pagerHost, numObjects,
                                       answer.value, old(m.owned), old(Last(m.run)), |old(m.run)|);
    }
  }

  /** The objects' ports go back if there are too many or too few, and are named otherwise. */
  method NameObjects(m: Server, auth: Port, ports: seq<Port>, host: Name, numObjects: nat,
                     ghost sent: seq<Port>, ghost base: multiset<Port>, ghost start: State, ghost from: nat)
    returns (quit: bool, st: Status, objects: seq<Name>)
    requires m.Valid() && RefOf(auth) <= base && m.owned == base + Refs(ports) && host < m.next
    requires Arrived(sent, ports, m.run, from) && Quiet(start, Last(m.run))
    modifies m.Repr
    ensures st == if numObjects == |ports| then KernSuccess else KernFail(Failure)
    ensures quit ==> numObjects == |ports| && old(m.monitor).Some? && old(m.monitor).value in sent
    ensures old(m.run) <= m.run && Arrived(sent, ports, m.run, from)
    ensures !quit ==> m.OnlyNew()
    ensures !quit ==> m.Valid() && m.owned == if numObjects == |ports| then base - RefOf(auth) else base
    ensures !quit && numObjects == |ports| ==>
              AllSettled(Last(m.run), ports, objects, Tags(HostPriv, host, NoType, 0))
    ensures !quit && numObjects == |ports| ==> AllNewOf(start, Last(m.run), ObjectName)
    ensures !quit && numObjects == |ports| ==>
              Undisturbed(start, Last(m.run), Marks(ports, Tags(HostPriv, host, NoType, 0)))
    ensures !quit && numObjects != |ports| ==> Quiet(start, Last(m.run))
  {
    objects, quit, st := [], false, KernSuccess;
    if numObjects != |ports| {
      ghost var a := m.run;
      PlusMinus(base, Refs(ports));
      ReleaseAll(m, ports);
      ArrivedGrows(sent, ports, a, from, m.run, from);
      m.Quietly();
      QuietTrans(start, Last(a), Last(m.run));
      st := KernFail(Failure);
    } else {
      quit, objects := NameListed(m, auth, ports, ObjectName, HostPriv, host, NoType, 0, sent, base, start, from);
    }
  }

  lemma BothTyped(a: State, b: State, c: State, p: Port, ptype: MachType, q: Port, qtype: MachType,
                  tags: map<MachType, Name>)
    requires Grows(a, b, tags) && Grows(b, c, tags)
    requires AllNewOf(a, b, ptype) && AllNewOf(b, c, qtype)
    requires b.recs.Keys <= a.recs.Keys + {p}
    requires PortValid(p) ==> p in b.recs
    requires PortValid(q) ==> q in c.recs
    ensures Typed(a, c, p, ptype)
    ensures q != p ==> Typed(a, c, q, qtype)
  {
    TypedNewcomer(a, b, p, ptype, tags);
    TypedGrows(a, b, c, p, ptype, tags);
    TypedNewcomer(b, c, q, qtype, tags);
    if q != p {
      TypedSince(a, b, c, q, qtype, p, tags);
    }
  }

  /** Two ports in hand get their names. */
  method NameBoth(m: Server, p: Port, ptype: MachType, q: Port, qtype: MachType, ghost tags: map<MachType, Name>)
    returns (quit: bool, pname: Name, qname: Name)
    requires m.Valid() && RefOf(p) + RefOf(q) <= m.owned
    modifies m.Repr
    ensures quit ==> old(m.monitor) == Some(p) || old(m.monitor) == Some(q)
    ensures !quit ==> m.Valid() && m.OnlyNew() && m.owned == old(m.owned) - RefOf(p) - RefOf(q)
    ensures !quit ==> Touched(old(Last(m.run)), Last(m.run), {})
    ensures !quit ==> Grows(old(Last(m.run)), Last(m.run), tags) && pname < m.next && qname < m.next
    ensures !quit ==> Settled(Last(m.run), p, pname, map[]) && Settled(Last(m.run), q, qname, map[])
    ensures !quit ==> Typed(old(Last(m.run)), Last(m.run), p, ptype)
    ensures !quit && q != p ==> Typed(old(Last(m.run)), Last(m.run), q, qtype)
    ensures !quit ==> Last(m.run).recs.Keys <= old(Last(m.run)).recs.Keys + Ones(p) + Ones(q)
    ensures old(m.run) <= m.run
  {
    qname := 0;
    quit, pname := m.NameFor(p, ptype, tags);
    if quit {
      return;
    }
    ghost var a := Last(m.run);
    quit, qname := m.NameFor(q, qtype, tags);
    if quit {
      return;
    }
    SettledGrowsIn(a, Last(m.run), p, pname, map[], tags);
    GrownTrans(old(Last(m.run)), a, Last(m.run), tags);
    TouchedTrans(old(Last(m.run)), a, Last(m.run), {});
    BothTyped(old(Last(m.run)), a, Last(m.run), p, ptype, q, qtype, tags);
    m.SettledBelow(p, pname, map[]);
    m.SettledBelow(q, qname, map[]);
  }

  /** The associations of do_host_ports. */
  ghost function HostMarks(hostSelf: Port, host: Name, hostPrivSelf: Port, phost: Name): set<Mark> {
    Marks([hostSelf], Tag(HostPriv, phost)) + Marks([hostPrivSelf], Tags(MachType.Host, host, HostPriv, phost))
  }

  /** assoc_create for one port, while another in hand keeps what it has. */
  method TagBeside(m: Server, ghost p: Port, name: Name, t: MachType, n: Name,
                   ghost other: Port, ghost otherName: Name, ghost some: map<MachType, Name>,
                   ghost tags: map<MachType, Name>)
    requires m.Valid() && n < m.next && t in tags && tags[t] == n
    requires Settled(Last(m.run), p, name, map[]) && Settled(Last(m.run), other, otherName, some)
    requires forall u :: u in some ==> u in tags && tags[u] == some[u]
    modifies m`run, m.tables.recs.Values`assocs
    ensures m.Valid() && old(m.run) <= m.run && Last(m.run).recs.Keys == old(Last(m.run)).recs.Keys
    ensures Grows(old(Last(m.run)), Last(m.run), tags)
    ensures Touched(old(Last(m.run)), Last(m.run), Marks([p], Tag(t, n)))
    ensures Settled(Last(m.run), p, name, Tag(t, n)) && Settled(Last(m.run), other, otherName, some)
  {
    ghost var a := Last(m.run);
    m.TagWith(p, name, t, n, tags);
    SettledGrowsIn(a, Last(m.run), other, otherName, some, tags);
  }

  lemma HostPortsRelated(a: State, b: State, c: State, hostSelf: Port, host: Name, hostPrivSelf: Port, phost: Name)
    requires var tags := Tags(MachType.Host, host, HostPriv, phost); Grows(a, b, tags) && Grows(b, c, tags)
    requires Touched(a, b, Marks([hostSelf], Tag(HostPriv, phost)))
    requires Touched(b, c, Marks([hostPrivSelf], Tags(MachType.Host, host, HostPriv, phost)))
    requires Settled(b, hostSelf, host, Tag(HostPriv, phost))
    ensures Grows(a, c, Tags(MachType.Host, host, HostPriv, phost))
    ensures Touched(a, c, HostMarks(hostSelf, host, hostPrivSelf, phost))
    ensures Settled(c, hostSelf, host, Tag(HostPriv, phost))
  {
    var tags := Tags(MachType.Host, host, HostPriv, phost);
    SettledGrowsIn(b, c, hostSelf, host, Tag(HostPriv, phost), tags);
    GrownTrans(a, b, c, tags);
    TouchedOn(a, b, c, Marks([hostSelf], Tag(HostPriv, phost)), Marks([hostPrivSelf], tags),
              HostMarks(hostSelf, host, hostPrivSelf, phost));
  }

  /** The associations that do_host_ports makes between the two host ports. */
  method RelateHostPorts(m: Server, ghost hostSelf: Port, host: Name, ghost hostPrivSelf: Port, phost: Name)
    requires m.Valid() && host < m.next && phost < m.next
    requires Settled(Last(m.run), hostSelf, host, map[]) && Settled(Last(m.run), hostPrivSelf, phost, map[])
    modifies m`run, m.tables.recs.Values`assocs
    ensures old(m.run) <= m.run && Touched(old(Last(m.run)), Last(m.run), HostMarks(hostSelf, host, hostPrivSelf, phost))
    ensures m.Valid() && Grows(old(Last(m.run)), Last(m.run), Tags(MachType.Host, host, HostPriv, phost))
    ensures Settled(Last(m.run), hostSelf, host, Tag(HostPriv, phost))
    ensures Settled(Last(m.run), hostPrivSelf, phost, Tags(MachType.Host, host, HostPriv, phost))
  {
    ghost var tags, a := Tags(MachType.Host, host, HostPriv, phost), Last(m.run);
    TagBeside(m, hostSelf, host, HostPriv, phost, hostPrivSelf, phost, map[], tags);
    ghost var b := Last(m.run);
    m.TagTwice(hostPrivSelf, phost, MachType.Host, host, HostPriv, phost);
    HostPortsRelated(a, b, Last(m.run), hostSelf, host, hostPrivSelf, phost);
  }

  method FinishHostPorts(m: Server, auth: Port, ghost hostSelf: Port, host: Name,
                         ghost hostPrivSelf: Port, phost: Name)
    requires m.Valid() && RefOf(auth) <= m.owned && host < m.next && phost < m.next
    requires Settled(Last(m.run), hostSelf, host, map[]) && Settled(Last(m.run), hostPrivSelf, phost, map[])
    modifies m`space, m`run, m`owned, m.tables.recs.Values`urefs, m.tables.recs.Values`assocs
    ensures m.Valid() && m.owned == old(m.owned) - RefOf(auth) && old(m.run) <= m.run
    ensures Touched(old(Last(m.run)), Last(m.run), HostMarks(hostSelf, host, hostPrivSelf, phost))
    ensures Grows(old(Last(m.run)), Last(m.run), Tags(MachType.Host, host, HostPriv, phost))
    ensures Settled(Last(m.run), hostSelf, host, Tag(HostPriv, phost))
    ensures Settled(Last(m.run), hostPrivSelf, phost, Tags(MachType.Host, host, HostPriv, phost))
  {
    RelateHostPorts(m, hostSelf, host, hostPrivSelf, phost);
    ghost var b, tags := Last(m.run), Tags(MachType.Host, host, HostPriv, phost);
    m.TakeAuth(auth, tags);
    SettledGrowsIn(b, Last(m.run), hostSelf, host, Tag(HostPriv, phost), tags);
    SettledGrows(b, Last(m.run), hostPrivSelf, phost, tags);
    GrownTrans(old(Last(m.run)), b, Last(m.run), tags);
    TouchedOn(old(Last(m.run)), b, Last(m.run), HostMarks(hostSelf, host, hostPrivSelf, phost), {},
              HostMarks(hostSelf, host, hostPrivSelf, phost));
  }

  /** do_host_ports: the names of the host port and of its privileged port, tied to each other. */
  method DoHostPorts(m: Server, auth: Port, hostSelf: Port, hostPrivSelf: Port)
    returns (quit: bool, host: Name, phost: Name)
    requires m.Valid() && RefOf(auth) + RefOf(hostSelf) + RefOf(hostPrivSelf) <= m.owned
    modifies m.Repr
    ensures quit ==> old(m.monitor) == Some(hostSelf) || old(m.monitor) == Some(hostPrivSelf)
    ensures old(m.run) <= m.run && (!quit ==> m.Valid() && m.OnlyNew() && m.monitor == old(m.monitor))
    ensures !quit ==> Undisturbed(old(Last(m.run)), Last(m.run), HostMarks(hostSelf, host, hostPrivSelf, phost))
    ensures !quit ==> m.owned == old(m.owned) - RefOf(hostSelf) - RefOf(hostPrivSelf) - RefOf(auth)
    ensures !quit ==> Settled(Last(m.run), hostSelf, host, Tag(HostPriv, phost))
    ensures !quit ==> Settled(Last(m.run), hostPrivSelf, phost, Tags(MachType.Host, host, HostPriv, phost))
    ensures !quit ==> Typed(old(Last(m.run)), Last(m.run), hostSelf, MachType.Host)
    ensures !quit && hostPrivSelf != hostSelf ==> Typed(old(Last(m.run)), Last(m.run), hostPrivSelf, HostPriv)
  {
    quit, host, phost := NameBoth(m, hostSelf, MachType.Host, hostPrivSelf, HostPriv, map[]);
    if !quit {
      ghost var a := Last(m.run);
      FinishHostPorts(m, auth, hostSelf, host, hostPrivSelf, phost);
      HostPortsDone(old(Last(m.run)), a, Last(m.run), hostSelf, host, hostPrivSelf, phost);
    }
  }

  lemma HostPortsDone(a: State, b: State, c: State, hostSelf: Port, host: Name, hostPrivSelf: Port, phost: Name)
    requires Undisturbed(a, b, {}) && Typed(a, b, hostSelf, MachType.Host)
    requires hostPrivSelf != hostSelf ==> Typed(a, b, hostPrivSelf, HostPriv)
    requires Grows(b, c, Tags(MachType.Host, host, HostPriv, phost))
    requires Touched(b, c, HostMarks(hostSelf, host, hostPrivSelf, phost))
    ensures Undisturbed(a, c, HostMarks(hostSelf, host, hostPrivSelf, phost))
    ensures Typed(a, c, hostSelf, MachType.Host)
    ensures hostPrivSelf != hostSelf ==> Typed(a, c, hostPrivSelf, HostPriv)
  {
    var tags, may := Tags(MachType.Host, host, HostPriv, phost), HostMarks(hostSelf, host, hostPrivSelf, phost);
    TypedGrows(a, b, c, hostSelf, MachType.Host, tags);
    if hostPrivSelf != hostSelf {
      TypedGrows(a, b, c, hostPrivSelf, HostPriv, tags);
    }
    GrownFewer(b, c, tags, map[]);
    GrownTrans(a, b, c, map[]);
    TouchedOn(a, b, c, {}, may, may);
  }
}
