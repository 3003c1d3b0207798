/**
 The machid server itself: bin/machid/machid.c over the hash tables and the kernel. Every
 method moves the server along a run of MachidMachine, kept in `run`, so that whatever is
 proved of every run holds in every state the server can be in.
 */
module MachidServer {
  import opened Options
  import opened MachKernel
  import opened PortTables
  import opened MachidMachine

  datatype Op = OpPort | OpWrite | OpRead | OpInfo

  datatype LookupResult = Found(port: Port) | BadName | Protected

  function VerdictOf(res: LookupResult): Verdict {
    match res
    case Found(_) => Granted
    case BadName => NoSuchName
    case Protected => Refused
  }

  ghost function RecOf(r: PortRecord): Rec
    reads r`urefs, r`assocs
  {
    Rec(r.name, r.ptype, r.urefs, r.assocs)
  }

  /** find_assoc: from the first association of the type on, or nothing. */
  method FindAssoc(s: Assocs, t: MachType) returns (found: Assocs)
    ensures found.Assoc? <==> AssocHas(s, t)
    ensures found.Assoc? ==> found.atype == t && found.name == AssocGet(s, t)
  {
    found := s;
    while found.Assoc? && found.atype != t
      invariant AssocHas(s, t) <==> AssocHas(found, t)
      invariant AssocGet(s, t) == AssocGet(found, t)
      decreases found
    {
      found := found.next;
    }
  }

  /** What authorize grants: information to all, anything on the name ports, and otherwise only
      to whoever shows the object's own port, its privileged host port or its task port. */
  ghost predicate Authorized(a: State, p: Port, auth: Port, op: Op)
    requires p in a.recs
  {
    || op == OpInfo
    || a.recs[p].ptype in {ProcessorSetName, Host, ObjectName}
    || (PortValid(auth) && auth in a.recs
        && (|| p == auth
            || AssocGet(a.recs[p].assocs, HostPriv) == a.recs[auth].name
            || AssocGet(a.recs[p].assocs, Task) == a.recs[auth].name))
  }

  /** What port_lookup has to say of a name. */
  datatype Verdict = NoSuchName | Refused | Granted

  ghost function Decision(a: State, name: Name, auth: Port, op: Op): Verdict {
    if exists p :: HasName(a, p, name) && Authorized(a, p, auth, op) then Granted
    else if exists p :: HasName(a, p, name) then Refused
    else NoSuchName
  }

  lemma DecisionIs(a: State, p: Port, name: Name, auth: Port, op: Op)
    requires NamesDistinct(a) && HasName(a, p, name)
    ensures Decision(a, name, auth, op) == if Authorized(a, p, auth, op) then Granted else Refused
  {
  }

  lemma OneHolder(a: State, p: Port, name: Name)
    requires NamesDistinct(a) && HasName(a, p, name)
    ensures forall q :: q in a.recs && a.recs[q].name == name ==> q == p
  {
    forall q | q in a.recs && a.recs[q].name == name ensures q == p {
      assert HasName(a, q, name);
    }
  }

  /** Counts and the kernel's table do not matter to it. */
  lemma DecisionKept(a: State, b: State, name: Name, auth: Port, op: Op)
    requires a.recs.Keys == b.recs.Keys
    requires forall p :: p in a.recs ==>
               a.recs[p].name == b.recs[p].name && a.recs[p].ptype == b.recs[p].ptype
               && a.recs[p].assocs == b.recs[p].assocs
    ensures Decision(a, name, auth, op) == Decision(b, name, auth, op)
  {
    assert forall p :: HasName(a, p, name) <==> HasName(b, p, name);
    assert forall p :: HasName(a, p, name) ==> (Authorized(a, p, auth, op) <==> Authorized(b, p, auth, op));
  }

  /** A name keeps its decisions as long as the associations that authorize looks at are not touched,
      for everyone, whatever else the server comes to know in the meantime. */
  lemma DecisionUndisturbed(run: seq<State>, i: nat, j: nat, may: set<Mark>, name: Name, auth: Port, op: Op)
    requires FromStart(run) && i <= j < |run| && name < run[i].next && Undisturbed(run[i], run[j], may)
    requires forall p :: HasName(run[i], p, name) ==> Mark(p, HostPriv) !in may && Mark(p, Task) !in may
    ensures Decision(run[j], name, auth, op) == Decision(run[i], name, auth, op)
  {
    var a, b := run[i], run[j];
    forall p ensures HasName(a, p, name) <==> HasName(b, p, name) {
      SameHolder(run, i, j, name, p);
    }
    forall p | HasName(a, p, name) ensures Authorized(a, p, auth, op) <==> Authorized(b, p, auth, op) {
      SameAuthority(run, i, j, may, p, auth, op);
    }
  }

  lemma SameHolder(run: seq<State>, i: nat, j: nat, name: Name, p: Port)
    requires IsRun(run) && i <= j < |run| && name < run[i].next && Grows(run[i], run[j], map[])
    ensures HasName(run[i], p, name) <==> HasName(run[j], p, name)
  {
    if HasName(run[i], p, name) {
      assert Inherits(run[i].recs[p], run[j].recs[p], map[]);
    }
    if HasName(run[j], p, name) {
      NameStable(run, i, j, name, p, run[j].recs[p].ptype);
    }
  }

  lemma SameAuthority(run: seq<State>, i: nat, j: nat, may: set<Mark>, p: Port, auth: Port, op: Op)
    requires FromStart(run) && i <= j < |run| && Undisturbed(run[i], run[j], may) && p in run[i].recs
    requires Mark(p, HostPriv) !in may && Mark(p, Task) !in may
    ensures p in run[j].recs && (Authorized(run[i], p, auth, op) <==> Authorized(run[j], p, auth, op))
  {
    var a, b := run[i], run[j];
    assert Inherits(a.recs[p], b.recs[p], map[]);
    assert AssocIn(b, p, HostPriv) == AssocIn(a, p, HostPriv) && AssocIn(b, p, Task) == AssocIn(a, p, Task);
    if auth in a.recs {
      assert Inherits(a.recs[auth], b.recs[auth], map[]);
    } else if auth in b.recs {
      RunKeepsInv(run, i);
      assert PortInv(a, p);
      AssocGetBelow(a.recs[p].assocs, HostPriv, a.next);
      AssocGetBelow(a.recs[p].assocs, Task, a.next);
      NameStable(run, i, j, b.recs[auth].name, auth, b.recs[auth].ptype);
    }
  }

  /** The reference that a message brings along with a port, if the port is one. */
  function RefOf(p: Port): multiset<Port> {
    if PortValid(p) then multiset{p} else multiset{}
  }

  /** The counting part of add_reference: the record's new count and the kernel's new table. */
  method BankOne(urefs: nat, port: Port, s: Space) returns (urefs': nat, s': Space)
    requires Urefs(s, port) > urefs
    ensures var trim := urefs + 1 > MAX_UREFS && Live(s, port);
            && urefs' == (if trim then 1 else urefs + 1)
            && s' == if trim then ModRefs(s, port, SendKind, 0 - urefs).1 else s
  {
    urefs', s' := urefs + 1, s;
    if urefs' > MAX_UREFS {
      var reply := ModRefs(s, port, SendKind, 1 - urefs');
      s' := reply.1;
      if reply.0 == Success {
        urefs' := 1;
      } else {
        // the port is a dead name now
        assert reply.0 == InvalidRight;
      }
    }
  }

  /** The counting part of sub_reference. */
  method HandOne(urefs: nat, port: Port, s: Space) returns (urefs': nat, s': Space)
    requires urefs >= 1 && port in s.rights
    ensures urefs' == if urefs == 1 then MORE_UREFS else urefs - 1
    ensures s' == if urefs != 1 then s
                  else ModRefs(s, port, if Live(s, port) then SendKind else DeadNameKind, MORE_UREFS).1
  {
    urefs', s' := urefs, s;
    if urefs' == 1 {
      var reply := ModRefs(s, port, SendKind, MORE_UREFS);
      if reply.0 == InvalidRight {
        reply := ModRefs(s, port, DeadNameKind, MORE_UREFS);
      }
      assert reply.0 == Success;
      s' := reply.1;
      urefs' := urefs' + MORE_UREFS;
    }
    urefs' := urefs' - 1;
  }

  lemma RoomToBank(a: State, p: Port)
    requires Inv(a) && p in a.recs
    ensures p in a.space.rights && a.recs[p].urefs >= 1
    ensures a.owned[p] > 0 ==> Urefs(a.space, p) > a.recs[p].urefs
  {
    assert PortInv(a, p);
  }

  ghost function WithCounts(a: State, p: Port, urefs: nat, s: Space, own: multiset<Port>): State
    requires p in a.recs
  {
    a.(space := s, owned := own, recs := a.recs[p := a.recs[p].(urefs := urefs)])
  }

  lemma AddRefStep(a: State, p: Port, urefs: nat, s: Space)
    requires p in a.recs && a.owned[p] > 0
    requires urefs == if Trims(a, p) then 1 else Banked(a, p) + 1
    requires s == if Trims(a, p) then ModRefs(a.space, p, SendKind, 0 - Banked(a, p)).1 else a.space
    ensures IsRun([a, WithCounts(a, p, urefs, s, a.owned - multiset{p})])
  {
    StepIsRun(a, AddRef(p), WithCounts(a, p, urefs, s, a.owned - multiset{p}));
  }

  lemma SubRefStep(a: State, p: Port, urefs: nat, s: Space)
    requires p in a.recs && a.recs[p].urefs >= 1
    requires urefs == if Banked(a, p) == 1 then MORE_UREFS else Banked(a, p) - 1
    requires s == if Banked(a, p) != 1 then a.space
                  else ModRefs(a.space, p, if Live(a.space, p) then SendKind else DeadNameKind, MORE_UREFS).1
    ensures IsRun([a, WithCounts(a, p, urefs, s, a.owned + multiset{p})])
  {
    StepIsRun(a, SubRef(p), WithCounts(a, p, urefs, s, a.owned + multiset{p}));
  }

  ghost function WithSpace(a: State, s: Space, own: multiset<Port>, mon: Option<Port>): State {
    a.(space := s, owned := own, monitor := mon)
  }

  ghost function WithRecord(a: State, p: Port, t: MachType, s: Space, own: multiset<Port>): State {
    a.(space := s, owned := own, next := a.next + 1, recs := a.recs[p := Rec(a.next, t, 1, NoAssoc)])
  }

  ghost function WithoutRecord(a: State, p: Port, s: Space): State {
    a.(space := s, recs := a.recs - {p})
  }

  ghost function WithAssocs(a: State, p: Port, assocs: Assocs): State
    requires p in a.recs
  {
    a.(recs := a.recs[p := a.recs[p].(assocs := assocs)])
  }

  lemma ArriveStep(a: State, p: Port)
    requires PortValid(p) && !Dead(a.space, p)
    ensures IsRun([a, WithSpace(a, Receive(a.space, p), a.owned + multiset{p}, a.monitor)])
  {
    StepIsRun(a, Arrive(p), WithSpace(a, Receive(a.space, p), a.owned + multiset{p}, a.monitor));
  }

  lemma ReleaseStep(a: State, p: Port)
    requires Inv(a) && a.owned[p] > 0
    ensures Deallocate(a.space, p).0 == Success
    ensures IsRun([a, WithSpace(a, Deallocate(a.space, p).1, a.owned - multiset{p}, a.monitor)])
  {
    assert PortInv(a, p);
    StepIsRun(a, Release(p), WithSpace(a, Deallocate(a.space, p).1, a.owned - multiset{p}, a.monitor));
  }

  /** A port in a caller's hands that has no record carries a dead-name request only if it is the
      watched monitor port. */
  lemma CreateStep(a: State, p: Port, t: MachType)
    requires Inv(a) && PortValid(p) && p !in a.recs && a.owned[p] > 0
    ensures var reply := RequestDeadName(a.space, p, true);
            && reply.0 == Success
            && (reply.1 ==> a.monitor == Some(p))
            && (!reply.1 ==> IsRun([a, WithRecord(a, p, t, reply.2, a.owned - multiset{p})]))
  {
    assert PortInv(a, p);
    var reply := RequestDeadName(a.space, p, true);
    if !reply.1 {
      StepIsRun(a, Create(p, t), WithRecord(a, p, t, reply.2, a.owned - multiset{p}));
    }
  }

  lemma DestroyStep(a: State, p: Port)
    requires Inv(a) && a.space.pending[p] > 0 && a.monitor != Some(p)
    ensures p in a.recs
    ensures var reply := ModRefs(Heard(a.space, p), p, DeadNameKind, 0 - a.recs[p].urefs - 1);
            && reply.0 == Success
            && IsRun([a, WithoutRecord(a, p, reply.1)])
            && Urefs(reply.1, p) == a.owned[p]
  {
    assert PortInv(a, p);
    var reply := ModRefs(Heard(a.space, p), p, DeadNameKind, 0 - a.recs[p].urefs - 1);
    StepIsRun(a, Destroy(p), WithoutRecord(a, p, reply.1));
  }

  lemma AssociateStep(a: State, p: Port, t: MachType, n: Name)
    requires p in a.recs && 0 < n < a.next
    ensures IsRun([a, WithAssocs(a, p, AssocPut(a.recs[p].assocs, t, n))])
  {
    StepIsRun(a, Associate(p, t, n), WithAssocs(a, p, AssocPut(a.recs[p].assocs, t, n)));
  }

  lemma WatchStep(a: State, p: Port)
    requires Inv(a) && a.monitor == None && a.owned[p] > 0
    ensures var reply := RequestDeadName(a.space, p, false);
            && (reply.0 == Success || reply.0 == InvalidArgument)
            && (reply.1 ==> p in a.recs)
            && (reply.0 == Success && !reply.1 ==>
                  && IsRun([a, WithSpace(a, reply.2, a.owned - multiset{p}, Some(p))])
                  && Armed(reply.2, p) && p !in a.recs && Urefs(reply.2, p) == a.owned[p])
  {
    assert PortInv(a, p);
    var reply := RequestDeadName(a.space, p, false);
    if reply.0 == Success && !reply.1 {
      StepIsRun(a, Watch(p), WithSpace(a, reply.2, a.owned - multiset{p}, Some(p)));
    }
  }

  lemma UnwatchStep(a: State, p: Port)
    requires Inv(a) && a.monitor == Some(p) && a.space.pending[p] > 0
    ensures var reply := ModRefs(Heard(a.space, p), p, DeadNameKind, -2);
            && reply.0 == Success
            && IsRun([a, WithSpace(a, reply.1, a.owned, None)])
            && Urefs(reply.1, p) == Banked(a, p) + a.owned[p] + reply.1.pending[p]
  {
    assert PortInv(a, p);
    StepIsRun(a, Unwatch, WithSpace(a, ModRefs(Heard(a.space, p), p, DeadNameKind, -2).1, a.owned, None));
  }

  /** What the name server does at one attempt to check in: netname_look_up of the monitor port,
      then netname_check_in of the service. */
  datatype LookUpReply = LookUpDied | NotCheckedIn | LookUpError | Answer(port: Port)
  datatype CheckInReply = CheckInDied | CheckInError | CheckInOk
  datatype Attempt = Attempt(lookUp: LookUpReply, checkIn: CheckInReply)

  datatype Progress = Retry | Done | Quit

  /** A reason to try again: the name server died or was too early, or the port it gave was none
      or has died. */
  ghost predicate Retried(attempt: Attempt, run: seq<State>, from: nat) {
    || attempt.lookUp == LookUpDied
    || attempt.lookUp == NotCheckedIn
    || (attempt.lookUp.Answer? && attempt.checkIn == CheckInDied && PortValid(attempt.lookUp.port))
    || (attempt.lookUp.Answer? && attempt.checkIn == CheckInOk
        && (PortValid(attempt.lookUp.port) ==> DiedSince(run, from, attempt.lookUp.port)))
  }

  /** A reason to quit: an error, a dying name server that gave no live port, or a port that has a
      record already. */
  ghost predicate QuitFor(attempt: Attempt, run: seq<State>, from: nat) {
    || attempt.lookUp == LookUpError
    || (attempt.lookUp.Answer? && attempt.checkIn == CheckInError)
    || (attempt.lookUp.Answer? && attempt.checkIn == CheckInDied
        && (PortValid(attempt.lookUp.port) ==> DiedSince(run, from, attempt.lookUp.port)))
    || (attempt.lookUp.Answer? && attempt.checkIn == CheckInOk && |run| > 0
        && Armed(Last(run).space, attempt.lookUp.port) && attempt.lookUp.port in Last(run).recs)
  }

  lemma RetriedGrows(attempt: Attempt, run: seq<State>, from: nat, run': seq<State>, from': nat)
    requires Retried(attempt, run, from) && run <= run' && from' <= from
    ensures Retried(attempt, run', from')
  {
    if attempt.lookUp.Answer? && attempt.checkIn == CheckInOk {
      var p := attempt.lookUp.port;
      CameGrows(p, MACH_PORT_NULL, run, from, run', from');
    }
  }

  /** Deallocating what is no port fails in every state of the server. So it quits where the name
      server dies during the check-in after the port that it gave has died. */
  lemma DeallocateNoPort(run: seq<State>, i: nat, p: Port)
    requires FromStart(run) && i < |run| && !PortValid(p)
    ensures Deallocate(run[i].space, p) == (InvalidName, run[i].space)
  {
    RunKeepsInv(run, i);
    assert PortInv(run[i], p);
  }

  /** For instance: a port arrives and dies, the look-up answers with it, and the name server dies. */
  lemma DeadPortQuits(p: Port, fate: Fate)
    requires PortValid(p) && p in fate(0)
    ensures var a := Apply(Initial(fate), Arrive(p));
            var run := [Initial(fate), a, Apply(a, Deaths(fate(0)))];
            && FromStart(run) && Came(p, MACH_PORT_DEAD, run, 1)
            && Deallocate(Last(run).space, MACH_PORT_DEAD).0 == InvalidName
            && QuitFor(Attempt(Answer(p), CheckInDied), run, 1)
  {
    var a := Apply(Initial(fate), Arrive(p));
    var b := Apply(a, Deaths(fate(0)));
    var run := [Initial(fate), a, b];
    StepIsRun(Initial(fate), Arrive(p), a);
    StepIsRun(a, Deaths(fate(0)), b);
    RunThenStep([Initial(fate), a], b);
    assert [Initial(fate), a] + [b] == run;
    assert Dead(run[2].space, p);
    DeallocateNoPort(run, 2, MACH_PORT_DEAD);
  }

  class Server {
    const tables: Tables
    var space: Space
    var next: Name
    var monitorPort: Port
    ghost var owned: multiset<Port>
    ghost var monitor: Option<Port>
    ghost var run: seq<State>
    ghost var Repr: set<object>

    ghost predicate Shape()
      reads this`Repr, tables, tables.portToName, tables.nameToPort,
            tables.recs.Values`pnNext, tables.recs.Values`npNext
    {
      && this in Repr && tables in Repr && tables.portToName in Repr && tables.nameToPort in Repr
      && tables.recs.Values <= Repr
      && tables.Valid()
    }

    ghost function Abstract(): State
      reads this`space, this`next, this`owned, this`monitor, tables`recs,
            tables.recs.Values`urefs, tables.recs.Values`assocs
    {
      State(space, map p | p in tables.recs :: RecOf(tables.recs[p]), next, owned, monitor)
    }

    /** The run so far. */
    ghost predicate OnCourse()
      reads this`run, this`monitor, this`monitorPort
    {
      && FromStart(run)
      && (monitor.Some? ==> monitor.value == monitorPort)
    }

    /** The tables are well formed, and the run so far has led to just this state. */
    ghost predicate Valid()
      reads this, tables, tables.portToName, tables.nameToPort, tables.recs.Values
    {
      Shape() && OnCourse() && Last(run) == Abstract()
    }

    /** Between two messages: checked in, and with no reference in hand. */
    ghost predicate Idle()
      reads this, tables, tables.portToName, tables.nameToPort, tables.recs.Values
    {
      Valid() && owned == multiset{} && monitor.Some?
    }

    constructor (fate: Fate)
      ensures Valid() && fresh(Repr) && run == [Initial(fate)]
    {
      tables := new Tables();
      space, next, monitorPort := Space(map[], multiset{}, 0, fate, 0), 1, MACH_PORT_NULL;
      owned, monitor, run := multiset{}, None, [Initial(fate)];
      new;
      Repr := {this, tables, tables.portToName, tables.nameToPort};
    }

    /** The run has moved on to `b`; the server's own state is still to follow. */
    ghost predicate Due(b: State)
      reads this`run, this`monitor, this`monitorPort, this`Repr,
            tables, tables.portToName, tables.nameToPort,
            tables.recs.Values`pnNext, tables.recs.Values`npNext
    {
      Shape() && OnCourse() && Last(run) == b
    }

    lemma Healthy()
      requires OnCourse()
      ensures Inv(Last(run))
    {
      RunKeepsInv(run, |run| - 1);
    }

    /** The machine moves on to `b`. */
    ghost method Commit(b: State)
      requires Shape() && OnCourse() && IsRun([Last(run), b])
      modifies this`run
      ensures Due(b) && old(run) <= run && |old(run)| < |run|
    {
      RunThenStep(run, b);
      run := run + [b];
    }

    /** A moment passes, in which ports may die. */
    method Interfere()
      requires Valid()
      modifies this`space, this`run
      ensures Valid()
      ensures forall p :: old(space).pending[p] <= space.pending[p]
      ensures old(run) <= run && |old(run)| < |run|
    {
      var d := space.fate(space.time);
      ghost var b := Last(run).(space := Kill(space, d));
      StepIsRun(Last(run), Deaths(d), b);
      Commit(b);
      space := Kill(space, d);
    }

    twostate lemma StillOnCourse()
      requires old(OnCourse())
      requires unchanged(this`run) && unchanged(this`monitor) && unchanged(this`monitorPort)
      ensures OnCourse()
    {
    }

    twostate lemma StillShaped()
      requires old(Shape()) && unchanged(this`Repr)
      requires unchanged(tables) && unchanged(tables.portToName) && unchanged(tables.nameToPort)
      requires unchanged(tables.recs.Values`pnNext) && unchanged(tables.recs.Values`npNext)
      ensures Shape()
    {
    }

    /** What the server is made of is what it was made of, or new. */
    twostate predicate OnlyNew()
      reads this`Repr
    {
      forall o :: o in Repr ==> o in old(Repr) || fresh(o)
    }

    /** No record went away or changed its identity, and the monitor stayed. */
    twostate predicate Kept()
      reads this, tables
    {
      && old(tables.recs).Keys <= tables.recs.Keys
      && (forall p :: p in old(tables.recs) ==> tables.recs[p] == old(tables.recs)[p])
      && old(next) <= next
      && monitor == old(monitor) && monitorPort == old(monitorPort)
      && OnlyNew()
    }

    /** The associations of the records there were are as they were. */
    twostate predicate AssocsKept()
      requires old(tables.recs).Keys <= tables.recs.Keys
      reads tables, tables.recs.Values`assocs
    {
      forall p :: p in old(tables.recs) ==> tables.recs[p].assocs == old(tables.recs[p].assocs)
    }

    /** Changing the counts of one record, and the kernel's table, changes just that. */
    twostate lemma CountsChanged(r: PortRecord)
      requires old(Shape()) && Filed(old(tables.recs), r) && Repr == old(Repr)
      requires unchanged(tables) && unchanged(tables.portToName) && unchanged(tables.nameToPort)
      requires unchanged(tables.recs.Values`pnNext) && unchanged(tables.recs.Values`npNext)
      requires unchanged(tables.recs.Values`assocs)
      requires unchanged((set x | x in tables.recs.Values && x != r)`urefs)
      requires next == old(next) && monitor == old(monitor)
      ensures Shape()
      ensures Abstract() == WithCounts(old(Abstract()), r.port, r.urefs, space, owned)
    {
      assert Abstract().recs == old(Abstract().recs)[r.port := RecOf(r)];
    }

    /** Write back a record's count together with the kernel's table. */
    method SetCounts(r: PortRecord, urefs: nat, s: Space, ghost own: multiset<Port>)
      requires Filed(tables.recs, r)
      requires Due(WithCounts(Abstract(), r.port, urefs, s, own))
      modifies this`space, this`owned, r`urefs
      ensures Valid()
      ensures space == s && owned == own
    {
      r.urefs := urefs;
      space := s;
      owned := own;
      CountsChanged(r);
      StillOnCourse();
    }

    /** Bank a caller's reference on the record. */
    method AddReference(r: PortRecord)
      requires Valid() && Filed(tables.recs, r) && owned[r.port] > 0
      modifies this`space, this`run, this`owned, r`urefs
      ensures Valid()
      ensures owned == old(owned) - multiset{r.port}
      ensures old(run) <= run
    {
      Interfere();
      AddNow(r);
    }

    method AddNow(r: PortRecord)
      requires Valid() && Filed(tables.recs, r) && owned[r.port] > 0
      modifies this`space, this`run, this`owned, r`urefs
      ensures Valid()
      ensures owned == old(owned) - multiset{r.port}
      ensures old(run) <= run
    {
      Healthy();
      RoomToBank(Last(run), r.port);
      var urefs, s := BankOne(r.urefs, r.port, space);
      AddRefStep(Last(run), r.port, urefs, s);
      Commit(WithCounts(Last(run), r.port, urefs, s, owned - multiset{r.port}));
      SetCounts(r, urefs, s, owned - multiset{r.port});
    }

    /** Hand out a reference from the record. */
    method SubReference(r: PortRecord)
      requires Valid() && Filed(tables.recs, r)
      modifies this`space, this`run, this`owned, r`urefs
      ensures Valid()
      ensures owned == old(owned) + multiset{r.port}
      ensures old(run) <= run
    {
      Interfere();
      SubNow(r);
    }

    method SubNow(r: PortRecord)
      requires Valid() && Filed(tables.recs, r)
      modifies this`space, this`run, this`owned, r`urefs
      ensures Valid()
      ensures owned == old(owned) + multiset{r.port}
      ensures old(run) <= run
    {
      Healthy();
      RoomToBank(Last(run), r.port);
      var urefs, s := HandOne(r.urefs, r.port, space);
      SubRefStep(Last(run), r.port, urefs, s);
      Commit(WithCounts(Last(run), r.port, urefs, s, owned + multiset{r.port}));
      SetCounts(r, urefs, s, owned + multiset{r.port});
    }

    /** Put the kernel's new table in place, where the records are not concerned. */
    method SetSpace(s: Space, ghost own: multiset<Port>)
      requires Due(WithSpace(Abstract(), s, own, monitor))
      modifies this`space, this`owned
      ensures Valid() && space == s && owned == own
    {
      space := s;
      owned := own;
    }

    /** A message arrives with a right for the server; a port that died on the way comes as
        MACH_PORT_DEAD. */
    method ReceiveRight(p: Port) returns (q: Port)
      requires Valid()
      modifies this`space, this`owned, this`run
      ensures Valid()
      ensures owned == old(owned) + RefOf(q) && old(run) <= run && |old(run)| < |run|
      ensures Came(p, q, run, |old(run)|)
    {
      Interfere();
      if PortValid(p) && !Dead(space, p) {
        ArriveStep(Last(run), p);
        Commit(WithSpace(Last(run), Receive(space, p), owned + multiset{p}, monitor));
        SetSpace(Receive(space, p), owned + multiset{p});
        q := p;
      } else {
        q := if p == MACH_PORT_NULL then MACH_PORT_NULL else MACH_PORT_DEAD;
        assert PortValid(p) ==> Dead(run[|run| - 1].space, p);
      }
    }

    /** mach_port_deallocate of a reference in hand, which always succeeds. */
    method ReleaseRight(p: Port)
      requires Valid() && owned[p] > 0
      modifies this`space, this`owned, this`run
      ensures Valid()
      ensures owned == old(owned) - multiset{p} && old(run) <= run
    {
      Interfere();
      Healthy();
      ReleaseStep(Last(run), p);
      var reply := Deallocate(space, p);
      assert reply.0 == Success;
      Commit(WithSpace(Last(run), reply.1, owned - multiset{p}, monitor));
      SetSpace(reply.1, owned - multiset{p});
    }

    /** malloc a record and link it into both tables. */
    method LinkRecord(port: Port, name: Name, ptype: MachType) returns (r: PortRecord)
      requires Shape() && port !in tables.recs
      requires forall p :: p in tables.recs ==> tables.recs[p].name < name
      modifies this`Repr, tables, tables.portToName, tables.nameToPort
      ensures Shape() && fresh(r) && Repr == old(Repr) + {r}
      ensures tables.recs == old(tables.recs)[port := r]
      ensures r.port == port && RecOf(r) == Rec(name, ptype, 1, NoAssoc)
    {
      r := new PortRecord(port, name, ptype);
      tables.Insert(r);
      Repr := Repr + {r};
    }

    twostate lemma RecordLinked(new r: PortRecord, t: MachType)
      requires r.port !in old(tables.recs) && tables.recs == old(tables.recs)[r.port := r]
      requires RecOf(r) == Rec(old(next), t, 1, NoAssoc)
      requires unchanged(old(tables.recs).Values`urefs) && unchanged(old(tables.recs).Values`assocs)
      requires next == old(next) + 1 && monitor == old(monitor)
      ensures Abstract() == WithRecord(old(Abstract()), r.port, t, space, owned)
    {
      assert Abstract().recs == old(Abstract().recs)[r.port := RecOf(r)];
    }

    /** The counter and the kernel's table move on. */
    method Advance(port: Port, s: Space)
      requires Shape()
      modifies this`next, this`space, this`owned
      ensures Shape() && next == old(next) + 1 && space == s && owned == old(owned) - multiset{port}
    {
      next, space, owned := next + 1, s, owned - multiset{port};
      StillShaped();
    }

    /** Make a record for a port, taking the caller's reference for it. */
    method Enroll(port: Port, ptype: MachType, s: Space) returns (r: PortRecord)
      requires port !in tables.recs
      requires Due(WithRecord(Abstract(), port, ptype, s, owned - multiset{port}))
      requires forall p :: p in tables.recs ==> tables.recs[p].name < next
      modifies this`next, this`space, this`owned, this`Repr
      modifies tables, tables.portToName, tables.nameToPort
      ensures Valid() && next == old(next) + 1
      ensures fresh(r) && Repr == old(Repr) + {r}
      ensures tables.recs == old(tables.recs)[port := r]
      ensures r.port == port && RecOf(r) == Rec(old(next), ptype, 1, NoAssoc)
      ensures owned == old(owned) - multiset{port}
    {
      r := LinkRecord(port, next, ptype);
      Advance(port, s);
      RecordLinked(r, ptype);
      StillOnCourse();
    }

    /** The exported name of a port; 0 for what is not a port. */
    ghost function NameOf(p: Port): Name
      reads tables`recs
    {
      if PortValid(p) && p in tables.recs then tables.recs[p].name else 0
    }

    ghost predicate IsNameOf(p: Port, name: Name)
      reads tables`recs
    {
      p in tables.recs && tables.recs[p].name == name
    }

    ghost predicate IsBound(name: Name)
      reads tables`recs
    {
      exists p :: IsNameOf(p, name)
    }

    lemma NamesIssued()
      requires Valid()
      ensures forall p :: p in tables.recs ==> 0 < tables.recs[p].name < next
    {
      Healthy();
      forall p | p in tables.recs ensures 0 < tables.recs[p].name < next {
        assert PortInv(Last(run), p);
      }
    }

    lemma MonitorIsPort()
      requires Valid()
      ensures monitor.Some? ==> PortValid(monitor.value)
      ensures Last(run).monitor == monitor
    {
      Healthy();
      assert monitor.Some? ==> PortInv(Last(run), monitor.value);
    }

    lemma RecordsArePorts()
      requires Valid()
      ensures forall p :: p in Last(run).recs ==> PortValid(p)
    {
      Healthy();
      forall p | p in Last(run).recs ensures PortValid(p) {
        assert PortInv(Last(run), p);
      }
    }

    /** name_lookup on a port that has no record: make one and ask to be told of its death. */
    method Register(port: Port, ptype: MachType) returns (quit: bool, name: Name)
      requires Valid() && PortValid(port) && port !in tables.recs && owned[port] > 0
      modifies this`run, this`next, this`space, this`owned, this`Repr
      modifies tables, tables.portToName, tables.nameToPort
      ensures quit ==> monitor == Some(port)
      ensures !quit ==> Valid() && Kept() && owned == old(owned) - multiset{port}
      ensures old(run) <= run
      ensures !quit ==> tables.recs.Keys == old(tables.recs).Keys + {port}
      ensures !quit ==> RecOf(tables.recs[port]) == Rec(name, ptype, 1, NoAssoc)
      ensures !quit ==> 0 < name == old(next) < next
    {
      Interfere();
      quit, name := RegisterNow(port, ptype);
    }

    method RegisterNow(port: Port, ptype: MachType) returns (quit: bool, name: Name)
      requires Valid() && PortValid(port) && port !in tables.recs && owned[port] > 0
      modifies this`run, this`next, this`space, this`owned, this`Repr
      modifies tables, tables.portToName, tables.nameToPort
      ensures quit ==> monitor == Some(port)
      ensures !quit ==> Valid() && Kept() && owned == old(owned) - multiset{port}
      ensures old(run) <= run
      ensures !quit ==> tables.recs.Keys == old(tables.recs).Keys + {port}
      ensures !quit ==> RecOf(tables.recs[port]) == Rec(name, ptype, 1, NoAssoc)
      ensures !quit ==> 0 < name == old(next) < next
    {
      Healthy();
      NamesIssued();
      assert Last(run).next >= 1;
      CreateStep(Last(run), port, ptype);
      var reply := RequestDeadName(space, port, true);
      quit, name := reply.0 != Success || reply.1, 0;
      if !quit {
        Commit(WithRecord(Last(run), port, ptype, reply.2, owned - multiset{port}));
        name := next;
        var r := Enroll(port, ptype, reply.2);
      }
    }

    /** name_lookup: turn a port into its exported name, taking the caller's reference. The server
        quits only if it is shown the port it is itself watching. */
    method NameLookup(port: Port, ptype: MachType) returns (quit: bool, name: Name)
      requires Valid() && (PortValid(port) ==> owned[port] > 0)
      modifies Repr
      ensures quit ==> old(monitor) == Some(port) && port !in old(tables.recs)
      ensures !quit ==> Valid() && Kept() && AssocsKept()
      ensures old(run) <= run
      ensures !quit ==> owned == old(owned) - RefOf(port)
      ensures !quit && !PortValid(port) ==> name == 0 && tables.recs == old(tables.recs)
      ensures !quit && PortValid(port) ==>
                && tables.recs.Keys == old(tables.recs).Keys + {port}
                && name == tables.recs[port].name && 0 < name < next
      ensures !quit && PortValid(port) && port !in old(tables.recs) ==>
                tables.recs[port].ptype == ptype && tables.recs[port].assocs == NoAssoc && name == old(next)
    {
      if !PortValid(port) {
        return false, 0;
      }
      var r := tables.FindPort(port);
      if r != null {
        NamesIssued();
        AddReference(r);
        return false, r.name;
      }
      quit, name := Register(port, ptype);
    }

    /** port_consume: the port is one with a record, so this cannot quit. */
    method PortConsume(port: Port)
      requires Valid() && port in tables.recs && owned[port] > 0
      modifies this`space, this`run, this`owned, tables.recs.Values`urefs
      ensures Valid() && old(run) <= run
      ensures owned == old(owned) - multiset{port}
    {
      assert PortValid(port) by {
        Healthy();
        assert PortInv(Last(run), port);
      }
      var r := tables.FindPort(port);
      AddReference(r);
    }

    /** auth_consume: bank the reference if the port is known, else give it back to the kernel. */
    method AuthConsume(port: Port)
      requires Valid() && (PortValid(port) ==> owned[port] > 0)
      modifies this`space, this`run, this`owned, tables.recs.Values`urefs
      ensures Valid() && old(run) <= run
      ensures owned == old(owned) - RefOf(port)
    {
      if !PortValid(port) {
        return;
      }
      var r := tables.FindPort(port);
      if r != null {
        AddReference(r);
        return;
      }
      ReleaseRight(port);
    }

    twostate lemma RecordUnlinked(port: Port)
      requires tables.recs == old(tables.recs) - {port}
      requires unchanged(old(tables.recs).Values`urefs) && unchanged(old(tables.recs).Values`assocs)
      requires next == old(next) && owned == old(owned) && monitor == old(monitor)
      ensures Abstract() == WithoutRecord(old(Abstract()), port, space)
    {
      assert Abstract().recs == old(Abstract().recs) - {port};
    }

    /** Take a record out of both tables and put the kernel's new table in place. */
    method Expel(port: Port, s: Space)
      requires port in tables.recs && Due(WithoutRecord(Abstract(), port, s))
      modifies this`space, tables, tables.portToName, tables.nameToPort
      modifies tables.recs.Values`pnNext, tables.recs.Values`npNext
      ensures Valid() && space == s
      ensures tables.recs == old(tables.recs) - {port}
    {
      var r := tables.Unlink(port);
      assert tables.recs.Values <= old(tables.recs).Values;
      space := s;
      RecordUnlinked(port);
      StillOnCourse();
    }

    /** What port_destroy takes out goes back to the kernel: the record's references and the
        notification's own. */
    method TakeBack(port: Port) returns (s: Space)
      requires Valid() && space.pending[port] > 0 && monitor != Some(port)
      modifies this`run
      ensures port in tables.recs && Due(WithoutRecord(Abstract(), port, s)) && old(run) <= run
      ensures Urefs(s, port) == owned[port]
    {
      Healthy();
      DestroyStep(Last(run), port);
      var r := tables.FindPort(port);
      var reply := ModRefs(Heard(space, port), port, DeadNameKind, 0 - r.urefs - 1);
      assert reply.0 == Success;
      s := reply.1;
      Commit(WithoutRecord(Last(run), port, s));
    }

    /** port_destroy, on a dead-name notification: the record is always found, its references and
        the notification's own go back to the kernel, and the callers keep theirs. */
    method PortDestroy(port: Port)
      requires Valid() && space.pending[port] > 0 && monitor != Some(port)
      modifies this`space, this`run, tables, tables.portToName, tables.nameToPort
      modifies tables.recs.Values`pnNext, tables.recs.Values`npNext
      ensures Valid() && old(run) <= run
      ensures port in old(tables.recs) && tables.recs == old(tables.recs) - {port}
      ensures Urefs(space, port) == owned[port]
    {
      Interfere();
      var s := TakeBack(port);
      Expel(port, s);
    }

    twostate lemma AssocsChanged(r: PortRecord)
      requires tables.recs == old(tables.recs) && Bijection(tables.recs) && Filed(tables.recs, r)
      requires unchanged(this`space) && unchanged(this`next) && unchanged(this`owned) && unchanged(this`monitor)
      requires unchanged(tables.recs.Values`urefs)
      requires unchanged((set x | x in tables.recs.Values && x != r)`assocs)
      ensures Abstract() == WithAssocs(old(Abstract()), r.port, r.assocs)
    {
      assert Abstract().recs == old(Abstract().recs)[r.port := RecOf(r)];
    }

    method SetAssocs(r: PortRecord, assocs: Assocs)
      requires Filed(tables.recs, r) && Due(WithAssocs(Abstract(), r.port, assocs))
      modifies r`assocs
      ensures Valid() && r.assocs == assocs
    {
      r.assocs := assocs;
      AssocsChanged(r);
      StillOnCourse();
      StillShaped();
    }

    /** The end of assoc_create: change the association of the type, or add one in front. */
    method PutAssoc(r: PortRecord, atype: MachType, aname: Name)
      requires Valid() && Filed(tables.recs, r) && 0 < aname < next
      modifies this`run, r`assocs
      ensures Valid() && old(run) <= run
      ensures r.assocs == AssocPut(old(r.assocs), atype, aname)
    {
      var found := FindAssoc(r.assocs, atype);
      AssociateStep(Last(run), r.port, atype, aname);
      Commit(WithAssocs(Last(run), r.port, AssocPut(r.assocs, atype, aname)));
      var assocs := if found.Assoc? then AssocReplace(r.assocs, atype, aname)
                    else Assoc(atype, aname, r.assocs);
      SetAssocs(r, assocs);
    }

    /** assoc_create: nothing happens if the name is not bound. */
    method AssocCreate(name: Name, atype: MachType, aname: Name)
      requires Valid() && aname < next
      modifies this`run, tables.recs.Values`assocs
      ensures Valid() && old(run) <= run
      ensures forall p :: p in tables.recs ==>
                tables.recs[p].assocs ==
                  if tables.recs[p].name == name && name != 0 && aname != 0
                  then AssocPut(old(tables.recs[p].assocs), atype, aname)
                  else old(tables.recs[p].assocs)
    {
      if name == 0 || aname == 0 {
        return;
      }
      var r := tables.FindName(name);
      if r != null {
        PutAssoc(r, atype, aname);
      }
    }

    /** assoc_lookup: the associated name, or 0. */
    method AssocLookup(name: Name, atype: MachType) returns (aname: Name)
      requires Valid()
      ensures forall p :: p in tables.recs && tables.recs[p].name == name ==>
                aname == AssocGet(tables.recs[p].assocs, atype)
      ensures (forall p :: p in tables.recs ==> tables.recs[p].name != name) ==> aname == 0
      ensures aname < next
    {
      Healthy();
      var r := tables.FindName(name);
      if r == null {
        return 0;
      }
      assert PortInv(Last(run), r.port);
      AssocGetBelow(r.assocs, atype, next);
      var found := FindAssoc(r.assocs, atype);
      aname := if found.Assoc? then found.name else 0;
    }

    /** type_lookup: the type of a bound name, or none. */
    method TypeLookup(name: Name) returns (t: MachType)
      requires Valid()
      ensures forall p :: p in tables.recs && tables.recs[p].name == name ==> t == tables.recs[p].ptype
      ensures (forall p :: p in tables.recs ==> tables.recs[p].name != name) ==> t == NoType
    {
      var r := tables.FindName(name);
      t := if r != null then r.ptype else NoType;
    }

    /** authorize, decided on the tables. */
    method Authorize(r: PortRecord, auth: Port, op: Op) returns (ok: bool)
      requires Valid() && Filed(tables.recs, r)
      ensures ok <==> Authorized(Last(run), r.port, auth, op)
      ensures ok <==> || op == OpInfo
                      || r.ptype == ProcessorSetName || r.ptype == MachType.Host || r.ptype == ObjectName
                      || (&& auth != 0 && auth != 0xffff_ffff && auth in tables.recs
                          && (|| auth == r.port
                              || AssocGet(r.assocs, HostPriv) == tables.recs[auth].name
                              || AssocGet(r.assocs, Task) == tables.recs[auth].name))
    {
      if op == OpInfo || r.ptype in {ProcessorSetName, Host, ObjectName} {
        return true;
      }
      if !PortValid(auth) {
        return false;
      }
      var authpr := tables.FindPort(auth);
      if authpr == null {
        return false;
      }
      Healthy();
      assert PortInv(Last(run), auth) && PortInv(Last(run), r.port);
      if r.name == authpr.name {
        assert HasName(Last(run), r.port, r.name) && HasName(Last(run), auth, r.name);
        return true;
      }
      AssocGetBelow(r.assocs, HostPriv, next);
      AssocGetBelow(r.assocs, Task, next);
      var thisa := FindAssoc(r.assocs, HostPriv);
      if thisa.Assoc? && thisa.name == authpr.name {
        return true;
      }
      thisa := FindAssoc(r.assocs, Task);
      return thisa.Assoc? && thisa.name == authpr.name;
    }

    /** port_lookup: a bound name yields its port and one reference. Information and the name ports are
        for everyone; anything else is for who shows a port that has a record, and that is the object's
        own port, its privileged host port or its task port. */
    method PortLookup(name: Name, auth: Port, op: Op) returns (res: LookupResult)
      requires Valid()
      modifies this`space, this`run, this`owned, tables.recs.Values`urefs
      ensures Valid() && old(run) <= run
      ensures res == BadName <==> !IsBound(name)
      ensures res.Found? ==> IsNameOf(res.port, name)
      ensures var recs := old(Last(run)).recs;
              forall p :: p in recs && recs[p].name == name
                          && (op == OpInfo || recs[p].ptype == ProcessorSetName || recs[p].ptype == MachType.Host
                              || recs[p].ptype == ObjectName) ==>
                res == Found(p)
      ensures var recs := old(Last(run)).recs;
              forall p :: p in recs && recs[p].name == name
                          && op != OpInfo && recs[p].ptype != ProcessorSetName && recs[p].ptype != MachType.Host
                          && recs[p].ptype != ObjectName ==>
                res == if && auth != 0 && auth != 0xffff_ffff && auth in recs
                          && (|| auth == p
                              || AssocGet(recs[p].assocs, HostPriv) == recs[auth].name
                              || AssocGet(recs[p].assocs, Task) == recs[auth].name)
                       then Found(p) else Protected
      ensures VerdictOf(res) == Decision(old(Last(run)), name, auth, op)
      ensures owned == old(owned) + if res.Found? then multiset{res.port} else multiset{}
    {
      var r := tables.FindName(name);
      if r == null {
        return BadName;
      }
      assert IsNameOf(r.port, name);
      Healthy();
      OneHolder(Last(run), r.port, name);
      DecisionIs(Last(run), r.port, name, auth, op);
      var ok := Authorize(r, auth, op);
      if !ok {
        return Protected;
      }
      SubReference(r);
      return Found(r.port);
    }

    lemma IsIssued(p: Port)
      requires Valid() && p in Last(run).recs
      ensures PortValid(p) && 0 < Last(run).recs[p].name < next
    {
      Healthy();
      assert PortInv(Last(run), p);
    }

    /** port_lookup as the handlers use it. */
    method Acquire(name: Name, auth: Port, op: Op) returns (res: LookupResult)
      requires Valid()
      modifies this`space, this`run, this`owned, tables.recs.Values`urefs
      ensures Valid() && old(run) <= run && Quiet(old(Last(run)), Last(run))
      ensures res.Found? ==> IsNameOf(res.port, name)
      ensures VerdictOf(res) == Decision(old(Last(run)), name, auth, op)
      ensures owned == old(owned) + if res.Found? then multiset{res.port} else multiset{}
    {
      res := PortLookup(name, auth, op);
      Quietly();
    }

    twostate lemma SameDecision(name: Name, new auth: Port, new op: Op)
      requires old(Valid()) && Valid() && Kept() && AssocsKept()
      requires tables.recs.Keys == old(tables.recs).Keys
      ensures Decision(Last(run), name, auth, op) == Decision(old(Last(run)), name, auth, op)
    {
      DecisionKept(old(Last(run)), Last(run), name, auth, op);
    }

    /** A look-up of one name does not change the answer for another. */
    method AcquireKeeping(name: Name, auth: Port, op: Op, ghost other: Name, ghost v: Verdict, ghost w: Verdict)
      returns (res: LookupResult)
      requires Valid()
      requires v == Decision(Last(run), name, auth, op) && w == Decision(Last(run), other, auth, op)
      modifies this`space, this`run, this`owned, tables.recs.Values`urefs
      ensures Valid() && old(run) <= run && Quiet(old(Last(run)), Last(run))
      ensures res.Found? ==> IsNameOf(res.port, name)
      ensures VerdictOf(res) == v && w == Decision(Last(run), other, auth, op)
      ensures owned == old(owned) + if res.Found? then multiset{res.port} else multiset{}
    {
      res := Acquire(name, auth, op);
      SameDecision(other, auth, op);
    }

    twostate lemma GrownQuietly(tags: map<MachType, Name>)
      requires old(Valid()) && Valid() && Kept() && AssocsKept()
      requires forall p :: p in tables.recs && p !in old(tables.recs) ==> tables.recs[p].assocs == NoAssoc
      ensures Grows(old(Last(run)), Last(run), tags)
      ensures Touched(old(Last(run)), Last(run), {})
    {
    }

    /** Only counts and the kernel's table have changed. */
    twostate lemma Quietly()
      requires old(Valid()) && Valid() && tables.recs == old(tables.recs) && AssocsKept()
      requires next == old(next) && monitor == old(monitor)
      ensures Quiet(old(Last(run)), Last(run))
    {
    }

    /** A new record at most. */
    twostate lemma RecordedNow(port: Port, new ptype: MachType)
      requires old(Valid()) && Valid() && Kept() && AssocsKept()
      requires tables.recs.Keys == old(tables.recs).Keys + Ones(port)
      requires PortValid(port) && port !in old(tables.recs) ==>
                 tables.recs[port].ptype == ptype && tables.recs[port].assocs == NoAssoc
      ensures Recorded(old(Last(run)), Last(run), port, ptype)
    {
    }

    /** name_lookup, seen on states. */
    method NameIt(port: Port, ptype: MachType) returns (quit: bool, name: Name)
      requires Valid() && (PortValid(port) ==> owned[port] > 0)
      modifies Repr
      ensures quit ==> old(monitor) == Some(port)
      ensures !quit ==> Valid() && OnlyNew() && owned == old(owned) - RefOf(port)
      ensures !quit ==> Recorded(old(Last(run)), Last(run), port, ptype) && name == NameOf(port)
      ensures !quit ==> old(next) <= next && monitor == old(monitor)
      ensures old(run) <= run
    {
      quit, name := NameLookup(port, ptype);
      if !quit {
        RecordedNow(port, ptype);
      }
    }

    /** auth_consume, seen on states. */
    method ConsumeIt(port: Port)
      requires Valid() && (PortValid(port) ==> owned[port] > 0)
      modifies this`space, this`run, this`owned, tables.recs.Values`urefs
      ensures Valid() && owned == old(owned) - RefOf(port) && old(run) <= run
      ensures Quiet(old(Last(run)), Last(run))
    {
      AuthConsume(port);
      Quietly();
    }

    /** port_consume, seen on states. */
    method ReturnIt(port: Port)
      requires Valid() && port in tables.recs && owned[port] > 0
      modifies this`space, this`run, this`owned, tables.recs.Values`urefs
      ensures Valid() && owned == old(owned) - multiset{port} && old(run) <= run
      ensures Quiet(old(Last(run)), Last(run))
    {
      PortConsume(port);
      Quietly();
    }

    /** name_lookup as the listing handlers use it. */
    method NameFor(port: Port, ptype: MachType, ghost tags: map<MachType, Name>) returns (quit: bool, name: Name)
      requires Valid() && (PortValid(port) ==> owned[port] > 0)
      modifies Repr
      ensures quit ==> old(monitor) == Some(port)
      ensures !quit ==> Valid() && OnlyNew() && owned == old(owned) - RefOf(port)
      ensures old(run) <= run
      ensures !quit ==> Grows(old(Last(run)), Last(run), tags) && Touched(old(Last(run)), Last(run), {})
      ensures !quit ==> Settled(Last(run), port, name, map[])
      ensures !quit ==> AllNewOf(old(Last(run)), Last(run), ptype)
      ensures !quit ==> Last(run).recs.Keys <= old(Last(run)).recs.Keys + Ones(port)
    {
      quit, name := NameLookup(port, ptype);
      if !quit {
        GrownQuietly(tags);
      }
    }

    /** auth_consume at the end of a listing handler: no record is disturbed. */
    method TakeAuth(port: Port, ghost tags: map<MachType, Name>)
      requires Valid() && (PortValid(port) ==> owned[port] > 0)
      modifies this`space, this`run, this`owned, tables.recs.Values`urefs
      ensures Valid() && owned == old(owned) - RefOf(port) && old(run) <= run
      ensures Grows(old(Last(run)), Last(run), tags) && Touched(old(Last(run)), Last(run), {})
      ensures Last(run).recs.Keys == old(Last(run)).recs.Keys
    {
      AuthConsume(port);
      GrownQuietly(tags);
    }

    /** assoc_create as the listing handlers use it. */
    method TagWith(ghost p: Port, name: Name, t: MachType, n: Name, ghost tags: map<MachType, Name>)
      requires Valid() && n < next && t in tags && tags[t] == n
      requires Settled(Last(run), p, name, map[])
      modifies this`run, tables.recs.Values`assocs
      ensures Valid() && old(run) <= run
      ensures Grows(old(Last(run)), Last(run), tags)
      ensures Last(run).recs.Keys == old(Last(run)).recs.Keys
      ensures Settled(Last(run), p, name, Tag(t, n))
      ensures Touched(old(Last(run)), Last(run), Marks([p], Tag(t, n)))
    {
      ghost var a := Last(run);
      Healthy();
      assert PortInv(a, p);
      AssocCreate(name, t, n);
      GrownByTag(a, Last(run), p, name, t, n, tags);
    }

    lemma SettledBelow(p: Port, name: Name, tags: map<MachType, Name>)
      requires Valid() && Settled(Last(run), p, name, tags)
      ensures name < next
    {
      Healthy();
      assert PortInv(Last(run), p);
    }

    /** What a grown server still has. */
    lemma GrownBounds(a: State, tags: map<MachType, Name>)
      requires Valid() && (a == Last(run) || Grows(a, Last(run), tags))
      ensures a.next <= next && a.monitor == monitor && a.recs.Keys <= tables.recs.Keys
      ensures a == Last(run) ==> a.recs.Keys == tables.recs.Keys
    {
    }

    /** Two assoc_create on the name of a port in hand. */
    method TagTwice(ghost p: Port, name: Name, t1: MachType, n1: Name, t2: MachType, n2: Name)
      requires Valid() && n1 < next && n2 < next && t1 != t2
      requires Settled(Last(run), p, name, map[])
      modifies this`run, tables.recs.Values`assocs
      ensures Valid() && old(run) <= run
      ensures Grows(old(Last(run)), Last(run), Tags(t1, n1, t2, n2))
      ensures Last(run).recs.Keys == old(Last(run)).recs.Keys
      ensures Settled(Last(run), p, name, Tags(t1, n1, t2, n2))
      ensures Touched(old(Last(run)), Last(run), Marks([p], Tags(t1, n1, t2, n2)))
    {
      ghost var a := Last(run);
      TagWith(p, name, t1, n1, Tags(t1, n1, t2, n2));
      ghost var b := Last(run);
      TagWith(p, name, t2, n2, Tags(t1, n1, t2, n2));
      GrownTrans(a, b, Last(run), Tags(t1, n1, t2, n2));
      SettledTwice(b, Last(run), p, name, t1, n1, t2, n2);
      MarksOfOne([p], p, Tag(t1, n1), Tags(t1, n1, t2, n2));
      MarksOfOne([p], p, Tag(t2, n2), Tags(t1, n1, t2, n2));
      TouchedOn(a, b, Last(run), Marks([p], Tag(t1, n1)), Marks([p], Tag(t2, n2)), Marks([p], Tags(t1, n1, t2, n2)));
    }

    /** name_lookup followed by two assoc_create on the name, as the listing handlers do for each
        port they were given. */
    method NameAndTag(port: Port, ptype: MachType, t1: MachType, n1: Name, t2: MachType, n2: Name)
      returns (quit: bool, name: Name)
      requires Valid() && (PortValid(port) ==> owned[port] > 0) && n1 < next && n2 < next && t1 != t2
      modifies Repr
      ensures quit ==> old(monitor) == Some(port)
      ensures !quit ==> Valid() && OnlyNew() && owned == old(owned) - RefOf(port)
      ensures old(run) <= run
      ensures !quit ==> Grows(old(Last(run)), Last(run), Tags(t1, n1, t2, n2))
      ensures !quit ==> Settled(Last(run), port, name, Tags(t1, n1, t2, n2))
      ensures !quit ==> AllNewOf(old(Last(run)), Last(run), ptype)
      ensures !quit ==> Touched(old(Last(run)), Last(run), Marks([port], Tags(t1, n1, t2, n2)))
    {
      ghost var a := Last(run);
      quit, name := NameFor(port, ptype, Tags(t1, n1, t2, n2));
      if quit {
        return;
      }
      ghost var b := Last(run);
      TagTwice(port, name, t1, n1, t2, n2);
      GrownTrans(a, b, Last(run), Tags(t1, n1, t2, n2));
      NoNewcomers(b, Last(run), ptype);
      NewcomersTrans(a, b, Last(run), ptype, Tags(t1, n1, t2, n2));
      TouchedOn(a, b, Last(run), {}, Marks([port], Tags(t1, n1, t2, n2)), Marks([port], Tags(t1, n1, t2, n2)));
    }

    /** Watch a monitor port, or stop watching it. */
    method SetMonitor(s: Space, ghost own: multiset<Port>, ghost mon: Option<Port>)
      requires Due(WithSpace(Abstract(), s, own, mon)) && (mon.Some? ==> mon.value == monitorPort)
      modifies this`space, this`owned, this`monitor
      ensures Valid() && space == s && owned == own && monitor == mon
    {
      space, owned, monitor := s, own, mon;
    }

    /** The end of an attempt: ask to be told when the monitor port dies. */
    method WatchMonitor() returns (res: Progress)
      requires Valid() && monitor == None && owned[monitorPort] > 0 && PortValid(monitorPort)
      modifies this`space, this`run, this`owned, this`monitor
      ensures old(run) <= run
      ensures res != Quit ==> Valid() && owned == old(owned) - multiset{monitorPort}
      ensures res == Retry ==> monitor == None && DiedSince(run, |old(run)|, monitorPort)
      ensures res == Done ==> monitor == Some(monitorPort) && Armed(space, monitorPort)
      ensures res == Done ==> monitorPort !in tables.recs && Urefs(space, monitorPort) == 1 + owned[monitorPort]
      ensures res == Quit ==> Valid() && monitorPort in tables.recs && Armed(space, monitorPort)
    {
      Interfere();
      ghost var before := run;
      res := WatchNow();
      if res == Retry {
        CameGrows(monitorPort, MACH_PORT_NULL, run, |before| - 1, run, |old(run)|);
      }
    }

    /** The monitor port is a dead name by now. */
    method GiveUp()
      requires Valid() && owned[monitorPort] > 0 && Dead(space, monitorPort)
      modifies this`space, this`run, this`owned
      ensures Valid() && owned == old(owned) - multiset{monitorPort} && old(run) <= run
      ensures Came(monitorPort, MACH_PORT_NULL, run, |old(run)| - 1)
    {
      ghost var before := run;
      assert Dead(before[|before| - 1].space, monitorPort);
      ReleaseRight(monitorPort);
      CameGrows(monitorPort, MACH_PORT_NULL, before, |before| - 1, run, |before| - 1);
    }

    /** The request is registered: the reference in hand is the monitor's from now on. */
    method WatchIt(s: Space)
      requires Valid() && monitor == None && owned[monitorPort] > 0
      requires IsRun([Last(run), WithSpace(Last(run), s, owned - multiset{monitorPort}, Some(monitorPort))])
      modifies this`space, this`run, this`owned, this`monitor
      ensures Valid() && old(run) <= run && space == s && owned == old(owned) - multiset{monitorPort}
      ensures monitor == Some(monitorPort)
    {
      Commit(WithSpace(Last(run), s, owned - multiset{monitorPort}, Some(monitorPort)));
      SetMonitor(s, owned - multiset{monitorPort}, Some(monitorPort));
    }

    method WatchNow() returns (res: Progress)
      requires Valid() && monitor == None && owned[monitorPort] > 0 && PortValid(monitorPort)
      modifies this`space, this`run, this`owned, this`monitor
      ensures old(run) <= run
      ensures res != Quit ==> Valid() && owned == old(owned) - multiset{monitorPort}
      ensures res == Retry ==> monitor == None && Came(monitorPort, MACH_PORT_NULL, run, |old(run)| - 1)
      ensures res == Done ==> monitor == Some(monitorPort) && Armed(space, monitorPort)
      ensures res == Done ==> monitorPort !in tables.recs && Urefs(space, monitorPort) == 1 + owned[monitorPort]
      ensures res == Quit ==> Valid() && monitorPort in tables.recs && Armed(space, monitorPort)
    {
      Healthy();
      WatchStep(Last(run), monitorPort);
      var reply := RequestDeadName(space, monitorPort, false);
      if reply.0 != Success || reply.1 {
        if reply.0 == InvalidArgument {
          GiveUp();
          return Retry;
        }
        return Quit;
      }
      WatchIt(reply.2);
      return Done;
    }

    /** netname_look_up answers with a port. */
    method LookUpMonitor(p: Port)
      requires Valid() && monitor == None
      modifies this`space, this`run, this`owned, this`monitorPort
      ensures Valid() && old(run) <= run
      ensures owned == old(owned) + RefOf(monitorPort)
      ensures Came(p, monitorPort, run, |old(run)|)
    {
      monitorPort := ReceiveRight(p);
    }

    /** The name server died at the check-in: mach_port_deallocate of the monitor port, which fails
        on what is no port. */
    method DropMonitor() returns (res: Progress)
      requires Valid() && monitor == None && RefOf(monitorPort) <= owned
      modifies this`space, this`run, this`owned
      ensures old(run) <= run && Valid()
      ensures res == if PortValid(monitorPort) then Retry else Quit
      ensures owned == old(owned) - RefOf(monitorPort)
    {
      if PortValid(monitorPort) {
        ReleaseRight(monitorPort);
        return Retry;
      }
      DeallocateNoPort(run, |run| - 1, monitorPort);
      assert Deallocate(space, monitorPort).0 != Success;
      return Quit;
    }

    /** netname_check_in and what follows, for a monitor port that has been looked up. */
    method CheckIn(reply: CheckInReply, ghost p: Port, ghost from: nat) returns (res: Progress)
      requires Valid() && monitor == None && RefOf(monitorPort) <= owned
      requires from <= |run| && Came(p, monitorPort, run, from)
      modifies this`space, this`run, this`owned, this`monitor
      ensures old(run) <= run
      ensures res != Quit ==> Valid() && owned == old(owned) - RefOf(monitorPort)
      ensures res == Retry ==> monitor == None && Retried(Attempt(Answer(p), reply), run, from)
      ensures res == Done ==> monitor == Some(monitorPort) && Armed(space, monitorPort)
      ensures res == Done ==> monitorPort !in tables.recs && Urefs(space, monitorPort) == 1 + owned[monitorPort]
      ensures res == Done ==> reply == CheckInOk && p == monitorPort
      ensures res == Quit ==> Valid() && QuitFor(Attempt(Answer(p), reply), run, from)
    {
      match reply {
        case CheckInError => res := Quit;
        case CheckInDied => res := Drop(p, from);
        case CheckInOk => res := Watch(p, from);
      }
    }

    /** The name server died: what follows for the port that it gave. */
    method Drop(ghost p: Port, ghost from: nat) returns (res: Progress)
      requires Valid() && monitor == None && RefOf(monitorPort) <= owned
      requires from <= |run| && Came(p, monitorPort, run, from)
      modifies this`space, this`run, this`owned, this`monitor
      ensures old(run) <= run && Valid() && owned == old(owned) - RefOf(monitorPort) && monitor == None
      ensures res == Retry ==> Retried(Attempt(Answer(p), CheckInDied), run, from)
      ensures res != Done
      ensures res == Quit ==> QuitFor(Attempt(Answer(p), CheckInDied), run, from)
    {
      ghost var before := run;
      res := DropMonitor();
      CameGrows(p, monitorPort, before, from, run, from);
    }

    /** The service is checked in: watch the port, if it is one. */
    method Watch(ghost p: Port, ghost from: nat) returns (res: Progress)
      requires Valid() && monitor == None && RefOf(monitorPort) <= owned
      requires from <= |run| && Came(p, monitorPort, run, from)
      modifies this`space, this`run, this`owned, this`monitor
      ensures old(run) <= run
      ensures res != Quit ==> Valid() && owned == old(owned) - RefOf(monitorPort)
      ensures res == Retry ==> monitor == None && Retried(Attempt(Answer(p), CheckInOk), run, from)
      ensures res == Done ==> monitor == Some(monitorPort) && Armed(space, monitorPort) && p == monitorPort
      ensures res == Done ==> monitorPort !in tables.recs && Urefs(space, monitorPort) == 1 + owned[monitorPort]
      ensures res == Quit ==> Valid() && QuitFor(Attempt(Answer(p), CheckInOk), run, from)
    {
      res := Retry;
      if PortValid(monitorPort) {
        ghost var before := run;
        res := WatchMonitor();
        if res == Retry {
          CameGrows(monitorPort, MACH_PORT_NULL, run, |before|, run, from);
        }
      }
    }

    /** One turn of the loop of do_check_in. When it has to be tried again, nothing is held. */
    method TryCheckIn(attempt: Attempt) returns (res: Progress)
      requires Valid() && monitor == None
      modifies this`space, this`run, this`owned, this`monitor, this`monitorPort
      ensures old(run) <= run
      ensures res != Quit ==> Valid() && owned == old(owned)
      ensures res == Retry ==> monitor == None && Retried(attempt, run, |old(run)|)
      ensures res == Done ==> monitor == Some(monitorPort) && Armed(space, monitorPort)
      ensures res == Done ==> monitorPort !in tables.recs && Urefs(space, monitorPort) == 1 + owned[monitorPort]
      ensures res == Done ==> attempt == Attempt(Answer(monitorPort), CheckInOk)
      ensures res == Quit ==> Valid() && QuitFor(attempt, run, |old(run)|)
      ensures attempt.lookUp == LookUpDied || attempt.lookUp == NotCheckedIn ==> res == Retry
      ensures attempt.lookUp == LookUpError ==> res == Quit
      ensures attempt.lookUp.Answer? ==>
                && (attempt.checkIn == CheckInError ==> res == Quit)
                && (attempt.checkIn == CheckInDied ==> res != Done)
                && (attempt.checkIn == CheckInDied && res == Quit && PortValid(attempt.lookUp.port) ==>
                      DiedSince(run, |old(run)|, attempt.lookUp.port))
                && (attempt.checkIn == CheckInDied && res == Retry ==> PortValid(attempt.lookUp.port))
                && (attempt.checkIn == CheckInOk && res == Retry && PortValid(attempt.lookUp.port) ==>
                      DiedSince(run, |old(run)|, attempt.lookUp.port))
                && (attempt.checkIn == CheckInOk && res == Quit ==> attempt.lookUp.port in tables.recs)
    {
      match attempt.lookUp
      case LookUpDied => return Retry;
      case NotCheckedIn => return Retry;
      case LookUpError => return Quit;
      case Answer(p) => res := LookUpAndCheckIn(p, attempt.checkIn);
    }

    method LookUpAndCheckIn(p: Port, reply: CheckInReply) returns (res: Progress)
      requires Valid() && monitor == None
      modifies this`space, this`run, this`owned, this`monitor, this`monitorPort
      ensures old(run) <= run
      ensures res != Quit ==> Valid() && owned == old(owned)
      ensures res == Retry ==> monitor == None && Retried(Attempt(Answer(p), reply), run, |old(run)|)
      ensures res == Done ==> monitor == Some(monitorPort) && Armed(space, monitorPort)
      ensures res == Done ==> monitorPort !in tables.recs && Urefs(space, monitorPort) == 1 + owned[monitorPort]
      ensures res == Done ==> reply == CheckInOk && p == monitorPort
      ensures res == Quit ==> Valid() && QuitFor(Attempt(Answer(p), reply), run, |old(run)|)
    {
      ghost var base := owned;
      LookUpMonitor(p);
      assert owned - RefOf(monitorPort) == base;
      res := CheckIn(reply, p, |old(run)|);
    }

    /** do_check_in, against any finite history of the name server. It comes back checked in, with
        one reference on the monitor port and one request armed; or it is still trying, with
        nothing held; or it has quit. Every attempt before the last had to be tried again. */
    method DoCheckIn(deadName: bool, script: seq<Attempt>) returns (res: Progress, n: nat)
      requires Valid()
      requires if deadName then monitor.Some? && space.pending[monitorPort] > 0 else monitor == None
      modifies this`space, this`run, this`owned, this`monitor, this`monitorPort
      ensures old(run) <= run && n <= |script|
      ensures forall k :: 0 <= k < n ==> Retried(script[k], run, |old(run)|)
      ensures res != Quit ==> Valid() && owned == old(owned)
      ensures res == Retry ==> monitor == None && n == |script|
      ensures res == Done ==> n < |script| && script[n] == Attempt(Answer(monitorPort), CheckInOk)
      ensures res == Done ==> monitor == Some(monitorPort) && Armed(space, monitorPort)
      ensures res == Done ==> monitorPort !in tables.recs && Urefs(space, monitorPort) == 1 + owned[monitorPort]
      ensures res == Quit ==> n < |script| && QuitFor(script[n], run, |old(run)|)
    {
      if deadName {
        LetGo();
      }
      n := 0;
      while n < |script|
        invariant n <= |script| && Valid() && monitor == None
        invariant owned == old(owned) && old(run) <= run
        invariant forall k :: 0 <= k < n ==> Retried(script[k], run, |old(run)|)
      {
        ghost var before := run;
        res := TryCheckIn(script[n]);
        AttemptsSince(script, n, res, before, run, |old(run)|);
        if res != Retry {
          return;
        }
        n := n + 1;
      }
      res := Retry;
    }

    /** The monitor port has died: give back its reference and the notification's own. */
    method LetGo()
      requires Valid() && monitor.Some? && space.pending[monitorPort] > 0
      modifies this`space, this`run, this`owned, this`monitor
      ensures Valid() && monitor == None && owned == old(owned) && old(run) <= run
    {
      Interfere();
      Healthy();
      UnwatchStep(Last(run), monitorPort);
      var reply := ModRefs(Heard(space, monitorPort), monitorPort, DeadNameKind, -2);
      assert reply.0 == Success;
      Commit(WithSpace(Last(run), reply.1, owned, None));
      SetMonitor(reply.1, owned, None);
    }

    /** do_mach_notify_dead_name: the death of the monitor port means checking in again, any other
        means destroying a record. */
    method DoMachNotifyDeadName(name: Port, script: seq<Attempt>) returns (res: Progress, n: nat)
      requires Valid() && monitor.Some? && space.pending[name] > 0
      modifies this`space, this`run, this`owned, this`monitor, this`monitorPort
      modifies tables, tables.portToName, tables.nameToPort
      modifies tables.recs.Values`pnNext, tables.recs.Values`npNext
      ensures old(run) <= run && n <= |script|
      ensures res != Quit ==> Valid() && owned == old(owned)
      ensures name != old(monitorPort) ==>
                && res == Done && monitor == old(monitor)
                && name in old(tables.recs) && tables.recs == old(tables.recs) - {name}
                && Urefs(space, name) == owned[name]
      ensures name == old(monitorPort) ==>
                && tables.recs == old(tables.recs)
                && (forall k :: 0 <= k < n ==> Retried(script[k], run, |old(run)|))
      ensures name == old(monitorPort) && res == Retry ==> monitor == None && n == |script|
      ensures name == old(monitorPort) && res == Done ==>
                && n < |script| && script[n] == Attempt(Answer(monitorPort), CheckInOk)
                && monitor == Some(monitorPort) && Armed(space, monitorPort) && monitorPort !in tables.recs
      ensures res == Quit ==> n < |script| && QuitFor(script[n], run, |old(run)|)
    {
      if name != monitorPort {
        PortDestroy(name);
        res, n := Done, 0;
      } else {
        res, n := DoCheckIn(true, script);
      }
    }
  }

  /** The attempts so far, seen from a later state. */
  lemma AttemptsSince(script: seq<Attempt>, n: nat, res: Progress, before: seq<State>, run: seq<State>, from: nat)
    requires n < |script| && before <= run && from <= |before|
    requires forall k :: 0 <= k < n ==> Retried(script[k], before, from)
    requires res == Retry ==> Retried(script[n], run, |before|)
    requires res == Quit ==> QuitFor(script[n], run, |before|)
    ensures forall k :: 0 <= k < n ==> Retried(script[k], run, from)
    ensures res == Retry ==> Retried(script[n], run, from)
    ensures res == Quit ==> QuitFor(script[n], run, from)
  {
    forall k | 0 <= k < n ensures Retried(script[k], run, from) {
      RetriedGrows(script[k], before, from, run, from);
    }
    if res == Retry {
      RetriedGrows(script[n], run, |before|, run, from);
    }
    if res == Quit && script[n].lookUp.Answer? && script[n].checkIn == CheckInDied {
      CameGrows(script[n].lookUp.port, MACH_PORT_NULL, run, |before|, run, from);
    }
  }
}
