/**
 The machid server as a state machine: its records, the references it has banked, the
 references its callers hold, and the kernel's table for the task. Ports may die between any
 two steps. A run is any sequence of enabled steps from the empty server.
 */
module MachidMachine {
  import opened Options
  import opened MachKernel
  import opened PortTables

  const MAX_UREFS := 1000
  const MORE_UREFS := 100

  datatype Rec = Rec(name: Name, ptype: MachType, urefs: nat, assocs: Assocs)

  /** `owned`: user references in the hands of message handlers, by port.
      `monitor`: the name server's monitor port, once checked in and watched. */
  datatype State = State(space: Space, recs: map<Port, Rec>, next: Name,
                         owned: multiset<Port>, monitor: Option<Port>)

  datatype Step =
    | Deaths(dying: set<Port>)
    | Arrive(port: Port)
    | Release(port: Port)
    | AddRef(port: Port)
    | SubRef(port: Port)
    | Create(port: Port, ptype: MachType)
    | Destroy(port: Port)
    | Associate(port: Port, atype: MachType, aname: Name)
    | Watch(port: Port)
    | Unwatch

  // Associations: at most one per type, the newest type first.

  function AssocGet(s: Assocs, t: MachType): Name {
    match s
    case NoAssoc => 0
    case Assoc(u, n, rest) => if u == t then n else AssocGet(rest, t)
  }

  predicate AssocHas(s: Assocs, t: MachType) {
    s.Assoc? && (s.atype == t || AssocHas(s.next, t))
  }

  /** Change the name of the first association of the type. */
  function AssocReplace(s: Assocs, t: MachType, n: Name): Assocs {
    match s
    case NoAssoc => NoAssoc
    case Assoc(u, m, rest) => if u == t then Assoc(u, n, rest) else Assoc(u, m, AssocReplace(rest, t, n))
  }

  function AssocPut(s: Assocs, t: MachType, n: Name): Assocs {
    if AssocHas(s, t) then AssocReplace(s, t, n) else Assoc(t, n, s)
  }

  ghost predicate NamesBelow(s: Assocs, next: Name) {
    s.Assoc? ==> 0 < s.name < next && NamesBelow(s.next, next)
  }

  // References.

  function Banked(a: State, p: Port): nat {
    if p in a.recs then a.recs[p].urefs else 0
  }

  function Monitored(a: State, p: Port): nat {
    if a.monitor == Some(p) then 1 else 0
  }

  // Steps.

  ghost predicate Enabled(a: State, st: Step) {
    match st
    case Deaths(d) => d == a.space.fate(a.space.time)
    case Arrive(p) => PortValid(p) && !Dead(a.space, p)
    case Release(p) => a.owned[p] > 0
    case AddRef(p) => p in a.recs && a.owned[p] > 0
    case SubRef(p) => p in a.recs
    case Create(p, _) => PortValid(p) && p !in a.recs && a.owned[p] > 0 && !Armed(a.space, p)
    case Destroy(p) => p in a.recs && a.space.pending[p] > 0 && a.monitor != Some(p)
    case Associate(p, _, n) => p in a.recs && 0 < n < a.next
    case Watch(p) => a.monitor == None && a.owned[p] > 0 && Live(a.space, p) && !Armed(a.space, p)
    case Unwatch => a.monitor.Some? && a.space.pending[a.monitor.value] > 0
  }

  /** The notification about `p` has been received. */
  function Heard(s: Space, p: Port): Space {
    s.(pending := s.pending - multiset{p})
  }

  /** A banked count one higher would pass the cap, and the port is still alive. */
  ghost predicate Trims(a: State, p: Port) {
    Banked(a, p) + 1 > MAX_UREFS && Live(a.space, p)
  }

  /** The kernel's side of a step. */
  ghost function NextSpace(a: State, st: Step): Space {
    var s := a.space;
    match st
    case Deaths(d) => Kill(s, d)
    case Arrive(p) => if Dead(s, p) then s else Receive(s, p)
    case Release(p) => Deallocate(s, p).1
    case AddRef(p) => if Trims(a, p) then ModRefs(s, p, SendKind, 0 - Banked(a, p)).1 else s
    case SubRef(p) =>
      if Banked(a, p) != 1 then s
      else ModRefs(s, p, if Live(s, p) then SendKind else DeadNameKind, MORE_UREFS).1
    case Create(p, _) => RequestDeadName(s, p, true).2
    case Destroy(p) => ModRefs(Heard(s, p), p, DeadNameKind, 0 - Banked(a, p) - 1).1
    case Associate(_, _, _) => s
    case Watch(p) => RequestDeadName(s, p, false).2
    case Unwatch =>
      if a.monitor.None? then s
      else ModRefs(Heard(s, a.monitor.value), a.monitor.value, DeadNameKind, -2).1
  }

  /** The server's side of a step. add_reference banks one reference and, past MAX_UREFS, gives
      all but one back; sub_reference hands one out and makes MORE_UREFS first if it is the last. */
  ghost function NextRecs(a: State, st: Step): map<Port, Rec> {
    match st
    case AddRef(p) =>
      if p !in a.recs then a.recs
      else a.recs[p := a.recs[p].(urefs := if Trims(a, p) then 1 else Banked(a, p) + 1)]
    case SubRef(p) =>
      if p !in a.recs || Banked(a, p) == 0 then a.recs
      else a.recs[p := a.recs[p].(urefs := if Banked(a, p) == 1 then MORE_UREFS else Banked(a, p) - 1)]
    case Create(p, t) => a.recs[p := Rec(a.next, t, 1, NoAssoc)]
    case Destroy(p) => a.recs - {p}
    case Associate(p, t, n) =>
      if p !in a.recs then a.recs
      else a.recs[p := a.recs[p].(assocs := AssocPut(a.recs[p].assocs, t, n))]
    case _ => a.recs
  }

  /** The callers' side of a step. */
  ghost function NextOwned(a: State, st: Step): multiset<Port> {
    match st
    case Arrive(p) => a.owned + multiset{p}
    case SubRef(p) => a.owned + multiset{p}
    case Release(p) => a.owned - multiset{p}
    case AddRef(p) => a.owned - multiset{p}
    case Create(p, _) => a.owned - multiset{p}
    case Watch(p) => a.owned - multiset{p}
    case _ => a.owned
  }

  ghost function Apply(a: State, st: Step): State {
    State(NextSpace(a, st), NextRecs(a, st), if st.Create? then a.next + 1 else a.next,
          NextOwned(a, st),
          match st { case Watch(p) => Some(p) case Unwatch => None case _ => a.monitor })
  }

  /** The empty server. */
  ghost function Initial(fate: Fate): State {
    State(Space(map[], multiset{}, 0, fate, 0), map[], 1, multiset{}, None)
  }

  ghost predicate Next(a: State, b: State) {
    exists st :: Enabled(a, st) && Apply(a, st) == b
  }

  ghost predicate StepAt(run: seq<State>, i: nat)
    requires i + 1 < |run|
  {
    Next(run[i], run[i + 1])
  }

  /** The states of a run: each follows from the one before. */
  ghost predicate IsRun(run: seq<State>) {
    |run| > 0 && forall i: nat :: i + 1 < |run| ==> StepAt(run, i)
  }

  ghost predicate FromStart(run: seq<State>) {
    IsRun(run) && run[0] == Initial(run[0].space.fate)
  }

  ghost function Last(run: seq<State>): State {
    if |run| > 0 then run[|run| - 1] else Initial(_ => {})
  }

  /** The port was a dead name at some state of the run from `from` on. */
  ghost predicate DiedSince(run: seq<State>, from: nat, p: Port) {
    exists k :: from <= k < |run| && Dead(run[k].space, p)
  }

  /** What came of a port that was sent: the port, or no port if it was none or had died. */
  ghost predicate Came(p: Port, q: Port, run: seq<State>, from: nat) {
    q == p || (!PortValid(q) && (PortValid(p) ==> DiedSince(run, from, p)))
  }

  lemma CameGrows(p: Port, q: Port, run: seq<State>, from: nat, run': seq<State>, from': nat)
    requires Came(p, q, run, from) && run <= run' && from' <= from
    ensures Came(p, q, run', from')
  {
    if q != p && PortValid(p) {
      var k :| from <= k < |run| && Dead(run[k].space, p);
      assert run'[k] == run[k];
    }
  }

  // The invariant, port by port.

  /** Everything the state says about one port. */
  datatype View = View(right: Option<Right>, pending: nat, owned: nat, rec: Option<Rec>, monitored: bool) {

    function Urefs(): nat {
      if right.Some? then right.value.urefs else 0
    }

    function Banked(): nat {
      if rec.Some? then rec.value.urefs else 0
    }

    function Watchers(): nat {
      (if rec.Some? then 1 else 0) + if monitored then 1 else 0
    }
  }

  ghost function ViewOf(a: State, p: Port): View {
    View(if p in a.space.rights then Some(a.space.rights[p]) else None, a.space.pending[p], a.owned[p],
         if p in a.recs then Some(a.recs[p]) else None, a.monitor == Some(p))
  }

  ghost predicate ViewInv(v: View, next: Name) {
    // conservation: every reference the kernel counts has exactly one holder
    && v.Urefs() == v.Banked() + v.owned + (if v.monitored then 1 else 0) + v.pending
    && (v.right.Some? ==> v.right.value.urefs >= 1)
    && (v.right.Some? && v.right.value.Send? ==>
          && v.pending == 0
          && v.Watchers() == (if v.right.value.armed then 1 else 0)
          && v.Banked() <= MAX_UREFS)
    && (v.right.Some? && v.right.value.DeadName? ==> v.pending == v.Watchers())
    && (v.rec.Some? ==>
          && v.rec.value.urefs >= 1
          && 0 < v.rec.value.name < next
          && NamesBelow(v.rec.value.assocs, next))
  }

  ghost predicate PortInv(a: State, p: Port) {
    && ViewInv(ViewOf(a, p), a.next)
    && (p in a.space.rights ==> PortValid(p))
  }

  ghost predicate HasName(a: State, p: Port, n: Name) {
    p in a.recs && a.recs[p].name == n
  }

  ghost predicate NamesDistinct(a: State) {
    forall n, p, q :: HasName(a, p, n) && HasName(a, q, n) ==> p == q
  }

  ghost predicate Inv(a: State) {
    && a.next >= 1
    && a.space.deleted == 0
    && NamesDistinct(a)
    && forall p :: PortInv(a, p)
  }

  // What each step does to one port.

  /** The port a step is about. */
  ghost function Subject(a: State, st: Step): Option<Port> {
    match st
    case Deaths(_) => None
    case Unwatch => a.monitor
    case _ => Some(st.port)
  }

  lemma KillAt(a: State, d: set<Port>, p: Port)
    requires PortInv(a, p)
    ensures PortInv(Apply(a, Deaths(d)), p)
  {
    var killed := set q | q in d && Armed(a.space, q);
    assert p in killed <==> p in d && Armed(a.space, p);
    assert multiset(killed)[p] == if p in killed then 1 else 0;
  }

  ghost predicate SameAt(s: Space, t: Space, p: Port) {
    && (p in s.rights <==> p in t.rights)
    && (p in s.rights ==> s.rights[p] == t.rights[p])
    && s.pending[p] == t.pending[p]
  }

  lemma ModRefsElsewhere(s: Space, q: Port, kind: Kind, delta: int, p: Port)
    requires p != q
    ensures SameAt(s, ModRefs(s, q, kind, delta).1, p)
  {
  }

  lemma CallsElsewhere(s: Space, q: Port, sync: bool, p: Port)
    requires p != q
    ensures SameAt(s, Deallocate(s, q).1, p)
    ensures SameAt(s, RequestDeadName(s, q, sync).2, p)
    ensures SameAt(s, Heard(s, q), p)
    ensures !Dead(s, q) ==> SameAt(s, Receive(s, q), p)
  {
  }

  lemma GivenBackElsewhere(s: Space, q: Port, delta: int, p: Port)
    requires p != q
    ensures SameAt(s, ModRefs(Heard(s, q), q, DeadNameKind, delta).1, p)
  {
    CallsElsewhere(s, q, true, p);
    ModRefsElsewhere(Heard(s, q), q, DeadNameKind, delta, p);
  }

  lemma ArriveElsewhere(a: State, q: Port, p: Port)
    requires p != q
    ensures SameAt(a.space, NextSpace(a, Arrive(q)), p) && SameAt(a.space, NextSpace(a, Release(q)), p)
  {
    CallsElsewhere(a.space, q, true, p);
  }

  lemma CountElsewhere(a: State, q: Port, p: Port)
    requires p != q
    ensures SameAt(a.space, NextSpace(a, AddRef(q)), p) && SameAt(a.space, NextSpace(a, SubRef(q)), p)
  {
    ModRefsElsewhere(a.space, q, SendKind, 0 - Banked(a, q), p);
    ModRefsElsewhere(a.space, q, if Live(a.space, q) then SendKind else DeadNameKind, MORE_UREFS, p);
  }

  lemma RecordElsewhere(a: State, q: Port, t: MachType, p: Port)
    requires p != q
    ensures SameAt(a.space, NextSpace(a, Create(q, t)), p) && SameAt(a.space, NextSpace(a, Destroy(q)), p)
  {
    CallsElsewhere(a.space, q, true, p);
    GivenBackElsewhere(a.space, q, 0 - Banked(a, q) - 1, p);
  }

  lemma MonitorElsewhere(a: State, q: Port, p: Port)
    requires p != q
    ensures SameAt(a.space, NextSpace(a, Watch(q)), p)
    ensures a.monitor == Some(q) ==> SameAt(a.space, NextSpace(a, Unwatch), p)
  {
    CallsElsewhere(a.space, q, false, p);
    GivenBackElsewhere(a.space, q, -2, p);
  }

  lemma SpaceElsewhere(a: State, st: Step, p: Port)
    requires !st.Deaths? && Subject(a, st) != Some(p)
    ensures SameAt(a.space, NextSpace(a, st), p)
  {
    match st
    case Deaths(_) =>
    case Arrive(q) => ArriveElsewhere(a, q, p);
    case Release(q) => ArriveElsewhere(a, q, p);
    case AddRef(q) => CountElsewhere(a, q, p);
    case SubRef(q) => CountElsewhere(a, q, p);
    case Create(q, t) => RecordElsewhere(a, q, t, p);
    case Destroy(q) => RecordElsewhere(a, q, NoType, p);
    case Associate(_, _, _) =>
    case Watch(q) => MonitorElsewhere(a, q, p);
    case Unwatch =>
      if a.monitor.Some? {
        MonitorElsewhere(a, a.monitor.value, p);
      }
  }

  lemma Elsewhere(a: State, st: Step, p: Port)
    requires Enabled(a, st) && !st.Deaths? && Subject(a, st) != Some(p)
    ensures ViewOf(Apply(a, st), p) == ViewOf(a, p)
    ensures p in Apply(a, st).space.rights <==> p in a.space.rights
  {
    SpaceElsewhere(a, st, p);
  }

  lemma AddRefAt(a: State, p: Port)
    requires PortInv(a, p) && Enabled(a, AddRef(p))
    ensures PortInv(Apply(a, AddRef(p)), p)
    ensures Apply(a, AddRef(p)).space.deleted == a.space.deleted
  {
  }

  lemma SubRefAt(a: State, p: Port)
    requires PortInv(a, p) && Enabled(a, SubRef(p))
    ensures PortInv(Apply(a, SubRef(p)), p)
    ensures Apply(a, SubRef(p)).space.deleted == a.space.deleted
  {
  }

  lemma CreateAt(a: State, p: Port, t: MachType)
    requires PortInv(a, p) && a.next >= 1 && Enabled(a, Create(p, t))
    ensures PortInv(Apply(a, Create(p, t)), p)
  {
  }

  lemma DestroyAt(a: State, p: Port)
    requires PortInv(a, p) && Enabled(a, Destroy(p))
    ensures PortInv(Apply(a, Destroy(p)), p)
    ensures Apply(a, Destroy(p)).space.deleted == a.space.deleted
  {
  }

  lemma WatchAt(a: State, p: Port)
    requires PortInv(a, p) && Enabled(a, Watch(p))
    ensures PortInv(Apply(a, Watch(p)), p)
    ensures Apply(a, Watch(p)).space.deleted == a.space.deleted
  {
  }

  lemma UnwatchAt(a: State, p: Port)
    requires PortInv(a, p) && Enabled(a, Unwatch) && a.monitor == Some(p)
    ensures PortInv(Apply(a, Unwatch), p)
    ensures Apply(a, Unwatch).space.deleted == a.space.deleted
  {
  }

  lemma CallerAt(a: State, st: Step, p: Port)
    requires PortInv(a, p) && Enabled(a, st) && (st == Arrive(p) || st == Release(p))
    ensures PortInv(Apply(a, st), p)
    ensures Apply(a, st).space.deleted == a.space.deleted
  {
  }

  /** Every step keeps the invariant of every port, and never drops a watched name. */
  lemma StepKeepsPort(a: State, st: Step, p: Port)
    requires Inv(a) && Enabled(a, st)
    ensures PortInv(Apply(a, st), p)
  {
    assert PortInv(a, p);
    if st.Deaths? {
      KillAt(a, st.dying, p);
    } else if Subject(a, st) != Some(p) {
      Elsewhere(a, st, p);
      if p in a.recs {
        NamesBelowMonotone(a.recs[p].assocs, a.next, a.next + 1);
      }
    } else {
      match st
      case Arrive(_) => CallerAt(a, st, p);
      case Release(_) => CallerAt(a, st, p);
      case AddRef(_) => AddRefAt(a, p);
      case SubRef(_) => SubRefAt(a, p);
      case Create(_, t) => CreateAt(a, p, t);
      case Destroy(_) => DestroyAt(a, p);
      case Associate(_, t, n) => AssocPutBelow(a.recs[p].assocs, t, n, a.next);
      case Watch(_) => WatchAt(a, p);
      case Unwatch => UnwatchAt(a, p);
    }
  }

  lemma NamesBelowMonotone(s: Assocs, next: Name, next': Name)
    requires NamesBelow(s, next) && next <= next'
    ensures NamesBelow(s, next')
  {
  }

  lemma AssocReplaceBelow(s: Assocs, t: MachType, n: Name, next: Name)
    requires NamesBelow(s, next) && 0 < n < next
    ensures NamesBelow(AssocReplace(s, t, n), next)
  {
  }

  lemma AssocPutBelow(s: Assocs, t: MachType, n: Name, next: Name)
    requires NamesBelow(s, next) && 0 < n < next
    ensures NamesBelow(AssocPut(s, t, n), next)
  {
    AssocReplaceBelow(s, t, n, next);
  }

  lemma StepKeepsNames(a: State, st: Step)
    requires Inv(a) && Enabled(a, st)
    ensures NamesDistinct(Apply(a, st))
  {
    var b := Apply(a, st);
    forall n, p, q | HasName(b, p, n) && HasName(b, q, n) ensures p == q {
      assert PortInv(a, p) && PortInv(a, q);
      assert HasName(a, p, n) || n == a.next;
      assert HasName(a, q, n) || n == a.next;
    }
  }

  lemma StepDeletesNone(a: State, st: Step)
    requires Inv(a) && Enabled(a, st)
    ensures NextSpace(a, st).deleted == 0
  {
    if Subject(a, st).Some? {
      assert PortInv(a, Subject(a, st).value);
    }
    match st
    case Deaths(_) =>
    case Arrive(p) => CallerAt(a, st, p);
    case Release(p) => CallerAt(a, st, p);
    case AddRef(p) => AddRefAt(a, p);
    case SubRef(p) => SubRefAt(a, p);
    case Create(_, _) =>
    case Destroy(p) => DestroyAt(a, p);
    case Associate(_, _, _) =>
    case Watch(p) => WatchAt(a, p);
    case Unwatch => UnwatchAt(a, a.monitor.value);
  }

  lemma StepKeepsInv(a: State, st: Step)
    requires Inv(a) && Enabled(a, st)
    ensures Inv(Apply(a, st))
  {
    StepKeepsNames(a, st);
    StepDeletesNone(a, st);
    forall p ensures PortInv(Apply(a, st), p) {
      StepKeepsPort(a, st, p);
    }
  }

  lemma InitialInv(fate: Fate)
    ensures Inv(Initial(fate))
  {
  }

  /** A single step is a run of two states. */
  lemma StepIsRun(a: State, st: Step, b: State)
    requires Enabled(a, st) && Apply(a, st) == b
    ensures IsRun([a, b])
  {
    assert Next(a, b);
    assert StepAt([a, b], 0);
  }

  lemma RunThenStep(run: seq<State>, b: State)
    requires IsRun(run) && IsRun([Last(run), b])
    ensures IsRun(run + [b])
  {
    var run' := run + [b];
    forall i: nat | i + 1 < |run'| ensures StepAt(run', i) {
      if i + 1 < |run| {
        assert StepAt(run, i);
      } else {
        assert StepAt([Last(run), b], 0);
      }
    }
  }

  // The theorems, over every run of the server.

  lemma {:induction false} RunKeepsInv(run: seq<State>, i: nat)
    requires FromStart(run) && i < |run|
    ensures Inv(run[i])
  {
    if i == 0 {
      InitialInv(run[0].space.fate);
    } else {
      RunKeepsInv(run, i - 1);
      assert StepAt(run, i - 1);
      var st :| Enabled(run[i - 1], st) && Apply(run[i - 1], st) == run[i];
      StepKeepsInv(run[i - 1], st);
    }
  }

  /** The kernel's count for a port is the banked references plus those of the callers plus one
      for the monitor plus one for each notification on its way. The bank is never empty, and
      never above the cap while the port is alive. */
  lemma Conservation(run: seq<State>, i: nat, p: Port)
    requires FromStart(run) && i < |run|
    ensures var a := run[i];
            && Urefs(a.space, p) == Banked(a, p) + a.owned[p] + Monitored(a, p) + a.space.pending[p]
            && (p in a.recs ==> p in a.space.rights && 1 <= a.recs[p].urefs)
            && (p in a.recs && Live(a.space, p) ==> a.recs[p].urefs <= MAX_UREFS && Armed(a.space, p))
            && (p in a.recs && Dead(a.space, p) ==> a.space.pending[p] >= 1)
  {
    RunKeepsInv(run, i);
    assert PortInv(run[i], p);
  }

  /** The port-deleted notification, on which the server would quit, is never sent. */
  lemma NoPortDeleted(run: seq<State>, i: nat)
    requires FromStart(run) && i < |run|
    ensures run[i].space.deleted == 0
  {
    RunKeepsInv(run, i);
  }

  /** No leak: once the records are gone, the callers are done and the monitor is not watched,
      the kernel's table for the task is empty. */
  lemma NoLeak(run: seq<State>, i: nat)
    requires FromStart(run) && i < |run|
    requires run[i].recs == map[] && run[i].owned == multiset{} && run[i].monitor == None
    ensures run[i].space.rights == map[]
  {
    RunKeepsInv(run, i);
    forall p ensures p !in run[i].space.rights {
      assert PortInv(run[i], p);
    }
  }

  // Deaths are the kernel's: nothing that the server does makes a port die.

  /** No time passes and no name dies. */
  ghost predicate NoneDies(s: Space, t: Space, p: Port) {
    t.fate == s.fate && t.time == s.time && (Dead(t, p) ==> Dead(s, p))
  }

  lemma ModRefsKillsNone(s: Space, q: Port, kind: Kind, delta: int, p: Port)
    ensures NoneDies(s, ModRefs(s, q, kind, delta).1, p)
  {
  }

  lemma CallsKillNone(s: Space, q: Port, sync: bool, p: Port)
    ensures NoneDies(s, Deallocate(s, q).1, p)
    ensures NoneDies(s, RequestDeadName(s, q, sync).2, p)
    ensures NoneDies(s, Heard(s, q), p)
    ensures !Dead(s, q) ==> NoneDies(s, Receive(s, q), p)
  {
  }

  lemma GivingBackKillsNone(s: Space, q: Port, delta: int, p: Port)
    ensures NoneDies(s, ModRefs(Heard(s, q), q, DeadNameKind, delta).1, p)
  {
    CallsKillNone(s, q, true, p);
    ModRefsKillsNone(Heard(s, q), q, DeadNameKind, delta, p);
  }

  lemma CountKillsNone(a: State, q: Port, p: Port)
    ensures NoneDies(a.space, NextSpace(a, AddRef(q)), p) && NoneDies(a.space, NextSpace(a, SubRef(q)), p)
  {
    ModRefsKillsNone(a.space, q, SendKind, 0 - Banked(a, q), p);
    ModRefsKillsNone(a.space, q, if Live(a.space, q) then SendKind else DeadNameKind, MORE_UREFS, p);
  }

  lemma ArriveKillsNone(a: State, q: Port, p: Port)
    ensures NoneDies(a.space, NextSpace(a, Arrive(q)), p) && NoneDies(a.space, NextSpace(a, Release(q)), p)
  {
    CallsKillNone(a.space, q, true, p);
  }

  lemma RecordKillsNone(a: State, q: Port, t: MachType, p: Port)
    ensures NoneDies(a.space, NextSpace(a, Create(q, t)), p) && NoneDies(a.space, NextSpace(a, Destroy(q)), p)
  {
    CallsKillNone(a.space, q, true, p);
    GivingBackKillsNone(a.space, q, 0 - Banked(a, q) - 1, p);
  }

  lemma MonitorKillsNone(a: State, q: Port, p: Port)
    ensures NoneDies(a.space, NextSpace(a, Watch(q)), p) && NoneDies(a.space, NextSpace(a, Unwatch), p)
  {
    CallsKillNone(a.space, q, false, p);
    if a.monitor.Some? {
      GivingBackKillsNone(a.space, a.monitor.value, -2, p);
    }
  }

  lemma StepKillsNone(a: State, st: Step, p: Port)
    requires !st.Deaths?
    ensures NoneDies(a.space, NextSpace(a, st), p)
  {
    match st
    case Deaths(_) =>
    case Arrive(q) => ArriveKillsNone(a, q, p);
    case Release(q) => ArriveKillsNone(a, q, p);
    case AddRef(q) => CountKillsNone(a, q, p);
    case SubRef(q) => CountKillsNone(a, q, p);
    case Create(q, t) => RecordKillsNone(a, q, t, p);
    case Destroy(q) => RecordKillsNone(a, q, NoType, p);
    case Associate(_, _, _) =>
    case Watch(q) => MonitorKillsNone(a, q, p);
    case Unwatch => MonitorKillsNone(a, MACH_PORT_NULL, p);
  }

  lemma StepKills(a: State, st: Step, p: Port)
    requires Enabled(a, st)
    ensures Dead(Apply(a, st).space, p) ==> Dead(a.space, p) || (st.Deaths? && p in a.space.fate(a.space.time))
    ensures Apply(a, st).space.fate == a.space.fate
    ensures Apply(a, st).space.time == a.space.time + if st.Deaths? then 1 else 0
  {
    if !st.Deaths? {
      StepKillsNone(a, st, p);
    }
  }

  lemma {:induction false} RunKeepsFate(run: seq<State>, i: nat, j: nat)
    requires IsRun(run) && i <= j < |run|
    ensures run[i].space.fate == run[j].space.fate && run[i].space.time <= run[j].space.time
  {
    if i < j {
      RunKeepsFate(run, i, j - 1);
      assert StepAt(run, j - 1);
      var st :| Enabled(run[j - 1], st) && Apply(run[j - 1], st) == run[j];
      StepKills(run[j - 1], st, MACH_PORT_NULL);
    }
  }

  /** The port dies before the given moment. */
  ghost predicate Doomed(fate: Fate, p: Port, until: nat) {
    exists t: nat :: t < until && p in fate(t)
  }

  lemma StepDooms(a: State, b: State, p: Port)
    requires Next(a, b) && Dead(b.space, p)
    requires Dead(a.space, p) ==> Doomed(a.space.fate, p, a.space.time)
    ensures Doomed(b.space.fate, p, b.space.time)
  {
    var st :| Enabled(a, st) && Apply(a, st) == b;
    StepKills(a, st, p);
    DoomedLater(a.space.fate, p, a.space.time, b.space.time);
  }

  lemma DoomedLater(fate: Fate, p: Port, until: nat, until': nat)
    requires until <= until'
    ensures Doomed(fate, p, until) ==> Doomed(fate, p, until')
  {
  }

  /** A name is dead only if its port was to die by then. */
  lemma {:induction false} DeathIsFated(run: seq<State>, i: nat, p: Port)
    requires FromStart(run) && i < |run| && Dead(run[i].space, p)
    ensures Doomed(run[i].space.fate, p, run[i].space.time)
  {
    if i > 0 {
      if Dead(run[i - 1].space, p) {
        DeathIsFated(run, i - 1, p);
      }
      assert StepAt(run, i - 1);
      StepDooms(run[i - 1], run[i], p);
    }
  }

  /** A port that was sent comes, unless it was to die by the end of the run. */
  lemma SparedComes(p: Port, q: Port, run: seq<State>, from: nat)
    requires FromStart(run) && Came(p, q, run, from) && PortValid(p)
    ensures q == p || Doomed(Last(run).space.fate, p, Last(run).space.time)
  {
    if q != p {
      var k :| from <= k < |run| && Dead(run[k].space, p);
      DeathIsFated(run, k, p);
      RunKeepsFate(run, k, |run| - 1);
      DoomedLater(run[k].space.fate, p, run[k].space.time, Last(run).space.time);
    }
  }

  /** A dead-name notification always finds what it is about: the watched monitor or a record. */
  lemma NotificationHasTarget(run: seq<State>, i: nat, p: Port)
    requires FromStart(run) && i < |run| && run[i].space.pending[p] > 0
    ensures Dead(run[i].space, p) && (run[i].monitor == Some(p) || p in run[i].recs)
  {
    RunKeepsInv(run, i);
    assert PortInv(run[i], p);
  }

  /** port_destroy leaves the dead name exactly the references of the callers, and frees the
      name if there are none. */
  lemma DestroyLeavesCallers(run: seq<State>, i: nat, p: Port)
    requires FromStart(run) && i < |run| && Enabled(run[i], Destroy(p))
    ensures var a := run[i];
            var b := Apply(a, Destroy(p));
            && ModRefs(Heard(a.space, p), p, DeadNameKind, 0 - Banked(a, p) - 1).0 == Success
            && Urefs(b.space, p) == a.owned[p]
            && b.space.pending[p] == 0
            && (p in b.space.rights <==> a.owned[p] > 0)
  {
    RunKeepsInv(run, i);
    assert PortInv(run[i], p);
  }

  /** `n` is the exported name of `p`, of type `t`. */
  ghost predicate Bound(a: State, n: Name, p: Port, t: MachType) {
    p in a.recs && a.recs[p].name == n && a.recs[p].ptype == t
  }

  lemma StepNameStable(a: State, st: Step, n: Name, p: Port, t: MachType)
    requires Enabled(a, st)
    ensures a.next <= Apply(a, st).next
    ensures n < a.next && Bound(Apply(a, st), n, p, t) ==> Bound(a, n, p, t)
  {
    if p in NextRecs(a, st) {
      RecordsKept(a, st, p);
    }
  }

  /** No step changes the name or the type of a record. */
  lemma RecordsKept(a: State, st: Step, p: Port)
    requires Enabled(a, st) && p in NextRecs(a, st)
    ensures if p in a.recs && (st.Create? ==> st.port != p)
            then NextRecs(a, st)[p].name == a.recs[p].name && NextRecs(a, st)[p].ptype == a.recs[p].ptype
            else NextRecs(a, st)[p].name == a.next
  {
  }

  /** A name that has ever been issued never comes to denote anything else: where it is bound in
      a later state, it was bound to that same port and type already, even if the kernel has
      recycled port numbers in between. So a name that is unbound by then stays unbound. */
  lemma {:induction false} NameStable(run: seq<State>, i: nat, j: nat, n: Name, p: Port, t: MachType)
    requires IsRun(run) && i <= j < |run|
    ensures run[i].next <= run[j].next
    ensures n < run[i].next && Bound(run[j], n, p, t) ==> Bound(run[i], n, p, t)
    decreases j
  {
    if i < j {
      assert StepAt(run, j - 1);
      var st :| Enabled(run[j - 1], st) && Apply(run[j - 1], st) == run[j];
      StepNameStable(run[j - 1], st, n, p, t);
      NameStable(run, i, j - 1, n, p, t);
    }
  }

  /** A name kept in an association, even one whose record has since been destroyed, denotes at
      any later state nothing or the port it denoted when the association was there. */
  lemma AssociationStable(run: seq<State>, i: nat, j: nat, q: Port, u: MachType, p: Port, t: MachType)
    requires FromStart(run) && i <= j < |run| && q in run[i].recs
    requires Bound(run[j], AssocGet(run[i].recs[q].assocs, u), p, t)
    ensures Bound(run[i], AssocGet(run[i].recs[q].assocs, u), p, t)
  {
    RunKeepsInv(run, i);
    assert PortInv(run[i], q);
    AssocGetBelow(run[i].recs[q].assocs, u, run[i].next);
    NameStable(run, i, j, AssocGet(run[i].recs[q].assocs, u), p, t);
  }

  lemma AssocGetBelow(s: Assocs, t: MachType, next: Name)
    requires NamesBelow(s, next) && next > 0
    ensures AssocGet(s, t) < next
    ensures AssocGet(s, t) == 0 <==> !AssocHas(s, t)
  {
  }

  /** Putting an association is seen by its own type and by no other. */
  lemma {:induction false} AssocPutGet(s: Assocs, t: MachType, n: Name, u: MachType)
    ensures AssocGet(AssocPut(s, t, n), u) == if u == t then n else AssocGet(s, u)
  {
    if AssocHas(s, t) {
      AssocReplaceGet(s, t, n, u);
    }
  }

  lemma {:induction false} AssocReplaceGet(s: Assocs, t: MachType, n: Name, u: MachType)
    requires AssocHas(s, t)
    ensures AssocGet(AssocReplace(s, t, n), u) == if u == t then n else AssocGet(s, u)
  {
    if s.atype != t {
      AssocReplaceGet(s.next, t, n, u);
    }
  }

  // What the listing handlers do to many ports at once.

  /** The record `s` is what became of `r`: the same port, whose associations of the types in
      `tags` are as they were or as tagged. A tag of 0 stands for none. */
  ghost predicate Inherits(r: Rec, s: Rec, tags: map<MachType, Name>) {
    && r.name == s.name && r.ptype == s.ptype
    && forall t :: t in tags && tags[t] != 0 ==>
         AssocGet(s.assocs, t) == AssocGet(r.assocs, t) || AssocGet(s.assocs, t) == tags[t]
  }

  /** Every record of `a` lives on in `b`. */
  ghost predicate Grows(a: State, b: State, tags: map<MachType, Name>) {
    && a.next <= b.next && a.monitor == b.monitor
    && forall p :: p in a.recs ==> p in b.recs && Inherits(a.recs[p], b.recs[p], tags)
  }

  lemma GrownTrans(a: State, b: State, c: State, tags: map<MachType, Name>)
    requires Grows(a, b, tags) && Grows(b, c, tags)
    ensures Grows(a, c, tags)
  {
    forall p | p in a.recs ensures p in c.recs && Inherits(a.recs[p], c.recs[p], tags) {
      assert Inherits(a.recs[p], b.recs[p], tags) && Inherits(b.recs[p], c.recs[p], tags);
    }
  }

  /** An association: of which port's record, and of which type. */
  datatype Mark = Mark(port: Port, atype: MachType)

  /** The associations that the tags stand for, on the records of the ports. */
  ghost function Marks(ports: seq<Port>, tags: map<MachType, Name>): set<Mark> {
    set p, t | p in ports && t in tags && tags[t] != 0 :: Mark(p, t)
  }

  /** The name that a port is associated with; 0 for none, and for a port without a record. */
  ghost function AssocIn(a: State, p: Port, t: MachType): Name {
    if p in a.recs then AssocGet(a.recs[p].assocs, t) else 0
  }

  /** No association but those in `may` has changed or come into being. */
  ghost predicate Touched(a: State, b: State, may: set<Mark>) {
    forall p, t :: Mark(p, t) !in may ==> AssocIn(b, p, t) == AssocIn(a, p, t)
  }

  lemma TouchedTrans(a: State, b: State, c: State, may: set<Mark>)
    requires Touched(a, b, may) && Touched(b, c, may)
    ensures Touched(a, c, may)
  {
    forall p, t | Mark(p, t) !in may ensures AssocIn(c, p, t) == AssocIn(a, p, t) {
      assert AssocIn(b, p, t) == AssocIn(a, p, t);
    }
  }

  lemma TouchedMore(a: State, b: State, may: set<Mark>, more: set<Mark>)
    requires Touched(a, b, may) && may <= more
    ensures Touched(a, b, more)
  {
  }

  /** The two together, for the same set. */
  lemma TouchedOn(a: State, b: State, c: State, may: set<Mark>, more: set<Mark>, all: set<Mark>)
    requires Touched(a, b, may) && Touched(b, c, more) && may <= all && more <= all
    ensures Touched(a, c, all)
  {
    TouchedMore(a, b, may, all);
    TouchedMore(b, c, more, all);
    TouchedTrans(a, b, c, all);
  }

  lemma MarksOfOne(ports: seq<Port>, p: Port, some: map<MachType, Name>, tags: map<MachType, Name>)
    requires p in ports && forall t :: t in some ==> t in tags && tags[t] == some[t]
    ensures Marks([p], some) <= Marks(ports, tags)
  {
  }

  /** Every record lives on, and no association but those in `may` has changed. */
  ghost predicate Undisturbed(a: State, b: State, may: set<Mark>) {
    Grows(a, b, map[]) && Touched(a, b, may)
  }

  /** Nothing but counts and rights has changed. */
  ghost predicate Quiet(a: State, b: State) {
    && a.next == b.next && a.monitor == b.monitor && a.recs.Keys == b.recs.Keys
    && forall p :: p in a.recs ==> SameRecord(a.recs[p], b.recs[p])
  }

  lemma QuietTrans(a: State, b: State, c: State)
    requires Quiet(a, b) && Quiet(b, c)
    ensures Quiet(a, c)
  {
    forall p | p in a.recs ensures SameRecord(a.recs[p], c.recs[p]) {
      assert SameRecord(a.recs[p], b.recs[p]) && SameRecord(b.recs[p], c.recs[p]);
    }
  }

  /** What follows a quiet time is seen from before it, and so for one that comes after. */
  lemma QuietThen(a: State, b: State, c: State, may: set<Mark>)
    requires Quiet(a, b) && Undisturbed(b, c, may)
    ensures Undisturbed(a, c, may)
  {
    forall p | p in a.recs ensures p in c.recs && Inherits(a.recs[p], c.recs[p], map[]) {
      assert SameRecord(a.recs[p], b.recs[p]) && Inherits(b.recs[p], c.recs[p], map[]);
    }
    forall p, t | Mark(p, t) !in may ensures AssocIn(c, p, t) == AssocIn(a, p, t) {
      assert p in a.recs ==> SameRecord(a.recs[p], b.recs[p]);
    }
  }

  lemma ThenQuiet(a: State, b: State, c: State, may: set<Mark>)
    requires Undisturbed(a, b, may) && Quiet(b, c)
    ensures Undisturbed(a, c, may)
  {
    QuietIsUndisturbed(b, c);
    UndisturbedOn(a, b, c, may, {});
    assert may + {} == may;
  }

  lemma UndisturbedOn(a: State, b: State, c: State, may: set<Mark>, more: set<Mark>)
    requires Undisturbed(a, b, may) && Undisturbed(b, c, more)
    ensures Undisturbed(a, c, may + more)
  {
    GrownTrans(a, b, c, map[]);
    TouchedOn(a, b, c, may, more, may + more);
  }

  lemma QuietIsUndisturbed(a: State, b: State)
    requires Quiet(a, b)
    ensures Undisturbed(a, b, {})
  {
    forall p | p in a.recs ensures Inherits(a.recs[p], b.recs[p], map[]) {
      assert SameRecord(a.recs[p], b.recs[p]);
    }
    forall p, t ensures AssocIn(b, p, t) == AssocIn(a, p, t) {
      assert p in a.recs ==> SameRecord(a.recs[p], b.recs[p]);
    }
  }

  /** The port, if it is one. */
  function Ones(p: Port): set<Port> {
    if PortValid(p) then {p} else {}
  }

  /** `s` is `r` but for the banked references. */
  ghost predicate SameRecord(r: Rec, s: Rec) {
    r.name == s.name && r.ptype == s.ptype && r.assocs == s.assocs
  }

  /** The records of `a` are as they were, and `b` has one more at most: that of `port`. */
  ghost predicate Recorded(a: State, b: State, port: Port, t: MachType) {
    && b.recs.Keys == a.recs.Keys + Ones(port)
    && (forall p :: p in a.recs ==> SameRecord(a.recs[p], b.recs[p]))
    && (PortValid(port) && port !in a.recs ==> b.recs[port].ptype == t && b.recs[port].assocs == NoAssoc)
  }

  lemma RecordedThenKept(a: State, b: State, c: State, port: Port, t: MachType)
    requires Recorded(a, b, port, t) && Quiet(b, c)
    ensures Recorded(a, c, port, t)
  {
    forall p | p in a.recs ensures SameRecord(a.recs[p], c.recs[p]) {
      assert SameRecord(a.recs[p], b.recs[p]) && SameRecord(b.recs[p], c.recs[p]);
    }
    assert PortValid(port) ==> SameRecord(b.recs[port], c.recs[port]);
  }

  /** The records that `b` has and `a` had not are of type `t`. */
  ghost predicate AllNewOf(a: State, b: State, t: MachType) {
    forall p :: p in b.recs && p !in a.recs ==> b.recs[p].ptype == t
  }

  lemma NewcomersTrans(a: State, b: State, c: State, t: MachType, tags: map<MachType, Name>)
    requires AllNewOf(a, b, t) && AllNewOf(b, c, t)
    requires Grows(b, c, tags)
    ensures AllNewOf(a, c, t)
  {
    forall p | p in c.recs && p !in a.recs ensures c.recs[p].ptype == t {
      assert p in b.recs ==> Inherits(b.recs[p], c.recs[p], tags);
    }
  }

  lemma NoNewcomers(a: State, b: State, t: MachType)
    requires a.recs.Keys == b.recs.Keys
    ensures AllNewOf(a, b, t)
  {
  }

  lemma NewcomersSince(a: State, b: State, c: State, t: MachType)
    requires a.recs.Keys == b.recs.Keys && AllNewOf(b, c, t)
    ensures AllNewOf(a, c, t)
  {
  }

  /** The port has a record in `b`: of type `t` if it had none in `a`, else of the type it had. */
  ghost predicate Typed(a: State, b: State, p: Port, t: MachType) {
    PortValid(p) ==> p in b.recs && b.recs[p].ptype == if p in a.recs then a.recs[p].ptype else t
  }

  lemma TypedNewcomer(a: State, b: State, p: Port, t: MachType, tags: map<MachType, Name>)
    requires AllNewOf(a, b, t) && Grows(a, b, tags) && (PortValid(p) ==> p in b.recs)
    ensures Typed(a, b, p, t)
  {
    assert p in a.recs ==> Inherits(a.recs[p], b.recs[p], tags);
  }

  lemma TypedGrows(a: State, b: State, c: State, p: Port, t: MachType, tags: map<MachType, Name>)
    requires Typed(a, b, p, t) && Grows(b, c, tags)
    ensures Typed(a, c, p, t)
  {
    assert PortValid(p) ==> Inherits(b.recs[p], c.recs[p], tags);
  }

  lemma TypedSince(a: State, b: State, c: State, p: Port, t: MachType, other: Port, tags: map<MachType, Name>)
    requires Grows(a, b, tags) && b.recs.Keys <= a.recs.Keys + {other} && p != other
    requires Typed(b, c, p, t)
    ensures Typed(a, c, p, t)
  {
    assert p in a.recs ==> Inherits(a.recs[p], b.recs[p], tags);
  }

  /** `name` is the exported name of `p`, whose record carries the tags; 0 for what is no port. */
  ghost predicate Settled(a: State, p: Port, name: Name, tags: map<MachType, Name>) {
    if PortValid(p) then
      && p in a.recs && a.recs[p].name == name
      && forall t :: t in tags && tags[t] != 0 ==> AssocGet(a.recs[p].assocs, t) == tags[t]
    else name == 0
  }

  lemma SettledGrowsIn(a: State, b: State, p: Port, name: Name, some: map<MachType, Name>,
                       tags: map<MachType, Name>)
    requires forall t :: t in some ==> t in tags && tags[t] == some[t]
    requires Grows(a, b, tags) && Settled(a, p, name, some)
    ensures Settled(b, p, name, some)
  {
    assert PortValid(p) ==> Inherits(a.recs[p], b.recs[p], tags);
  }

  lemma SettledGrows(a: State, b: State, p: Port, name: Name, tags: map<MachType, Name>)
    requires Grows(a, b, tags) && Settled(a, p, name, tags)
    ensures Settled(b, p, name, tags)
  {
    SettledGrowsIn(a, b, p, name, tags, tags);
  }

  function Tag(t: MachType, n: Name): map<MachType, Name> {
    map[t := n]
  }

  function Tags(t1: MachType, n1: Name, t2: MachType, n2: Name): map<MachType, Name> {
    map[t1 := n1, t2 := n2]
  }

  lemma SettledTwice(a: State, b: State, p: Port, name: Name,
                     t1: MachType, n1: Name, t2: MachType, n2: Name)
    requires Settled(a, p, name, Tag(t1, n1))
    requires Grows(a, b, Tags(t1, n1, t2, n2))
    requires Settled(b, p, name, Tag(t2, n2))
    ensures Settled(b, p, name, Tags(t1, n1, t2, n2))
  {
    assert PortValid(p) ==> Inherits(a.recs[p], b.recs[p], Tags(t1, n1, t2, n2));
  }

  lemma GrownFewer(a: State, b: State, tags: map<MachType, Name>, some: map<MachType, Name>)
    requires Grows(a, b, tags) && forall t :: t in some ==> t in tags && tags[t] == some[t]
    ensures Grows(a, b, some)
  {
    forall p | p in a.recs ensures Inherits(a.recs[p], b.recs[p], some) {
      assert Inherits(a.recs[p], b.recs[p], tags);
    }
  }

  /** assoc_create seen on whole states. */
  lemma GrownByTag(a: State, b: State, p: Port, name: Name, t: MachType, n: Name, tags: map<MachType, Name>)
    requires a.next == b.next && a.monitor == b.monitor && a.recs.Keys == b.recs.Keys
    requires forall q :: q in a.recs ==>
               b.recs[q].name == a.recs[q].name && b.recs[q].ptype == a.recs[q].ptype
               && b.recs[q].assocs == if a.recs[q].name == name && name != 0 && n != 0
                                      then AssocPut(a.recs[q].assocs, t, n) else a.recs[q].assocs
    requires t in tags && tags[t] == n
    requires Settled(a, p, name, map[]) && (PortValid(p) ==> name != 0) && NamesDistinct(a)
    ensures Grows(a, b, tags)
    ensures Settled(b, p, name, Tag(t, n))
    ensures Touched(a, b, Marks([p], Tag(t, n)))
  {
    TouchedByTag(a, b, p, name, t, n);
    forall q | q in a.recs ensures Inherits(a.recs[q], b.recs[q], tags) {
      forall u {
        AssocPutGet(a.recs[q].assocs, t, n, u);
      }
    }
    if PortValid(p) {
      AssocPutGet(a.recs[p].assocs, t, n, t);
    }
  }

  lemma TouchedByTag(a: State, b: State, p: Port, name: Name, t: MachType, n: Name)
    requires a.recs.Keys == b.recs.Keys && NamesDistinct(a)
    requires forall q :: q in a.recs ==>
               b.recs[q].assocs == if a.recs[q].name == name && name != 0 && n != 0
                                   then AssocPut(a.recs[q].assocs, t, n) else a.recs[q].assocs
    requires Settled(a, p, name, map[]) && (PortValid(p) ==> name != 0)
    ensures Touched(a, b, Marks([p], Tag(t, n)))
  {
    forall q, u | Mark(q, u) !in Marks([p], Tag(t, n)) ensures AssocIn(b, q, u) == AssocIn(a, q, u) {
      if q in a.recs && a.recs[q].name == name && name != 0 && n != 0 {
        assert HasName(a, q, name) && HasName(a, p, name);
        assert p in [p];
        AssocPutGet(a.recs[q].assocs, t, n, u);
      }
    }
  }

  /** The names are those of the ports, one by one in order, and all the ports are tagged. */
  ghost predicate AllSettled(a: State, ports: seq<Port>, names: seq<Name>, tags: map<MachType, Name>) {
    if ports == [] then names == []
    else
      var n := |ports| - 1;
      |names| == n + 1 && AllSettled(a, ports[..n], names[..n], tags) && Settled(a, ports[n], names[n], tags)
  }

  lemma {:induction false} AllSettledGrows(a: State, b: State, ports: seq<Port>, names: seq<Name>,
                                           tags: map<MachType, Name>)
    requires Grows(a, b, tags) && AllSettled(a, ports, names, tags)
    ensures AllSettled(b, ports, names, tags)
  {
    if ports != [] {
      var n := |ports| - 1;
      AllSettledGrows(a, b, ports[..n], names[..n], tags);
      SettledGrows(a, b, ports[n], names[n], tags);
    }
  }

  lemma AllSettledSnoc(a: State, b: State, ports: seq<Port>, i: nat, names: seq<Name>, name: Name,
                       tags: map<MachType, Name>)
    requires i < |ports| && AllSettled(a, ports[..i], names, tags)
    requires Grows(a, b, tags) && Settled(b, ports[i], name, tags)
    ensures AllSettled(b, ports[..i + 1], names + [name], tags)
  {
    AllSettledGrows(a, b, ports[..i], names, tags);
    assert ports[..i + 1][..i] == ports[..i];
    assert |names| == i by { AllSettledLength(a, ports[..i], names, tags); }
    assert (names + [name])[..i] == names;
  }

  lemma {:induction false} AllSettledLength(a: State, ports: seq<Port>, names: seq<Name>, tags: map<MachType, Name>)
    requires AllSettled(a, ports, names, tags)
    ensures |names| == |ports|
  {
  }

  lemma {:induction false} AllSettledAppend(a: State, ports: seq<Port>, names: seq<Name>,
                                            more: seq<Port>, moreNames: seq<Name>, tags: map<MachType, Name>)
    requires AllSettled(a, ports, names, tags) && AllSettled(a, more, moreNames, tags)
    ensures AllSettled(a, ports + more, names + moreNames, tags)
    decreases |more|
  {
    if more == [] {
      assert ports + more == ports && names + moreNames == names;
    } else {
      var n := |more| - 1;
      AllSettledAppend(a, ports, names, more[..n], moreNames[..n], tags);
      var all, allNames := ports + more, names + moreNames;
      AllSettledLength(a, ports, names, tags);
      assert all[..|all| - 1] == ports + more[..n];
      assert allNames[..|all| - 1] == names + moreNames[..n];
    }
  }
}
