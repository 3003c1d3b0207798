/**
 The part of the Mach kernel that the machid server leans on: the server task's own table of
 port names. A name denotes a send right or, after the port has died, a dead name; either way
 it carries a count of user references. The calls follow their documentation in
 mach_include_sa/mach/mach_port.defs. Counts are unbounded here.
 */
module MachKernel {

  type Port = nat

  const MACH_PORT_NULL: Port := 0
  const MACH_PORT_DEAD: Port := 0xffff_ffff

  predicate PortValid(p: Port) {
    p != MACH_PORT_NULL && p != MACH_PORT_DEAD
  }

  /** `armed`: a dead-name notification has been requested for this name. */
  datatype Right = Send(urefs: nat, armed: bool) | DeadName(urefs: nat)

  datatype Kind = SendKind | DeadNameKind

  datatype KernReturn = Success | InvalidName | InvalidRight | InvalidValue | InvalidArgument

  /** `pending`: dead-name notifications sent and not yet received, by name.
      `deleted`: port-deleted notifications, sent when a watched name is deallocated.
      `fate`: the ports that die at each moment, which is no one's choice; `time`: the moment. */
  datatype Space = Space(rights: map<Port, Right>, pending: multiset<Port>, deleted: nat, fate: Fate, time: nat)

  type Fate = nat -> set<Port>

  function Urefs(s: Space, p: Port): nat {
    if p in s.rights then s.rights[p].urefs else 0
  }

  predicate Live(s: Space, p: Port) {
    p in s.rights && s.rights[p].Send?
  }

  predicate Dead(s: Space, p: Port) {
    p in s.rights && s.rights[p].DeadName?
  }

  predicate Armed(s: Space, p: Port) {
    Live(s, p) && s.rights[p].armed
  }

  /** Set the count of a name; at zero the name is deallocated and may be recycled. */
  function SetUrefs(s: Space, p: Port, n: nat): Space
    requires p in s.rights
  {
    if n == 0 then
      s.(rights := s.rights - {p}, deleted := s.deleted + if Armed(s, p) then 1 else 0)
    else
      s.(rights := s.rights[p := s.rights[p].(urefs := n)])
  }

  /** mach_port_mod_refs */
  function ModRefs(s: Space, p: Port, kind: Kind, delta: int): (KernReturn, Space) {
    if p !in s.rights then (InvalidName, s)
    else if s.rights[p].Send? != kind.SendKind? then (InvalidRight, s)
    else if s.rights[p].urefs + delta < 0 then (InvalidValue, s)
    else (Success, SetUrefs(s, p, s.rights[p].urefs + delta))
  }

  /** mach_port_deallocate: one reference, whatever the kind of right. */
  function Deallocate(s: Space, p: Port): (KernReturn, Space) {
    if p !in s.rights || s.rights[p].urefs == 0 then (InvalidName, s)
    else (Success, SetUrefs(s, p, s.rights[p].urefs - 1))
  }

  /** mach_port_request_notification for MACH_NOTIFY_DEAD_NAME. The middle component says
      whether a request was already registered. A dead name with `sync` is reported at once,
      and the report carries a user reference of its own. */
  function RequestDeadName(s: Space, p: Port, sync: bool): (KernReturn, bool, Space) {
    if p !in s.rights then (InvalidName, false, s)
    else match s.rights[p]
      case Send(u, armed) => (Success, armed, s.(rights := s.rights[p := Send(u, true)]))
      case DeadName(u) =>
        if sync then
          (Success, false,
           s.(rights := s.rights[p := DeadName(u + 1)], pending := s.pending + multiset{p}))
        else (InvalidArgument, false, s)
  }

  /** A message brings in a send right: one more reference, under the name the task already
      has for that port or under a name that is free. */
  function Receive(s: Space, p: Port): Space
    requires !Dead(s, p)
  {
    s.(rights := s.rights[p := if p in s.rights then s.rights[p].(urefs := s.rights[p].urefs + 1)
                               else Send(1, false)])
  }

  function Die(r: Right): Right {
    match r
    case Send(u, armed) => DeadName(if armed then u + 1 else u)
    case DeadName(_) => r
  }

  /** A moment passes, and the ports in `dying` die. Each watched one is reported, and the report
      carries a user reference. */
  function Kill(s: Space, dying: set<Port>): Space {
    s.(rights := map p | p in s.rights :: if p in dying then Die(s.rights[p]) else s.rights[p],
       pending := s.pending + multiset(set p | p in dying && Armed(s, p)),
       time := s.time + 1)
  }
}
