/**
 The two hash tables of bin/machid/machid.c: one set of records, each threaded through a
 port->name chain and a name->port chain. The ghost field `recs` is the single map that the
 pair of tables stands for.
 */
module PortTables {
  import opened MachKernel

  type Name = nat

  /** mach_type_t, apart from its numbering. */
  datatype MachType =
    | NoType | Host | HostPriv | ProcessorSet | ProcessorSetName | Task | Thread | ObjectName
    | OtherType(id: nat)

  const HASH_TABLE_SIZE := 256

  /** The chain of associations of a record: a type and a name each. */
  datatype Assocs = NoAssoc | Assoc(atype: MachType, name: Name, next: Assocs)

  function PortHash(p: Port): (b: nat)
    ensures b < HASH_TABLE_SIZE
  {
    (p % 256 + p / 256) % HASH_TABLE_SIZE
  }

  function NameHash(n: Name): (b: nat)
    ensures b < HASH_TABLE_SIZE
  {
    n % HASH_TABLE_SIZE
  }

  class PortRecord {
    var pnNext: PortRecord?
    var npNext: PortRecord?
    const port: Port
    const name: Name
    const ptype: MachType
    var urefs: nat
    var assocs: Assocs

    constructor (port: Port, name: Name, ptype: MachType)
      ensures this.port == port && this.name == name && this.ptype == ptype
      ensures urefs == 1 && assocs == NoAssoc
    {
      this.port, this.name, this.ptype := port, name, ptype;
      urefs, assocs := 1, NoAssoc;
      pnNext, npNext := null, null;
    }
  }

  ghost function At(chain: seq<PortRecord>, i: nat): PortRecord? {
    if i < |chain| then chain[i] else null
  }

  /** `chain` is what a walk along pr_pnnext from `head` meets. */
  ghost predicate PnChain(head: PortRecord?, chain: seq<PortRecord>)
    reads chain`pnNext
  {
    && head == At(chain, 0)
    && forall i :: 0 <= i < |chain| ==> chain[i].pnNext == At(chain, i + 1)
  }

  /** `chain` is what a walk along pr_npnext from `head` meets. */
  ghost predicate NpChain(head: PortRecord?, chain: seq<PortRecord>)
    reads chain`npNext
  {
    && head == At(chain, 0)
    && forall i :: 0 <= i < |chain| ==> chain[i].npNext == At(chain, i + 1)
  }

  ghost predicate Distinct(chain: seq<PortRecord>) {
    forall i, j :: 0 <= i < j < |chain| ==> chain[i] != chain[j]
  }

  ghost predicate Filed(recs: map<Port, PortRecord>, r: PortRecord) {
    r.port in recs && recs[r.port] == r
  }

  datatype Index = ByPort | ByName

  function Bucket(index: Index, r: PortRecord): (b: nat)
    ensures b < HASH_TABLE_SIZE
  {
    match index
    case ByPort => PortHash(r.port)
    case ByName => NameHash(r.name)
  }

  /** `chain` lists, each once, exactly the records of `rs` that belong in bucket `b`. */
  ghost predicate Holds(rs: map<Port, PortRecord>, index: Index, b: nat, chain: seq<PortRecord>) {
    && Distinct(chain)
    && (forall i :: 0 <= i < |chain| ==> Filed(rs, chain[i]) && Bucket(index, chain[i]) == b)
    && (forall p :: p in rs && Bucket(index, rs[p]) == b ==> rs[p] in chain)
  }

  ghost function Without(chain: seq<PortRecord>, k: nat): seq<PortRecord>
    requires k < |chain|
  {
    chain[..k] + chain[k + 1..]
  }

  lemma HoldsAfterLink(rs: map<Port, PortRecord>, index: Index, r: PortRecord, b: nat, chain: seq<PortRecord>)
    requires Holds(rs, index, b, chain) && r.port !in rs
    ensures r !in chain
    ensures Holds(rs[r.port := r], index, b, if b == Bucket(index, r) then [r] + chain else chain)
  {
    var rs' := rs[r.port := r];
    forall i | 0 <= i < |chain| ensures Filed(rs', chain[i]) && chain[i] != r {
      assert Filed(rs, chain[i]);
    }
    var chain' := if b == Bucket(index, r) then [r] + chain else chain;
    forall p | p in rs' && Bucket(index, rs'[p]) == b ensures rs'[p] in chain' {
      if p == r.port {
        assert chain'[0] == r;
      } else {
        assert rs[p] in chain;
      }
    }
  }

  lemma WithoutAt(chain: seq<PortRecord>, k: nat)
    requires k < |chain|
    ensures |Without(chain, k)| == |chain| - 1
    ensures forall i :: 0 <= i < k ==> Without(chain, k)[i] == chain[i]
    ensures forall i :: k <= i < |chain| - 1 ==> Without(chain, k)[i] == chain[i + 1]
  {
  }

  lemma WithoutKeeps(chain: seq<PortRecord>, k: nat, x: PortRecord)
    requires k < |chain| && x in chain && x != chain[k]
    ensures x in Without(chain, k)
  {
    WithoutAt(chain, k);
    var j :| 0 <= j < |chain| && chain[j] == x;
    assert Without(chain, k)[if j < k then j else j - 1] == x;
  }

  lemma HoldsAfterUnlink(rs: map<Port, PortRecord>, index: Index, r: PortRecord, b: nat,
                         chain: seq<PortRecord>, k: nat)
    requires Holds(rs, index, b, chain) && Bijection(rs) && Filed(rs, r)
    requires b == Bucket(index, r) ==> k < |chain| && chain[k] == r
    ensures Holds(rs - {r.port}, index, b, if b == Bucket(index, r) then Without(chain, k) else chain)
  {
    var rs' := rs - {r.port};
    if b == Bucket(index, r) {
      var chain' := Without(chain, k);
      WithoutAt(chain, k);
      forall i | 0 <= i < |chain'|
        ensures Filed(rs', chain'[i]) && Bucket(index, chain'[i]) == b
      {
        var x := chain[if i < k then i else i + 1];
        assert Filed(rs, x) && x != r;
      }
      forall p | p in rs' && Bucket(index, rs'[p]) == b ensures rs'[p] in chain' {
        WithoutKeeps(chain, k, rs[p]);
      }
    } else {
      forall i | 0 <= i < |chain| ensures Filed(rs', chain[i]) {
        assert Filed(rs, chain[i]);
      }
    }
  }

  /** Every record of `rs` is in exactly one bucket, its own, and no bucket holds more. */
  ghost predicate AllHold(rs: map<Port, PortRecord>, index: Index, chains: seq<seq<PortRecord>>) {
    && |chains| == HASH_TABLE_SIZE
    && forall b :: 0 <= b < HASH_TABLE_SIZE ==> Holds(rs, index, b, chains[b])
  }

  lemma AllHoldAfterLink(rs: map<Port, PortRecord>, index: Index, chains: seq<seq<PortRecord>>, r: PortRecord)
    requires AllHold(rs, index, chains) && r.port !in rs
    ensures forall b :: 0 <= b < HASH_TABLE_SIZE ==> r !in chains[b]
    ensures AllHold(rs[r.port := r], index, chains[Bucket(index, r) := [r] + chains[Bucket(index, r)]])
  {
    forall b | 0 <= b < HASH_TABLE_SIZE {
      HoldsAfterLink(rs, index, r, b, chains[b]);
    }
  }

  lemma AllHoldAfterUnlink(rs: map<Port, PortRecord>, index: Index, chains: seq<seq<PortRecord>>,
                           r: PortRecord, k: nat)
    requires AllHold(rs, index, chains) && Bijection(rs) && Filed(rs, r)
    requires At(chains[Bucket(index, r)], k) == r
    ensures AllHold(rs - {r.port}, index, chains[Bucket(index, r) := Without(chains[Bucket(index, r)], k)])
  {
    forall b | 0 <= b < HASH_TABLE_SIZE {
      HoldsAfterUnlink(rs, index, r, b, chains[b], k);
    }
  }

  lemma BijectionAfterLink(rs: map<Port, PortRecord>, r: PortRecord)
    requires Bijection(rs) && forall p :: p in rs ==> rs[p].name != r.name
    ensures Bijection(rs[r.port := r])
  {
    var rs' := rs[r.port := r];
    forall n, p, q | Named(rs', p, n) && Named(rs', q, n) ensures p == q {
      assert p != r.port ==> Named(rs, p, n);
      assert q != r.port ==> Named(rs, q, n);
    }
  }

  lemma BijectionAfterUnlink(rs: map<Port, PortRecord>, port: Port)
    requires Bijection(rs)
    ensures Bijection(rs - {port})
  {
    forall n, p, q | Named(rs - {port}, p, n) && Named(rs - {port}, q, n) ensures p == q {
      assert Named(rs, p, n) && Named(rs, q, n);
    }
  }

  /** A walk that met `r`, or came to the end, has the right answer for `port`. */
  lemma WalkFinds(rs: map<Port, PortRecord>, index: Index, b: nat, chain: seq<PortRecord>,
                  k: nat, port: Port)
    requires Holds(rs, index, b, chain) && Bijection(rs)
    requires port in rs ==> Bucket(index, rs[port]) == b
    requires k <= |chain| && forall j :: 0 <= j < k ==> chain[j].port != port
    requires k < |chain| ==> chain[k].port == port
    ensures if port in rs then At(chain, k) == rs[port] else k == |chain|
  {
    if k < |chain| {
      assert Filed(rs, chain[k]);
    }
  }

  /** A record met in one bucket is in no other. */
  lemma BucketsApart(rs: map<Port, PortRecord>, index: Index, chains: seq<seq<PortRecord>>,
                     b: nat, x: PortRecord)
    requires AllHold(rs, index, chains) && b < HASH_TABLE_SIZE && x in chains[b]
    ensures forall c :: 0 <= c < HASH_TABLE_SIZE && c != b ==> x !in chains[c]
  {
    forall c | 0 <= c < HASH_TABLE_SIZE && c != b ensures x !in chains[c] {
      assert Holds(rs, index, b, chains[b]) && Holds(rs, index, c, chains[c]);
    }
  }

  ghost predicate Named(recs: map<Port, PortRecord>, p: Port, n: Name) {
    p in recs && recs[p].name == n
  }

  /** Filed under its own port; no two records share a name. */
  ghost predicate Bijection(recs: map<Port, PortRecord>) {
    && (forall p :: p in recs ==> recs[p].port == p)
    && (forall n, p, q :: Named(recs, p, n) && Named(recs, q, n) ==> p == q)
  }

  class Tables {
    const portToName: array<PortRecord?>
    const nameToPort: array<PortRecord?>
    ghost var recs: map<Port, PortRecord>
    ghost var pn: seq<seq<PortRecord>>
    ghost var np: seq<seq<PortRecord>>

    /** The port->name table holds exactly the records of `rs`, each once, in its bucket. */
    ghost predicate PnValid(rs: map<Port, PortRecord>)
      reads this`pn, portToName, rs.Values`pnNext
    {
      && portToName.Length == HASH_TABLE_SIZE && AllHold(rs, ByPort, pn)
      && (forall b :: 0 <= b < HASH_TABLE_SIZE ==> PnChain(portToName[b], pn[b]))
    }

    /** The name->port table holds exactly the records of `rs`, each once, in its bucket. */
    ghost predicate NpValid(rs: map<Port, PortRecord>)
      reads this`np, nameToPort, rs.Values`npNext
    {
      && nameToPort.Length == HASH_TABLE_SIZE && AllHold(rs, ByName, np)
      && (forall b :: 0 <= b < HASH_TABLE_SIZE ==> NpChain(nameToPort[b], np[b]))
    }

    ghost predicate Valid()
      reads this, portToName, nameToPort, recs.Values`pnNext, recs.Values`npNext
    {
      portToName != nameToPort && Bijection(recs) && PnValid(recs) && NpValid(recs)
    }

    constructor ()
      ensures Valid() && recs == map[]
      ensures fresh(portToName) && fresh(nameToPort)
    {
      portToName := new PortRecord?[HASH_TABLE_SIZE](_ => null);
      nameToPort := new PortRecord?[HASH_TABLE_SIZE](_ => null);
      recs := map[];
      pn := seq(HASH_TABLE_SIZE, _ => []);
      np := seq(HASH_TABLE_SIZE, _ => []);
    }

    method FindPort(port: Port) returns (r: PortRecord?)
      requires Valid()
      ensures if port in recs then r == recs[port] else r == null
    {
      r := portToName[PortHash(port)];
      ghost var chain := pn[PortHash(port)];
      ghost var i := 0;
      assert PnChain(portToName[PortHash(port)], chain);
      while r != null
        invariant 0 <= i <= |chain|
        invariant r == At(chain, i)
        invariant forall j :: 0 <= j < i ==> chain[j].port != port
        decreases |chain| - i
      {
        if r.port == port {
          return;
        }
        r := r.pnNext;
        i := i + 1;
      }
    }

    method FindName(name: Name) returns (r: PortRecord?)
      requires Valid()
      ensures r != null ==> Filed(recs, r) && r.name == name
      ensures r != null ==> forall p :: p in recs && recs[p].name == name ==> p == r.port
      ensures r == null ==> forall p :: p in recs ==> recs[p].name != name
    {
      r := nameToPort[NameHash(name)];
      ghost var chain := np[NameHash(name)];
      ghost var i := 0;
      assert NpChain(nameToPort[NameHash(name)], chain);
      while r != null
        invariant 0 <= i <= |chain|
        invariant r == At(chain, i)
        invariant forall j :: 0 <= j < i ==> chain[j].name != name
        decreases |chain| - i
      {
        if r.name == name {
          assert forall p :: p in recs && recs[p].name == name ==> Named(recs, p, name);
          assert Named(recs, r.port, name);
          return;
        }
        r := r.npNext;
        i := i + 1;
      }
    }

    /** Push a record on the front of its port->name bucket. */
    method LinkPn(r: PortRecord, ghost rs: map<Port, PortRecord>)
      requires PnValid(rs) && r.port !in rs
      modifies this`pn, portToName, r`pnNext
      ensures PnValid(rs[r.port := r])
    {
      AllHoldAfterLink(rs, ByPort, pn, r);
      var b := PortHash(r.port);
      r.pnNext := portToName[b];
      portToName[b] := r;
      pn := pn[b := [r] + pn[b]];
      forall c | 0 <= c < HASH_TABLE_SIZE ensures PnChain(portToName[c], pn[c]) {
        assert old(PnChain(portToName[c], pn[c]));
      }
    }

    /** The walk that carries a trailing pointer: where `port` is in bucket `b`. */
    method SeekPn(b: nat, port: Port, ghost chain: seq<PortRecord>)
      returns (prev: PortRecord?, r: PortRecord?, ghost k: nat)
      requires b < portToName.Length && PnChain(portToName[b], chain)
      ensures k <= |chain| && r == At(chain, k)
      ensures prev == if k == 0 then null else At(chain, k - 1)
      ensures forall j :: 0 <= j < k ==> chain[j].port != port
      ensures r != null ==> r.port == port
    {
      prev, r, k := null, portToName[b], 0;
      while r != null && r.port != port
        invariant k <= |chain|
        invariant r == At(chain, k)
        invariant prev == if k == 0 then null else At(chain, k - 1)
        invariant forall j :: 0 <= j < k ==> chain[j].port != port
        decreases |chain| - k
      {
        prev, r, k := r, r.pnNext, k + 1;
      }
    }

    /** Unlink the record after `prev`, or the first of the bucket. */
    method SplicePn(b: nat, prev: PortRecord?, r: PortRecord, ghost chains: seq<seq<PortRecord>>, ghost k: nat)
      requires b < portToName.Length == |chains| && Distinct(chains[b])
      requires forall c :: 0 <= c < |chains| ==> PnChain(portToName[c], chains[c])
      requires At(chains[b], k) == r
      requires prev == if k == 0 then null else At(chains[b], k - 1)
      requires prev != null ==> forall c :: 0 <= c < |chains| && c != b ==> prev !in chains[c]
      modifies portToName, (if prev == null then {} else {prev})`pnNext
      ensures forall c :: 0 <= c < |chains| ==> PnChain(portToName[c], chains[b := Without(chains[b], k)][c])
    {
      WithoutAt(chains[b], k);
      if prev == null {
        portToName[b] := r.pnNext;
      } else {
        prev.pnNext := r.pnNext;
      }
      forall c | 0 <= c < |chains| && c != b ensures PnChain(portToName[c], chains[c]) {
        assert old(PnChain(portToName[c], chains[c]));
      }
      assert PnChain(portToName[b], Without(chains[b], k));
    }

    /** Take `port` out of its port->name bucket, if it is there. */
    method UnlinkPn(port: Port, ghost rs: map<Port, PortRecord>) returns (r: PortRecord?)
      requires PnValid(rs) && Bijection(rs)
      modifies this`pn, portToName, rs.Values`pnNext
      ensures PnValid(rs - {port})
      ensures if port in rs then r == rs[port] else r == null
    {
      var prev;
      ghost var k;
      var b := PortHash(port);
      assert PnChain(portToName[b], pn[b]) && Holds(rs, ByPort, b, pn[b]);
      prev, r, k := SeekPn(b, port, pn[b]);
      WalkFinds(rs, ByPort, b, pn[b], k, port);
      if r == null {
        assert rs - {port} == rs;
      } else {
        AllHoldAfterUnlink(rs, ByPort, pn, r, k);
        if prev != null {
          BucketsApart(rs, ByPort, pn, b, prev);
          assert Filed(rs, prev);
        }
        ghost var chains := pn;
        pn := chains[b := Without(chains[b], k)];
        assert AllHold(rs - {port}, ByPort, pn);
        SplicePn(b, prev, r, chains, k);
      }
    }

    /** Push a record on the front of its name->port bucket. */
    method LinkNp(r: PortRecord, ghost rs: map<Port, PortRecord>)
      requires NpValid(rs) && r.port !in rs
      modifies this`np, nameToPort, r`npNext
      ensures NpValid(rs[r.port := r])
    {
      AllHoldAfterLink(rs, ByName, np, r);
      var b := NameHash(r.name);
      r.npNext := nameToPort[b];
      nameToPort[b] := r;
      np := np[b := [r] + np[b]];
      forall c | 0 <= c < HASH_TABLE_SIZE ensures NpChain(nameToPort[c], np[c]) {
        assert old(NpChain(nameToPort[c], np[c]));
      }
    }

    /** The walk that carries a trailing pointer: where `port` is in bucket `b`. */
    method SeekNp(b: nat, port: Port, ghost chain: seq<PortRecord>)
      returns (prev: PortRecord?, r: PortRecord?, ghost k: nat)
      requires b < nameToPort.Length && NpChain(nameToPort[b], chain)
      ensures k <= |chain| && r == At(chain, k)
      ensures prev == if k == 0 then null else At(chain, k - 1)
      ensures forall j :: 0 <= j < k ==> chain[j].port != port
      ensures r != null ==> r.port == port
    {
      prev, r, k := null, nameToPort[b], 0;
      while r != null && r.port != port
        invariant k <= |chain|
        invariant r == At(chain, k)
        invariant prev == if k == 0 then null else At(chain, k - 1)
        invariant forall j :: 0 <= j < k ==> chain[j].port != port
        decreases |chain| - k
      {
        prev, r, k := r, r.npNext, k + 1;
      }
    }

    /** Unlink the record after `prev`, or the first of the bucket. */
    method SpliceNp(b: nat, prev: PortRecord?, r: PortRecord, ghost chains: seq<seq<PortRecord>>, ghost k: nat)
      requires b < nameToPort.Length == |chains| && Distinct(chains[b])
      requires forall c :: 0 <= c < |chains| ==> NpChain(nameToPort[c], chains[c])
      requires At(chains[b], k) == r
      requires prev == if k == 0 then null else At(chains[b], k - 1)
      requires prev != null ==> forall c :: 0 <= c < |chains| && c != b ==> prev !in chains[c]
      modifies nameToPort, (if prev == null then {} else {prev})`npNext
      ensures forall c :: 0 <= c < |chains| ==> NpChain(nameToPort[c], chains[b := Without(chains[b], k)][c])
    {
      WithoutAt(chains[b], k);
      if prev == null {
        nameToPort[b] := r.npNext;
      } else {
        prev.npNext := r.npNext;
      }
      forall c | 0 <= c < |chains| && c != b ensures NpChain(nameToPort[c], chains[c]) {
        assert old(NpChain(nameToPort[c], chains[c]));
      }
      assert NpChain(nameToPort[b], Without(chains[b], k));
    }

    /** Take `port` out of the name->port bucket of `name`, if it is there. */
    method UnlinkNp(name: Name, port: Port, ghost rs: map<Port, PortRecord>) returns (r: PortRecord?)
      requires NpValid(rs) && Bijection(rs)
      requires port in rs ==> rs[port].name == name
      modifies this`np, nameToPort, rs.Values`npNext
      ensures NpValid(rs - {port})
      ensures if port in rs then r == rs[port] else r == null
    {
      var prev;
      ghost var k;
      var b := NameHash(name);
      assert NpChain(nameToPort[b], np[b]) && Holds(rs, ByName, b, np[b]);
      prev, r, k := SeekNp(b, port, np[b]);
      WalkFinds(rs, ByName, b, np[b], k, port);
      if r == null {
        assert rs - {port} == rs;
      } else {
        AllHoldAfterUnlink(rs, ByName, np, r, k);
        if prev != null {
          BucketsApart(rs, ByName, np, b, prev);
          assert Filed(rs, prev);
        }
        ghost var chains := np;
        np := chains[b := Without(chains[b], k)];
        assert AllHold(rs - {port}, ByName, np);
        SpliceNp(b, prev, r, chains, k);
      }
    }

    /** The linking half of name_lookup: push the new record on the front of both buckets. */
    method Insert(r: PortRecord)
      requires Valid()
      requires r.port !in recs && r !in recs.Values
      requires forall p :: p in recs ==> recs[p].name != r.name
      modifies this, portToName, nameToPort, r`pnNext, r`npNext
      ensures Valid()
      ensures recs == old(recs)[r.port := r]
    {
      BijectionAfterLink(recs, r);
      ghost var rs := recs;
      recs := rs[r.port := r];
      LinkPn(r, rs);
      LinkNp(r, rs);
    }

    /** The two unlinking loops of port_destroy. The first finds the record by port in its
        port bucket; the second looks in that record's name bucket, again by port, and meets
        the very same record. */
    method Unlink(port: Port) returns (r: PortRecord?)
      requires Valid()
      modifies this, portToName, nameToPort, recs.Values`pnNext, recs.Values`npNext
      ensures Valid()
      ensures if port in old(recs) then r == old(recs)[port] else r == null
      ensures recs == old(recs) - {port}
    {
      ghost var all := recs;
      recs := all - {port};
      BijectionAfterUnlink(all, port);
      r := UnlinkPn(port, all);
      assert NpValid(all);
      if r != null {
        r := UnlinkNp(r.name, port, all);
        assert PnValid(recs);
      } else {
        assert recs == all;
      }
    }
  }
}
