/**
 The creation mask, lib/emul/emul_io.cc:270-424: it is kept both as UNIX bits and as the access
 rights of an access list, and a creation mode is turned into a list by masking rights.
 */
module Umask {

  // 32-bit words and their bits.

  const WordSize: nat := 0x1_0000_0000

  type Word = w: nat | w < WordSize

  function Bit(w: nat, k: nat): bool {
    if k == 0 then w % 2 == 1 else Bit(w / 2, k - 1)
  }

  /** Bitwise and. */
  function And(a: nat, b: nat): (r: nat)
    ensures r <= a
  {
    if a == 0 || b == 0 then 0
    else (if a % 2 == 1 && b % 2 == 1 then 1 else 0) + 2 * And(a / 2, b / 2)
  }

  /** Bitwise complement. */
  function Not(w: Word): Word {
    WordSize - 1 - w
  }

  lemma {:induction false} ZeroBit(k: nat)
    ensures !Bit(0, k)
  {
    if k > 0 {
      ZeroBit(k - 1);
    }
  }

  lemma {:induction false} AndBit(a: nat, b: nat, k: nat)
    ensures Bit(And(a, b), k) <==> Bit(a, k) && Bit(b, k)
    decreases k
  {
    if a == 0 || b == 0 {
      ZeroBit(k);
    } else if k > 0 {
      assert And(a, b) / 2 == And(a / 2, b / 2);
      AndBit(a / 2, b / 2, k - 1);
    }
  }

  function Power(n: nat): (p: nat)
    ensures p > 0
  {
    if n == 0 then 1 else 2 * Power(n - 1)
  }

  lemma {:induction false} ComplementBit(w: nat, n: nat, k: nat)
    requires w < Power(n) && k < n
    ensures Bit(Power(n) - 1 - w, k) <==> !Bit(w, k)
    decreases n
  {
    var c := Power(n) - 1 - w;
    assert Power(n) == 2 * Power(n - 1);
    assert c % 2 == 1 - w % 2 && c / 2 == Power(n - 1) - 1 - w / 2;
    if k > 0 {
      ComplementBit(w / 2, n - 1, k - 1);
    }
  }

  lemma WordPower()
    ensures Power(32) == WordSize
  {
    assert Power(8) == 0x100;
    assert Power(16) == 0x1_0000;
    assert Power(24) == 0x100_0000;
  }

  lemma NotBit(w: Word, k: nat)
    requires k < 32
    ensures Bit(Not(w), k) <==> !Bit(w, k)
  {
    WordPower();
    ComplementBit(w, 32, k);
  }

  lemma EighthBit(w: nat, k: nat)
    ensures Bit(w / 8, k) <==> Bit(w, k + 3)
  {
    assert w / 8 == w / 2 / 2 / 2;
    assert Bit(w, k + 3) == Bit(w / 2, k + 2) == Bit(w / 2 / 2, k + 1) == Bit(w / 2 / 2 / 2, k);
  }

  // Rights.

  /** The access rights that a mode can give. Each is one bit of its own (include/ns_types.h:440-452),
      so that a word of rights is a set of them, `&` is intersection and `|` is union. */
  datatype Right = Admin | Lookup | Insert | Delete | Read | Write | Execute | Getattr

  type Rights = set<Right>

  const InitUmask: Word := 0x12  // 022

  /** convert_access_to_rights: execute is bit 0, write bit 1 and read bit 2. */
  function RightsOf(mode: nat): Rights {
    {Getattr}
    + (if Bit(mode, 0) then {Lookup, Execute} else {})
    + (if Bit(mode, 1) then {Insert, Delete, Write} else {})
    + (if Bit(mode, 2) then {Read} else {})
  }

  /** Masking modes and masking rights is the same. */
  lemma RightsMasked(a: nat, b: nat)
    ensures RightsOf(a) * RightsOf(b) == RightsOf(And(a, b))
  {
    AndBit(a, b, 0);
    AndBit(a, b, 1);
    AndBit(a, b, 2);
    SetMasked(a, b, And(a, b));
  }

  lemma SetMasked(a: nat, b: nat, m: nat)
    requires Bit(m, 0) <==> Bit(a, 0) && Bit(b, 0)
    requires Bit(m, 1) <==> Bit(a, 1) && Bit(b, 1)
    requires Bit(m, 2) <==> Bit(a, 2) && Bit(b, 2)
    ensures RightsOf(a) * RightsOf(b) == RightsOf(m)
  {
  }

  /** The owner, the group and the others. */
  datatype Class = Owner | Group | Others

  /** The three bits of a class. */
  function ClassBits(mode: nat, c: Class): nat {
    match c
    case Owner => And(mode, 0x1c0) / 64
    case Group => And(mode, 0x38) / 8
    case Others => And(mode, 0x7)
  }

  /** Where the bits of a class begin in the mode. */
  function Shift(c: Class): nat {
    match c
    case Owner => 6
    case Group => 3
    case Others => 0
  }

  lemma MaskBits(k: nat)
    requires k < 3
    ensures Bit(0x1c0, k + 6) && Bit(0x38, k + 3) && Bit(0x7, k)
  {
    assert Bit(0x1c0, 6) && Bit(0x1c0, 7) && Bit(0x1c0, 8);
    assert Bit(0x38, 3) && Bit(0x38, 4) && Bit(0x38, 5);
    assert Bit(0x7, 0) && Bit(0x7, 1) && Bit(0x7, 2);
  }

  lemma ClassBit(mode: nat, c: Class, k: nat)
    requires k < 3
    ensures Bit(ClassBits(mode, c), k) <==> Bit(mode, k + Shift(c))
  {
    MaskBits(k);
    match c
    case Owner =>
      var w := And(mode, 0x1c0);
      assert w / 64 == w / 8 / 8;
      EighthBit(w / 8, k);
      EighthBit(w, k + 3);
      AndBit(mode, 0x1c0, k + 6);
    case Group =>
      EighthBit(And(mode, 0x38), k);
      AndBit(mode, 0x38, k + 3);
    case Others =>
      AndBit(mode, 0x7, k);
  }

  /** What a mode means for a class, as an access list says it. */
  function Granted(mode: nat, c: Class): Rights {
    RightsOf(ClassBits(mode, c)) + (if c == Owner then {Admin} else {})
  }

  /** The bit of a class that stands for a right. */
  function UnixBit(r: Right): nat
    requires r != Admin && r != Getattr
  {
    if r == Read then 2 else if r == Lookup || r == Execute then 0 else 1
  }

  /** The entry right by right: administration for the owner only, and the attributes for all. */
  lemma GrantedIs(mode: nat, c: Class, r: Right)
    ensures r in Granted(mode, c) <==>
            if r == Admin then c == Owner else r == Getattr || Bit(mode, UnixBit(r) + Shift(c))
  {
    if r != Admin && r != Getattr {
      ClassBit(mode, c, UnixBit(r));
    }
  }

  /** A right is left after masking if the mode gives it and the mask does not forbid it. */
  lemma MaskedBit(mode: nat, umask: Word, k: nat)
    requires k < 32
    ensures Bit(And(mode, Not(umask)), k) <==> Bit(mode, k) && !Bit(umask, k)
  {
    AndBit(mode, Not(umask), k);
    NotBit(umask, k);
  }

  lemma GrantedMasked(mode: nat, mask: nat, c: Class)
    ensures Granted(mask, c) * Granted(mode, c) == Granted(And(mode, mask), c)
  {
    ClassBitMasked(mode, mask, c, 0);
    ClassBitMasked(mode, mask, c, 1);
    ClassBitMasked(mode, mask, c, 2);
    SetMasked(ClassBits(mask, c), ClassBits(mode, c), ClassBits(And(mode, mask), c));
    UnionMasked(RightsOf(ClassBits(mask, c)), RightsOf(ClassBits(mode, c)),
                RightsOf(ClassBits(And(mode, mask), c)), if c == Owner then {Admin} else {});
  }

  lemma ClassBitMasked(mode: nat, mask: nat, c: Class, k: nat)
    requires k < 3
    ensures Bit(ClassBits(And(mode, mask), c), k) <==> Bit(ClassBits(mask, c), k) && Bit(ClassBits(mode, c), k)
  {
    ClassBit(And(mode, mask), c, k);
    ClassBit(mode, c, k);
    ClassBit(mask, c, k);
    AndBit(mode, mask, k + Shift(c));
  }

  lemma UnionMasked(x: Rights, y: Rights, z: Rights, more: Rights)
    requires x * y == z
    ensures (x + more) * (y + more) == z + more
  {
  }

  /** The mode has the bit of this weight, and the mask has not. */
  ghost predicate Left(mode: nat, umask: nat, weight: nat)
    requires weight > 0
  {
    mode / weight % 2 == 1 && umask / weight % 2 == 0
  }

  lemma LowBits(w: nat)
    ensures (Bit(w, 0) <==> w % 2 == 1) && (Bit(w, 1) <==> w / 2 % 2 == 1) && (Bit(w, 2) <==> w / 4 % 2 == 1)
  {
    assert Bit(w, 2) == Bit(w / 2, 1) == Bit(w / 2 / 2, 0);
  }

  lemma NextBits(w: nat)
    ensures (Bit(w, 3) <==> w / 0x8 % 2 == 1) && (Bit(w, 4) <==> w / 0x10 % 2 == 1) && (Bit(w, 5) <==> w / 0x20 % 2 == 1)
  {
    LowBits(w / 8);
    EighthBit(w, 0);
    EighthBit(w, 1);
    EighthBit(w, 2);
  }

  lemma HighBits(w: nat)
    ensures (Bit(w, 6) <==> w / 0x40 % 2 == 1) && (Bit(w, 7) <==> w / 0x80 % 2 == 1)
    ensures Bit(w, 8) <==> w / 0x100 % 2 == 1
  {
    var v := w / 8;
    NextBits(v);
    Eighths(w, v);
    EighthBit(w, 3);
    EighthBit(w, 4);
    EighthBit(w, 5);
  }

  lemma Eighths(w: nat, v: nat)
    requires v == w / 8
    ensures v / 0x8 == w / 0x40 && v / 0x10 == w / 0x80 && v / 0x20 == w / 0x100
  {
  }

  lemma ClassLeft(mode: nat, umask: Word, c: Class, r: Right)
    ensures r in Granted(And(mode, Not(umask)), c) <==>
            if r == Admin then c == Owner
            else r == Getattr || (Bit(mode, UnixBit(r) + Shift(c)) && !Bit(umask, UnixBit(r) + Shift(c)))
  {
    GrantedIs(And(mode, Not(umask)), c, r);
    if r != Admin && r != Getattr {
      MaskedBit(mode, umask, UnixBit(r) + Shift(c));
    }
  }

  /** What is left of a mode, bit by bit: read, write and execute of the owner, the group and the others. */
  lemma RightsAre(mode: nat, umask: Word, rights: seq<Rights>)
    requires GrantedAll(rights, And(mode, Not(umask)))
    ensures rights == [
              {Admin, Getattr} + (if Left(mode, umask, 0x100) then {Read} else {})
              + (if Left(mode, umask, 0x80) then {Insert, Delete, Write} else {})
              + (if Left(mode, umask, 0x40) then {Lookup, Execute} else {}),
              {Getattr} + (if Left(mode, umask, 0x20) then {Read} else {})
              + (if Left(mode, umask, 0x10) then {Insert, Delete, Write} else {})
              + (if Left(mode, umask, 0x8) then {Lookup, Execute} else {}),
              {Getattr} + (if Left(mode, umask, 0x4) then {Read} else {})
              + (if Left(mode, umask, 0x2) then {Insert, Delete, Write} else {})
              + (if Left(mode, umask, 0x1) then {Lookup, Execute} else {})]
  {
    OwnerLeft(mode, umask);
    GroupLeft(mode, umask);
    OthersLeft(mode, umask);
  }

  lemma OwnerLeft(mode: nat, umask: Word)
    ensures Granted(And(mode, Not(umask)), Owner) ==
            RightsSaid(Owner, Left(mode, umask, 0x100), Left(mode, umask, 0x80), Left(mode, umask, 0x40))
  {
    HighBits(mode);
    HighBits(umask);
    ClassIs(Owner, mode, umask, Left(mode, umask, 0x100), Left(mode, umask, 0x80), Left(mode, umask, 0x40));
  }

  lemma GroupLeft(mode: nat, umask: Word)
    ensures Granted(And(mode, Not(umask)), Group) ==
            RightsSaid(Group, Left(mode, umask, 0x20), Left(mode, umask, 0x10), Left(mode, umask, 0x8))
  {
    NextBits(mode);
    NextBits(umask);
    ClassIs(Group, mode, umask, Left(mode, umask, 0x20), Left(mode, umask, 0x10), Left(mode, umask, 0x8));
  }

  lemma OthersLeft(mode: nat, umask: Word)
    ensures Granted(And(mode, Not(umask)), Others) ==
            RightsSaid(Others, Left(mode, umask, 0x4), Left(mode, umask, 0x2), Left(mode, umask, 0x1))
  {
    LowBits(mode);
    LowBits(umask);
    ClassIs(Others, mode, umask, Left(mode, umask, 0x4), Left(mode, umask, 0x2), Left(mode, umask, 0x1));
  }

  /** The rights of a class that may read, write or execute. */
  function RightsSaid(c: Class, read: bool, write: bool, exec: bool): Rights {
    (if c == Owner then {Admin, Getattr} else {Getattr}) + (if read then {Read} else {})
    + (if write then {Insert, Delete, Write} else {}) + (if exec then {Lookup, Execute} else {})
  }

  lemma ClassIs(c: Class, mode: nat, umask: Word, read: bool, write: bool, exec: bool)
    requires read <==> Bit(mode, 2 + Shift(c)) && !Bit(umask, 2 + Shift(c))
    requires write <==> Bit(mode, 1 + Shift(c)) && !Bit(umask, 1 + Shift(c))
    requires exec <==> Bit(mode, Shift(c)) && !Bit(umask, Shift(c))
    ensures Granted(And(mode, Not(umask)), c) == RightsSaid(c, read, write, exec)
  {
    forall r ensures r in Granted(And(mode, Not(umask)), c) <==> r in RightsSaid(c, read, write, exec) {
      ClassLeft(mode, umask, c, r);
    }
  }

  // The state, and histories of changes to it.

  /** An access list: who the owner and the group are, and the rights of the three classes. */
  datatype Acl = Acl(owner: nat, group: nat, others: nat, rights: seq<Rights>)

  /** The rights that `mode` means, class by class. */
  ghost predicate GrantedAll(rights: seq<Rights>, mode: nat) {
    rights == [Granted(mode, Owner), Granted(mode, Group), Granted(mode, Others)]
  }

  datatype Change = SetMask(mask: Word) | SetIdentity(owner: nat, group: nat)

  /** The mask after a history: the last one set. */
  function MaskAfter(history: seq<Change>): Word {
    if history == [] then InitUmask
    else match history[|history| - 1]
      case SetMask(mask) => mask
      case SetIdentity(_, _) => MaskAfter(history[..|history| - 1])
  }

  /** The owner and group after a history: the last identity, or nobody yet. */
  function IdentityAfter(history: seq<Change>): (nat, nat) {
    if history == [] then (0, 0)
    else match history[|history| - 1]
      case SetMask(_) => IdentityAfter(history[..|history| - 1])
      case SetIdentity(owner, group) => (owner, group)
  }

  lemma AfterChange(history: seq<Change>, change: Change)
    ensures MaskAfter(history + [change]) == if change.SetMask? then change.mask else MaskAfter(history)
    ensures IdentityAfter(history + [change]) ==
            if change.SetMask? then IdentityAfter(history) else (change.owner, change.group)
  {
    assert (history + [change])[..|history|] == history;
  }

  class Protection {
    var umask: Word
    var owner: nat
    var group: nat
    var rights: seq<Rights>
    ghost var history: seq<Change>

    ghost predicate Valid()
      reads this
    {
      && umask == MaskAfter(history) && (owner, group) == IdentityAfter(history)
      && GrantedAll(rights, Not(umask))
    }

    /** emul_io_init. */
    constructor ()
      ensures Valid() && history == [] && umask == 0x12
    {
      var initial := RightsFor(Not(InitUmask));
      umask, owner, group, rights, history := InitUmask, 0, 0, initial, [];
    }

    /** emul_io_set_umask. */
    method SetUmask(mask: Word) returns (oldMask: Word)
      requires Valid()
      modifies this`umask, this`rights, this`history
      ensures Valid() && history == old(history) + [SetMask(mask)]
      ensures oldMask == MaskAfter(old(history)) && oldMask == old(umask) && umask == mask
    {
      oldMask := umask;
      umask := mask;
      rights := RightsFor(Not(umask));
      AfterChange(history, SetMask(mask));
      history := history + [SetMask(mask)];
    }

    /** emul_io_change_identity, when the identity can be had; otherwise nothing changes here. */
    method ChangeIdentity(owner: nat, group: nat, known: bool) returns (ok: bool)
      requires Valid()
      modifies this`owner, this`group, this`history
      ensures ok == known && Valid()
      ensures known ==> this.owner == owner && this.group == group
      ensures !known ==> this.owner == old(this.owner) && this.group == old(this.group)
      ensures history == if known then old(history) + [SetIdentity(owner, group)] else old(history)
    {
      ok := known;
      if known {
        SetOwners(owner, group);
      }
    }

    method SetOwners(newOwner: nat, newGroup: nat)
      requires Valid()
      modifies this`owner, this`group, this`history
      ensures Valid() && history == old(history) + [SetIdentity(newOwner, newGroup)]
      ensures owner == newOwner && group == newGroup
    {
      AfterChange(history, SetIdentity(newOwner, newGroup));
      owner := newOwner;
      group := newGroup;
      history := history + [SetIdentity(newOwner, newGroup)];
    }

    /** emul_io_umask: the list for a file created with `mode`. */
    method ForMode(mode: Word) returns (acl: Acl)
      requires Valid()
      ensures (acl.owner, acl.group) == IdentityAfter(history) && acl.others == 0
      ensures GrantedAll(acl.rights, And(mode, Not(MaskAfter(history))))
      ensures acl.owner == owner && acl.group == group
      ensures acl.rights == [
                {Admin, Getattr} + (if Left(mode, umask, 0x100) then {Read} else {})
                + (if Left(mode, umask, 0x80) then {Insert, Delete, Write} else {})
                + (if Left(mode, umask, 0x40) then {Lookup, Execute} else {}),
                {Getattr} + (if Left(mode, umask, 0x20) then {Read} else {})
                + (if Left(mode, umask, 0x10) then {Insert, Delete, Write} else {})
                + (if Left(mode, umask, 0x8) then {Lookup, Execute} else {}),
                {Getattr} + (if Left(mode, umask, 0x4) then {Read} else {})
                + (if Left(mode, umask, 0x2) then {Insert, Delete, Write} else {})
                + (if Left(mode, umask, 0x1) then {Lookup, Execute} else {})]
    {
      var masked := Masked(rights, mode, Not(umask));
      RightsAre(mode, umask, masked);
      acl := Acl(owner, group, 0, masked);
    }
  }

  /** The three conversions of emul_io_set_umask. */
  method RightsFor(bits: nat) returns (rights: seq<Rights>)
    ensures GrantedAll(rights, bits)
  {
    rights := [RightsOf(And(bits, 0x1c0) / 64) + {Admin},
               RightsOf(And(bits, 0x38) / 8), RightsOf(And(bits, 0x7))];
    assert rights[1] == Granted(bits, Group) && rights[2] == Granted(bits, Others);
  }

  /** The three maskings of emul_io_umask. */
  method Masked(rights: seq<Rights>, mode: nat, ghost mask: nat) returns (masked: seq<Rights>)
    requires GrantedAll(rights, mask)
    ensures GrantedAll(masked, And(mode, mask))
  {
    var modes := RightsFor(mode);
    masked := [rights[0] * modes[0], rights[1] * modes[1], rights[2] * modes[2]];
    GrantedMasked(mode, mask, Owner);
    GrantedMasked(mode, mask, Group);
    GrantedMasked(mode, mask, Others);
  }
}
