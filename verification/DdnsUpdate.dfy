/**
 The updates `plugins/ddns` builds, and what a name server does with them.

 The server's side is sections 3.2 and 3.4 of RFC 2136 for the forms of record this
 plugin writes: the prerequisite section is decided as a whole, and only if all of it
 holds is the update section applied, in order and as one transaction.
 */
module DdnsUpdate {
  import opened Octets

  type Name = seq<Byte>

  datatype RType = A | AAAA | DHCID | PTR
  datatype Class = IN | ANY | NONE

  datatype Change = Change(name: Name, rtype: RType, kind: Class, ttl: nat, data: seq<Byte>)

  // ----- the name server -----------------------------------------------------------------

  type Zone = map<(Name, RType), set<seq<Byte>>>

  function RRset(z: Zone, n: Name, t: RType): set<seq<Byte>> {
    if (n, t) in z then z[(n, t)] else {}
  }

  datatype RCode = NoError | YXRRSET | NXRRSET | Refused

  /** The records a value-dependent prerequisite asks an RRset to be. */
  function Wanted(prereqs: seq<Change>, n: Name, t: RType): set<seq<Byte>> {
    set c <- prereqs | c.kind == IN && c.name == n && c.rtype == t :: c.data
  }

  function CheckOne(z: Zone, c: Change, all: seq<Change>): RCode {
    match c.kind
    case NONE => if RRset(z, c.name, c.rtype) == {} then NoError else YXRRSET
    case ANY => if RRset(z, c.name, c.rtype) != {} then NoError else NXRRSET
    case IN => if RRset(z, c.name, c.rtype) == Wanted(all, c.name, c.rtype) then NoError else NXRRSET
  }

  function CheckFrom(z: Zone, prereqs: seq<Change>, i: nat): RCode
    requires i <= |prereqs|
    decreases |prereqs| - i
  {
    if i == |prereqs| then NoError else
    var code := CheckOne(z, prereqs[i], prereqs);
    if code != NoError then code else CheckFrom(z, prereqs, i + 1)
  }

  function ApplyOne(z: Zone, c: Change): Zone {
    var was := RRset(z, c.name, c.rtype);
    z[(c.name, c.rtype) := match c.kind
      case IN => was + {c.data}
      case ANY => {}
      case NONE => was - {c.data}]
  }

  function ApplyAll(z: Zone, changes: seq<Change>): Zone {
    if changes == [] then z
    else ApplyOne(ApplyAll(z, changes[..|changes| - 1]), changes[|changes| - 1])
  }

  datatype Update = Update(prereqs: seq<Change>, changes: seq<Change>)

  function Process(z: Zone, u: Update): (Zone, RCode) {
    var code := CheckFrom(z, u.prereqs, 0);
    if code == NoError then (ApplyAll(z, u.changes), NoError) else (z, code)
  }

  // ----- the plugin's side ----------------------------------------------------------------

  datatype Job = Job(name: Name, addrs: seq<seq<Byte>>, dhcid: seq<Byte>, remove: bool)

  function AddressType(addr: seq<Byte>): RType {
    if |addr| == 4 then A else AAAA
  }

  function DeleteRRset(n: Name, t: RType): Change { Change(n, t, ANY, 0, []) }
  function DeleteRecord(n: Name, t: RType, data: seq<Byte>): Change { Change(n, t, NONE, 0, data) }
  function AddRecord(n: Name, t: RType, ttl: nat, data: seq<Byte>): Change { Change(n, t, IN, ttl, data) }
  function NoRRset(n: Name, t: RType): Change { Change(n, t, NONE, 0, []) }
  function RRsetEquals(n: Name, t: RType, data: seq<Byte>): Change { Change(n, t, IN, 0, data) }

  function FreshPrereqs(j: Job): seq<Change> { [NoRRset(j.name, DHCID)] }
  function OwnedPrereqs(j: Job): seq<Change> { [RRsetEquals(j.name, DHCID, j.dhcid)] }

  function AddressAdds(j: Job, t: RType, ttl: nat, n: nat): seq<Change>
    requires n <= |j.addrs|
  {
    if n == 0 then [] else AddressAdds(j, t, ttl, n - 1) + [AddRecord(j.name, t, ttl, j.addrs[n - 1])]
  }

  function ClaimChanges(j: Job, ttl: nat): seq<Change>
    requires j.addrs != []
  {
    var t := AddressType(j.addrs[0]);
    [DeleteRRset(j.name, t)] + AddressAdds(j, t, ttl, |j.addrs|) + [AddRecord(j.name, DHCID, ttl, j.dhcid)]
  }

  /** forwardChanges: the update section that claims a name. */
  method ForwardChanges(j: Job, ttl: nat) returns (changes: seq<Change>)
    requires j.addrs != []
    ensures changes == ClaimChanges(j, ttl)
  {
    var t := AddressType(j.addrs[0]);
    changes := [DeleteRRset(j.name, t)];
    for i := 0 to |j.addrs|
      invariant changes == [DeleteRRset(j.name, t)] + AddressAdds(j, t, ttl, i)
    {
      changes := changes + [AddRecord(j.name, t, ttl, j.addrs[i])];
    }
    changes := changes + [AddRecord(j.name, DHCID, ttl, j.dhcid)];
  }

  function WithdrawChanges(j: Job): seq<Change>
    requires j.addrs != []
  {
    [DeleteRRset(j.name, AddressType(j.addrs[0])), DeleteRecord(j.name, DHCID, j.dhcid)]
  }

  function ReverseChanges(j: Job, owner: Name, target: seq<Byte>, ttl: nat): seq<Change> {
    if j.remove then [DeleteRRset(owner, PTR)]
    else [DeleteRRset(owner, PTR), AddRecord(owner, PTR, ttl, target)]
  }

  // ----- what each update does --------------------------------------------------------------

  /** z' differs from z in at most the given RRsets of one name. */
  ghost predicate OnlyAt(z: Zone, z': Zone, n: Name, types: set<RType>) {
    forall m, t :: m != n || t !in types ==> RRset(z', m, t) == RRset(z, m, t)
  }

  function AddressSet(j: Job): set<seq<Byte>> {
    set a <- j.addrs
  }

  lemma ApplyAllSplits(z: Zone, x: seq<Change>, y: seq<Change>)
    ensures ApplyAll(z, x + y) == ApplyAll(ApplyAll(z, x), y)
  {
    if y == [] {
      assert x + y == x;
    } else {
      assert (x + y)[..|x + y| - 1] == x + y[..|y| - 1];
      ApplyAllSplits(z, x, y[..|y| - 1]);
    }
  }

  lemma ApplyNone(z: Zone)
    ensures ApplyAll(z, []) == z
  {
  }

  lemma ApplySingle(z: Zone, c: Change)
    ensures ApplyAll(z, [c]) == ApplyOne(z, c)
  {
    assert [c][..0] == [];
  }

  ghost function FirstAddresses(j: Job, n: nat): set<seq<Byte>>
    requires n <= |j.addrs|
  {
    if n == 0 then {} else FirstAddresses(j, n - 1) + {j.addrs[n - 1]}
  }

  lemma {:induction false} FirstAre(j: Job, n: nat)
    requires n <= |j.addrs|
    ensures FirstAddresses(j, n) == set a <- j.addrs[..n]
  {
    if n > 0 {
      FirstAre(j, n - 1);
      assert j.addrs[..n] == j.addrs[..n - 1] + [j.addrs[n - 1]];
    }
  }

  lemma AddOneEffect(z: Zone, c: Change)
    requires c.kind == IN
    ensures RRset(ApplyOne(z, c), c.name, c.rtype) == RRset(z, c.name, c.rtype) + {c.data}
    ensures OnlyAt(z, ApplyOne(z, c), c.name, {c.rtype})
  {
  }

  lemma {:induction false} AddsEffect(z: Zone, j: Job, t: RType, ttl: nat, n: nat)
    requires n <= |j.addrs|
    ensures var z' := ApplyAll(z, AddressAdds(j, t, ttl, n));
      && RRset(z', j.name, t) == RRset(z, j.name, t) + FirstAddresses(j, n)
      && OnlyAt(z, z', j.name, {t})
  {
    hide ApplyAll, ApplyOne, RRset;
    ApplyNone(z);
    if n > 0 {
      AddsEffect(z, j, t, ttl, n - 1);
      var last := AddRecord(j.name, t, ttl, j.addrs[n - 1]);
      ApplyAllSplits(z, AddressAdds(j, t, ttl, n - 1), [last]);
      var z1 := ApplyAll(z, AddressAdds(j, t, ttl, n - 1));
      ApplySingle(z1, last);
      AddOneEffect(z1, last);
    }
  }

  /** A claim, once its prerequisites hold, replaces the address set and adds the DHCID. */
  lemma ClaimEffect(z: Zone, j: Job, ttl: nat)
    requires j.addrs != []
    ensures var z', t := ApplyAll(z, ClaimChanges(j, ttl)), AddressType(j.addrs[0]);
      && RRset(z', j.name, t) == AddressSet(j)
      && RRset(z', j.name, DHCID) == RRset(z, j.name, DHCID) + {j.dhcid}
      && OnlyAt(z, z', j.name, {t, DHCID})
  {
    hide ApplyAll, AddressAdds;
    var t := AddressType(j.addrs[0]);
    var del, adds, id := DeleteRRset(j.name, t), AddressAdds(j, t, ttl, |j.addrs|), AddRecord(j.name, DHCID, ttl, j.dhcid);
    ApplyAllSplits(z, [del] + adds, [id]);
    ApplyAllSplits(z, [del], adds);
    ApplySingle(z, del);
    var z1 := ApplyOne(z, del);
    AddsEffect(z1, j, t, ttl, |j.addrs|);
    ApplySingle(ApplyAll(z1, adds), id);
    FirstAre(j, |j.addrs|);
    assert j.addrs[..|j.addrs|] == j.addrs;
    var z2 := ApplyAll(z1, adds);
    var z3 := ApplyOne(z2, id);
    forall m, u | m != j.name || u !in {t, DHCID} ensures RRset(z3, m, u) == RRset(z, m, u) {
      assert RRset(z3, m, u) == RRset(z2, m, u);
      assert RRset(z2, m, u) == RRset(z1, m, u);
    }
  }

  lemma WithdrawEffect(z: Zone, j: Job)
    requires j.addrs != []
    ensures var z', t := ApplyAll(z, WithdrawChanges(j)), AddressType(j.addrs[0]);
      && RRset(z', j.name, t) == {}
      && RRset(z', j.name, DHCID) == RRset(z, j.name, DHCID) - {j.dhcid}
      && OnlyAt(z, z', j.name, {t, DHCID})
  {
    var t := AddressType(j.addrs[0]);
    var x, y := DeleteRRset(j.name, t), DeleteRecord(j.name, DHCID, j.dhcid);
    assert [x, y] == [x] + [y];
    ApplyAllSplits(z, [x], [y]);
    ApplySingle(z, x);
    ApplySingle(ApplyOne(z, x), y);
  }

  lemma ReverseEffect(z: Zone, j: Job, owner: Name, target: seq<Byte>, ttl: nat)
    ensures var z' := ApplyAll(z, ReverseChanges(j, owner, target, ttl));
      && RRset(z', owner, PTR) == (if j.remove then {} else {target})
      && OnlyAt(z, z', owner, {PTR})
  {
    var x, y := DeleteRRset(owner, PTR), AddRecord(owner, PTR, ttl, target);
    ApplySingle(z, x);
    if !j.remove {
      assert [x, y] == [x] + [y];
      ApplyAllSplits(z, [x], [y]);
      ApplySingle(ApplyOne(z, x), y);
    }
  }

  lemma FreshCheck(z: Zone, j: Job)
    ensures CheckFrom(z, FreshPrereqs(j), 0) == if RRset(z, j.name, DHCID) == {} then NoError else YXRRSET
  {
    var p := FreshPrereqs(j);
    assert CheckFrom(z, p, 1) == NoError;
    assert p[0] == NoRRset(j.name, DHCID);
  }

  lemma OwnedCheck(z: Zone, j: Job)
    ensures CheckFrom(z, OwnedPrereqs(j), 0) == if RRset(z, j.name, DHCID) == {j.dhcid} then NoError else NXRRSET
  {
    var p := OwnedPrereqs(j);
    assert CheckFrom(z, p, 1) == NoError;
    assert p[0] in p && Wanted(p, j.name, DHCID) == {j.dhcid};
  }
}
