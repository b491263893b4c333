/**
 The bounded register of names one instance wrote, `plugins/ddns/owner.go`: a map and
 a list of names that change together, least recently written at the front.
 */
module DdnsOwners {
  import opened Octets
  import opened DdnsUpdate

  datatype Holding = Holding(dhcid: seq<Byte>, addrs: seq<seq<Byte>>)
  datatype Register = Register(byName: map<Name, Holding>, order: seq<Name>)

  const EMPTY: Register := Register(map[], [])

  ghost predicate Distinct<T>(s: seq<T>) {
    forall i, j :: 0 <= i < j < |s| ==> s[i] != s[j]
  }

  /** Map and list hold the same names, each once. */
  ghost predicate Valid(r: Register) {
    Distinct(r.order) && forall n :: n in r.byName <==> n in r.order
  }

  /** The list without a name. */
  function Dropped(order: seq<Name>, name: Name): (r: seq<Name>)
    ensures name !in r && |r| <= |order|
    ensures forall m :: m in order && m != name ==> m in r
    ensures forall m :: m in r ==> m in order
    ensures name !in order ==> r == order
  {
    if order == [] then [] else
    var init, m := order[..|order| - 1], order[|order| - 1];
    if m == name then Dropped(init, name) else Dropped(init, name) + [m]
  }

  lemma {:induction false} DroppedDistinct(order: seq<Name>, name: Name)
    requires Distinct(order)
    ensures Distinct(Dropped(order, name))
  {
    if order != [] {
      DroppedDistinct(order[..|order| - 1], name);
      assert order[|order| - 1] !in order[..|order| - 1];
    }
  }

  function Evict(r: Register, max: nat): (e: Register)
    ensures |e.order| <= max
    decreases |r.order|
  {
    if |r.order| <= max then r else Evict(Register(r.byName - {r.order[0]}, r.order[1..]), max)
  }

  function Record(r: Register, max: nat, name: Name, h: Holding): Register {
    Evict(Register(r.byName[name := h], Dropped(r.order, name) + [name]), max)
  }

  function Forget(r: Register, name: Name): Register {
    Register(r.byName - {name}, Dropped(r.order, name))
  }

  predicate Holds(r: Register, name: Name, dhcid: seq<Byte>, addrs: seq<seq<Byte>>) {
    && addrs != [] && name in r.byName && r.byName[name].dhcid == dhcid
    && (forall a :: a in addrs ==> a in r.byName[name].addrs)
  }

  /** remember: a claim is noted, a withdrawal forgotten. */
  function Remember(r: Register, max: nat, j: Job): Register {
    if j.remove then Forget(r, j.name) else Record(r, max, j.name, Holding(j.dhcid, j.addrs))
  }

  lemma {:induction false} EvictValid(r: Register, max: nat)
    requires Valid(r)
    ensures Valid(Evict(r, max))
    decreases |r.order|
  {
    hide Valid;
    if |r.order| > max {
      EvictOneValid(r);
      EvictValid(Register(r.byName - {r.order[0]}, r.order[1..]), max);
    }
  }

  lemma RecordValid(r: Register, max: nat, name: Name, h: Holding)
    requires Valid(r)
    ensures Valid(Record(r, max, name, h))
  {
    DroppedDistinct(r.order, name);
    EvictValid(Register(r.byName[name := h], Dropped(r.order, name) + [name]), max);
  }

  // ----- the register in its own form ---------------------------------------------------------

  class Owners {
    const max: nat
    var byName: map<Name, Holding>
    var order: seq<Name>

    ghost function View(): Register
      reads this
    {
      Register(byName, order)
    }

    constructor (max: nat)
      ensures View() == EMPTY && this.max == max
    {
      this.max := max;
      byName, order := map[], [];
    }

    method EvictOldest()
      modifies this
      ensures View() == Evict(old(View()), max)
    {
      while |order| > max
        invariant Evict(View(), max) == Evict(old(View()), max)
      {
        var front := order[0];
        order := order[1..];
        byName := byName - {front};
      }
    }

    method Note(name: Name, dhcid: seq<Byte>, addrs: seq<seq<Byte>>)
      requires Valid(View())
      modifies this
      ensures Valid(View()) && View() == Record(old(View()), max, name, Holding(dhcid, addrs))
    {
      RecordValid(View(), max, name, Holding(dhcid, addrs));
      if name in byName {
        order := Dropped(order, name) + [name];
      } else {
        order := order + [name];
      }
      byName := byName[name := Holding(dhcid, addrs)];
      EvictOldest();
    }

    method HoldsAll(name: Name, dhcid: seq<Byte>, addrs: seq<seq<Byte>>) returns (ok: bool)
      ensures ok == Holds(View(), name, dhcid, addrs)
    {
      if |addrs| == 0 || name !in byName || byName[name].dhcid != dhcid {
        return false;
      }
      for i := 0 to |addrs|
        invariant forall k :: 0 <= k < i ==> addrs[k] in byName[name].addrs
      {
        if addrs[i] !in byName[name].addrs {
          return false;
        }
      }
      return true;
    }

    method Drop(name: Name)
      requires Valid(View())
      modifies this
      ensures Valid(View()) && View() == Forget(old(View()), name)
    {
      DroppedDistinct(order, name);
      if name !in byName {
        assert byName - {name} == byName;
        return;
      }
      order := Dropped(order, name);
      byName := byName - {name};
    }
  }

  // ----- what the register says about the updates the server acknowledged ----------------------

  /** The register after a list of acknowledged forward updates. */
  ghost function RegisterOf(acked: seq<Job>, max: nat): Register {
    if acked == [] then EMPTY
    else Remember(RegisterOf(acked[..|acked| - 1], max), max, acked[|acked| - 1])
  }

  /** The last acknowledged update for a name, or -1. */
  function LastFor(acked: seq<Job>, name: Name): (i: int)
    ensures -1 <= i < |acked|
    ensures i >= 0 ==> acked[i].name == name
    ensures forall k :: i < k < |acked| ==> acked[k].name != name
  {
    if acked == [] then -1
    else if acked[|acked| - 1].name == name then |acked| - 1
    else LastFor(acked[..|acked| - 1], name)
  }

  ghost predicate Agrees(r: Register, acked: seq<Job>) {
    && Valid(r)
    && (forall n :: n in r.byName ==>
      var i := LastFor(acked, n);
      i >= 0 && !acked[i].remove && r.byName[n] == Holding(acked[i].dhcid, acked[i].addrs))
    && InOrder(r.order, acked)
  }

  ghost predicate InOrder(order: seq<Name>, acked: seq<Job>) {
    forall p, q :: 0 <= p < q < |order| ==> LastFor(acked, order[p]) < LastFor(acked, order[q])
  }

  lemma DroppedStep(order: seq<Name>, name: Name)
    ensures order == [] ==> Dropped(order, name) == []
    ensures order != [] ==>
      var init, m := order[..|order| - 1], order[|order| - 1];
      Dropped(order, name) == if m == name then Dropped(init, name) else Dropped(init, name) + [m]
  {
  }

  lemma InOrderInit(order: seq<Name>, acked: seq<Job>)
    requires InOrder(order, acked) && order != []
    ensures var n := |order| - 1;
      InOrder(order[..n], acked) && forall m :: m in order[..n] ==> LastFor(acked, m) < LastFor(acked, order[n])
  {
    hide LastFor;
  }

  lemma InOrderSnoc(order: seq<Name>, m: Name, acked: seq<Job>)
    requires InOrder(order, acked) && forall x :: x in order ==> LastFor(acked, x) < LastFor(acked, m)
    ensures InOrder(order + [m], acked)
  {
    hide LastFor;
  }

  lemma {:induction false} DroppedKeepsOrder(order: seq<Name>, name: Name, acked: seq<Job>)
    requires InOrder(order, acked)
    ensures InOrder(Dropped(order, name), acked)
  {
    hide LastFor, Dropped, InOrder;
    DroppedStep(order, name);
    if order != [] {
      var n := |order| - 1;
      InOrderInit(order, acked);
      DroppedKeepsOrder(order[..n], name, acked);
      InOrderSnoc(Dropped(order[..n], name), order[n], acked);
    }
  }

  /** A name not listed may be written about, and may then join at the back. */
  lemma InOrderGrows(order: seq<Name>, acked: seq<Job>, j: Job)
    requires InOrder(order, acked) && j.name !in order
    ensures InOrder(order, acked + [j]) && InOrder(order + [j.name], acked + [j])
  {
    LastForGrows(acked, j);
    hide LastFor;
  }

  /** Taking the oldest name out keeps the agreement. */
  lemma EvictOneAgrees(r: Register, acked: seq<Job>)
    requires Agrees(r, acked) && r.order != []
    ensures Agrees(Register(r.byName - {r.order[0]}, r.order[1..]), acked)
  {
    hide LastFor, Valid;
    EvictOneValid(r);
    var rest := r.order[1..];
    assert forall p :: 0 <= p < |rest| ==> rest[p] == r.order[p + 1];
  }

  lemma EvictOneValid(r: Register)
    requires Valid(r) && r.order != []
    ensures Valid(Register(r.byName - {r.order[0]}, r.order[1..]))
  {
    var e := Register(r.byName - {r.order[0]}, r.order[1..]);
    assert r.order == [r.order[0]] + e.order;
  }

  lemma {:induction false} EvictAgrees(r: Register, max: nat, acked: seq<Job>)
    requires Agrees(r, acked)
    ensures Agrees(Evict(r, max), acked)
    decreases |r.order|
  {
    hide Agrees;
    if |r.order| > max {
      EvictOneAgrees(r, acked);
      EvictAgrees(Register(r.byName - {r.order[0]}, r.order[1..]), max, acked);
    }
  }

  /** Before its eviction, a claim's entry is the newest and agrees with the log. */
  lemma NotedAgrees(r: Register, acked: seq<Job>, j: Job)
    requires Agrees(r, acked) && !j.remove
    ensures Agrees(Register(r.byName[j.name := Holding(j.dhcid, j.addrs)], Dropped(r.order, j.name) + [j.name]), acked + [j])
  {
    hide LastFor, Dropped, InOrder;
    DroppedDistinct(r.order, j.name);
    DroppedKeepsOrder(r.order, j.name, acked);
    LastForGrows(acked, j);
    InOrderGrows(Dropped(r.order, j.name), acked, j);
  }

  lemma ForgottenAgrees(r: Register, acked: seq<Job>, j: Job)
    requires Agrees(r, acked) && j.remove
    ensures Agrees(Forget(r, j.name), acked + [j])
  {
    hide LastFor, Dropped, InOrder;
    DroppedDistinct(r.order, j.name);
    DroppedKeepsOrder(r.order, j.name, acked);
    LastForGrows(acked, j);
    InOrderGrows(Dropped(r.order, j.name), acked, j);
  }

  lemma LastForGrows(acked: seq<Job>, j: Job)
    ensures forall n :: LastFor(acked + [j], n) == if n == j.name then |acked| else LastFor(acked, n)
  {
    assert (acked + [j])[..|acked|] == acked;
  }

  /**
   After every list of acknowledged updates: map and list hold the same names, no more
   than the bound; every entry is the client and addresses of the last acknowledged
   update of its name, which was a claim; and the list is in order of last writing.
   */
  lemma {:induction false} RegisterAgrees(acked: seq<Job>, max: nat)
    ensures Agrees(RegisterOf(acked, max), acked) && |RegisterOf(acked, max).order| <= max
  {
    hide Agrees;
    if acked != [] {
      var n := |acked| - 1;
      var init, j := acked[..n], acked[n];
      RegisterAgrees(init, max);
      assert acked == init + [j];
      var r := RegisterOf(init, max);
      if j.remove {
        ForgottenAgrees(r, init, j);
      } else {
        NotedAgrees(r, init, j);
        EvictAgrees(Register(r.byName[j.name := Holding(j.dhcid, j.addrs)], Dropped(r.order, j.name) + [j.name]), max, acked);
      }
    } else {
      NothingAgrees();
    }
  }

  lemma NothingAgrees()
    ensures Agrees(EMPTY, [])
  {
  }

  // ----- eviction takes only what was outrun ----------------------------------------------------

  /** The names claimed after position i. */
  ghost function ClaimedAfter(acked: seq<Job>, i: int): set<Name> {
    set k | 0 <= k < |acked| && i < k && !acked[k].remove :: acked[k].name
  }

  lemma {:induction false} DistinctIn(names: seq<Name>, all: set<Name>)
    requires Distinct(names) && forall n :: n in names ==> n in all
    ensures |names| <= |all|
  {
    if names != [] {
      var m := names[|names| - 1];
      assert m !in names[..|names| - 1];
      DistinctIn(names[..|names| - 1], all - {m});
    }
  }

  lemma SubsetSize(a: set<Name>, b: set<Name>)
    requires a <= b
    ensures |a| <= |b|
  {
    assert b == a + (b - a);
  }

  /** Everything behind the front of an agreeing register was claimed after the front's last claim. */
  lemma BehindIsLater(r: Register, acked: seq<Job>)
    requires Agrees(r, acked) && r.order != []
    ensures |r.order| - 1 <= |ClaimedAfter(acked, LastFor(acked, r.order[0]))|
  {
    hide LastFor;
    var behind, i := r.order[1..], LastFor(acked, r.order[0]);
    forall n | n in behind ensures n in ClaimedAfter(acked, i) {
      var q :| 0 <= q < |behind| && behind[q] == n;
      assert r.order[q + 1] == n && n in r.byName;
      assert i < LastFor(acked, n);
    }
    DistinctIn(behind, ClaimedAfter(acked, i));
  }

  /**
   A name whose last acknowledged update was a claim is still registered unless at
   least `max` other names were claimed since: evictions take the least recently written.
   */
  lemma {:induction false} KeptUntilOutrun(acked: seq<Job>, max: nat, name: Name)
    requires var i := LastFor(acked, name);
      i >= 0 && !acked[i].remove && |ClaimedAfter(acked, i)| < max
    ensures name in RegisterOf(acked, max).byName
  {
    var n := |acked| - 1;
    var init, j := acked[..n], acked[n];
    var i := LastFor(acked, name);
    RegisterAgrees(init, max);
    assert acked == init + [j];
    LastForGrows(init, j);
    var r := RegisterOf(init, max);
    if j.name != name {
      assert ClaimedAfter(init, i) <= ClaimedAfter(acked, i) by {
        forall m | m in ClaimedAfter(init, i) ensures m in ClaimedAfter(acked, i) {
          var k :| 0 <= k < |init| && i < k && !init[k].remove && init[k].name == m;
          assert acked[k] == init[k];
        }
      }
      SubsetSize(ClaimedAfter(init, i), ClaimedAfter(acked, i));
      KeptUntilOutrun(init, max, name);
    }
    if !j.remove {
      NotedAgrees(r, init, j);
      EvictSparesTheRecent(
        Register(r.byName[j.name := Holding(j.dhcid, j.addrs)], Dropped(r.order, j.name) + [j.name]), max, acked, name);
    }
  }

  lemma {:induction false} EvictSparesTheRecent(r: Register, max: nat, acked: seq<Job>, name: Name)
    requires Agrees(r, acked) && name in r.byName && |ClaimedAfter(acked, LastFor(acked, name))| < max
    ensures name in Evict(r, max).byName
    decreases |r.order|
  {
    if |r.order| > max {
      BehindIsLater(r, acked);
      EvictOneAgrees(r, acked);
      EvictSparesTheRecent(Register(r.byName - {r.order[0]}, r.order[1..]), max, acked, name);
    }
  }
}
