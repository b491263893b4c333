/**
 Prefix delegation, `plugins/prefix`, on values: the pool of blocks, each client's
 leases, the three-pass matching of hints to leases, releases and sweeps.
 */
module PrefixModel {
  import opened Wrappers
  import LeaseModel
  import opened Arith

  type Time = int
  type Key = string

  datatype Prefix = Prefix(ip: nat, len: nat)
  datatype Lease = Lease(prefix: Prefix, expire: Time)

  // What an IAPrefix option asks for. Empty is the option with no prefix in it, and
  // also the hint of an IA_PD that carried none.
  datatype Hint = Empty | Named(prefix: Prefix)

  /** The pool: `count` blocks of `unit` addresses each, a block being a /page. */
  datatype Config = Config(base: nat, unit: nat, count: nat, page: nat, duration: Time, maxPrefixes: nat)

  const MAX_HINTS: nat := 8

  predicate Sound(c: Config) {
    c.unit > 0
  }

  // ----- the allocator -----------------------------------------------------------------

  function Ip(c: Config, block: nat): nat {
    c.base + block * c.unit
  }

  predicate Contains(c: Config, ip: nat) {
    c.base <= ip < c.base + c.count * c.unit
  }

  /** Which block an address falls in. */
  function Block(c: Config, ip: nat): nat
    requires Sound(c)
  {
    if ip < c.base then 0 else (ip - c.base) / c.unit
  }

  lemma BlockOfIp(c: Config, block: nat)
    requires Sound(c)
    ensures Block(c, Ip(c, block)) == block
  {
    QuotientIs(block * c.unit, c.unit, block);
  }

  lemma BlockInPool(c: Config, ip: nat)
    requires Sound(c) && Contains(c, ip)
    ensures Block(c, ip) < c.count
  {
    var d := ip - c.base;
    Quotient(d, c.unit);
    Between(c.unit, d / c.unit, c.count);
  }

  /** The size handed out: what was asked for, unless that is wider than a block. */
  function Length(c: Config, hint: Hint): nat {
    if hint.Named? && hint.prefix.len >= c.page then hint.prefix.len else c.page
  }

  function Pick(c: Config, taken: set<nat>, hint: Hint): (r: Option<nat>)
    requires Sound(c)
    ensures r.Some? ==> r.value < c.count && r.value !in taken
    ensures r.None? ==> forall b: nat :: b < c.count ==> b in taken
    ensures hint.Named? && Contains(c, hint.prefix.ip) && Block(c, hint.prefix.ip) !in taken
      ==> r == Some(Block(c, hint.prefix.ip))
  {
    if hint.Named? && Contains(c, hint.prefix.ip) && Block(c, hint.prefix.ip) !in taken then
      BlockInPool(c, hint.prefix.ip);
      Some(Block(c, hint.prefix.ip))
    else if c.count == 0 then None
    else LeaseModel.NextClear(0, c.count - 1, taken)
  }

  // ----- filtering a client's leases -----------------------------------------------------

  /** Why a lease is taken out of a client's record. */
  datatype Cause = ExpiredAt(t: Time) | ListedIn(released: seq<Hint>)

  predicate Listed(released: seq<Hint>, l: Lease) {
    exists i :: 0 <= i < |released| && released[i] == Named(l.prefix)
  }

  predicate Hit(cause: Cause, l: Lease) {
    match cause
    case ExpiredAt(t) => l.expire <= t
    case ListedIn(released) => Listed(released, l)
  }

  function Keep(s: seq<Lease>, cause: Cause): seq<Lease> {
    if s == [] then [] else
    var init, l := s[..|s| - 1], s[|s| - 1];
    if Hit(cause, l) then Keep(init, cause) else Keep(init, cause) + [l]
  }

  function Cut(s: seq<Lease>, cause: Cause): seq<Lease> {
    if s == [] then [] else
    var init, l := s[..|s| - 1], s[|s| - 1];
    if Hit(cause, l) then Cut(init, cause) + [l] else Cut(init, cause)
  }

  function Blocks(c: Config, s: seq<Lease>): set<nat>
    requires Sound(c)
  {
    set l <- s :: Block(c, l.prefix.ip)
  }

  // ----- the plugin's state -------------------------------------------------------------

  datatype State = State(records: map<Key, seq<Lease>>, taken: set<nat>)

  function Known(s: State, key: Key): seq<Lease> {
    if key in s.records then s.records[key] else []
  }

  /** store: a client left holding nothing is forgotten. */
  function Store(records: map<Key, seq<Lease>>, key: Key, leases: seq<Lease>): map<Key, seq<Lease>> {
    if leases == [] then records - {key} else records[key := leases]
  }

  /** releasePrefixes: frees what the client holds of the list, and counts it. */
  function Release(c: Config, s: State, key: Key, released: seq<Hint>): (State, nat)
    requires Sound(c)
  {
    var cause := ListedIn(released);
    var cut := Cut(Known(s, key), cause);
    (State(Store(s.records, key, Keep(Known(s, key), cause)), s.taken - Blocks(c, cut)), |cut|)
  }

  /** One client's turn of the sweep. */
  function SweepKey(c: Config, s: State, key: Key, t: Time): State
    requires Sound(c)
  {
    var cause := ExpiredAt(t);
    State(Store(s.records, key, Keep(Known(s, key), cause)), s.taken - Blocks(c, Cut(Known(s, key), cause)))
  }

  /** sweepExpired, in whatever order the map gives the keys. */
  function Sweep(c: Config, s: State, order: seq<Key>, t: Time): State
    requires Sound(c)
  {
    if order == [] then s else SweepKey(c, Sweep(c, s, order[..|order| - 1], t), order[|order| - 1], t)
  }

  /** How many prefixes a sweep gives back. */
  function SweepCount(c: Config, s: State, order: seq<Key>, t: Time): nat
    requires Sound(c)
  {
    if order == [] then 0 else
    var n := |order| - 1;
    SweepCount(c, s, order[..n], t) + |Cut(Known(Sweep(c, s, order[..n], t), order[n]), ExpiredAt(t))|
  }

  // ----- one IA_PD exchange --------------------------------------------------------------

  datatype Offer = Offer(prefix: Prefix, lifetime: Time)

  datatype Exchange = Exchange(leases: seq<Lease>, satisfied: set<nat>, givenOut: set<nat>, answer: seq<Offer>)

  function RequestedPrefixes(hints: seq<Hint>): (r: seq<Hint>)
    ensures 1 <= |r| <= MAX_HINTS
  {
    if hints == [] then [Empty] else if |hints| > MAX_HINTS then hints[..MAX_HINTS] else hints
  }

  /** grant: push the expiry out, never in, and hand the lease to the hint. */
  function Grant(c: Config, e: Exchange, hint: nat, lease: nat, now: Time): Exchange
    requires lease < |e.leases|
  {
    var l := e.leases[lease];
    var expire := if l.expire < now + c.duration then now + c.duration else l.expire;
    Exchange(e.leases[lease := l.(expire := expire)], e.satisfied + {hint}, e.givenOut + {lease},
             e.answer + [Offer(l.prefix, expire - now)])
  }

  /** Whether the first pass, or the second, gives a lease to a hint. */
  predicate Exact(e: Exchange, hint: Hint, lease: nat)
    requires lease < |e.leases|
  {
    hint == Named(e.leases[lease].prefix)
  }

  predicate WantsAny(e: Exchange, hints: seq<Hint>, i: nat)
    requires i < |hints|
  {
    i !in e.satisfied && hints[i].Named? && hints[i].prefix.ip == 0
  }

  predicate Remaining(e: Exchange, hint: Hint, lease: nat)
    requires lease < |e.leases| && hint.Named?
  {
    lease !in e.givenOut && (hint.prefix.len == 0 || hint.prefix.len == e.leases[lease].prefix.len)
  }

  /** The first `n` leases, tried for one hint. */
  function ExactLeases(c: Config, e: Exchange, hints: seq<Hint>, i: nat, n: nat, now: Time): (r: Exchange)
    requires i < |hints| && n <= |e.leases|
    ensures |r.leases| == |e.leases|
  {
    if n == 0 then e else
    var r := ExactLeases(c, e, hints, i, n - 1, now);
    if Exact(r, hints[i], n - 1) then Grant(c, r, i, n - 1, now) else r
  }

  /** renewExactMatches over the first `n` hints. */
  function ExactPass(c: Config, e: Exchange, hints: seq<Hint>, n: nat, now: Time): (r: Exchange)
    requires n <= |hints|
    ensures |r.leases| == |e.leases|
  {
    if n == 0 then e else
    var r := ExactPass(c, e, hints, n - 1, now);
    ExactLeases(c, r, hints, n - 1, |r.leases|, now)
  }

  function RemainingLeases(c: Config, e: Exchange, hints: seq<Hint>, i: nat, n: nat, now: Time): (r: Exchange)
    requires i < |hints| && hints[i].Named? && n <= |e.leases|
    ensures |r.leases| == |e.leases|
  {
    if n == 0 then e else
    var r := RemainingLeases(c, e, hints, i, n - 1, now);
    if Remaining(r, hints[i], n - 1) then Grant(c, r, i, n - 1, now) else r
  }

  /** giveOutRemaining over the first `n` hints. */
  function RemainingPass(c: Config, e: Exchange, hints: seq<Hint>, n: nat, now: Time): (r: Exchange)
    requires n <= |hints|
    ensures |r.leases| == |e.leases|
  {
    if n == 0 then e else
    var r := RemainingPass(c, e, hints, n - 1, now);
    if WantsAny(r, hints, n - 1) then RemainingLeases(c, r, hints, n - 1, |r.leases|, now) else r
  }

  datatype Carve = Carve(leases: seq<Lease>, taken: set<nat>, recovered: seq<Prefix>, answer: seq<Offer>)

  predicate Unspecified(hint: Hint) {
    hint.Empty? || (hint.prefix.len == 0 && hint.prefix.ip == 0)
  }

  /** What the allocator is asked for, and what is left to be offered back. */
  function AllocationHint(recovered: seq<Prefix>, hint: Hint): (Hint, seq<Prefix>) {
    if recovered == [] || !Unspecified(hint) then (hint, recovered)
    else (Named(recovered[0]), recovered[1..])
  }

  function CarveOne(c: Config, v: Carve, hint: Hint, now: Time): Carve
    requires Sound(c)
  {
    if |v.leases| >= c.maxPrefixes then v else
    var (ask, recovered) := AllocationHint(v.recovered, hint);
    match Pick(c, v.taken, ask)
    case None => v.(recovered := recovered)
    case Some(b) =>
      var prefix := Prefix(Ip(c, b), Length(c, ask));
      Carve(v.leases + [Lease(prefix, now + c.duration)], v.taken + {b}, recovered,
            v.answer + [Offer(prefix, c.duration)])
  }

  /** allocateForUnsatisfied over the first `n` hints. */
  function CarvePass(c: Config, v: Carve, hints: seq<Hint>, satisfied: set<nat>, n: nat, now: Time): Carve
    requires Sound(c) && n <= |hints|
  {
    if n == 0 then v else
    var r := CarvePass(c, v, hints, satisfied, n - 1, now);
    if n - 1 in satisfied then r else CarveOne(c, r, hints[n - 1], now)
  }

  function Prefixes(s: seq<Lease>): seq<Prefix> {
    seq(|s|, i requires 0 <= i < |s| => s[i].prefix)
  }

  /** The two passes over the leases the client still holds. */
  function Matched(c: Config, live: seq<Lease>, hints: seq<Hint>, now: Time): (e: Exchange)
    ensures |e.leases| == |live|
  {
    var first := ExactPass(c, Exchange(live, {}, {}, []), hints, |hints|, now);
    RemainingPass(c, first, hints, |hints|, now)
  }

  /** reconcile: the client's leases afterwards, and the prefixes in the answer. */
  function Reconcile(c: Config, s: State, key: Key, asked: seq<Hint>, now: Time): (State, seq<Offer>)
    requires Sound(c)
  {
    var hints := RequestedPrefixes(asked);
    var cause := ExpiredAt(now);
    var live, lapsed := Keep(Known(s, key), cause), Cut(Known(s, key), cause);
    var e := Matched(c, live, hints, now);
    var v := CarvePass(c, Carve(e.leases, s.taken - Blocks(c, lapsed), Prefixes(lapsed), e.answer),
                       hints, e.satisfied, |hints|, now);
    (State(Store(s.records, key, v.leases), v.taken), v.answer)
  }
}
