/**
 The address pools of `plugins/range` (V4) and `plugins/range6` (V6).

 Both plugins keep a lease table, an allocator bitmap and a quarantine of declined
 addresses under one lock, and queue every change to a single FIFO writer. This
 module holds the state and one function per locked operation; the two plugins
 share it, and `Family` selects the branch in the places where they differ.

 What the operations cannot decide themselves arrives as an argument: the clock,
 the order in which Go walks a map, and whether the non-blocking send to the
 writer found room.
 */
module LeaseModel {
  import opened Wrappers

  // A MAC address in V4; IAID followed by DUID in V6.
  type Key = string
  type Addr = nat

  // Nanoseconds since the Unix epoch.
  type Time = int

  const SECOND: Time := 1_000_000_000

  /** time.Time.Unix: whole seconds, rounded down. */
  function Unix(t: Time): int {
    t / SECOND
  }

  /** time.Time.Round(time.Second).Unix: halves go up. */
  function Rounded(t: Time): int {
    (t + SECOND / 2) / SECOND
  }

  datatype Family = V4 | V6

  datatype RawConfig = Config(
    family: Family,
    lo: Addr,
    hi: Addr,
    leaseTime: Time,
    probation: Time,
    declineMax: nat,
    maxLeases: nat)

  type Config = c: RawConfig | c.lo <= c.hi witness Config(V4, 0, 0, 0, 0, 0, 0)

  datatype Row = Row(expires: int, hostname: string)

  // `id` stands for the record's address in memory: two records with the same
  // contents are told apart by it, as the source's pointer comparison does.
  datatype Record = Record(id: nat, ip: Addr, row: Row)

  predicate Expired(r: Record, t: Time) {
    r.row.expires <= Unix(t)
  }

  datatype Write =
    | Store(key: Key, ip: Addr, row: Row)
    | Remove(key: Key, ip: Addr)

  // The undo closure of a queued write. A removal has none.
  datatype Undo =
    | Nothing
    | DropUnwritten(key: Key, id: nat)
    | Shorten(key: Key, id: nat, extended: int, was: Row)

  // A queued change as the writer sees it and as its maker sees it. The ticket
  // stands for the `done` channel they share.
  datatype Entry = Entry(ticket: nat, write: Write)
  datatype Pending = Pending(ticket: nat, undo: Undo)

  datatype Pool = Pool(
    table: map<Key, Record>,
    declined: map<Addr, Time>,
    taken: set<Addr>,        // the bits set in the allocator
    pending: seq<Pending>,   // queued since the lock was taken
    queue: seq<Entry>,       // not yet picked up by the writer
    tickets: nat,            // done channels made so far
    ids: nat,                // records made so far
    room: seq<bool>)         // what the next sends to the writer will find

  // ----- the allocator ---------------------------------------------------------

  predicate InPool(c: Config, a: Addr) {
    c.lo <= a <= c.hi
  }

  /** The lowest clear bit at or above `from`. */
  function NextClear(from: Addr, hi: Addr, taken: set<Addr>): (r: Option<Addr>)
    ensures r.Some? ==> from <= r.value <= hi && r.value !in taken
    ensures r.Some? ==> forall a: Addr :: from <= a < r.value ==> a in taken
    ensures r.None? ==> forall a: Addr :: from <= a <= hi ==> a in taken
    decreases hi + 1 - from
  {
    if from > hi then None
    else if from !in taken then Some(from)
    else NextClear(from + 1, hi, taken)
  }

  /** Allocate honours a free hint and otherwise takes the first free address. */
  function AllocatorAllocate(c: Config, taken: set<Addr>, hint: Option<Addr>): (r: Option<Addr>)
    ensures r.Some? ==> InPool(c, r.value) && r.value !in taken
    ensures r.None? <==> forall a: Addr :: InPool(c, a) ==> a in taken
    ensures hint.Some? && InPool(c, hint.value) && hint.value !in taken ==> r == hint
  {
    var first := if hint.Some? && InPool(c, hint.value) then hint.value else c.lo;
    if first !in taken then Some(first) else NextClear(c.lo, c.hi, taken)
  }

  // ----- the write queue ---------------------------------------------------------

  predicate HasRoom(p: Pool) {
    p.room == [] || p.room[0]
  }

  /** A send that found the queue full leaves nothing behind. */
  function Refused(p: Pool): Pool {
    p.(room := if p.room == [] then [] else p.room[1..])
  }

  function Queued(p: Pool, w: Write, undo: Undo): Pool {
    Refused(p).(
      queue := p.queue + [Entry(p.tickets, w)],
      pending := p.pending + [Pending(p.tickets, undo)],
      tickets := p.tickets + 1)
  }

  function Enqueue(p: Pool, w: Write, undo: Undo): (Pool, bool) {
    if HasRoom(p) then (Queued(p, w, undo), true) else (Refused(p), false)
  }

  // ----- giving addresses back -----------------------------------------------------

  /** releaseLease: row first, then record, then allocator bit. */
  function ReleaseLease(p: Pool, k: Key): (Pool, bool)
    requires k in p.table
  {
    var ip := p.table[k].ip;
    var (q, ok) := Enqueue(p, Remove(k, ip), Nothing);
    if !ok then (q, false)
    else (q.(table := q.table - {k}, taken := q.taken - {ip}), ip in p.taken)
  }

  /** sweepExpired over the table, walked in the given order. */
  function SweepExpired(p: Pool, order: seq<Key>, t: Time): (Pool, nat) {
    if order == [] then (p, 0) else
    var k := order[|order| - 1];
    var (q, n) := SweepExpired(p, order[..|order| - 1], t);
    if k in q.table && Expired(q.table[k], t) then
      var (r, ok) := ReleaseLease(q, k);
      (r, if ok then n + 1 else n)
    else (q, n)
  }

  /** Ending one probation. A failed Free keeps the V4 entry and drops the V6 one. */
  function FreeDeclined(c: Config, p: Pool, a: Addr): (Pool, bool) {
    if a in p.taken then (p.(taken := p.taken - {a}, declined := p.declined - {a}), true)
    else if c.family.V4? then (p, false)
    else (p.(declined := p.declined - {a}), true)
  }

  function SweepDeclined(c: Config, p: Pool, order: seq<Addr>, t: Time): (Pool, nat) {
    if order == [] then (p, 0) else
    var a := order[|order| - 1];
    var (q, n) := SweepDeclined(c, p, order[..|order| - 1], t);
    if a in q.declined && q.declined[a] <= t then
      var (r, ok) := FreeDeclined(c, q, a);
      (r, if ok then n + 1 else n)
    else (q, n)
  }

  function Reclaim(c: Config, p: Pool, keys: seq<Key>, addrs: seq<Addr>, t: Time): (Pool, nat) {
    var (q, n) := SweepExpired(p, keys, t);
    var (r, m) := SweepDeclined(c, q, addrs, t);
    (r, n + m)
  }

  /** The scan of evictOldestDeclined: the first of the smallest end times met. */
  function Oldest(declined: map<Addr, Time>, order: seq<Addr>): (r: Option<Addr>)
    ensures r.Some? ==> r.value in declined && r.value in order
    ensures r.Some? ==> forall a :: a in order && a in declined ==> declined[r.value] <= declined[a]
    ensures r.None? ==> forall a :: a in order ==> a !in declined
  {
    if order == [] then None else
    var a := order[|order| - 1];
    var best := Oldest(declined, order[..|order| - 1]);
    if a in declined && (best.None? || declined[a] < declined[best.value]) then Some(a) else best
  }

  function EvictOldest(c: Config, p: Pool, order: seq<Addr>): (Pool, bool) {
    match Oldest(p.declined, order)
    case None => (p, false)
    case Some(a) => FreeDeclined(c, p, a)
  }

  // ----- leasing ---------------------------------------------------------------------

  /**
   What one IA meets on its way: the second clock reading, and the order in which
   each map walk it may run visits its entries.
   */
  datatype Env = Env(
    later: Time,
    limitKeys: seq<Key>, limitAddrs: seq<Addr>,
    poolKeys: seq<Key>, poolAddrs: seq<Addr>,
    evictAddrs: seq<Addr>)

  function AtLeaseLimit(c: Config, p: Pool, now: Time, env: Env): (Pool, bool) {
    if c.maxLeases == 0 || |p.table| < c.maxLeases then (p, false) else
    var q := Reclaim(c, p, env.limitKeys, env.limitAddrs, now).0;
    (q, |q.table| >= c.maxLeases)
  }

  /** The address is not yet marked taken in the pool that comes back. */
  function Allocate(c: Config, p: Pool, hint: Option<Addr>, env: Env): (Pool, Option<Addr>) {
    var first := AllocatorAllocate(c, p.taken, hint);
    if first.Some? then (p, first) else
    var (q, freed) := Reclaim(c, p, env.poolKeys, env.poolAddrs, env.later);
    var second := AllocatorAllocate(c, q.taken, hint);
    if freed > 0 && (c.family.V6? || second.Some?) then (q, second) else
    var (r, evicted) := EvictOldest(c, q, env.evictAddrs);
    if !evicted then (r, None) else (r, AllocatorAllocate(c, r.taken, hint))
  }

  /** V4 cuts a fresh expiry down to the second, V6 rounds it. */
  function FreshExpiry(c: Config, now: Time): int {
    if c.family.V4? then Unix(now + c.leaseTime) else Rounded(now + c.leaseTime)
  }

  function Leased(p: Pool, k: Key, ip: Addr, row: Row): Pool {
    var q := Queued(p, Store(k, ip, row), DropUnwritten(k, p.ids));
    q.(table := q.table[k := Record(p.ids, ip, row)], taken := q.taken + {ip}, ids := p.ids + 1)
  }

  function AllocateLease(c: Config, p: Pool, k: Key, hint: Option<Addr>, hostname: string, now: Time, env: Env)
    : (Pool, bool)
  {
    var (q, full) := AtLeaseLimit(c, p, now, env);
    if full then (q, false) else
    var (r, ip) := Allocate(c, q, hint, env);
    if ip.None? then (r, false)
    else if !HasRoom(r) then (Refused(r), false)
    else (Leased(r, k, ip.value, Row(FreshExpiry(c, now), hostname)), true)
  }

  function Renewed(p: Pool, k: Key, row: Row): Pool
    requires k in p.table
  {
    var r := p.table[k];
    Queued(p, Store(k, r.ip, row), Shorten(k, r.id, row.expires, r.row)).(table := p.table[k := r.(row := row)])
  }

  /** renew: a write the queue refuses puts the old expiry straight back. */
  function Renew(c: Config, p: Pool, k: Key, hostname: string, now: Time): (Pool, bool)
    requires k in p.table
  {
    if p.table[k].row.expires * SECOND >= now + c.leaseTime then (p, true)
    else if !HasRoom(p) then (Refused(p), false)
    else (Renewed(p, k, Row(Rounded(now + c.leaseTime), hostname)), true)
  }

  function ReallocateExpired(c: Config, p: Pool, k: Key, hostname: string, now: Time, env: Env): (Pool, bool)
    requires k in p.table
  {
    var record := p.table[k];
    var (q, ok) := ReleaseLease(p, k);
    if ok then AllocateLease(c, q, k, Some(record.ip), hostname, now, env)
    else Renew(c, q.(table := q.table[k := record]), k, hostname, now)
  }

  /** The lapsed-or-not switch shared by leaseFor and renewKnown. */
  function RenewKnown(c: Config, p: Pool, k: Key, hostname: string, now: Time, env: Env): (Pool, bool)
    requires k in p.table
  {
    if Expired(p.table[k], now) then ReallocateExpired(c, p, k, hostname, now, env)
    else Renew(c, p, k, hostname, now)
  }

  /** The held-back branch of quarantine: the row and the record go, the bit stays set. */
  function HoldBack(c: Config, p: Pool, k: Key, until: Time, order: seq<Addr>): Pool
    requires k in p.table
  {
    var ip := p.table[k].ip;
    var q := Queued(p, Remove(k, ip), Nothing).(table := p.table - {k});
    var r := if |q.declined| >= c.declineMax then EvictOldest(c, q, order).0 else q;
    r.(declined := r.declined[ip := until])
  }

  /** No quarantine applies: it is switched off, or (V4) it is full. */
  predicate Straight(c: Config, p: Pool) {
    c.probation == 0 || c.declineMax == 0 || (c.family.V4? && |p.declined| >= c.declineMax)
  }

  /** V4 reads the clock again once the record has gone. */
  function ProbationEnd(c: Config, now: Time, env: Env): Time {
    (if c.family.V4? then env.later else now) + c.probation
  }

  /** quarantine; the flag says whether the change was queued. */
  function Quarantine(c: Config, p: Pool, k: Key, now: Time, env: Env): (Pool, bool)
    requires k in p.table
  {
    if Straight(c, p) then ReleaseLease(p, k)
    else if !HasRoom(p) then (Refused(p), false)
    else (HoldBack(c, p, k, ProbationEnd(c, now, env), env.evictAddrs), true)
  }

  // ----- one message -------------------------------------------------------------------

  datatype Kind = Bind | Extend | Release | Decline

  // `addrs` are the addresses an IA names: the hint of a bind, or what a release
  // or decline gives up.
  datatype IA = IA(key: Key, addrs: seq<Addr>)

  // `until` is the second in which the lease time runs out from the moment the request
  // was taken up. The reply itself carries a duration: V4 sends the lease time rounded to
  // the second, so with a fractional lease time a client counts up to half a second longer.
  datatype Answer =
    | Bound(id: nat, ip: Addr, until: int)
    | NoAddress
    | NoBinding
    | Done
    | NotDone

  datatype Answered = Answered(key: Key, answer: Answer, from: nat, to: nat)

  function BoundTo(c: Config, r: (Pool, bool), k: Key, now: Time): (Pool, Answer) {
    if r.1 && k in r.0.table
    then (r.0, Bound(r.0.table[k].id, r.0.table[k].ip, Unix(now + c.leaseTime)))
    else (r.0, NoAddress)
  }

  function AnswerIA(c: Config, p: Pool, kind: Kind, ia: IA, hostname: string, now: Time, env: Env): (Pool, Answer) {
    var held := ia.key in p.table;
    var named := held && p.table[ia.key].ip in ia.addrs;
    match kind
    case Bind =>
      if held then BoundTo(c, RenewKnown(c, p, ia.key, hostname, now, env), ia.key, now) else
      var hint := if c.family.V4? || ia.addrs == [] then None else Some(ia.addrs[0]);
      BoundTo(c, AllocateLease(c, p, ia.key, hint, hostname, now, env), ia.key, now)
    case Extend =>
      if held then BoundTo(c, RenewKnown(c, p, ia.key, hostname, now, env), ia.key, now) else (p, NoBinding)
    case Release =>
      if !named then (p, NoBinding) else
      var (q, ok) := ReleaseLease(p, ia.key);
      (q, if ok then Done else NotDone)
    case Decline =>
      if !named then (p, NoBinding) else
      var (q, ok) := Quarantine(c, p, ia.key, now, env);
      (q, if ok then Done else NotDone)
  }

  /** eachIANA under the lock. V4 messages carry exactly one IA. */
  function AnswerAll(c: Config, p: Pool, kind: Kind, ias: seq<IA>, hostname: string, now: Time, envs: seq<Env>)
    : (r: (Pool, seq<Answered>))
    requires |envs| == |ias|
    ensures |r.1| == |ias|
  {
    if ias == [] then (p, []) else
    var n := |ias| - 1;
    var (q, answers) := AnswerAll(c, p, kind, ias[..n], hostname, now, envs[..n]);
    var (r, answer) := AnswerIA(c, q, kind, ias[n], hostname, now, envs[n]);
    (r, answers + [Answered(ias[n].key, answer, |q.pending|, |r.pending|)])
  }

  // ----- undo ------------------------------------------------------------------------

  function RunUndo(p: Pool, u: Undo): Pool {
    match u
    case Nothing => p
    case DropUnwritten(k, id) =>
      if k in p.table && p.table[k].id == id
      then p.(table := p.table - {k}, taken := p.taken - {p.table[k].ip})
      else p
    case Shorten(k, id, extended, was) =>
      if k in p.table && p.table[k].id == id && p.table[k].row.expires == extended
      then p.(table := p.table[k := p.table[k].(row := was)])
      else p
  }

  /** settleAll's second half: failed changes are put back, last one first. */
  function RunUndos(p: Pool, undos: seq<Undo>): Pool
    decreases |undos|
  {
    if undos == [] then p
    else RunUndos(RunUndo(p, undos[|undos| - 1]), undos[..|undos| - 1])
  }
}
