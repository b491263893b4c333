/**
 The rate limiter as values: the least-recently-used table as a sequence of entries,
 most recently seen first, and what one request does to it. `RateTable` shows that
 the linked list of the source computes the same.
 */
module RateLimiter {
  import opened Wrappers
  import opened RateBucket
  import opened RateExact
  import opened Arith

  type Key = string

  datatype Entry = Entry(key: Key, bucket: Bucket)

  function Keys(table: seq<Entry>): seq<Key> {
    seq(|table|, i requires 0 <= i < |table| => table[i].key)
  }

  ghost predicate NoRepeats<T>(s: seq<T>) {
    forall i, j :: 0 <= i < j < |s| ==> s[i] != s[j]
  }

  /** Where a key sits, or the length when it does not. */
  function Position(keys: seq<Key>, key: Key): (i: nat)
    ensures i <= |keys|
    ensures i < |keys| ==> keys[i] == key
    ensures forall j :: 0 <= j < i ==> keys[j] != key
  {
    if keys == [] then 0 else if keys[0] == key then 0 else 1 + Position(keys[1..], key)
  }

  function Without<T>(s: seq<T>, i: nat): seq<T>
    requires i < |s|
  {
    s[..i] + s[i + 1..]
  }

  /** fetch: move a known key to the front, or file a full bucket there, evicting the last. */
  function Fetch(table: seq<Entry>, key: Key, now: int, capacity: int, maxKeys: nat): (r: seq<Entry>)
    requires maxKeys >= 1
    ensures r != [] && r[0].key == key
  {
    var i := Position(Keys(table), key);
    if i < |table| then [table[i]] + Without(table, i)
    else
      var kept := if |table| < maxKeys then table else table[..|table| - 1];
      [Entry(key, Bucket(capacity, now))] + kept
  }

  datatype State = State(table: seq<Entry>, global: Option<Bucket>)
  datatype Config = Config(perKey: Limit, maxKeys: nat, global: Option<Limit>)

  predicate Runs(c: Config) {
    && c.maxKeys >= 1 && Usable(c.perKey) && c.perKey.capacity <= INT64_MAX
    && (c.global.Some? ==> Usable(c.global.value) && c.global.value.capacity <= INT64_MAX)
  }

  function AllowGlobal(c: Config, g: Option<Bucket>, now: int): (Option<Bucket>, bool) {
    if g.None? || c.global.None? then (g, true) else
    var (b, ok) := Allow(g.value, now, c.global.value);
    (Some(b), ok)
  }

  /** consume: the key's own bucket pays first, and only then the shared one. */
  function Consume(c: Config, s: State, key: Key, now: int): (State, bool)
    requires c.maxKeys >= 1
  {
    var fetched := Fetch(s.table, key, now, c.perKey.capacity, c.maxKeys);
    var (b, own) := Allow(fetched[0].bucket, now, c.perKey);
    var table := fetched[0 := Entry(key, b)];
    if !own then (State(table, s.global), false) else
    var (g, shared) := AllowGlobal(c, s.global, now);
    (State(table, g), shared)
  }

  // ----- recency -----------------------------------------------------------------------

  /** The step both the table's keys and the ideal recency order make. */
  function ToFront(keys: seq<Key>, key: Key): seq<Key> {
    var i := Position(keys, key);
    [key] + (if i < |keys| then Without(keys, i) else keys)
  }

  /** The distinct keys of a history, most recently fetched first. */
  function Recency(history: seq<Key>): seq<Key> {
    if history == [] then [] else
    ToFront(Recency(history[..|history| - 1]), history[|history| - 1])
  }

  lemma WithoutKeeps<T>(s: seq<T>, i: nat)
    requires i < |s| && NoRepeats(s)
    ensures NoRepeats(Without(s, i)) && s[i] !in Without(s, i)
    ensures forall x :: x in s <==> x in Without(s, i) || x == s[i]
  {
    var w := Without(s, i);
    assert forall j :: 0 <= j < |w| ==> w[j] == if j < i then s[j] else s[j + 1];
    forall x | x in s && x != s[i] ensures x in w {
      var j :| 0 <= j < |s| && s[j] == x;
      assert w[if j < i then j else j - 1] == x;
    }
  }

  lemma ToFrontKeeps(keys: seq<Key>, key: Key)
    requires NoRepeats(keys)
    ensures NoRepeats(ToFront(keys, key))
    ensures forall k :: k in ToFront(keys, key) <==> k in keys || k == key
  {
    var i := Position(keys, key);
    if i < |keys| {
      WithoutKeeps(keys, i);
    }
  }

  lemma {:induction false} RecencyHolds(history: seq<Key>)
    ensures NoRepeats(Recency(history))
    ensures forall k :: k in Recency(history) <==> k in history
  {
    if history != [] {
      var init := history[..|history| - 1];
      RecencyHolds(init);
      ToFrontKeeps(Recency(init), history[|history| - 1]);
      assert forall x :: x in history <==> x in init || x == history[|history| - 1];
    }
  }

  function Prefix<T>(s: seq<T>, n: nat): seq<T> {
    if n < |s| then s[..n] else s
  }

  /** The keys of a fetch, without their buckets. */
  function FetchKeys(keys: seq<Key>, key: Key, maxKeys: nat): seq<Key>
    requires maxKeys >= 1
  {
    var i := Position(keys, key);
    if i < |keys| then [key] + Without(keys, i)
    else [key] + (if |keys| < maxKeys then keys else keys[..|keys| - 1])
  }

  lemma KeysMove(table: seq<Entry>, i: nat)
    requires i < |table|
    ensures Keys([table[i]] + Without(table, i)) == [Keys(table)[i]] + Without(Keys(table), i)
  {
    var was, after := Keys(table), Keys([table[i]] + Without(table, i));
    var moved := [was[i]] + Without(was, i);
    forall j | 0 <= j < |table| ensures after[j] == moved[j] {
      var k := if j == 0 then i else if j <= i then j - 1 else j;
      assert ([table[i]] + Without(table, i))[j] == table[k] && moved[j] == was[k];
    }
  }

  lemma KeysOfFetch(table: seq<Entry>, key: Key, now: int, capacity: int, maxKeys: nat)
    requires maxKeys >= 1
    ensures Keys(Fetch(table, key, now, capacity, maxKeys)) == FetchKeys(Keys(table), key, maxKeys)
  {
    hide Position, Without;
    var i := Position(Keys(table), key);
    if i < |table| {
      KeysMove(table, i);
    } else {
      var kept := if |table| < maxKeys then table else table[..|table| - 1];
      assert Keys([Entry(key, Bucket(capacity, now))] + kept) == [key] + Keys(kept);
    }
  }

  lemma PrefixOfFront(key: Key, t: seq<Key>, maxKeys: nat)
    requires maxKeys >= 1
    ensures Prefix([key] + t, maxKeys) == [key] + Prefix(t, maxKeys - 1)
  {
    if maxKeys < |t| + 1 {
      assert ([key] + t)[..maxKeys] == [key] + t[..maxKeys - 1];
    }
  }

  lemma PrefixWithout(r: seq<Key>, p: nat, n: nat)
    requires p < |r| && p < n
    ensures Prefix(Without(r, p), n - 1) == Without(Prefix(r, n), p)
  {
    if n < |r| {
      assert Without(r, p)[..n - 1] == r[..p] + r[p + 1..n];
      assert r[..n][p + 1..] == r[p + 1..n];
    }
  }

  lemma PrefixPast(r: seq<Key>, p: nat, n: nat)
    requires n <= p < |r|
    ensures Prefix(Without(r, p), n) == Prefix(r, n)
  {
  }

  /** Bounding first and then moving to the front is the same as the other way round. */
  lemma BoundCommutes(r: seq<Key>, key: Key, maxKeys: nat)
    requires maxKeys >= 1
    ensures FetchKeys(Prefix(r, maxKeys), key, maxKeys) == Prefix(ToFront(r, key), maxKeys)
  {
    hide Position, Without;
    var bounded := Prefix(r, maxKeys);
    var p, i := Position(r, key), Position(bounded, key);
    if p < |bounded| {
      assert bounded[p] == key;
      assert i == p;
      PrefixOfFront(key, Without(r, p), maxKeys);
      PrefixWithout(r, p, maxKeys);
    } else {
      assert forall j :: 0 <= j < |bounded| ==> bounded[j] == r[j];
      assert i == |bounded|;
      PrefixOfFront(key, if p < |r| then Without(r, p) else r, maxKeys);
      if p < |r| {
        PrefixPast(r, p, maxKeys - 1);
      }
    }
  }

  // ----- runs ---------------------------------------------------------------------------

  datatype Request = Request(key: Key, now: int)

  function Handle(c: Config, s: State, requests: seq<Request>): (r: (State, seq<bool>))
    requires c.maxKeys >= 1
    ensures |r.1| == |requests|
  {
    if requests == [] then (s, []) else
    var n := |requests| - 1;
    var (mid, passed) := Handle(c, s, requests[..n]);
    var (end, ok) := Consume(c, mid, requests[n].key, requests[n].now);
    (end, passed + [ok])
  }

  function KeysAsked(requests: seq<Request>): seq<Key> {
    seq(|requests|, i requires 0 <= i < |requests| => requests[i].key)
  }

  function Start(c: Config, now: int): State {
    State([], if c.global.Some? then Some(Bucket(c.global.value.capacity, now)) else None)
  }

  /** The keys tracked are exactly the most recently seen distinct keys, in recency order. */
  lemma {:induction false} TrackedKeysAreTheMostRecent(c: Config, start: int, requests: seq<Request>)
    requires c.maxKeys >= 1
    ensures Keys(Handle(c, Start(c, start), requests).0.table) == Prefix(Recency(KeysAsked(requests)), c.maxKeys)
  {
    if requests != [] {
      var n := |requests| - 1;
      TrackedKeysAreTheMostRecent(c, start, requests[..n]);
      var mid := Handle(c, Start(c, start), requests[..n]).0;
      var key, now := requests[n].key, requests[n].now;
      KeysOfFetch(mid.table, key, now, c.perKey.capacity, c.maxKeys);
      BoundCommutes(Recency(KeysAsked(requests[..n])), key, c.maxKeys);
      assert KeysAsked(requests)[..n] == KeysAsked(requests[..n]);
      var fetched := Fetch(mid.table, key, now, c.perKey.capacity, c.maxKeys);
      assert fetched[0].key == key;
      assert Keys(fetched[0 := Entry(key, Allow(fetched[0].bucket, now, c.perKey).0)]) == Keys(fetched);
    }
  }

  // ----- the unbounded limiter -----------------------------------------------------------

  datatype Ideal = Ideal(buckets: map<Key, Bucket>, global: Option<Bucket>)

  /** The limiter with no table bound: every key keeps its bucket for ever. */
  function IdealConsume(c: Config, s: Ideal, key: Key, now: int): (Ideal, bool) {
    var found := if key in s.buckets then s.buckets[key] else Bucket(c.perKey.capacity, now);
    var (b, own) := Allow(found, now, c.perKey);
    var buckets := s.buckets[key := b];
    if !own then (Ideal(buckets, s.global), false) else
    var (g, shared) := AllowGlobal(c, s.global, now);
    (Ideal(buckets, g), shared)
  }

  function IdealHandle(c: Config, s: Ideal, requests: seq<Request>): (Ideal, seq<bool>) {
    if requests == [] then (s, []) else
    var n := |requests| - 1;
    var (mid, passed) := IdealHandle(c, s, requests[..n]);
    var (end, ok) := IdealConsume(c, mid, requests[n].key, requests[n].now);
    (end, passed + [ok])
  }

  ghost predicate Same(table: seq<Entry>, buckets: map<Key, Bucket>) {
    && NoRepeats(Keys(table))
    && (forall e :: e in table ==> e.key in buckets && buckets[e.key] == e.bucket)
    && (forall k :: k in buckets ==> k in Keys(table))
  }

  /** Moving a key to the front, or adding it there, and updating its bucket. */
  lemma FrontSame(table: seq<Entry>, buckets: map<Key, Bucket>, key: Key, after: seq<Entry>, b: Bucket)
    requires Same(table, buckets)
    requires after != [] && after[0] == Entry(key, b) && Keys(after) == ToFront(Keys(table), key)
    requires forall j :: 0 < j < |after| ==> after[j] in table
    ensures Same(after, buckets[key := b])
  {
    ToFrontKeeps(Keys(table), key);
    forall e | e in after ensures e.key in buckets[key := b] && buckets[key := b][e.key] == e.bucket {
      var j :| 0 <= j < |after| && after[j] == e;
      assert Keys(after)[j] == e.key && Keys(after)[0] == key;
    }
  }

  lemma SameStep(c: Config, s: State, d: Ideal, key: Key, now: int)
    requires c.maxKeys >= 1 && Same(s.table, d.buckets) && s.global == d.global
    requires key in Keys(s.table) || |s.table| < c.maxKeys
    ensures var (s', ok) := Consume(c, s, key, now);
      var (d', ok') := IdealConsume(c, d, key, now);
      Same(s'.table, d'.buckets) && s'.global == d'.global && ok == ok'
  {
    var fetched := Fetch(s.table, key, now, c.perKey.capacity, c.maxKeys);
    var i := Position(Keys(s.table), key);
    KeysOfFetch(s.table, key, now, c.perKey.capacity, c.maxKeys);
    if i < |s.table| {
      assert s.table[i] in s.table;
    } else {
      assert key !in d.buckets;
    }
    var b := Allow(fetched[0].bucket, now, c.perKey).0;
    var after := fetched[0 := Entry(key, b)];
    assert Keys(after) == Keys(fetched);
    FrontSame(s.table, d.buckets, key, after, b);
  }

  lemma SameStart(c: Config, start: int)
    ensures Same(Start(c, start).table, map[])
  {
  }

  lemma ToFrontSize(keys: seq<Key>, key: Key)
    ensures |ToFront(keys, key)| == if key in keys then |keys| else |keys| + 1
  {
    hide Position;
    if key in keys {
      var i :| 0 <= i < |keys| && keys[i] == key;
      assert Position(keys, key) <= i;
    }
  }

  /**
   While no more than maxKeys distinct keys have appeared, the bounded limiter
   decides every request as the unbounded one would.
   */
  lemma {:induction false} BoundNeverShows(c: Config, start: int, requests: seq<Request>)
    requires c.maxKeys >= 1 && |Recency(KeysAsked(requests))| <= c.maxKeys
    ensures var s := Start(c, start);
      var (s', passed) := Handle(c, s, requests);
      var (d', ideal) := IdealHandle(c, Ideal(map[], s.global), requests);
      passed == ideal && Same(s'.table, d'.buckets) && s'.global == d'.global
  {
    hide Consume, IdealConsume, Same, ToFront;
    if requests == [] {
      SameStart(c, start);
    } else {
      var n := |requests| - 1;
      var init, key := requests[..n], requests[n].key;
      assert KeysAsked(requests)[..n] == KeysAsked(init);
      var before := Recency(KeysAsked(init));
      ToFrontSize(before, key);
      BoundNeverShows(c, start, init);
      TrackedKeysAreTheMostRecent(c, start, init);
      var s := Handle(c, Start(c, start), init).0;
      var d := IdealHandle(c, Ideal(map[], Start(c, start).global), init).0;
      assert Keys(s.table) == before;
      SameStep(c, s, d, key, requests[n].now);
    }
  }

  // ----- rate bounds over runs --------------------------------------------------------------

  function Count(passed: seq<bool>): nat {
    if passed == [] then 0 else Count(passed[..|passed| - 1]) + (if passed[|passed| - 1] then 1 else 0)
  }

  ghost predicate Clocked(start: int, requests: seq<Request>) {
    && (forall i :: 0 <= i < |requests| ==> start <= requests[i].now)
    && (forall i, j :: 0 <= i < j < |requests| ==> requests[i].now <= requests[j].now)
  }

  /** What one request does to the shared bucket. */
  lemma ConsumeShared(c: Config, s: State, key: Key, now: int)
    requires Runs(c) && c.global.Some? && s.global.Some? && Sound(s.global.value, c.global.value)
    requires s.global.value.last <= now
    ensures var (s', ok) := Consume(c, s, key, now);
      var l, g, g' := c.global.value, s.global.value, s'.global;
      && g'.Some? && Sound(g'.value, l) && g.last <= g'.value.last <= now
      && g'.value.credit + (if ok then l.interval else 0) <= g.credit + (g'.value.last - g.last)
  {
    RefillBound(s.global.value, now, c.global.value);
  }

  /** The shared bucket bounds everything that passes, whatever keys come and go. */
  lemma {:induction false} SharedBucketBoundsTheRun(c: Config, start: int, requests: seq<Request>)
    requires Runs(c) && c.global.Some? && Clocked(start, requests)
    ensures var (s, passed) := Handle(c, Start(c, start), requests);
      var l := c.global.value;
      var end := if requests == [] then start else requests[|requests| - 1].now;
      && s.global.Some? && Sound(s.global.value, l) && start <= s.global.value.last <= end
      && s.global.value.credit + Count(passed) * l.interval <= l.capacity + (s.global.value.last - start)
  {
    hide Consume;
    if requests != [] {
      var n := |requests| - 1;
      var init := requests[..n];
      SharedBucketBoundsTheRun(c, start, init);
      var (s, passed) := Handle(c, Start(c, start), init);
      var (s', all) := Handle(c, Start(c, start), requests);
      var l := c.global.value;
      assert n > 0 ==> init[n - 1].now <= requests[n].now;
      ConsumeShared(c, s, requests[n].key, requests[n].now);
      assert all[..n] == passed;
      Accumulate(Count(passed), all[n], l.interval, s.global.value, s'.global.value, l.capacity - start);
    }
  }

  lemma Accumulate(n: nat, ok: bool, interval: int, g: Bucket, g': Bucket, base: int)
    requires g.credit + n * interval <= base + g.last
    requires g'.credit + (if ok then interval else 0) <= g.credit + (g'.last - g.last)
    ensures g'.credit + (if ok then n + 1 else n) * interval <= base + g'.last
  {
    assert (n + 1) * interval == n * interval + interval;
  }

  // ----- one key's share --------------------------------------------------------------------

  ghost predicate Holds(table: seq<Entry>, key: Key, b: Bucket) {
    NoRepeats(Keys(table)) && Entry(key, b) in table
  }

  lemma FetchKeysDistinct(keys: seq<Key>, key: Key, maxKeys: nat)
    requires maxKeys >= 1 && NoRepeats(keys)
    ensures NoRepeats(FetchKeys(keys, key, maxKeys))
  {
    var i := Position(keys, key);
    if i < |keys| {
      WithoutKeeps(keys, i);
    }
  }

  lemma ConsumeKeys(c: Config, s: State, key: Key, now: int)
    requires c.maxKeys >= 1 && NoRepeats(Keys(s.table))
    ensures NoRepeats(Keys(Consume(c, s, key, now).0.table))
  {
    KeysOfFetch(s.table, key, now, c.perKey.capacity, c.maxKeys);
    FetchKeysDistinct(Keys(s.table), key, c.maxKeys);
    assert Keys(Consume(c, s, key, now).0.table) == FetchKeys(Keys(s.table), key, c.maxKeys);
  }

  lemma ConsumeCharges(c: Config, s: State, key: Key, now: int, b: Bucket)
    requires c.maxKeys >= 1 && Holds(s.table, key, b)
    ensures var (s', ok) := Consume(c, s, key, now);
      Holds(s'.table, key, Allow(b, now, c.perKey).0) && (ok ==> Allow(b, now, c.perKey).1)
  {
    ConsumeKeys(c, s, key, now);
    var j :| 0 <= j < |s.table| && s.table[j] == Entry(key, b);
    assert Keys(s.table)[j] == key;
    assert Position(Keys(s.table), key) == j;
    assert Fetch(s.table, key, now, c.perKey.capacity, c.maxKeys)[0] == Entry(key, b);
    assert Consume(c, s, key, now).0.table[0] == Entry(key, Allow(b, now, c.perKey).0);
  }

  lemma ConsumeSpares(c: Config, s: State, other: Key, now: int, key: Key, b: Bucket)
    requires c.maxKeys >= 1 && Holds(s.table, key, b) && key != other
    requires key in Keys(Consume(c, s, other, now).0.table)
    ensures Holds(Consume(c, s, other, now).0.table, key, b)
  {
    ConsumeKeys(c, s, other, now);
    var after := Consume(c, s, other, now).0.table;
    var i :| 0 <= i < |after| && Keys(after)[i] == key;
    var fetched := Fetch(s.table, other, now, c.perKey.capacity, c.maxKeys);
    assert i > 0 && after[i] == fetched[i] && fetched[i] in s.table;
    var j :| 0 <= j < |s.table| && s.table[j] == after[i];
    var m :| 0 <= m < |s.table| && s.table[m] == Entry(key, b);
    assert Keys(s.table)[j] == Keys(s.table)[m];
  }

  /** When a key asked, and how often it was let through. */
  function TimesOf(requests: seq<Request>, key: Key): seq<int> {
    if requests == [] then [] else
    var n := |requests| - 1;
    TimesOf(requests[..n], key) + (if requests[n].key == key then [requests[n].now] else [])
  }

  function PassedOf(requests: seq<Request>, passed: seq<bool>, key: Key): nat
    requires |requests| == |passed|
  {
    if requests == [] then 0 else
    var n := |requests| - 1;
    PassedOf(requests[..n], passed[..n], key) + (if requests[n].key == key && passed[n] then 1 else 0)
  }

  ghost predicate StaysTracked(c: Config, s: State, requests: seq<Request>, key: Key)
    requires c.maxKeys >= 1
  {
    forall n :: 0 <= n <= |requests| ==> key in Keys(Handle(c, s, requests[..n]).0.table)
  }

  /** While it stays tracked, a key's bucket is served its own requests and nothing else. */
  lemma {:induction false} TrackedKeyIsServed(c: Config, s: State, requests: seq<Request>, key: Key, b: Bucket)
    requires c.maxKeys >= 1 && Holds(s.table, key, b) && StaysTracked(c, s, requests, key)
    ensures var (s', passed) := Handle(c, s, requests);
      var (b', n) := Serve(b, TimesOf(requests, key), c.perKey);
      Holds(s'.table, key, b') && PassedOf(requests, passed, key) <= n
  {
    hide Consume, Keys, Allow;
    if requests != [] {
      var n := |requests| - 1;
      var init := requests[..n];
      forall m | 0 <= m <= n ensures key in Keys(Handle(c, s, init[..m]).0.table) {
        assert init[..m] == requests[..m];
      }
      TrackedKeyIsServed(c, s, init, key, b);
      var (mid, passed) := Handle(c, s, init);
      var (b', count) := Serve(b, TimesOf(init, key), c.perKey);
      var now := requests[n].now;
      assert requests[..n + 1] == requests;
      assert Handle(c, s, requests).1[..n] == passed;
      if requests[n].key == key {
        ConsumeCharges(c, mid, key, now, b');
        var times := TimesOf(requests, key);
        assert times[..|times| - 1] == TimesOf(init, key);
      } else {
        ConsumeSpares(c, mid, requests[n].key, now, key, b');
        assert TimesOf(requests, key) == TimesOf(init, key);
      }
    }
  }

  // ----- a client that keeps its distance ------------------------------------------------------

  /** When a key last asked. */
  function LastTime(requests: seq<Request>, key: Key): Option<int> {
    if requests == [] then None
    else if requests[|requests| - 1].key == key then Some(requests[|requests| - 1].now)
    else LastTime(requests[..|requests| - 1], key)
  }

  /** Every tracked bucket was brought up to date when its key last asked. */
  ghost predicate UpToDate(c: Config, table: seq<Entry>, requests: seq<Request>) {
    && NoRepeats(Keys(table))
    && forall i :: 0 <= i < |table| ==>
      Sound(table[i].bucket, c.perKey) && LastTime(requests, table[i].key) == Some(table[i].bucket.last)
  }

  /** Where the entries of the table after a request come from. */
  lemma ConsumeEntries(c: Config, s: State, key: Key, now: int, i: nat)
    requires c.maxKeys >= 1 && NoRepeats(Keys(s.table)) && i < |Consume(c, s, key, now).0.table|
    ensures var after := Consume(c, s, key, now).0.table;
      if i == 0 then after[0] == Entry(key, Allow(Fetch(s.table, key, now, c.perKey.capacity, c.maxKeys)[0].bucket, now, c.perKey).0)
      else after[i] in s.table && after[i].key != key
  {
    ConsumeKeys(c, s, key, now);
    var after := Consume(c, s, key, now).0.table;
    if i > 0 {
      assert Keys(after)[0] == key && Keys(after)[0] != Keys(after)[i];
    }
  }

  /** A bucket that is found is the key's own, and one that is made is full. */
  lemma FetchedFront(c: Config, table: seq<Entry>, requests: seq<Request>, key: Key, now: int)
    requires Runs(c) && UpToDate(c, table, requests)
    ensures var b := Fetch(table, key, now, c.perKey.capacity, c.maxKeys)[0].bucket;
      Sound(b, c.perKey) && (b.credit == c.perKey.capacity || LastTime(requests, key) == Some(b.last))
  {
    hide LastTime;
    var i := Position(Keys(table), key);
    if i < |table| {
      assert Keys(table)[i] == table[i].key;
    }
  }

  lemma UpToDateStep(c: Config, s: State, requests: seq<Request>, request: Request)
    requires Runs(c) && UpToDate(c, s.table, requests)
    ensures UpToDate(c, Consume(c, s, request.key, request.now).0.table, requests + [request])
  {
    hide Consume, Fetch;
    var all := requests + [request];
    assert all[..|requests|] == requests;
    var after := Consume(c, s, request.key, request.now).0.table;
    ConsumeKeys(c, s, request.key, request.now);
    FetchedFront(c, s.table, requests, request.key, request.now);
    forall i | 0 <= i < |after| ensures
      Sound(after[i].bucket, c.perKey) && LastTime(all, after[i].key) == Some(after[i].bucket.last)
    {
      ConsumeEntries(c, s, request.key, request.now, i);
      if i > 0 {
        var j :| 0 <= j < |s.table| && s.table[j] == after[i];
      } else {
        var b := Fetch(s.table, request.key, request.now, c.perKey.capacity, c.maxKeys)[0].bucket;
        AllowKeeps(b, request.now, c.perKey);
      }
    }
  }

  lemma AllowKeeps(b: Bucket, now: int, l: Limit)
    requires Usable(l) && Sound(b, l) && l.capacity <= INT64_MAX
    ensures Sound(Allow(b, now, l).0, l) && Allow(b, now, l).0.last == now
  {
  }

  lemma {:induction false} RunsStayUpToDate(c: Config, start: int, requests: seq<Request>)
    requires Runs(c)
    ensures UpToDate(c, Handle(c, Start(c, start), requests).0.table, requests)
  {
    hide Consume, LastTime;
    if requests != [] {
      var n := |requests| - 1;
      RunsStayUpToDate(c, start, requests[..n]);
      UpToDateStep(c, Handle(c, Start(c, start), requests[..n]).0, requests[..n], requests[n]);
      assert requests == requests[..n] + [requests[n]];
    }
  }

  /**
   A client that leaves at least one interval between its requests is always paid for by
   its own bucket, whatever the others do and whether or not it was evicted meanwhile;
   without a shared bucket it always passes.
   */
  lemma SpacedClientAlwaysPasses(c: Config, start: int, requests: seq<Request>)
    requires Runs(c) && requests != []
    requires var n := |requests| - 1;
      var last := LastTime(requests[..n], requests[n].key);
      last.None? || requests[n].now - last.value >= c.perKey.interval
    ensures var n := |requests| - 1;
      OwnPays(c, Handle(c, Start(c, start), requests[..n]).0, requests[n])
    ensures c.global.None? ==> Handle(c, Start(c, start), requests).1[|requests| - 1]
  {
    hide Fetch, LastTime, Consume, Allow;
    var n := |requests| - 1;
    var init, key, now := requests[..n], requests[n].key, requests[n].now;
    var s := Handle(c, Start(c, start), init).0;
    RunsStayUpToDate(c, start, init);
    FetchedFront(c, s.table, init, key, now);
    FullPays(Fetch(s.table, key, now, c.perKey.capacity, c.maxKeys)[0].bucket, now, c.perKey);
    if c.global.None? {
      OwnDecides(c, s, requests[n]);
    }
  }

  /** The bucket a request finds or is given pays for it. */
  predicate OwnPays(c: Config, s: State, request: Request)
    requires c.maxKeys >= 1
  {
    Allow(Fetch(s.table, request.key, request.now, c.perKey.capacity, c.maxKeys)[0].bucket, request.now, c.perKey).1
  }

  lemma OwnDecides(c: Config, s: State, request: Request)
    requires c.maxKeys >= 1 && c.global.None?
    ensures Consume(c, s, request.key, request.now).1 == OwnPays(c, s, request)
  {
    hide Fetch;
  }

  lemma FullPays(b: Bucket, now: int, l: Limit)
    requires Usable(l) && Sound(b, l) && l.capacity <= INT64_MAX
    requires b.credit == l.capacity || now - b.last >= l.interval
    ensures Allow(b, now, l).1
  {
    if now - b.last >= l.interval {
      SpacedRequestsPass(b, now, l);
    }
  }

  // ----- one key's share of any window -------------------------------------------------------------

  lemma {:induction false} HandleSplits(c: Config, s: State, x: seq<Request>, y: seq<Request>)
    requires c.maxKeys >= 1
    ensures var (mid, passed) := Handle(c, s, x);
      var (end, more) := Handle(c, mid, y);
      Handle(c, s, x + y) == (end, passed + more)
  {
    hide Consume;
    if y == [] {
      assert x + y == x && Handle(c, s, x).1 + [] == Handle(c, s, x).1;
    } else {
      var n := |y| - 1;
      assert (x + y)[..|x + y| - 1] == x + y[..n];
      HandleSplits(c, s, x, y[..n]);
      var (mid, passed) := Handle(c, s, x);
      var (late, more) := Handle(c, mid, y[..n]);
      var ok := Consume(c, late, y[n].key, y[n].now).1;
      assert passed + (more + [ok]) == (passed + more) + [ok];
    }
  }

  lemma {:induction false} TimesSplit(x: seq<Request>, y: seq<Request>, key: Key)
    ensures TimesOf(x + y, key) == TimesOf(x, key) + TimesOf(y, key)
  {
    if y == [] {
      assert x + y == x;
    } else {
      var n := |y| - 1;
      assert (x + y)[..|x + y| - 1] == x + y[..n];
      TimesSplit(x, y[..n], key);
    }
  }

  lemma {:induction false} PassedSplit(x: seq<Request>, y: seq<Request>, px: seq<bool>, py: seq<bool>, key: Key)
    requires |x| == |px| && |y| == |py|
    ensures PassedOf(x + y, px + py, key) == PassedOf(x, px, key) + PassedOf(y, py, key)
  {
    if y == [] {
      assert x + y == x && px + py == px;
    } else {
      var n := |y| - 1;
      assert (x + y)[..|x + y| - 1] == x + y[..n] && (px + py)[..|x + y| - 1] == px + py[..n];
      PassedSplit(x, y[..n], px, py[..n], key);
    }
  }

  /** A key's own request: what becomes of the bucket it finds, or of the full one it is given. */
  lemma RequestServes(c: Config, s: State, history: seq<Request>, first: Request)
    requires Runs(c) && UpToDate(c, s.table, history)
    ensures var b := Fetch(s.table, first.key, first.now, c.perKey.capacity, c.maxKeys)[0].bucket;
      var (s', ok) := Consume(c, s, first.key, first.now);
      && Sound(b, c.perKey) && Holds(s'.table, first.key, Allow(b, first.now, c.perKey).0)
      && (ok ==> Allow(b, first.now, c.perKey).1)
  {
    FetchedFront(c, s.table, history, first.key, first.now);
    ConsumeKeys(c, s, first.key, first.now);
    var s' := Consume(c, s, first.key, first.now).0;
    hide Fetch, Allow;
    assert s'.table[0].key == first.key;
  }

  lemma OneRequest(c: Config, s: State, first: Request)
    requires c.maxKeys >= 1
    ensures var (s', ok) := Consume(c, s, first.key, first.now);
      Handle(c, s, [first]) == (s', [ok])
  {
    hide Consume;
    assert [first][..0] == [];
    assert Handle(c, s, []) == (s, []);
    var ok := Consume(c, s, first.key, first.now).1;
    assert [] + [ok] == [ok];
  }

  lemma OneServed(b: Bucket, now: int, l: Limit)
    ensures Serve(b, [now], l) == (Allow(b, now, l).0, if Allow(b, now, l).1 then 1 else 0)
  {
    hide Allow;
    assert [now][..0] == [];
    assert Serve(b, [], l) == (b, 0);
  }

  /** Tracked from its own first request of the window on. */
  ghost predicate TrackedSince(c: Config, s: State, window: seq<Request>, key: Key)
    requires c.maxKeys >= 1
  {
    forall n :: 1 <= n <= |window| ==> key in Keys(Handle(c, s, window[..n]).0.table)
  }

  /** The rest of a window, from the state its first request leaves. */
  lemma TrackedAfterFirst(c: Config, s: State, window: seq<Request>, key: Key)
    requires c.maxKeys >= 1 && window != [] && TrackedSince(c, s, window, key)
    ensures StaysTracked(c, Handle(c, s, [window[0]]).0, window[1..], key)
  {
    hide Consume, Keys, Handle;
    var first, rest := [window[0]], window[1..];
    forall n | 0 <= n <= |rest| ensures key in Keys(Handle(c, Handle(c, s, first).0, rest[..n]).0.table) {
      assert window[..n + 1] == first + rest[..n];
      HandleSplits(c, s, first, rest[..n]);
    }
  }

  /** The key's requests of a window as one bucket sees them. */
  lemma WindowIsServed(c: Config, s: State, history: seq<Request>, window: seq<Request>) returns (b: Bucket)
    requires Runs(c) && UpToDate(c, s.table, history) && window != [] && TrackedSince(c, s, window, window[0].key)
    ensures Sound(b, c.perKey)
    ensures PassedOf(window, Handle(c, s, window).1, window[0].key) <= Serve(b, TimesOf(window, window[0].key), c.perKey).1
    ensures TimesOf(window, window[0].key) != []
  {
    hide Consume, Fetch, Allow, UpToDate, Keys, TrackedSince, Holds, StaysTracked;
    var key, first, rest := window[0].key, [window[0]], window[1..];
    assert window == first + rest;
    RequestServes(c, s, history, window[0]);
    b := Fetch(s.table, key, window[0].now, c.perKey.capacity, c.maxKeys)[0].bucket;
    OneRequest(c, s, window[0]);
    OneServed(b, window[0].now, c.perKey);
    var (s', passed) := Handle(c, s, first);
    var (b', ok) := Allow(b, window[0].now, c.perKey);
    TrackedAfterFirst(c, s, window, key);
    TrackedKeyIsServed(c, s', rest, key, b');
    HandleSplits(c, s, first, rest);
    TimesSplit(first, rest, key);
    PassedSplit(first, rest, passed, Handle(c, s', rest).1, key);
    SharesOfOne(window[0], passed);
    ServeSplits(b, [window[0].now], TimesOf(rest, key), c.perKey);
  }

  lemma SharesOfOne(first: Request, passed: seq<bool>)
    requires |passed| == 1
    ensures TimesOf([first], first.key) == [first.now]
    ensures PassedOf([first], passed, first.key) == if passed[0] then 1 else 0
  {
    assert [first][..0] == [];
    assert TimesOf([], first.key) == [];
  }

  /**
   In any window of any run that opens with one of a key's requests, be it the one that
   files the key, and in which the key then stays tracked, what the key passes is
   bounded by its burst plus what the window earns.
   */
  lemma TrackedKeyBound(c: Config, start: int, before: seq<Request>, window: seq<Request>)
    requires Runs(c) && window != [] && Monotone(TimesOf(window, window[0].key))
    requires TrackedSince(c, Handle(c, Start(c, start), before).0, window, window[0].key)
    ensures var s, key := Handle(c, Start(c, start), before).0, window[0].key;
      var times := TimesOf(window, key);
      && times != []
      && PassedOf(window, Handle(c, s, window).1, key) * c.perKey.interval
         <= c.perKey.capacity + (times[|times| - 1] - times[0])
  {
    hide Handle, Serve, TimesOf, PassedOf, TrackedSince, UpToDate;
    var s, key := Handle(c, Start(c, start), before).0, window[0].key;
    RunsStayUpToDate(c, start, before);
    var b := WindowIsServed(c, s, before, window);
    var times := TimesOf(window, key);
    CreditBound(b, times, c.perKey);
    Scaled(c.perKey.interval, PassedOf(window, Handle(c, s, window).1, key), Serve(b, times, c.perKey).1);
  }

  // ----- the limiter's decisions, from the times alone ------------------------------------------------

  /** What a key's own bucket says to each of its requests. */
  ghost function OwnDecisions(c: Config, s: State, requests: seq<Request>, key: Key): seq<bool>
    requires c.maxKeys >= 1
  {
    if requests == [] then [] else
    var n := |requests| - 1;
    OwnDecisions(c, s, requests[..n], key)
      + (if requests[n].key == key then [OwnPays(c, Handle(c, s, requests[..n]).0, requests[n])] else [])
  }

  lemma HeldIsFetched(c: Config, s: State, key: Key, now: int, b: Bucket)
    requires c.maxKeys >= 1 && Holds(s.table, key, b)
    ensures Fetch(s.table, key, now, c.perKey.capacity, c.maxKeys)[0] == Entry(key, b)
  {
    var j :| 0 <= j < |s.table| && s.table[j] == Entry(key, b);
    assert Keys(s.table)[j] == key;
    assert Position(Keys(s.table), key) == j;
  }

  lemma {:induction false} TrackedDecisions(c: Config, s: State, requests: seq<Request>, key: Key, b: Bucket)
    requires c.maxKeys >= 1 && Holds(s.table, key, b) && StaysTracked(c, s, requests, key)
    ensures OwnDecisions(c, s, requests, key) == Decisions(b, TimesOf(requests, key), c.perKey)
  {
    hide Consume, Keys, Allow, Fetch, Holds;
    if requests != [] {
      var n := |requests| - 1;
      var init := requests[..n];
      assert StaysTracked(c, s, init, key) by {
        forall m | 0 <= m <= n ensures key in Keys(Handle(c, s, init[..m]).0.table) {
          assert init[..m] == requests[..m];
        }
      }
      TrackedDecisions(c, s, init, key, b);
      TrackedKeyIsServed(c, s, init, key, b);
      if requests[n].key == key {
        HeldIsFetched(c, Handle(c, s, init).0, key, requests[n].now, Serve(b, TimesOf(init, key), c.perKey).0);
        var times := TimesOf(requests, key);
        assert times[..|times| - 1] == TimesOf(init, key);
      } else {
        assert TimesOf(requests, key) == TimesOf(init, key);
      }
    }
  }

  lemma {:induction false} OwnDecisionsSplit(c: Config, s: State, x: seq<Request>, y: seq<Request>, key: Key)
    requires c.maxKeys >= 1
    ensures OwnDecisions(c, s, x + y, key) == OwnDecisions(c, s, x, key) + OwnDecisions(c, Handle(c, s, x).0, y, key)
  {
    hide Consume, OwnPays;
    if y == [] {
      assert x + y == x;
    } else {
      var n := |y| - 1;
      assert (x + y)[..|x + y| - 1] == x + y[..n];
      OwnDecisionsSplit(c, s, x, y[..n], key);
      HandleSplits(c, s, x, y[..n]);
    }
  }

  lemma {:induction false} DecisionsSplit(b: Bucket, x: seq<int>, y: seq<int>, l: Limit)
    ensures Decisions(b, x + y, l) == Decisions(b, x, l) + Decisions(Serve(b, x, l).0, y, l)
  {
    hide Allow;
    if y == [] {
      assert x + y == x;
    } else {
      var n := |y| - 1;
      assert (x + y)[..|x + y| - 1] == x + y[..n];
      DecisionsSplit(b, x, y[..n], l);
      ServeSplits(b, x, y[..n], l);
    }
  }

  lemma OneDecision(c: Config, s: State, first: Request)
    requires c.maxKeys >= 1
    ensures OwnDecisions(c, s, [first], first.key) == [OwnPays(c, s, first)]
  {
    hide OwnPays;
    assert [first][..0] == [];
    assert OwnDecisions(c, s, [], first.key) == [];
    assert Handle(c, s, []).0 == s;
  }

  lemma OneDecided(b: Bucket, now: int, l: Limit)
    ensures Decisions(b, [now], l) == [Allow(b, now, l).1]
  {
    hide Allow;
    assert [now][..0] == [];
    assert Serve(b, [], l).0 == b;
  }

  /** What the limiter answered a key. */
  function AnswersOf(requests: seq<Request>, passed: seq<bool>, key: Key): seq<bool>
    requires |requests| == |passed|
  {
    if requests == [] then [] else
    var n := |requests| - 1;
    AnswersOf(requests[..n], passed[..n], key) + (if requests[n].key == key then [passed[n]] else [])
  }

  lemma {:induction false} OwnIsTheAnswer(c: Config, s: State, requests: seq<Request>, key: Key)
    requires c.maxKeys >= 1 && c.global.None?
    ensures AnswersOf(requests, Handle(c, s, requests).1, key) == OwnDecisions(c, s, requests, key)
  {
    hide Consume, OwnPays;
    if requests != [] {
      var n := |requests| - 1;
      OwnIsTheAnswer(c, s, requests[..n], key);
      OwnDecides(c, Handle(c, s, requests[..n]).0, requests[n]);
      assert Handle(c, s, requests).1[..n] == Handle(c, s, requests[..n]).1;
    }
  }

  /**
   A key that is not tracked is given a full bucket. From then on, while it stays tracked,
   its own bucket pays for a request exactly when no window of the key's own requests
   that ends with it would exceed burst plus rate. Without a shared bucket that is the
   limiter's answer.
   */
  lemma {:induction false} TrackedKeyDecided(c: Config, start: int, before: seq<Request>, window: seq<Request>)
    requires Runs(c) && window != [] && Monotone(TimesOf(window, window[0].key))
    requires window[0].key !in Keys(Handle(c, Start(c, start), before).0.table)
    requires TrackedSince(c, Handle(c, Start(c, start), before).0, window, window[0].key)
    ensures var s, key := Handle(c, Start(c, start), before).0, window[0].key;
      && OwnDecisions(c, s, window, key) == Due(c.perKey, TimesOf(window, key))
      && (c.global.None? ==> AnswersOf(window, Handle(c, s, window).1, key) == Due(c.perKey, TimesOf(window, key)))
  {
    hide Consume, Fetch, Allow, UpToDate, Keys, AnswersOf, TrackedSince, Holds, StaysTracked, Handle, Due, TimesOf, OwnDecisions;
    var s, key, first, rest := Handle(c, Start(c, start), before).0, window[0].key, window[0], window[1..];
    var b, l := Bucket(c.perKey.capacity, first.now), c.perKey;
    assert window == [first] + rest;
    RunsStayUpToDate(c, start, before);
    NewKeyIsFull(c, s, first);
    RequestServes(c, s, before, first);
    OneRequest(c, s, first);
    var s' := Handle(c, s, [first]).0;
    TrackedAfterFirst(c, s, window, key);
    TrackedDecisions(c, s', rest, key, Allow(b, first.now, l).0);
    OwnDecisionsSplit(c, s, [first], rest, key);
    OneDecision(c, s, first);
    TimesSplit([first], rest, key);
    SharesOfOne(first, [true]);
    DecisionsSplit(b, [first.now], TimesOf(rest, key), l);
    OneDecided(b, first.now, l);
    OneServed(b, first.now, l);
    DecidedExactly(b, TimesOf(window, key), l);
    if c.global.None? {
      OwnIsTheAnswer(c, s, window, key);
    }
  }

  lemma NewKeyIsFull(c: Config, s: State, first: Request)
    requires c.maxKeys >= 1 && first.key !in Keys(s.table)
    ensures Fetch(s.table, first.key, first.now, c.perKey.capacity, c.maxKeys)[0].bucket
      == Bucket(c.perKey.capacity, first.now)
  {
    assert Position(Keys(s.table), first.key) == |s.table|;
  }

  /** The requests that reach the shared bucket: when they came, and what it said. */
  ghost function PaidTimes(c: Config, s: State, requests: seq<Request>): seq<int>
    requires c.maxKeys >= 1
  {
    if requests == [] then [] else
    var n := |requests| - 1;
    PaidTimes(c, s, requests[..n])
      + (if OwnPays(c, Handle(c, s, requests[..n]).0, requests[n]) then [requests[n].now] else [])
  }

  ghost function SharedDecisions(c: Config, s: State, requests: seq<Request>): seq<bool>
    requires c.maxKeys >= 1
  {
    if requests == [] then [] else
    var n := |requests| - 1;
    SharedDecisions(c, s, requests[..n])
      + (if OwnPays(c, Handle(c, s, requests[..n]).0, requests[n]) then [Handle(c, s, requests).1[n]] else [])
  }

  /** One request as the shared bucket sees it. */
  lemma ConsumeShares(c: Config, s: State, request: Request, g: Bucket)
    requires c.maxKeys >= 1 && c.global.Some? && s.global == Some(g)
    ensures var (s', ok) := Consume(c, s, request.key, request.now);
      if OwnPays(c, s, request) then
        s'.global == Some(Allow(g, request.now, c.global.value).0) && ok == Allow(g, request.now, c.global.value).1
      else s'.global == Some(g) && !ok
  {
    hide Fetch, Allow;
  }

  lemma PaidStep(c: Config, s: State, requests: seq<Request>)
    requires c.maxKeys >= 1 && requests != []
    ensures var n := |requests| - 1;
      var (mid, passed), paid := Handle(c, s, requests[..n]), OwnPays(c, Handle(c, s, requests[..n]).0, requests[n]);
      var (end, ok) := Consume(c, mid, requests[n].key, requests[n].now);
      && Handle(c, s, requests) == (end, passed + [ok])
      && PaidTimes(c, s, requests) == PaidTimes(c, s, requests[..n]) + (if paid then [requests[n].now] else [])
      && SharedDecisions(c, s, requests) == SharedDecisions(c, s, requests[..n]) + (if paid then [ok] else [])
  {
    hide Consume, OwnPays;
  }

  lemma ServeOneMore(g: Bucket, times: seq<int>, now: int, l: Limit)
    ensures Serve(g, times + [now], l).0 == Allow(Serve(g, times, l).0, now, l).0
    ensures Decisions(g, times + [now], l) == Decisions(g, times, l) + [Allow(Serve(g, times, l).0, now, l).1]
  {
    hide Allow;
    assert (times + [now])[..|times|] == times;
  }

  lemma {:induction false} SharedServes(c: Config, s: State, requests: seq<Request>, g: Bucket)
    requires c.maxKeys >= 1 && c.global.Some? && s.global == Some(g)
    ensures var l, times := c.global.value, PaidTimes(c, s, requests);
      && Handle(c, s, requests).0.global == Some(Serve(g, times, l).0)
      && SharedDecisions(c, s, requests) == Decisions(g, times, l)
  {
    hide Consume, OwnPays, Allow, Serve, Decisions, PaidTimes, SharedDecisions, Handle;
    if requests == [] {
      SharedNothing(c, s, g);
    } else {
      var n := |requests| - 1;
      SharedServes(c, s, requests[..n], g);
      PaidStep(c, s, requests);
      var l, times := c.global.value, PaidTimes(c, s, requests[..n]);
      ConsumeShares(c, Handle(c, s, requests[..n]).0, requests[n], Serve(g, times, l).0);
      ServeOneMore(g, times, requests[n].now, l);
      assert times + [] == times && Decisions(g, times, l) + [] == Decisions(g, times, l);
    }
  }

  lemma SharedNothing(c: Config, s: State, g: Bucket)
    requires c.maxKeys >= 1 && c.global.Some? && s.global == Some(g)
    ensures Handle(c, s, []).0 == s && PaidTimes(c, s, []) == [] && SharedDecisions(c, s, []) == []
    ensures Serve(g, [], c.global.value).0 == g && Decisions(g, [], c.global.value) == []
  {
  }

  /** A request its own bucket does not pay for is refused. */
  lemma {:induction false} UnpaidIsRefused(c: Config, s: State, requests: seq<Request>, n: nat)
    requires c.maxKeys >= 1 && n < |requests| && !OwnPays(c, Handle(c, s, requests[..n]).0, requests[n])
    ensures !Handle(c, s, requests).1[n]
  {
    hide Consume, OwnPays;
    var m := |requests| - 1;
    if n < m {
      assert requests[..m][..n] == requests[..n];
      UnpaidIsRefused(c, s, requests[..m], n);
    } else {
      UnpaidHere(c, Handle(c, s, requests[..n]).0, requests[n]);
    }
  }

  lemma UnpaidHere(c: Config, s: State, request: Request)
    requires c.maxKeys >= 1 && !OwnPays(c, s, request)
    ensures !Consume(c, s, request.key, request.now).1
  {
    hide Fetch, Allow;
  }

  lemma {:induction false} PaidInOrder(c: Config, s: State, start: int, requests: seq<Request>)
    requires c.maxKeys >= 1 && Clocked(start, requests)
    ensures var times := PaidTimes(c, s, requests);
      && Monotone(times) && forall i :: 0 <= i < |times| ==>
        start <= times[i] && (requests != [] ==> times[i] <= requests[|requests| - 1].now)
  {
    hide Handle, OwnPays;
    if requests != [] {
      var n := |requests| - 1;
      PaidInOrder(c, s, start, requests[..n]);
      assert n > 0 ==> requests[n - 1].now <= requests[n].now;
    }
  }

  /**
   With a shared bucket: a request its own bucket does not pay for is refused without
   asking the shared one; of the others, one passes exactly when no window of them
   that ends with it would exceed the shared burst plus rate.
   */
  lemma {:induction false} SharedBucketDecided(c: Config, start: int, requests: seq<Request>)
    requires Runs(c) && c.global.Some? && Clocked(start, requests)
    ensures var s := Start(c, start);
      && SharedDecisions(c, s, requests) == Due(c.global.value, PaidTimes(c, s, requests))
      && (forall n :: 0 <= n < |requests| && !OwnPays(c, Handle(c, s, requests[..n]).0, requests[n])
            ==> !Handle(c, s, requests).1[n])
  {
    hide Handle, OwnPays, Due, Serve;
    var s, g := Start(c, start), Bucket(c.global.value.capacity, start);
    SharedServes(c, s, requests, g);
    forall n | 0 <= n < |requests| && !OwnPays(c, Handle(c, s, requests[..n]).0, requests[n])
      ensures !Handle(c, s, requests).1[n]
    {
      UnpaidIsRefused(c, s, requests, n);
    }
    PaidInOrder(c, s, start, requests);
    DecidedExactly(g, PaidTimes(c, s, requests), c.global.value);
  }
}
