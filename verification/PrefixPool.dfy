/**
 What every run of `plugins/prefix` keeps: the blocks taken from the pool are exactly
 those in the clients' records, each in one place, within each client's limit.
 */
module PrefixPool {
  import opened Wrappers
  import opened PrefixModel

  predicate Pooled(c: Config, l: Lease)
    requires Sound(c)
  {
    && Block(c, l.prefix.ip) < c.count && l.prefix.ip == Ip(c, Block(c, l.prefix.ip))
    && l.prefix.len >= c.page
  }

  ghost predicate AllPooled(c: Config, s: seq<Lease>)
    requires Sound(c)
  {
    forall l :: l in s ==> Pooled(c, l)
  }

  /** No two leases of a list are carved from the same block. */
  ghost predicate Apart(c: Config, s: seq<Lease>)
    requires Sound(c)
  {
    forall i, j :: 0 <= i < j < |s| ==> Block(c, s[i].prefix.ip) != Block(c, s[j].prefix.ip)
  }

  ghost predicate Proper(c: Config, s: seq<Lease>)
    requires Sound(c)
  {
    AllPooled(c, s) && Apart(c, s)
  }

  /** The pool agrees with the records. */
  ghost predicate Agreed(c: Config, s: State)
    requires Sound(c)
  {
    && (forall k :: k in s.records ==>
      s.records[k] != [] && |s.records[k]| <= c.maxPrefixes && Proper(c, s.records[k]))
    && (forall k, k' :: k in s.records && k' in s.records && k != k' ==>
      Blocks(c, s.records[k]) !! Blocks(c, s.records[k']))
    && (forall k :: k in s.records ==> Blocks(c, s.records[k]) <= s.taken)
    && (forall b :: b in s.taken ==> exists k :: k in s.records && b in Blocks(c, s.records[k]))
  }

  /** Replacing one client's leases, with the pool moved accordingly, keeps the agreement. */
  lemma StoreKeeps(c: Config, s: State, key: Key, leases: seq<Lease>, taken: set<nat>)
    requires Sound(c) && Agreed(c, s) && Proper(c, leases) && |leases| <= c.maxPrefixes
    requires Blocks(c, leases) !! s.taken - Blocks(c, Known(s, key))
    requires taken == (s.taken - Blocks(c, Known(s, key))) + Blocks(c, leases)
    ensures Agreed(c, State(Store(s.records, key, leases), taken))
  {
    hide Blocks, Proper;
    var was, s' := Known(s, key), State(Store(s.records, key, leases), taken);
    NoBlocks(c);
    assert forall k :: k in s'.records && k != key ==> k in s.records && s'.records[k] == s.records[k];
    forall k | k in s'.records && k != key
      ensures Blocks(c, s'.records[k]) !! Blocks(c, leases) && Blocks(c, s'.records[k]) <= taken
    {
      assert key in s.records ==> Blocks(c, s.records[k]) !! Blocks(c, s.records[key]);
    }
    forall b | b in taken ensures exists k :: k in s'.records && b in Blocks(c, s'.records[k]) {
      if b in Blocks(c, leases) {
        assert key in s'.records;
      } else {
        var k :| k in s.records && b in Blocks(c, s.records[k]);
        assert k in s'.records;
      }
    }
  }

  lemma NoBlocks(c: Config)
    requires Sound(c)
    ensures Blocks(c, []) == {}
  {
  }

  // ----- filters --------------------------------------------------------------------------

  /** The filter keeps exactly what is not hit, in order, and cuts the rest. */
  lemma {:induction false} FilterIs(s: seq<Lease>, cause: Cause)
    ensures forall l :: l in Keep(s, cause) <==> l in s && !Hit(cause, l)
    ensures forall l :: l in Cut(s, cause) <==> l in s && Hit(cause, l)
    ensures |Keep(s, cause)| + |Cut(s, cause)| == |s|
    ensures multiset(Keep(s, cause)) + multiset(Cut(s, cause)) == multiset(s)
  {
    hide Hit;
    if s != [] {
      var init, l := s[..|s| - 1], s[|s| - 1];
      FilterIs(init, cause);
      assert s == init + [l];
    }
  }

  lemma {:induction false} KeepApart(c: Config, s: seq<Lease>, cause: Cause)
    requires Sound(c) && Apart(c, s)
    ensures Apart(c, Keep(s, cause)) && Blocks(c, Keep(s, cause)) !! Blocks(c, Cut(s, cause))
  {
    hide Hit, Block;
    if s != [] {
      var init, l := s[..|s| - 1], s[|s| - 1];
      KeepApart(c, init, cause);
      FilterIs(init, cause);
      assert forall m :: m in init ==> Block(c, m.prefix.ip) != Block(c, l.prefix.ip);
      var keep := Keep(init, cause);
      assert forall i :: 0 <= i < |keep| ==> keep[i] in init;
    }
  }

  lemma FilterBlocks(c: Config, s: seq<Lease>, cause: Cause)
    requires Sound(c) && Proper(c, s)
    ensures Proper(c, Keep(s, cause)) && Blocks(c, Keep(s, cause)) !! Blocks(c, Cut(s, cause))
    ensures Blocks(c, Keep(s, cause)) + Blocks(c, Cut(s, cause)) == Blocks(c, s)
    ensures |Keep(s, cause)| <= |s|
  {
    hide Hit, Block, Keep, Cut, Pooled;
    FilterIs(s, cause);
    KeepApart(c, s, cause);
  }

  lemma KnownProper(c: Config, s: State, key: Key)
    requires Sound(c) && Agreed(c, s)
    ensures Proper(c, Known(s, key)) && |Known(s, key)| <= c.maxPrefixes && Blocks(c, Known(s, key)) <= s.taken
  {
  }

  /** Filtering one client's record and freeing what was cut: a release, or one turn of the sweep. */
  lemma FilterKeeps(c: Config, s: State, key: Key, cause: Cause)
    requires Sound(c) && Agreed(c, s)
    ensures Agreed(c, State(Store(s.records, key, Keep(Known(s, key), cause)),
                            s.taken - Blocks(c, Cut(Known(s, key), cause))))
  {
    hide Agreed, Keep, Cut, Blocks, Proper, Store, Known;
    var known := Known(s, key);
    KnownProper(c, s, key);
    FilterBlocks(c, known, cause);
    var taken := s.taken - Blocks(c, Cut(known, cause));
    assert taken == (s.taken - Blocks(c, known)) + Blocks(c, Keep(known, cause));
    StoreKeeps(c, s, key, Keep(known, cause), taken);
  }

  lemma ReleaseKeeps(c: Config, s: State, key: Key, released: seq<Hint>)
    requires Sound(c) && Agreed(c, s)
    ensures Agreed(c, Release(c, s, key, released).0)
  {
    hide Agreed, Keep, Cut, Blocks, Store, Known;
    FilterKeeps(c, s, key, ListedIn(released));
  }

  lemma {:induction false} SweepKeeps(c: Config, s: State, order: seq<Key>, t: Time)
    requires Sound(c) && Agreed(c, s)
    ensures Agreed(c, Sweep(c, s, order, t))
  {
    hide Agreed, Keep, Cut, Blocks, Store, Known;
    if order != [] {
      var mid := Sweep(c, s, order[..|order| - 1], t);
      SweepKeeps(c, s, order[..|order| - 1], t);
      FilterKeeps(c, mid, order[|order| - 1], ExpiredAt(t));
    }
  }

  // ----- the passes over known leases ---------------------------------------------------------

  /** A lease as the matching leaves it: pushed out to a full duration if it was given out. */
  function Due(c: Config, l: Lease, given: bool, now: Time): Lease {
    if given && l.expire < now + c.duration then l.(expire := now + c.duration) else l
  }

  function OfferOf(c: Config, l: Lease, now: Time): Offer {
    Offer(l.prefix, Due(c, l, true, now).expire - now)
  }

  /** The exchange has given out some of the live leases, renewed those and no others, and answered with them. */
  ghost predicate Shape(c: Config, live: seq<Lease>, e: Exchange, now: Time) {
    && |e.leases| == |live|
    && (forall i :: 0 <= i < |live| ==> e.leases[i] == Due(c, live[i], i in e.givenOut, now))
    && Backed(c, live, e.givenOut, e.answer, now) && Told(c, live, e.givenOut, e.answer, now)
    && (e.satisfied != {} ==> e.answer != [])
  }

  /** Every offer in the answer is of a lease that was given out. */
  ghost predicate Backed(c: Config, live: seq<Lease>, given: set<nat>, answer: seq<Offer>, now: Time) {
    forall o :: o in answer ==> exists i :: i in given && i < |live| && o == OfferOf(c, live[i], now)
  }

  /** Every lease given out is in the answer. */
  ghost predicate Told(c: Config, live: seq<Lease>, given: set<nat>, answer: seq<Offer>, now: Time) {
    forall i :: i in given ==> i < |live| && OfferOf(c, live[i], now) in answer
  }

  lemma GrantShape(c: Config, live: seq<Lease>, e: Exchange, hint: nat, lease: nat, now: Time)
    requires Shape(c, live, e, now) && lease < |e.leases|
    ensures Shape(c, live, Grant(c, e, hint, lease, now), now)
  {
    hide Backed, Told;
    AnswersGrow(c, live, e.givenOut, e.answer, lease, now);
  }

  lemma AnswersGrow(c: Config, live: seq<Lease>, given: set<nat>, answer: seq<Offer>, lease: nat, now: Time)
    requires Backed(c, live, given, answer, now) && Told(c, live, given, answer, now) && lease < |live|
    ensures Backed(c, live, given + {lease}, answer + [OfferOf(c, live[lease], now)], now)
    ensures Told(c, live, given + {lease}, answer + [OfferOf(c, live[lease], now)], now)
  {
    BackedGrows(c, live, given, answer, lease, now);
    hide Backed;
  }

  lemma BackedGrows(c: Config, live: seq<Lease>, given: set<nat>, answer: seq<Offer>, lease: nat, now: Time)
    requires Backed(c, live, given, answer, now) && lease < |live|
    ensures Backed(c, live, given + {lease}, answer + [OfferOf(c, live[lease], now)], now)
  {
    hide OfferOf;
    var given', offer := given + {lease}, OfferOf(c, live[lease], now);
    forall o | o in answer + [offer] ensures exists i :: i in given' && i < |live| && o == OfferOf(c, live[i], now) {
      if o in answer {
        var i :| i in given && i < |live| && o == OfferOf(c, live[i], now);
        assert i in given';
      } else {
        assert lease in given';
      }
    }
  }

  lemma {:induction false} ExactLeasesShape(c: Config, live: seq<Lease>, e: Exchange, hints: seq<Hint>, i: nat, n: nat, now: Time)
    requires Shape(c, live, e, now) && i < |hints| && n <= |e.leases|
    ensures Shape(c, live, ExactLeases(c, e, hints, i, n, now), now)
  {
    hide Shape, Grant, Exact;
    if n > 0 {
      ExactLeasesShape(c, live, e, hints, i, n - 1, now);
      var r := ExactLeases(c, e, hints, i, n - 1, now);
      GrantShape(c, live, r, i, n - 1, now);
    }
  }

  lemma {:induction false} ExactPassShape(c: Config, live: seq<Lease>, e: Exchange, hints: seq<Hint>, n: nat, now: Time)
    requires Shape(c, live, e, now) && n <= |hints|
    ensures Shape(c, live, ExactPass(c, e, hints, n, now), now)
  {
    hide Shape, ExactLeases;
    if n > 0 {
      ExactPassShape(c, live, e, hints, n - 1, now);
      var r := ExactPass(c, e, hints, n - 1, now);
      ExactLeasesShape(c, live, r, hints, n - 1, |r.leases|, now);
    }
  }

  lemma {:induction false} RemainingLeasesShape(c: Config, live: seq<Lease>, e: Exchange, hints: seq<Hint>, i: nat, n: nat, now: Time)
    requires Shape(c, live, e, now) && i < |hints| && hints[i].Named? && n <= |e.leases|
    ensures Shape(c, live, RemainingLeases(c, e, hints, i, n, now), now)
  {
    hide Shape, Grant, Remaining;
    if n > 0 {
      RemainingLeasesShape(c, live, e, hints, i, n - 1, now);
      var r := RemainingLeases(c, e, hints, i, n - 1, now);
      GrantShape(c, live, r, i, n - 1, now);
    }
  }

  lemma {:induction false} RemainingPassShape(c: Config, live: seq<Lease>, e: Exchange, hints: seq<Hint>, n: nat, now: Time)
    requires Shape(c, live, e, now) && n <= |hints|
    ensures Shape(c, live, RemainingPass(c, e, hints, n, now), now)
  {
    hide Shape, RemainingLeases;
    if n > 0 {
      RemainingPassShape(c, live, e, hints, n - 1, now);
      var r := RemainingPass(c, e, hints, n - 1, now);
      if WantsAny(r, hints, n - 1) {
        RemainingLeasesShape(c, live, r, hints, n - 1, |r.leases|, now);
      }
    }
  }

  lemma MatchedShape(c: Config, live: seq<Lease>, hints: seq<Hint>, now: Time)
    ensures Shape(c, live, Matched(c, live, hints, now), now)
  {
    hide ExactPass, RemainingPass;
    var e := Exchange(live, {}, {}, []);
    assert Shape(c, live, e, now);
    ExactPassShape(c, live, e, hints, |hints|, now);
    RemainingPassShape(c, live, ExactPass(c, e, hints, |hints|, now), hints, |hints|, now);
  }

  /** Renewing changes no prefix. */
  lemma ShapeBlocks(c: Config, live: seq<Lease>, e: Exchange, now: Time)
    requires Sound(c) && Shape(c, live, e, now) && Proper(c, live)
    ensures Proper(c, e.leases) && Blocks(c, e.leases) == Blocks(c, live)
  {
    hide Block;
    assert forall i :: 0 <= i < |live| ==> e.leases[i].prefix == live[i].prefix;
    forall l | l in e.leases ensures Pooled(c, l) {
      var i :| 0 <= i < |live| && e.leases[i] == l;
      assert live[i] in live;
    }
    forall b | b in Blocks(c, live) ensures b in Blocks(c, e.leases) {
      var i :| 0 <= i < |live| && Block(c, live[i].prefix.ip) == b;
      assert e.leases[i] in e.leases;
    }
    forall b | b in Blocks(c, e.leases) ensures b in Blocks(c, live) {
      var i :| 0 <= i < |live| && Block(c, e.leases[i].prefix.ip) == b;
      assert live[i] in live;
    }
  }

  // ----- carving new prefixes -----------------------------------------------------------------

  /** What carving has added to where it started. */
  ghost predicate Carved(c: Config, v0: Carve, v: Carve, now: Time)
    requires Sound(c)
  {
    && v0.leases <= v.leases && v0.answer <= v.answer
    && |v.leases| - |v0.leases| == |v.answer| - |v0.answer|
    && (|v.leases| == |v0.leases| || |v.leases| <= c.maxPrefixes)
    && (forall i :: |v0.leases| <= i < |v.leases| ==> v.leases[i].expire == now + c.duration)
    && (forall i :: |v0.leases| <= i < |v.leases| ==>
      v.answer[i - |v0.leases| + |v0.answer|] == Offer(v.leases[i].prefix, c.duration))
  }

  /** The pool has moved by exactly the blocks of the new leases, none of which was taken. */
  ghost predicate Moved(c: Config, v0: Carve, v: Carve)
    requires Sound(c)
  {
    && Proper(c, v.leases) && Blocks(c, v.leases) <= v.taken
    && v.taken == v0.taken + Blocks(c, v.leases)
    && Blocks(c, v.leases) !! v0.taken - Blocks(c, v0.leases)
  }

  lemma BlocksGrow(c: Config, s: seq<Lease>, l: Lease)
    requires Sound(c)
    ensures Blocks(c, s + [l]) == Blocks(c, s) + {Block(c, l.prefix.ip)}
  {
    hide Block;
    assert forall m :: m in s + [l] <==> m in s || m == l;
    assert l in s + [l];
  }

  lemma ProperGrows(c: Config, s: seq<Lease>, l: Lease)
    requires Sound(c) && Proper(c, s) && Pooled(c, l) && Block(c, l.prefix.ip) !in Blocks(c, s)
    ensures Proper(c, s + [l])
  {
    hide Block, Pooled;
    forall i | 0 <= i < |s| ensures Block(c, s[i].prefix.ip) != Block(c, l.prefix.ip) {
      assert s[i] in s;
    }
  }

  lemma CarveOneKeeps(c: Config, v0: Carve, v: Carve, hint: Hint, now: Time)
    requires Sound(c) && Carved(c, v0, v, now)
    ensures Carved(c, v0, CarveOne(c, v, hint, now), now)
  {
    hide Pick, Ip, Length, AllocationHint;
    var r := CarveOne(c, v, hint, now);
    assert v.leases <= r.leases && v.answer <= r.answer;
  }

  lemma CarveOneMoves(c: Config, v0: Carve, v: Carve, hint: Hint, now: Time)
    requires Sound(c) && Moved(c, v0, v)
    ensures Moved(c, v0, CarveOne(c, v, hint, now))
  {
    hide Blocks, Proper, Block, AllocationHint;
    if |v.leases| < c.maxPrefixes {
      var (ask, _) := AllocationHint(v.recovered, hint);
      var r := Pick(c, v.taken, ask);
      if r.Some? {
        var l := Lease(Prefix(Ip(c, r.value), Length(c, ask)), now + c.duration);
        BlockOfIp(c, r.value);
        BlocksGrow(c, v.leases, l);
        ProperGrows(c, v.leases, l);
      }
    }
  }

  lemma {:induction false} CarvePassKeeps(c: Config, v: Carve, hints: seq<Hint>, satisfied: set<nat>, n: nat, now: Time)
    requires Sound(c) && n <= |hints|
    ensures Carved(c, v, CarvePass(c, v, hints, satisfied, n, now), now)
    ensures Moved(c, v, v) ==> Moved(c, v, CarvePass(c, v, hints, satisfied, n, now))
  {
    hide CarveOne, Moved;
    if n > 0 {
      CarvePassKeeps(c, v, hints, satisfied, n - 1, now);
      var r := CarvePass(c, v, hints, satisfied, n - 1, now);
      CarveOneKeeps(c, v, r, hints[n - 1], now);
      if Moved(c, v, r) {
        CarveOneMoves(c, v, r, hints[n - 1], now);
      }
    }
  }
}
