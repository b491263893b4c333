/**
 What one IA_PD exchange of `plugins/prefix` promises, and what every run of exchanges,
 releases and sweeps keeps.
 */
module PrefixExchange {
  import opened Arith
  import opened PrefixModel
  import opened PrefixPool

  function Live(s: State, key: Key, now: Time): seq<Lease> {
    Keep(Known(s, key), ExpiredAt(now))
  }

  function Lapsed(s: State, key: Key, now: Time): seq<Lease> {
    Cut(Known(s, key), ExpiredAt(now))
  }

  /** Where carving starts, and where it ends. */
  function Before(c: Config, s: State, key: Key, asked: seq<Hint>, now: Time): Carve
    requires Sound(c)
  {
    var e := Matched(c, Live(s, key, now), RequestedPrefixes(asked), now);
    Carve(e.leases, s.taken - Blocks(c, Lapsed(s, key, now)), Prefixes(Lapsed(s, key, now)), e.answer)
  }

  function After(c: Config, s: State, key: Key, asked: seq<Hint>, now: Time): Carve
    requires Sound(c)
  {
    var hints := RequestedPrefixes(asked);
    var e := Matched(c, Live(s, key, now), hints, now);
    CarvePass(c, Before(c, s, key, asked, now), hints, e.satisfied, |hints|, now)
  }

  lemma ReconcileIs(c: Config, s: State, key: Key, asked: seq<Hint>, now: Time)
    requires Sound(c)
    ensures var v := After(c, s, key, asked, now);
      Reconcile(c, s, key, asked, now) == (State(Store(s.records, key, v.leases), v.taken), v.answer)
    ensures Known(Reconcile(c, s, key, asked, now).0, key) == After(c, s, key, asked, now).leases
  {
    hide Matched, CarvePass, Blocks, Keep, Cut;
  }

  // ----- the pool --------------------------------------------------------------------------

  lemma PrefixBlocks(c: Config, a: seq<Lease>, b: seq<Lease>)
    requires Sound(c) && a <= b
    ensures Blocks(c, a) <= Blocks(c, b)
  {
    hide Block;
    forall l | l in a ensures l in b {
      var i :| 0 <= i < |a| && a[i] == l;
      assert b[i] == l;
    }
  }

  lemma BeforeMoved(c: Config, s: State, key: Key, asked: seq<Hint>, now: Time)
    requires Sound(c) && Agreed(c, s)
    ensures var v0 := Before(c, s, key, asked, now);
      && Moved(c, v0, v0) && |v0.leases| <= c.maxPrefixes
      && v0.taken - Blocks(c, v0.leases) == s.taken - Blocks(c, Known(s, key))
  {
    hide Blocks, Proper, Keep, Cut, Agreed, Matched, Shape;
    var known, live := Known(s, key), Live(s, key, now);
    KnownProper(c, s, key);
    FilterBlocks(c, known, ExpiredAt(now));
    var hints := RequestedPrefixes(asked);
    MatchedShape(c, live, hints, now);
    ShapeBlocks(c, live, Matched(c, live, hints, now), now);
  }

  /** An exchange keeps the pool and the records in agreement, and every client within its limit. */
  lemma ReconcileKeeps(c: Config, s: State, key: Key, asked: seq<Hint>, now: Time)
    requires Sound(c) && Agreed(c, s)
    ensures Agreed(c, Reconcile(c, s, key, asked, now).0)
  {
    hide Blocks, Proper, Agreed, Matched, CarvePass, Store, Known, Live, Lapsed, Before;
    var v0, v := Before(c, s, key, asked, now), After(c, s, key, asked, now);
    var hints := RequestedPrefixes(asked);
    ReconcileIs(c, s, key, asked, now);
    BeforeMoved(c, s, key, asked, now);
    CarvePassKeeps(c, v0, hints, Matched(c, Live(s, key, now), hints, now).satisfied, |hints|, now);
    PrefixBlocks(c, v0.leases, v.leases);
    StoreKeeps(c, s, key, v.leases, v.taken);
  }

  datatype Event =
    | Requested(key: Key, asked: seq<Hint>, now: Time)
    | Released(key: Key, released: seq<Hint>)
    | Swept(order: seq<Key>, t: Time)

  function Handle(c: Config, s: State, event: Event): State
    requires Sound(c)
  {
    match event
    case Requested(key, asked, now) => Reconcile(c, s, key, asked, now).0
    case Released(key, released) => Release(c, s, key, released).0
    case Swept(order, t) => Sweep(c, s, order, t)
  }

  function HandleAll(c: Config, s: State, events: seq<Event>): State
    requires Sound(c)
  {
    if events == [] then s else Handle(c, HandleAll(c, s, events[..|events| - 1]), events[|events| - 1])
  }

  /** After every run from an empty pool, taken blocks and recorded prefixes agree. */
  lemma {:induction false} RunsKeepThePool(c: Config, events: seq<Event>)
    requires Sound(c)
    ensures Agreed(c, HandleAll(c, State(map[], {}), events))
  {
    hide Reconcile, Release, Sweep, Blocks, Proper;
    if events != [] {
      var mid := HandleAll(c, State(map[], {}), events[..|events| - 1]);
      RunsKeepThePool(c, events[..|events| - 1]);
      match events[|events| - 1]
      case Requested(key, asked, now) => ReconcileKeeps(c, mid, key, asked, now);
      case Released(key, released) => ReleaseKeeps(c, mid, key, released);
      case Swept(order, t) => SweepKeeps(c, mid, order, t);
    }
  }

  // ----- what the client is told, and what it keeps -----------------------------------------------

  ghost predicate InRecord(leases: seq<Lease>, o: Offer, now: Time) {
    exists l :: l in leases && l.prefix == o.prefix && l.expire == now + o.lifetime
  }

  ghost predicate Survives(leases: seq<Lease>, l: Lease) {
    exists l' :: l' in leases && l'.prefix == l.prefix && l'.expire >= l.expire
  }

  /** Every prefix in the answer is recorded for as long as the answer says. */
  lemma AnswerIsRecorded(c: Config, s: State, key: Key, asked: seq<Hint>, now: Time)
    requires Sound(c)
    ensures var (s', answer) := Reconcile(c, s, key, asked, now);
      forall o :: o in answer ==> InRecord(Known(s', key), o, now)
  {
    hide Blocks, Matched, CarvePass, Keep, Cut, Store, Known, Told, Reconcile;
    var v0, v := Before(c, s, key, asked, now), After(c, s, key, asked, now);
    var hints, live := RequestedPrefixes(asked), Live(s, key, now);
    var e := Matched(c, live, hints, now);
    ReconcileIs(c, s, key, asked, now);
    MatchedShape(c, live, hints, now);
    CarvePassKeeps(c, v0, hints, e.satisfied, |hints|, now);
    forall o | o in v.answer ensures InRecord(v.leases, o, now) {
      var k :| 0 <= k < |v.answer| && v.answer[k] == o;
      if k < |v0.answer| {
        assert e.answer[k] == o && o in e.answer;
        var i :| i in e.givenOut && i < |live| && o == OfferOf(c, live[i], now);
        assert v.leases[i] == e.leases[i] && v.leases[i] in v.leases;
      } else {
        var i := k - |v0.answer| + |v0.leases|;
        assert v.leases[i] in v.leases;
      }
    }
  }

  /** Every lease that has not lapsed survives, and not for a shorter time. */
  lemma UnexpiredSurvives(c: Config, s: State, key: Key, asked: seq<Hint>, now: Time)
    requires Sound(c)
    ensures var (s', answer) := Reconcile(c, s, key, asked, now);
      forall l :: l in Known(s, key) && l.expire > now ==> Survives(Known(s', key), l)
  {
    hide Blocks, Matched, CarvePass, Keep, Cut, Store, Known, Told, Backed, Reconcile;
    var v0, v := Before(c, s, key, asked, now), After(c, s, key, asked, now);
    var hints, live := RequestedPrefixes(asked), Live(s, key, now);
    var e := Matched(c, live, hints, now);
    ReconcileIs(c, s, key, asked, now);
    FilterIs(Known(s, key), ExpiredAt(now));
    MatchedShape(c, live, hints, now);
    CarvePassKeeps(c, v0, hints, e.satisfied, |hints|, now);
    forall l | l in Known(s, key) && l.expire > now ensures Survives(v.leases, l) {
      assert l in live;
      var i :| 0 <= i < |live| && live[i] == l;
      assert v.leases[i] == e.leases[i] && v.leases[i] in v.leases;
    }
  }

  /** What is recorded afterwards was either still running, or was carved from a block that was free. */
  lemma NothingLapsedIsKept(c: Config, s: State, key: Key, asked: seq<Hint>, now: Time)
    requires Sound(c) && Agreed(c, s)
    ensures var s' := Reconcile(c, s, key, asked, now).0;
      forall l :: l in Known(s', key) ==>
        || (exists l0 :: l0 in Known(s, key) && l0.expire > now && l0.prefix == l.prefix && l0.expire <= l.expire)
        || (l.expire == now + c.duration && Block(c, l.prefix.ip) !in s.taken - Blocks(c, Lapsed(s, key, now)))
  {
    hide Blocks, Matched, CarvePass, Keep, Cut, Store, Known, Told, Backed, Block, Agreed, Pooled, Reconcile;
    var v0, v := Before(c, s, key, asked, now), After(c, s, key, asked, now);
    var hints, live := RequestedPrefixes(asked), Live(s, key, now);
    var e := Matched(c, live, hints, now);
    ReconcileIs(c, s, key, asked, now);
    FilterIs(Known(s, key), ExpiredAt(now));
    MatchedShape(c, live, hints, now);
    BeforeMoved(c, s, key, asked, now);
    CarvePassKeeps(c, v0, hints, e.satisfied, |hints|, now);
    forall i | 0 <= i < |v.leases| ensures
      var l := v.leases[i];
      || (exists l0 :: l0 in Known(s, key) && l0.expire > now && l0.prefix == l.prefix && l0.expire <= l.expire)
      || (l.expire == now + c.duration && Block(c, l.prefix.ip) !in v0.taken)
    {
      if i < |live| {
        assert v.leases[i] == e.leases[i] && live[i] in live;
      } else {
        NewBlockWasFree(c, v0, v, i);
      }
    }
  }

  lemma NewBlockWasFree(c: Config, v0: Carve, v: Carve, i: nat)
    requires Sound(c) && Moved(c, v0, v) && v0.leases <= v.leases && |v0.leases| <= i < |v.leases|
    ensures Block(c, v.leases[i].prefix.ip) !in v0.taken
  {
    hide Block, Pooled;
    var b := Block(c, v.leases[i].prefix.ip);
    assert v.leases[i] in v.leases;
    assert b in Blocks(c, v.leases);
    forall k | 0 <= k < |v0.leases| ensures Block(c, v0.leases[k].prefix.ip) != b {
      assert v.leases[k] == v0.leases[k];
    }
  }

  /** Nobody else's record is touched by an exchange or a release. */
  lemma OthersAreUntouched(c: Config, s: State, key: Key, asked: seq<Hint>, now: Time, other: Key)
    requires Sound(c) && other != key
    ensures Known(Reconcile(c, s, key, asked, now).0, other) == Known(s, other)
    ensures Known(Release(c, s, key, asked).0, other) == Known(s, other)
  {
    hide Matched, CarvePass, Keep, Cut, Blocks;
  }

  /** A release frees exactly what the client holds of the list, and answers NoBinding exactly when that is nothing. */
  lemma NoBindingExactlyWhen(c: Config, s: State, key: Key, released: seq<Hint>)
    requires Sound(c)
    ensures var (s', freed) := Release(c, s, key, released);
      && (freed == 0 <==> forall l :: l in Known(s, key) ==> !Listed(released, l))
      && (forall l :: l in Known(s', key) <==> l in Known(s, key) && !Listed(released, l))
      && |Known(s', key)| + freed == |Known(s, key)|
  {
    hide Keep, Cut, Listed, Blocks;
    FilterIs(Known(s, key), ListedIn(released));
    var cut := Cut(Known(s, key), ListedIn(released));
    assert cut != [] ==> cut[0] in cut;
  }

  // ----- the size of the answer ---------------------------------------------------------------------

  ghost predicate NamedAmong(live: seq<Lease>, hint: Hint, n: nat)
    requires n <= |live|
  {
    exists k :: 0 <= k < n && hint == Named(live[k].prefix)
  }

  lemma {:induction false} ExactLeasesCount(c: Config, live: seq<Lease>, e: Exchange, hints: seq<Hint>, i: nat, n: nat, now: Time)
    requires Sound(c) && Apart(c, live) && Shape(c, live, e, now) && i < |hints| && n <= |e.leases|
    ensures var r := ExactLeases(c, e, hints, i, n, now);
      |r.answer| <= |e.answer| + (if NamedAmong(live, hints[i], n) then 1 else 0)
  {
    hide Backed, Told;
    if n > 0 {
      ExactLeasesCount(c, live, e, hints, i, n - 1, now);
      ExactLeasesShape(c, live, e, hints, i, n - 1, now);
      var r := ExactLeases(c, e, hints, i, n - 1, now);
      assert r.leases[n - 1].prefix == live[n - 1].prefix;
      if Exact(r, hints[i], n - 1) {
        assert !NamedAmong(live, hints[i], n - 1);
        assert NamedAmong(live, hints[i], n);
      }
    }
  }

  lemma {:induction false} ExactPassCount(c: Config, live: seq<Lease>, e: Exchange, hints: seq<Hint>, n: nat, now: Time)
    requires Sound(c) && Apart(c, live) && Shape(c, live, e, now) && n <= |hints|
    ensures |ExactPass(c, e, hints, n, now).answer| <= |e.answer| + n
  {
    hide Shape, ExactLeases, Apart;
    if n > 0 {
      ExactPassCount(c, live, e, hints, n - 1, now);
      ExactPassShape(c, live, e, hints, n - 1, now);
      var r := ExactPass(c, e, hints, n - 1, now);
      ShapeSize(c, live, r, now);
      ExactLeasesCount(c, live, r, hints, n - 1, |r.leases|, now);
    }
  }

  lemma ShapeSize(c: Config, live: seq<Lease>, e: Exchange, now: Time)
    requires Shape(c, live, e, now)
    ensures |e.leases| == |live| && forall i :: i in e.givenOut ==> i < |live|
  {
  }

  lemma {:induction false} RemainingLeasesCount(c: Config, e: Exchange, hints: seq<Hint>, i: nat, n: nat, now: Time)
    requires i < |hints| && hints[i].Named? && n <= |e.leases|
    ensures var r := RemainingLeases(c, e, hints, i, n, now);
      |r.answer| - |e.answer| == |r.givenOut| - |e.givenOut|
  {
    if n > 0 {
      RemainingLeasesCount(c, e, hints, i, n - 1, now);
    }
  }

  lemma {:induction false} RemainingPassCount(c: Config, e: Exchange, hints: seq<Hint>, n: nat, now: Time)
    requires n <= |hints|
    ensures var r := RemainingPass(c, e, hints, n, now);
      |r.answer| - |e.answer| == |r.givenOut| - |e.givenOut|
  {
    hide RemainingLeases;
    if n > 0 {
      RemainingPassCount(c, e, hints, n - 1, now);
      var r := RemainingPass(c, e, hints, n - 1, now);
      if WantsAny(r, hints, n - 1) {
        RemainingLeasesCount(c, r, hints, n - 1, |r.leases|, now);
      }
    }
  }

  lemma {:induction false} BelowSize(s: set<nat>, n: nat)
    requires forall i :: i in s ==> i < n
    ensures |s| <= n
  {
    if n > 0 {
      BelowSize(s - {n - 1}, n - 1);
    } else {
      assert s == {};
    }
  }

  lemma MatchedCount(c: Config, live: seq<Lease>, hints: seq<Hint>, now: Time)
    requires Sound(c) && Apart(c, live)
    ensures |Matched(c, live, hints, now).answer| <= |hints| + |live|
  {
    hide ExactPass, RemainingPass, Apart;
    var e := Exchange(live, {}, {}, []);
    assert Shape(c, live, e, now);
    var first := ExactPass(c, e, hints, |hints|, now);
    ExactPassCount(c, live, e, hints, |hints|, now);
    RemainingPassCount(c, first, hints, |hints|, now);
    var second := RemainingPass(c, first, hints, |hints|, now);
    MatchedShape(c, live, hints, now);
    ShapeSize(c, live, second, now);
    BelowSize(second.givenOut, |live|);
  }

  /** An answer never holds more prefixes than the hints considered and the client's limit together. */
  lemma AnswerIsBounded(c: Config, s: State, key: Key, asked: seq<Hint>, now: Time)
    requires Sound(c) && Agreed(c, s)
    ensures |Reconcile(c, s, key, asked, now).1| <= MAX_HINTS + c.maxPrefixes
  {
    hide Blocks, Agreed, Matched, CarvePass, Keep, Cut, Store, Known, Apart, AllPooled, Reconcile;
    var v0 := Before(c, s, key, asked, now);
    var hints, live := RequestedPrefixes(asked), Live(s, key, now);
    ReconcileIs(c, s, key, asked, now);
    KnownProper(c, s, key);
    FilterBlocks(c, Known(s, key), ExpiredAt(now));
    MatchedCount(c, live, hints, now);
    CarvePassKeeps(c, v0, hints, Matched(c, live, hints, now).satisfied, |hints|, now);
  }

  // ----- refusal ------------------------------------------------------------------------------------

  /** A lease the client still holds can serve a hint. */
  predicate Serves(hint: Hint, l: Lease) {
    && hint.Named?
    && (hint.prefix == l.prefix || (hint.prefix.ip == 0 && (hint.prefix.len == 0 || hint.prefix.len == l.prefix.len)))
  }

  /** One hint's round of the first pass leaves the answer empty exactly when nothing matched, and then changes nothing. */
  lemma {:induction false} ExactLeasesFinds(c: Config, live: seq<Lease>, e: Exchange, hints: seq<Hint>, i: nat, n: nat, now: Time)
    requires Shape(c, live, e, now) && i < |hints| && n <= |e.leases|
    ensures var r := ExactLeases(c, e, hints, i, n, now);
      && (r.answer == [] <==> e.answer == [] && forall k :: 0 <= k < n ==> hints[i] != Named(live[k].prefix))
      && (r.answer == [] ==> r == e)
  {
    hide Backed, Told;
    if n > 0 {
      ExactLeasesFinds(c, live, e, hints, i, n - 1, now);
      ExactLeasesShape(c, live, e, hints, i, n - 1, now);
    }
  }

  lemma {:induction false} ExactPassFinds(c: Config, live: seq<Lease>, e: Exchange, hints: seq<Hint>, n: nat, now: Time)
    requires Shape(c, live, e, now) && n <= |hints|
    ensures var r := ExactPass(c, e, hints, n, now);
      && (r.answer == [] <==> (e.answer == [] &&
        forall i, k :: 0 <= i < n && 0 <= k < |live| ==> hints[i] != Named(live[k].prefix)))
      && (r.answer == [] ==> r == e)
  {
    hide Shape, ExactLeases;
    if n > 0 {
      ExactPassFinds(c, live, e, hints, n - 1, now);
      ExactPassShape(c, live, e, hints, n - 1, now);
      var r := ExactPass(c, e, hints, n - 1, now);
      ShapeSize(c, live, r, now);
      ExactLeasesFinds(c, live, r, hints, n - 1, |r.leases|, now);
    }
  }

  /** Whether a hint that takes any prefix could take this one. */
  predicate AnyFits(hint: Hint, l: Lease) {
    hint.Named? && hint.prefix.ip == 0 && (hint.prefix.len == 0 || hint.prefix.len == l.prefix.len)
  }

  lemma {:induction false} RemainingLeasesFinds(c: Config, live: seq<Lease>, e: Exchange, hints: seq<Hint>, i: nat, n: nat, now: Time)
    requires Shape(c, live, e, now) && i < |hints| && hints[i].Named? && hints[i].prefix.ip == 0 && n <= |e.leases|
    ensures var r := RemainingLeases(c, e, hints, i, n, now);
      && (r.answer == [] <==> e.answer == [] && forall k :: 0 <= k < n ==> !AnyFits(hints[i], live[k]))
      && (r.answer == [] ==> r == e)
  {
    hide Backed;
    if n > 0 {
      RemainingLeasesFinds(c, live, e, hints, i, n - 1, now);
      RemainingLeasesShape(c, live, e, hints, i, n - 1, now);
    }
  }

  lemma {:induction false} RemainingPassFinds(c: Config, live: seq<Lease>, e: Exchange, hints: seq<Hint>, n: nat, now: Time)
    requires Shape(c, live, e, now) && n <= |hints|
    ensures var r := RemainingPass(c, e, hints, n, now);
      && (r.answer == [] <==> (e.answer == [] &&
        forall i, k :: 0 <= i < n && 0 <= k < |live| ==> !AnyFits(hints[i], live[k])))
      && (r.answer == [] ==> r == e)
  {
    hide Backed, Told, RemainingLeases;
    if n > 0 {
      RemainingPassFinds(c, live, e, hints, n - 1, now);
      RemainingPassShape(c, live, e, hints, n - 1, now);
      var r := RemainingPass(c, e, hints, n - 1, now);
      if WantsAny(r, hints, n - 1) {
        RemainingLeasesFinds(c, live, r, hints, n - 1, |r.leases|, now);
      }
    }
  }

  ghost predicate NothingServes(hints: seq<Hint>, live: seq<Lease>) {
    forall i, k :: 0 <= i < |hints| && 0 <= k < |live| ==> !Serves(hints[i], live[k])
  }

  lemma MatchedFinds(c: Config, live: seq<Lease>, hints: seq<Hint>, now: Time)
    ensures var e := Matched(c, live, hints, now);
      && (e.answer == [] <==> NothingServes(hints, live))
      && (e.answer == [] ==> e == Exchange(live, {}, {}, []))
  {
    hide ExactPass, RemainingPass;
    var e := Exchange(live, {}, {}, []);
    assert Shape(c, live, e, now);
    ExactPassShape(c, live, e, hints, |hints|, now);
    ExactPassFinds(c, live, e, hints, |hints|, now);
    RemainingPassFinds(c, live, ExactPass(c, e, hints, |hints|, now), hints, |hints|, now);
  }

  ghost predicate Stuck(c: Config, v: Carve)
    requires Sound(c)
  {
    |v.leases| >= c.maxPrefixes || forall b: nat :: b < c.count ==> b in v.taken
  }

  lemma CarveOneStuck(c: Config, v: Carve, hint: Hint, now: Time)
    requires Sound(c)
    ensures var r := CarveOne(c, v, hint, now);
      && |r.answer| >= |v.answer|
      && (Stuck(c, v) <==> |r.answer| == |v.answer|)
      && (Stuck(c, v) ==> r == v.(recovered := r.recovered))
  {
    hide Ip, Length;
  }

  lemma {:induction false} CarvePassStuck(c: Config, v: Carve, hints: seq<Hint>, n: nat, now: Time)
    requires Sound(c) && 1 <= n <= |hints|
    ensures var r := CarvePass(c, v, hints, {}, n, now);
      && |r.answer| >= |v.answer|
      && (Stuck(c, v) <==> |r.answer| == |v.answer|)
      && (Stuck(c, v) ==> r == v.(recovered := r.recovered))
  {
    hide CarveOne;
    if n == 1 {
      assert CarvePass(c, v, hints, {}, 0, now) == v;
      CarveOneStuck(c, v, hints[0], now);
    } else {
      CarvePassStuck(c, v, hints, n - 1, now);
      CarveOneStuck(c, CarvePass(c, v, hints, {}, n - 1, now), hints[n - 1], now);
    }
  }

  /**
   NoPrefixAvail is answered exactly when no lease still held serves any hint, and the
   client is at its limit or no block is left once its own lapsed ones are back.
   */
  lemma RefusedExactlyWhen(c: Config, s: State, key: Key, asked: seq<Hint>, now: Time)
    requires Sound(c)
    ensures Reconcile(c, s, key, asked, now).1 == [] <==>
      && NothingServes(RequestedPrefixes(asked), Live(s, key, now))
      && (|Live(s, key, now)| >= c.maxPrefixes
          || forall b: nat :: b < c.count ==> b in s.taken - Blocks(c, Lapsed(s, key, now)))
  {
    hide Blocks, Matched, CarvePass, Keep, Cut, Store, Known, NothingServes, Reconcile, RequestedPrefixes;
    var v0 := Before(c, s, key, asked, now);
    var hints, live := RequestedPrefixes(asked), Live(s, key, now);
    ReconcileIs(c, s, key, asked, now);
    MatchedFinds(c, live, hints, now);
    var e := Matched(c, live, hints, now);
    CarvePassKeeps(c, v0, hints, e.satisfied, |hints|, now);
    CarvePassStuck(c, v0, hints, |hints|, now);
  }

  /** A client that comes back late, asking for nothing in particular, gets its old prefix again. */
  lemma LateClientKeepsItsPrefix(c: Config, s: State, key: Key, now: Time)
    requires Sound(c) && Agreed(c, s) && key in s.records && c.maxPrefixes >= 1
    requires forall l :: l in s.records[key] ==> l.expire <= now
    ensures var mine := s.records[key][0].prefix;
      && Reconcile(c, s, key, [], now).1 == [Offer(mine, c.duration)]
      && Known(Reconcile(c, s, key, [], now).0, key) == [Lease(mine, now + c.duration)]
  {
    hide Blocks, Matched, CarvePass, Store, Reconcile, Pick, Block;
    var known, live, lapsed := s.records[key], Live(s, key, now), Lapsed(s, key, now);
    AllCut(known, ExpiredAt(now));
    ReconcileIs(c, s, key, [], now);
    MatchedFinds(c, [], [Empty], now);
    var v0 := Before(c, s, key, [], now);
    CarveFirst(c, v0, now);
    assert known[0] in known && Pooled(c, known[0]);
    assert Prefixes(known)[0] == known[0].prefix;
    BlockOfMember(c, known, known[0]);
    CarveRecovered(c, v0, known[0].prefix, now);
  }

  lemma BlockOfMember(c: Config, s: seq<Lease>, l: Lease)
    requires Sound(c) && l in s
    ensures Block(c, l.prefix.ip) in Blocks(c, s)
  {
  }

  lemma {:induction false} AllCut(s: seq<Lease>, cause: Cause)
    requires forall l :: l in s ==> Hit(cause, l)
    ensures Keep(s, cause) == [] && Cut(s, cause) == s
  {
    hide Hit;
    if s != [] {
      AllCut(s[..|s| - 1], cause);
      assert s[|s| - 1] in s;
    }
  }

  lemma CarveFirst(c: Config, v: Carve, now: Time)
    requires Sound(c)
    ensures CarvePass(c, v, [Empty], {}, 1, now) == CarveOne(c, v, Empty, now)
  {
    hide CarveOne;
    assert CarvePass(c, v, [Empty], {}, 0, now) == v;
  }

  lemma CarveRecovered(c: Config, v: Carve, p: Prefix, now: Time)
    requires Sound(c) && |v.leases| < c.maxPrefixes && v.recovered != [] && v.recovered[0] == p
    requires Pooled(c, Lease(p, now)) && Block(c, p.ip) !in v.taken
    ensures var r := CarveOne(c, v, Empty, now);
      r.leases == v.leases + [Lease(p, now + c.duration)] && r.answer == v.answer + [Offer(p, c.duration)]
  {
    hide Block;
    BlockIn(c, p);
  }

  lemma BlockIn(c: Config, p: Prefix)
    requires Sound(c) && Pooled(c, Lease(p, 0))
    ensures Contains(c, p.ip)
  {
    hide Block;
    var b := Block(c, p.ip);
    Scaled(c.unit, b + 1, c.count);
    assert c.unit * (b + 1) == b * c.unit + c.unit;
  }

  // ----- the sweep ------------------------------------------------------------------------------------

  /** What a record is after a sweep: its unexpired leases. */
  lemma {:induction false} SweepLeaves(c: Config, s: State, order: seq<Key>, t: Time, key: Key)
    requires Sound(c)
    ensures Known(Sweep(c, s, order, t), key) ==
      if key in order then Keep(Known(s, key), ExpiredAt(t)) else Known(s, key)
  {
    hide Blocks, Keep, Cut;
    if order != [] {
      var n := |order| - 1;
      SweepLeaves(c, s, order[..n], t, key);
      assert order == order[..n] + [order[n]];
      KeepTwice(Known(s, key), ExpiredAt(t));
    }
  }

  lemma {:induction false} KeepTwice(s: seq<Lease>, cause: Cause)
    ensures Keep(Keep(s, cause), cause) == Keep(s, cause)
  {
    hide Hit;
    if s != [] {
      var init, l := s[..|s| - 1], s[|s| - 1];
      KeepTwice(init, cause);
      if !Hit(cause, l) {
        assert (Keep(init, cause) + [l])[..|Keep(init, cause)|] == Keep(init, cause);
      }
    }
  }

  /** A full sweep leaves no lapsed delegation and no block taken for one. */
  lemma SweptClean(c: Config, s: State, order: seq<Key>, t: Time)
    requires Sound(c) && Agreed(c, s) && forall k :: k in s.records ==> k in order
    ensures var s' := Sweep(c, s, order, t);
      && Agreed(c, s') && (forall k, l :: k in s'.records && l in s'.records[k] ==> l.expire > t)
      && (forall b :: b in s'.taken <==>
        exists k, l :: k in s.records && l in s.records[k] && Block(c, l.prefix.ip) == b && l.expire > t)
  {
    hide Sweep, Keep;
    SweepKeeps(c, s, order, t);
    var s' := Sweep(c, s, order, t);
    forall k ensures Known(s', k) == Keep(Known(s, k), ExpiredAt(t)) {
      SweepLeaves(c, s, order, t, k);
      NothingKept(ExpiredAt(t));
    }
    forall k ensures forall l :: l in Known(s', k) <==> l in Known(s, k) && l.expire > t {
      FilterIs(Known(s, k), ExpiredAt(t));
    }
    SweptBlocks(c, s, s', t);
  }

  lemma NothingKept(cause: Cause)
    ensures Keep([], cause) == []
  {
  }

  lemma SweptBlocks(c: Config, s: State, s': State, t: Time)
    requires Sound(c) && Agreed(c, s) && Agreed(c, s')
    requires forall k, l :: l in Known(s', k) <==> l in Known(s, k) && l.expire > t
    ensures forall k, l :: k in s'.records && l in s'.records[k] ==> l.expire > t
    ensures forall b :: b in s'.taken <==>
      exists k, l :: k in s.records && l in s.records[k] && Block(c, l.prefix.ip) == b && l.expire > t
  {
    hide Block;
    forall k, l | k in s'.records && l in s'.records[k] ensures l.expire > t {
      assert l in Known(s', k);
    }
    forall b | b in s'.taken ensures
      exists k, l :: k in s.records && l in s.records[k] && Block(c, l.prefix.ip) == b && l.expire > t
    {
      var k :| k in s'.records && b in Blocks(c, s'.records[k]);
      var l :| l in s'.records[k] && Block(c, l.prefix.ip) == b;
      assert l in Known(s', k) && l in Known(s, k);
    }
    forall k, l | k in s.records && l in s.records[k] && l.expire > t ensures Block(c, l.prefix.ip) in s'.taken {
      assert l in Known(s, k) && l in Known(s', k);
    }
  }

  lemma ApartInit(c: Config, s: seq<Lease>)
    requires Sound(c) && Apart(c, s) && s != []
    ensures var n := |s| - 1; Apart(c, s[..n]) && Block(c, s[n].prefix.ip) !in Blocks(c, s[..n])
  {
    hide Block;
    var n := |s| - 1;
    forall i | 0 <= i < n ensures Block(c, s[..n][i].prefix.ip) != Block(c, s[n].prefix.ip) {
      assert s[..n][i] == s[i];
    }
  }

  lemma {:induction false} BlocksCount(c: Config, s: seq<Lease>)
    requires Sound(c) && Apart(c, s)
    ensures |Blocks(c, s)| == |s|
  {
    hide Block, Blocks, Apart;
    if s == [] {
      NoBlocks(c);
    } else {
      var init, l := s[..|s| - 1], s[|s| - 1];
      ApartInit(c, s);
      BlocksCount(c, init);
      BlocksGrow(c, init, l);
      assert s == init + [l];
    }
  }

  lemma {:induction false} CutApart(c: Config, s: seq<Lease>, cause: Cause)
    requires Sound(c) && Apart(c, s)
    ensures Apart(c, Cut(s, cause))
  {
    hide Hit, Block;
    if s != [] {
      var init, l := s[..|s| - 1], s[|s| - 1];
      CutApart(c, init, cause);
      FilterIs(init, cause);
      var cut := Cut(init, cause);
      forall i | 0 <= i < |cut| ensures Block(c, cut[i].prefix.ip) != Block(c, l.prefix.ip) {
        assert cut[i] in init;
        var j :| 0 <= j < |init| && init[j] == cut[i];
        assert s[j] == init[j];
      }
    }
  }

  /** The count a sweep reports is the number of blocks that came back to the pool. */
  lemma {:induction false} SweepCountIsFreed(c: Config, s: State, order: seq<Key>, t: Time)
    requires Sound(c) && Agreed(c, s)
    ensures SweepCount(c, s, order, t) == |s.taken| - |Sweep(c, s, order, t).taken|
  {
    hide Agreed, Keep, Cut, Blocks, Store, Known, Apart, AllPooled;
    if order != [] {
      var n := |order| - 1;
      var mid := Sweep(c, s, order[..n], t);
      SweepCountIsFreed(c, s, order[..n], t);
      SweepKeeps(c, s, order[..n], t);
      var known := Known(mid, order[n]);
      KnownProper(c, mid, order[n]);
      FilterBlocks(c, known, ExpiredAt(t));
      CutApart(c, known, ExpiredAt(t));
      var gone := Blocks(c, Cut(known, ExpiredAt(t)));
      BlocksCount(c, Cut(known, ExpiredAt(t)));
      assert mid.taken == (mid.taken - gone) + gone;
    }
  }
}
