/**
 Who gets what in one IA_PD exchange, said from the hints and the client's unexpired
 leases alone: which leases are given out, which hints are served by them, and how many
 new prefixes the rest are given.
 */
module PrefixMatch {
  import opened Wrappers
  import opened PrefixModel
  import opened PrefixPool
  import opened PrefixExchange

  /** A hint that names the lease's very prefix. */
  predicate Names(h: Hint, l: Lease) {
    h == Named(l.prefix)
  }

  /** A hint for any prefix, of any length or of the lease's. */
  predicate Fits(h: Hint, l: Lease) {
    h.Named? && h.prefix.ip == 0 && (h.prefix.len == 0 || h.prefix.len == l.prefix.len)
  }

  /** A hint that names one of the leases. */
  ghost predicate NamesOne(hints: seq<Hint>, live: seq<Lease>, i: nat)
    requires i < |hints|
  {
    exists k :: 0 <= k < |live| && Names(hints[i], live[k])
  }

  ghost predicate IsNamed(hints: seq<Hint>, n: nat, l: Lease)
    requires n <= |hints|
  {
    exists i :: 0 <= i < n && Names(hints[i], l)
  }

  /** A hint for any prefix, not named one, takes every fitting lease nobody has been given yet. */
  ghost predicate Sweeps(hints: seq<Hint>, live: seq<Lease>, i: nat)
    requires i < |hints|
  {
    hints[i].Named? && hints[i].prefix.ip == 0 && !NamesOne(hints, live, i)
  }

  /** The leases given out once the first n hints for any prefix have had their turn. */
  ghost predicate Given(hints: seq<Hint>, live: seq<Lease>, n: nat, l: Lease)
    requires n <= |hints|
  {
    IsNamed(hints, |hints|, l) || exists i :: 0 <= i < n && Sweeps(hints, live, i) && Fits(hints[i], l)
  }

  /** A hint one of the leases serves. */
  ghost predicate Served(hints: seq<Hint>, live: seq<Lease>, i: nat)
    requires i < |hints|
  {
    || NamesOne(hints, live, i)
    || (Sweeps(hints, live, i) && exists k :: 0 <= k < |live| && Fits(hints[i], live[k]) && !Given(hints, live, i, live[k]))
  }

  // ----- the first pass -------------------------------------------------------------------------

  ghost predicate SamePrefixes(live: seq<Lease>, e: Exchange) {
    |e.leases| == |live| && forall k :: 0 <= k < |live| ==> e.leases[k].prefix == live[k].prefix
  }

  /** Where the first pass is after n hints, and m leases of the next. */
  ghost predicate FirstPass(hints: seq<Hint>, live: seq<Lease>, e: Exchange, n: nat, m: nat)
    requires n <= |hints| && m <= |live| && (n == |hints| ==> m == 0)
  {
    && SamePrefixes(live, e)
    && (forall k: nat :: k in e.givenOut <==>
          k < |live| && (IsNamed(hints, n, live[k]) || (k < m && Names(hints[n], live[k]))))
    && (forall i: nat :: i in e.satisfied <==>
          || (i < n && NamesOne(hints, live, i))
          || (i == n && n < |hints| && exists k :: 0 <= k < m && Names(hints[n], live[k])))
  }

  lemma FirstStep(c: Config, hints: seq<Hint>, live: seq<Lease>, e: Exchange, n: nat, m: nat, now: Time)
    requires n < |hints| && m < |live| && FirstPass(hints, live, e, n, m)
    ensures var r := if Exact(e, hints[n], m) then Grant(c, e, n, m, now) else e;
      FirstPass(hints, live, r, n, m + 1)
  {
    hide NamesOne, IsNamed;
    var r := if Exact(e, hints[n], m) then Grant(c, e, n, m, now) else e;
    assert Exact(e, hints[n], m) <==> Names(hints[n], live[m]);
    forall i: nat ensures i in r.satisfied <==>
      || (i < n && NamesOne(hints, live, i))
      || (i == n && n < |hints| && exists k :: 0 <= k < m + 1 && Names(hints[n], live[k]))
    {
      assert (exists k :: 0 <= k < m + 1 && Names(hints[n], live[k])) <==>
        (exists k :: 0 <= k < m && Names(hints[n], live[k])) || Names(hints[n], live[m]);
    }
  }

  lemma {:induction false} FirstLeases(c: Config, hints: seq<Hint>, live: seq<Lease>, e: Exchange, n: nat, m: nat, now: Time)
    requires n < |hints| && m <= |live| && FirstPass(hints, live, e, n, 0)
    ensures FirstPass(hints, live, ExactLeases(c, e, hints, n, m, now), n, m)
  {
    hide FirstPass, Exact, Grant;
    FirstSize(hints, live, e, n, 0);
    if m > 0 {
      FirstLeases(c, hints, live, e, n, m - 1, now);
      FirstStep(c, hints, live, ExactLeases(c, e, hints, n, m - 1, now), n, m - 1, now);
    }
  }

  lemma FirstSize(hints: seq<Hint>, live: seq<Lease>, e: Exchange, n: nat, m: nat)
    requires n <= |hints| && m <= |live| && (n == |hints| ==> m == 0) && FirstPass(hints, live, e, n, m)
    ensures |e.leases| == |live|
  {
  }

  /** One hint done. */
  lemma FirstTurn(hints: seq<Hint>, live: seq<Lease>, e: Exchange, n: nat)
    requires n < |hints| && FirstPass(hints, live, e, n, |live|)
    ensures FirstPass(hints, live, e, n + 1, 0)
  {
    forall k | 0 <= k < |live| ensures IsNamed(hints, n + 1, live[k]) <==> IsNamed(hints, n, live[k]) || Names(hints[n], live[k]) {
    }
  }

  lemma {:induction false} FirstHints(c: Config, hints: seq<Hint>, live: seq<Lease>, n: nat, now: Time)
    requires n <= |hints|
    ensures FirstPass(hints, live, ExactPass(c, Exchange(live, {}, {}, []), hints, n, now), n, 0)
  {
    hide FirstPass, ExactLeases;
    var e := Exchange(live, {}, {}, []);
    if n == 0 {
      FirstStart(hints, live);
    } else {
      FirstHints(c, hints, live, n - 1, now);
      var r := ExactPass(c, e, hints, n - 1, now);
      FirstSize(hints, live, r, n - 1, 0);
      FirstLeases(c, hints, live, r, n - 1, |live|, now);
      FirstTurn(hints, live, ExactLeases(c, r, hints, n - 1, |live|, now), n - 1);
    }
  }

  lemma FirstStart(hints: seq<Hint>, live: seq<Lease>)
    ensures FirstPass(hints, live, Exchange(live, {}, {}, []), 0, 0)
  {
  }

  // ----- the second pass ---------------------------------------------------------------------------

  ghost predicate SecondPass(hints: seq<Hint>, live: seq<Lease>, e: Exchange, n: nat)
    requires n <= |hints|
  {
    && SamePrefixes(live, e)
    && (forall k: nat :: k in e.givenOut <==> k < |live| && Given(hints, live, n, live[k]))
    && (forall i: nat :: i in e.satisfied <==> i < |hints| && (NamesOne(hints, live, i) || (i < n && Served(hints, live, i))))
  }

  lemma SecondStart(hints: seq<Hint>, live: seq<Lease>, e: Exchange)
    requires FirstPass(hints, live, e, |hints|, 0)
    ensures SecondPass(hints, live, e, 0)
  {
    hide NamesOne, IsNamed;
  }

  /** One hint's turn, m leases into it. */
  ghost predicate Turn(hints: seq<Hint>, live: seq<Lease>, e: Exchange, r: Exchange, n: nat, m: nat)
    requires n < |hints| && m <= |live|
  {
    && SamePrefixes(live, r)
    && (forall k: nat :: k in r.givenOut <==> k in e.givenOut || (k < m && Fits(hints[n], live[k])))
    && (forall i: nat :: i in r.satisfied <==>
          i in e.satisfied || (i == n && exists k :: 0 <= k < m && Fits(hints[n], live[k]) && k !in e.givenOut))
  }

  lemma TurnStep(c: Config, hints: seq<Hint>, live: seq<Lease>, e: Exchange, r: Exchange, n: nat, m: nat, now: Time)
    requires n < |hints| && m < |live| && hints[n].Named? && hints[n].prefix.ip == 0 && Turn(hints, live, e, r, n, m)
    ensures var q := if Remaining(r, hints[n], m) then Grant(c, r, n, m, now) else r;
      Turn(hints, live, e, q, n, m + 1)
  {
    var q := if Remaining(r, hints[n], m) then Grant(c, r, n, m, now) else r;
    assert Remaining(r, hints[n], m) <==> m !in e.givenOut && Fits(hints[n], live[m]);
    forall i: nat ensures i in q.satisfied <==>
      i in e.satisfied || (i == n && exists k :: 0 <= k < m + 1 && Fits(hints[n], live[k]) && k !in e.givenOut)
    {
      assert (exists k :: 0 <= k < m + 1 && Fits(hints[n], live[k]) && k !in e.givenOut) <==>
        (exists k :: 0 <= k < m && Fits(hints[n], live[k]) && k !in e.givenOut) || (Fits(hints[n], live[m]) && m !in e.givenOut);
    }
  }

  lemma {:induction false} TurnLeases(c: Config, hints: seq<Hint>, live: seq<Lease>, e: Exchange, n: nat, m: nat, now: Time)
    requires n < |hints| && m <= |live| && hints[n].Named? && hints[n].prefix.ip == 0 && SamePrefixes(live, e)
    ensures Turn(hints, live, e, RemainingLeases(c, e, hints, n, m, now), n, m)
  {
    hide Turn, Remaining, Grant;
    if m > 0 {
      TurnLeases(c, hints, live, e, n, m - 1, now);
      TurnStep(c, hints, live, e, RemainingLeases(c, e, hints, n, m - 1, now), n, m - 1, now);
    } else {
      TurnStart(hints, live, e, n);
    }
  }

  lemma TurnStart(hints: seq<Hint>, live: seq<Lease>, e: Exchange, n: nat)
    requires n < |hints| && SamePrefixes(live, e)
    ensures Turn(hints, live, e, e, n, 0)
  {
  }

  /** A hint that has its turn. */
  lemma SecondTurn(hints: seq<Hint>, live: seq<Lease>, e: Exchange, r: Exchange, n: nat)
    requires n < |hints| && SecondPass(hints, live, e, n) && Sweeps(hints, live, n) && Turn(hints, live, e, r, n, |live|)
    ensures SecondPass(hints, live, r, n + 1)
  {
    hide NamesOne, IsNamed, SamePrefixes;
    forall k | 0 <= k < |live|
      ensures Given(hints, live, n + 1, live[k]) <==> Given(hints, live, n, live[k]) || Fits(hints[n], live[k])
    {
    }
    assert Served(hints, live, n) <==>
      (NamesOne(hints, live, n) || exists k :: 0 <= k < |live| && Fits(hints[n], live[k]) && k !in e.givenOut);
  }

  /** A hint that has none. */
  lemma SecondSkips(hints: seq<Hint>, live: seq<Lease>, e: Exchange, n: nat)
    requires n < |hints| && SecondPass(hints, live, e, n) && !Sweeps(hints, live, n)
    ensures SecondPass(hints, live, e, n + 1)
  {
    hide NamesOne, IsNamed, SamePrefixes;
    forall k | 0 <= k < |live| ensures Given(hints, live, n + 1, live[k]) <==> Given(hints, live, n, live[k]) {
    }
  }

  lemma WantsAnyIs(hints: seq<Hint>, live: seq<Lease>, e: Exchange, n: nat)
    requires n < |hints| && SecondPass(hints, live, e, n)
    ensures WantsAny(e, hints, n) <==> Sweeps(hints, live, n)
    ensures SamePrefixes(live, e)
  {
    hide NamesOne;
  }

  lemma {:induction false} SecondHints(c: Config, hints: seq<Hint>, live: seq<Lease>, e: Exchange, n: nat, now: Time)
    requires n <= |hints| && SecondPass(hints, live, e, 0)
    ensures SecondPass(hints, live, RemainingPass(c, e, hints, n, now), n)
  {
    hide SecondPass, RemainingLeases, WantsAny, Sweeps, Turn, SamePrefixes;
    if n > 0 {
      SecondHints(c, hints, live, e, n - 1, now);
      var r := RemainingPass(c, e, hints, n - 1, now);
      WantsAnyIs(hints, live, r, n - 1);
      if Sweeps(hints, live, n - 1) {
        SweepsIs(hints, live, n - 1);
        SameSize(live, r);
        TurnLeases(c, hints, live, r, n - 1, |live|, now);
        SecondTurn(hints, live, r, RemainingLeases(c, r, hints, n - 1, |live|, now), n - 1);
      } else {
        SecondSkips(hints, live, r, n - 1);
      }
    }
  }

  lemma SweepsIs(hints: seq<Hint>, live: seq<Lease>, i: nat)
    requires i < |hints| && Sweeps(hints, live, i)
    ensures hints[i].Named? && hints[i].prefix.ip == 0
  {
  }

  lemma SameSize(live: seq<Lease>, e: Exchange)
    requires SamePrefixes(live, e)
    ensures |e.leases| == |live|
  {
  }

  /**
   The leases the matching gives out are exactly those some hint names, and those that
   fit a hint for any prefix that names none; the hints it serves are exactly those that
   name a lease, and those for any prefix that find a fitting one not given out before.
   */
  lemma MatchedExactly(c: Config, live: seq<Lease>, hints: seq<Hint>, now: Time)
    ensures var e := Matched(c, live, hints, now);
      && (forall k: nat :: k in e.givenOut <==> k < |live| && Given(hints, live, |hints|, live[k]))
      && (forall i: nat :: i in e.satisfied <==> i < |hints| && Served(hints, live, i))
  {
    hide ExactPass, RemainingPass, FirstPass, NamesOne, Given;
    var first := ExactPass(c, Exchange(live, {}, {}, []), hints, |hints|, now);
    FirstHints(c, hints, live, |hints|, now);
    SecondStart(hints, live, first);
    SecondHints(c, hints, live, first, |hints|, now);
  }

  // ----- the record afterwards ---------------------------------------------------------------------

  /** How many of the first n hints no lease serves. */
  ghost function Unserved(hints: seq<Hint>, live: seq<Lease>, n: nat): nat
    requires n <= |hints|
  {
    if n == 0 then 0 else Unserved(hints, live, n - 1) + (if Served(hints, live, n - 1) then 0 else 1)
  }

  /** The blocks nobody has. */
  function Free(c: Config, taken: set<nat>): nat {
    |set b | 0 <= b < c.count && b !in taken|
  }

  function Least(a: nat, b: nat): nat {
    if a < b then a else b
  }

  /** How many more prefixes a client may be given. */
  function RoomFor(c: Config, n: nat): nat {
    if n < c.maxPrefixes then c.maxPrefixes - n else 0
  }

  lemma FreeLess(c: Config, taken: set<nat>, b: nat)
    requires b < c.count && b !in taken
    ensures Free(c, taken + {b}) == Free(c, taken) - 1
  {
    var was, now := set x | 0 <= x < c.count && x !in taken, set x | 0 <= x < c.count && x !in taken + {b};
    assert was == now + {b} && b !in now;
  }

  lemma FreeNone(c: Config, taken: set<nat>)
    ensures Free(c, taken) == 0 <==> forall b: nat :: b < c.count ==> b in taken
  {
    var free := set b | 0 <= b < c.count && b !in taken;
    if Free(c, taken) == 0 {
      forall b: nat | b < c.count ensures b in taken {
        assert b !in free;
      }
    } else {
      var b :| b in free;
    }
  }

  /** One carving: a prefix more and a block fewer, unless the client is at its limit or no block is left. */
  lemma CarveOneCounts(c: Config, v: Carve, hint: Hint, now: Time)
    requires Sound(c)
    ensures var r := CarveOne(c, v, hint, now);
      if |v.leases| >= c.maxPrefixes || Free(c, v.taken) == 0 then |r.leases| == |v.leases| && r.taken == v.taken
      else |r.leases| == |v.leases| + 1 && Free(c, r.taken) == Free(c, v.taken) - 1
  {
    hide AllocationHint, Ip, Length, Free, Block;
    FreeNone(c, v.taken);
    if |v.leases| < c.maxPrefixes && Free(c, v.taken) > 0 {
      var ask := AllocationHint(v.recovered, hint).0;
      FreeLess(c, v.taken, Pick(c, v.taken, ask).value);
    }
  }

  lemma {:induction false} CarvePassCounts(
      c: Config, v: Carve, hints: seq<Hint>, live: seq<Lease>, satisfied: set<nat>, n: nat, now: Time)
    requires Sound(c) && n <= |hints| && forall i: nat :: i < |hints| ==> (i in satisfied <==> Served(hints, live, i))
    ensures var r := CarvePass(c, v, hints, satisfied, n, now);
      var more := Least(Unserved(hints, live, n), Least(RoomFor(c, |v.leases|), Free(c, v.taken)));
      |r.leases| == |v.leases| + more && Free(c, r.taken) == Free(c, v.taken) - more
  {
    hide CarveOne, Served, Free;
    if n > 0 {
      CarvePassCounts(c, v, hints, live, satisfied, n - 1, now);
      CarveOneCounts(c, CarvePass(c, v, hints, satisfied, n - 1, now), hints[n - 1], now);
    }
  }

  /** A lease as the exchange leaves it. */
  predicate Renewed(c: Config, l: Lease, l': Lease, given: bool, now: Time) {
    && l'.prefix == l.prefix
    && l'.expire == if given && l.expire < now + c.duration then now + c.duration else l.expire
  }

  /**
   The client's record after an exchange. First come its unexpired leases, with their
   prefixes, in their order: those given out run for at least a full duration, the
   others as they did. Behind them come as many new ones as there are hints no lease
   serves, up to the client's limit and the blocks that are free once its own lapsed
   ones are back; each new one runs a full duration, and just these blocks are taken.
   */
  lemma RecordExactly(c: Config, s: State, key: Key, asked: seq<Hint>, now: Time)
    requires Sound(c) && Agreed(c, s)
    ensures var hints, live := RequestedPrefixes(asked), Live(s, key, now);
      var s' := Reconcile(c, s, key, asked, now).0;
      var record, back := Known(s', key), s.taken - Blocks(c, Lapsed(s, key, now));
      && |record| == |live| + Least(Unserved(hints, live, |hints|), Least(RoomFor(c, |live|), Free(c, back)))
      && (forall k :: 0 <= k < |live| ==> Renewed(c, live[k], record[k], Given(hints, live, |hints|, live[k]), now))
      && (forall k :: |live| <= k < |record| ==> record[k].expire == now + c.duration)
      && s'.taken == back + Blocks(c, record)
      && (forall k :: |live| <= k < |record| ==> Block(c, record[k].prefix.ip) !in back)
  {
    hide Blocks, Agreed, Matched, CarvePass, Keep, Cut, Store, Known, Apart, AllPooled, Reconcile, Free, Given, Served, Told, Backed, Block,
      RequestedPrefixes;
    var hints, live := RequestedPrefixes(asked), Live(s, key, now);
    var v0, v, e := Before(c, s, key, asked, now), After(c, s, key, asked, now), Matched(c, live, hints, now);
    ReconcileIs(c, s, key, asked, now);
    MatchedShape(c, live, hints, now);
    MatchedExactly(c, live, hints, now);
    BeforeMoved(c, s, key, asked, now);
    CarvePassKeeps(c, v0, hints, e.satisfied, |hints|, now);
    CarvePassCounts(c, v0, hints, live, e.satisfied, |hints|, now);
    forall k | |live| <= k < |v.leases| ensures Block(c, v.leases[k].prefix.ip) !in v0.taken {
      NewBlockWasFree(c, v0, v, k);
    }
    forall k | 0 <= k < |live| ensures Renewed(c, live[k], v.leases[k], Given(hints, live, |hints|, live[k]), now) {
      assert v.leases[k] == e.leases[k];
    }
  }

  lemma {:induction false} AllServed(hints: seq<Hint>, live: seq<Lease>, n: nat)
    requires n <= |hints| && forall i :: 0 <= i < n ==> NamesOne(hints, live, i)
    ensures Unserved(hints, live, n) == 0
  {
    hide NamesOne;
    if n > 0 {
      AllServed(hints, live, n - 1);
    }
  }

  /** A plain renewal: every hint names a running lease, and the client ends with the prefixes it had and no other. */
  lemma RenewalAddsNothing(c: Config, s: State, key: Key, asked: seq<Hint>, now: Time)
    requires Sound(c) && Agreed(c, s)
    requires var hints, live := RequestedPrefixes(asked), Live(s, key, now);
      forall i :: 0 <= i < |hints| ==> NamesOne(hints, live, i)
    ensures var s' := Reconcile(c, s, key, asked, now).0;
      && Prefixes(Known(s', key)) == Prefixes(Live(s, key, now))
      && s'.taken <= s.taken
  {
    hide Blocks, Agreed, Keep, Cut, Store, Known, Reconcile, Free, Given, NamesOne, Block;
    var hints, live := RequestedPrefixes(asked), Live(s, key, now);
    AllServed(hints, live, |hints|);
    RecordExactly(c, s, key, asked, now);
    var s' := Reconcile(c, s, key, asked, now).0;
    var record := Known(s', key);
    KnownProper(c, s, key);
    LiveBlocks(c, s, key, now, record);
  }

  lemma LiveBlocks(c: Config, s: State, key: Key, now: Time, record: seq<Lease>)
    requires Sound(c) && Agreed(c, s) && |record| == |Live(s, key, now)|
    requires forall k :: 0 <= k < |record| ==> record[k].prefix == Live(s, key, now)[k].prefix
    ensures Prefixes(record) == Prefixes(Live(s, key, now)) && Blocks(c, record) <= s.taken
  {
    hide Block, Keep, Cut;
    var known, live := Known(s, key), Live(s, key, now);
    FilterIs(known, ExpiredAt(now));
    forall l | l in record ensures Block(c, l.prefix.ip) in s.taken {
      var k :| 0 <= k < |record| && record[k] == l;
      assert live[k] in live && live[k] in known;
      BlockOfMember(c, known, live[k]);
    }
  }

  // ----- the answer ------------------------------------------------------------------------------

  ghost predicate Offered(answer: seq<Offer>, l: Lease, now: Time) {
    Offer(l.prefix, l.expire - now) in answer
  }

  /** An offer of one of the record's leases: a new one, or a running one that was given out. */
  ghost predicate OffersOne(hints: seq<Hint>, live: seq<Lease>, record: seq<Lease>, o: Offer, now: Time) {
    exists k :: 0 <= k < |record| && o == Offer(record[k].prefix, record[k].expire - now) && (k < |live| ==> Given(hints, live, |hints|, live[k]))
  }

  /** What the client is told: of its running leases those given out, with what they now last, and all the new ones. */
  lemma AnswerExactly(c: Config, s: State, key: Key, asked: seq<Hint>, now: Time)
    requires Sound(c) && Agreed(c, s)
    ensures var hints, live := RequestedPrefixes(asked), Live(s, key, now);
      var (s', answer) := Reconcile(c, s, key, asked, now);
      var record := Known(s', key);
      && |live| <= |record|
      && (forall k :: 0 <= k < |live| && Given(hints, live, |hints|, live[k]) ==> Offered(answer, record[k], now))
      && (forall k :: |live| <= k < |record| ==> Offered(answer, record[k], now))
      && (forall o :: o in answer ==> o.lifetime >= c.duration && OffersOne(hints, live, record, o, now))
  {
    hide Blocks, Agreed, Matched, CarvePass, Keep, Cut, Store, Known, Reconcile, Given, Served, Block, RequestedPrefixes;
    var hints, live := RequestedPrefixes(asked), Live(s, key, now);
    var v0, v, e := Before(c, s, key, asked, now), After(c, s, key, asked, now), Matched(c, live, hints, now);
    ReconcileIs(c, s, key, asked, now);
    MatchedShape(c, live, hints, now);
    MatchedExactly(c, live, hints, now);
    CarvePassKeeps(c, v0, hints, e.satisfied, |hints|, now);
    forall o | o in e.answer ensures o in v.answer {
      var i :| 0 <= i < |e.answer| && e.answer[i] == o;
      assert v.answer[i] == o;
    }
    forall k | |live| <= k < |v.leases| ensures Offered(v.answer, v.leases[k], now) {
      assert v.answer[k - |live| + |v0.answer|] == Offer(v.leases[k].prefix, c.duration);
    }
    forall k | 0 <= k < |live| && Given(hints, live, |hints|, live[k]) ensures Offered(v.answer, v.leases[k], now) {
      assert v.leases[k] == e.leases[k] && k in e.givenOut;
    }
    forall o | o in v.answer ensures o.lifetime >= c.duration && OffersOne(hints, live, v.leases, o, now) {
      var k := OfferComesFrom(c, live, e, v0, v, o, now);
    }
  }

  lemma OfferComesFrom(c: Config, live: seq<Lease>, e: Exchange, v0: Carve, v: Carve, o: Offer, now: Time) returns (k: nat)
    requires Sound(c) && Shape(c, live, e, now) && v0.leases == e.leases && v0.answer == e.answer && Carved(c, v0, v, now)
    requires o in v.answer
    ensures o.lifetime >= c.duration && k < |v.leases| && o == Offer(v.leases[k].prefix, v.leases[k].expire - now)
    ensures k < |live| ==> k in e.givenOut
  {
    var i :| 0 <= i < |v.answer| && v.answer[i] == o;
    if i < |e.answer| {
      assert e.answer[i] == o && o in e.answer;
      k :| k in e.givenOut && k < |live| && o == OfferOf(c, live[k], now);
      assert v.leases[k] == e.leases[k];
    } else {
      k := i - |e.answer| + |live|;
      assert v.leases[k].expire == now + c.duration;
    }
  }

  // ----- which prefix is new -------------------------------------------------------------------------

  /** What a hint comes to for the allocator: one that asks for nothing in particular is given the client's own lapsed prefix. */
  function Wanted(h: Hint, lapsed: seq<Lease>): Hint {
    if lapsed != [] && (h == Empty || h == Named(Prefix(0, 0))) then Named(lapsed[0].prefix) else h
  }

  /**
   A single hint no lease serves, with room for it: the new prefix is the block it wants if
   that is in the pool and free, or else the lowest free block, and it is as long as was
   wanted, or as a block if that was wider.
   */
  lemma NewPrefixIs(c: Config, s: State, key: Key, h: Hint, now: Time)
    requires Sound(c) && Agreed(c, s)
    requires var live, back := Live(s, key, now), s.taken - Blocks(c, Lapsed(s, key, now));
      !Served([h], live, 0) && |live| < c.maxPrefixes && Free(c, back) > 0
    ensures var live, back, lapsed := Live(s, key, now), s.taken - Blocks(c, Lapsed(s, key, now)), Lapsed(s, key, now);
      var record, want := Known(Reconcile(c, s, key, [h], now).0, key), Wanted(h, lapsed);
      && |record| == |live| + 1
      && var p := record[|live|].prefix;
         var b := Block(c, p.ip);
         && p.ip == c.base + b * c.unit && b < c.count && b !in back
         && p.len == (if want.Named? && want.prefix.len >= c.page then want.prefix.len else c.page)
         && (if want.Named? && Contains(c, want.prefix.ip) && Block(c, want.prefix.ip) !in back
             then b == Block(c, want.prefix.ip) else forall x: nat :: x < b ==> x in back)
  {
    hide Blocks, Agreed, Matched, Keep, Cut, Store, Known, Apart, AllPooled, Reconcile, Served, Told, Backed, Block, CarveOne, Free;
    var hints, live, lapsed := [h], Live(s, key, now), Lapsed(s, key, now);
    var v0, v, e := Before(c, s, key, hints, now), After(c, s, key, hints, now), Matched(c, live, hints, now);
    assert RequestedPrefixes(hints) == hints;
    ReconcileIs(c, s, key, hints, now);
    MatchedShape(c, live, hints, now);
    MatchedExactly(c, live, hints, now);
    CarveSingle(c, v0, h, e.satisfied, now);
    FreeNone(c, v0.taken);
    assert lapsed != [] ==> Prefixes(lapsed)[0] == lapsed[0].prefix;
    CarveOneIs(c, v0, h, lapsed, now);
  }

  lemma CarveSingle(c: Config, v: Carve, h: Hint, satisfied: set<nat>, now: Time)
    requires Sound(c) && 0 !in satisfied
    ensures CarvePass(c, v, [h], satisfied, 1, now) == CarveOne(c, v, h, now)
  {
    hide CarveOne;
    assert CarvePass(c, v, [h], satisfied, 0, now) == v;
  }

  lemma CarveOneIs(c: Config, v: Carve, h: Hint, lapsed: seq<Lease>, now: Time)
    requires Sound(c) && |v.leases| < c.maxPrefixes && v.recovered == Prefixes(lapsed)
    requires !(forall b: nat :: b < c.count ==> b in v.taken)
    ensures var r, want := CarveOne(c, v, h, now), Wanted(h, lapsed);
      && |r.leases| == |v.leases| + 1
      && var p := r.leases[|v.leases|].prefix;
         var b := Block(c, p.ip);
         && p.ip == c.base + b * c.unit && b < c.count && b !in v.taken
         && p.len == (if want.Named? && want.prefix.len >= c.page then want.prefix.len else c.page)
         && (if want.Named? && Contains(c, want.prefix.ip) && Block(c, want.prefix.ip) !in v.taken
             then b == Block(c, want.prefix.ip) else forall x: nat :: x < b ==> x in v.taken)
  {
    hide Block;
    var want := Wanted(h, lapsed);
    assert AllocationHint(v.recovered, h).0 == want;
    BlockOfIp(c, Pick(c, v.taken, want).value);
  }

  /** The hints that count: the first eight, or, where none came, one that asks for nothing in particular. */
  lemma HintsConsidered(asked: seq<Hint>)
    ensures RequestedPrefixes(asked) == if asked == [] then [Empty] else if |asked| <= 8 then asked else asked[..8]
  {
  }

  // ----- a late client, asking several times -------------------------------------------------------------

  /** A hint for nothing in particular. */
  predicate Plain(h: Hint) {
    h == Empty || h == Named(Prefix(0, 0))
  }

  function Again(known: seq<Lease>, n: nat, end: Time): seq<Lease>
    requires n <= |known|
  {
    seq(n, i requires 0 <= i < n => Lease(known[i].prefix, end))
  }

  /** Where carving is after n plain hints of a client all of whose leases have lapsed. */
  ghost predicate Recovered(c: Config, v: Carve, known: seq<Lease>, back: set<nat>, n: nat, now: Time)
    requires Sound(c) && n <= |known|
  {
    && v.leases == Again(known, n, now + c.duration) && v.recovered == Prefixes(known)[n..]
    && v.taken == back + Blocks(c, known[..n])
  }

  lemma RecoversNext(c: Config, v: Carve, known: seq<Lease>, back: set<nat>, h: Hint, n: nat, now: Time)
    requires Sound(c) && Proper(c, known) && n < |known| && n < c.maxPrefixes && Plain(h)
    requires Recovered(c, v, known, back, n, now) && (forall l :: l in known ==> Block(c, l.prefix.ip) !in back)
    ensures Recovered(c, CarveOne(c, v, h, now), known, back, n + 1, now)
  {
    hide Block, Pick, Blocks, Apart;
    var p := known[n].prefix;
    assert known[n] in known && Pooled(c, known[n]);
    BlockIn(c, p);
    assert known[..n + 1] == known[..n] + [known[n]];
    BlocksGrow(c, known[..n], known[n]);
    NotAmong(c, known, n);
    assert v.recovered[0] == p && v.recovered[1..] == Prefixes(known)[n + 1..];
    PicksIt(c, v.taken, p);
    assert Again(known, n + 1, now + c.duration) == Again(known, n, now + c.duration) + [Lease(p, now + c.duration)];
  }

  lemma NotAmong(c: Config, known: seq<Lease>, n: nat)
    requires Sound(c) && Apart(c, known) && n < |known|
    ensures Block(c, known[n].prefix.ip) !in Blocks(c, known[..n])
  {
    hide Block;
    forall l | l in known[..n] ensures Block(c, l.prefix.ip) != Block(c, known[n].prefix.ip) {
      var i :| 0 <= i < n && known[i] == l;
    }
  }

  lemma PicksIt(c: Config, taken: set<nat>, p: Prefix)
    requires Sound(c) && Pooled(c, Lease(p, 0)) && Contains(c, p.ip) && Block(c, p.ip) !in taken
    ensures Pick(c, taken, Named(p)) == Some(Block(c, p.ip)) && Prefix(Ip(c, Block(c, p.ip)), Length(c, Named(p))) == p
  {
    hide Block;
  }

  lemma {:induction false} RecoversAll(
      c: Config, v: Carve, known: seq<Lease>, back: set<nat>, hints: seq<Hint>, n: nat, now: Time)
    requires Sound(c) && Proper(c, known) && n <= |hints| && n <= |known| && n <= c.maxPrefixes
    requires (forall i :: 0 <= i < |hints| ==> Plain(hints[i])) && Recovered(c, v, known, back, 0, now)
    requires forall l :: l in known ==> Block(c, l.prefix.ip) !in back
    ensures Recovered(c, CarvePass(c, v, hints, {}, n, now), known, back, n, now)
  {
    hide Recovered, CarveOne, Proper, Block;
    if n > 0 {
      RecoversAll(c, v, known, back, hints, n - 1, now);
      RecoversNext(c, CarvePass(c, v, hints, {}, n - 1, now), known, back, hints[n - 1], n - 1, now);
    }
  }

  /**
   A client all of whose leases have lapsed, asking n times for nothing in particular, gets
   its first n prefixes back, in their order, each for a full duration.
   */
  lemma LateClientKeepsItsPrefixes(c: Config, s: State, key: Key, asked: seq<Hint>, now: Time)
    requires Sound(c) && Agreed(c, s) && key in s.records && 1 <= |asked| <= 8
    requires |asked| <= |s.records[key]| && |asked| <= c.maxPrefixes && forall i :: 0 <= i < |asked| ==> Plain(asked[i])
    requires forall l :: l in s.records[key] ==> l.expire <= now
    ensures Known(Reconcile(c, s, key, asked, now).0, key) == Again(s.records[key], |asked|, now + c.duration)
  {
    hide Blocks, Matched, CarvePass, Store, Reconcile, Block, Agreed, Proper, Recovered;
    var known, lapsed := s.records[key], Lapsed(s, key, now);
    AllCut(known, ExpiredAt(now));
    ReconcileIs(c, s, key, asked, now);
    MatchedFinds(c, [], asked, now);
    var v0 := Before(c, s, key, asked, now);
    KnownProper(c, s, key);
    StartsRecovering(c, v0, known, now);
    forall l | l in known ensures Block(c, l.prefix.ip) !in v0.taken {
      BlockOfMember(c, known, l);
    }
    RecoversAll(c, v0, known, v0.taken, asked, |asked|, now);
    RecoveredLeases(c, CarvePass(c, v0, asked, {}, |asked|, now), known, v0.taken, |asked|, now);
  }

  lemma StartsRecovering(c: Config, v: Carve, known: seq<Lease>, now: Time)
    requires Sound(c) && v.leases == [] && v.recovered == Prefixes(known)
    ensures Recovered(c, v, known, v.taken, 0, now)
  {
    assert known[..0] == [] && Prefixes(known)[0..] == Prefixes(known);
    NoBlocks(c);
  }

  lemma RecoveredLeases(c: Config, v: Carve, known: seq<Lease>, back: set<nat>, n: nat, now: Time)
    requires Sound(c) && n <= |known| && Recovered(c, v, known, back, n, now)
    ensures v.leases == Again(known, n, now + c.duration)
  {
  }
}
