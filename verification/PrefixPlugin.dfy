/**
 `plugins/prefix` in its own form: each client's leases sit in a slice of an array that
 is filtered, renewed and extended in place. Every method is proved to do what
 `PrefixModel` says on values.
 */
module PrefixPlugin {
  import opened Wrappers
  import M = PrefixModel
  import opened PrefixModel

  /** A slice: its backing array from the start, and how much of it is in use. */
  datatype Slice = Slice(cells: array<Lease>, len: nat)

  /** listed: whether one of the released prefixes names the lease. */
  method IsListed(released: seq<Hint>, l: Lease) returns (found: bool)
    ensures found == Listed(released, l)
  {
    for i := 0 to |released|
      invariant forall k :: 0 <= k < i ==> released[k] != Named(l.prefix)
    {
      if released[i] == Named(l.prefix) {
        return true;
      }
    }
    return false;
  }

  method IsHit(cause: Cause, l: Lease) returns (hit: bool)
    ensures hit == Hit(cause, l)
  {
    match cause
    case ExpiredAt(t) => hit := l.expire <= t;
    case ListedIn(released) => hit := IsListed(released, l);
  }

  lemma FilterStep(s: seq<Lease>, cause: Cause, i: nat)
    requires i < |s|
    ensures var (keep, cut) := (Keep(s[..i], cause), Cut(s[..i], cause));
      (Keep(s[..i + 1], cause), Cut(s[..i + 1], cause)) ==
      if Hit(cause, s[i]) then (keep, cut + [s[i]]) else (keep + [s[i]], cut)
  {
    assert s[..i + 1][..i] == s[..i];
  }

  /** Filtering into the front of the same array: what is still to be read is never overwritten. */
  method FilterInPlace(cells: array<Lease>, n: nat, cause: Cause) returns (live: nat, cut: seq<Lease>)
    requires n <= cells.Length
    modifies cells
    ensures live <= n && cells[..live] == Keep(old(cells[..n]), cause) && cut == Cut(old(cells[..n]), cause)
  {
    hide Keep, Cut, Hit;
    ghost var was := cells[..n];
    live, cut := 0, [];
    FilterNothing(cause);
    for i := 0 to n
      invariant live <= i
      invariant cells[..live] == Keep(was[..i], cause) && cut == Cut(was[..i], cause)
      invariant forall k :: i <= k < n ==> cells[k] == was[k]
    {
      FilterStep(was, cause, i);
      var l := cells[i];
      var hit := IsHit(cause, l);
      if hit {
        cut := cut + [l];
      } else {
        cells[live] := l;
        live := live + 1;
      }
    }
    assert was[..n] == was;
  }

  lemma FilterNothing(cause: Cause)
    ensures Keep([], cause) == [] && Cut([], cause) == []
  {
  }

  /** append, reusing the backing array while it has room. */
  method Append(s: Slice, l: Lease) returns (r: Slice)
    requires s.len <= s.cells.Length
    modifies s.cells
    ensures r.len == s.len + 1 <= r.cells.Length
    ensures r.cells == s.cells || fresh(r.cells)
    ensures r.cells[..r.len] == old(s.cells[..s.len]) + [l]
  {
    if s.len < s.cells.Length {
      s.cells[s.len] := l;
      return Slice(s.cells, s.len + 1);
    }
    var bigger := new Lease[2 * s.len + 1](i => l);
    for i := 0 to s.len
      invariant bigger[..i] == s.cells[..i] && bigger[s.len] == l
      invariant s.cells[..s.len] == old(s.cells[..s.len])
    {
      bigger[i] := s.cells[i];
    }
    assert bigger[..s.len + 1] == bigger[..s.len] + [bigger[s.len]];
    return Slice(bigger, s.len + 1);
  }

  /** The working state of one exchange; its leases are the client's own slice. */
  class PdExchange {
    const c: Config
    const now: Time
    const hints: seq<Hint>
    const leases: Slice
    var satisfied: set<nat>
    var givenOut: set<nat>
    var answer: seq<Offer>

    ghost predicate Valid()
      reads this
    {
      leases.len <= leases.cells.Length
    }

    ghost function View(): Exchange
      requires Valid()
      reads this, leases.cells
    {
      Exchange(leases.cells[..leases.len], satisfied, givenOut, answer)
    }

    constructor (c: Config, now: Time, hints: seq<Hint>, leases: Slice)
      requires leases.len <= leases.cells.Length
      ensures Valid() && this.c == c && this.now == now && this.hints == hints && this.leases == leases
      ensures View() == Exchange(leases.cells[..leases.len], {}, {}, [])
    {
      this.c, this.now, this.hints, this.leases := c, now, hints, leases;
      satisfied, givenOut, answer := {}, {}, [];
    }

    method Grant(hint: nat, lease: nat)
      requires Valid() && lease < leases.len
      modifies this, leases.cells
      ensures View() == M.Grant(c, old(View()), hint, lease, now)
    {
      var expire := now + c.duration;
      if leases.cells[lease].expire < expire {
        leases.cells[lease] := leases.cells[lease].(expire := expire);
      }
      satisfied := satisfied + {hint};
      givenOut := givenOut + {lease};
      var l := leases.cells[lease];
      answer := answer + [Offer(l.prefix, l.expire - now)];
    }

    method RenewExactMatches()
      requires Valid()
      modifies this, leases.cells
      ensures View() == ExactPass(c, old(View()), hints, |hints|, now)
    {
      hide M.Grant;
      for i := 0 to |hints|
        invariant View() == ExactPass(c, old(View()), hints, i, now)
      {
        ghost var before := View();
        for k := 0 to leases.len
          invariant |before.leases| == leases.len
          invariant View() == ExactLeases(c, before, hints, i, k, now)
        {
          if hints[i] == Named(leases.cells[k].prefix) {
            Grant(i, k);
          }
        }
      }
    }

    method GiveOutRemaining()
      requires Valid()
      modifies this, leases.cells
      ensures View() == RemainingPass(c, old(View()), hints, |hints|, now)
    {
      hide M.Grant;
      for i := 0 to |hints|
        invariant View() == RemainingPass(c, old(View()), hints, i, now)
      {
        ghost var before := View();
        var hint := hints[i];
        if i !in satisfied && hint.Named? && hint.prefix.ip == 0 {
          for k := 0 to leases.len
            invariant |before.leases| == leases.len
            invariant View() == RemainingLeases(c, before, hints, i, k, now)
          {
            var l := leases.cells[k];
            if k !in givenOut && (hint.prefix.len == 0 || hint.prefix.len == l.prefix.len) {
              Grant(i, k);
            }
          }
        }
      }
    }
  }

  /** The two passes over the leases a client still holds. */
  method MatchHints(c: Config, now: Time, hints: seq<Hint>, live: Slice) returns (e: PdExchange)
    requires live.len <= live.cells.Length
    modifies live.cells
    ensures fresh(e) && e.Valid() && e.c == c && e.now == now && e.hints == hints && e.leases == live
    ensures e.View() == Matched(c, old(live.cells[..live.len]), hints, now)
  {
    hide ExactPass, RemainingPass;
    e := new PdExchange(c, now, hints, live);
    e.RenewExactMatches();
    e.GiveOutRemaining();
  }

  class Plugin {
    const c: Config
    var records: map<Key, Slice>
    var taken: set<nat>
    ghost var view: State

    ghost function Cells(): set<array<Lease>>
      reads this
    {
      set k | k in records :: records[k].cells
    }

    /** No two clients' slices share a backing array. */
    ghost predicate Separate()
      reads this
    {
      && (forall k :: k in records <==> k in view.records)
      && (forall k, k' :: k in records && k' in records && k != k' ==> records[k].cells != records[k'].cells)
    }

    ghost predicate Shown(k: Key)
      requires k in records && k in view.records
      reads this, records[k].cells
    {
      records[k].len <= records[k].cells.Length && records[k].cells[..records[k].len] == view.records[k]
    }

    ghost predicate Valid()
      reads this, Cells()
    {
      Sound(c) && Separate() && taken == view.taken && forall k :: k in records ==> Shown(k)
    }

    /** Valid but for one client's record, whose slice is being worked on. */
    ghost predicate ValidBut(key: Key)
      reads this, Cells()
    {
      Sound(c) && Separate() && forall k :: k in records && k != key ==> Shown(k)
    }

    constructor (c: Config)
      requires Sound(c)
      ensures Valid() && this.c == c && view == State(map[], {})
    {
      this.c := c;
      records, taken, view := map[], {}, State(map[], {});
    }

    /** The slice of a client, empty when it has none. */
    method Lookup(key: Key) returns (s: Slice)
      requires Valid()
      ensures s.len <= s.cells.Length && s.cells[..s.len] == Known(view, key)
      ensures if key in records then s == records[key] else fresh(s.cells)
    {
      if key in records {
        s := records[key];
        assert Shown(key);
      } else {
        var cells := new Lease[0];
        s := Slice(cells, 0);
      }
    }

    /** Takes lapsed or released leases out of a client's slice and frees their blocks. */
    method Filter(key: Key, cause: Cause) returns (live: Slice, cut: seq<Lease>)
      requires Valid()
      modifies this`taken, Cells()
      ensures ValidBut(key) && view == old(view) && records == old(records)
      ensures live.len <= live.cells.Length && live.cells[..live.len] == Keep(Known(view, key), cause)
      ensures cut == Cut(Known(view, key), cause)
      ensures taken == old(taken) - Blocks(c, cut)
      ensures if key in records then live.cells == records[key].cells else fresh(live.cells)
    {
      hide Keep, Cut, Blocks;
      var known := Lookup(key);
      var n;
      n, cut := FilterInPlace(known.cells, known.len, cause);
      live := Slice(known.cells, n);
      FreeAll(cut);
    }

    method FreeAll(cut: seq<Lease>)
      requires Sound(c)
      modifies this`taken
      ensures taken == old(taken) - Blocks(c, cut)
    {
      for i := 0 to |cut|
        invariant taken == old(taken) - Blocks(c, cut[..i])
      {
        taken := taken - {Block(c, cut[i].prefix.ip)};
        assert cut[..i + 1] == cut[..i] + [cut[i]];
      }
      assert cut[..|cut|] == cut;
    }

    method StoreSlice(key: Key, s: Slice)
      requires ValidBut(key) && s.len <= s.cells.Length
      requires forall k :: k in records && k != key ==> records[k].cells != s.cells
      modifies this`records, this`view
      ensures Valid() && (forall x :: x in Cells() ==> x in old(Cells()) || x == s.cells)
      ensures view == State(Store(old(view).records, key, s.cells[..s.len]), taken)
    {
      ghost var contents := s.cells[..s.len];
      if s.len == 0 {
        records := records - {key};
      } else {
        records := records[key := s];
      }
      view := State(Store(view.records, key, contents), taken);
    }

    method ReleasePrefixes(key: Key, released: seq<Hint>) returns (freed: nat)
      requires Valid()
      modifies this, Cells()
      ensures Valid() && (view, freed) == Release(c, old(view), key, released)
    {
      hide Keep, Cut, Blocks;
      var live, cut := Filter(key, ListedIn(released));
      StoreSlice(key, live);
      freed := |cut|;
    }

    method SweepClient(key: Key, t: Time) returns (freed: nat)
      requires Valid()
      modifies this, Cells()
      ensures Valid() && view == SweepKey(c, old(view), key, t)
      ensures freed == |Cut(Known(old(view), key), ExpiredAt(t))|
      ensures forall x :: x in Cells() ==> x in old(Cells()) || fresh(x)
    {
      hide Keep, Cut, Blocks;
      var live, cut := Filter(key, ExpiredAt(t));
      StoreSlice(key, live);
      freed := |cut|;
    }

    /** sweepExpired, client by client, in whatever order the map gives them. */
    method SweepExpired(t: Time) returns (freed: nat, ghost order: seq<Key>)
      requires Valid()
      modifies this, Cells()
      ensures Valid() && view == Sweep(c, old(view), order, t) && freed == SweepCount(c, old(view), order, t)
      ensures forall k :: k in old(view).records ==> k in order
    {
      hide SweepKey, Plugin.Shown, Plugin.Cells, Cut;
      var todo := records.Keys;
      freed, order := 0, [];
      while todo != {}
        invariant Valid() && view == Sweep(c, old(view), order, t) && freed == SweepCount(c, old(view), order, t)
        invariant forall x :: x in Cells() ==> x in old(Cells()) || fresh(x)
        invariant forall k :: k in old(view).records ==> k in todo || k in order
      {
        var key :| key in todo;
        var n := SweepClient(key, t);
        freed := freed + n;
        ghost var done := order + [key];
        assert done[..|done| - 1] == order;
        order := done;
        todo := todo - {key};
      }
    }

    /** allocateForUnsatisfied: new blocks for the hints no held lease could serve. */
    method AllocateForUnsatisfied(key: Key, e: PdExchange, lapsed: seq<Prefix>) returns (s: Slice, answer: seq<Offer>)
      requires ValidBut(key) && e.Valid() && e.c == c
      requires forall k :: k in records && k != key ==> records[k].cells != e.leases.cells
      modifies this`taken, e.leases.cells
      ensures ValidBut(key) && s.len <= s.cells.Length && (s.cells == e.leases.cells || fresh(s.cells))
      ensures Carve(s.cells[..s.len], taken, [], answer) ==
        CarvePass(c, Carve(old(e.View()).leases, old(taken), lapsed, old(e.answer)), e.hints, e.satisfied,
                  |e.hints|, e.now).(recovered := [])
    {
      hide Pick, Ip, Length, AllocationHint;
      var recovered := lapsed;
      ghost var v0 := Carve(e.View().leases, taken, lapsed, e.answer);
      s, answer := e.leases, e.answer;
      for i := 0 to |e.hints|
        invariant ValidBut(key) && s.len <= s.cells.Length && (s.cells == e.leases.cells || fresh(s.cells))
        invariant Carve(s.cells[..s.len], taken, recovered, answer) == CarvePass(c, v0, e.hints, e.satisfied, i, e.now)
      {
        if i !in e.satisfied && s.len < c.maxPrefixes {
          var (ask, rest) := AllocationHint(recovered, e.hints[i]);
          recovered := rest;
          var found := Pick(c, taken, ask);
          if found.Some? {
            var prefix := Prefix(Ip(c, found.value), Length(c, ask));
            taken := taken + {found.value};
            answer := answer + [Offer(prefix, c.duration)];
            s := Append(s, Lease(prefix, e.now + c.duration));
          }
        }
      }
    }

    /** reconcile: lapsed leases go back first, then three passes, then the record is stored. */
    method ReconcileIAPD(key: Key, asked: seq<Hint>, now: Time) returns (answer: seq<Offer>)
      requires Valid()
      modifies this, Cells()
      ensures Valid() && (view, answer) == Reconcile(c, old(view), key, asked, now)
    {
      hide Keep, Cut, Blocks, Matched, CarvePass, Store, RequestedPrefixes;
      var hints := RequestedPrefixes(asked);
      var live, cut := Filter(key, ExpiredAt(now));
      var e := MatchHints(c, now, hints, live);
      var leases;
      leases, answer := AllocateForUnsatisfied(key, e, Prefixes(cut));
      StoreSlice(key, leases);
    }
  }
}
