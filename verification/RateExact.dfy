/**
 Which requests a bucket lets through, said without the bucket: a request passes exactly
 when no window that ends with it would then hold more than the burst and what the
 window earns.
 */
module RateExact {
  import opened Wrappers
  import opened Arith
  import opened RateBucket

  function Passed(ok: seq<bool>): nat {
    if ok == [] then 0 else Passed(ok[..|ok| - 1]) + (if ok[|ok| - 1] then 1 else 0)
  }

  /** What would be left of the window that opens with request i, at time t: burst plus time minus what passed. */
  function Left(l: Limit, times: seq<int>, ok: seq<bool>, t: int, i: nat): int
    requires |ok| == |times| && i <= |times|
  {
    l.capacity + (if i < |times| then t - times[i] else 0) - l.interval * Passed(ok[i..])
  }

  /** Every window that ends with a request at t can still pay for it. */
  ghost predicate Payable(l: Limit, times: seq<int>, ok: seq<bool>, t: int)
    requires |ok| == |times|
  {
    forall i :: 0 <= i <= |times| ==> l.interval <= Left(l, times, ok, t, i)
  }

  /** The decisions, from the times alone. */
  ghost function Due(l: Limit, times: seq<int>): (ok: seq<bool>)
    ensures |ok| == |times|
  {
    if times == [] then [] else
    var n := |times| - 1;
    var before := Due(l, times[..n]);
    before + [Payable(l, times[..n], before, times[n])]
  }

  /** The decisions a bucket makes. */
  function Decisions(b: Bucket, times: seq<int>, l: Limit): (ok: seq<bool>)
    ensures |ok| == |times|
  {
    if times == [] then [] else
    var n := |times| - 1;
    Decisions(b, times[..n], l) + [Allow(Serve(b, times[..n], l).0, times[n], l).1]
  }

  lemma {:induction false} ServeCounts(b: Bucket, times: seq<int>, l: Limit)
    ensures Serve(b, times, l).1 == Passed(Decisions(b, times, l))
  {
    hide Allow;
    if times != [] {
      var n := |times| - 1;
      ServeCounts(b, times[..n], l);
      var ok := Decisions(b, times, l);
      assert ok[..n] == Decisions(b, times[..n], l);
    }
  }

  /** The credit is the least that any window leaves, and some window leaves just that. */
  ghost predicate IsLeast(l: Limit, times: seq<int>, ok: seq<bool>, t: int, credit: int)
    requires |ok| == |times|
  {
    && (forall i :: 0 <= i <= |times| ==> credit <= Left(l, times, ok, t, i))
    && (exists i :: 0 <= i <= |times| && credit == Left(l, times, ok, t, i))
  }

  /** One more request, and then time passing. */
  lemma LeftGrows(l: Limit, times: seq<int>, ok: seq<bool>, t: int, passed: bool, t': int, i: nat)
    requires |ok| == |times| && i <= |times|
    ensures Left(l, times + [t], ok + [passed], t', i)
      == Left(l, times, ok, t, i) - (if passed then l.interval else 0) + (t' - t)
  {
    var longer := (ok + [passed])[i..];
    assert longer[..|longer| - 1] == ok[i..] && longer[|longer| - 1] == passed;
    assert l.interval * (Passed(ok[i..]) + 1) == l.interval * Passed(ok[i..]) + l.interval;
  }

  lemma LeftNow(l: Limit, times: seq<int>, ok: seq<bool>, t: int)
    requires |ok| == |times|
    ensures Left(l, times, ok, t, |times|) == l.capacity
  {
    assert ok[|times|..] == [];
  }

  lemma LeastGrows(l: Limit, times: seq<int>, ok: seq<bool>, t: int, credit: int, passed: bool, t': int, credit': int)
    requires |ok| == |times| && IsLeast(l, times, ok, t, credit)
    requires var spent := credit - (if passed then l.interval else 0) + (t' - t);
      credit' == if spent < l.capacity then spent else l.capacity
    ensures IsLeast(l, times + [t], ok + [passed], t', credit')
  {
    hide Left;
    var n, more, oks := |times|, times + [t], ok + [passed];
    forall i | 0 <= i <= n ensures Left(l, more, oks, t', i)
      == Left(l, times, ok, t, i) - (if passed then l.interval else 0) + (t' - t) {
      LeftGrows(l, times, ok, t, passed, t', i);
    }
    LeftNow(l, more, oks, t');
    if credit' == l.capacity {
      assert credit' == Left(l, more, oks, t', n + 1);
    } else {
      var i :| 0 <= i <= n && credit == Left(l, times, ok, t, i);
      assert credit' == Left(l, more, oks, t', i);
    }
  }

  /** A refill banks the time since the last one, up to the brim. */
  lemma RefillIs(b: Bucket, now: int, l: Limit)
    requires Usable(l) && Sound(b, l) && l.capacity <= INT64_MAX && b.last <= now
    ensures var full := b.credit + (now - b.last);
      Refill(b, now, l) == Bucket(if full < l.capacity then full else l.capacity, now)
  {
  }

  ghost predicate Started(b: Bucket, l: Limit, times: seq<int>) {
    Usable(l) && l.capacity <= INT64_MAX && b.credit == l.capacity && Monotone(times) && (times != [] ==> b.last <= times[0])
  }

  /** What a bucket that started full holds when the next request comes. */
  lemma {:induction false} CreditIsLeast(b: Bucket, times: seq<int>, t: int, l: Limit)
    requires Started(b, l, times + [t])
    ensures var now := Refill(Serve(b, times, l).0, t, l);
      Sound(now, l) && now.last == t && IsLeast(l, times, Decisions(b, times, l), t, now.credit)
  {
    hide IsLeast, Refill;
    var all := times + [t];
    assert all[0] <= t by {
      assert |all| > 1 ==> all[0] <= all[|all| - 1];
    }
    if times == [] {
      RefillIs(b, t, l);
      LeastAtStart(l, t);
    } else {
      var n := |times| - 1;
      var init, last := times[..n], times[n];
      assert init + [last] == times;
      assert all[n] <= all[n + 1];
      assert Monotone(times) by {
        forall i, j | 0 <= i < j < |times| ensures times[i] <= times[j] {
          assert all[i] <= all[j];
        }
      }
      assert times[0] == all[0];
      CreditIsLeast(b, init, last, l);
      var at := Refill(Serve(b, init, l).0, last, l);
      var passed := at.credit >= l.interval;
      var after := Serve(b, times, l).0;
      assert after == at.(credit := at.credit - (if passed then l.interval else 0));
      RefillIs(after, t, l);
      LeastGrows(l, init, Decisions(b, init, l), last, at.credit, passed, t, Refill(after, t, l).credit);
    }
  }

  lemma LeastAtStart(l: Limit, t: int)
    ensures IsLeast(l, [], [], t, l.capacity)
  {
    LeftNow(l, [], [], t);
  }

  /**
   From a full bucket, a request is let through if and only if no window that ends with
   it would then hold more passed requests than burst plus window pay for.
   */
  lemma {:induction false} DecidedExactly(b: Bucket, times: seq<int>, l: Limit)
    requires Started(b, l, times)
    ensures Decisions(b, times, l) == Due(l, times)
  {
    hide Left, Refill;
    if times != [] {
      var n := |times| - 1;
      var init, t := times[..n], times[n];
      assert init + [t] == times;
      assert Started(b, l, init) by {
        forall i, j | 0 <= i < j < |init| ensures init[i] <= init[j] {
          assert times[i] <= times[j];
        }
        if init != [] {
          assert init[0] == times[0];
        }
      }
      DecidedExactly(b, init, l);
      CreditIsLeast(b, init, t, l);
    }
  }

  /** Two requests that empty a bucket of two, and how long the third has to wait. */
  lemma CreditAddsUp()
    ensures Decisions(Bucket(20, 0), [0, 0, 5, 11], Limit(10, 20)) == [true, true, false, true]
  {
    var b, l := Bucket(20, 0), Limit(10, 20);
    var times := [0, 0, 5, 11];
    assert times[..3] == [0, 0, 5] && [0, 0, 5][..2] == [0, 0] && [0, 0][..1] == [0] && [0][..0] == [];
    assert Serve(b, [], l) == (b, 0);
    assert Serve(b, [0], l).0 == Bucket(10, 0);
    assert Serve(b, [0, 0], l).0 == Bucket(0, 0);
    assert Serve(b, [0, 0, 5], l).0 == Bucket(5, 5);
  }
}
