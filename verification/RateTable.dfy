/**
 The table and the state of `plugins/ratelimit` in their own form: a map beside an
 intrusive doubly linked list whose nodes are reused, and buckets charged in place.
 Every method is proved to do what `RateLimiter` says on values.
 */
module RateTable {
  import opened Wrappers
  import opened RateBucket
  import opened RateLimiter

  class Node {
    var prev: Node?
    var next: Node?
    var key: Key
    var credit: int
    var last: int

    constructor ()
      ensures prev == null && next == null
    {
      prev, next, key, credit, last := null, null, "", 0, 0;
    }

    /** allow: bring the bucket up to date and charge it one request. */
    method Allow(now: int, l: Limit) returns (ok: bool)
      modifies this`credit, this`last
      ensures (Bucket(credit, last), ok) == RateBucket.Allow(old(Bucket(credit, last)), now, l)
    {
      var elapsed := Sub(now, last);
      if elapsed >= l.capacity {
        credit := l.capacity;
      } else if elapsed > 0 {
        credit := if credit + elapsed < l.capacity then credit + elapsed else l.capacity;
      }
      last := now;
      if credit < l.interval {
        return false;
      }
      credit := credit - l.interval;
      return true;
    }
  }

  /** The nodes hold these entries, one for one. */
  ghost predicate Shows(order: seq<Node>, table: seq<Entry>)
    reads order`key, order`credit, order`last
  {
    && |order| == |table|
    && (forall i :: 0 <= i < |order| ==> order[i].key == table[i].key)
    && (forall i :: 0 <= i < |order| ==> order[i].credit == table[i].bucket.credit)
    && (forall i :: 0 <= i < |order| ==> order[i].last == table[i].bucket.last)
  }

  /** The map files every listed node under its entry's key, and nothing else. */
  ghost predicate Filed(buckets: map<Key, Node>, order: seq<Node>, keys: seq<Key>) {
    && |keys| == |order|
    && (forall i :: 0 <= i < |keys| ==> keys[i] in buckets && buckets[keys[i]] == order[i])
    && (forall k :: k in buckets ==> k in keys)
  }

  /** As many keys are filed as nodes are listed. */
  lemma SameSize(buckets: map<Key, Node>, order: seq<Node>, keys: seq<Key>)
    requires Filed(buckets, order, keys) && NoRepeats(order)
    ensures |buckets| == |order|
  {
    DistinctCount(keys);
    assert buckets.Keys == set k | k in keys;
    assert |buckets.Keys| == |buckets|;
  }

  lemma {:induction false} DistinctCount(keys: seq<Key>)
    requires NoRepeats(keys)
    ensures |set k | k in keys| == |keys|
  {
    if keys != [] {
      var n := |keys| - 1;
      DistinctCount(keys[..n]);
      assert (set k | k in keys) == (set k | k in keys[..n]) + {keys[n]};
    }
  }

  /** The bucket the map gives for a key sits where the value-level table has the key. */
  lemma FiledPosition(buckets: map<Key, Node>, order: seq<Node>, keys: seq<Key>, key: Key)
    requires Filed(buckets, order, keys) && NoRepeats(order)
    ensures var i := Position(keys, key);
      (key in buckets <==> i < |order|) && (i < |order| ==> order[i] == buckets[key])
  {
  }

  lemma FiledDrop(buckets: map<Key, Node>, order: seq<Node>, keys: seq<Key>)
    requires Filed(buckets, order, keys) && NoRepeats(order) && order != []
    ensures var n := |order| - 1; Filed(buckets - {keys[n]}, order[..n], keys[..n])
  {
    var n := |order| - 1;
    forall k | k in buckets - {keys[n]} ensures k in keys[..n] {
      var i :| 0 <= i < |keys| && keys[i] == k;
      assert keys[..n][i] == k;
    }
  }

  lemma FiledAdd(buckets: map<Key, Node>, order: seq<Node>, keys: seq<Key>, key: Key, b: Node)
    requires Filed(buckets, order, keys) && key !in buckets
    ensures Filed(buckets[key := b], [b] + order, [key] + keys)
  {
  }

  lemma MovedAt<T>(s: seq<T>, i: nat, j: nat)
    requires i < |s| && j < |s|
    ensures |Without(s, i)| == |s| - 1
    ensures ([s[i]] + Without(s, i))[j] == s[if j == 0 then i else if j <= i then j - 1 else j]
  {
  }

  lemma FiledMove(buckets: map<Key, Node>, order: seq<Node>, keys: seq<Key>, i: nat)
    requires Filed(buckets, order, keys) && NoRepeats(order) && i < |order|
    ensures Filed(buckets, [order[i]] + Without(order, i), [keys[i]] + Without(keys, i))
  {
    WithoutKeeps(keys, i);
    hide Without;
    MovedAt(order, i, 0);
    MovedAt(keys, i, 0);
    var moved, after := [order[i]] + Without(order, i), [keys[i]] + Without(keys, i);
    forall j | 0 <= j < |after| ensures after[j] in buckets && buckets[after[j]] == moved[j] {
      MovedAt(order, i, j);
      MovedAt(keys, i, j);
    }
  }

  lemma ShowsMove(order: seq<Node>, table: seq<Entry>, i: nat)
    requires Shows(order, table) && i < |order|
    ensures Shows([order[i]] + Without(order, i), [table[i]] + Without(table, i))
  {
  }

  lemma ShowsCharge(order: seq<Node>, table: seq<Entry>, was: seq<Entry>, e: Entry)
    requires order != [] && |order| == |was| && table == was[0 := e]
    requires forall i :: 1 <= i < |order| ==> order[i].key == was[i].key
    requires forall i :: 1 <= i < |order| ==> order[i].credit == was[i].bucket.credit
    requires forall i :: 1 <= i < |order| ==> order[i].last == was[i].bucket.last
    requires e.key == was[0].key == order[0].key
    requires order[0].credit == e.bucket.credit && order[0].last == e.bucket.last
    ensures Shows(order, table) && Keys(table) == Keys(was)
  {
  }

  lemma ShowsInit(order: seq<Node>, table: seq<Entry>)
    requires Shows(order, table) && order != []
    ensures var n := |order| - 1;
      Shows(order[..n], table[..n]) && Keys(table[..n]) == Keys(table)[..n] && Keys(table)[n] == order[n].key
  {
  }

  lemma ShowsPush(order: seq<Node>, table: seq<Entry>, b: Node, e: Entry)
    requires Shows(order, table) && b.key == e.key && b.credit == e.bucket.credit && b.last == e.bucket.last
    ensures Shows([b] + order, [e] + table) && Keys([e] + table) == [e.key] + Keys(table)
  {
  }

  class Table {
    var buckets: map<Key, Node>
    var head: Node?
    var tail: Node?
    const maxKeys: nat
    ghost var order: seq<Node>
    ghost var contents: seq<Entry>

    /** head, tail, prev and next describe exactly the nodes of `order`, in that order. */
    ghost predicate Linked()
      reads this`head, this`tail, this`order, order`prev, order`next
    {
      && NoRepeats(order)
      && (order == [] ==> head == null && tail == null)
      && (order != [] ==> head == order[0] && head.prev == null)
      && (order != [] ==> tail == order[|order| - 1] && tail.next == null)
      && (forall i, j :: 0 <= i < j < |order| && j == i + 1 ==>
        order[i].next == order[j] && order[j].prev == order[i])
    }

    /** List, map and contents describe the same buckets: what every step of a fetch keeps. */
    ghost predicate Coherent()
      reads this, order
    {
      && NoRepeats(order) && |order| == |contents| && Linked()
      && Shows(order, contents) && Filed(buckets, order, Keys(contents))
    }

    ghost predicate Valid()
      reads this, order
    {
      Coherent() && |order| <= maxKeys && maxKeys >= 1
    }

    constructor (maxKeys: nat)
      requires maxKeys >= 1
      ensures Valid() && contents == [] && order == [] && this.maxKeys == maxKeys
    {
      this.maxKeys := maxKeys;
      buckets, head, tail, order, contents := map[], null, null, [], [];
    }

    method Unlink(b: Node, ghost i: nat)
      requires Linked() && i < |order| && order[i] == b
      modifies this`head, this`tail, this`order, order`prev, order`next
      ensures order == Without(old(order), i)
      ensures Linked() && NoRepeats(order) && b !in order && b.prev == null && b.next == null
    {
      assert i > 0 ==> b.prev == order[i - 1];
      assert i + 1 < |order| ==> b.next == order[i + 1];
      WithoutKeeps(order, i);
      if b.prev != null {
        b.prev.next := b.next;
      } else {
        head := b.next;
      }
      if b.next != null {
        b.next.prev := b.prev;
      } else {
        tail := b.prev;
      }
      b.prev, b.next := null, null;
      order := Without(order, i);
    }

    method PushFront(b: Node)
      requires Linked() && b !in order
      modifies this`head, this`tail, this`order, order`prev, b`prev, b`next
      ensures order == [b] + old(order)
      ensures Linked() && NoRepeats(order)
    {
      b.prev := null;
      b.next := head;
      if head != null {
        head.prev := b;
      }
      head := b;
      if tail == null {
        tail := b;
      }
      order := [b] + order;
    }

    method Touch(b: Node, ghost i: nat)
      requires Linked() && i < |order| && order[i] == b
      modifies this`head, this`tail, this`order, order`prev, order`next
      ensures order == [b] + Without(old(order), i)
      ensures Linked() && NoRepeats(order)
    {
      if b == head {
        return;
      }
      Unlink(b, i);
      PushFront(b);
    }

    lemma TailIsLast()
      requires Linked() && order != []
      ensures tail == order[|order| - 1]
    {
    }

    /** The table gives up its least recently seen bucket. */
    method Evict() returns (b: Node)
      requires Coherent() && order != []
      modifies this, order`prev, order`next
      ensures Coherent() && b !in order && b == old(order)[|old(order)| - 1]
      ensures order == old(order)[..|old(order)| - 1] && contents == old(contents)[..|old(order)| - 1]
      ensures buckets.Keys <= old(buckets).Keys
    {
      hide Filed, Shows, NoRepeats, Table.Linked, Keys;
      ghost var n := |order| - 1;
      TailIsLast();
      b := tail;
      FiledDrop(buckets, order, Keys(contents));
      ShowsInit(order, contents);
      assert Without(order, n) == order[..n];
      Unlink(b, n);
      contents := contents[..n];
      buckets := buckets - {b.key};
    }

    /** A bucket for a new key: a fresh one, or the tail's once the table is at its bound. */
    method ReuseOrNew() returns (b: Node)
      requires Valid()
      modifies this, order`prev, order`next
      ensures Coherent() && b !in order && |order| < maxKeys && buckets.Keys <= old(buckets).Keys
      ensures order == if |old(order)| < maxKeys then old(order) else old(order)[..|old(order)| - 1]
      ensures contents == if |old(order)| < maxKeys then old(contents) else old(contents)[..|old(order)| - 1]
      ensures if |old(order)| < maxKeys then fresh(b) else b in old(order)
    {
      hide Filed, Shows, NoRepeats, Table.Linked;
      SameSize(buckets, order, Keys(contents));
      if |buckets| < maxKeys {
        b := new Node();
      } else {
        b := Evict();
      }
    }

    /** A known key's bucket moves to the front. */
    method Promote(b: Node, ghost i: nat)
      requires Coherent() && i < |order| && order[i] == b
      modifies this, order`prev, order`next
      ensures Coherent() && buckets == old(buckets) && order == [b] + Without(old(order), i)
      ensures contents == [old(contents)[i]] + Without(old(contents), i)
    {
      hide Filed, Shows, NoRepeats, Table.Linked;
      FiledMove(buckets, order, Keys(contents), i);
      ShowsMove(order, contents, i);
      KeysMove(contents, i);
      Touch(b, i);
      contents := [contents[i]] + Without(contents, i);
    }

    /** The second half of a fetch: file a bucket under a new key, full, at the front. */
    method File(b: Node, key: Key, now: int, capacity: int)
      requires Coherent() && b !in order && key !in buckets
      modifies this, order, b
      ensures Coherent() && order == [b] + old(order)
      ensures contents == [Entry(key, Bucket(capacity, now))] + old(contents)
    {
      hide Filed, Shows, Keys, Table.Linked;
      FiledAdd(buckets, order, Keys(contents), key, b);
      b.key := key;
      b.credit := capacity;
      b.last := now;
      ghost var entry := Entry(key, Bucket(capacity, now));
      ShowsPush(order, contents, b, entry);
      buckets := buckets[b.key := b];
      PushFront(b);
      contents := [entry] + contents;
    }

    /** fetch: the key's bucket, moved or filed at the front, evicting the least recently seen. */
    method Fetch(key: Key, now: int, capacity: int) returns (b: Node)
      requires Valid()
      modifies this, order
      ensures Valid() && order != [] && order[0] == b
      ensures b in old(order) || fresh(b)
      ensures forall n :: n in order ==> n in old(order) || n == b
      ensures contents == RateLimiter.Fetch(old(contents), key, now, capacity, maxKeys)
    {
      hide Table.Linked, Filed, RateLimiter.Fetch, Position, NoRepeats, Keys, Shows;
      ghost var i := Position(Keys(contents), key);
      FiledPosition(buckets, order, Keys(contents), key);
      FetchedValue(contents, key, now, capacity, maxKeys);
      if key in buckets {
        b := buckets[key];
        Promote(b, i);
      } else {
        b := ReuseOrNew();
        File(b, key, now, capacity);
      }
    }

    /** The bucket just fetched is charged one request, in place. */
    method Charge(b: Node, now: int, l: Limit) returns (ok: bool)
      requires Valid() && order != [] && order[0] == b
      modifies this`contents, b`credit, b`last
      ensures Valid()
      ensures var (charged, paid) := RateBucket.Allow(old(contents)[0].bucket, now, l);
        ok == paid && contents == old(contents)[0 := Entry(old(contents)[0].key, charged)]
    {
      hide Filed, Table.Linked, RateBucket.Allow;
      ok := b.Allow(now, l);
      ghost var was, e := contents, Entry(contents[0].key, Bucket(b.credit, b.last));
      ShowsCharge(order, was[0 := e], was, e);
      contents := was[0 := e];
    }
  }

  /** The two cases of the value-level fetch, by where the key sits. */
  lemma FetchedValue(was: seq<Entry>, key: Key, now: int, capacity: int, maxKeys: nat)
    requires maxKeys >= 1
    ensures var i := Position(Keys(was), key);
      RateLimiter.Fetch(was, key, now, capacity, maxKeys) ==
      if i < |was| then [was[i]] + Without(was, i)
      else [Entry(key, Bucket(capacity, now))] + (if |was| < maxKeys then was else was[..|was| - 1])
  {
  }

  /** The plugin's state: the table, and the bucket all traffic shares when configured. */
  class Limiter {
    const config: Config
    const table: Table
    const global: Node?

    ghost predicate Valid()
      reads this, table, table.order
    {
      && table.Valid() && table.maxKeys == config.maxKeys
      && (global == null || global !in table.order)
      && (global == null <==> config.global.None?)
    }

    ghost function View(): State
      reads this, table, global
    {
      State(table.contents, if global == null then None else Some(Bucket(global.credit, global.last)))
    }

    constructor (config: Config, now: int)
      requires config.maxKeys >= 1
      ensures Valid() && this.config == config && View() == Start(config, now)
    {
      this.config := config;
      table := new Table(config.maxKeys);
      var shared: Node? := null;
      if config.global.Some? {
        var b := new Node();
        b.credit := config.global.value.capacity;
        b.last := now;
        shared := b;
      }
      global := shared;
    }

    method AllowGlobal(now: int) returns (ok: bool)
      requires Valid()
      modifies global
      ensures table.contents == old(table.contents) && table.order == old(table.order)
      ensures Valid()
      ensures (View().global, ok) == RateLimiter.AllowGlobal(config, old(View()).global, now)
    {
      if global == null {
        return true;
      }
      ok := global.Allow(now, config.global.value);
    }

    /** The key's own bucket pays; the table then shows the charged bucket. */
    method ConsumeOwn(key: Key, now: int) returns (own: bool)
      requires Valid()
      modifies table, table.order
      ensures Valid() && View().global == old(View()).global
      ensures forall n :: n in table.order ==> n in old(table.order) || fresh(n)
      ensures
        var fetched := RateLimiter.Fetch(old(View()).table, key, now, config.perKey.capacity, config.maxKeys);
        && fetched != [] && own == RateBucket.Allow(fetched[0].bucket, now, config.perKey).1
        && View().table == fetched[0 := Entry(key, RateBucket.Allow(fetched[0].bucket, now, config.perKey).0)]
    {
      hide Filed, Shows, NoRepeats, Keys, RateLimiter.Fetch, Table.Linked, RateBucket.Allow;
      var b := table.Fetch(key, now, config.perKey.capacity);
      own := table.Charge(b, now, config.perKey);
    }

    /** consume: charge the key's own bucket, and the shared one only if that paid. */
    method Consume(key: Key, now: int) returns (ok: bool)
      requires Valid()
      modifies table, table.order, global
      ensures Valid()
      ensures forall n :: n in table.order ==> n in old(table.order) || fresh(n)
      ensures (View(), ok) == RateLimiter.Consume(config, old(View()), key, now)
    {
      hide Table.Valid, RateLimiter.Fetch, RateBucket.Allow;
      ok := ConsumeOwn(key, now);
      if ok {
        ok := AllowGlobal(now);
      }
    }
  }
}
