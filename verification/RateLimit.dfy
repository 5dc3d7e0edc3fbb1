/** The in-memory sliding-window limiter of backend/app/core/rate_limit.py, against a reference
    limiter that forgets nothing. */
module RateLimit {

  // ----- Reference: the full history of accepted hits -----

  predicate NonDecreasing(ts: seq<real>) {
    forall i, j :: 0 <= i < j < |ts| ==> ts[i] <= ts[j]
  }

  /** How many of the hits lie within the window that ends now. */
  function Recent(ts: seq<real>, now: real, window: real): nat {
    if ts == [] then 0
    else Recent(ts[..|ts| - 1], now, window) + if now - ts[|ts| - 1] <= window then 1 else 0
  }

  /** The hits a limiter with a perfect memory accepts out of those asked for. */
  function Accepted(asked: seq<real>, maxHits: nat, window: real): seq<real> {
    if asked == [] then []
    else
      var before := Accepted(asked[..|asked| - 1], maxHits, window);
      var now := asked[|asked| - 1];
      if Recent(before, now, window) < maxHits then before + [now] else before
  }

  lemma {:induction false} RecentOfSuffix(ts: seq<real>, d: nat, now: real, window: real)
    requires d <= |ts|
    requires forall i :: 0 <= i < d ==> now - ts[i] > window
    requires forall i :: d <= i < |ts| ==> now - ts[i] <= window
    ensures Recent(ts, now, window) == |ts| - d
  {
    if ts == [] {
    } else {
      var n := |ts| - 1;
      if d <= n { RecentOfSuffix(ts[..n], d, now, window); } else { RecentOfSuffix(ts[..n], n, now, window); }
    }
  }

  /** How many hits lie in the closed window [from, from + window]. */
  function Within(ts: seq<real>, from: real, window: real): nat {
    if ts == [] then 0
    else Within(ts[..|ts| - 1], from, window) + if from <= ts[|ts| - 1] <= from + window then 1 else 0
  }

  lemma {:induction false} WithinIsRecent(ts: seq<real>, from: real, now: real, window: real)
    requires from <= now <= from + window && forall i :: 0 <= i < |ts| ==> ts[i] <= now
    ensures Within(ts, from, window) <= Recent(ts, now, window)
  {
    if ts == [] {
    } else {
      WithinIsRecent(ts[..|ts| - 1], from, now, window);
    }
  }

  lemma {:induction false} AcceptedWithinAsked(asked: seq<real>, maxHits: nat, window: real, bound: real)
    requires forall i :: 0 <= i < |asked| ==> asked[i] <= bound
    ensures forall i :: 0 <= i < |Accepted(asked, maxHits, window)| ==> Accepted(asked, maxHits, window)[i] <= bound
  {
    if asked == [] {
    } else {
      AcceptedWithinAsked(asked[..|asked| - 1], maxHits, window, bound);
    }
  }

  /** The limit holds for every window, not only those that end at a check: no closed window
      of the given length holds more than maxHits accepted hits. */
  lemma {:induction false} NoWindowOverfull(asked: seq<real>, maxHits: nat, window: real, from: real)
    requires NonDecreasing(asked)
    ensures Within(Accepted(asked, maxHits, window), from, window) <= maxHits
  {
    if asked == [] {
    } else {
      var n := |asked| - 1;
      var before, now := Accepted(asked[..n], maxHits, window), asked[n];
      NoWindowOverfull(asked[..n], maxHits, window, from);
      if Recent(before, now, window) < maxHits && from <= now <= from + window {
        AcceptedWithinAsked(asked[..n], maxHits, window, now);
        WithinIsRecent(before, from, now, window);
      }
      assert (before + [now])[..|before|] == before;
    }
  }

  // ----- The limiter -----

  /** What is limited: an endpoint and a user, or an address. */
  datatype Key = Key(name: string)

  function Without(keys: seq<Key>, key: Key): (r: seq<Key>)
    ensures forall k :: k in r <==> k in keys && k != key
    ensures |r| <= |keys| && (key in keys ==> |r| < |keys|)
    ensures Distinct(keys) ==> Distinct(r)
    ensures key !in keys ==> r == keys
  {
    if keys == [] then []
    else if keys[0] == key then Without(keys[1..], key)
    else
      var rest := Without(keys[1..], key);
      assert Distinct(keys) ==> keys[0] !in keys[1..] && Distinct(keys[1..]);
      [keys[0]] + rest
  }

  /** The other keys stay in their places. */
  lemma {:induction false} WithoutOne(keys: seq<Key>, key: Key, i: nat)
    requires Distinct(keys) && i < |keys| && keys[i] == key
    ensures Without(keys, key) == keys[..i] + keys[i + 1..]
  {
    if i == 0 {
      assert key !in keys[1..];
    } else {
      WithoutOne(keys[1..], key, i - 1);
      assert keys[1..][i..] == keys[i + 1..];
      assert keys[..i] == [keys[0]] + keys[1..][..i - 1];
    }
  }

  predicate Distinct(keys: seq<Key>) {
    forall i, j :: 0 <= i < j < |keys| ==> keys[i] != keys[j]
  }

  /** What one key has asked for and been granted so far. */
  datatype Log = Log(asked: seq<real>, accepted: seq<real>)

  ghost function LogOf(logs: map<Key, Log>, key: Key): Log {
    if key in logs then logs[key] else Log([], [])
  }

  predicate UpTo(ts: seq<real>, now: real) {
    NonDecreasing(ts) && forall i :: 0 <= i < |ts| ==> ts[i] <= now
  }

  /** The bucket of a key is a tail of its accepted hits; for a key never evicted it lacks only
      hits that have left the window, and its accepted hits are those of the reference. */
  ghost predicate KeyOk(bucket: seq<real>, log: Log, evicted: bool, now: real, maxHits: nat, window: real) {
    && UpTo(log.asked, now) && UpTo(log.accepted, now)
    && |bucket| <= |log.accepted|
    && bucket == log.accepted[|log.accepted| - |bucket|..]
    && (!evicted ==>
          && log.accepted == Accepted(log.asked, maxHits, window)
          && forall i :: 0 <= i < |log.accepted| - |bucket| ==> now - log.accepted[i] > window)
  }

  lemma KeyOkTrimmed(
      bucket: seq<real>, kept: seq<real>, log: Log, evicted: bool, earlier: real, now: real, maxHits: nat, window: real)
    requires KeyOk(bucket, log, evicted, earlier, maxHits, window) && earlier <= now
    requires |kept| <= |bucket| && kept == bucket[|bucket| - |kept|..]
    requires forall i :: 0 <= i < |bucket| - |kept| ==> now - bucket[i] > window
    ensures KeyOk(kept, log, evicted, now, maxHits, window)
  {
    var d := |log.accepted| - |bucket|;
    forall i | d <= i < |log.accepted| - |kept| ensures now - log.accepted[i] > window {
      assert log.accepted[i] == bucket[i - d];
    }
  }

  /** With an up-to-date bucket, its length is the reference's count. */
  lemma BucketCounts(bucket: seq<real>, log: Log, now: real, maxHits: nat, window: real)
    requires KeyOk(bucket, log, false, now, maxHits, window)
    requires forall i :: 0 <= i < |bucket| ==> now - bucket[i] <= window
    ensures |bucket| == Recent(log.accepted, now, window)
  {
    var d := |log.accepted| - |bucket|;
    forall i | d <= i < |log.accepted| ensures now - log.accepted[i] <= window {
      assert log.accepted[i] == bucket[i - d];
    }
    RecentOfSuffix(log.accepted, d, now, window);
  }

  function Asked(log: Log, now: real, ok: bool): Log {
    Log(log.asked + [now], if ok then log.accepted + [now] else log.accepted)
  }

  lemma AcceptedStep(asked: seq<real>, now: real, maxHits: nat, window: real)
    ensures var before := Accepted(asked, maxHits, window);
            Accepted(asked + [now], maxHits, window) ==
              if Recent(before, now, window) < maxHits then before + [now] else before
  {
    assert (asked + [now])[..|asked|] == asked;
  }

  lemma TailSnoc(bucket: seq<real>, accepted: seq<real>, now: real)
    requires |bucket| <= |accepted| && bucket == accepted[|accepted| - |bucket|..]
    ensures bucket + [now] == (accepted + [now])[|accepted| - |bucket|..]
  {
  }

  lemma UpToSnoc(ts: seq<real>, now: real)
    requires UpTo(ts, now)
    ensures UpTo(ts + [now], now)
  {
  }

  lemma KeyOkHit(bucket: seq<real>, log: Log, evicted: bool, now: real, maxHits: nat, window: real)
    requires KeyOk(bucket, log, evicted, now, maxHits, window)
    requires !evicted ==> Accepted(log.asked + [now], maxHits, window) == log.accepted + [now]
    ensures KeyOk(bucket + [now], Asked(log, now, true), evicted, now, maxHits, window)
  {
    TailSnoc(bucket, log.accepted, now);
    UpToSnoc(log.accepted, now);
    UpToSnoc(log.asked, now);
    var accepted := log.accepted + [now];
    assert forall i :: 0 <= i < |log.accepted| ==> accepted[i] == log.accepted[i];
  }

  lemma KeyOkRefused(bucket: seq<real>, log: Log, evicted: bool, now: real, maxHits: nat, window: real)
    requires KeyOk(bucket, log, evicted, now, maxHits, window)
    requires !evicted ==> Accepted(log.asked + [now], maxHits, window) == log.accepted
    ensures KeyOk(bucket, Asked(log, now, false), evicted, now, maxHits, window)
  {
    UpToSnoc(log.asked, now);
  }

  /** Deciding by the length of an up-to-date bucket keeps the key in step with the reference. */
  lemma KeyOkAsked(bucket: seq<real>, log: Log, evicted: bool, now: real, maxHits: nat, window: real)
    requires KeyOk(bucket, log, evicted, now, maxHits, window)
    requires forall i :: 0 <= i < |bucket| ==> now - bucket[i] <= window
    ensures |bucket| < maxHits ==> KeyOk(bucket + [now], Asked(log, now, true), evicted, now, maxHits, window)
    ensures |bucket| >= maxHits ==> KeyOk(bucket, Asked(log, now, false), evicted, now, maxHits, window)
    ensures !evicted ==> (|bucket| < maxHits <==> Recent(log.accepted, now, window) < maxHits)
  {
    if !evicted {
      BucketCounts(bucket, log, now, maxHits, window);
      AcceptedStep(log.asked, now, maxHits, window);
    }
    if |bucket| < maxHits {
      KeyOkHit(bucket, log, evicted, now, maxHits, window);
    } else {
      KeyOkRefused(bucket, log, evicted, now, maxHits, window);
    }
  }

  // ----- All keys together -----

  predicate AllGone(bucket: seq<real>, now: real, window: real) {
    forall i :: 0 <= i < |bucket| ==> now - bucket[i] > window
  }

  /** The entries that a check of `key` finds, oldest first, once it has dropped the key's own entry if
      all its hits have left the window. */
  ghost function Kept(order: seq<Key>, hits: map<Key, seq<real>>, key: Key, now: real, window: real): seq<Key> {
    if AllGone(BucketIn(hits, key), now, window) then Without(order, key) else order
  }

  ghost function BucketIn(hits: map<Key, seq<real>>, key: Key): seq<real> {
    if key in hits then hits[key] else []
  }

  /** What the proofs remember beside the dict. */
  datatype Memory = Memory(logs: map<Key, Log>, evicted: set<Key>, now: real)

  ghost predicate KeyIn(hits: map<Key, seq<real>>, m: Memory, k: Key, maxHits: nat, window: real) {
    KeyOk(BucketIn(hits, k), LogOf(m.logs, k), k in m.evicted, m.now, maxHits, window)
  }

  ghost predicate KeysOk(hits: map<Key, seq<real>>, m: Memory, maxHits: nat, window: real) {
    forall k: Key :: KeyIn(hits, m, k, maxHits, window)
  }

  ghost predicate SameMemoryBut(m: Memory, m': Memory, key: Key) {
    m.now <= m'.now && forall k: Key :: k != key ==>
      LogOf(m'.logs, k) == LogOf(m.logs, k) && (k in m'.evicted <==> k in m.evicted)
  }

  ghost predicate SameHitsBut(hits: map<Key, seq<real>>, hits': map<Key, seq<real>>, key: Key) {
    forall k: Key :: k != key ==> BucketIn(hits', k) == BucketIn(hits, k)
  }

  lemma OtherKey(
      hits: map<Key, seq<real>>, m: Memory, hits': map<Key, seq<real>>, m': Memory, k: Key, maxHits: nat, window: real)
    requires KeyIn(hits, m, k, maxHits, window) && m.now <= m'.now
    requires BucketIn(hits', k) == BucketIn(hits, k)
    requires LogOf(m'.logs, k) == LogOf(m.logs, k) && (k in m'.evicted <==> k in m.evicted)
    ensures KeyIn(hits', m', k, maxHits, window)
  {
    var bucket := BucketIn(hits, k);
    KeyOkTrimmed(bucket, bucket, LogOf(m.logs, k), k in m.evicted, m.now, m'.now, maxHits, window);
  }

  /** A change to one key keeps the others in order, however much later it happens. */
  lemma OneKeyChanged(
      hits: map<Key, seq<real>>, m: Memory, hits': map<Key, seq<real>>, m': Memory, key: Key,
      maxHits: nat, window: real)
    requires KeysOk(hits, m, maxHits, window)
    requires SameHitsBut(hits, hits', key) && SameMemoryBut(m, m', key)
    requires KeyIn(hits', m', key, maxHits, window)
    ensures KeysOk(hits', m', maxHits, window)
  {
    forall k: Key ensures KeyIn(hits', m', k, maxHits, window) {
      if k != key { OtherKey(hits, m, hits', m', k, maxHits, window); }
    }
  }

  lemma SetOne(hits: map<Key, seq<real>>, key: Key, bucket: seq<real>)
    ensures SameHitsBut(hits, hits[key := bucket], key) && BucketIn(hits[key := bucket], key) == bucket
    ensures SameHitsBut(hits, hits - {key}, key) && BucketIn(hits - {key}, key) == []
  {
  }

  // ----- The dict -----

  predicate DictOk(order: seq<Key>, hits: map<Key, seq<real>>, maxKeys: nat) {
    && 0 < maxKeys && |order| <= maxKeys
    && Distinct(order)
    && (forall k :: k in order ==> k in hits)
    && (forall k :: k in hits ==> k in order)
  }

  lemma {:induction false} SizeOfKeys(order: seq<Key>, keys: set<Key>)
    requires forall k :: k in keys ==> k in order
    ensures |keys| <= |order|
    decreases |order|
  {
    if order == [] {
      assert keys == {};
    } else {
      var rest := keys - {order[0]};
      forall k | k in rest ensures k in order[1..] {
        assert order == [order[0]] + order[1..];
      }
      SizeOfKeys(order[1..], rest);
      assert order[0] in keys ==> keys == rest + {order[0]};
      assert order[0] !in keys ==> keys == rest;
    }
  }

  lemma DictWithout(order: seq<Key>, hits: map<Key, seq<real>>, key: Key, maxKeys: nat)
    requires DictOk(order, hits, maxKeys)
    ensures DictOk(Without(order, key), hits - {key}, maxKeys)
  {
  }

  lemma DictWith(order: seq<Key>, hits: map<Key, seq<real>>, key: Key, bucket: seq<real>, maxKeys: nat)
    requires DictOk(order, hits, maxKeys) && key in hits
    ensures DictOk(order, hits[key := bucket], maxKeys)
  {
  }

  /** The entry of a key goes exactly when nothing of its bucket is left. */
  lemma KeptWhenTrimmed(
      order: seq<Key>, hits: map<Key, seq<real>>, key: Key, kept: seq<real>, now: real, window: real, maxKeys: nat)
    requires DictOk(order, hits, maxKeys)
    requires var bucket := BucketIn(hits, key);
             && |kept| <= |bucket| && kept == bucket[|bucket| - |kept|..]
             && (forall i :: 0 <= i < |bucket| - |kept| ==> now - bucket[i] > window)
             && forall i :: 0 <= i < |kept| ==> now - kept[i] <= window
    ensures Kept(order, hits, key, now, window) == if kept == [] then Without(order, key) else order
    ensures key !in hits ==> Without(order, key) == order
  {
    var bucket := BucketIn(hits, key);
    if kept != [] { assert kept[0] == bucket[|bucket| - |kept|]; }
  }

  /** Setting one bucket, where an empty bucket is no entry at all. */
  function Put(hits: map<Key, seq<real>>, key: Key, bucket: seq<real>): map<Key, seq<real>> {
    if bucket == [] then hits - {key} else hits[key := bucket]
  }

  lemma PutTrimmed(
      hits: map<Key, seq<real>>, m: Memory, key: Key, kept: seq<real>, now: real, maxHits: nat, window: real)
    requires KeysOk(hits, m, maxHits, window) && m.now <= now
    requires var bucket := BucketIn(hits, key);
             && |kept| <= |bucket| && kept == bucket[|bucket| - |kept|..]
             && forall i :: 0 <= i < |bucket| - |kept| ==> now - bucket[i] > window
    ensures KeysOk(Put(hits, key, kept), m.(now := now), maxHits, window)
    ensures BucketIn(Put(hits, key, kept), key) == kept
  {
    assert KeyIn(hits, m, key, maxHits, window);
    KeyOkTrimmed(BucketIn(hits, key), kept, LogOf(m.logs, key), key in m.evicted, m.now, now, maxHits, window);
    SetOne(hits, key, kept);
    OneKeyChanged(hits, m, Put(hits, key, kept), m.(now := now), key, maxHits, window);
  }

  /** The dict once the bucket of `key` is trimmed to `kept`. */
  lemma Refreshed(
      order: seq<Key>, hits: map<Key, seq<real>>, m: Memory, key: Key, kept: seq<real>, now: real,
      maxHits: nat, window: real, maxKeys: nat)
    requires DictOk(order, hits, maxKeys) && KeysOk(hits, m, maxHits, window) && m.now <= now
    requires var bucket := BucketIn(hits, key);
             && |kept| <= |bucket| && kept == bucket[|bucket| - |kept|..]
             && (forall i :: 0 <= i < |bucket| - |kept| ==> now - bucket[i] > window)
             && forall i :: 0 <= i < |kept| ==> now - kept[i] <= window
    ensures var hits', order' := Put(hits, key, kept), Kept(order, hits, key, now, window);
            && DictOk(order', hits', maxKeys) && KeysOk(hits', m.(now := now), maxHits, window)
            && BucketIn(hits', key) == kept
            && order' == (if kept == [] then Without(order, key) else order)
            && (key !in hits ==> order' == order && hits' == hits)
  {
    assert key !in hits ==> hits - {key} == hits;
    PutTrimmed(hits, m, key, kept, now, maxHits, window);
    KeptWhenTrimmed(order, hits, key, kept, now, window, maxKeys);
    if kept == [] {
      DictWithout(order, hits, key, maxKeys);
    } else {
      DictWith(order, hits, key, kept, maxKeys);
    }
  }

  lemma BucketInOrder(hits: map<Key, seq<real>>, m: Memory, key: Key, maxHits: nat, window: real)
    requires KeysOk(hits, m, maxHits, window)
    ensures NonDecreasing(BucketIn(hits, key))
  {
    assert KeyIn(hits, m, key, maxHits, window);
  }

  lemma EvictedKey(log: Log, bucket: seq<real>, evicted: bool, now: real, maxHits: nat, window: real)
    requires KeyOk(bucket, log, evicted, now, maxHits, window)
    ensures KeyOk([], log, true, now, maxHits, window)
  {
  }

  lemma Evicted(hits: map<Key, seq<real>>, m: Memory, oldest: Key, maxHits: nat, window: real)
    requires KeysOk(hits, m, maxHits, window)
    ensures KeysOk(hits - {oldest}, m.(evicted := m.evicted + {oldest}), maxHits, window)
  {
    assert KeyIn(hits, m, oldest, maxHits, window);
    EvictedKey(LogOf(m.logs, oldest), BucketIn(hits, oldest), oldest in m.evicted, m.now, maxHits, window);
    SetOne(hits, oldest, []);
    OneKeyChanged(hits, m, hits - {oldest}, m.(evicted := m.evicted + {oldest}), oldest, maxHits, window);
  }

  lemma Inserted(hits: map<Key, seq<real>>, m: Memory, key: Key, maxHits: nat, window: real)
    requires KeysOk(hits, m, maxHits, window) && key !in hits
    ensures KeysOk(hits[key := []], m, maxHits, window)
  {
    assert KeyIn(hits, m, key, maxHits, window);
    SetOne(hits, key, []);
    OneKeyChanged(hits, m, hits[key := []], m, key, maxHits, window);
  }

  ghost function Recorded(m: Memory, key: Key, ok: bool): Memory {
    m.(logs := m.logs[key := Asked(LogOf(m.logs, key), m.now, ok)])
  }

  lemma RecordedOne(m: Memory, key: Key, ok: bool)
    ensures SameMemoryBut(m, Recorded(m, key, ok), key)
    ensures LogOf(Recorded(m, key, ok).logs, key) == Asked(LogOf(m.logs, key), m.now, ok)
  {
  }

  lemma Decided(hits: map<Key, seq<real>>, m: Memory, key: Key, maxHits: nat, window: real)
    requires KeysOk(hits, m, maxHits, window) && key in hits
    requires forall i :: 0 <= i < |hits[key]| ==> m.now - hits[key][i] <= window
    ensures |hits[key]| < maxHits ==> KeysOk(hits[key := hits[key] + [m.now]], Recorded(m, key, true), maxHits, window)
    ensures |hits[key]| >= maxHits ==> KeysOk(hits, Recorded(m, key, false), maxHits, window)
    ensures key !in m.evicted ==>
              (|hits[key]| < maxHits <==> Recent(LogOf(m.logs, key).accepted, m.now, window) < maxHits)
  {
    var bucket, ok := hits[key], |hits[key]| < maxHits;
    assert KeyIn(hits, m, key, maxHits, window);
    KeyOkAsked(bucket, LogOf(m.logs, key), key in m.evicted, m.now, maxHits, window);
    RecordedOne(m, key, ok);
    if ok {
      SetOne(hits, key, bucket + [m.now]);
      OneKeyChanged(hits, m, hits[key := bucket + [m.now]], Recorded(m, key, true), key, maxHits, window);
    } else {
      OneKeyChanged(hits, m, hits, Recorded(m, key, false), key, maxHits, window);
    }
  }

  lemma NeverEvictedKey(hits: map<Key, seq<real>>, m: Memory, key: Key, maxHits: nat, window: real)
    requires KeysOk(hits, m, maxHits, window)
    ensures key !in m.evicted ==>
              var log := LogOf(m.logs, key);
              && log.accepted == Accepted(log.asked, maxHits, window)
              && forall from :: Within(log.accepted, from, window) <= maxHits
  {
    assert KeyIn(hits, m, key, maxHits, window);
    forall from ensures Within(Accepted(LogOf(m.logs, key).asked, maxHits, window), from, window) <= maxHits {
      NoWindowOverfull(LogOf(m.logs, key).asked, maxHits, window, from);
    }
  }

  /** `hits` is Python's dict of deques and `order` its insertion order. A key without an entry makes
      one at the end; when there is no room the key at the front, whose entry is the oldest, goes. */
  class InMemoryRateLimiter {
    const maxHits: nat
    const window: real
    const maxKeys: nat
    var order: seq<Key>
    var hits: map<Key, seq<real>>
    ghost var memory: Memory

    ghost predicate Valid()
      reads this
    {
      DictOk(order, hits, maxKeys) && KeysOk(hits, memory, maxHits, window)
    }

    constructor (maxHits: nat, window: real, maxKeys: nat, ghost start: real)
      requires maxKeys > 0
      ensures Valid() && this.maxHits == maxHits && this.window == window && this.maxKeys == maxKeys
      ensures hits == map[] && memory == Memory(map[], {}, start)
    {
      this.maxHits, this.window, this.maxKeys := maxHits, window, maxKeys;
      order, hits, memory := [], map[], Memory(map[], {}, start);
    }

    /** Drop the hits that have left the window; those kept are all within it. */
    static method Expire(bucket: seq<real>, now: real, window: real) returns (kept: seq<real>)
      requires NonDecreasing(bucket)
      ensures |kept| <= |bucket| && kept == bucket[|bucket| - |kept|..]
      ensures forall i :: 0 <= i < |bucket| - |kept| ==> now - bucket[i] > window
      ensures forall i :: 0 <= i < |kept| ==> now - kept[i] <= window
    {
      kept := bucket;
      while kept != [] && now - kept[0] > window
        invariant |kept| <= |bucket| && kept == bucket[|bucket| - |kept|..]
        invariant forall i :: 0 <= i < |bucket| - |kept| ==> now - bucket[i] > window
        decreases |kept|
      {
        kept := kept[1..];
      }
    }

    /** check, first part: bring this key's bucket up to date, forgetting an empty one. */
    method Refresh(key: Key, now: real)
      requires Valid() && memory.now <= now
      modifies this
      ensures Valid() && memory == old(memory).(now := now)
      ensures forall i :: 0 <= i < |BucketIn(hits, key)| ==> now - BucketIn(hits, key)[i] <= window
      ensures order == old(Kept(order, hits, key, now, window))
    {
      var kept := [];
      if key in hits {
        BucketInOrder(hits, memory, key, maxHits, window);
        kept := Expire(hits[key], now, window);
      }
      Refreshed(order, hits, memory, key, kept, now, maxHits, window, maxKeys);
      if key in hits {
        if kept == [] {
          hits, order := hits - {key}, Without(order, key);
        } else {
          hits := hits[key := kept];
        }
      }
      memory := memory.(now := now);
    }

    /** check, second part: a new key at capacity takes the place of the oldest one. */
    method MakeRoom(key: Key)
      requires Valid()
      modifies this
      ensures Valid() && key in hits && BucketIn(hits, key) == BucketIn(old(hits), key)
      ensures var full := key !in old(order) && |old(order)| >= maxKeys;
              && order == (if key in old(order) then old(order)
                           else (if full then old(order)[1..] else old(order)) + [key])
              && memory == (if full then old(memory).(evicted := old(memory).evicted + {old(order)[0]}) else old(memory))
              && (full ==> old(order)[0] != key)
    {
      if key !in hits && |order| >= maxKeys {
        var oldest := order[0];
        Evicted(hits, memory, oldest, maxHits, window);
        hits := hits - {oldest};
        order := order[1..];
        memory := memory.(evicted := memory.evicted + {oldest});
      }
      if key !in hits {
        Inserted(hits, memory, key, maxHits, window);
        hits := hits[key := []];
        order := order + [key];
      }
    }

    /** check. At most one key is evicted, the one with the oldest entry, and only for a key without an
        entry when the table is full. For a key never evicted the decision is the reference's: accept exactly when
        fewer than maxHits of all its accepted hits lie in the window that ends now. */
    method Check(key: Key, now: real) returns (ok: bool)
      requires Valid() && memory.now <= now
      modifies this
      ensures Valid() && memory.now == now && |hits| <= maxKeys
      ensures memory.logs == old(memory.logs)[key := Asked(LogOf(old(memory.logs), key), now, ok)]
      ensures old(memory.evicted) <= memory.evicted && (key in memory.evicted ==> key in old(memory.evicted))
      ensures var kept := old(Kept(order, hits, key, now, window));
              var full := key !in kept && |kept| >= maxKeys;
              && order == (if key in kept then kept else (if full then kept[1..] else kept) + [key])
              && memory.evicted == old(memory.evicted) + (if full then {kept[0]} else {})
      ensures key !in memory.evicted ==> (ok <==> Recent(LogOf(old(memory.logs), key).accepted, now, window) < maxHits)
      ensures key !in memory.evicted ==>
                LogOf(memory.logs, key).accepted == Accepted(LogOf(memory.logs, key).asked, maxHits, window)
      ensures key !in memory.evicted ==>
                forall from :: Within(LogOf(memory.logs, key).accepted, from, window) <= maxHits
    {
      Refresh(key, now);
      MakeRoom(key);
      Decided(hits, memory, key, maxHits, window);
      ok := |hits[key]| < maxHits;
      if ok {
        hits := hits[key := hits[key] + [now]];
      }
      memory := Recorded(memory, key, ok);
      SizeOfKeys(order, hits.Keys);
      NeverEvictedKey(hits, memory, key, maxHits, window);
    }
  }
}
