/** Sliding-window rate limits: a table of buckets of accepted times, least recently used first. */
module RateLimits {
  const WINDOW: real := 60.0

  datatype Key = Key(category: string, identity: string)
  datatype Table = Table(order: seq<Key>, buckets: map<Key, seq<real>>)
  datatype Call = Call(key: Key, at: real)

  /** Drop the leading entries that have left the window. */
  function Prune(bucket: seq<real>, cutoff: real): seq<real> {
    if bucket != [] && bucket[0] <= cutoff then Prune(bucket[1..], cutoff) else bucket
  }

  function Without(order: seq<Key>, key: Key): seq<Key> {
    if order == [] then [] else
      if order[0] == key then Without(order[1..], key) else [order[0]] + Without(order[1..], key)
  }

  /** Find the key's bucket or create it, evicting the least recently used one from a full table. */
  function Touch(t: Table, maxBuckets: nat, key: Key): (u: Table)
    ensures key in u.buckets
  {
    if key in t.buckets then Table(Without(t.order, key) + [key], t.buckets)
    else if |t.buckets| >= maxBuckets && t.order != [] then
      Table(t.order[1..] + [key], (t.buckets - {t.order[0]})[key := []])
    else Table(t.order + [key], t.buckets[key := []])
  }

  /** One request: the table afterwards, and whether it was accepted. */
  function Take(t: Table, maxBuckets: nat, limit: nat, call: Call): (Table, bool) {
    var u := Touch(t, maxBuckets, call.key);
    var bucket := Prune(u.buckets[call.key], call.at - WINDOW);
    if |bucket| >= limit then (u.(buckets := u.buckets[call.key := bucket]), false)
    else (u.(buckets := u.buckets[call.key := bucket + [call.at]]), true)
  }

  // ---------------------------------------------------------------- the implementation

  method PopExpired(bucket: seq<real>, cutoff: real) returns (kept: seq<real>)
    ensures kept == Prune(bucket, cutoff)
  {
    kept := bucket;
    while kept != [] && kept[0] <= cutoff
      invariant Prune(kept, cutoff) == Prune(bucket, cutoff)
      decreases |kept|
    {
      kept := kept[1..];
    }
  }

  /** Removing one key from the recency order. */
  method MoveToEnd(order: seq<Key>, key: Key) returns (moved: seq<Key>)
    ensures moved == Without(order, key) + [key]
  {
    moved := [];
    var rest := order;
    while rest != []
      invariant moved + Without(rest, key) == Without(order, key)
      decreases |rest|
    {
      if rest[0] != key {
        moved := moved + [rest[0]];
      }
      rest := rest[1..];
    }
    moved := moved + [key];
  }

  /** The lookup both limiters start with. */
  method FindOrCreate(order: seq<Key>, buckets: map<Key, seq<real>>, maxBuckets: nat, key: Key)
    returns (order': seq<Key>, buckets': map<Key, seq<real>>)
    ensures Table(order', buckets') == Touch(Table(order, buckets), maxBuckets, key)
  {
    order', buckets' := order, buckets;
    if key in buckets {
      order' := MoveToEnd(order, key);
    } else {
      if |buckets| >= maxBuckets && order != [] {
        order', buckets' := order[1..], buckets - {order[0]};
      }
      order', buckets' := order' + [key], buckets'[key := []];
    }
  }

  datatype CheckResult = Accepted | RateLimitExceeded(category: string) | UnknownCategory

  class AuthenticatedRateLimiter {
    const limits: map<string, nat>
    const maxBuckets: nat
    var order: seq<Key>
    var buckets: map<Key, seq<real>>

    constructor (limits: map<string, nat>, maxBuckets: nat)
      ensures this.limits == limits && this.maxBuckets == maxBuckets && Contents() == Table([], map[])
    {
      this.limits, this.maxBuckets := limits, maxBuckets;
      order, buckets := [], map[];
    }

    function Contents(): Table
      reads this
    {
      Table(order, buckets)
    }

    /** An unknown category has no limit and is refused before any bucket is touched. */
    method Check(category: string, identity: string, now: real) returns (r: CheckResult)
      modifies this
      ensures category !in limits ==> r == UnknownCategory && Contents() == old(Contents())
      ensures category in limits ==>
        var taken := Take(old(Contents()), maxBuckets, limits[category], Call(Key(category, identity), now));
        Contents() == taken.0 && r == if taken.1 then Accepted else RateLimitExceeded(category)
    {
      if category !in limits {
        return UnknownCategory;
      }
      hide Touch, Prune;
      var limit := limits[category];
      var cutoff := now - WINDOW;
      var key := Key(category, identity);
      order, buckets := FindOrCreate(order, buckets, maxBuckets, key);
      var bucket := PopExpired(buckets[key], cutoff);
      if |bucket| >= limit {
        buckets := buckets[key := bucket];
        return RateLimitExceeded(category);
      }
      buckets := buckets[key := bucket + [now]];
      r := Accepted;
    }
  }

  function Ceil(x: real): int { -((-x).Floor) }

  /** The Retry-After header of a refusal: whole seconds until the oldest entry leaves the window. */
  function RetryAfter(bucket: seq<real>, now: real): int
    requires bucket != []
  {
    var wait := Ceil(WINDOW - (now - bucket[0]));
    if wait < 1 then 1 else wait
  }

  class RateLimitMiddleware {
    const maxBuckets: nat
    var order: seq<Key>
    var buckets: map<Key, seq<real>>

    constructor (maxBuckets: nat)
      ensures this.maxBuckets == maxBuckets && Contents() == Table([], map[])
    {
      this.maxBuckets := maxBuckets;
      order, buckets := [], map[];
    }

    function Contents(): Table
      reads this
    {
      Table(order, buckets)
    }

    /** Zero for an accepted request, else the Retry-After seconds. */
    method Consume(key: Key, limit: nat, now: real) returns (retryAfter: int)
      requires limit >= 1
      modifies this
      ensures var taken := Take(old(Contents()), maxBuckets, limit, Call(key, now));
        && Contents() == taken.0
        && (taken.1 ==> retryAfter == 0)
        && (!taken.1 ==> key in buckets && buckets[key] != [] && retryAfter == RetryAfter(buckets[key], now))
    {
      hide Touch, Prune, RetryAfter;
      retryAfter := 0;
      order, buckets := FindOrCreate(order, buckets, maxBuckets, key);
      var bucket := PopExpired(buckets[key], now - WINDOW);
      if |bucket| >= limit {
        buckets := buckets[key := bucket];
        retryAfter := RetryAfter(bucket, now);
      } else {
        buckets := buckets[key := bucket + [now]];
      }
    }
  }

  // ---------------------------------------------------------------- histories

  function TableAfter(maxBuckets: nat, limitOf: Key -> nat, calls: seq<Call>): Table {
    if calls == [] then Table([], map[]) else
      var last := calls[|calls| - 1];
      Take(TableAfter(maxBuckets, limitOf, calls[..|calls| - 1]), maxBuckets, limitOf(last.key), last).0
  }

  predicate LastAccepted(maxBuckets: nat, limitOf: Key -> nat, calls: seq<Call>)
    requires calls != []
  {
    var last := calls[|calls| - 1];
    Take(TableAfter(maxBuckets, limitOf, calls[..|calls| - 1]), maxBuckets, limitOf(last.key), last).1
  }

  /** The accepted times of a key since its bucket was last created. */
  function History(maxBuckets: nat, limitOf: Key -> nat, calls: seq<Call>, key: Key): seq<real> {
    if calls == [] then [] else
      var last := calls[|calls| - 1];
      var older := History(maxBuckets, limitOf, calls[..|calls| - 1], key);
      if key !in TableAfter(maxBuckets, limitOf, calls).buckets then []
      else if last.key == key && LastAccepted(maxBuckets, limitOf, calls) then older + [last.at]
      else older
  }

  /** The time of a key's latest request, accepted or not. */
  function Latest(calls: seq<Call>, key: Key): real {
    if calls == [] then 0.0 else
      if calls[|calls| - 1].key == key then calls[|calls| - 1].at else Latest(calls[..|calls| - 1], key)
  }

  predicate Nondecreasing(times: seq<real>) {
    forall i, j | 0 <= i <= j < |times| :: times[i] <= times[j]
  }

  predicate InOrder(calls: seq<Call>) {
    && (forall i | 0 <= i < |calls| :: 0.0 <= calls[i].at)
    && forall i, j | 0 <= i <= j < |calls| :: calls[i].at <= calls[j].at
  }

  /** Any limit + 1 accepted requests span at least a whole window. */
  predicate Spread(times: seq<real>, limit: nat) {
    forall i | 0 <= i && i + limit < |times| :: times[i + limit] - times[i] >= WINDOW
  }

  predicate Distinct(order: seq<Key>) {
    forall i, j | 0 <= i < j < |order| :: order[i] != order[j]
  }

  ghost predicate Tidy(t: Table, maxBuckets: nat) {
    && Distinct(t.order) && (forall key :: key in t.order <==> key in t.buckets)
    && |t.buckets| <= maxBuckets
  }

  lemma {:induction false} PruneIsSuffix(bucket: seq<real>, cutoff: real)
    ensures var kept := Prune(bucket, cutoff); var k := |bucket| - |kept|;
      && 0 <= k <= |bucket| && kept == bucket[k..]
      && (forall i | 0 <= i < k :: bucket[i] <= cutoff)
      && (k < |bucket| ==> bucket[k] > cutoff)
  {
    if bucket != [] && bucket[0] <= cutoff {
      PruneIsSuffix(bucket[1..], cutoff);
      var k := |bucket[1..]| - |Prune(bucket[1..], cutoff)|;
      assert forall i | 0 < i <= k :: bucket[i] == bucket[1..][i - 1];
      assert bucket[1..][k..] == bucket[k + 1..];
    } else {
      assert bucket[0..] == bucket;
    }
  }

  /** Pruning twice is pruning once at the later cutoff. */
  lemma {:induction false} PruneTwice(bucket: seq<real>, early: real, late: real)
    requires early <= late
    ensures Prune(Prune(bucket, early), late) == Prune(bucket, late)
  {
    if bucket != [] && bucket[0] <= early {
      PruneTwice(bucket[1..], early, late);
    }
  }

  lemma {:induction false} PruneAppend(bucket: seq<real>, x: real, cutoff: real)
    requires x > cutoff
    ensures Prune(bucket + [x], cutoff) == Prune(bucket, cutoff) + [x]
  {
    if bucket != [] && bucket[0] <= cutoff {
      assert (bucket + [x])[1..] == bucket[1..] + [x];
      PruneAppend(bucket[1..], x, cutoff);
    } else if bucket == [] {
      assert bucket + [x] == [x];
    }
  }

  /** Accepting when the window holds fewer than the limit keeps the accepted times spread. */
  lemma AcceptSpreads(times: seq<real>, limit: nat, now: real)
    requires Spread(times, limit) && |Prune(times, now - WINDOW)| < limit
    ensures Spread(times + [now], limit)
  {
    PruneIsSuffix(times, now - WINDOW);
    var later := times + [now];
    forall i | 0 <= i && i + limit < |later| ensures later[i + limit] - later[i] >= WINDOW {
      if i + limit < |times| { assert times[i + limit] - times[i] >= WINDOW; }
    }
  }

  // ---------------------------------------------------------------- the recency order

  lemma {:induction false} WithoutKeepsRest(order: seq<Key>, key: Key)
    requires Distinct(order)
    ensures Distinct(Without(order, key))
    ensures forall k :: k in Without(order, key) <==> k in order && k != key
  {
    if order != [] {
      assert forall i, j | 0 <= i < j < |order[1..]| :: order[1..][i] == order[i + 1] && order[1..][j] == order[j + 1];
      WithoutKeepsRest(order[1..], key);
      var rest := Without(order[1..], key);
      assert order[0] !in order[1..];
      assert forall k :: k in order <==> k == order[0] || k in order[1..];
    }
  }

  lemma DistinctAppend(order: seq<Key>, key: Key)
    requires Distinct(order) && key !in order
    ensures Distinct(order + [key])
  {
  }

  /** Everything but the touched key's own bucket is kept or evicted. */
  ghost predicate KeepsOthers(t: Table, u: Table, key: Key) {
    forall k | k in u.buckets && k != key :: k in t.buckets && u.buckets[k] == t.buckets[k]
  }

  lemma TouchTidy(t: Table, maxBuckets: nat, key: Key)
    requires Tidy(t, maxBuckets) && maxBuckets >= 1
    ensures Tidy(Touch(t, maxBuckets, key), maxBuckets) && KeepsOthers(t, Touch(t, maxBuckets, key), key)
  {
    hide Tidy, KeepsOthers;
    if key in t.buckets {
      FoundTidy(t, maxBuckets, key);
    } else if |t.buckets| >= maxBuckets && t.order != [] {
      EvictedTidy(t, maxBuckets, key);
    } else {
      CreatedTidy(t, maxBuckets, key);
    }
  }

  lemma FoundTidy(t: Table, maxBuckets: nat, key: Key)
    requires Tidy(t, maxBuckets) && key in t.buckets
    ensures var u := Table(Without(t.order, key) + [key], t.buckets); Tidy(u, maxBuckets) && KeepsOthers(t, u, key)
  {
    WithoutKeepsRest(t.order, key);
    DistinctAppend(Without(t.order, key), key);
  }

  lemma EvictedTidy(t: Table, maxBuckets: nat, key: Key)
    requires Tidy(t, maxBuckets) && key !in t.buckets && t.order != []
    ensures var u := Table(t.order[1..] + [key], (t.buckets - {t.order[0]})[key := []]);
      Tidy(u, maxBuckets) && KeepsOthers(t, u, key)
  {
    var oldest, rest := t.order[0], t.order[1..];
    assert t.order == [oldest] + rest;
    assert Distinct(rest) && oldest !in rest by {
      assert forall i | 0 <= i < |rest| :: rest[i] == t.order[i + 1];
    }
    assert key !in rest;
    DistinctAppend(rest, key);
    var kept := t.buckets - {oldest};
    assert kept.Keys == t.buckets.Keys - {oldest};
    assert kept[key := []].Keys == kept.Keys + {key};
    assert |kept[key := []]| == |kept[key := []].Keys| && |t.buckets| == |t.buckets.Keys|;
  }

  lemma CreatedTidy(t: Table, maxBuckets: nat, key: Key)
    requires Tidy(t, maxBuckets) && key !in t.buckets && maxBuckets >= 1
    requires !(|t.buckets| >= maxBuckets && t.order != [])
    ensures var u := Table(t.order + [key], t.buckets[key := []]); Tidy(u, maxBuckets) && KeepsOthers(t, u, key)
  {
    DistinctAppend(t.order, key);
    assert t.order == [] ==> t.buckets.Keys == {};
    assert t.buckets[key := []].Keys == t.buckets.Keys + {key};
    assert |t.buckets[key := []]| == |t.buckets[key := []].Keys| && |t.buckets| == |t.buckets.Keys|;
  }

  // ---------------------------------------------------------------- refinement

  /** One key's bucket against its history. */
  ghost predicate BucketRefines(maxBuckets: nat, limitOf: Key -> nat, calls: seq<Call>, key: Key) {
    var t := TableAfter(maxBuckets, limitOf, calls);
    var history := History(maxBuckets, limitOf, calls, key);
    && (key !in t.buckets ==> history == [])
    && (key in t.buckets ==>
          && t.buckets[key] == Prune(history, Latest(calls, key) - WINDOW)
          && Nondecreasing(history)
          && (forall i | 0 <= i < |history| :: history[i] <= Latest(calls, key))
          && Spread(history, limitOf(key)))
  }

  lemma {:induction false} LatestInOrder(calls: seq<Call>, key: Key, now: real)
    requires InOrder(calls) && 0.0 <= now && (forall i | 0 <= i < |calls| :: calls[i].at <= now)
    ensures Latest(calls, key) <= now
  {
    if calls != [] {
      LatestInOrder(calls[..|calls| - 1], key, now);
    }
  }

  /** The order lists the keys of the buckets, each once, and the table never exceeds its size. */
  lemma {:induction false} TableTidy(maxBuckets: nat, limitOf: Key -> nat, calls: seq<Call>)
    requires maxBuckets >= 1
    ensures Tidy(TableAfter(maxBuckets, limitOf, calls), maxBuckets)
  {
    hide Take, Touch, Tidy, KeepsOthers;
    if calls == [] {
      EmptyTidy(maxBuckets);
    } else {
      var older, last := calls[..|calls| - 1], calls[|calls| - 1];
      TableTidy(maxBuckets, limitOf, older);
      TouchTidy(TableAfter(maxBuckets, limitOf, older), maxBuckets, last.key);
      TakeTidy(TableAfter(maxBuckets, limitOf, older), maxBuckets, limitOf(last.key), last);
    }
  }

  /** For nondecreasing times, every bucket in the table is exactly its key's accepted history of
      the last window as of the key's latest request; accepted requests of a bucket stay spread; the
      table never exceeds its size. */
  lemma {:induction false} TableRefinesHistory(maxBuckets: nat, limitOf: Key -> nat, calls: seq<Call>)
    requires maxBuckets >= 1 && InOrder(calls)
    ensures Tidy(TableAfter(maxBuckets, limitOf, calls), maxBuckets)
    ensures forall key :: BucketRefines(maxBuckets, limitOf, calls, key)
  {
    hide Take, Tidy;
    TableTidy(maxBuckets, limitOf, calls);
    if calls != [] {
      hide BucketRefines, Touch, KeepsOthers;
      var older, last := calls[..|calls| - 1], calls[|calls| - 1];
      var t := TableAfter(maxBuckets, limitOf, older);
      TableRefinesHistory(maxBuckets, limitOf, older);
      TouchTidy(t, maxBuckets, last.key);
      forall key ensures BucketRefines(maxBuckets, limitOf, calls, key) {
        assert BucketRefines(maxBuckets, limitOf, older, key);
        if key == last.key {
          CalledBucketRefines(maxBuckets, limitOf, calls);
        } else {
          OtherBucketRefines(maxBuckets, limitOf, calls, key);
        }
      }
    }
  }

  lemma EmptyTidy(maxBuckets: nat)
    ensures Tidy(Table([], map[]), maxBuckets)
  {
  }

  lemma TakeTidy(t: Table, maxBuckets: nat, limit: nat, call: Call)
    requires Tidy(Touch(t, maxBuckets, call.key), maxBuckets)
    ensures Tidy(Take(t, maxBuckets, limit, call).0, maxBuckets)
  {
    var u := Touch(t, maxBuckets, call.key);
    var v := Take(t, maxBuckets, limit, call).0;
    assert v.buckets.Keys == u.buckets.Keys;
    assert |v.buckets| == |v.buckets.Keys| == |u.buckets.Keys| == |u.buckets|;
  }

  lemma OtherBucketRefines(maxBuckets: nat, limitOf: Key -> nat, calls: seq<Call>, key: Key)
    requires calls != [] && key != calls[|calls| - 1].key
    requires BucketRefines(maxBuckets, limitOf, calls[..|calls| - 1], key)
    requires var t := TableAfter(maxBuckets, limitOf, calls[..|calls| - 1]); var k := calls[|calls| - 1].key;
      KeepsOthers(t, Touch(t, maxBuckets, k), k)
    ensures BucketRefines(maxBuckets, limitOf, calls, key)
  {
    hide Touch, Prune, Nondecreasing, Spread;
  }

  /** The bucket a request finds, once pruned, is the pruned history. */
  lemma TouchedBucket(t: Table, maxBuckets: nat, key: Key, history: seq<real>, before: real, now: real)
    requires before <= now
    requires if key in t.buckets then t.buckets[key] == Prune(history, before - WINDOW) else history == []
    ensures Prune(Touch(t, maxBuckets, key).buckets[key], now - WINDOW) == Prune(history, now - WINDOW)
  {
    PruneTwice(history, before - WINDOW, now - WINDOW);
    assert key !in t.buckets ==> Touch(t, maxBuckets, key).buckets[key] == [];
  }

  lemma CalledBucketRefines(maxBuckets: nat, limitOf: Key -> nat, calls: seq<Call>)
    requires calls != [] && InOrder(calls)
    requires BucketRefines(maxBuckets, limitOf, calls[..|calls| - 1], calls[|calls| - 1].key)
    ensures BucketRefines(maxBuckets, limitOf, calls, calls[|calls| - 1].key)
  {
    hide Touch, Prune, Spread;
    var older, last := calls[..|calls| - 1], calls[|calls| - 1];
    var key := last.key;
    var t := TableAfter(maxBuckets, limitOf, older);
    var history := History(maxBuckets, limitOf, older, key);
    EmptyHistory(limitOf(key), last.at - WINDOW);
    LatestInOrder(older, key, last.at);
    TouchedBucket(t, maxBuckets, key, history, Latest(older, key), last.at);
    assert key in TableAfter(maxBuckets, limitOf, calls).buckets;
    if LastAccepted(maxBuckets, limitOf, calls) {
      PruneAppend(history, last.at, last.at - WINDOW);
      AcceptSpreads(history, limitOf(key), last.at);
    }
  }

  lemma EmptyHistory(limit: nat, cutoff: real)
    ensures Spread([], limit) && Prune([], cutoff) == []
  {
  }

  /** A bucket never holds more than its limit. */
  lemma BucketWithinLimit(maxBuckets: nat, limitOf: Key -> nat, calls: seq<Call>, key: Key)
    requires maxBuckets >= 1 && InOrder(calls)
    requires key in TableAfter(maxBuckets, limitOf, calls).buckets
    ensures |TableAfter(maxBuckets, limitOf, calls).buckets[key]| <= limitOf(key)
  {
    hide TableAfter, History, Tidy, Spread, Prune, Nondecreasing;
    TableRefinesHistory(maxBuckets, limitOf, calls);
    assert BucketRefines(maxBuckets, limitOf, calls, key);
    SpreadWindow(History(maxBuckets, limitOf, calls, key), limitOf(key), Latest(calls, key));
  }

  /** Accepted times that are spread put at most the limit into a window. */
  lemma SpreadWindow(times: seq<real>, limit: nat, latest: real)
    requires Nondecreasing(times) && Spread(times, limit)
    requires forall i | 0 <= i < |times| :: times[i] <= latest
    ensures |Prune(times, latest - WINDOW)| <= limit
  {
    hide Prune;
    PruneIsSuffix(times, latest - WINDOW);
    if |times| > limit {
      var i := |times| - 1 - limit;
      assert times[i + limit] - times[i] >= WINDOW;
    }
  }

  /** A request that many seconds later would still find the window full. */
  predicate FullAfter(bucket: seq<real>, limit: nat, now: real, seconds: int) {
    |Prune(bucket, now + seconds as real - WINDOW)| >= limit
  }

  /** Retry-After is exact: after waiting that long without another acceptance the window has room
      again, and after any shorter positive whole number of seconds it is still full. */
  lemma RetryAfterIsExact(bucket: seq<real>, limit: nat, now: real)
    requires |bucket| == limit && limit >= 1 && Prune(bucket, now - WINDOW) == bucket && Nondecreasing(bucket)
    ensures var r := RetryAfter(bucket, now);
      && 1 <= r
      && !FullAfter(bucket, limit, now, r)
      && forall w | 1 <= w < r :: FullAfter(bucket, limit, now, w)
  {
    var r := RetryAfter(bucket, now);
    PruneIsSuffix(bucket, now + r as real - WINDOW);
    forall w | 1 <= w < r ensures FullAfter(bucket, limit, now, w) {
      PruneIsSuffix(bucket, now + w as real - WINDOW);
    }
  }
}
