/** What eviction does to a limit, told from the requests alone: the table keeps the most recently
    used keys, so a client is forgotten exactly when enough other clients came since its last request. */
module Eviction {
  import opened RateLimits

  /** The keys requested so far, each once, in the order of their latest request. */
  function ByRecency(calls: seq<Call>): seq<Key> {
    if calls == [] then [] else
      var key := calls[|calls| - 1].key;
      Without(ByRecency(calls[..|calls| - 1]), key) + [key]
  }

  ghost predicate Requested(calls: seq<Call>, key: Key) {
    exists n | 0 <= n < |calls| :: calls[n].key == key
  }

  /** The other keys requested since the latest request of this one. */
  function OthersSince(calls: seq<Call>, key: Key): set<Key> {
    if calls == [] then {} else
      var last := calls[|calls| - 1].key;
      if last == key then {} else OthersSince(calls[..|calls| - 1], key) + {last}
  }

  /** The last n entries. */
  function Tail(order: seq<Key>, n: nat): seq<Key> {
    if |order| <= n then order else order[|order| - n..]
  }

  /** The entries behind the first occurrence of the key. */
  function Newer(order: seq<Key>, key: Key): seq<Key> {
    if order == [] then [] else if order[0] == key then order[1..] else Newer(order[1..], key)
  }

  // ---------------------------------------------------------------- sequences of keys

  lemma {:induction false} WithoutConcat(a: seq<Key>, b: seq<Key>, key: Key)
    ensures Without(a + b, key) == Without(a, key) + Without(b, key)
  {
    if a == [] {
      assert a + b == b;
    } else {
      assert (a + b)[0] == a[0] && (a + b)[1..] == a[1..] + b;
      WithoutConcat(a[1..], b, key);
    }
  }

  lemma {:induction false} WithoutAbsent(order: seq<Key>, key: Key)
    requires key !in order
    ensures Without(order, key) == order
  {
    if order != [] {
      assert order[0] in order;
      WithoutAbsent(order[1..], key);
    }
  }

  /** Taking a key out of a list that has it once leaves one entry less. */
  lemma {:induction false} WithoutShorter(order: seq<Key>, key: Key)
    requires Distinct(order)
    ensures |Without(order, key)| == if key in order then |order| - 1 else |order|
  {
    if order != [] {
      var rest := order[1..];
      assert forall i | 0 <= i < |rest| :: rest[i] == order[i + 1];
      if order[0] == key {
        WithoutAbsent(rest, key);
      } else {
        WithoutShorter(rest, key);
        assert key in order <==> key in rest;
      }
    }
  }

  lemma {:induction false} NewerOfWithout(order: seq<Key>, key: Key, gone: Key)
    requires key in order && gone != key
    ensures Newer(Without(order, gone) + [gone], key) == Without(Newer(order, key), gone) + [gone]
  {
    if order[0] == key {
      assert Without(order, gone) == [key] + Without(order[1..], gone);
      assert (Without(order, gone) + [gone])[1..] == Without(order[1..], gone) + [gone];
    } else {
      assert key in order[1..];
      NewerOfWithout(order[1..], key, gone);
      if order[0] != gone {
        var shorter := Without(order[1..], gone) + [gone];
        assert Without(order, gone) + [gone] == [order[0]] + shorter;
        assert ([order[0]] + shorter)[1..] == shorter;
      }
    }
  }

  lemma {:induction false} NewerOfLast(order: seq<Key>, key: Key)
    requires key !in order
    ensures Newer(order + [key], key) == []
  {
    if order == [] {
      assert order + [key] == [key];
    } else {
      assert order[0] in order && (order + [key])[1..] == order[1..] + [key];
      NewerOfLast(order[1..], key);
    }
  }

  /** Where a key stands in a list of distinct keys. */
  lemma {:induction false} NewerIsSuffix(order: seq<Key>, key: Key)
    requires key in order && Distinct(order)
    ensures var newer := Newer(order, key); var p := |order| - 1 - |newer|;
      p >= 0 && order[p] == key && newer == order[p + 1..]
  {
    if order[0] != key {
      assert key in order[1..];
      assert forall i | 0 <= i < |order[1..]| :: order[1..][i] == order[i + 1];
      NewerIsSuffix(order[1..], key);
    }
  }

  lemma PartsDisjoint(head: seq<Key>, tail: seq<Key>, key: Key)
    requires Distinct(head + tail)
    ensures Distinct(tail) && (key in tail ==> key !in head) && (key in head ==> key !in tail)
  {
    forall i, j | 0 <= i < |head| && 0 <= j < |tail| ensures head[i] != tail[j] {
      assert (head + tail)[i] == head[i] && (head + tail)[|head| + j] == tail[j];
    }
    forall i, j | 0 <= i < j < |tail| ensures tail[i] != tail[j] {
      assert (head + tail)[|head| + i] == tail[i] && (head + tail)[|head| + j] == tail[j];
    }
  }

  lemma {:induction false} DistinctSize(order: seq<Key>)
    requires Distinct(order)
    ensures |set k | k in order| == |order|
  {
    if order == [] {
      assert (set k | k in order) == {};
    } else {
      var first, rest := order[0], order[1..];
      assert order == [first] + rest;
      PartsDisjoint([first], rest, first);
      DistinctSize(rest);
      hide Distinct;
      assert (set k | k in order) == (set k | k in rest) + {first};
    }
  }

  // ---------------------------------------------------------------- the recency of a key

  lemma {:induction false} RecencyDistinct(calls: seq<Call>)
    ensures Distinct(ByRecency(calls))
  {
    if calls != [] {
      var older, key := calls[..|calls| - 1], calls[|calls| - 1].key;
      RecencyDistinct(older);
      WithoutKeepsRest(ByRecency(older), key);
      DistinctAppend(Without(ByRecency(older), key), key);
    }
  }

  /** The keys behind one in the recency order are the others requested since. */
  lemma {:induction false} NewerAreOthersSince(calls: seq<Call>, key: Key)
    ensures key in ByRecency(calls) <==> Requested(calls, key)
    ensures Requested(calls, key) ==> forall k :: k in Newer(ByRecency(calls), key) <==> k in OthersSince(calls, key)
  {
    if calls != [] {
      var older, last := calls[..|calls| - 1], calls[|calls| - 1].key;
      assert forall n | 0 <= n < |older| :: older[n] == calls[n];
      assert Requested(calls, key) <==> Requested(older, key) || last == key by {
        assert calls[|calls| - 1].key == last;
      }
      NewerAreOthersSince(older, key);
      RecencyDistinct(older);
      var order := ByRecency(older);
      WithoutKeepsRest(order, last);
      if last == key {
        NewerOfLast(Without(order, key), key);
      } else if key in order {
        NewerOfWithout(order, key, last);
        NewerIsSuffix(order, key);
        assert Distinct(Newer(order, key));
        WithoutKeepsRest(Newer(order, key), last);
      }
    }
  }

  /** A key is among the n most recent exactly when fewer than n others came since. */
  lemma RecentExactly(calls: seq<Call>, key: Key, n: nat)
    ensures key in Tail(ByRecency(calls), n) <==> Requested(calls, key) && |OthersSince(calls, key)| < n
  {
    var order := ByRecency(calls);
    RecencyDistinct(calls);
    NewerAreOthersSince(calls, key);
    if key in order {
      var newer := Newer(order, key);
      NewerIsSuffix(order, key);
      DistinctSize(newer);
      assert (set k | k in newer) == OthersSince(calls, key);
      var p := |order| - 1 - |newer|;
      if |newer| < n && |order| > n {
        assert Tail(order, n)[p - (|order| - n)] == key;
      }
    }
  }

  // ---------------------------------------------------------------- least recently used

  lemma TidySize(t: Table, maxBuckets: nat)
    requires Tidy(t, maxBuckets)
    ensures |t.buckets| == |t.order|
  {
    DistinctSize(t.order);
    assert t.buckets.Keys == set k | k in t.order;
  }

  lemma TailOfConcat(head: seq<Key>, tail: seq<Key>, n: nat)
    requires |tail| >= n
    ensures Tail(head + tail, n) == tail[|tail| - n..]
  {
    assert (head + tail)[|head| + |tail| - n..] == tail[|tail| - n..];
  }

  lemma PartMoves(head: seq<Key>, tail: seq<Key>, key: Key)
    requires Distinct(head + tail) && key in tail
    ensures Without(head + tail, key) + [key] == head + (Without(tail, key) + [key])
    ensures |Without(tail, key) + [key]| == |tail|
  {
    hide Distinct;
    PartsDisjoint(head, tail, key);
    WithoutConcat(head, tail, key);
    WithoutAbsent(head, key);
    WithoutShorter(tail, key);
  }

  lemma PartShifts(head: seq<Key>, tail: seq<Key>, key: Key)
    requires key !in tail
    ensures Without(head + tail, key) + [key] == Without(head, key) + (tail + [key])
  {
    WithoutConcat(head, tail, key);
    WithoutAbsent(tail, key);
  }

  /** A longer list is what its tail leaves and the tail. */
  lemma TailSplits(order: seq<Key>, n: nat)
    requires |order| > n
    ensures order == order[..|order| - n] + Tail(order, n) && |Tail(order, n)| == n
  {
  }

  /** A key in the tail moves to its end. */
  lemma TailMoves(order: seq<Key>, n: nat, key: Key)
    requires Distinct(order) && key in Tail(order, n)
    ensures Tail(Without(order, key) + [key], n) == Without(Tail(order, n), key) + [key]
  {
    hide Distinct, Without;
    WithoutShorter(order, key);
    if |order| > n {
      var head, tail := order[..|order| - n], Tail(order, n);
      TailSplits(order, n);
      hide Tail;
      PartMoves(head, tail, key);
      TailOfConcat(head, Without(tail, key) + [key], n);
      WholeDrop(Without(tail, key) + [key]);
    }
  }

  /** A key from outside a full tail pushes the first one out; a short tail is the whole list. */
  lemma TailShifts(order: seq<Key>, n: nat, key: Key)
    requires n >= 1 && key !in Tail(order, n)
    ensures Tail(Without(order, key) + [key], n) ==
      (if |Tail(order, n)| == n then Tail(order, n)[1..] else order) + [key]
  {
    hide Without;
    if |order| <= n {
      WithoutAbsent(order, key);
    } else {
      var head, tail := order[..|order| - n], Tail(order, n);
      TailSplits(order, n);
      hide Tail;
      PartShifts(head, tail, key);
      TailOfConcat(Without(head, key), tail + [key], n);
      assert (tail + [key])[1..] == tail[1..] + [key];
    }
  }

  lemma WholeDrop(a: seq<Key>)
    ensures a[0..] == a
  {
  }

  /** The order of the table after one more request. */
  lemma TouchOrder(t: Table, maxBuckets: nat, order: seq<Key>, key: Key)
    requires Tidy(t, maxBuckets) && maxBuckets >= 1 && Distinct(order) && t.order == Tail(order, maxBuckets)
    ensures Touch(t, maxBuckets, key).order == Tail(Without(order, key) + [key], maxBuckets)
  {
    hide Distinct;
    TidySize(t, maxBuckets);
    if key in t.order {
      TailMoves(order, maxBuckets, key);
    } else {
      TailShifts(order, maxBuckets, key);
    }
  }

  /** The table lists exactly the most recently requested keys, the least recent first. */
  lemma {:induction false} TableIsRecent(maxBuckets: nat, limitOf: Key -> nat, calls: seq<Call>)
    requires maxBuckets >= 1
    ensures TableAfter(maxBuckets, limitOf, calls).order == Tail(ByRecency(calls), maxBuckets)
  {
    hide Touch, Tidy, Prune;
    if calls != [] {
      var older, last := calls[..|calls| - 1], calls[|calls| - 1];
      TableIsRecent(maxBuckets, limitOf, older);
      TableTidy(maxBuckets, limitOf, older);
      RecencyDistinct(older);
      TouchOrder(TableAfter(maxBuckets, limitOf, older), maxBuckets, ByRecency(older), last.key);
    }
  }

  /** The documented eviction policy, exactly: a client still has its bucket if and only if it made a
      request and fewer than the table's size of other clients made one since. */
  lemma LeastRecentlyUsedSurvives(maxBuckets: nat, limitOf: Key -> nat, calls: seq<Call>, key: Key)
    requires maxBuckets >= 1
    ensures key in TableAfter(maxBuckets, limitOf, calls).buckets <==>
      Requested(calls, key) && |OthersSince(calls, key)| < maxBuckets
  {
    TableTidy(maxBuckets, limitOf, calls);
    TableIsRecent(maxBuckets, limitOf, calls);
    RecentExactly(calls, key, maxBuckets);
  }

  // ---------------------------------------------------------------- a limiter without a table

  /** How many of the times lie in the window that ends now. */
  function CountIn(times: seq<real>, now: real): nat {
    if times == [] then 0 else
      var last := times[|times| - 1];
      CountIn(times[..|times| - 1], now) + if now - WINDOW < last <= now then 1 else 0
  }

  /** So many other clients came since this one that its bucket is gone. */
  predicate Forgotten(maxBuckets: nat, calls: seq<Call>, key: Key) {
    |OthersSince(calls, key)| >= maxBuckets
  }

  /** The accepted times that a client's next request is held against, told from the requests
      alone: those since it was last forgotten. */
  function Held(maxBuckets: nat, limitOf: Key -> nat, calls: seq<Call>, key: Key): seq<real> {
    if calls == [] || Forgotten(maxBuckets, calls, key) then [] else
      var last := calls[|calls| - 1];
      var held := Held(maxBuckets, limitOf, calls[..|calls| - 1], key);
      if last.key == key && CountIn(held, last.at) < limitOf(key) then held + [last.at] else held
  }

  /** The last request finds room in its window among the times held for its client. */
  predicate Admitted(maxBuckets: nat, limitOf: Key -> nat, calls: seq<Call>)
    requires calls != []
  {
    var last := calls[|calls| - 1];
    CountIn(Held(maxBuckets, limitOf, calls[..|calls| - 1], last.key), last.at) < limitOf(last.key)
  }

  lemma {:induction false} NoneCounted(times: seq<real>, now: real)
    requires forall i | 0 <= i < |times| :: times[i] <= now - WINDOW
    ensures CountIn(times, now) == 0
  {
    if times != [] {
      NoneCounted(times[..|times| - 1], now);
    }
  }

  lemma {:induction false} AllCounted(times: seq<real>, now: real)
    requires forall i | 0 <= i < |times| :: now - WINDOW < times[i] <= now
    ensures CountIn(times, now) == |times|
  {
    if times != [] {
      AllCounted(times[..|times| - 1], now);
    }
  }

  lemma {:induction false} CountConcat(a: seq<real>, b: seq<real>, now: real)
    ensures CountIn(a + b, now) == CountIn(a, now) + CountIn(b, now)
  {
    if b == [] {
      assert a + b == a;
    } else {
      assert (a + b)[..|a + b| - 1] == a + b[..|b| - 1];
      CountConcat(a, b[..|b| - 1], now);
    }
  }

  /** What pruning leaves of a nondecreasing past is what lies in the window. */
  lemma PruneCounts(times: seq<real>, now: real)
    requires Nondecreasing(times) && forall i | 0 <= i < |times| :: times[i] <= now
    ensures |Prune(times, now - WINDOW)| == CountIn(times, now)
  {
    hide CountIn, Prune;
    PruneIsSuffix(times, now - WINDOW);
    var kept := Prune(times, now - WINDOW);
    var k := |times| - |kept|;
    assert times == times[..k] + kept;
    CountConcat(times[..k], kept, now);
    NoneCounted(times[..k], now);
    AllCounted(kept, now);
  }

  lemma {:induction false} NothingHeld(maxBuckets: nat, limitOf: Key -> nat, calls: seq<Call>, key: Key)
    requires !Requested(calls, key)
    ensures Held(maxBuckets, limitOf, calls, key) == []
  {
    if calls != [] {
      var older := calls[..|calls| - 1];
      assert forall n | 0 <= n < |older| :: older[n] == calls[n];
      assert calls[|calls| - 1].key != key;
      NothingHeld(maxBuckets, limitOf, older, key);
    }
  }

  /** A decision on the table is a count of the history. */
  lemma AcceptedIsCounted(maxBuckets: nat, limitOf: Key -> nat, calls: seq<Call>)
    requires maxBuckets >= 1 && InOrder(calls) && calls != []
    ensures var older, last := calls[..|calls| - 1], calls[|calls| - 1];
      LastAccepted(maxBuckets, limitOf, calls) <==>
      CountIn(History(maxBuckets, limitOf, older, last.key), last.at) < limitOf(last.key)
  {
    hide Touch, Prune, Tidy, CountIn, TableAfter, History;
    var older, last := calls[..|calls| - 1], calls[|calls| - 1];
    var history := History(maxBuckets, limitOf, older, last.key);
    TableRefinesHistory(maxBuckets, limitOf, older);
    assert BucketRefines(maxBuckets, limitOf, older, last.key);
    LatestInOrder(older, last.key, last.at);
    TouchedBucket(TableAfter(maxBuckets, limitOf, older), maxBuckets, last.key, history,
                  Latest(older, last.key), last.at);
    PruneCounts(history, last.at);
  }

  /** The limiter with its bounded table decides like the one without: what it knows about a client
      are the accepted times since the client was last forgotten, and so are its decisions. */
  lemma {:induction false} TableDecides(maxBuckets: nat, limitOf: Key -> nat, calls: seq<Call>)
    requires maxBuckets >= 1 && InOrder(calls)
    ensures forall key :: History(maxBuckets, limitOf, calls, key) == Held(maxBuckets, limitOf, calls, key)
    ensures calls != [] ==> (LastAccepted(maxBuckets, limitOf, calls) <==> Admitted(maxBuckets, limitOf, calls))
  {
    hide TableAfter, LastAccepted, CountIn, OthersSince;
    if calls != [] {
      var older, last := calls[..|calls| - 1], calls[|calls| - 1];
      TableDecides(maxBuckets, limitOf, older);
      AcceptedIsCounted(maxBuckets, limitOf, calls);
      forall key ensures History(maxBuckets, limitOf, calls, key) == Held(maxBuckets, limitOf, calls, key) {
        LeastRecentlyUsedSurvives(maxBuckets, limitOf, calls, key);
        if !Requested(calls, key) {
          NothingHeld(maxBuckets, limitOf, calls, key);
        }
      }
    }
  }

  // ---------------------------------------------------------------- what a client gets

  /** Every accepted time of a client, evictions or not. */
  function Granted(maxBuckets: nat, limitOf: Key -> nat, calls: seq<Call>, key: Key): seq<real> {
    if calls == [] then [] else
      var last := calls[|calls| - 1];
      var older := Granted(maxBuckets, limitOf, calls[..|calls| - 1], key);
      if last.key == key && LastAccepted(maxBuckets, limitOf, calls) then older + [last.at] else older
  }

  /** None of a client's requests came after it was forgotten, unless it was its first. */
  ghost predicate NeverForgotten(maxBuckets: nat, calls: seq<Call>, key: Key) {
    forall n | 0 <= n < |calls| && calls[n].key == key ::
      Requested(calls[..n], key) ==> !Forgotten(maxBuckets, calls[..n], key)
  }

  lemma {:induction false} NothingGranted(maxBuckets: nat, limitOf: Key -> nat, calls: seq<Call>, key: Key)
    requires !Requested(calls, key)
    ensures Granted(maxBuckets, limitOf, calls, key) == []
  {
    if calls != [] {
      var older := calls[..|calls| - 1];
      assert forall n | 0 <= n < |older| :: older[n] == calls[n];
      assert calls[|calls| - 1].key != key;
      NothingGranted(maxBuckets, limitOf, older, key);
    }
  }

  lemma NeverForgottenBefore(maxBuckets: nat, calls: seq<Call>, key: Key)
    requires calls != [] && NeverForgotten(maxBuckets, calls, key)
    ensures NeverForgotten(maxBuckets, calls[..|calls| - 1], key)
    ensures var older := calls[..|calls| - 1];
      calls[|calls| - 1].key == key && Requested(older, key) ==> !Forgotten(maxBuckets, older, key)
  {
    var older := calls[..|calls| - 1];
    forall n | 0 <= n < |older| && older[n].key == key && Requested(older[..n], key)
      ensures !Forgotten(maxBuckets, older[..n], key)
    {
      assert older[..n] == calls[..n];
    }
  }

  /** While a client is not forgotten, all its accepted times are held against it. */
  lemma {:induction false} GrantedIsHeld(maxBuckets: nat, limitOf: Key -> nat, calls: seq<Call>, key: Key)
    requires maxBuckets >= 1 && InOrder(calls) && NeverForgotten(maxBuckets, calls, key)
    ensures !Forgotten(maxBuckets, calls, key) ==>
      Granted(maxBuckets, limitOf, calls, key) == Held(maxBuckets, limitOf, calls, key)
  {
    hide TableAfter, LastAccepted, CountIn, NeverForgotten;
    if calls != [] {
      var older, last := calls[..|calls| - 1], calls[|calls| - 1];
      NeverForgottenBefore(maxBuckets, calls, key);
      GrantedIsHeld(maxBuckets, limitOf, older, key);
      TableDecides(maxBuckets, limitOf, calls);
      if !Requested(older, key) {
        NothingGranted(maxBuckets, limitOf, older, key);
        NothingHeld(maxBuckets, limitOf, older, key);
      } else if last.key != key && Forgotten(maxBuckets, older, key) {
        StaysForgotten(maxBuckets, calls, key);
      }
    }
  }

  /** Other clients' requests do not bring a forgotten client back. */
  lemma StaysForgotten(maxBuckets: nat, calls: seq<Call>, key: Key)
    requires calls != [] && calls[|calls| - 1].key != key && Forgotten(maxBuckets, calls[..|calls| - 1], key)
    ensures Forgotten(maxBuckets, calls, key)
  {
    var others, last := OthersSince(calls[..|calls| - 1], key), calls[|calls| - 1].key;
    assert |others + {last}| == |others| + |{last} - others|;
  }

  /** Spread times put at most the limit into any window, now or later or in the past. */
  lemma {:induction false} SpreadCount(times: seq<real>, limit: nat, now: real)
    requires Nondecreasing(times) && Spread(times, limit)
    ensures CountIn(times, now) <= limit
  {
    if times != [] {
      var older := times[..|times| - 1];
      if times[|times| - 1] > now {
        forall i | 0 <= i && i + limit < |older| ensures older[i + limit] - older[i] >= WINDOW {
          assert times[i + limit] - times[i] >= WINDOW;
        }
        SpreadCount(older, limit, now);
      } else {
        PruneCounts(times, now);
        SpreadWindow(times, limit, now);
      }
    }
  }

  /** A client that is never forgotten between its requests keeps to its limit for good: of all its
      accepted requests no window of sixty seconds holds more. */
  lemma {:induction false} LimitHoldsUnlessForgotten(maxBuckets: nat, limitOf: Key -> nat, calls: seq<Call>, key: Key,
                                                     now: real)
    requires maxBuckets >= 1 && InOrder(calls) && NeverForgotten(maxBuckets, calls, key)
    ensures var granted := Granted(maxBuckets, limitOf, calls, key);
      Nondecreasing(granted) && Spread(granted, limitOf(key)) && CountIn(granted, now) <= limitOf(key)
  {
    hide TableAfter, LastAccepted, CountIn, NeverForgotten, History, Held, Nondecreasing, Spread;
    if Forgotten(maxBuckets, calls, key) {
      if calls != [] {
        NeverForgottenBefore(maxBuckets, calls, key);
        LimitHoldsUnlessForgotten(maxBuckets, limitOf, calls[..|calls| - 1], key, now);
      }
    } else {
      GrantedIsHeld(maxBuckets, limitOf, calls, key);
      TableDecides(maxBuckets, limitOf, calls);
      TableRefinesHistory(maxBuckets, limitOf, calls);
      assert BucketRefines(maxBuckets, limitOf, calls, key);
      NothingIsSpread(limitOf(key));
      SpreadCount(Granted(maxBuckets, limitOf, calls, key), limitOf(key), now);
    }
  }

  lemma NothingIsSpread(limit: nat)
    ensures Nondecreasing([]) && Spread([], limit)
  {
  }

  /** With no more clients than buckets nobody is ever forgotten. */
  lemma FewClientsAreNeverForgotten(maxBuckets: nat, calls: seq<Call>, key: Key)
    requires |set n | 0 <= n < |calls| :: calls[n].key| <= maxBuckets
    ensures NeverForgotten(maxBuckets, calls, key)
  {
    var clients := set n | 0 <= n < |calls| :: calls[n].key;
    forall n | 0 <= n < |calls| && calls[n].key == key && Requested(calls[..n], key)
      ensures !Forgotten(maxBuckets, calls[..n], key)
    {
      OthersAreClients(calls[..n], key);
      var others := OthersSince(calls[..n], key);
      forall k | k in others ensures k in clients {
        var m :| 0 <= m < n && calls[..n][m].key == k;
        assert calls[m].key == k;
      }
      assert others <= clients - {key};
      SubsetSize(others, clients - {key});
    }
  }

  lemma {:induction false} OthersAreClients(calls: seq<Call>, key: Key)
    ensures forall k | k in OthersSince(calls, key) :: k != key && Requested(calls, k)
  {
    if calls != [] {
      var older := calls[..|calls| - 1];
      OthersAreClients(older, key);
      assert Requested(calls, calls[|calls| - 1].key);
      forall k | k in OthersSince(older, key) ensures Requested(calls, k) {
        var n :| 0 <= n < |older| && older[n].key == k;
        assert calls[n].key == k;
      }
    }
  }

  lemma {:induction false} SubsetSize(a: set<Key>, b: set<Key>)
    requires a <= b
    ensures |a| <= |b|
  {
    assert b == a + (b - a);
  }

  /** Eviction forgets: whatever it was granted before, the next request of a forgotten client is
      accepted. */
  lemma EvictionForgets(maxBuckets: nat, limitOf: Key -> nat, calls: seq<Call>)
    requires maxBuckets >= 1 && InOrder(calls) && calls != [] && limitOf(calls[|calls| - 1].key) >= 1
    requires Forgotten(maxBuckets, calls[..|calls| - 1], calls[|calls| - 1].key)
    ensures LastAccepted(maxBuckets, limitOf, calls)
  {
    TableDecides(maxBuckets, limitOf, calls);
  }

  /** For a client not forgotten so far, exactly when its next request is accepted: it has room in
      its window, or it has just been forgotten. So the first excess over the limit is always the
      work of an eviction. */
  lemma AcceptedExactly(maxBuckets: nat, limitOf: Key -> nat, calls: seq<Call>)
    requires maxBuckets >= 1 && InOrder(calls) && calls != []
    requires NeverForgotten(maxBuckets, calls[..|calls| - 1], calls[|calls| - 1].key)
    ensures var older, last := calls[..|calls| - 1], calls[|calls| - 1];
      LastAccepted(maxBuckets, limitOf, calls) <==>
      || CountIn(Granted(maxBuckets, limitOf, older, last.key), last.at) < limitOf(last.key)
      || (Forgotten(maxBuckets, older, last.key) && limitOf(last.key) >= 1)
  {
    var older, last := calls[..|calls| - 1], calls[|calls| - 1];
    TableDecides(maxBuckets, limitOf, calls);
    GrantedIsHeld(maxBuckets, limitOf, older, last.key);
  }

  function One(key: Key): nat { 1 }

  /** A concrete run: with room for one bucket and a limit of one, a request of another client in
      between lets the first client in twice within two seconds; with room for two it does not. */
  lemma TwoWithinTheLimit(a: Key, b: Key, maxBuckets: nat)
    requires a != b && 1 <= maxBuckets <= 2
    ensures var calls := [Call(a, 0.0), Call(b, 1.0), Call(a, 2.0)];
      LastAccepted(maxBuckets, One, calls[..1]) && (LastAccepted(maxBuckets, One, calls) <==> maxBuckets == 1)
  {
    var calls := [Call(a, 0.0), Call(b, 1.0), Call(a, 2.0)];
    assert calls[..1][..0] == [] && calls[..2][..1] == calls[..1];
    var t1, t2 := Table([a], map[a := [0.0]]), TableAfter(maxBuckets, One, calls[..2]);
    FirstRequest(maxBuckets, calls[0]);
    assert TableAfter(maxBuckets, One, []) == Table([], map[]);
    assert TableAfter(maxBuckets, One, calls[..1]) == t1;
    assert t2 == Take(t1, maxBuckets, 1, calls[1]).0;
    assert |t1.buckets| == 1;
    if maxBuckets == 1 {
      assert a !in t2.buckets && |t2.buckets| <= 1 by { assert t2.buckets.Keys == {b}; }
    } else {
      assert t2.buckets[a] == [0.0];
    }
  }

  lemma FirstRequest(maxBuckets: nat, call: Call)
    requires maxBuckets >= 1
    ensures Take(Table([], map[]), maxBuckets, 1, call) == (Table([call.key], map[call.key := [call.at]]), true)
  {
    var u := Touch(Table([], map[]), maxBuckets, call.key);
    assert u == Table([call.key], map[call.key := []]);
    assert Prune(u.buckets[call.key], call.at - WINDOW) == [];
    assert [] + [call.at] == [call.at];
    assert u.buckets[call.key := [call.at]] == map[call.key := [call.at]];
  }
}
