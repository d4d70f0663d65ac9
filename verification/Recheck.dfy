/**
 Which proxies the health loop checks next. Every entry becomes due in time, but a batch has a limit: who
 is in it depends on the rank among all that are due, and a low class waits while enough better ones are due.
 */
module Recheck {
  import opened Wrappers
  import opened Ordering
  import opened Proxies
  import opened Lifecycle
  import opened Selection

  predicate NeedsCheck(p: ProxyData, now: Time) {
    match p.status
    case None => true
    case Some(Unchecked) => true
    case Some(PresumedAlive) => true
    case Some(Verified) =>
      p.record.lastCheck.Some? && Truncated(now - p.record.lastCheck.value, SECOND) > 60
    case Some(Failed) => IsAvailable(p, now)
  }

  function NeedsCheckFilter(now: Time): Filter {
    p => NeedsCheck(p, now)
  }

  function CheckClass(p: ProxyData): real {
    match p.status
    case None => 0.0
    case Some(Unchecked) => 0.0
    case Some(PresumedAlive) => 1.0
    case Some(Verified) => 2.0
    case Some(Failed) => 3.0
  }

  function ByClass(): ProxyData -> real {
    p => CheckClass(p)
  }

  function Batch(candidates: seq<ProxyData>, limit: nat): seq<ProxyData> {
    var sorted := StableSort(candidates, ByClass());
    sorted[..Min(limit, |sorted|)]
  }

  /**
   Every reachable proxy is due again within an hour of its last check; a Verified one exactly from
   61 s after it, one never verified or only presumed alive at once, and none while its breaker is open.
   */
  lemma NoProxyForgotten(p: ProxyData, now: Time, later: Time)
    requires Reachable(p, now) && now <= later
    ensures p.record.lastCheck.Some? && later >= p.record.lastCheck.value + HOUR ==> NeedsCheck(p, later)
    ensures p.status == Some(Verified) ==>
      p.record.lastCheck.Some? && (NeedsCheck(p, later) <==> later >= p.record.lastCheck.value + 61 * SECOND)
    ensures p.record.lastCheck == None ==> NeedsCheck(p, later)
    ensures !IsAvailable(p, later) ==> !NeedsCheck(p, later)
    ensures p.status != Some(Verified) && p.status != Some(Failed) ==> NeedsCheck(p, later)
  {
    ReachableKeepsInv(p, now);
  }

  /**
   A candidate is in the batch if and only if the candidates of a better class and those of its own class
   that were met earlier number fewer than the limit together.
   */
  lemma BatchExactly(candidates: seq<ProxyData>, limit: nat, i: nat)
    requires i < |candidates| && Distinct(candidates)
    ensures candidates[i] in Batch(candidates, limit) <==> Rank(candidates, ByClass(), i) < limit
  {
    hide Rank, StableSort, ByClass;
    var sorted, place := StableSort(candidates, ByClass()), Rank(candidates, ByClass(), i);
    SortedPlace(candidates, ByClass(), i);
    StableSortCorrect(candidates, ByClass());
    NoRepeats(sorted, candidates);
    if candidates[i] in Batch(candidates, limit) {
      var j :| 0 <= j < |Batch(candidates, limit)| && Batch(candidates, limit)[j] == candidates[i];
      assert sorted[j] == sorted[place];
    }
    if place < limit {
      assert Batch(candidates, limit)[place] == candidates[i];
    }
  }

  /** So nobody waits while everything due fits in one batch. */
  lemma RoomForAll(candidates: seq<ProxyData>, limit: nat, c: ProxyData)
    requires Distinct(candidates) && |candidates| <= limit && c in candidates
    ensures c in Batch(candidates, limit)
  {
    var i :| 0 <= i < |candidates| && candidates[i] == c;
    SortedPlace(candidates, ByClass(), i);
    BatchExactly(candidates, limit, i);
  }

  /**
   But a proxy is left out of every batch, however many there are, as long as each time so many of a
   better class are due that they fill it.
   */
  lemma StarvedByBetterClasses(rounds: seq<seq<ProxyData>>, limit: nat, c: ProxyData)
    requires forall r :: r in rounds ==> CountBelow(r, ByClass(), CheckClass(c)) >= limit
    ensures forall r :: r in rounds ==> c !in Batch(r, limit)
  {
    forall r | r in rounds ensures c !in Batch(r, limit) {
      var sorted := StableSort(r, ByClass());
      StableSortCorrect(r, ByClass());
      SortKeepsCount(r, ByClass(), CheckClass(c));
      BelowComesFirst(sorted, ByClass(), CheckClass(c));
      forall j | 0 <= j < |Batch(r, limit)| ensures Batch(r, limit)[j] != c {
        assert ByClass()(sorted[j]) < CheckClass(c) && ByClass()(c) == CheckClass(c);
      }
    }
  }

  /**
   That is not far-fetched: while `limit` Verified entries were last checked 61 s ago or earlier, no
   Failed entry is checked, however long its breaker has been closed again.
   */
  lemma FailedWaits(pool: ProxyMap, order: seq<string>, limit: nat, now: Time, waiting: set<string>)
    requires IsEnumeration(order, pool)
    requires |waiting| >= limit
    requires forall k :: k in waiting ==> k in pool && LongVerified(pool[k], now)
    ensures forall p :: p in Batch(Eligible(pool, order, NeedsCheckFilter(now)), limit) ==> p.status != Some(Failed)
  {
    var due := Eligible(pool, order, NeedsCheckFilter(now));
    WaitingAreDue(pool, order, now, waiting);
    forall p: ProxyData | p.status == Some(Failed) ensures p !in Batch(due, limit) {
      StarvedByBetterClasses([due], limit, p);
      assert due in [due];
    }
  }

  ghost predicate LongVerified(p: ProxyData, now: Time) {
    p.status == Some(Verified) && p.record.lastCheck.Some? && now >= p.record.lastCheck.value + 61 * SECOND
  }

  lemma LongVerifiedIsDue(p: ProxyData, now: Time)
    requires LongVerified(p, now)
    ensures NeedsCheck(p, now) && CountBelow([p], ByClass(), 3.0) == 1
  {
    assert [p][1..] == [];
  }

  lemma {:induction false} WaitingAreDue(pool: ProxyMap, order: seq<string>, now: Time, waiting: set<string>)
    requires Distinct(order) && forall k :: k in order ==> k in pool
    requires forall k :: k in waiting ==> k in order && LongVerified(pool[k], now)
    ensures CountBelow(Eligible(pool, order, NeedsCheckFilter(now)), ByClass(), 3.0) >= |waiting|
  {
    hide StableSort, CountBelow, NeedsCheck, LongVerified, ByClass;
    if order == [] {
      assert waiting == {};
    } else {
      var front, last := order[..|order| - 1], order[|order| - 1];
      assert order == front + [last];
      WaitingAreDue(pool, front, now, waiting - {last});
      CountBelowAppend(Eligible(pool, front, NeedsCheckFilter(now)),
                       if NeedsCheck(pool[last], now) then [pool[last]] else [], ByClass(), 3.0);
      if last in waiting {
        LongVerifiedIsDue(pool[last], now);
      } else {
        assert waiting - {last} == waiting;
      }
    }
  }

  /**
   A batch holds only candidates, in class order, and it leaves one out only when it is full of
   candidates of equal or better class.
   */
  lemma BatchIsFair(candidates: seq<ProxyData>, limit: nat, c: ProxyData)
    ensures |Batch(candidates, limit)| == Min(limit, |candidates|)
    ensures multiset(Batch(candidates, limit)) <= multiset(candidates)
    ensures Sorted(Batch(candidates, limit), ByClass())
    ensures c in candidates && c !in Batch(candidates, limit) ==>
      |Batch(candidates, limit)| == limit
      && forall b :: b in Batch(candidates, limit) ==> CheckClass(b) <= CheckClass(c)
  {
    hide StableSort, CheckClass;
    StableSortCorrect(candidates, ByClass());
    SortThenTakeIsTopN(candidates, limit, ByClass());
    var batch := Batch(candidates, limit);
    var rest :| Splits(batch, rest, candidates, ByClass());
    if c in candidates && c !in batch {
      LeftOver(batch, rest, candidates, c);
      assert |multiset(batch) + multiset(rest)| == |batch| + |rest|;
      forall b | b in batch ensures CheckClass(b) <= CheckClass(c) {
        assert ByClass()(b) <= ByClass()(c);
      }
    }
  }

  predicate Untested(p: ProxyData) {
    p.status == None || p.status == Some(Unchecked)
  }

  /**
   Priorities: an untested candidate is left out only for untested ones, one presumed alive not for a
   Verified or Failed one, and a Verified one never for a Failed one.
   */
  lemma BatchPriorities(candidates: seq<ProxyData>, limit: nat, c: ProxyData, b: ProxyData)
    requires c in candidates && c !in Batch(candidates, limit) && b in Batch(candidates, limit)
    ensures Untested(c) ==> Untested(b)
    ensures c.status == Some(PresumedAlive) ==> Untested(b) || b.status == Some(PresumedAlive)
    ensures c.status == Some(Verified) ==> b.status != Some(Failed)
  {
    BatchIsFair(candidates, limit, c);
  }

  lemma LeftOver<T>(kept: seq<T>, rest: seq<T>, all: seq<T>, c: T)
    requires multiset(kept) + multiset(rest) == multiset(all) && c in all && c !in kept
    ensures c in rest
  {
    assert c in multiset(all) && c !in multiset(kept);
  }

  /** Within a class the batch keeps the order of iteration. */
  lemma BatchIsFirstComeFirstServed(candidates: seq<ProxyData>, limit: nat, v: real)
    ensures WithKey(Batch(candidates, limit), ByClass(), v) <= WithKey(candidates, ByClass(), v)
  {
    var sorted := StableSort(candidates, ByClass());
    StableSortCorrect(candidates, ByClass());
    WithKeyPrefix(sorted, Min(limit, |sorted|), ByClass(), v);
  }

  lemma {:induction false} WithKeyPrefix<T>(s: seq<T>, n: nat, key: T -> real, v: real)
    requires n <= |s|
    ensures WithKey(s[..n], key, v) <= WithKey(s, key, v)
  {
    if n > 0 {
      assert s[..n][1..] == s[1..][..n - 1];
      WithKeyPrefix(s[1..], n - 1, key, v);
    }
  }
}
