/**
 Runs of the health loop: each round takes a batch of what is due, checks it, and the next round finds
 what the checks (and whatever else happened) have left. When a due proxy must come up, and when it never
 does.
 */
module HealthLoop {
  import opened Wrappers
  import opened Ordering
  import opened Proxies
  import opened Lifecycle
  import opened Selection
  import opened State
  import opened Recheck

  // `events` is everything recorded from the start of the round to the next one, the batch's checks
  // among it, in order.
  datatype Round = Round(order: seq<string>, limit: nat, at: Time, events: seq<(string, Event)>)

  function AfterEvents(pool: ProxyMap, es: seq<(string, Event)>): ProxyMap
    decreases |es|
  {
    if es == [] then pool else AfterEvents(Updated(pool, es[0].0, es[0].1), es[1..])
  }

  function LastEvent(es: seq<(string, Event)>, at: Time): Time
    decreases |es|
  {
    if es == [] then at else LastEvent(es[1..], es[0].1.at)
  }

  // Times do not go back, and nothing restarts.
  ghost predicate InTime(es: seq<(string, Event)>, at: Time)
    decreases |es|
  {
    es == [] || (at <= es[0].1.at && !es[0].1.Restart? && InTime(es[1..], es[0].1.at))
  }

  function BatchOf(pool: ProxyMap, r: Round): seq<ProxyData>
    requires IsEnumeration(r.order, pool)
  {
    Batch(Eligible(pool, r.order, NeedsCheckFilter(r.at)), r.limit)
  }

  ghost function BatchKeys(pool: ProxyMap, r: Round): set<string>
    requires IsEnumeration(r.order, pool)
  {
    set p | p in BatchOf(pool, r) :: Key(p)
  }

  ghost predicate Checked(es: seq<(string, Event)>, k: string) {
    exists e :: e in es && e.0 == k && IsCheck(e.1)
  }

  ghost predicate ValidRound(pool: ProxyMap, r: Round, now: Time) {
    && now <= r.at && IsEnumeration(r.order, pool) && InTime(r.events, r.at)
    && forall k :: k in BatchKeys(pool, r) ==> Checked(r.events, k)
  }

  ghost predicate ValidRounds(pool: ProxyMap, rs: seq<Round>, now: Time)
    decreases |rs|
  {
    rs == [] ||
    (ValidRound(pool, rs[0], now)
     && ValidRounds(AfterEvents(pool, rs[0].events), rs[1..], LastEvent(rs[0].events, rs[0].at)))
  }

  lemma {:induction false} EventsKeepKeys(pool: ProxyMap, es: seq<(string, Event)>)
    requires KeysMatch(pool)
    ensures KeysMatch(AfterEvents(pool, es)) && AfterEvents(pool, es).Keys == pool.Keys
    decreases |es|
  {
    hide KeysMatch, Updated;
    if es == [] {
    } else {
      UpdateKeepsKeys(pool, es[0].0, es[0].1);
      EventsKeepKeys(Updated(pool, es[0].0, es[0].1), es[1..]);
    }
  }

  lemma SameSize(pool: ProxyMap, other: ProxyMap)
    requires pool.Keys == other.Keys
    ensures |pool| == |other|
  {
    assert |pool| == |pool.Keys| && |other| == |other.Keys|;
  }

  lemma BatchWithin(due: seq<ProxyData>, limit: nat)
    ensures multiset(Batch(due, limit)) <= multiset(due) && |Batch(due, limit)| <= limit
  {
    hide StableSort;
    StableSortCorrect(due, ByClass());
    var sorted, n := StableSort(due, ByClass()), |Batch(due, limit)|;
    assert sorted == sorted[..n] + sorted[n..];
  }

  lemma {:induction false} KeysCounted(ps: seq<ProxyData>, pool: ProxyMap)
    requires Distinct(ps) && forall p :: p in ps ==> Key(p) in pool && pool[Key(p)] == p
    ensures |set p | p in ps :: Key(p)| == |ps|
  {
    hide Key;
    if ps == [] {
      assert (set p | p in ps :: Key(p)) == {};
    } else {
      var front, last := ps[..|ps| - 1], ps[|ps| - 1];
      KeysCounted(front, pool);
      assert ps == front + [last];
      assert Key(last) !in (set p | p in front :: Key(p)) by {
        assert forall p :: p in front && Key(p) == Key(last) ==> p == last;
        assert last !in front;
      }
      assert (set p | p in ps :: Key(p)) == (set p | p in front :: Key(p)) + {Key(last)};
    }
  }

  lemma BatchIsDue(pool: ProxyMap, r: Round, p: ProxyData)
    requires KeysMatch(pool) && IsEnumeration(r.order, pool) && p in BatchOf(pool, r)
    ensures Key(p) in pool && pool[Key(p)] == p && NeedsCheck(p, r.at)
  {
    hide NeedsCheck, StableSort, Key;
    var due := Eligible(pool, r.order, NeedsCheckFilter(r.at));
    BatchWithin(due, r.limit);
    assert p in multiset(BatchOf(pool, r)) && p in multiset(due);
    EligibleMembers(pool, r.order, NeedsCheckFilter(r.at), p);
  }

  lemma BatchCounted(pool: ProxyMap, r: Round)
    requires KeysMatch(pool) && IsEnumeration(r.order, pool)
    ensures |BatchKeys(pool, r)| == |BatchOf(pool, r)| <= r.limit
  {
    hide NeedsCheck, StableSort, Key, Batch;
    var due := Eligible(pool, r.order, NeedsCheckFilter(r.at));
    forall p | p in BatchOf(pool, r) ensures Key(p) in pool && pool[Key(p)] == p {
      BatchIsDue(pool, r, p);
    }
    EligibleOnce(pool, r.order, NeedsCheckFilter(r.at));
    BatchWithin(due, r.limit);
    NoRepeats(BatchOf(pool, r), due);
    KeysCounted(BatchOf(pool, r), pool);
  }

  lemma LeftOutOfFull(pool: ProxyMap, r: Round, k: string)
    requires KeysMatch(pool) && IsEnumeration(r.order, pool)
    requires k in pool && NeedsCheck(pool[k], r.at) && k !in BatchKeys(pool, r)
    ensures |BatchOf(pool, r)| == r.limit
  {
    hide NeedsCheck, StableSort, Key, Batch;
    EligibleMembers(pool, r.order, NeedsCheckFilter(r.at), pool[k]);
    assert pool[k] !in BatchOf(pool, r);
    BatchIsFair(Eligible(pool, r.order, NeedsCheckFilter(r.at)), r.limit, pool[k]);
  }

  lemma BatchMembers(pool: ProxyMap, r: Round)
    requires KeysMatch(pool) && IsEnumeration(r.order, pool)
    ensures forall k :: k in BatchKeys(pool, r) ==> k in pool && NeedsCheck(pool[k], r.at)
    ensures |BatchKeys(pool, r)| == |BatchOf(pool, r)| <= r.limit
    ensures forall k :: k in pool && NeedsCheck(pool[k], r.at) && k !in BatchKeys(pool, r) ==>
      |BatchOf(pool, r)| == r.limit
  {
    hide NeedsCheck, BatchOf, Key, IsEnumeration, KeysMatch;
    BatchCounted(pool, r);
    forall p | p in BatchOf(pool, r) ensures Key(p) in pool && pool[Key(p)] == p && NeedsCheck(p, r.at) {
      BatchIsDue(pool, r, p);
    }
    forall k | k in pool && NeedsCheck(pool[k], r.at) && k !in BatchKeys(pool, r)
      ensures |BatchOf(pool, r)| == r.limit
    {
      LeftOutOfFull(pool, r, k);
    }
  }

  // ---- Resting ----

  // Checked not before `since` and not due for a minute after it.
  predicate Resting(p: ProxyData, since: Time) {
    || (p.status == Some(Verified) && p.record.lastCheck.Some? && p.record.lastCheck.value >= since)
    || (p.status == Some(Failed) && p.circuitOpenUntil.Some? && p.circuitOpenUntil.value >= since + 60 * SECOND)
  }

  /** After a check a proxy is not due for a minute if and only if it rests. */
  lemma RestsExactly(p: ProxyData, e: Event)
    requires IsCheck(e)
    ensures (forall t :: e.at <= t < e.at + 60 * SECOND ==> !NeedsCheck(Apply(p, e), t)) <==> Resting(Apply(p, e), e.at)
  {
    var q := Apply(p, e);
    if Resting(q, e.at) {
      forall t | e.at <= t < e.at + 60 * SECOND ensures !NeedsCheck(q, t) {
        RestingIsNotDue(q, e.at, t);
      }
    } else if q.status == Some(Failed) {
      assert NeedsCheck(q, e.at + 60 * SECOND - 1);
    } else {
      assert NeedsCheck(q, e.at);
    }
  }

  lemma RestingIsNotDue(p: ProxyData, since: Time, t: Time)
    requires Resting(p, since) && t < since + 60 * SECOND
    ensures !NeedsCheck(p, t)
  {
  }

  /**
   A check makes a proxy rest if it succeeds, or is one of the first four failures of a Verified proxy, or
   counts as one of the failures 5 to 49. The first four of an untested proxy, and of one presumed
   alive, do not.
   */
  lemma CheckRests(p: ProxyData, e: Event)
    requires IsCheck(e)
    ensures e.Success? ==> Resting(Apply(p, e), e.at)
    ensures e.Failure? && 5 <= p.record.consecutiveFails + 1 <= 49 ==> Resting(Apply(p, e), e.at)
    ensures e.Failure? && p.record.consecutiveFails + 1 <= 4 && p.status != Some(Failed) ==>
      (Resting(Apply(p, e), e.at) <==> p.status == Some(Verified))
  {
  }

  // Every check in this list makes its proxy rest.
  ghost predicate AllRest(pool: ProxyMap, es: seq<(string, Event)>)
    decreases |es|
  {
    es == [] ||
    ((es[0].0 in pool && IsCheck(es[0].1) ==> Resting(Apply(pool[es[0].0], es[0].1), es[0].1.at))
     && AllRest(Updated(pool, es[0].0, es[0].1), es[1..]))
  }

  lemma OneEventKeepsResting(p: ProxyData, e: Event, since: Time)
    requires since <= e.at && !e.Restart? && (IsCheck(e) ==> Resting(Apply(p, e), e.at))
    ensures IsCheck(e) || Resting(p, since) ==> Resting(Apply(p, e), since)
  {
  }

  lemma {:induction false} EventsRest(pool: ProxyMap, es: seq<(string, Event)>, since: Time, at: Time, k: string)
    requires k in pool && since <= at && InTime(es, at) && AllRest(pool, es)
    ensures k in AfterEvents(pool, es)
    ensures Resting(pool[k], since) || Checked(es, k) ==> Resting(AfterEvents(pool, es)[k], since)
    decreases |es|
  {
    hide Resting, Apply, IsCheck;
    if es == [] {
    } else {
      var e := es[0];
      if e.0 == k {
        OneEventKeepsResting(pool[k], e.1, since);
      }
      EventsRest(Updated(pool, e.0, e.1), es[1..], since, e.1.at, k);
      if Checked(es, k) && !(e.0 == k && IsCheck(e.1)) {
        var x :| x in es && x.0 == k && IsCheck(x.1);
        assert x in es[1..];
      }
    }
  }

  lemma {:induction false} EventsLeave(pool: ProxyMap, es: seq<(string, Event)>, k: string)
    requires k in pool && forall e :: e in es ==> e.0 != k
    ensures k in AfterEvents(pool, es) && AfterEvents(pool, es)[k] == pool[k]
    decreases |es|
  {
    hide Apply;
    if es == [] {
    } else {
      assert es[0] in es;
      EventsLeave(Updated(pool, es[0].0, es[0].1), es[1..], k);
    }
  }

  // ---- Who must come up ----

  function Capacity(rs: seq<Round>): nat {
    if rs == [] then 0 else rs[0].limit + Capacity(rs[1..])
  }

  ghost predicate Reached(pool: ProxyMap, rs: seq<Round>, now: Time, c: string)
    requires ValidRounds(pool, rs, now)
    decreases |rs|
  {
    rs != [] &&
    (c in BatchKeys(pool, rs[0])
     || Reached(AfterEvents(pool, rs[0].events), rs[1..], LastEvent(rs[0].events, rs[0].at), c))
  }

  // Within a minute of `start`; every check makes its proxy rest; and only the loop checks c.
  ghost predicate QuietWindow(pool: ProxyMap, rs: seq<Round>, start: Time, c: string)
    decreases |rs|
  {
    rs == [] ||
    (start <= rs[0].at < start + 60 * SECOND && AllRest(pool, rs[0].events)
     && (IsEnumeration(rs[0].order, pool) && c !in BatchKeys(pool, rs[0]) ==>
           forall e :: e in rs[0].events ==> e.0 != c)
     && QuietWindow(AfterEvents(pool, rs[0].events), rs[1..], start, c))
  }

  lemma DueStays(p: ProxyData, now: Time, later: Time)
    requires NeedsCheck(p, now) && now <= later
    ensures NeedsCheck(p, later)
  {
  }

  // A round that leaves c out fills its batch with others, none of which has rested, and all rest afterwards.
  lemma RoundWithout(pool: ProxyMap, r: Round, now: Time, start: Time, c: string, rested: set<string>)
    requires KeysMatch(pool) && ValidRound(pool, r, now) && start <= r.at < start + 60 * SECOND
    requires c in pool && NeedsCheck(pool[c], r.at) && c !in BatchKeys(pool, r) && AllRest(pool, r.events)
    requires rested <= pool.Keys - {c} && forall k :: k in rested ==> Resting(pool[k], start)
    ensures var pool', rested' := AfterEvents(pool, r.events), rested + BatchKeys(pool, r);
      && |rested'| == |rested| + r.limit
      && rested' <= pool.Keys - {c} && pool'.Keys == pool.Keys
      && forall k :: k in rested' ==> Resting(pool'[k], start)
  {
    hide Resting, NeedsCheck, AllRest, InTime, IsEnumeration, Checked, BatchOf;
    BatchMembers(pool, r);
    EventsKeepKeys(pool, r.events);
    var batch := BatchKeys(pool, r);
    forall k | k in rested ensures k !in batch {
      RestingIsNotDue(pool[k], start, r.at);
    }
    assert rested !! batch;
    forall k | k in rested + batch ensures Resting(AfterEvents(pool, r.events)[k], start) {
      EventsRest(pool, r.events, start, r.at, k);
    }
  }

  lemma {:induction false} LeftOutCosts(pool: ProxyMap, rs: seq<Round>, now: Time, start: Time, c: string,
                                        rested: set<string>)
    requires KeysMatch(pool) && ValidRounds(pool, rs, now) && QuietWindow(pool, rs, start, c)
    requires c in pool && NeedsCheck(pool[c], start) && !Reached(pool, rs, now, c)
    requires rested <= pool.Keys - {c} && forall k :: k in rested ==> Resting(pool[k], start)
    ensures |rested| + Capacity(rs) < |pool|
    decreases |rs|
  {
    hide Resting, NeedsCheck, AllRest, ValidRound, BatchKeys, AfterEvents, LastEvent, KeysMatch;
    if rs == [] {
      SubsetSmaller(rested, pool.Keys, c);
      assert |pool| == |pool.Keys|;
    } else {
      var r := rs[0];
      OrderOf(pool, r, now);
      DueStays(pool[c], start, r.at);
      RoundWithout(pool, r, now, start, c, rested);
      EventsLeave(pool, r.events, c);
      EventsKeepKeys(pool, r.events);
      SameSize(pool, AfterEvents(pool, r.events));
      LeftOutCosts(AfterEvents(pool, r.events), rs[1..], LastEvent(r.events, r.at), start, c,
                   rested + BatchKeys(pool, r));
    }
  }

  lemma OrderOf(pool: ProxyMap, r: Round, now: Time)
    requires ValidRound(pool, r, now)
    ensures IsEnumeration(r.order, pool)
  {
  }

  lemma SubsetSmaller(a: set<string>, b: set<string>, c: string)
    requires a <= b - {c} && c in b
    ensures |a| < |b|
  {
    var rest := b - {c} - a;
    assert b == a + rest + {c};
  }

  /**
   A proxy that is due comes up within a minute, if the rounds of that minute have room for the whole
   pool, every check in them makes its proxy rest, and nothing but the loop checks the proxy itself.
   */
  lemma DueComesUp(pool: ProxyMap, rs: seq<Round>, start: Time, c: string)
    requires KeysMatch(pool) && ValidRounds(pool, rs, start) && QuietWindow(pool, rs, start, c)
    requires c in pool && NeedsCheck(pool[c], start)
    requires Capacity(rs) >= |pool|
    ensures Reached(pool, rs, start, c)
  {
    if !Reached(pool, rs, start, c) {
      LeftOutCosts(pool, rs, start, start, c, {});
    }
  }

  // ---- Who never does ----

  ghost predicate NoneFailed(pool: ProxyMap, rs: seq<Round>, now: Time)
    requires ValidRounds(pool, rs, now)
    decreases |rs|
  {
    rs == [] ||
    ((forall p :: p in BatchOf(pool, rs[0]) ==> p.status != Some(Failed))
     && NoneFailed(AfterEvents(pool, rs[0].events), rs[1..], LastEvent(rs[0].events, rs[0].at)))
  }

  // These proxies keep succeeding, and nothing but the loop checks them.
  ghost predicate Healthy(pool: ProxyMap, rs: seq<Round>, now: Time, vs: set<string>)
    requires ValidRounds(pool, rs, now)
    decreases |rs|
  {
    rs == [] ||
    ((forall e :: e in rs[0].events && e.0 in vs && IsCheck(e.1) ==> e.1.Success? && e.0 in BatchKeys(pool, rs[0]))
     && Healthy(AfterEvents(pool, rs[0].events), rs[1..], LastEvent(rs[0].events, rs[0].at), vs))
  }

  // Earlier rounds, by the end of each: how many checks may be less than 61 s old at t.
  function Recent(past: seq<(Time, nat)>, t: Time): nat {
    if past == [] then 0
    else Recent(past[..|past| - 1], t) + if past[|past| - 1].0 > t - 61 * SECOND then past[|past| - 1].1 else 0
  }

  // At every round n proxies are enough to fill the batch with those not checked for 61 s.
  ghost predicate Crowded(n: nat, past: seq<(Time, nat)>, rs: seq<Round>)
    decreases |rs|
  {
    rs == [] ||
    (n >= rs[0].limit + Recent(past, rs[0].at)
     && Crowded(n, past + [(LastEvent(rs[0].events, rs[0].at), rs[0].limit)], rs[1..]))
  }

  // The keys checked in each earlier round.
  ghost predicate IsLog(log: seq<(Time, set<string>)>, past: seq<(Time, nat)>) {
    |log| == |past| && forall j :: 0 <= j < |log| ==> log[j].0 == past[j].0 && |log[j].1| <= past[j].1
  }

  function RecentKeys(log: seq<(Time, set<string>)>, t: Time): set<string> {
    if log == [] then {}
    else
      RecentKeys(log[..|log| - 1], t) + if log[|log| - 1].0 > t - 61 * SECOND then log[|log| - 1].1 else {}
  }

  lemma {:induction false} RecentCounted(log: seq<(Time, set<string>)>, past: seq<(Time, nat)>, t: Time)
    requires IsLog(log, past)
    ensures |RecentKeys(log, t)| <= Recent(past, t)
  {
    if log != [] {
      RecentCounted(log[..|log| - 1], past[..|past| - 1], t);
    }
  }

  lemma {:induction false} RecentHas(log: seq<(Time, set<string>)>, t: Time, j: nat, k: string)
    requires j < |log| && k in log[j].1 && log[j].0 > t - 61 * SECOND
    ensures k in RecentKeys(log, t)
  {
    if j < |log| - 1 {
      RecentHas(log[..|log| - 1], t, j, k);
    }
  }

  // Verified, and last checked by `base` or in one of the logged rounds.
  ghost predicate Tracked(p: ProxyData, k: string, log: seq<(Time, set<string>)>, base: Time) {
    && p.status == Some(Verified) && p.record.lastCheck.Some?
    && (p.record.lastCheck.value <= base
        || exists j :: 0 <= j < |log| && k in log[j].1 && p.record.lastCheck.value <= log[j].0)
  }

  ghost predicate AllTracked(pool: ProxyMap, vs: set<string>, log: seq<(Time, set<string>)>, base: Time) {
    forall k :: k in vs ==> k in pool && Tracked(pool[k], k, log, base)
  }

  lemma OneEventTracked(p: ProxyData, k: string, e: Event, log: seq<(Time, set<string>)>, base: Time, j: nat)
    requires Tracked(p, k, log, base) && !e.Restart? && (IsCheck(e) ==> e.Success?)
    requires IsCheck(e) ==> j < |log| && k in log[j].1 && e.at <= log[j].0
    ensures Tracked(Apply(p, e), k, log, base)
  {
  }

  lemma {:induction false} LastEventIsLast(es: seq<(string, Event)>, at: Time, e: (string, Event))
    requires InTime(es, at)
    ensures at <= LastEvent(es, at) && (e in es ==> e.1.at <= LastEvent(es, at))
    decreases |es|
  {
    if es == [] {
    } else {
      LastEventIsLast(es[1..], es[0].1.at, e);
      assert e in es ==> e == es[0] || e in es[1..];
    }
  }

  lemma {:induction false} EventsTracked(pool: ProxyMap, es: seq<(string, Event)>, at: Time, k: string,
                                         log: seq<(Time, set<string>)>, base: Time, end: Time)
    requires k in pool && Tracked(pool[k], k, log, base) && InTime(es, at)
    requires log != [] && log[|log| - 1].0 == end && forall e :: e in es ==> e.1.at <= end
    requires forall e :: e in es && e.0 == k && IsCheck(e.1) ==> e.1.Success? && k in log[|log| - 1].1
    ensures k in AfterEvents(pool, es) && Tracked(AfterEvents(pool, es)[k], k, log, base)
    decreases |es|
  {
    hide Tracked, Apply, IsCheck;
    if es == [] {
    } else {
      var e := es[0];
      assert e in es;
      if e.0 == k {
        OneEventTracked(pool[k], k, e.1, log, base, |log| - 1);
      }
      EventsTracked(Updated(pool, e.0, e.1), es[1..], e.1.at, k, log, base, end);
    }
  }

  lemma LongerLog(p: ProxyData, k: string, log: seq<(Time, set<string>)>, base: Time, entry: (Time, set<string>))
    requires Tracked(p, k, log, base)
    ensures Tracked(p, k, log + [entry], base)
  {
    if p.record.lastCheck.value > base {
      var j :| 0 <= j < |log| && k in log[j].1 && p.record.lastCheck.value <= log[j].0;
      assert (log + [entry])[j] == log[j];
    }
  }

  // Enough of them have not been checked for 61 s, so a batch has no room for a Failed one.
  lemma CrowdedRound(pool: ProxyMap, r: Round, now: Time, vs: set<string>, log: seq<(Time, set<string>)>,
                     past: seq<(Time, nat)>, base: Time)
    requires ValidRound(pool, r, now) && AllTracked(pool, vs, log, base) && IsLog(log, past)
    requires base + 61 * SECOND <= r.at && |vs| >= r.limit + Recent(past, r.at)
    ensures forall p :: p in BatchOf(pool, r) ==> p.status != Some(Failed)
  {
    hide Recent, RecentKeys, BatchKeys, IsEnumeration, NeedsCheck, StableSort, InTime, IsLog;
    var recent := RecentKeys(log, r.at);
    RecentCounted(log, past, r.at);
    var waiting := vs - recent;
    assert |vs| <= |waiting| + |recent| by {
      assert vs == waiting + (vs * recent);
      SubsetCount(vs * recent, recent);
    }
    forall k | k in waiting ensures k in pool && LongVerified(pool[k], r.at) {
      if pool[k].record.lastCheck.value > base {
        var j :| 0 <= j < |log| && k in log[j].1 && pool[k].record.lastCheck.value <= log[j].0;
        if log[j].0 > r.at - 61 * SECOND {
          RecentHas(log, r.at, j, k);
        }
      }
    }
    FailedWaits(pool, r.order, r.limit, r.at, waiting);
  }

  lemma SubsetCount(a: set<string>, b: set<string>)
    requires a <= b
    ensures |a| <= |b|
  {
    assert b == a + (b - a);
  }

  lemma RoundTracked(pool: ProxyMap, r: Round, now: Time, vs: set<string>, log: seq<(Time, set<string>)>, base: Time)
    requires ValidRound(pool, r, now) && AllTracked(pool, vs, log, base)
    requires forall e :: e in r.events && e.0 in vs && IsCheck(e.1) ==> e.1.Success? && e.0 in BatchKeys(pool, r)
    ensures AllTracked(AfterEvents(pool, r.events), vs,
                       log + [(LastEvent(r.events, r.at), BatchKeys(pool, r))], base)
  {
    hide Tracked, IsCheck, LastEvent, InTime, IsEnumeration;
    var entry := (LastEvent(r.events, r.at), BatchKeys(pool, r));
    forall k | k in vs
      ensures k in AfterEvents(pool, r.events)
      ensures Tracked(AfterEvents(pool, r.events)[k], k, log + [entry], base)
    {
      LongerLog(pool[k], k, log, base, entry);
      forall e | e in r.events ensures e.1.at <= entry.0 {
        LastEventIsLast(r.events, r.at, e);
      }
      EventsTracked(pool, r.events, r.at, k, log + [entry], base, entry.0);
    }
  }

  lemma {:induction false} CrowdedRounds(pool: ProxyMap, rs: seq<Round>, now: Time, vs: set<string>,
                                         log: seq<(Time, set<string>)>, past: seq<(Time, nat)>, base: Time)
    requires KeysMatch(pool) && ValidRounds(pool, rs, now) && Healthy(pool, rs, now, vs)
    requires AllTracked(pool, vs, log, base) && IsLog(log, past) && base + 61 * SECOND <= now
    requires Crowded(|vs|, past, rs)
    ensures NoneFailed(pool, rs, now)
    decreases |rs|
  {
    hide AllTracked, Recent, BatchKeys, BatchOf, AfterEvents, LastEvent, KeysMatch;
    if rs == [] {
    } else {
      var r := rs[0];
      CrowdedRound(pool, r, now, vs, log, past, base);
      RoundTracked(pool, r, now, vs, log, base);
      EventsKeepKeys(pool, r.events);
      BatchMembers(pool, r);
      var end := LastEvent(r.events, r.at);
      if r.events != [] {
        LastEventIsLast(r.events, r.at, r.events[0]);
      } else {
        NoEvents(r.at);
      }
      CrowdedRounds(AfterEvents(pool, r.events), rs[1..], end, vs, log + [(end, BatchKeys(pool, r))],
                    past + [(end, r.limit)], base);
    }
  }

  lemma NoEvents(at: Time)
    ensures LastEvent([], at) == at
  {
  }

  /**
   A Failed proxy never comes up, in any number of rounds, while there are Verified ones that keep
   succeeding and are enough to fill every batch with those last checked 61 s before.
   */
  lemma FailedNeverComesUp(pool: ProxyMap, rs: seq<Round>, now: Time, vs: set<string>)
    requires KeysMatch(pool) && ValidRounds(pool, rs, now) && Healthy(pool, rs, now, vs)
    requires forall k :: k in vs ==> k in pool && LongVerified(pool[k], now)
    requires Crowded(|vs|, [], rs)
    ensures NoneFailed(pool, rs, now)
  {
    assert AllTracked(pool, vs, [], now - 61 * SECOND);
    CrowdedRounds(pool, rs, now, vs, [], [], now - 61 * SECOND);
  }

  // ---- The loop's own pace ----

  const TICK: int := 5 * SECOND

  // One round every five seconds with batches of one size, each over before the next.
  ghost predicate Paced(rs: seq<Round>, limit: nat, start: Time, i: nat)
    decreases |rs|
  {
    rs == [] ||
    (rs[0].at == start + i * TICK && rs[0].limit == limit
     && LastEvent(rs[0].events, rs[0].at) <= start + (i + 1) * TICK
     && Paced(rs[1..], limit, start, i + 1))
  }

  ghost predicate PacedPast(past: seq<(Time, nat)>, limit: nat, start: Time) {
    forall j :: 0 <= j < |past| ==> past[j].0 <= start + (j + 1) * TICK && past[j].1 == limit
  }

  function RecentRounds(past: seq<(Time, nat)>, t: Time): nat {
    if past == [] then 0
    else RecentRounds(past[..|past| - 1], t) + if past[|past| - 1].0 > t - 61 * SECOND then 1 else 0
  }

  lemma {:induction false} RecentOfOneSize(past: seq<(Time, nat)>, limit: nat, t: Time)
    requires forall j :: 0 <= j < |past| ==> past[j].1 == limit
    ensures Recent(past, t) == limit * RecentRounds(past, t)
  {
    if past != [] {
      RecentOfOneSize(past[..|past| - 1], limit, t);
      OneTimesMore(limit, RecentRounds(past[..|past| - 1], t));
    }
  }

  lemma OneTimesMore(a: nat, b: nat)
    ensures a * (b + 1) == a * b + a
  {
  }

  // Of i rounds at this pace at most the last thirteen are recent.
  lemma {:induction false} ThirteenAreRecent(past: seq<(Time, nat)>, limit: nat, start: Time, i: nat)
    requires PacedPast(past, limit, start) && |past| <= i
    ensures RecentRounds(past, start + i * TICK) <= if |past| + 13 <= i then 0 else |past| + 13 - i
  {
    if past != [] {
      ThirteenAreRecent(past[..|past| - 1], limit, start, i);
    }
  }

  lemma AtMostThirteen(limit: nat, k: nat)
    requires k <= 13
    ensures limit * k <= 13 * limit
  {
  }

  lemma {:induction false} FourteenBatchesCrowd(n: nat, past: seq<(Time, nat)>, rs: seq<Round>, limit: nat, start: Time)
    requires PacedPast(past, limit, start) && Paced(rs, limit, start, |past|) && n >= 14 * limit
    ensures Crowded(n, past, rs)
    decreases |rs|
  {
    hide LastEvent;
    if rs == [] {
    } else {
      ThirteenAreRecent(past, limit, start, |past|);
      RecentOfOneSize(past, limit, rs[0].at);
      AtMostThirteen(limit, RecentRounds(past, rs[0].at));
      FourteenBatchesCrowd(n, past + [(LastEvent(rs[0].events, rs[0].at), limit)], rs[1..], limit, start);
    }
  }

  /** At a round every five seconds, fourteen batches of healthy Verified proxies starve every Failed one. */
  lemma FourteenBatchesStarve(pool: ProxyMap, rs: seq<Round>, limit: nat, start: Time, vs: set<string>)
    requires KeysMatch(pool) && ValidRounds(pool, rs, start) && Healthy(pool, rs, start, vs)
    requires forall k :: k in vs ==> k in pool && LongVerified(pool[k], start)
    requires Paced(rs, limit, start, 0) && |vs| >= 14 * limit
    ensures NoneFailed(pool, rs, start)
  {
    FourteenBatchesCrowd(|vs|, [], rs, limit, start);
    FailedNeverComesUp(pool, rs, start, vs);
  }

  // ---- Such runs exist, of any length ----

  function Successes(ps: seq<ProxyData>, at: Time): (es: seq<(string, Event)>)
    ensures |es| == |ps|
  {
    seq(|ps|, i requires 0 <= i < |ps| => (Key(ps[i]), Success(NonFinite, at)))
  }

  // A round in which every check succeeds at once.
  function GoodRound(pool: ProxyMap, order: seq<string>, limit: nat, at: Time): Round
    requires IsEnumeration(order, pool)
  {
    Round(order, limit, at, Successes(Batch(Eligible(pool, order, NeedsCheckFilter(at)), limit), at))
  }

  lemma OrderKept(pool: ProxyMap, order: seq<string>, es: seq<(string, Event)>)
    requires KeysMatch(pool) && IsEnumeration(order, pool)
    ensures KeysMatch(AfterEvents(pool, es)) && IsEnumeration(order, AfterEvents(pool, es))
  {
    hide KeysMatch;
    EventsKeepKeys(pool, es);
  }

  function GoodRun(pool: ProxyMap, order: seq<string>, limit: nat, at: Time, n: nat): seq<Round>
    requires KeysMatch(pool) && IsEnumeration(order, pool)
    decreases n
  {
    if n == 0 then []
    else
      var r := GoodRound(pool, order, limit, at);
      OrderKept(pool, order, r.events);
      [r] + GoodRun(AfterEvents(pool, r.events), order, limit, at + TICK, n - 1)
  }

  lemma {:induction false} SuccessesInTime(es: seq<(string, Event)>, at: Time)
    requires forall e :: e in es ==> e.1 == Success(NonFinite, at)
    ensures InTime(es, at) && LastEvent(es, at) == at
    decreases |es|
  {
    if es == [] {
    } else {
      assert es[0] in es;
      SuccessesInTime(es[1..], at);
    }
  }

  lemma GoodRoundIsValid(pool: ProxyMap, order: seq<string>, limit: nat, at: Time, now: Time)
    requires IsEnumeration(order, pool) && now <= at
    ensures var r := GoodRound(pool, order, limit, at);
      && ValidRound(pool, r, now) && LastEvent(r.events, at) == at
      && forall e :: e in r.events ==> e.1.Success? && e.0 in BatchKeys(pool, r)
  {
    hide StableSort, NeedsCheck, Key, InTime, LastEvent;
    var r := GoodRound(pool, order, limit, at);
    SuccessesInTime(r.events, at);
    var batch := BatchOf(pool, r);
    forall k | k in BatchKeys(pool, r) ensures Checked(r.events, k) {
      var p :| p in batch && Key(p) == k;
      var i :| 0 <= i < |batch| && batch[i] == p;
      assert r.events[i].0 == k && r.events[i] in r.events;
    }
    forall e | e in r.events ensures e.0 in BatchKeys(pool, r) {
      var i :| 0 <= i < |batch| && r.events[i] == e;
      assert batch[i] in batch;
    }
  }

  lemma {:induction false} GoodRunIsPaced(pool: ProxyMap, order: seq<string>, limit: nat, start: Time, i: nat, n: nat,
                                          now: Time, vs: set<string>)
    requires KeysMatch(pool) && IsEnumeration(order, pool) && now <= start + i * TICK
    ensures var rs := GoodRun(pool, order, limit, start + i * TICK, n);
      && |rs| == n && Paced(rs, limit, start, i)
      && ValidRounds(pool, rs, now) && Healthy(pool, rs, now, vs)
    decreases n
  {
    hide GoodRound, LastEvent, ValidRound, BatchKeys, KeysMatch, AfterEvents, IsCheck;
    if n > 0 {
      var at := start + i * TICK;
      var r := GoodRound(pool, order, limit, at);
      RoundParts(pool, order, limit, at);
      GoodRoundIsValid(pool, order, limit, at, now);
      OrderKept(pool, order, r.events);
      assert at + TICK == start + (i + 1) * TICK;
      GoodRunIsPaced(AfterEvents(pool, r.events), order, limit, start, i + 1, n - 1, at, vs);
      var rest := GoodRun(AfterEvents(pool, r.events), order, limit, at + TICK, n - 1);
      assert ([r] + rest)[1..] == rest;
    }
  }

  lemma RoundParts(pool: ProxyMap, order: seq<string>, limit: nat, at: Time)
    requires IsEnumeration(order, pool)
    ensures GoodRound(pool, order, limit, at).at == at && GoodRound(pool, order, limit, at).limit == limit
  {
  }

  /**
   So starvation is real and without end: with that many Verified proxies there is, for every n, a run of n
   rounds at the loop's pace, all checks succeeding, in which no Failed proxy is ever checked.
   */
  lemma StarvationWithoutEnd(pool: ProxyMap, order: seq<string>, limit: nat, start: Time, n: nat, vs: set<string>)
    requires KeysMatch(pool) && IsEnumeration(order, pool) && |vs| >= 14 * limit
    requires forall k :: k in vs ==> k in pool && LongVerified(pool[k], start)
    ensures var rs := GoodRun(pool, order, limit, start, n);
      |rs| == n && ValidRounds(pool, rs, start) && NoneFailed(pool, rs, start)
  {
    hide GoodRun, LongVerified;
    GoodRunIsPaced(pool, order, limit, start, 0, n, start, vs);
    assert start + 0 * TICK == start;
    FourteenBatchesStarve(pool, GoodRun(pool, order, limit, start, n), limit, start, vs);
  }
}
