/**
 Whole lives of a proxy: any run of successes, failures, restarts (save then load) and
 classifications, from creation on, at nondecreasing times.
 */
module Lifecycle {
  import opened Words
  import opened Wrappers
  import opened Proxies

  datatype Event =
    | Success(sample: Latency, at: Time)
    | Failure(at: Time)
    | Restart(at: Time)
    | Locate(country: string, at: Time)
    | JudgeTls(clean: bool, at: Time)

  function Apply(p: ProxyData, e: Event): ProxyData {
    match e
    case Success(sample, at) => AfterSuccess(p, sample, at)
    case Failure(at) => AfterFailure(p, at)
    case Restart(at) => Loaded(p.record, at)
    case Locate(country, _) => p.(record := p.record.(country := Some(country)))
    case JudgeTls(clean, _) => p.(record := p.record.(tlsClean := Some(clean)))
  }

  // Only a proxy checked at least once is written to the file, so only it survives a restart.
  ghost predicate Enabled(p: ProxyData, e: Event) {
    e.Restart? ==> p.record.lastCheck.Some?
  }

  function Run(p: ProxyData, es: seq<Event>): ProxyData
    decreases |es|
  {
    if es == [] then p else Run(Apply(p, es[0]), es[1..])
  }

  ghost predicate ValidRun(p: ProxyData, es: seq<Event>, start: Time, end: Time)
    decreases |es|
  {
    if es == [] then start <= end
    else start <= es[0].at && Enabled(p, es[0]) && ValidRun(Apply(p, es[0]), es[1..], es[0].at, end)
  }

  ghost predicate Reachable(p: ProxyData, now: Time) {
    exists host, port: U16, protocol, es, start ::
      ValidRun(NewProxy(host, port, protocol), es, start, now) && p == Run(NewProxy(host, port, protocol), es)
  }

  ghost predicate Inv(p: ProxyData, now: Time) {
    var r := p.record;
    && 0.0 <= r.latencyEwma <= 60000.0
    && r.priorityBoost == 0.0
    && (p.circuitOpenUntil.Some? ==> p.status == Some(Failed))
    && (p.status.Some? && p.status != Some(Failed) ==> r.consecutiveFails <= 4)
    && (p.status.Some? && p.status != Some(Unchecked) ==> r.lastCheck.Some?)
    && (r.lastCheck.Some? ==> r.lastCheck.value <= now)
    && (r.lastSuccess.Some? ==> r.lastCheck.Some? && r.lastSuccess.value <= r.lastCheck.value)
    && (p.circuitOpenUntil.Some? ==> p.circuitOpenUntil.value <= r.lastCheck.value + HOUR)
    && (p.circuitOpenUntil.Some? && 5 <= r.consecutiveFails <= 49 ==>
          p.circuitOpenUntil.value == r.lastCheck.value + OpenFor(r.consecutiveFails))
  }

  // How long the failure that makes the count k keeps the breaker open, in nanoseconds: one minute, five
  // minutes, one hour.
  function OpenFor(k: nat): int
    requires 5 <= k <= 49
  {
    if k <= 9 then 60_000_000_000 else if k <= 19 then 300_000_000_000 else 3_600_000_000_000
  }

  lemma FailureKeepsInv(p: ProxyData, before: Time, now: Time)
    requires Inv(p, before) && before <= now
    ensures Inv(AfterFailure(p, now), now)
  {
  }

  lemma SuccessKeepsInv(p: ProxyData, sample: Latency, before: Time, now: Time)
    requires Inv(p, before) && before <= now
    ensures Inv(AfterSuccess(p, sample, now), now)
  {
    assert 0.0 <= Clean(sample) <= 60000.0;
  }

  lemma StepKeepsInv(p: ProxyData, e: Event, before: Time)
    requires Inv(p, before) && before <= e.at && Enabled(p, e)
    ensures Inv(Apply(p, e), e.at)
  {
    match e
    case Success(sample, at) => SuccessKeepsInv(p, sample, before, at);
    case Failure(at) => FailureKeepsInv(p, before, at);
    case _ =>
  }

  lemma {:induction false} RunKeepsInv(p: ProxyData, es: seq<Event>, start: Time, end: Time)
    requires Inv(p, start) && ValidRun(p, es, start, end)
    ensures Inv(Run(p, es), end)
    decreases |es|
  {
    if es == [] {
    } else {
      StepKeepsInv(p, es[0], start);
      RunKeepsInv(Apply(p, es[0]), es[1..], es[0].at, end);
    }
  }

  lemma {:induction false} ExtendRun(p: ProxyData, es: seq<Event>, start: Time, end: Time, e: Event)
    requires ValidRun(p, es, start, end) && end <= e.at && Enabled(Run(p, es), e)
    ensures ValidRun(p, es + [e], start, e.at) && Run(p, es + [e]) == Apply(Run(p, es), e)
    decreases |es|
  {
    if es == [] {
      assert es + [e] == [e];
      assert ValidRun(Apply(p, e), [], e.at, e.at);
    } else {
      ExtendRun(Apply(p, es[0]), es[1..], es[0].at, end, e);
      assert (es + [e])[1..] == es[1..] + [e];
    }
  }

  /** Every event leads from a reachable state to a reachable state. */
  lemma ReachableStep(p: ProxyData, now: Time, e: Event)
    requires Reachable(p, now) && now <= e.at && Enabled(p, e)
    ensures Reachable(Apply(p, e), e.at)
  {
    var host, port: U16, protocol, es, start :|
      ValidRun(NewProxy(host, port, protocol), es, start, now) && p == Run(NewProxy(host, port, protocol), es);
    ExtendRun(NewProxy(host, port, protocol), es, start, now, e);
  }

  lemma {:induction false} RunLater(p: ProxyData, es: seq<Event>, start: Time, end: Time, later: Time)
    requires ValidRun(p, es, start, end) && end <= later
    ensures ValidRun(p, es, start, later)
    decreases |es|
  {
    if es != [] {
      RunLater(Apply(p, es[0]), es[1..], es[0].at, end, later);
    }
  }

  lemma ReachableLater(p: ProxyData, now: Time, later: Time)
    requires Reachable(p, now) && now <= later
    ensures Reachable(p, later)
  {
    var host, port: U16, protocol, es, start :|
      ValidRun(NewProxy(host, port, protocol), es, start, now) && p == Run(NewProxy(host, port, protocol), es);
    RunLater(NewProxy(host, port, protocol), es, start, now, later);
  }

  /** A new proxy: 5000 ms until it is measured, nothing counted, nothing seen, not tested, breaker closed. */
  lemma NewProxyExactly(host: string, port: U16, protocol: Protocol, now: Time)
    ensures var p := NewProxy(host, port, protocol);
      && p.record.host == host && p.record.port == port && p.record.protocol == protocol
      && p.record.latencyEwma == 5000.0 && p.record.priorityBoost == 0.0 && !p.record.manual
      && p.record.successCount == p.record.failCount == p.record.consecutiveFails == p.record.uptimeMaxSecs == 0
      && p.record.lastCheck == p.record.lastSuccess == p.record.lastFail == None
      && p.record.country == None && p.record.tlsClean == None
      && p.status == Some(Unchecked) && IsAvailable(p, now) && p.uptimeStreakStart == None
      && Score(p, now) == 5000.0
  {
  }

  lemma NewIsReachable(host: string, port: U16, protocol: Protocol, now: Time)
    ensures Reachable(NewProxy(host, port, protocol), now)
  {
    var p := NewProxy(host, port, protocol);
    assert ValidRun(p, [], now, now) && p == Run(p, []);
  }

  /** The invariant holds in every reachable state, at the run's end and at any later time. */
  lemma ReachableKeepsInv(p: ProxyData, now: Time)
    requires Reachable(p, now)
    ensures Inv(p, now)
  {
    var host, port: U16, protocol, es, start :|
      ValidRun(NewProxy(host, port, protocol), es, start, now) && p == Run(NewProxy(host, port, protocol), es);
    RunKeepsInv(NewProxy(host, port, protocol), es, start, now);
  }

  /** Only Failed proxies can be unavailable; every other status means at most 4 failures or a fresh load. */
  lemma OnlyFailedIsEverUnavailable(p: ProxyData, now: Time, later: Time)
    requires Reachable(p, now)
    ensures !IsAvailable(p, later) ==> p.status == Some(Failed)
    ensures p.status in {Some(Verified), Some(PresumedAlive), Some(Unchecked)} ==>
      p.circuitOpenUntil == None && p.record.consecutiveFails <= 4
  {
    ReachableKeepsInv(p, now);
  }

  // ---- Failed means five failures, until the 32-bit count wraps ----

  ghost predicate FailedMeansFive(p: ProxyData) {
    p.status == Some(Failed) ==> p.record.consecutiveFails >= 5
  }

  /** A failure keeps "Failed means at least 5" exactly when the count does not wrap on a Failed proxy. */
  lemma FailureKeepsFiveExactly(p: ProxyData, now: Time)
    requires FailedMeansFive(p)
    ensures FailedMeansFive(AfterFailure(p, now)) <==>
      !(p.status == Some(Failed) && p.record.consecutiveFails == TWO_32 - 1)
  {
  }

  lemma {:induction false} CountsStayBelowRunLength(p: ProxyData, es: seq<Event>, bound: nat)
    requires FailedMeansFive(p) && p.record.consecutiveFails <= bound && bound + |es| < TWO_32
    requires p.status.Some? && p.status != Some(Failed) ==> p.record.consecutiveFails <= 4
    ensures Run(p, es).record.consecutiveFails <= bound + |es| && FailedMeansFive(Run(p, es))
    decreases |es|
  {
    if es == [] {
    } else {
      var q := Apply(p, es[0]);
      assert q.record.consecutiveFails <= bound + 1 && FailedMeansFive(q);
      CountsStayBelowRunLength(q, es[1..], bound + 1);
    }
  }

  /** In every run of fewer than 2^32 events, Failed means at least 5 consecutive failures. */
  lemma FailedMeansFiveInRuns(host: string, port: U16, protocol: Protocol, es: seq<Event>)
    requires |es| < TWO_32
    ensures FailedMeansFive(Run(NewProxy(host, port, protocol), es))
  {
    CountsStayBelowRunLength(NewProxy(host, port, protocol), es, 0);
  }

  // ---- Failure streaks ----

  ghost predicate NonDecreasing(now: Time, times: seq<Time>) {
    && (times != [] ==> now <= times[0])
    && forall i :: 0 < i < |times| ==> times[i - 1] <= times[i]
  }

  function FailureStreak(p: ProxyData, times: seq<Time>): ProxyData {
    if times == [] then p
    else AfterFailure(FailureStreak(p, times[..|times| - 1]), times[|times| - 1])
  }

  // The deadline a streak leaves on a closed breaker with f failures counted already: the one set by
  // the last failure counted 5 to 49, and none if there was no such failure.
  function StreakDeadline(f: nat, times: seq<Time>): Option<Time> {
    var setters := if f + |times| <= 49 then |times| else 49 - f;
    if setters >= 1 && f + setters >= 5
    then Some(times[setters - 1] + OpenFor(f + setters))
    else None
  }

  lemma OneMoreFailure(f: nat, front: seq<Time>, last: Time)
    ensures StreakDeadline(f, front + [last]) ==
      if 5 <= f + |front| + 1 <= 49
      then Some(last + OpenFor(f + |front| + 1))
      else StreakDeadline(f, front)
  {
  }

  lemma FailureEffect(q: ProxyData, at: Time)
    requires q.record.consecutiveFails < TWO_32 - 1
    ensures AfterFailure(q, at).record.consecutiveFails == q.record.consecutiveFails + 1
    ensures AfterFailure(q, at).circuitOpenUntil ==
      if 5 <= q.record.consecutiveFails + 1 <= 49
      then Some(at + OpenFor(q.record.consecutiveFails + 1))
      else q.circuitOpenUntil
    ensures AfterFailure(q, at).status == if q.record.consecutiveFails + 1 >= 5 then Some(Failed) else q.status
  {
  }

  /**
   The escalation in numbers: after the failure that makes the count k the proxy is available again after
   exactly one minute for k from 5 to 9, five minutes for 10 to 19, one hour for 20 to 49. Fewer than 5
   leave status and deadline alone, 50 and more leave the deadline alone.
   */
  lemma FailureOpensBreaker(p: ProxyData, at: Time, later: Time)
    requires p.record.consecutiveFails < TWO_32 - 1
    ensures var k, q := p.record.consecutiveFails + 1, AfterFailure(p, at);
      && (5 <= k <= 9 ==> (IsAvailable(q, later) <==> later >= at + 60_000_000_000))
      && (10 <= k <= 19 ==> (IsAvailable(q, later) <==> later >= at + 300_000_000_000))
      && (20 <= k <= 49 ==> (IsAvailable(q, later) <==> later >= at + 3_600_000_000_000))
      && (k < 5 || k >= 50 ==> q.circuitOpenUntil == p.circuitOpenUntil)
      && (q.circuitOpenUntil == None ==> IsAvailable(q, later))
      && q.status == (if k >= 5 then Some(Failed) else p.status)
  {
    FailureEffect(p, at);
  }

  /** Any streak of failures on a closed breaker counts every failure and leaves exactly that deadline. */
  lemma {:induction false} StreakEffect(p: ProxyData, times: seq<Time>)
    requires p.circuitOpenUntil == None
    requires p.record.consecutiveFails + |times| < TWO_32
    ensures FailureStreak(p, times).record.consecutiveFails == p.record.consecutiveFails + |times|
    ensures FailureStreak(p, times).circuitOpenUntil == StreakDeadline(p.record.consecutiveFails, times)
    ensures times != [] && p.record.consecutiveFails + |times| >= 5 ==>
      FailureStreak(p, times).status == Some(Failed)
  {
    if times == [] {
    } else {
      var front, last := times[..|times| - 1], times[|times| - 1];
      StreakEffect(p, front);
      FailureEffect(FailureStreak(p, front), last);
      assert times == front + [last];
      OneMoreFailure(p.record.consecutiveFails, front, last);
    }
  }

  /**
   Fifty failures are not a permanent removal: from the 50th on the breaker keeps the deadline of the
   49th, and once that hour has passed the proxy is available again however often it failed since.
   */
  lemma FiftyFailuresExpire(p: ProxyData, times: seq<Time>, now: Time)
    requires p.circuitOpenUntil == None && p.record.consecutiveFails == 0
    requires 50 <= |times| < TWO_32
    ensures FailureStreak(p, times).status == Some(Failed)
    ensures IsAvailable(FailureStreak(p, times), now) <==> now >= times[48] + 3_600_000_000_000
  {
    StreakEffect(p, times);
  }

  /** A proxy loaded with 49 or more failures never gets a deadline at all while it keeps failing. */
  lemma LoadedWithFortyNineNeverOpens(p: ProxyData, times: seq<Time>, now: Time)
    requires p.circuitOpenUntil == None && p.record.consecutiveFails >= 49
    requires p.record.consecutiveFails + |times| < TWO_32
    ensures IsAvailable(FailureStreak(p, times), now)
  {
    StreakEffect(p, times);
  }

  /** The wrap is real: after 2^32 failures in a row the proxy is still Failed, with no failure counted. */
  lemma CountWraps(host: string, port: U16, protocol: Protocol, now: Time)
    ensures var p := FailureStreak(NewProxy(host, port, protocol), seq(TWO_32, _ => now));
      p.status == Some(Failed) && p.record.consecutiveFails == 0
  {
    var times := seq(TWO_32, _ => now);
    StreakEffect(NewProxy(host, port, protocol), times[..TWO_32 - 1]);
  }

  ghost predicate NotEarlier(a: Option<Time>, b: Option<Time>) {
    a.Some? ==> b.Some? && a.value <= b.value
  }

  lemma OneFailureNotEarlier(p: ProxyData, now: Time, at: Time)
    requires Inv(p, now) && FailedMeansFive(p) && now <= at
    requires p.record.consecutiveFails < TWO_32 - 1
    ensures Inv(AfterFailure(p, at), at) && FailedMeansFive(AfterFailure(p, at))
    ensures AfterFailure(p, at).record.consecutiveFails == p.record.consecutiveFails + 1
    ensures NotEarlier(p.circuitOpenUntil, AfterFailure(p, at).circuitOpenUntil)
  {
    FailureKeepsInv(p, now, at);
  }

  function LastTime(now: Time, times: seq<Time>): Time {
    if times == [] then now else times[|times| - 1]
  }

  /** Across a failure streak that does not wrap the count, the deadline never moves earlier. */
  lemma {:induction false} DeadlineNeverEarlier(p: ProxyData, now: Time, times: seq<Time>)
    requires Inv(p, now) && FailedMeansFive(p)
    requires NonDecreasing(now, times)
    requires p.record.consecutiveFails + |times| < TWO_32
    ensures Inv(FailureStreak(p, times), LastTime(now, times))
    ensures FailedMeansFive(FailureStreak(p, times))
    ensures FailureStreak(p, times).record.consecutiveFails == p.record.consecutiveFails + |times|
    ensures NotEarlier(p.circuitOpenUntil, FailureStreak(p, times).circuitOpenUntil)
  {
    if times == [] {
    } else {
      var front, last := times[..|times| - 1], times[|times| - 1];
      assert front != [] ==> front[|front| - 1] == times[|times| - 2];
      DeadlineNeverEarlier(p, now, front);
      OneFailureNotEarlier(FailureStreak(p, front), LastTime(now, front), last);
    }
  }

  // ---- A record is its history ----

  lemma {:induction false} RunOneMore(p: ProxyData, es: seq<Event>, e: Event)
    ensures Run(p, es + [e]) == Apply(Run(p, es), e)
    decreases |es|
  {
    if es == [] {
      assert es + [e] == [e] && [e][1..] == [];
    } else {
      RunOneMore(Apply(p, es[0]), es[1..], e);
      assert (es + [e])[1..] == es[1..] + [e];
    }
  }

  function Count(es: seq<Event>, kind: Event -> bool): nat {
    if es == [] then 0 else Count(es[..|es| - 1], kind) + if kind(es[|es| - 1]) then 1 else 0
  }

  // When the last event of a kind happened.
  function Last(es: seq<Event>, kind: Event -> bool): Option<Time> {
    if es == [] then None
    else if kind(es[|es| - 1]) then Some(es[|es| - 1].at)
    else Last(es[..|es| - 1], kind)
  }

  function IsSuccess(e: Event): bool { e.Success? }
  function IsFailure(e: Event): bool { e.Failure? }
  function IsCheck(e: Event): bool { e.Success? || e.Failure? }

  // The first success since the last failure or restart.
  function StreakStart(es: seq<Event>): Option<Time> {
    if es == [] then None
    else
      var front := StreakStart(es[..|es| - 1]);
      match es[|es| - 1]
      case Success(_, at) => if front == None then Some(at) else front
      case Failure(_) => None
      case Restart(_) => None
      case _ => front
  }

  // The longest time from the start of a streak to one of its successes, in seconds.
  function LongestStreak(es: seq<Event>): U64 {
    if es == [] then 0
    else
      var front, start := LongestStreak(es[..|es| - 1]), StreakStart(es[..|es| - 1]);
      if es[|es| - 1].Success? && start.Some? then LongestUptime(front, start.value, es[|es| - 1].at) else front
  }

  function Country(es: seq<Event>): Option<string> {
    if es == [] then None
    else if es[|es| - 1].Locate? then Some(es[|es| - 1].country)
    else Country(es[..|es| - 1])
  }

  function TlsVerdict(es: seq<Event>): Option<bool> {
    if es == [] then None
    else if es[|es| - 1].JudgeTls? then Some(es[|es| - 1].clean)
    else TlsVerdict(es[..|es| - 1])
  }

  ghost predicate IsRecordOf(p: ProxyData, host: string, port: U16, protocol: Protocol, es: seq<Event>) {
    var r := p.record;
    && r.host == host && r.port == port && r.protocol == protocol && !r.manual && r.priorityBoost == 0.0
    && r.successCount == Count(es, IsSuccess) % TWO_64 && r.failCount == Count(es, IsFailure) % TWO_64
    && r.lastSuccess == Last(es, IsSuccess) && r.lastFail == Last(es, IsFailure) && r.lastCheck == Last(es, IsCheck)
    && r.country == Country(es) && r.tlsClean == TlsVerdict(es)
    && r.uptimeMaxSecs == LongestStreak(es) && p.uptimeStreakStart == StreakStart(es)
  }

  /**
   Counts, time stamps, classification and uptime are functions of the events so far; and while an
   uptime streak runs no failure is counted, so of the two tests that start a new streak the one for
   counted failures is redundant.
   */
  lemma {:induction false} RecordIsItsHistory(host: string, port: U16, protocol: Protocol, es: seq<Event>)
    ensures IsRecordOf(Run(NewProxy(host, port, protocol), es), host, port, protocol, es)
    ensures var p := Run(NewProxy(host, port, protocol), es);
      p.uptimeStreakStart.Some? ==> p.record.consecutiveFails == 0
  {
    if es == [] {
    } else {
      var front, e := es[..|es| - 1], es[|es| - 1];
      RecordIsItsHistory(host, port, protocol, front);
      RunOneMore(NewProxy(host, port, protocol), front, e);
      assert es == front + [e];
      Next64Counts(Count(front, IsSuccess));
      Next64Counts(Count(front, IsFailure));
      OneMoreEvent(Run(NewProxy(host, port, protocol), front), host, port, protocol, front, e);
    }
  }

  // How one more event changes the functions of the history.
  lemma HistoryGrows(front: seq<Event>, e: Event)
    ensures var es := front + [e];
      && Last(es, IsSuccess) == (if e.Success? then Some(e.at) else Last(front, IsSuccess))
      && Last(es, IsFailure) == (if e.Failure? then Some(e.at) else Last(front, IsFailure))
      && Last(es, IsCheck) == (if e.Success? || e.Failure? then Some(e.at) else Last(front, IsCheck))
      && Country(es) == (if e.Locate? then Some(e.country) else Country(front))
      && TlsVerdict(es) == (if e.JudgeTls? then Some(e.clean) else TlsVerdict(front))
      && Count(es, IsSuccess) == Count(front, IsSuccess) + (if e.Success? then 1 else 0)
      && Count(es, IsFailure) == Count(front, IsFailure) + (if e.Failure? then 1 else 0)
  {
    var es := front + [e];
    assert es[..|front|] == front && es[|front|] == e;
  }

  lemma StreakGrows(front: seq<Event>, e: Event)
    ensures var es, start := front + [e], StreakStart(front);
      && StreakStart(es) == (if e.Success? then Some(if start.Some? then start.value else e.at)
                             else if e.Failure? || e.Restart? then None else start)
      && LongestStreak(es) == (if e.Success? && start.Some? then LongestUptime(LongestStreak(front), start.value, e.at)
                               else LongestStreak(front))
  {
    hide LongestUptime;
    var es := front + [e];
    assert es[..|front|] == front && es[|front|] == e;
  }

  lemma OneMoreEvent(p: ProxyData, host: string, port: U16, protocol: Protocol, front: seq<Event>, e: Event)
    requires IsRecordOf(p, host, port, protocol, front)
    requires p.uptimeStreakStart.Some? ==> p.record.consecutiveFails == 0
    ensures IsRecordOf(Apply(p, e), host, port, protocol, front + [e])
    ensures Apply(p, e).uptimeStreakStart.Some? ==> Apply(p, e).record.consecutiveFails == 0
  {
    hide Next64, LongestUptime, Clean, Count, Last, Country, TlsVerdict, StreakStart, LongestStreak;
    Next64Counts(Count(front, IsSuccess));
    Next64Counts(Count(front, IsFailure));
    HistoryGrows(front, e);
    StreakGrows(front, e);
  }

  // ---- Score and latency ----

  /** Any reachable Verified or PresumedAlive proxy scores within [-600, 60200]. */
  lemma ScoreBounds(p: ProxyData, now: Time)
    requires Reachable(p, now)
    requires p.status == Some(Verified) || p.status == Some(PresumedAlive)
    ensures -600.0 <= Score(p, now) <= 60200.0
  {
    ReachableKeepsInv(p, now);
    UptimeBonusBounds(p, now);
  }

  lemma UptimeBonusBounds(p: ProxyData, now: Time)
    ensures 0.0 <= UptimeBonus(p, now) <= 500.0
  {
  }

  // The longer of the running streak and the longest one stored, in seconds.
  function Uptime(p: ProxyData, now: Time): real {
    Max(if p.uptimeStreakStart.Some? then WholeSeconds(now - p.uptimeStreakStart.value) as real else 0.0,
        p.record.uptimeMaxSecs as real)
  }

  /** The stability bonus is nothing up to five minutes, more than 50 beyond, and 500 exactly from one hour on. */
  lemma UptimeBonusShape(p: ProxyData, now: Time)
    ensures UptimeBonus(p, now) == 0.0 <==> Uptime(p, now) <= 300.0
    ensures UptimeBonus(p, now) > 50.0 <==> Uptime(p, now) > 300.0
    ensures UptimeBonus(p, now) == 500.0 <==> Uptime(p, now) >= 3600.0
  {
  }

  /**
   The score in numbers: with equal bonuses, one point for every millisecond of latency, 50 for every
   counted failure, and the boost off.
   */
  lemma ScoreDifference(p: ProxyData, q: ProxyData, now: Time)
    requires p.record.lastSuccess == q.record.lastSuccess
    requires p.uptimeStreakStart == q.uptimeStreakStart && p.record.uptimeMaxSecs == q.record.uptimeMaxSecs
    ensures Score(p, now) - Score(q, now) ==
      (p.record.latencyEwma - q.record.latencyEwma)
      + 50.0 * (p.record.consecutiveFails as real - q.record.consecutiveFails as real)
      - (p.record.priorityBoost - q.record.priorityBoost)
  {
  }

  // Succeeded less than 300 seconds ago, or later than now.
  ghost predicate JustSucceeded(lastSuccess: Option<Time>, now: Time) {
    lastSuccess.Some? && now - lastSuccess.value < 300_000_000_000
  }

  /** A success less than 300 seconds ago is worth exactly 100 points, an older one nothing. */
  lemma RecentSuccessIsWorth100(p: ProxyData, lastSuccess: Option<Time>, now: Time)
    ensures var q := p.(record := p.record.(lastSuccess := lastSuccess));
      Score(q, now) - Score(p, now) ==
        (if JustSucceeded(p.record.lastSuccess, now) then 100.0 else 0.0)
        - (if JustSucceeded(lastSuccess, now) then 100.0 else 0.0)
  {
    var q := p.(record := p.record.(lastSuccess := lastSuccess));
    assert UptimeBonus(q, now) == UptimeBonus(p, now);
  }

  /** A proxy without counted failures, boost, recent success or long uptime scores its latency. */
  lemma PlainScoreIsLatency(p: ProxyData, now: Time)
    requires p.record.consecutiveFails == 0 && p.record.priorityBoost == 0.0
    requires !JustSucceeded(p.record.lastSuccess, now) && p.record.uptimeMaxSecs <= 300
    requires p.uptimeStreakStart.Some? ==> now - p.uptimeStreakStart.value < 301_000_000_000
    ensures Score(p, now) == p.record.latencyEwma
  {
  }

  // Whole seconds from start to now, none if now is earlier.
  ghost predicate IsWholeSeconds(u: nat, start: Time, now: Time) {
    if now < start then u == 0 else u * 1_000_000_000 <= now - start < (u + 1) * 1_000_000_000
  }

  /**
   The stability bonus in numbers, for a streak running for u whole seconds and a longest one of L: with
   the larger of the two, nothing up to 300, from there 50 and 450 more spread evenly up to 3600, 500 beyond.
   */
  lemma UptimeBonusExactly(p: ProxyData, start: Time, now: Time, u: nat)
    requires p.uptimeStreakStart == Some(start) && IsWholeSeconds(u, start, now)
    ensures var t := if u > p.record.uptimeMaxSecs then u else p.record.uptimeMaxSecs;
      && (t <= 300 ==> UptimeBonus(p, now) == 0.0)
      && (300 < t <= 3600 ==> UptimeBonus(p, now) == 50.0 + 450.0 * (t as real - 300.0) / 3300.0)
      && (t >= 3600 ==> UptimeBonus(p, now) == 500.0)
  {
    assert WholeSeconds(now - start) == u;
  }

  lemma UptimeBonusWithoutStreak(p: ProxyData, now: Time)
    requires p.uptimeStreakStart == None
    ensures var t := p.record.uptimeMaxSecs;
      && (t <= 300 ==> UptimeBonus(p, now) == 0.0)
      && (300 < t <= 3600 ==> UptimeBonus(p, now) == 50.0 + 450.0 * (t as real - 300.0) / 3300.0)
      && (t >= 3600 ==> UptimeBonus(p, now) == 500.0)
  {
  }

  /** A success in a running streak stores the streak's whole seconds if they are more than were stored. */
  lemma StreakIsStored(p: ProxyData, sample: Latency, start: Time, now: Time, u: nat)
    requires p.uptimeStreakStart == Some(start) && p.record.consecutiveFails == 0
    requires IsWholeSeconds(u, start, now)
    ensures var q := AfterSuccess(p, sample, now);
      && q.record.uptimeMaxSecs ==
           (if u <= p.record.uptimeMaxSecs then p.record.uptimeMaxSecs
            else if u <= 18_446_744_073_709_551_615 then u else 18_446_744_073_709_551_615)
      && q.uptimeStreakStart == Some(start)
  {
    assert WholeSeconds(now - start) == u;
  }

  /** A success lets the streak run on if it is running and no failure is counted; else a new one begins. */
  lemma StreakBegins(p: ProxyData, sample: Latency, now: Time)
    ensures var q := AfterSuccess(p, sample, now);
      if p.record.consecutiveFails == 0 && p.uptimeStreakStart.Some? then q.uptimeStreakStart == p.uptimeStreakStart
      else q.uptimeStreakStart == Some(now) && q.record.uptimeMaxSecs == p.record.uptimeMaxSecs
  {
  }

  /**
   What a success makes of the latency, in numbers: four fifths of the old value and one fifth of the
   sample, where a sample below 0 counts as 0, one above 60000 as 60000, and a non-finite one as 5000.
   */
  lemma RecordedLatency(p: ProxyData, sample: Latency, now: Time)
    ensures var before, after := p.record.latencyEwma, AfterSuccess(p, sample, now).record.latencyEwma;
      match sample
      case NonFinite => 5.0 * after == 4.0 * before + 5000.0
      case Finite(ms) =>
        && (0.0 <= ms <= 60000.0 ==> 5.0 * after == 4.0 * before + ms)
        && (ms < 0.0 ==> 5.0 * after == 4.0 * before)
        && (ms > 60000.0 ==> 5.0 * after == 4.0 * before + 60000.0)
  {
  }

  /** A proxy no worse in latency, failures, boost, recency and uptime never scores worse. */
  lemma ScoreIsMonotone(p: ProxyData, q: ProxyData, now: Time)
    requires p.record.latencyEwma <= q.record.latencyEwma
    requires p.record.consecutiveFails <= q.record.consecutiveFails
    requires p.record.priorityBoost >= q.record.priorityBoost
    requires q.record.lastSuccess.Some? ==>
      p.record.lastSuccess.Some? && p.record.lastSuccess.value >= q.record.lastSuccess.value
    requires Uptime(p, now) >= Uptime(q, now)
    ensures Score(p, now) <= Score(q, now)
    ensures p.record.consecutiveFails < q.record.consecutiveFails ==> Score(p, now) <= Score(q, now) - 50.0
  {
    RecencyIsMonotone(p.record, q.record, now);
    UptimeIsMonotone(p, q, now);
  }

  lemma RecencyIsMonotone(p: ProxyRecord, q: ProxyRecord, now: Time)
    requires q.lastSuccess.Some? ==> p.lastSuccess.Some? && p.lastSuccess.value >= q.lastSuccess.value
    ensures RecencyBonus(p, now) >= RecencyBonus(q, now)
  {
  }

  lemma UptimeIsMonotone(p: ProxyData, q: ProxyData, now: Time)
    requires Uptime(p, now) >= Uptime(q, now)
    ensures UptimeBonus(p, now) >= UptimeBonus(q, now)
  {
  }

  /** An hour of uptime outweighs exactly 500 ms of latency against a proxy without history. */
  lemma StabilityIsWorth500(p: ProxyData, q: ProxyData, now: Time)
    requires p.record.consecutiveFails == q.record.consecutiveFails
    requires p.record.priorityBoost == q.record.priorityBoost
    requires RecencyBonus(p.record, now) == RecencyBonus(q.record, now)
    requires Uptime(p, now) >= 3600.0 && Uptime(q, now) <= 300.0
    ensures Score(p, now) < Score(q, now) <==> p.record.latencyEwma < q.record.latencyEwma + 500.0
  {
    UptimeBonusShape(p, now);
    UptimeBonusShape(q, now);
  }

  // 0.8^n * x
  function Decayed(n: nat, x: real): real {
    if n == 0 then x else 0.8 * Decayed(n - 1, x)
  }

  function Smoothed(start: real, samples: seq<Latency>): real {
    if samples == [] then start
    else Smooth(Smoothed(start, samples[..|samples| - 1]), samples[|samples| - 1])
  }

  // Sample i of n weighs 0.2 * 0.8^(n - 1 - i).
  function WeightedSum(samples: seq<Latency>): real {
    if samples == [] then 0.0
    else 0.2 * Decayed(|samples| - 1, Clean(samples[0])) + WeightedSum(samples[1..])
  }

  lemma {:induction false} WeightedSumAppend(samples: seq<Latency>, x: Latency)
    ensures WeightedSum(samples + [x]) == 0.8 * WeightedSum(samples) + 0.2 * Clean(x)
  {
    if samples == [] {
      assert WeightedSum([x]) == 0.2 * Decayed(0, Clean(x)) + WeightedSum([]);
    } else {
      WeightedSumAppend(samples[1..], x);
      assert (samples + [x])[1..] == samples[1..] + [x];
    }
  }

  /** The average is a closed weighted sum of the starting value and the cleaned samples. */
  lemma {:induction false} SmoothedClosedForm(start: real, samples: seq<Latency>)
    ensures Smoothed(start, samples) == Decayed(|samples|, start) + WeightedSum(samples)
  {
    if samples == [] {
    } else {
      var front, x := samples[..|samples| - 1], samples[|samples| - 1];
      SmoothedClosedForm(start, front);
      WeightedSumAppend(front, x);
      assert samples == front + [x];
    }
  }

  lemma {:induction false} SmoothedBetween(start: real, samples: seq<Latency>, lo: real, hi: real)
    requires lo <= start <= hi
    requires forall s :: s in samples ==> lo <= Clean(s) <= hi
    ensures lo <= Smoothed(start, samples) <= hi
  {
    if samples == [] {
    } else {
      SmoothedBetween(start, samples[..|samples| - 1], lo, hi);
    }
  }

  lemma {:induction false} SmoothedMonotone(start: real, a: seq<Latency>, b: seq<Latency>)
    requires |a| == |b| && forall i :: 0 <= i < |a| ==> Clean(a[i]) <= Clean(b[i])
    ensures Smoothed(start, a) <= Smoothed(start, b)
  {
    if a == [] {
    } else {
      SmoothedMonotone(start, a[..|a| - 1], b[..|b| - 1]);
    }
  }

  /** Under constant latency the distance to it shrinks by exactly 0.8 per sample. */
  lemma {:induction false} SmoothedConverges(start: real, samples: seq<Latency>, level: real)
    requires forall s :: s in samples ==> Clean(s) == level
    ensures Smoothed(start, samples) - level == Decayed(|samples|, start - level)
  {
    if samples == [] {
    } else {
      var front := samples[..|samples| - 1];
      SmoothedConverges(start, front, level);
      assert samples[|samples| - 1] in samples;
    }
  }

  /** In particular for a latency measured again and again, from whatever start. */
  lemma ConstantLatencyConverges(start: real, level: real, n: nat)
    requires 0.0 <= level <= 60000.0
    ensures Smoothed(start, seq(n, _ => Finite(level))) - level == Decayed(n, start - level)
  {
    SmoothedConverges(start, seq(n, _ => Finite(level)), level);
  }

  lemma {:induction false} SameWeights(samples: seq<Latency>, cleaned: seq<real>)
    requires |cleaned| == |samples|
    requires forall i :: 0 <= i < |samples| ==> Clean(samples[i]) == cleaned[i]
    ensures WeightedSum(samples) == WeightedReals(cleaned)
  {
    if samples != [] {
      SameWeights(samples[1..], cleaned[1..]);
    }
  }

  // The weighted sum over plain numbers.
  function WeightedReals(values: seq<real>): real {
    if values == [] then 0.0 else 0.2 * Decayed(|values| - 1, values[0]) + WeightedReals(values[1..])
  }

  /** For measurements within range the closed form is over the measurements themselves. */
  lemma SmoothedMeasurements(start: real, values: seq<real>)
    requires forall i :: 0 <= i < |values| ==> 0.0 <= values[i] <= 60000.0
    ensures Smoothed(start, seq(|values|, i requires 0 <= i < |values| => Finite(values[i])))
            == Decayed(|values|, start) + WeightedReals(values)
  {
    var samples := seq(|values|, i requires 0 <= i < |values| => Finite(values[i]));
    SmoothedClosedForm(start, samples);
    SameWeights(samples, values);
  }

  function SuccessSamples(es: seq<Event>): seq<Latency> {
    if es == [] then []
    else (if es[0].Success? then [es[0].sample] else []) + SuccessSamples(es[1..])
  }

  lemma {:induction false} SmoothedAppend(start: real, x: Latency, rest: seq<Latency>)
    ensures Smoothed(start, [x] + rest) == Smoothed(Smooth(start, x), rest)
  {
    if rest == [] {
      assert [x] + rest == [x];
      assert Smoothed(start, [x]) == Smooth(Smoothed(start, []), x);
    } else {
      var front := rest[..|rest| - 1];
      SmoothedAppend(start, x, front);
      assert ([x] + rest)[..|rest|] == [x] + front;
    }
  }

  /** Over any run, the stored average is that of the run's successes alone: restarts lose nothing. */
  lemma {:induction false} LatencyIsSmoothedSuccesses(p: ProxyData, es: seq<Event>)
    ensures Run(p, es).record.latencyEwma == Smoothed(p.record.latencyEwma, SuccessSamples(es))
    decreases |es|
  {
    if es == [] {
    } else {
      LatencyIsSmoothedSuccesses(Apply(p, es[0]), es[1..]);
      if es[0].Success? {
        SmoothedAppend(p.record.latencyEwma, es[0].sample, SuccessSamples(es[1..]));
      } else {
        assert SuccessSamples(es) == SuccessSamples(es[1..]);
      }
    }
  }
}
