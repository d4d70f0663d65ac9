/**
 One client connection from proxy selection on, over the real components: the sticky session, the pool,
 the warm connections and the counters. Nothing else runs in between (module Interleaving interleaves).
 */
module Handler {
  import opened Words
  import opened Wrappers
  import opened Proxies
  import opened Lifecycle
  import opened Selection
  import opened State
  import Gateway
  import Sticky
  import WarmPool

  const HTTPS_PORT: U16 := 443
  const MAX_RETRIES := Gateway.MAX_RETRIES
  const MILLISECOND: int := 1_000_000

  // One connection attempt: the pool it saw, the iteration orders of its pick and of a pick after waiting,
  // when it picked and when it settled on its proxy, the proxy, and what was recorded.
  datatype Attempt = Attempt(
    pool: ProxyMap,
    order: seq<string>,
    again: seq<string>,
    pickedAt: Time,
    chosenAt: Time,
    proxy: ProxyData,
    outcome: Event)

  function Lookup(pool: ProxyMap, key: string): Option<ProxyData> {
    if key in pool then Some(pool[key]) else None
  }

  // The sticky key, if it may be used for the first attempt: still in the pool, and TLS-clean for HTTPS.
  function UsableSticky(pool: ProxyMap, key: Option<string>, https: bool): Option<string> {
    if key.Some? && key.value in pool && (https ==> pool[key.value].record.tlsClean == Some(true))
    then key else None
  }

  // What attempt number `i` picks.
  ghost predicate IsPick(r: Option<ProxyData>, i: nat, https: bool, sticky: Option<string>, backup: Option<string>,
                         pool: ProxyMap, order: seq<string>, excluded: seq<string>, now: Time)
    requires forall k :: k in order ==> k in pool
  {
    if i == 0 && sticky.Some? then r == Lookup(pool, sticky.value)
    else if i == 1 && backup.Some? then r == Lookup(pool, backup.value)
    else if https then IsBestTlsChoice(r, pool, order, excluded, now)
    else IsBestChoice(r, pool, order, excluded, now)
  }

  lemma PickExists(i: nat, https: bool, sticky: Option<string>, backup: Option<string>,
                   pool: ProxyMap, order: seq<string>, excluded: seq<string>, now: Time)
    returns (r: Option<ProxyData>)
    requires IsEnumeration(order, pool)
    ensures IsPick(r, i, https, sticky, backup, pool, order, excluded, now)
  {
    if i == 0 && sticky.Some? {
      r := Lookup(pool, sticky.value);
    } else if i == 1 && backup.Some? {
      r := Lookup(pool, backup.value);
    } else if https {
      r := BestTlsChoiceExists(pool, order, excluded, now);
    } else {
      r := BestChoiceExists(pool, order, excluded, now);
    }
  }

  // The proxy attempt `i` goes through: its pick, or after an empty pick and a wake-up any best choice.
  ghost predicate IsUsed(a: Attempt, i: nat, https: bool, sticky: Option<string>, backup: Option<string>,
                         excluded: seq<string>)
    requires forall k :: k in a.order ==> k in a.pool
    requires forall k :: k in a.again ==> k in a.pool
  {
    || IsPick(Some(a.proxy), i, https, sticky, backup, a.pool, a.order, excluded, a.pickedAt)
    || (IsPick(None, i, https, sticky, backup, a.pool, a.order, excluded, a.pickedAt)
        && IsBestChoice(Some(a.proxy), a.pool, a.again, excluded, a.chosenAt))
  }

  function AfterAttempts(pool: ProxyMap, trace: seq<Attempt>): ProxyMap {
    if trace == [] then pool
    else
      var last := trace[|trace| - 1];
      Updated(AfterAttempts(pool, trace[..|trace| - 1]), Key(last.proxy), last.outcome)
  }

  // What does not change while one connection is handled.
  datatype Setting = Setting(
    before: ProxyMap,
    start: Time,
    https: bool,
    sticky: Option<string>,
    backup: Option<string>,
    excluded: seq<string>)

  function LastTime(trace: seq<Attempt>, s: Setting): Time {
    if trace == [] then s.start else trace[|trace| - 1].outcome.at
  }

  // Duration::as_millis of the time an attempt took.
  function Milliseconds(elapsed: int): Latency {
    Finite((if elapsed < 0 then 0 else elapsed / MILLISECOND) as real)
  }

  /** The latency recorded is the number of whole milliseconds. */
  lemma MillisecondsExactly(elapsed: int, ms: nat)
    ensures ms * 1_000_000 <= elapsed < (ms + 1) * 1_000_000 ==> Milliseconds(elapsed) == Finite(ms as real)
    ensures elapsed < 0 ==> Milliseconds(elapsed) == Finite(0.0)
  {
    assert ms * 1_000_000 <= elapsed < (ms + 1) * 1_000_000 ==> elapsed / MILLISECOND == ms;
  }

  // Attempt `i` saw the pool its predecessors left, chose by the rules, and recorded no earlier than that.
  ghost predicate WellAttempted(trace: seq<Attempt>, i: nat, s: Setting)
    requires i < |trace|
  {
    var a := trace[i];
    && a.pool == AfterAttempts(s.before, trace[..i])
    && IsEnumeration(a.order, a.pool) && IsEnumeration(a.again, a.pool)
    && LastTime(trace[..i], s) <= a.pickedAt <= a.chosenAt <= a.outcome.at
    && (a.outcome.Failure? ||
        (a.outcome.Success? && i == |trace| - 1
         && a.outcome.sample == Milliseconds(a.outcome.at - a.chosenAt)))
    && IsUsed(a, i, s.https, s.sticky, s.backup, s.excluded)
  }

  ghost predicate WellTraced(trace: seq<Attempt>, s: Setting) {
    |trace| <= MAX_RETRIES && forall i :: 0 <= i < |trace| ==> WellAttempted(trace, i, s)
  }

  ghost predicate AllFailed(trace: seq<Attempt>) {
    forall i :: 0 <= i < |trace| ==> trace[i].outcome.Failure?
  }

  ghost predicate Succeeded(trace: seq<Attempt>) {
    trace != [] && trace[|trace| - 1].outcome.Success?
  }

  lemma ExtendTrace(trace: seq<Attempt>, a: Attempt, s: Setting)
    requires WellTraced(trace, s) && AllFailed(trace) && |trace| < MAX_RETRIES
    requires a.pool == AfterAttempts(s.before, trace)
    requires IsEnumeration(a.order, a.pool) && IsEnumeration(a.again, a.pool)
    requires LastTime(trace, s) <= a.pickedAt <= a.chosenAt <= a.outcome.at
    requires a.outcome.Failure? || (a.outcome.Success? && a.outcome.sample == Milliseconds(a.outcome.at - a.chosenAt))
    requires IsUsed(a, |trace|, s.https, s.sticky, s.backup, s.excluded)
    ensures WellTraced(trace + [a], s) && LastTime(trace + [a], s) == a.outcome.at
    ensures Succeeded(trace + [a]) == a.outcome.Success? && (a.outcome.Failure? ==> AllFailed(trace + [a]))
    ensures AfterAttempts(s.before, trace + [a]) == Updated(a.pool, Key(a.proxy), a.outcome)
  {
    hide IsUsed, IsEnumeration, Updated, AfterAttempts, LastTime;
    var t := trace + [a];
    assert t[..|trace|] == trace;
    AttemptsOneMore(s.before, trace, a);
    LastOneMore(trace, a, s);
    forall i | 0 <= i < |t| ensures WellAttempted(t, i, s) {
      if i < |trace| {
        assert WellAttempted(trace, i, s);
        assert t[..i] == trace[..i];
      }
    }
  }

  lemma AttemptsOneMore(pool: ProxyMap, trace: seq<Attempt>, a: Attempt)
    ensures AfterAttempts(pool, trace + [a]) == Updated(AfterAttempts(pool, trace), Key(a.proxy), a.outcome)
  {
    hide Updated, Key;
    assert (trace + [a])[..|trace|] == trace;
  }

  lemma LastOneMore(trace: seq<Attempt>, a: Attempt, s: Setting)
    ensures LastTime(trace + [a], s) == a.outcome.at
  {
  }

  lemma SameKeysSameOrders(order: seq<string>, pool: ProxyMap, other: ProxyMap)
    requires IsEnumeration(order, pool) && other.Keys == pool.Keys
    ensures IsEnumeration(order, other)
  {
  }

  // The rotation counter after n recorded failures.
  function Rotated(rotations: U64, n: nat): U64 {
    if n == 0 then rotations else Next64(Rotated(rotations, n - 1))
  }

  method Pick(state: SharedState, sessions: Sticky.Manager, peer: Sticky.Client, i: nat, https: bool,
              selected: Option<string>, order: seq<string>, now: Time, sample: nat)
    returns (r: Option<ProxyData>)
    requires IsEnumeration(order, state.proxies)
    requires i > 0 ==> selected == None
    ensures IsPick(r, i, https, selected, Sticky.Backup(sessions.sessions, peer), state.proxies, order,
                   state.excludedCountries, now)
  {
    if selected.Some? {
      r := Lookup(state.proxies, selected.value);
    } else if i == 1 {
      var backup := sessions.GetBackup(peer);
      if backup.Some? {
        r := Lookup(state.proxies, backup.value);
      } else if https {
        r := state.SelectBestForTls(order, now, sample);
      } else {
        r := state.SelectBest(order, now, sample);
      }
    } else if https {
      r := state.SelectBestForTls(order, now, sample);
    } else {
      r := state.SelectBest(order, now, sample);
    }
  }

  // Every proxy used is an entry of the pool it was chosen from.
  lemma UsedIsInPool(a: Attempt, i: nat, https: bool, sticky: Option<string>, backup: Option<string>,
                     excluded: seq<string>)
    requires KeysMatch(a.pool) && IsEnumeration(a.order, a.pool) && IsEnumeration(a.again, a.pool)
    requires IsUsed(a, i, https, sticky, backup, excluded)
    ensures Key(a.proxy) in a.pool && a.pool[Key(a.proxy)] == a.proxy
  {
    ChoiceIsInPool(a.proxy, a.pool, a.order, excluded, a.pickedAt);
    ChoiceIsInPool(a.proxy, a.pool, a.again, excluded, a.chosenAt);
  }

  lemma ChoiceIsInPool(p: ProxyData, pool: ProxyMap, order: seq<string>, excluded: seq<string>, now: Time)
    requires KeysMatch(pool) && IsEnumeration(order, pool)
    ensures
      IsBestChoice(Some(p), pool, order, excluded, now) || IsBestTlsChoice(Some(p), pool, order, excluded, now) ==>
        Key(p) in pool && pool[Key(p)] == p
  {
    InPool(p, pool, order, TierFilter(Verified, excluded, now));
    InPool(p, pool, order, TierFilter(PresumedAlive, excluded, now));
    InPool(p, pool, order, UntestedFilter(excluded, now));
    InPool(p, pool, order, TlsTierFilter(Verified, excluded, now));
    InPool(p, pool, order, TlsTierFilter(PresumedAlive, excluded, now));
  }

  lemma InPool(p: ProxyData, pool: ProxyMap, order: seq<string>, f: Filter)
    requires KeysMatch(pool) && IsEnumeration(order, pool)
    ensures p in Eligible(pool, order, f) ==> Key(p) in pool && pool[Key(p)] == p
  {
    EligibleMembers(pool, order, f, p);
  }

  // What the counters and the session table are at the end.
  ghost predicate Settled(trace: seq<Attempt>, peer: Sticky.Client, before: Sticky.Sessions, after: Sticky.Sessions) {
    if Succeeded(trace) then
      after == AfterSuccessVia(before, peer, trace[|trace| - 1])
    else after == before
  }

  function AfterSuccessVia(ss: Sticky.Sessions, peer: Sticky.Client, a: Attempt): Sticky.Sessions {
    ss[peer := Sticky.AfterUse(Sticky.Find(ss, peer), Key(a.proxy), a.outcome.at)]
  }

  // Pick a proxy; on an empty pick wait to be woken and take any best choice.
  method Choose(state: SharedState, sessions: Sticky.Manager, warm: WarmPool.Pool, peer: Sticky.Client,
                i: nat, https: bool, selected: Option<string>, order: seq<string>, again: seq<string>, sample: nat)
    returns (proxy: Option<ProxyData>, ghost pickedAt: Time)
    requires warm.Valid() && IsEnumeration(order, state.proxies) && IsEnumeration(again, state.proxies)
    requires i > 0 ==> selected == None
    modifies warm.network`now
    ensures warm.Valid() && pickedAt == old(warm.network.now) <= warm.network.now
    ensures proxy.Some? ==> forall e ::
      IsUsed(Attempt(state.proxies, order, again, pickedAt, warm.network.now, proxy.value, e), i, https, selected,
             Sticky.Backup(sessions.sessions, peer), state.excludedCountries)
  {
    hide IsBestChoice, IsBestTlsChoice, WarmPool.Pool.Valid;
    pickedAt := warm.network.now;
    proxy := Pick(state, sessions, peer, i, https, selected, order, warm.network.now, sample);
    if proxy == None {
      var woken := warm.Elapse();
      if !woken {
        return;
      }
      proxy := state.SelectBest(again, warm.network.now, sample);
    }
  }

  datatype Result = Connected | Lost | NoProxy

  // One turn of the retry loop: pick, perhaps wait, connect (over a warm connection if there is one), record.
  method TryOnce(state: SharedState, sessions: Sticky.Manager, warm: WarmPool.Pool, peer: Sticky.Client,
                 i: nat, https: bool, selected: Option<string>, order: seq<string>, again: seq<string>,
                 sample: nat, alive: WarmPool.Conn -> bool)
    returns (result: Result, ghost a: Attempt)
    requires state.Valid() && warm.Valid()
    requires IsEnumeration(order, state.proxies) && IsEnumeration(again, state.proxies)
    requires i > 0 ==> selected == None
    modifies state`proxies, state`proxyRotations, sessions, warm, warm.network
    ensures state.Valid() && warm.Valid() && state.proxies.Keys == old(state.proxies).Keys
    ensures warm.network.now >= old(warm.network.now) && sessions.ttlSecs == old(sessions.ttlSecs)
    ensures result == NoProxy ==>
      && state.proxies == old(state.proxies) && state.proxyRotations == old(state.proxyRotations)
      && sessions.sessions == old(sessions.sessions) && warm.takes == old(warm.takes)
    ensures result != NoProxy ==>
      && a.pool == old(state.proxies) && a.order == order && a.again == again
      && old(warm.network.now) <= a.pickedAt <= a.chosenAt <= a.outcome.at <= warm.network.now
      && IsUsed(a, i, https, selected, Sticky.Backup(old(sessions.sessions), peer), state.excludedCountries)
      && (if result == Connected then
            a.outcome.Success? && a.outcome.sample == Milliseconds(a.outcome.at - a.chosenAt)
          else a.outcome.Failure?)
      && state.proxies == Updated(old(state.proxies), Key(a.proxy), a.outcome)
      && state.proxyRotations ==
           (if result == Connected then old(state.proxyRotations) else Next64(old(state.proxyRotations)))
      && sessions.sessions ==
           (if result == Connected then AfterSuccessVia(old(sessions.sessions), peer, a) else old(sessions.sessions))
      && warm.takes == old(warm.takes) + 1
  {
    hide IsUsed, IsPick, IsEnumeration, WarmPool.Pool.Valid, WarmPool.AfterTake, Updated, Next64, Milliseconds;
    var network := warm.network;
    var proxy;
    ghost var pickedAt;
    proxy, pickedAt := Choose(state, sessions, warm, peer, i, https, selected, order, again, sample);
    if proxy == None {
      return NoProxy, Unused(state.proxies);
    }
    var start := network.now;
    var key := Key(proxy.value);
    var conn := warm.Take(key, alive);
    var ok := warm.Elapse();
    var latency := Milliseconds(network.now - start);
    a := Attempt(state.proxies, order, again, pickedAt, start, proxy.value,
                 if ok then Success(latency, network.now) else Failure(network.now));
    UpdateKeepsKeys(state.proxies, key, a.outcome);
    if ok {
      state.RecordSuccess(key, latency, network.now);
      sessions.SetOrTouch(peer, key, network.now);
      result := Connected;
    } else {
      state.RecordFail(key, network.now);
      result := Lost;
    }
  }

  ghost function Unused(pool: ProxyMap): Attempt {
    Attempt(pool, [], [], 0, 0, NewProxy("", 0, Http), Failure(0))
  }

  /**
   At most three attempts, each by the selection rules on the pool its predecessors left; every failure
   is recorded on its proxy and as a rotation, the one success on its proxy and in the session; the
   active count is given back on every path, and each attempt asks the warm pool once. Every pick may
   meet the pool in another order, and every attempt other liveness answers.
   */
  method HandleConnection(state: SharedState, sessions: Sticky.Manager, warm: WarmPool.Pool,
                          peer: Sticky.Client, targetPort: U16, orders: nat -> seq<string>,
                          samples: nat -> nat, alive: nat -> WarmPool.Conn -> bool)
    returns (connected: bool, ghost trace: seq<Attempt>, ghost setting: Setting)
    requires state.Valid() && warm.Valid()
    requires forall j :: IsEnumeration(orders(j), state.proxies)
    modifies state, sessions, warm, warm.network
    ensures state.Valid() && warm.Valid()
    ensures setting.before == old(state.proxies) && setting.start == old(warm.network.now)
    ensures setting.https == (targetPort == 443)
    ensures setting.sticky == UsableSticky(old(state.proxies),
      Sticky.Answer(old(sessions.sessions), sessions.ttlSecs, peer, old(warm.network.now)), setting.https)
    ensures var ss := Sticky.AfterGet(old(sessions.sessions), sessions.ttlSecs, peer, old(warm.network.now));
      setting.backup == Sticky.Backup(ss, peer) && Settled(trace, peer, ss, sessions.sessions)
    ensures setting.excluded == old(state.excludedCountries)
    ensures WellTraced(trace, setting)
    ensures state.banned == old(state.banned) && state.maxProxies == old(state.maxProxies)
    ensures connected == Succeeded(trace)
    ensures state.proxies == AfterAttempts(old(state.proxies), trace)
    ensures state.totalRequests == Next64(old(state.totalRequests))
    ensures state.activeConnections == old(state.activeConnections)
    ensures state.proxyRotations == Rotated(old(state.proxyRotations), if connected then |trace| - 1 else |trace|)
    ensures warm.takes == old(warm.takes) + |trace|
  {
    hide IsUsed, WarmPool.Pool.Valid, KeysMatch, AfterAttempts, Updated, WellTraced, IsEnumeration, Next64, Previous64;
    hide LastTime, AllFailed, Succeeded, UsableSticky, Sticky.AfterGet, Sticky.Answer, Sticky.Backup, AfterSuccessVia;
    state.totalRequests := Next64(state.totalRequests);
    state.activeConnections := Next64(state.activeConnections);
    var https := targetPort == HTTPS_PORT;
    var found := sessions.Get(peer, warm.network.now);
    var selected := UsableSticky(state.proxies, found, https);
    setting := Setting(state.proxies, warm.network.now, https, selected, Sticky.Backup(sessions.sessions, peer),
                       state.excludedCountries);
    trace := [];
    connected := false;
    EmptyTrace(setting);
    PreviousUndoesNext(old(state.activeConnections));
    for i := 0 to MAX_RETRIES
      invariant state.Valid() && warm.Valid() && state.proxies.Keys == setting.before.Keys
      invariant |trace| == i && AllFailed(trace) && WellTraced(trace, setting)
      invariant LastTime(trace, setting) <= warm.network.now
      invariant i == 0 ==> selected == setting.sticky
      invariant state.proxies == AfterAttempts(setting.before, trace)
      invariant state.proxyRotations == Rotated(old(state.proxyRotations), i)
      invariant sessions.sessions == Sticky.AfterGet(old(sessions.sessions), sessions.ttlSecs, peer, setting.start)
      invariant sessions.ttlSecs == old(sessions.ttlSecs)
      invariant state.excludedCountries == setting.excluded
      invariant state.banned == old(state.banned) && state.maxProxies == old(state.maxProxies)
      invariant state.totalRequests == Next64(old(state.totalRequests))
      invariant state.activeConnections == Next64(old(state.activeConnections))
      invariant warm.takes == old(warm.takes) + i
      invariant !connected && !Succeeded(trace)
    {
      if i > 0 {
        selected := None;
      }
      ghost var now0 := warm.network.now;
      var result;
      ghost var a;
      SameKeysSameOrders(orders(2 * i), setting.before, state.proxies);
      SameKeysSameOrders(orders(2 * i + 1), setting.before, state.proxies);
      result, a := TryOnce(state, sessions, warm, peer, i, https, selected, orders(2 * i), orders(2 * i + 1),
                           samples(i), alive(i));
      if result == NoProxy {
        break;
      }
      LaterAttemptsIgnoreSticky(a, i, setting, selected);
      ExtendTrace(trace, a, setting);
      trace := trace + [a];
      if result == Connected {
        connected := true;
        var relayed := warm.Elapse();
        break;
      }
    }
    state.activeConnections := Previous64(state.activeConnections);
  }

  lemma EmptyTrace(s: Setting)
    ensures WellTraced([], s) && AfterAttempts(s.before, []) == s.before
    ensures LastTime([], s) == s.start && AllFailed([]) && !Succeeded([])
  {
  }

  // The sticky key matters to the first attempt only.
  lemma LaterAttemptsIgnoreSticky(a: Attempt, i: nat, s: Setting, selected: Option<string>)
    requires IsEnumeration(a.order, a.pool) && IsEnumeration(a.again, a.pool)
    requires if i == 0 then selected == s.sticky else selected == None
    requires IsUsed(a, i, s.https, selected, s.backup, s.excluded)
    ensures IsUsed(a, i, s.https, s.sticky, s.backup, s.excluded)
  {
  }

  // ---- What a whole connection keeps ----

  /** Handling a connection keeps every pool entry reachable and under its own key. */
  lemma {:induction false} TraceKeepsPool(trace: seq<Attempt>, s: Setting, n: nat)
    requires WellTraced(trace, s) && n <= |trace|
    requires AllReachable(s.before, s.start) && KeysMatch(s.before)
    ensures AllReachable(AfterAttempts(s.before, trace[..n]), LastTime(trace[..n], s))
    ensures KeysMatch(AfterAttempts(s.before, trace[..n]))
  {
    hide IsUsed;
    if n == 0 {
    } else {
      TraceKeepsPool(trace, s, n - 1);
      var a, front := trace[n - 1], trace[..n - 1];
      assert WellAttempted(trace, n - 1, s);
      assert trace[..n][..n - 1] == front && trace[..n][n - 1] == a;
      LaterReachable(a.pool, LastTime(front, s), a.chosenAt);
      UpdateKeepsReachable(a.pool, Key(a.proxy), a.outcome, a.chosenAt);
      UpdateKeepsKeys(a.pool, Key(a.proxy), a.outcome);
    }
  }

  /**
   TLS policy: while a TLS-clean candidate of the scored tiers exists, every HTTPS attempt goes through
   a TLS-clean proxy, except a first retry with a backup. That one goes through the backup whatever its
   TLS verdict; and if the backup has left the pool it picks nothing, waits, and takes any best choice.
   */
  lemma HttpsTlsPolicy(trace: seq<Attempt>, i: nat, s: Setting, remembered: Option<string>, candidate: ProxyData)
    requires i < |trace| && WellAttempted(trace, i, s) && s.https
    requires KeysMatch(s.before) && s.sticky == UsableSticky(s.before, remembered, true)
    requires exists k :: k in trace[i].pool && trace[i].pool[k] == candidate
    requires TlsTierFilter(Verified, s.excluded, trace[i].pickedAt)(candidate)
          || TlsTierFilter(PresumedAlive, s.excluded, trace[i].pickedAt)(candidate)
    ensures var a := trace[i];
      if i == 1 && s.backup.Some? then
        if s.backup.value in a.pool then a.proxy == a.pool[s.backup.value]
        else IsBestChoice(Some(a.proxy), a.pool, a.again, s.excluded, a.chosenAt)
      else a.proxy.record.tlsClean == Some(true)
    ensures var a := trace[i];
      (i == 1 && s.backup.Some? ==> s.backup.value in a.pool) ==>
        (a.proxy.record.tlsClean == Some(true) <==>
         (i == 1 && s.backup.Some? ==> a.pool[s.backup.value].record.tlsClean == Some(true)))
  {
    var a := trace[i];
    assert i == 0 ==> a.pool == s.before by {
      assert i == 0 ==> trace[..i] == [];
    }
    if !(i == 0 && s.sticky.Some?) && !(i == 1 && s.backup.Some?) {
      hide IsBestChoice, IsBestTlsChoice;
      if IsBestTlsChoice(Some(a.proxy), a.pool, a.order, s.excluded, a.pickedAt) {
        TlsChoiceIsClean(Some(a.proxy), a.pool, a.order, s.excluded, a.pickedAt, candidate);
      } else {
        TlsChoiceIsClean(None, a.pool, a.order, s.excluded, a.pickedAt, candidate);
      }
    }
  }

  /**
   The exception is real: after a failed first attempt a backup that is not clean is used by the second,
   whatever else is in the pool.
   */
  lemma DirtyBackupIsUsed(trace: seq<Attempt>, s: Setting, order: seq<string>, now: Time)
    returns (second: Attempt)
    requires WellTraced(trace, s) && |trace| == 1 && AllFailed(trace)
    requires var pool := AfterAttempts(s.before, trace);
      && IsEnumeration(order, pool)
      && s.backup.Some? && s.backup.value in pool && pool[s.backup.value].record.tlsClean != Some(true)
    requires LastTime(trace, s) <= now
    ensures WellTraced(trace + [second], s) && second.proxy.record.tlsClean != Some(true)
  {
    hide AfterAttempts, WellTraced, LastTime, AllFailed, IsEnumeration;
    var pool := AfterAttempts(s.before, trace);
    second := Attempt(pool, order, order, now, now, pool[s.backup.value], Failure(now));
    EnumeratesKeys(order, pool);
    assert IsPick(Some(second.proxy), 1, s.https, s.sticky, s.backup, pool, order, s.excluded, now);
    ExtendTrace(trace, second, s);
  }

  lemma EnumeratesKeys(order: seq<string>, pool: ProxyMap)
    requires IsEnumeration(order, pool)
    ensures forall k :: k in order ==> k in pool
  {
  }
}
