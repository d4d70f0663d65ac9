/** The shared state: the proxy map and the operations that scan, select from and update it. */
module State {
  import opened Words
  import opened Wrappers
  import opened Ordering
  import opened Proxies
  import opened Lifecycle
  import opened Selection
  import opened Recheck

  function ProxiesOf(top: seq<(real, ProxyData)>): (s: seq<ProxyData>)
    ensures |s| == |top|
  {
    seq(|top|, i requires 0 <= i < |top| => top[i].1)
  }

  function ScoresOf(top: seq<(real, ProxyData)>): (s: seq<real>)
    ensures |s| == |top|
  {
    seq(|top|, i requires 0 <= i < |top| => top[i].0)
  }

  // What the scan knows after meeting some of the pool.
  ghost predicate ScanState(top: seq<(real, ProxyData)>, rest: seq<ProxyData>, all: seq<ProxyData>,
                            worst: real, n: nat, now: Time)
  {
    && |top| == Min(n, |all|)
    && (|top| < n ==> rest == [])
    && (forall e :: e in top ==> e.0 == Score(e.1, now))
    && Splits(ProxiesOf(top), rest, all, ScoreAt(now))
    && (|top| == n > 0 ==> worst == Highest(ScoresOf(top)))
  }

  lemma ScanPush(top: seq<(real, ProxyData)>, all: seq<ProxyData>, worst: real, n: nat, now: Time, p: ProxyData)
    requires ScanState(top, [], all, worst, n, now) && |top| < n
    ensures var top' := top + [(Score(p, now), p)];
      ScanState(top', [], all + [p], if |top'| == n then Highest(ScoresOf(top')) else worst, n, now)
  {
    KeepOne(ProxiesOf(top), all, p, ScoreAt(now));
    var top' := top + [(Score(p, now), p)];
    assert ProxiesOf(top') == ProxiesOf(top) + [p];
  }

  lemma ScanReject(top: seq<(real, ProxyData)>, rest: seq<ProxyData>, all: seq<ProxyData>,
                   worst: real, n: nat, now: Time, p: ProxyData)
    requires ScanState(top, rest, all, worst, n, now) && |top| == n
    requires n > 0 ==> Score(p, now) >= worst
    ensures ScanState(top, rest + [p], all + [p], worst, n, now)
  {
    forall k | k in ProxiesOf(top) ensures ScoreAt(now)(k) <= ScoreAt(now)(p) {
      var i :| 0 <= i < |top| && top[i].1 == k;
      assert top[i] in top && ScoresOf(top)[i] == top[i].0 && ScoresOf(top)[i] in ScoresOf(top);
    }
    RejectOne(ProxiesOf(top), rest, all, p, ScoreAt(now));
  }

  lemma ScanReplace(top: seq<(real, ProxyData)>, rest: seq<ProxyData>, all: seq<ProxyData>,
                    worst: real, n: nat, now: Time, p: ProxyData, i: nat)
    requires ScanState(top, rest, all, worst, n, now) && |top| == n > 0
    requires Score(p, now) < worst && i == LastHighest(ScoresOf(top))
    ensures var top' := top[i := (Score(p, now), p)];
      ScanState(top', rest + [top[i].1], all + [p], Highest(ScoresOf(top')), n, now)
  {
    var kept := ProxiesOf(top);
    forall k | k in kept ensures ScoreAt(now)(k) <= ScoreAt(now)(kept[i]) {
      var j :| 0 <= j < |top| && top[j].1 == k;
      assert top[j] in top && top[i] in top;
      assert ScoresOf(top)[j] <= ScoresOf(top)[i];
    }
    assert top[i] in top && ScoresOf(top)[i] == worst by {
      assert ScoresOf(top)[i] in ScoresOf(top);
      var j :| 0 <= j < |top| && ScoresOf(top)[j] == worst;
    }
    ReplaceWorst(kept, rest, all, i, p, ScoreAt(now));
    var top' := top[i := (Score(p, now), p)];
    assert ProxiesOf(top') == kept[i := p];
    forall e | e in top' ensures e.0 == Score(e.1, now) {
      var j :| 0 <= j < |top'| && top'[j] == e;
      assert j != i ==> e == top[j] && top[j] in top;
    }
  }

  // The pool after insert_if_absent, and whether it inserted. A cap of 0 means no cap.
  predicate Admits(pool: ProxyMap, cap: nat, p: ProxyData) {
    !(cap > 0 && |pool| >= cap) && Key(p) !in pool
  }

  function InsertedIfAbsent(pool: ProxyMap, cap: nat, p: ProxyData): ProxyMap {
    if Admits(pool, cap, p) then pool[Key(p) := p] else pool
  }

  // What cleanup_stale keeps.
  predicate WorthKeeping(p: ProxyData, now: Time) {
    p.record.successCount > 0 ||
    (p.record.lastCheck.Some? ==> Truncated(now - p.record.lastCheck.value, HOUR) < 24)
  }

  function CleanedUp(pool: ProxyMap, now: Time): ProxyMap {
    map k | k in pool && WorthKeeping(pool[k], now) :: pool[k]
  }

  // ---- The pool and the banned list ----

  datatype Pools = Pools(proxies: ProxyMap, banned: ProxyMap)

  // The REST call to add a proxy knows no cap.
  function Added(ps: Pools, p: ProxyData): Pools {
    if Key(p) in ps.proxies then ps else ps.(proxies := ps.proxies[Key(p) := p])
  }

  function AfterBan(ps: Pools, key: string): Pools {
    if Bannable(key) && key in ps.proxies
    then Pools(ps.proxies - {key}, ps.banned[key := ps.proxies[key]]) else ps
  }

  // Nor does the one to unban; and it overwrites.
  function AfterUnban(ps: Pools, key: string): Pools {
    if key in ps.banned
    then Pools(ps.proxies[Key(ps.banned[key]) := ps.banned[key]], ps.banned - {key}) else ps
  }

  datatype BanAnswer = Done | NotFound | BadKey

  class SharedState {
    var proxies: ProxyMap
    var banned: ProxyMap
    var maxProxies: nat
    var excludedCountries: seq<string>
    var totalRequests: U64
    var activeConnections: U64
    var proxyRotations: U64

    ghost predicate Valid()
      reads this
    {
      KeysMatch(proxies) && KeysMatch(banned)
    }

    function Both(): Pools
      reads this
    {
      Pools(proxies, banned)
    }

    constructor (maxProxies: nat, excludedCountries: seq<string>)
      ensures Valid() && proxies == banned == map[] && this.maxProxies == maxProxies
      ensures this.excludedCountries == excludedCountries
      ensures totalRequests == activeConnections == proxyRotations == 0
    {
      proxies, banned := map[], map[];
      this.maxProxies, this.excludedCountries := maxProxies, excludedCountries;
      totalRequests, activeConnections, proxyRotations := 0, 0, 0;
    }

    // The single pass: at most n entries held, the worst of them replaced by anything strictly better.
    method Scan(n: nat, order: seq<string>, f: Filter, now: Time) returns (kept: seq<ProxyData>)
      requires IsEnumeration(order, proxies)
      ensures IsTopN(kept, Eligible(proxies, order, f), n, ScoreAt(now))
    {
      var top: seq<(real, ProxyData)> := [];
      var worst := F64_MAX;
      ghost var met: seq<ProxyData>, rest: seq<ProxyData> := [], [];
      for i := 0 to |order|
        invariant met == Eligible(proxies, order[..i], f)
        invariant ScanState(top, rest, met, worst, n, now)
      {
        EligibleNext(proxies, order, i, f);
        var p := proxies[order[i]];
        if !f(p) {
          continue;
        }
        var score := Score(p, now);
        if |top| < n {
          ScanPush(top, met, worst, n, now, p);
          top := top + [(score, p)];
          if |top| == n {
            worst := Highest(ScoresOf(top));
          }
        } else if score < worst && top != [] {
          var idx := LastHighest(ScoresOf(top));
          ScanReplace(top, rest, met, worst, n, now, p, idx);
          rest := rest + [top[idx].1];
          top := top[idx := (score, p)];
          worst := Highest(ScoresOf(top));
        } else {
          ScanReject(top, rest, met, worst, n, now, p);
          rest := rest + [p];
        }
        met := met + [p];
      }
      assert order[..|order|] == order;
      assert Splits(ProxiesOf(top), rest, met, ScoreAt(now));
      kept := ProxiesOf(top);
    }

    method CollectTopN(order: seq<string>, f: Filter, now: Time) returns (kept: seq<ProxyData>)
      requires IsEnumeration(order, proxies)
      ensures IsTopN(kept, Eligible(proxies, order, f), 10, ScoreAt(now))
      ensures |kept| == if |Eligible(proxies, order, f)| < 10 then |Eligible(proxies, order, f)| else 10
    {
      kept := Scan(TOP_N, order, f, now);
    }

    method CollectTopNSized(n: nat, order: seq<string>, f: Filter, now: Time) returns (kept: seq<ProxyData>)
      requires Valid() && IsEnumeration(order, proxies)
      ensures IsTopN(kept, Eligible(proxies, order, f), n, ScoreAt(now))
      ensures Sorted(kept, ScoreAt(now))
      ensures Distinct(kept)
      ensures var all := StableSort(Eligible(proxies, order, f), ScoreAt(now));
        |kept| <= |all| && forall i :: 0 <= i < |kept| ==> Score(kept[i], now) == Score(all[i], now)
    {
      var scanned := Scan(n, order, f, now);
      kept := StableSort(scanned, ScoreAt(now));
      SortedTake(scanned, kept, Eligible(proxies, order, f), n, now);
      KeptOnce(kept, proxies, order, f, n, now);
    }

    // (key, address) of the n best Verified proxies, best first.
    method TopStableProxies(n: nat, order: seq<string>, now: Time) returns (pairs: seq<(string, string)>)
      requires Valid() && IsEnumeration(order, proxies)
      ensures |pairs| == Min(n, |Eligible(proxies, order, TierFilter(Verified, excludedCountries, now))|)
      ensures forall i :: 0 <= i < |pairs| ==>
        pairs[i].0 == pairs[i].1 && pairs[i].0 in proxies && proxies[pairs[i].0].status == Some(Verified)
      ensures forall i, j :: 0 <= i < j < |pairs| ==> pairs[i].0 != pairs[j].0
      ensures var verified := Eligible(proxies, order, TierFilter(Verified, excludedCountries, now));
        var best := StableSort(verified, ScoreAt(now));
        |pairs| <= |best| && forall i :: 0 <= i < |pairs| ==> Score(proxies[pairs[i].0], now) == Score(best[i], now)
    {
      var f := TierFilter(Verified, excludedCountries, now);
      var top := CollectTopNSized(n, order, f, now);
      KeptOnce(top, proxies, order, f, n, now);
      pairs := seq(|top|, i requires 0 <= i < |top| => (Key(top[i]), Key(top[i])));
      forall i | 0 <= i < |pairs|
        ensures pairs[i].0 == pairs[i].1 && pairs[i].0 in proxies && proxies[pairs[i].0] == top[i] && f(top[i])
      {
        assert top[i] in top;
      }
      forall i, j | 0 <= i < j < |pairs| ensures pairs[i].0 != pairs[j].0 {
        assert top[i] != top[j];
      }
    }

    // `sample` stands for the random draw: any index is possible.
    static method WeightedRandomSelect(candidates: seq<ProxyData>, now: Time, sample: nat) returns (r: ProxyData)
      requires candidates != []
      ensures r == candidates[sample % |candidates|]
    {
      if |candidates| == 1 {
        return candidates[0];
      }
      var index := 0;
      if Samplable(Weights(candidates, now)) {
        index := sample % |candidates|;
      }
      r := candidates[index];
      WeightsAreSamplable(candidates, now);
    }

    method SelectBest(order: seq<string>, now: Time, sample: nat) returns (r: Option<ProxyData>)
      requires IsEnumeration(order, proxies)
      ensures IsBestChoice(r, proxies, order, excludedCountries, now)
      ensures r.Some? ==> IsAllowed(r.value, excludedCountries, now)
    {
      ghost var excluded := excludedCountries;
      var f := TierFilter(Verified, excludedCountries, now);
      var top := CollectTopN(order, f, now);
      if top != [] {
        var p := WeightedRandomSelect(top, now, sample);
        KeptIsAmongBest(top, p, proxies, order, f, now);
        TierIsAllowed(p, proxies, order, f, excluded, now);
        return Some(p);
      }
      f := TierFilter(PresumedAlive, excludedCountries, now);
      top := CollectTopN(order, f, now);
      if top != [] {
        var p := WeightedRandomSelect(top, now, sample);
        KeptIsAmongBest(top, p, proxies, order, f, now);
        TierIsAllowed(p, proxies, order, f, excluded, now);
        return Some(p);
      }
      var untested := Eligible(proxies, order, UntestedFilter(excludedCountries, now));
      r := if untested == [] then None else Some(untested[0]);
      ChoiceIsAllowed(r, proxies, order, excluded, now);
    }

    method SelectBestForTls(order: seq<string>, now: Time, sample: nat) returns (r: Option<ProxyData>)
      requires IsEnumeration(order, proxies)
      ensures IsBestTlsChoice(r, proxies, order, excludedCountries, now)
      ensures r.Some? ==> IsAllowed(r.value, excludedCountries, now)
    {
      ghost var excluded := excludedCountries;
      var f := TlsTierFilter(Verified, excludedCountries, now);
      var top := CollectTopN(order, f, now);
      if top != [] {
        var p := WeightedRandomSelect(top, now, sample);
        KeptIsAmongBest(top, p, proxies, order, f, now);
        TierIsAllowed(p, proxies, order, f, excluded, now);
        return Some(p);
      }
      f := TlsTierFilter(PresumedAlive, excludedCountries, now);
      top := CollectTopN(order, f, now);
      if top != [] {
        var p := WeightedRandomSelect(top, now, sample);
        KeptIsAmongBest(top, p, proxies, order, f, now);
        TierIsAllowed(p, proxies, order, f, excluded, now);
        return Some(p);
      }
      r := SelectBest(order, now, sample);
    }

    method RecordSuccess(key: string, sample: Latency, now: Time)
      requires Valid()
      modifies this`proxies
      ensures Valid()
      ensures proxies == Updated(old(proxies), key, Success(sample, now))
    {
      if key in proxies {
        var p := new Proxy.Clone(proxies[key]);
        p.RecordSuccess(sample, now);
        proxies := proxies[key := p.View()];
      }
    }

    method RecordFail(key: string, now: Time)
      requires Valid()
      modifies this`proxies, this`proxyRotations
      ensures Valid()
      ensures proxies == Updated(old(proxies), key, Failure(now))
      ensures proxyRotations == Next64(old(proxyRotations))
    {
      if key in proxies {
        var p := new Proxy.Clone(proxies[key]);
        p.RecordFail(now);
        proxies := proxies[key := p.View()];
      }
      proxyRotations := Next64(proxyRotations);
    }

    method SetTlsClean(key: string, clean: bool, now: Time)
      requires Valid()
      modifies this`proxies
      ensures Valid()
      ensures proxies == Updated(old(proxies), key, JudgeTls(clean, now))
    {
      if key in proxies {
        var p := proxies[key];
        proxies := proxies[key := p.(record := p.record.(tlsClean := Some(clean)))];
      }
    }

    method InsertIfAbsent(p: ProxyData) returns (inserted: bool)
      requires Valid()
      modifies this`proxies
      ensures Valid()
      ensures inserted == Admits(old(proxies), maxProxies, p)
      ensures proxies == InsertedIfAbsent(old(proxies), maxProxies, p)
    {
      if maxProxies > 0 && |proxies| >= maxProxies {
        return false;
      }
      if Key(p) in proxies {
        inserted := false;
      } else {
        proxies := proxies[Key(p) := p];
        inserted := true;
      }
    }

    method AddProxy(host: string, port: U16, protocol: Protocol) returns (added: bool)
      requires Valid()
      modifies this`proxies
      ensures Valid()
      ensures added == (KeyOf(host, port) !in old(proxies))
      ensures Both() == Added(old(Both()), NewProxy(host, port, protocol))
    {
      var key := KeyOf(host, port);
      if key in proxies {
        return false;
      }
      var proxy := new Proxy(host, port, protocol);
      proxies := proxies[key := proxy.View()];
      added := true;
    }

    method BanProxy(key: string) returns (answer: BanAnswer)
      requires Valid()
      modifies this`proxies, this`banned
      ensures Valid()
      ensures answer == if !Bannable(key) then BadKey else if key in old(proxies) then Done else NotFound
      ensures Both() == AfterBan(old(Both()), key)
    {
      if !Bannable(key) {
        return BadKey;
      }
      if key !in proxies {
        return NotFound;
      }
      var proxy := proxies[key];
      proxies := proxies - {key};
      banned := banned[key := proxy];
      answer := Done;
    }

    method UnbanProxy(key: string) returns (answer: BanAnswer)
      requires Valid()
      modifies this`proxies, this`banned
      ensures Valid()
      ensures answer == if key in old(banned) then Done else NotFound
      ensures Both() == AfterUnban(old(Both()), key)
    {
      if key !in banned {
        return NotFound;
      }
      var proxy := banned[key];
      banned := banned - {key};
      proxies := proxies[Key(proxy) := proxy];
      answer := Done;
    }

    method CleanupStale(now: Time)
      requires Valid()
      modifies this`proxies
      ensures Valid()
      ensures proxies == CleanedUp(old(proxies), now)
    {
      proxies := map k | k in proxies && WorthKeeping(proxies[k], now) :: proxies[k];
    }

    method ProxiesNeedingCheck(order: seq<string>, limit: nat, now: Time) returns (batch: seq<ProxyData>)
      requires Valid() && IsEnumeration(order, proxies)
      ensures batch == Batch(Eligible(proxies, order, NeedsCheckFilter(now)), limit)
      ensures var due := Eligible(proxies, order, NeedsCheckFilter(now));
        forall i :: 0 <= i < |due| ==> (due[i] in batch <==> Rank(due, ByClass(), i) < limit)
    {
      ghost var due := Eligible(proxies, order, NeedsCheckFilter(now));
      EligibleOnce(proxies, order, NeedsCheckFilter(now));
      forall i | 0 <= i < |due| ensures due[i] in Batch(due, limit) <==> Rank(due, ByClass(), i) < limit {
        BatchExactly(due, limit, i);
      }
      var candidates := Eligible(proxies, order, NeedsCheckFilter(now));
      candidates := StableSort(candidates, ByClass());
      if |candidates| > limit {
        candidates := candidates[..limit];
      }
      batch := candidates;
    }
  }

  // ---- Facts about the scan and the choices ----

  lemma IsTopNWithinAll(kept: seq<ProxyData>, all: seq<ProxyData>, n: nat, key: ProxyData -> real)
    requires IsTopN(kept, all, n, key)
    ensures multiset(kept) <= multiset(all)
  {
    var rest :| Splits(kept, rest, all, key);
  }

  lemma KeptOnce(kept: seq<ProxyData>, pool: ProxyMap, order: seq<string>, f: Filter, n: nat, now: Time)
    requires KeysMatch(pool) && IsEnumeration(order, pool)
    requires IsTopN(kept, Eligible(pool, order, f), n, ScoreAt(now))
    ensures Distinct(kept)
    ensures forall p :: p in kept ==> Key(p) in pool && pool[Key(p)] == p && f(p)
  {
    EligibleOnce(pool, order, f);
    IsTopNWithinAll(kept, Eligible(pool, order, f), n, ScoreAt(now));
    NoRepeats(kept, Eligible(pool, order, f));
    forall p | p in kept ensures Key(p) in pool && pool[Key(p)] == p && f(p) {
      assert p in multiset(kept);
      EligibleMembers(pool, order, f, p);
    }
  }

  lemma SortedTake(scanned: seq<ProxyData>, kept: seq<ProxyData>, all: seq<ProxyData>, n: nat, now: Time)
    requires IsTopN(scanned, all, n, ScoreAt(now)) && kept == StableSort(scanned, ScoreAt(now))
    ensures IsTopN(kept, all, n, ScoreAt(now)) && Sorted(kept, ScoreAt(now))
    ensures |kept| <= |StableSort(all, ScoreAt(now))|
    ensures forall i :: 0 <= i < |kept| ==> Score(kept[i], now) == Score(StableSort(all, ScoreAt(now))[i], now)
  {
    StableSortCorrect(scanned, ScoreAt(now));
    TopNIsSortThenTake(scanned, all, n, ScoreAt(now));
    var rest :| Splits(scanned, rest, all, ScoreAt(now));
    forall k, r | k in kept && r in rest ensures ScoreAt(now)(k) <= ScoreAt(now)(r) {
      assert k in multiset(kept) && k in multiset(scanned);
    }
    assert Splits(kept, rest, all, ScoreAt(now));
    forall i | 0 <= i < |kept| ensures Score(kept[i], now) == Score(StableSort(all, ScoreAt(now))[i], now) {
      assert ScoreAt(now)(kept[i]) == ScoreAt(now)(StableSort(all, ScoreAt(now))[i]);
    }
  }

  lemma KeptIsAmongBest(kept: seq<ProxyData>, p: ProxyData, pool: ProxyMap, order: seq<string>, f: Filter, now: Time)
    requires forall k :: k in order ==> k in pool
    requires IsTopN(kept, Eligible(pool, order, f), TOP_N, ScoreAt(now)) && p in kept
    ensures AmongBest(p, pool, order, f, now) && Eligible(pool, order, f) != []
  {
    IsTopNWithinAll(kept, Eligible(pool, order, f), TOP_N, ScoreAt(now));
    assert p in multiset(kept) && p in multiset(Eligible(pool, order, f));
    KeptRank(kept, Eligible(pool, order, f), TOP_N, ScoreAt(now), p);
  }

  /** Two scans in different iteration orders keep the same scores, however ties fall. */
  lemma ScanIgnoresOrder(pool: ProxyMap, a: seq<string>, b: seq<string>, f: Filter, n: nat, now: Time,
                         keptA: seq<ProxyData>, keptB: seq<ProxyData>)
    requires KeysMatch(pool) && IsEnumeration(a, pool) && IsEnumeration(b, pool)
    requires IsTopN(keptA, Eligible(pool, a, f), n, ScoreAt(now))
    requires IsTopN(keptB, Eligible(pool, b, f), n, ScoreAt(now))
    ensures |StableSort(keptA, ScoreAt(now))| == |StableSort(keptB, ScoreAt(now))| == |keptA| == |keptB|
    ensures forall i :: 0 <= i < |keptA| ==>
      ScoreAt(now)(StableSort(keptA, ScoreAt(now))[i]) == ScoreAt(now)(StableSort(keptB, ScoreAt(now))[i])
  {
    var allA, allB := Eligible(pool, a, f), Eligible(pool, b, f);
    EligibleInAnyOrder(pool, a, b, f);
    StableSortCorrect(allA, ScoreAt(now));
    StableSortCorrect(allB, ScoreAt(now));
    SortedKeysAgree(StableSort(allA, ScoreAt(now)), StableSort(allB, ScoreAt(now)), ScoreAt(now));
    TopNIsSortThenTake(keptA, allA, n, ScoreAt(now));
    TopNIsSortThenTake(keptB, allB, n, ScoreAt(now));
  }

  /** While a TLS-clean candidate of the scored tiers exists, HTTPS traffic gets a TLS-clean proxy. */
  lemma TlsChoiceIsClean(r: Option<ProxyData>, pool: ProxyMap, order: seq<string>, excluded: seq<string>,
                         now: Time, p: ProxyData)
    requires IsEnumeration(order, pool) && IsBestTlsChoice(r, pool, order, excluded, now)
    requires exists k :: k in pool && pool[k] == p
    requires TlsTierFilter(Verified, excluded, now)(p) || TlsTierFilter(PresumedAlive, excluded, now)(p)
    ensures r.Some? && r.value.record.tlsClean == Some(true)
    ensures p.status == Some(Verified) ==> r.value.status == Some(Verified)
  {
    var verified, presumed := TlsTierFilter(Verified, excluded, now), TlsTierFilter(PresumedAlive, excluded, now);
    EligibleMembers(pool, order, verified, p);
    EligibleMembers(pool, order, presumed, p);
    if r.Some? {
      EligibleMembers(pool, order, verified, r.value);
      EligibleMembers(pool, order, presumed, r.value);
    }
  }

  // Not Failed, its breaker not open, and its country, if known, not excluded.
  ghost predicate IsAllowed(p: ProxyData, excluded: seq<string>, now: Time) {
    && p.status != Some(Failed)
    && (p.circuitOpenUntil.Some? ==> now >= p.circuitOpenUntil.value)
    && (p.record.country.Some? ==> p.record.country.value !in excluded)
  }

  // The five filters of the tiers let nothing else through, and each only its own status and TLS verdict.
  lemma FiltersExactly(p: ProxyData, excluded: seq<string>, now: Time)
    ensures TierFilter(Verified, excluded, now)(p) <==> IsAllowed(p, excluded, now) && p.status == Some(Verified)
    ensures TierFilter(PresumedAlive, excluded, now)(p) <==>
      IsAllowed(p, excluded, now) && p.status == Some(PresumedAlive)
    ensures TlsTierFilter(Verified, excluded, now)(p) <==>
      IsAllowed(p, excluded, now) && p.status == Some(Verified) && p.record.tlsClean == Some(true)
    ensures TlsTierFilter(PresumedAlive, excluded, now)(p) <==>
      IsAllowed(p, excluded, now) && p.status == Some(PresumedAlive) && p.record.tlsClean == Some(true)
    ensures UntestedFilter(excluded, now)(p) <==>
      IsAllowed(p, excluded, now) && (p.status == Some(Unchecked) || p.status == None)
  {
  }

  lemma TierIsAllowed(p: ProxyData, pool: ProxyMap, order: seq<string>, f: Filter, excluded: seq<string>, now: Time)
    requires IsEnumeration(order, pool) && p in Eligible(pool, order, f)
    requires f == TierFilter(Verified, excluded, now) || f == TierFilter(PresumedAlive, excluded, now)
          || f == TlsTierFilter(Verified, excluded, now) || f == TlsTierFilter(PresumedAlive, excluded, now)
          || f == UntestedFilter(excluded, now)
    ensures IsAllowed(p, excluded, now)
  {
    EligibleMembers(pool, order, f, p);
    FiltersExactly(p, excluded, now);
  }

  /** Whatever is chosen, on any tier, for TLS or not, is not Failed, available, and of no excluded country. */
  lemma ChoiceIsAllowed(r: Option<ProxyData>, pool: ProxyMap, order: seq<string>, excluded: seq<string>, now: Time)
    requires IsEnumeration(order, pool)
    requires IsBestChoice(r, pool, order, excluded, now) || IsBestTlsChoice(r, pool, order, excluded, now)
    ensures r.Some? ==>
      && r.value.status != Some(Failed)
      && (r.value.circuitOpenUntil.Some? ==> now >= r.value.circuitOpenUntil.value)
      && (r.value.record.country.Some? ==> r.value.record.country.value !in excluded)
  {
    hide StableSort;
    if r.Some? {
      EligibleMembers(pool, order, TierFilter(Verified, excluded, now), r.value);
      EligibleMembers(pool, order, TierFilter(PresumedAlive, excluded, now), r.value);
      EligibleMembers(pool, order, TlsTierFilter(Verified, excluded, now), r.value);
      EligibleMembers(pool, order, TlsTierFilter(PresumedAlive, excluded, now), r.value);
      EligibleMembers(pool, order, UntestedFilter(excluded, now), r.value);
      FiltersExactly(r.value, excluded, now);
    }
  }

  /** One of the 10 best means: eligible, and fewer than 10 eligible entries score strictly lower. */
  lemma AmongBestExactly(p: ProxyData, pool: ProxyMap, order: seq<string>, f: Filter, now: Time)
    requires forall k :: k in order ==> k in pool
    ensures AmongBest(p, pool, order, f, now) <==>
      p in Eligible(pool, order, f) && CountBelow(Eligible(pool, order, f), ScoreAt(now), Score(p, now)) < 10
  {
    hide StableSort, Score, CountBelow;
    var all := Eligible(pool, order, f);
    var sorted := StableSort(all, ScoreAt(now));
    StableSortCorrect(all, ScoreAt(now));
    SortKeepsCount(all, ScoreAt(now), Score(p, now));
    BelowComesFirst(sorted, ScoreAt(now), Score(p, now));
    if p in all {
      assert p in multiset(all) && p in multiset(sorted);
      var j :| 0 <= j < |sorted| && sorted[j] == p;
      var below := CountBelow(sorted, ScoreAt(now), Score(p, now));
      assert ScoreAt(now)(p) == Score(p, now);
      assert !(ScoreAt(now)(sorted[j]) < Score(p, now)) && below <= j;
      assert ScoreAt(now)(sorted[below]) >= Score(p, now);
      assert ScoreAt(now)(sorted[below]) <= ScoreAt(now)(sorted[j]);
    }
  }

  /** The tiers: a Verified proxy while one may be taken, else one presumed alive, else one not tested yet. */
  lemma ChoiceTiers(r: ProxyData, pool: ProxyMap, order: seq<string>, excluded: seq<string>, now: Time, k: string)
    requires IsEnumeration(order, pool) && IsBestChoice(Some(r), pool, order, excluded, now)
    requires k in pool && IsAllowed(pool[k], excluded, now)
    ensures pool[k].status == Some(Verified) ==> r.status == Some(Verified)
    ensures pool[k].status == Some(PresumedAlive) ==> r.status == Some(Verified) || r.status == Some(PresumedAlive)
    ensures r.status == Some(Verified) || r.status == Some(PresumedAlive) || r.status == Some(Unchecked) || r.status == None
  {
    hide StableSort;
    var verified, presumed := TierFilter(Verified, excluded, now), TierFilter(PresumedAlive, excluded, now);
    var untested := UntestedFilter(excluded, now);
    FiltersExactly(pool[k], excluded, now);
    FiltersExactly(r, excluded, now);
    EligibleMembers(pool, order, verified, pool[k]);
    EligibleMembers(pool, order, presumed, pool[k]);
    EligibleMembers(pool, order, verified, r);
    EligibleMembers(pool, order, presumed, r);
    EligibleMembers(pool, order, untested, r);
  }

  /** Selection comes back empty-handed exactly when no entry is available, allowed and not Failed. */
  lemma NoChoiceExactly(r: Option<ProxyData>, pool: ProxyMap, order: seq<string>, excluded: seq<string>, now: Time)
    requires IsEnumeration(order, pool) && IsBestChoice(r, pool, order, excluded, now)
    ensures r == None <==> forall k :: k in pool ==>
      || (pool[k].circuitOpenUntil.Some? && now < pool[k].circuitOpenUntil.value)
      || (pool[k].record.country.Some? && pool[k].record.country.value in excluded)
      || pool[k].status == Some(Failed)
  {
    NoneEligible(pool, order, TierFilter(Verified, excluded, now));
    NoneEligible(pool, order, TierFilter(PresumedAlive, excluded, now));
    NoneEligible(pool, order, UntestedFilter(excluded, now));
    forall k | k in pool
      ensures IsAllowed(pool[k], excluded, now) <==>
              (TierFilter(Verified, excluded, now)(pool[k]) || TierFilter(PresumedAlive, excluded, now)(pool[k])
               || UntestedFilter(excluded, now)(pool[k]))
    {
      FiltersExactly(pool[k], excluded, now);
      match pool[k].status
      case None =>
      case Some(Verified) =>
      case Some(_) =>
    }
  }

  // ---- There is always a choice to return ----

  lemma FirstIsAmongBest(pool: ProxyMap, order: seq<string>, f: Filter, now: Time)
    requires forall k :: k in order ==> k in pool
    requires Eligible(pool, order, f) != []
    ensures StableSort(Eligible(pool, order, f), ScoreAt(now)) != []
    ensures AmongBest(StableSort(Eligible(pool, order, f), ScoreAt(now))[0], pool, order, f, now)
  {
    hide StableSort, ScoreAt;
    var all := Eligible(pool, order, f);
    StableSortCorrect(all, ScoreAt(now));
    var first := StableSort(all, ScoreAt(now))[0];
    assert first in multiset(StableSort(all, ScoreAt(now)));
    assert first in multiset(all) && first in all;
  }

  lemma BestChoiceExists(pool: ProxyMap, order: seq<string>, excluded: seq<string>, now: Time)
    returns (r: Option<ProxyData>)
    requires IsEnumeration(order, pool)
    ensures IsBestChoice(r, pool, order, excluded, now)
  {
    hide StableSort, AmongBest;
    var verified, presumed := TierFilter(Verified, excluded, now), TierFilter(PresumedAlive, excluded, now);
    var untested := Eligible(pool, order, UntestedFilter(excluded, now));
    if Eligible(pool, order, verified) != [] {
      FirstIsAmongBest(pool, order, verified, now);
      r := Some(StableSort(Eligible(pool, order, verified), ScoreAt(now))[0]);
    } else if Eligible(pool, order, presumed) != [] {
      FirstIsAmongBest(pool, order, presumed, now);
      r := Some(StableSort(Eligible(pool, order, presumed), ScoreAt(now))[0]);
    } else {
      r := if untested != [] then Some(untested[0]) else None;
    }
  }

  lemma BestTlsChoiceExists(pool: ProxyMap, order: seq<string>, excluded: seq<string>, now: Time)
    returns (r: Option<ProxyData>)
    requires IsEnumeration(order, pool)
    ensures IsBestTlsChoice(r, pool, order, excluded, now)
  {
    hide StableSort, AmongBest, IsBestChoice;
    var verified, presumed := TlsTierFilter(Verified, excluded, now), TlsTierFilter(PresumedAlive, excluded, now);
    if Eligible(pool, order, verified) != [] {
      FirstIsAmongBest(pool, order, verified, now);
      r := Some(StableSort(Eligible(pool, order, verified), ScoreAt(now))[0]);
    } else if Eligible(pool, order, presumed) != [] {
      FirstIsAmongBest(pool, order, presumed, now);
      r := Some(StableSort(Eligible(pool, order, presumed), ScoreAt(now))[0]);
    } else {
      r := BestChoiceExists(pool, order, excluded, now);
    }
  }

  // ---- Availability is redundant in the tiers ----

  lemma {:induction false} SameEligible(pool: ProxyMap, order: seq<string>, f: Filter, g: Filter)
    requires forall k :: k in order ==> k in pool && f(pool[k]) == g(pool[k])
    ensures Eligible(pool, order, f) == Eligible(pool, order, g)
  {
    if order == [] {
    } else {
      assert order[|order| - 1] in order;
      SameEligible(pool, order[..|order| - 1], f, g);
    }
  }

  // The tier filters with the breaker test dropped.
  function TierWithoutBreaker(status: Status, excluded: seq<string>): Filter {
    (p: ProxyData) => p.status == Some(status) && !InExcludedCountry(p, excluded)
  }

  function TlsTierWithoutBreaker(status: Status, excluded: seq<string>): Filter {
    (p: ProxyData) => p.status == Some(status) && p.record.tlsClean == Some(true) && !InExcludedCountry(p, excluded)
  }

  function UntestedWithoutBreaker(excluded: seq<string>): Filter {
    (p: ProxyData) => !InExcludedCountry(p, excluded) && (p.status == Some(Unchecked) || p.status == None)
  }

  /**
   On a pool of reachable proxies the breaker test of every selection tier is redundant: a status
   other than Failed already implies availability, now and at any later time.
   */
  lemma AvailabilityTestIsRedundant(pool: ProxyMap, order: seq<string>, status: Status,
                                    excluded: seq<string>, now: Time, later: Time)
    requires IsEnumeration(order, pool) && AllReachable(pool, now)
    requires status != Failed
    ensures Eligible(pool, order, TierFilter(status, excluded, later)) ==
            Eligible(pool, order, TierWithoutBreaker(status, excluded))
    ensures Eligible(pool, order, TlsTierFilter(status, excluded, later)) ==
            Eligible(pool, order, TlsTierWithoutBreaker(status, excluded))
    ensures Eligible(pool, order, UntestedFilter(excluded, later)) ==
            Eligible(pool, order, UntestedWithoutBreaker(excluded))
  {
    forall k | k in order ensures pool[k].status != Some(Failed) ==> IsAvailable(pool[k], later) {
      OnlyFailedIsEverUnavailable(pool[k], now, later);
    }
    SameEligible(pool, order, TierFilter(status, excluded, later), TierWithoutBreaker(status, excluded));
    SameEligible(pool, order, TlsTierFilter(status, excluded, later), TlsTierWithoutBreaker(status, excluded));
    SameEligible(pool, order, UntestedFilter(excluded, later), UntestedWithoutBreaker(excluded));
  }

  // ---- What the writers keep ----

  function Updated(pool: ProxyMap, key: string, e: Event): ProxyMap {
    if key in pool then pool[key := Apply(pool[key], e)] else pool
  }

  /** Every recorded event keeps the whole pool reachable. */
  lemma UpdateKeepsReachable(pool: ProxyMap, key: string, e: Event, now: Time)
    requires AllReachable(pool, now) && now <= e.at
    requires key in pool ==> Enabled(pool[key], e)
    ensures AllReachable(Updated(pool, key, e), e.at)
  {
    forall k | k in Updated(pool, key, e) ensures Reachable(Updated(pool, key, e)[k], e.at) {
      if k == key {
        ReachableStep(pool[k], now, e);
      } else {
        ReachableLater(pool[k], now, e.at);
      }
    }
  }

  lemma UpdateKeepsKeys(pool: ProxyMap, key: string, e: Event)
    requires KeysMatch(pool)
    ensures KeysMatch(Updated(pool, key, e)) && Updated(pool, key, e).Keys == pool.Keys
  {
  }

  lemma OneMoreEntry(pool: ProxyMap, key: string, p: ProxyData)
    ensures |pool[key := p]| == if key in pool then |pool| else |pool| + 1
  {
    assert pool[key := p].Keys == pool.Keys + {key};
    assert |pool[key := p]| == |pool[key := p].Keys| && |pool| == |pool.Keys|;
  }

  /** insert_if_absent never overwrites an entry and never takes a capped pool past its cap. */
  lemma InsertRespectsCap(pool: ProxyMap, cap: nat, p: ProxyData)
    ensures var after := InsertedIfAbsent(pool, cap, p);
      && (forall k :: k in pool ==> k in after && after[k] == pool[k])
      && (cap > 0 && |pool| <= cap ==> |after| <= cap)
      && (cap == 0 ==> Key(p) in after)
  {
    OneMoreEntry(pool, Key(p), p);
  }

  // ---- What a cleanup drops ----

  /** A cleanup keeps what stays as it was, reachable and under its own key. */
  lemma CleanupKeeps(pool: ProxyMap, before: Time, now: Time)
    requires AllReachable(pool, before) && KeysMatch(pool) && before <= now
    ensures AllReachable(CleanedUp(pool, now), now) && KeysMatch(CleanedUp(pool, now))
    ensures CleanedUp(pool, now).Keys <= pool.Keys
    ensures forall k :: k in CleanedUp(pool, now) ==> CleanedUp(pool, now)[k] == pool[k]
  {
    LaterReachable(pool, before, now);
  }

  /**
   A proxy with this history is dropped if and only if the number of its successes is a multiple of 2^64
   (the count wraps) and its last check was a day ago or earlier.
   */
  lemma CleanupDropsExactly(host: string, port: U16, protocol: Protocol, es: seq<Event>, start: Time, now: Time)
    requires ValidRun(NewProxy(host, port, protocol), es, start, now)
    ensures !WorthKeeping(Run(NewProxy(host, port, protocol), es), now) <==>
      && Count(es, IsSuccess) % TWO_64 == 0
      && Last(es, IsCheck).Some? && now - Last(es, IsCheck).value >= 86_400_000_000_000
  {
    RecordIsItsHistory(host, port, protocol, es);
    var p := Run(NewProxy(host, port, protocol), es);
    assert Reachable(p, now);
    ReachableKeepsInv(p, now);
  }

  /** So in a life of fewer than 2^64 events a proxy that ever succeeded is never dropped. */
  lemma OnceGoodStays(host: string, port: U16, protocol: Protocol, es: seq<Event>, start: Time, now: Time)
    requires ValidRun(NewProxy(host, port, protocol), es, start, now)
    requires |es| < TWO_64 && exists e :: e in es && e.Success?
    ensures WorthKeeping(Run(NewProxy(host, port, protocol), es), now)
  {
    CleanupDropsExactly(host, port, protocol, es, start, now);
    CountRange(es, IsSuccess);
  }

  lemma {:induction false} CountRange(es: seq<Event>, kind: Event -> bool)
    ensures Count(es, kind) <= |es|
    ensures Count(es, kind) == 0 <==> forall e :: e in es ==> !kind(e)
  {
    if es == [] {
    } else {
      var front, last := es[..|es| - 1], es[|es| - 1];
      CountRange(front, kind);
      assert es == front + [last];
    }
  }

  lemma {:induction false} SuccessesInARow(p: ProxyData, n: nat, at: Time, now: Time)
    requires at <= now
    ensures ValidRun(p, seq(n, _ => Success(NonFinite, at)), at, now)
    ensures Count(seq(n, _ => Success(NonFinite, at)), IsSuccess) == n
    ensures Last(seq(n, _ => Success(NonFinite, at)), IsCheck) == if n == 0 then None else Some(at)
    decreases n
  {
    hide Apply;
    var es := seq(n, _ => Success(NonFinite, at));
    if n > 0 {
      var fewer := seq(n - 1, _ => Success(NonFinite, at));
      assert es[1..] == fewer && es[..n - 1] == fewer;
      SuccessesInARow(Apply(p, es[0]), n - 1, at, now);
    }
  }

  /** The wrap is real: after exactly 2^64 successes and a day without a check the proxy is dropped. */
  lemma WrappedCountIsDropped(host: string, port: U16, protocol: Protocol, at: Time, now: Time)
    requires now >= at + 86_400_000_000_000
    ensures !WorthKeeping(Run(NewProxy(host, port, protocol), seq(TWO_64, _ => Success(NonFinite, at))), now)
  {
    SuccessesInARow(NewProxy(host, port, protocol), TWO_64, at, now);
    CleanupDropsExactly(host, port, protocol, seq(TWO_64, _ => Success(NonFinite, at)), at, now);
  }
}
