/** The country index and selection by country. */
module Geo {
  import opened Wrappers
  import opened Ordering
  import opened Proxies
  import opened Lifecycle
  import opened Selection
  import opened State

  type Index = map<string, seq<string>>

  function Listed(index: Index, country: string): seq<string> {
    if country in index then index[country] else []
  }

  function Inserted(index: Index, country: string, key: string): Index {
    var entry := Listed(index, country);
    index[country := if key in entry then entry else entry + [key]]
  }

  function DropKey(s: seq<string>, key: string): seq<string> {
    if s == [] then [] else (if s[0] == key then [] else [s[0]]) + DropKey(s[1..], key)
  }

  function Removed(index: Index, country: string, key: string): Index {
    if country in index then index[country := DropKey(index[country], key)] else index
  }

  function Rebuilt(pool: ProxyMap, order: seq<string>): Index
    requires forall k :: k in order ==> k in pool
  {
    if order == [] then map[]
    else
      var front, last := order[..|order| - 1], order[|order| - 1];
      assert last in order;
      match pool[last].record.country
      case None => Rebuilt(pool, front)
      case Some(country) => Inserted(Rebuilt(pool, front), country, last)
  }

  // Every pool proxy with a country is listed under it.
  ghost predicate Complete(index: Index, pool: ProxyMap) {
    forall k :: k in pool && pool[k].record.country.Some? ==> k in Listed(index, pool[k].record.country.value)
  }

  // No pool proxy is listed under a country that is not its own.
  ghost predicate NoStale(index: Index, pool: ProxyMap) {
    forall country, k :: k in Listed(index, country) && k in pool ==> pool[k].record.country == Some(country)
  }

  ghost predicate NoRepeat(index: Index) {
    forall country :: Distinct(Listed(index, country))
  }

  class GeoIndex {
    var index: Index

    constructor ()
      ensures index == map[]
    {
      index := map[];
    }

    method Insert(country: string, key: string)
      modifies this
      ensures index == Inserted(old(index), country, key)
    {
      var entry := if country in index then index[country] else [];
      if key !in entry {
        entry := entry + [key];
      }
      index := index[country := entry];
    }

    method Remove(country: string, key: string)
      modifies this
      ensures index == Removed(old(index), country, key)
    {
      if country in index {
        index := index[country := DropKey(index[country], key)];
      }
    }

    method GetKeys(country: string) returns (keys: seq<string>)
      ensures keys == Listed(index, country)
    {
      if country in index {
        keys := index[country];
      } else {
        keys := [];
      }
    }

    method Rebuild(pool: ProxyMap, order: seq<string>)
      requires IsEnumeration(order, pool)
      modifies this
      ensures index == Rebuilt(pool, order)
    {
      index := map[];
      for i := 0 to |order|
        invariant index == Rebuilt(pool, order[..i])
      {
        assert order[..i + 1][..i] == order[..i] && order[i] in order;
        var country := pool[order[i]].record.country;
        if country.Some? {
          Insert(country.value, order[i]);
        }
      }
      assert order[..|order|] == order;
    }
  }

  /** A rebuilt index lists under each country exactly the pool's keys of that country, once each. */
  lemma {:induction false} RebuiltIsExact(pool: ProxyMap, order: seq<string>, country: string, key: string)
    requires forall k :: k in order ==> k in pool
    ensures key in Listed(Rebuilt(pool, order), country) <==>
      key in order && pool[key].record.country == Some(country)
    ensures Distinct(Listed(Rebuilt(pool, order), country))
  {
    if order == [] {
    } else {
      var front, last := order[..|order| - 1], order[|order| - 1];
      RebuiltIsExact(pool, front, country, key);
      assert order == front + [last];
    }
  }

  lemma RebuildIsComplete(pool: ProxyMap, order: seq<string>)
    requires IsEnumeration(order, pool)
    ensures Complete(Rebuilt(pool, order), pool)
  {
    hide Rebuilt, Listed, Distinct;
    forall k | k in pool && pool[k].record.country.Some?
      ensures k in Listed(Rebuilt(pool, order), pool[k].record.country.value)
    {
      RebuiltIsExact(pool, order, pool[k].record.country.value, k);
    }
  }

  lemma RebuildLeavesNothingStale(pool: ProxyMap, order: seq<string>)
    requires IsEnumeration(order, pool)
    ensures NoStale(Rebuilt(pool, order), pool)
  {
    hide Rebuilt, Listed, Distinct;
    forall country, k | k in Listed(Rebuilt(pool, order), country) && k in pool
      ensures pool[k].record.country == Some(country)
    {
      RebuiltIsExact(pool, order, country, k);
    }
  }

  lemma RebuildRepeatsNothing(pool: ProxyMap, order: seq<string>)
    requires IsEnumeration(order, pool)
    ensures NoRepeat(Rebuilt(pool, order))
  {
    hide Rebuilt, Listed, Distinct;
    forall country ensures Distinct(Listed(Rebuilt(pool, order), country)) {
      RebuiltIsExact(pool, order, country, "");
    }
  }

  /** A rebuild puts the index in order: complete, without stale listings and without repeats. */
  lemma RebuildRestoresAll(pool: ProxyMap, order: seq<string>)
    requires IsEnumeration(order, pool)
    ensures Complete(Rebuilt(pool, order), pool) && NoStale(Rebuilt(pool, order), pool)
    ensures NoRepeat(Rebuilt(pool, order))
  {
    RebuildIsComplete(pool, order);
    RebuildLeavesNothingStale(pool, order);
    RebuildRepeatsNothing(pool, order);
  }

  // ---- Selection by country ----

  // filter_map over the keys: those no longer in the pool drop out.
  function Present(keys: seq<string>, pool: ProxyMap): seq<string> {
    if keys == [] then [] else (if keys[0] in pool then [keys[0]] else []) + Present(keys[1..], pool)
  }

  lemma {:induction false} PresentMembers(keys: seq<string>, pool: ProxyMap)
    ensures forall k :: k in Present(keys, pool) <==> k in keys && k in pool
    ensures Distinct(keys) ==> Distinct(Present(keys, pool))
  {
    if keys == [] {
    } else {
      PresentMembers(keys[1..], pool);
      assert keys == [keys[0]] + keys[1..];
      if Distinct(keys) {
        assert Distinct(keys[1..]) && keys[0] !in keys[1..];
      }
    }
  }

  function VerifiedFilter(now: Time): Filter {
    (p: ProxyData) => IsAvailable(p, now) && p.status == Some(Verified)
  }

  function VerifiedInCountry(country: string, now: Time): Filter {
    (p: ProxyData) => IsAvailable(p, now) && p.status == Some(Verified) && p.record.country == Some(country)
  }

  function Candidates(pool: ProxyMap, keys: seq<string>, now: Time): seq<ProxyData> {
    PresentMembers(keys, pool);
    Eligible(pool, Present(keys, pool), VerifiedFilter(now))
  }

  // What selection by country returns for a draw.
  function CountryChoice(pool: ProxyMap, keys: seq<string>, now: Time, sample: nat): Option<ProxyData> {
    var sorted := StableSort(Candidates(pool, keys, now), ScoreAt(now));
    var best := sorted[..Min(TOP_N, |sorted|)];
    if best == [] then None else Some(best[sample % |best|])
  }

  method SelectBestByCountry(state: SharedState, geo: GeoIndex, country: string, now: Time, sample: nat)
    returns (r: Option<ProxyData>)
    ensures r == CountryChoice(state.proxies, Listed(geo.index, country), now, sample)
  {
    var keys := geo.GetKeys(country);
    if keys == [] {
      return None;
    }
    var candidates := Candidates(state.proxies, keys, now);
    StableSortCorrect(candidates, ScoreAt(now));
    if candidates == [] {
      return None;
    }
    candidates := StableSort(candidates, ScoreAt(now));
    if |candidates| > TOP_N {
      candidates := candidates[..TOP_N];
    }
    var p := SharedState.WeightedRandomSelect(candidates, now, sample);
    r := Some(p);
  }

  lemma CandidatesAreFullScan(pool: ProxyMap, order: seq<string>, index: Index, country: string, now: Time)
    requires KeysMatch(pool) && IsEnumeration(order, pool)
    requires Complete(index, pool) && NoStale(index, pool) && NoRepeat(index)
    ensures multiset(Candidates(pool, Listed(index, country), now)) ==
            multiset(Eligible(pool, order, VerifiedInCountry(country, now)))
  {
    var keys := Listed(index, country);
    PresentMembers(keys, pool);
    var a, b := Candidates(pool, keys, now), Eligible(pool, order, VerifiedInCountry(country, now));
    EligibleOnce(pool, Present(keys, pool), VerifiedFilter(now));
    EligibleOnce(pool, order, VerifiedInCountry(country, now));
    forall p ensures p in a <==> p in b {
      EligibleMembers(pool, Present(keys, pool), VerifiedFilter(now), p);
      EligibleMembers(pool, order, VerifiedInCountry(country, now), p);
    }
    SameElementsOnce(a, b);
  }

  lemma RankAmongSame(a: seq<ProxyData>, b: seq<ProxyData>, now: Time, i: nat)
    requires multiset(a) == multiset(b)
    requires i < Min(TOP_N, |StableSort(a, ScoreAt(now))|)
    ensures var p := StableSort(a, ScoreAt(now))[i];
      && p in b && |StableSort(b, ScoreAt(now))| == |b| && i < Min(TOP_N, |b|)
      && ScoreAt(now)(StableSort(b, ScoreAt(now))[i]) == ScoreAt(now)(p)
  {
    StableSortCorrect(a, ScoreAt(now));
    StableSortCorrect(b, ScoreAt(now));
    SortedKeysAgree(StableSort(a, ScoreAt(now)), StableSort(b, ScoreAt(now)), ScoreAt(now));
    var p := StableSort(a, ScoreAt(now))[i];
    assert p in multiset(StableSort(a, ScoreAt(now)));
    assert p in multiset(b);
  }

  /**
   With an index in order, selection by country equals a full scan: nothing exactly when no available
   Verified proxy of the country exists, otherwise one of the 10 best of them.
   */
  lemma CountryChoiceIsFullScan(pool: ProxyMap, order: seq<string>, index: Index, country: string,
                                now: Time, sample: nat)
    requires KeysMatch(pool) && IsEnumeration(order, pool)
    requires Complete(index, pool) && NoStale(index, pool) && NoRepeat(index)
    ensures var r := CountryChoice(pool, Listed(index, country), now, sample);
      if Eligible(pool, order, VerifiedInCountry(country, now)) == [] then r == None
      else r.Some? && AmongBest(r.value, pool, order, VerifiedInCountry(country, now), now)
  {
    var a, b := Candidates(pool, Listed(index, country), now), Eligible(pool, order, VerifiedInCountry(country, now));
    CandidatesAreFullScan(pool, order, index, country, now);
    assert |multiset(a)| == |multiset(b)|;
    StableSortCorrect(a, ScoreAt(now));
    if b != [] {
      var best := StableSort(a, ScoreAt(now))[..Min(TOP_N, |a|)];
      RankAmongSame(a, b, now, sample % |best|);
    }
  }

  // ---- What later operations keep ----

  // A GeoIP answer: set the country if the proxy is still there, then list the key under it.
  function Located(pool: ProxyMap, key: string, country: string): ProxyMap {
    if key in pool then pool[key := pool[key].(record := pool[key].record.(country := Some(country)))] else pool
  }

  /**
   A GeoIP answer keeps the index complete and free of repeats; it keeps it free of stale listings
   exactly when the proxy had no country before or had this one (or is gone from the pool).
   */
  lemma LocateKeeps(index: Index, pool: ProxyMap, key: string, country: string)
    requires Complete(index, pool) && NoStale(index, pool) && NoRepeat(index)
    ensures Complete(Inserted(index, country, key), Located(pool, key, country))
    ensures NoRepeat(Inserted(index, country, key))
    ensures NoStale(Inserted(index, country, key), Located(pool, key, country)) <==>
      (key in pool ==> pool[key].record.country in {None, Some(country)})
  {
    var index', pool' := Inserted(index, country, key), Located(pool, key, country);
    forall c, k ensures k in Listed(index', c) <==> k in Listed(index, c) || (c == country && k == key) {
    }
    forall c ensures Distinct(Listed(index', c)) {
      assert Distinct(Listed(index, c));
    }
    if key in pool && pool[key].record.country.Some? && pool[key].record.country.value != country {
      var previous := pool[key].record.country.value;
      assert key in Listed(index', previous) && pool'[key].record.country == Some(country);
    }
  }

  /** Taking entries out of the pool, by a ban or by a cleanup, keeps both. */
  lemma RemovalKeeps(index: Index, pool: ProxyMap, fewer: ProxyMap)
    requires Complete(index, pool) && NoStale(index, pool)
    requires forall k :: k in fewer ==> k in pool && fewer[k] == pool[k]
    ensures Complete(index, fewer) && NoStale(index, fewer)
  {
  }

  lemma CleanupKeepsIndex(index: Index, pool: ProxyMap, now: Time)
    requires Complete(index, pool) && NoStale(index, pool)
    ensures Complete(index, CleanedUp(pool, now)) && NoStale(index, CleanedUp(pool, now))
  {
    RemovalKeeps(index, pool, CleanedUp(pool, now));
  }

  /**
   Putting a proxy into the pool (an insertion that is admitted, an addition, an unban) keeps the index
   complete exactly when it has no country or is listed under it already (loading a located proxy does
   neither), and free of stale listings exactly when no other country still lists its key.
   */
  lemma InsertKeeps(index: Index, pool: ProxyMap, p: ProxyData)
    requires Complete(index, pool) && NoStale(index, pool)
    ensures Complete(index, pool[Key(p) := p]) <==>
      (p.record.country.Some? ==> Key(p) in Listed(index, p.record.country.value))
    ensures NoStale(index, pool[Key(p) := p]) <==>
      forall c :: Key(p) in Listed(index, c) ==> p.record.country == Some(c)
  {
    var pool' := pool[Key(p) := p];
    assert Key(p) in pool' && pool'[Key(p)] == p;
  }

  /** Successes, failures and TLS verdicts never touch the index's standing. */
  lemma EventsKeep(index: Index, pool: ProxyMap, key: string, e: Event)
    requires Complete(index, pool) && NoStale(index, pool) && !e.Locate? && !e.Restart?
    ensures Complete(index, Updated(pool, key, e)) && NoStale(index, Updated(pool, key, e))
  {
    var pool' := Updated(pool, key, e);
    assert forall k :: k in pool' ==> k in pool && pool'[k].record.country == pool[k].record.country;
  }

  lemma {:induction false} DropKeyMembers(s: seq<string>, key: string)
    ensures forall k :: k in DropKey(s, key) <==> k in s && k != key
    ensures Distinct(s) ==> Distinct(DropKey(s, key))
  {
    if s == [] {
    } else {
      DropKeyMembers(s[1..], key);
      assert s == [s[0]] + s[1..];
      if Distinct(s) {
        assert Distinct(s[1..]) && s[0] !in s[1..];
      }
    }
  }

  /** Insert then remove leaves the country without the key and every other listing alone. */
  lemma RemoveUndoesInsert(index: Index, country: string, key: string, c: string, k: string)
    ensures k in Listed(Removed(Inserted(index, country, key), country, key), c) <==>
      k in Listed(index, c) && !(c == country && k == key)
  {
    DropKeyMembers(Listed(Inserted(index, country, key), country), key);
  }
}
