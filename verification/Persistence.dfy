/** Saving the pool to a list of records and loading it back. JSON text and the file system are not modelled. */
module Persistence {
  import opened Wrappers
  import opened Ordering
  import opened Proxies
  import opened Lifecycle
  import opened Selection
  import opened State

  function RecordKey(r: ProxyRecord): string {
    KeyOf(r.host, r.port)
  }

  // ---- Loading ----

  function LoadAll(pool: ProxyMap, cap: nat, rs: seq<ProxyRecord>, now: Time): ProxyMap {
    if rs == [] then pool
    else InsertedIfAbsent(LoadAll(pool, cap, rs[..|rs| - 1], now), cap, Loaded(rs[|rs| - 1], now))
  }

  function RecentCount(rs: seq<ProxyRecord>, now: Time): nat {
    if rs == [] then 0
    else RecentCount(rs[..|rs| - 1], now) + if SucceededWithinTheHour(rs[|rs| - 1], now) then 1 else 0
  }

  lemma NothingLoaded(pool: ProxyMap, cap: nat, rs: seq<ProxyRecord>, now: Time)
    requires rs == []
    ensures LoadAll(pool, cap, rs, now) == pool && RecentCount(rs, now) == 0
  {
  }

  lemma OneMoreLoaded(pool: ProxyMap, cap: nat, rs: seq<ProxyRecord>, i: nat, now: Time)
    requires i < |rs|
    ensures LoadAll(pool, cap, rs[..i + 1], now) ==
      InsertedIfAbsent(LoadAll(pool, cap, rs[..i], now), cap, Loaded(rs[i], now))
    ensures RecentCount(rs[..i + 1], now) ==
      RecentCount(rs[..i], now) + if SucceededWithinTheHour(rs[i], now) then 1 else 0
  {
    hide InsertedIfAbsent, Loaded, SucceededWithinTheHour;
    assert rs[..i + 1][..i] == rs[..i];
  }

  // A missing or unreadable file is None. `presumed` > 0 is what wakes the clients waiting for a first proxy.
  method LoadState(state: SharedState, file: Option<seq<ProxyRecord>>, now: Time) returns (loaded: nat, presumed: nat)
    requires state.Valid()
    modifies state`proxies
    ensures state.Valid()
    ensures file == None ==> loaded == presumed == 0 && state.proxies == old(state.proxies)
    ensures file.Some? ==> loaded == |file.value| && presumed == RecentCount(file.value, now)
    ensures file.Some? ==> state.proxies == LoadAll(old(state.proxies), state.maxProxies, file.value, now)
  {
    hide LoadAll, RecentCount, InsertedIfAbsent, Admits, SucceededWithinTheHour, Key, KeysMatch;
    loaded, presumed := 0, 0;
    if file == None {
      return;
    }
    var rs := file.value;
    NothingLoaded(old(state.proxies), state.maxProxies, rs[..0], now);
    for i := 0 to |rs|
      invariant state.Valid() && loaded == i
      invariant presumed == RecentCount(rs[..i], now)
      invariant state.proxies == LoadAll(old(state.proxies), state.maxProxies, rs[..i], now)
    {
      OneMoreLoaded(old(state.proxies), state.maxProxies, rs, i, now);
      var proxy := new Proxy.Clone(Deserialised(rs[i]));
      if SucceededWithinTheHour(rs[i], now) {
        proxy.MarkPresumedAlive();
        presumed := presumed + 1;
      }
      var inserted := state.InsertIfAbsent(proxy.View());
      loaded := loaded + 1;
    }
    assert rs[..|rs|] == rs;
  }

  // ---- Saving ----

  function CheckedFilter(): Filter {
    (p: ProxyData) => p.record.lastCheck.Some?
  }

  function RecordsOf(ps: seq<ProxyData>): (rs: seq<ProxyRecord>)
    ensures |rs| == |ps|
  {
    seq(|ps|, i requires 0 <= i < |ps| => ps[i].record)
  }

  // Only proxies checked at least once are written.
  function Saved(pool: ProxyMap, order: seq<string>): seq<ProxyRecord>
    requires forall k :: k in order ==> k in pool
  {
    RecordsOf(Eligible(pool, order, CheckedFilter()))
  }

  method SaveState(state: SharedState, order: seq<string>) returns (file: seq<ProxyRecord>)
    requires IsEnumeration(order, state.proxies)
    ensures file == Saved(state.proxies, order)
  {
    file := [];
    for i := 0 to |order|
      invariant file == Saved(state.proxies, order[..i])
    {
      EligibleNext(state.proxies, order, i, CheckedFilter());
      var p := state.proxies[order[i]];
      if p.record.lastCheck.Some? {
        file := file + [p.record];
      }
    }
    assert order[..|order|] == order;
  }

  // ---- What loading keeps of a file ----

  // The first record of each key, in file order.
  function Firsts(rs: seq<ProxyRecord>): seq<ProxyRecord> {
    if rs == [] then []
    else
      var front, last := Firsts(rs[..|rs| - 1]), rs[|rs| - 1];
      if exists r :: r in front && RecordKey(r) == RecordKey(last) then front else front + [last]
  }

  function Capped(rs: seq<ProxyRecord>, cap: nat): seq<ProxyRecord> {
    if cap == 0 || |rs| <= cap then rs else rs[..cap]
  }

  ghost predicate KeysDistinct(rs: seq<ProxyRecord>) {
    forall i, j :: 0 <= i < j < |rs| ==> RecordKey(rs[i]) != RecordKey(rs[j])
  }

  function KeysOf(rs: seq<ProxyRecord>): (ks: seq<string>)
    ensures |ks| == |rs|
  {
    seq(|rs|, i requires 0 <= i < |rs| => RecordKey(rs[i]))
  }

  // The pool consists of exactly these records, each as loaded at this time.
  ghost predicate Holds(pool: ProxyMap, rs: seq<ProxyRecord>, now: Time) {
    && |pool| == |rs|
    && (forall k :: k in pool <==> k in KeysOf(rs))
    && (forall i :: 0 <= i < |rs| ==> RecordKey(rs[i]) in pool && pool[RecordKey(rs[i])] == Loaded(rs[i], now))
  }

  lemma OneMoreKey<V>(pool: map<string, V>, ks: seq<string>, k: string, v: V)
    requires k !in pool && forall x :: x in pool <==> x in ks
    ensures |pool[k := v]| == |pool| + 1
    ensures forall x :: x in pool[k := v] <==> x in ks + [k]
  {
    var after := pool[k := v];
    assert after.Keys == pool.Keys + {k};
    assert |after| == |after.Keys| && |pool| == |pool.Keys|;
  }

  lemma HoldsOneMore(pool: ProxyMap, rs: seq<ProxyRecord>, r: ProxyRecord, now: Time, v: ProxyData)
    requires Holds(pool, rs, now) && RecordKey(r) !in pool && v == Loaded(r, now)
    ensures Holds(pool[RecordKey(r) := v], rs + [r], now)
  {
    OneMoreKey(pool, KeysOf(rs), RecordKey(r), v);
    assert KeysOf(rs + [r]) == KeysOf(rs) + [RecordKey(r)];
  }

  lemma KeyKnown(rs: seq<ProxyRecord>, k: string)
    ensures k in KeysOf(rs) <==> exists r :: r in rs && RecordKey(r) == k
  {
    if k in KeysOf(rs) {
      var i :| 0 <= i < |rs| && KeysOf(rs)[i] == k;
      assert rs[i] in rs;
    }
    forall r | r in rs && RecordKey(r) == k ensures k in KeysOf(rs) {
      var i :| 0 <= i < |rs| && rs[i] == r;
      assert KeysOf(rs)[i] == k;
    }
  }

  ghost predicate FirstOfItsKey(rs: seq<ProxyRecord>, i: nat)
    requires i < |rs|
  {
    forall j :: 0 <= j < i ==> RecordKey(rs[j]) != RecordKey(rs[i])
  }

  // Every key of the file is a key of Firsts.
  lemma {:induction false} FirstsCover(rs: seq<ProxyRecord>, i: nat)
    requires i < |rs|
    ensures RecordKey(rs[i]) in KeysOf(Firsts(rs))
  {
    var front, last := rs[..|rs| - 1], rs[|rs| - 1];
    KeyKnown(Firsts(front), RecordKey(last));
    KeyKnown(Firsts(rs), RecordKey(last));
    if i < |front| {
      FirstsCover(front, i);
      KeyKnown(Firsts(front), RecordKey(rs[i]));
      KeyKnown(Firsts(rs), RecordKey(rs[i]));
    }
  }

  lemma {:induction false} FirstsDistinct(rs: seq<ProxyRecord>)
    ensures KeysDistinct(Firsts(rs))
  {
    if rs == [] {
    } else {
      FirstsDistinct(rs[..|rs| - 1]);
    }
  }

  lemma NotCoveredIsFirst(rs: seq<ProxyRecord>)
    requires rs != []
    requires RecordKey(rs[|rs| - 1]) !in KeysOf(Firsts(rs[..|rs| - 1]))
    ensures FirstOfItsKey(rs, |rs| - 1)
  {
    var front, last := rs[..|rs| - 1], rs[|rs| - 1];
    forall j | 0 <= j < |front| ensures RecordKey(rs[j]) != RecordKey(last) {
      FirstsCover(front, j);
    }
  }

  /** Firsts holds exactly the records that no earlier record of the file shares its key with, each key once. */
  lemma {:induction false} FirstsAreFirst(rs: seq<ProxyRecord>, r: ProxyRecord)
    ensures KeysDistinct(Firsts(rs))
    ensures r in Firsts(rs) <==> exists i :: 0 <= i < |rs| && rs[i] == r && FirstOfItsKey(rs, i)
  {
    FirstsDistinct(rs);
    if r in Firsts(rs) {
      FirstsComeFromFirst(rs, r);
    }
    forall i | 0 <= i < |rs| && rs[i] == r && FirstOfItsKey(rs, i) ensures r in Firsts(rs) {
      FirstsInFileOrder(rs, i);
    }
  }

  lemma FirstsOneMore(rs: seq<ProxyRecord>)
    requires rs != []
    ensures var front, last := rs[..|rs| - 1], rs[|rs| - 1];
      Firsts(rs) == if RecordKey(last) in KeysOf(Firsts(front)) then Firsts(front) else Firsts(front) + [last]
  {
    hide RecordKey;
    KeyKnown(Firsts(rs[..|rs| - 1]), RecordKey(rs[|rs| - 1]));
  }

  lemma {:induction false} FirstsComeFromFirst(rs: seq<ProxyRecord>, r: ProxyRecord)
    requires r in Firsts(rs)
    ensures exists i :: 0 <= i < |rs| && rs[i] == r && FirstOfItsKey(rs, i)
  {
    hide RecordKey, KeysOf;
    var front := rs[..|rs| - 1];
    FirstsOneMore(rs);
    if r in Firsts(front) {
      FirstsComeFromFirst(front, r);
      var i :| 0 <= i < |front| && front[i] == r && FirstOfItsKey(front, i);
      assert FirstOfItsKey(rs, i);
    } else {
      NotCoveredIsFirst(rs);
    }
  }

  // The keys of a file.
  function KeySet(rs: seq<ProxyRecord>): set<string> {
    set r | r in rs :: RecordKey(r)
  }

  lemma KeySetOneMore(front: seq<ProxyRecord>, last: ProxyRecord)
    ensures KeySet(front + [last]) == KeySet(front) + {RecordKey(last)}
  {
    hide RecordKey;
    assert forall r :: r in front + [last] <==> r in front || r == last;
  }

  // There is one record in Firsts for each key of the file.
  lemma {:induction false} FirstsCount(rs: seq<ProxyRecord>)
    ensures |Firsts(rs)| == |KeySet(rs)|
    ensures forall k :: k in KeySet(rs) <==> k in KeysOf(Firsts(rs))
  {
    hide RecordKey, Firsts, KeySet;
    if rs == [] {
      NoFirsts();
    } else {
      var front, last := rs[..|rs| - 1], rs[|rs| - 1];
      FirstsCount(front);
      FirstsOneMore(rs);
      assert rs == front + [last];
      KeySetOneMore(front, last);
      assert KeysOf(Firsts(front) + [last]) == KeysOf(Firsts(front)) + [RecordKey(last)];
    }
  }

  lemma NoFirsts()
    ensures Firsts([]) == [] && KeySet([]) == {}
  {
  }

  lemma {:induction false} FirstsOfPrefix(rs: seq<ProxyRecord>, n: nat)
    requires n <= |rs|
    ensures Firsts(rs[..n]) <= Firsts(rs)
  {
    if n < |rs| {
      assert rs[..|rs| - 1][..n] == rs[..n];
      FirstsOfPrefix(rs[..|rs| - 1], n);
    } else {
      assert rs[..n] == rs;
    }
  }

  /** Firsts keeps the file's order: the first record of a key sits behind as many as there are keys before it. */
  lemma FirstsInFileOrder(rs: seq<ProxyRecord>, i: nat)
    requires i < |rs| && FirstOfItsKey(rs, i)
    ensures |KeySet(rs[..i])| < |Firsts(rs)| && Firsts(rs)[|KeySet(rs[..i])|] == rs[i]
  {
    var front := rs[..i];
    FirstsCount(front);
    FirstsOfPrefix(rs, i + 1);
    assert rs[..i + 1][..i] == front;
    assert RecordKey(rs[i]) !in KeySet(front) by {
      assert forall r :: r in front ==> exists j :: 0 <= j < i && rs[j] == r;
    }
    KeyKnown(Firsts(front), RecordKey(rs[i]));
    assert Firsts(rs[..i + 1]) == Firsts(front) + [rs[i]];
  }

  lemma LoadedKey(r: ProxyRecord, now: Time)
    ensures Key(Loaded(r, now)) == RecordKey(r)
  {
  }

  /**
   Loading a file into an empty pool keeps exactly the first record of each key, and under a positive
   cap exactly the first `cap` of those, whatever the file's length and repeats.
   */
  lemma {:induction false} LoadKeepsFirstRecords(cap: nat, rs: seq<ProxyRecord>, now: Time)
    ensures Holds(LoadAll(map[], cap, rs, now), Capped(Firsts(rs), cap), now)
  {
    if rs == [] {
    } else {
      var front, r := rs[..|rs| - 1], rs[|rs| - 1];
      LoadKeepsFirstRecords(cap, front, now);
      LoadedKey(r, now);
      LoadOneMore(LoadAll(map[], cap, front, now), cap, Firsts(front), r, now, Loaded(r, now));
    }
  }

  lemma LoadOneMore(pool: ProxyMap, cap: nat, f: seq<ProxyRecord>, r: ProxyRecord, now: Time, v: ProxyData)
    requires Holds(pool, Capped(f, cap), now) && v == Loaded(r, now) && Key(v) == RecordKey(r)
    ensures var g := if exists x :: x in f && RecordKey(x) == RecordKey(r) then f else f + [r];
      Holds(InsertedIfAbsent(pool, cap, v), Capped(g, cap), now)
  {
    KeyKnown(f, RecordKey(r));
    if cap > 0 && |f| >= cap {
      assert Capped(f + [r], cap) == Capped(f, cap);
    } else if RecordKey(r) !in pool {
      HoldsOneMore(pool, f, r, now, v);
    }
  }

  /**
   In terms of the file alone: the first record of a key is loaded if and only if there is no cap or
   fewer distinct keys than the cap come before it, and nothing but such records is loaded.
   */
  lemma LoadedExactly(cap: nat, rs: seq<ProxyRecord>, now: Time, i: nat)
    requires i < |rs| && FirstOfItsKey(rs, i)
    ensures var after := LoadAll(map[], cap, rs, now);
      && (RecordKey(rs[i]) in after <==> cap == 0 || |KeySet(rs[..i])| < cap)
      && (RecordKey(rs[i]) in after ==> after[RecordKey(rs[i])] == Loaded(rs[i], now))
      && after.Keys <= KeySet(rs)
  {
    hide RecordKey, Loaded, LoadAll, Firsts, FirstOfItsKey;
    var after, firsts, place := LoadAll(map[], cap, rs, now), Firsts(rs), |KeySet(rs[..i])|;
    LoadKeepsFirstRecords(cap, rs, now);
    FirstsInFileOrder(rs, i);
    FirstsDistinct(rs);
    FirstsCount(rs);
    var kept := Capped(firsts, cap);
    if RecordKey(rs[i]) in after {
      var j :| 0 <= j < |kept| && KeysOf(kept)[j] == RecordKey(rs[i]);
      assert firsts[j] == kept[j] && RecordKey(firsts[j]) == RecordKey(firsts[place]);
      assert j == place;
    }
    if cap == 0 || place < cap {
      assert kept[place] == rs[i];
    }
    forall k | k in after ensures k in KeySet(rs) {
      var j :| 0 <= j < |kept| && KeysOf(kept)[j] == k;
      assert KeysOf(firsts)[j] == k;
    }
  }

  lemma {:induction false} DistinctAreFirsts(rs: seq<ProxyRecord>)
    requires KeysDistinct(rs)
    ensures Firsts(rs) == rs
  {
    if rs == [] {
    } else {
      var front := rs[..|rs| - 1];
      DistinctAreFirsts(front);
      assert rs == front + [rs[|rs| - 1]];
    }
  }

  // ---- Save, then load ----

  lemma SavedKeysDistinct(pool: ProxyMap, order: seq<string>)
    requires KeysMatch(pool) && IsEnumeration(order, pool)
    ensures KeysDistinct(Saved(pool, order))
    ensures forall r :: r in Saved(pool, order) <==>
      RecordKey(r) in pool && pool[RecordKey(r)].record == r && r.lastCheck.Some?
  {
    var ps, rs := Eligible(pool, order, CheckedFilter()), Saved(pool, order);
    EligibleOnce(pool, order, CheckedFilter());
    forall i | 0 <= i < |ps|
      ensures RecordKey(rs[i]) in pool && pool[RecordKey(rs[i])] == ps[i] && rs[i].lastCheck.Some?
    {
      EligibleMembers(pool, order, CheckedFilter(), ps[i]);
    }
    forall r | RecordKey(r) in pool && pool[RecordKey(r)].record == r && r.lastCheck.Some? ensures r in rs {
      EligibleMembers(pool, order, CheckedFilter(), pool[RecordKey(r)]);
      var i :| 0 <= i < |ps| && ps[i] == pool[RecordKey(r)];
      assert rs[i] == r;
    }
  }

  // What a restart makes of a pool: checked entries, each as loaded; and, if there was room, all of them.
  ghost predicate IsReload(after: ProxyMap, before: ProxyMap, now: Time) {
    forall k :: k in after ==>
      k in before && before[k].record.lastCheck.Some? && after[k] == Loaded(before[k].record, now)
  }

  ghost predicate IsFullReload(after: ProxyMap, before: ProxyMap, now: Time) {
    IsReload(after, before, now) && forall k :: k in before && before[k].record.lastCheck.Some? ==> k in after
  }

  function Reloaded(pool: ProxyMap, order: seq<string>, cap: nat, now: Time): ProxyMap
    requires IsEnumeration(order, pool)
  {
    LoadAll(map[], cap, Saved(pool, order), now)
  }

  lemma ReloadHolds(pool: ProxyMap, order: seq<string>, cap: nat, now: Time)
    requires KeysMatch(pool) && IsEnumeration(order, pool)
    ensures KeysDistinct(Saved(pool, order))
    ensures Holds(Reloaded(pool, order, cap, now), Capped(Saved(pool, order), cap), now)
  {
    hide LoadAll, Saved;
    SavedKeysDistinct(pool, order);
    DistinctAreFirsts(Saved(pool, order));
    LoadKeepsFirstRecords(cap, Saved(pool, order), now);
  }

  lemma ReloadComesFromPool(pool: ProxyMap, order: seq<string>, cap: nat, now: Time)
    requires KeysMatch(pool) && IsEnumeration(order, pool)
    ensures IsReload(Reloaded(pool, order, cap, now), pool, now)
  {
    hide Reloaded, Saved, Loaded, RecordKey, KeysMatch;
    var after, rs := Reloaded(pool, order, cap, now), Saved(pool, order);
    ReloadHolds(pool, order, cap, now);
    SavedKeysDistinct(pool, order);
    var kept := Capped(rs, cap);
    forall k | k in after
      ensures k in pool && pool[k].record.lastCheck.Some? && after[k] == Loaded(pool[k].record, now)
    {
      var i :| 0 <= i < |kept| && KeysOf(kept)[i] == k;
      assert kept[i] == rs[i] && rs[i] in rs;
    }
  }

  // Of distinct records exactly the first `cap` are held.
  lemma HeldPlaces(after: ProxyMap, rs: seq<ProxyRecord>, cap: nat, now: Time, i: nat)
    requires KeysDistinct(rs) && Holds(after, Capped(rs, cap), now) && i < |rs|
    ensures RecordKey(rs[i]) in after <==> cap == 0 || i < cap
  {
    hide Loaded, RecordKey;
    var kept := Capped(rs, cap);
    if RecordKey(rs[i]) in after {
      var j :| 0 <= j < |kept| && KeysOf(kept)[j] == RecordKey(rs[i]);
      assert kept[j] == rs[j] && j == i;
    }
    if cap == 0 || i < cap {
      assert kept[i] == rs[i];
    }
  }

  // Every checked entry is in the file.
  lemma SavedCovers(pool: ProxyMap, order: seq<string>)
    requires KeysMatch(pool) && IsEnumeration(order, pool)
    ensures forall k :: k in pool && pool[k].record.lastCheck.Some? ==>
      exists i :: 0 <= i < |Saved(pool, order)| && RecordKey(Saved(pool, order)[i]) == k
  {
    hide Saved;
    var rs := Saved(pool, order);
    SavedKeysDistinct(pool, order);
    forall k | k in pool && pool[k].record.lastCheck.Some? ensures exists i :: 0 <= i < |rs| && RecordKey(rs[i]) == k {
      assert RecordKey(pool[k].record) == Key(pool[k]) == k;
      assert pool[k].record in rs;
    }
  }

  /**
   Save then load into an empty pool brings back checked proxies only, each as loaded: all of them if and
   only if there is room, and otherwise exactly `cap` of them, the first in the order of iteration.
   */
  lemma SaveThenLoad(pool: ProxyMap, order: seq<string>, cap: nat, now: Time)
    requires KeysMatch(pool) && IsEnumeration(order, pool)
    ensures var after, rs := Reloaded(pool, order, cap, now), Saved(pool, order);
      && IsReload(after, pool, now)
      && (IsFullReload(after, pool, now) <==> cap == 0 || |rs| <= cap)
      && |after| == (if cap == 0 || |rs| <= cap then |rs| else cap)
      && forall i :: 0 <= i < |rs| ==> (RecordKey(rs[i]) in after <==> cap == 0 || i < cap)
  {
    hide Reloaded, Saved, Loaded, RecordKey, KeysMatch, KeysDistinct;
    var after, rs := Reloaded(pool, order, cap, now), Saved(pool, order);
    ReloadHolds(pool, order, cap, now);
    ReloadComesFromPool(pool, order, cap, now);
    forall i | 0 <= i < |rs| ensures RecordKey(rs[i]) in after <==> cap == 0 || i < cap {
      HeldPlaces(after, rs, cap, now, i);
    }
    SavedCovers(pool, order);
    if cap > 0 && |rs| > cap {
      SavedKeysDistinct(pool, order);
      assert rs[cap] in rs && RecordKey(rs[cap]) !in after;
    }
  }

  /** Of the persisted fields, loading changes only the failure count, and only after a recent success. */
  lemma LoadedRecord(r: ProxyRecord, now: Time)
    ensures Loaded(r, now).record ==
      r.(consecutiveFails := if SucceededWithinTheHour(r, now) then 0 else r.consecutiveFails)
    ensures Loaded(r, now).status == Some(PresumedAlive) <==>
      r.lastSuccess.Some? && now - r.lastSuccess.value < 3_600_000_000_000
    ensures Loaded(r, now).status != Some(PresumedAlive) ==> Loaded(r, now).status == None
    ensures Loaded(r, now).circuitOpenUntil == Loaded(r, now).uptimeStreakStart == None
  {
  }

  /** A second restart at any later time changes no persisted field any more. */
  lemma ReloadIsIdempotent(pool: ProxyMap, once: ProxyMap, twice: ProxyMap, first: Time, second: Time)
    requires IsReload(once, pool, first) && IsReload(twice, once, second) && first <= second
    ensures forall k :: k in twice ==> twice[k].record == once[k].record
  {
    forall k | k in twice ensures twice[k].record == once[k].record {
      LoadedRecord(pool[k].record, first);
      LoadedRecord(once[k].record, second);
    }
  }

  lemma ReloadKeepsKeys(pool: ProxyMap, after: ProxyMap, now: Time)
    requires KeysMatch(pool) && IsReload(after, pool, now)
    ensures KeysMatch(after)
    ensures forall k :: k in after ==> after[k].record.lastCheck.Some?
  {
    forall k | k in after ensures Key(after[k]) == k && after[k].record.lastCheck.Some? {
      LoadedKey(pool[k].record, now);
      LoadedRecord(pool[k].record, now);
    }
  }

  /** And it loses no proxy, under any cap: what did not fit was lost the first time. */
  lemma SecondRestartLosesNothing(pool: ProxyMap, order: seq<string>, again: seq<string>, cap: nat,
                                  first: Time, second: Time)
    requires KeysMatch(pool) && IsEnumeration(order, pool) && first <= second
    requires IsEnumeration(again, Reloaded(pool, order, cap, first))
    ensures var once := Reloaded(pool, order, cap, first);
      var twice := Reloaded(once, again, cap, second);
      twice.Keys == once.Keys && forall k :: k in once ==> twice[k].record == once[k].record
  {
    hide Reloaded, Saved;
    var once := Reloaded(pool, order, cap, first);
    var twice := Reloaded(once, again, cap, second);
    SaveThenLoad(pool, order, cap, first);
    ReloadKeepsKeys(pool, once, first);
    SaveThenLoad(once, again, cap, second);
    SavedAtMost(once, again);
    ReloadIsIdempotent(pool, once, twice, first, second);
    assert forall k :: k in once <==> k in twice;
  }

  lemma SavedAtMost(pool: ProxyMap, order: seq<string>)
    requires KeysMatch(pool) && IsEnumeration(order, pool)
    ensures |Saved(pool, order)| <= |pool|
  {
    hide Saved;
    var rs := Saved(pool, order);
    SavedKeysDistinct(pool, order);
    DistinctWithin(KeysOf(rs), pool.Keys);
    assert |pool| == |pool.Keys|;
  }

  lemma {:induction false} DistinctWithin<T>(s: seq<T>, all: set<T>)
    requires Distinct(s) && forall x :: x in s ==> x in all
    ensures |s| <= |all|
  {
    if s == [] {
    } else {
      DistinctWithin(s[1..], all - {s[0]});
    }
  }

  /** A restart keeps the pool reachable, whatever the cap. */
  lemma ReloadIsReachable(pool: ProxyMap, order: seq<string>, cap: nat, before: Time, now: Time)
    requires KeysMatch(pool) && IsEnumeration(order, pool)
    requires AllReachable(pool, before) && before <= now
    ensures AllReachable(Reloaded(pool, order, cap, now), now) && KeysMatch(Reloaded(pool, order, cap, now))
  {
    hide Reloaded, Saved, Reachable;
    var after := Reloaded(pool, order, cap, now);
    SaveThenLoad(pool, order, cap, now);
    ReloadKeepsKeys(pool, after, now);
    forall k | k in after ensures Reachable(after[k], now) {
      ReachableStep(pool[k], before, Restart(now));
    }
  }
}
