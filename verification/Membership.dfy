/**
 Who is in the pool and who is banned, over any interleaving of insertions, additions, bans, unbans,
 cleanups and recorded events. The first four are two map operations each, and anything may happen in
 between, so a history here consists of single map operations.
 */
module Membership {
  import opened Wrappers
  import opened Ordering
  import opened Proxies
  import opened Lifecycle
  import opened Selection
  import opened State

  // A call between its two map operations: what its second one will put.
  datatype Pending =
    | Inserting(proxy: ProxyData)
    | Adding(proxy: ProxyData)
    | Banning(key: string, proxy: ProxyData)
    | Unbanning(proxy: ProxyData)

  datatype Registry = Registry(proxies: ProxyMap, banned: ProxyMap, pending: multiset<Pending>)

  // The single operations, each at its time. The first four begin a call, with what may end it at once:
  // the length test, the test for the key, the removal from the pool, the removal from the banned list.
  datatype Change =
    | TestRoom(proxy: ProxyData, at: Time)
    | TestKey(proxy: ProxyData, at: Time)
    | TakeOut(key: string, at: Time)
    | TakeBack(key: string, at: Time)
    | Finish(call: Pending, at: Time)
    | CleanUp(at: Time)
    | Record(key: string, event: Event, at: Time)

  function Begun(r: Registry, call: Pending): Registry {
    r.(pending := r.pending + multiset{call})
  }

  function Put(pool: ProxyMap, p: ProxyData): ProxyMap {
    pool[Key(p) := p]
  }

  function Finished(r: Registry, call: Pending): Registry {
    var rest := r.(pending := r.pending - multiset{call});
    match call
    case Inserting(p) => if Key(p) in r.proxies then rest else rest.(proxies := Put(r.proxies, p))
    case Adding(p) => rest.(proxies := Put(r.proxies, p))
    case Banning(key, p) => rest.(banned := r.banned[key := p])
    case Unbanning(p) => rest.(proxies := Put(r.proxies, p))
  }

  function After(r: Registry, cap: nat, c: Change): Registry {
    match c
    case TestRoom(p, _) => if cap > 0 && |r.proxies| >= cap then r else Begun(r, Inserting(p))
    case TestKey(p, _) => if Key(p) in r.proxies then r else Begun(r, Adding(p))
    case TakeOut(key, _) =>
      if Bannable(key) && key in r.proxies
      then Begun(r.(proxies := r.proxies - {key}), Banning(key, r.proxies[key])) else r
    case TakeBack(key, _) =>
      if key in r.banned then Begun(r.(banned := r.banned - {key}), Unbanning(r.banned[key])) else r
    case Finish(call, _) => Finished(r, call)
    case CleanUp(at) => r.(proxies := CleanedUp(r.proxies, at))
    case Record(key, e, _) => r.(proxies := Updated(r.proxies, key, e))
  }

  function AfterAll(r: Registry, cap: nat, cs: seq<Change>): Registry
    decreases |cs|
  {
    if cs == [] then r else AfterAll(After(r, cap, cs[0]), cap, cs[1..])
  }

  // Only calls that have begun are finished.
  ghost predicate Possible(r: Registry, cap: nat, cs: seq<Change>)
    decreases |cs|
  {
    cs == [] ||
    ((cs[0].Finish? ==> cs[0].call in r.pending) && Possible(After(r, cap, cs[0]), cap, cs[1..]))
  }

  // ---- Whole calls are two operations in a row ----

  function Both(r: Registry): Pools {
    Pools(r.proxies, r.banned)
  }

  // With nothing in between, the two operations of a call do what the call is specified to do.

  lemma InsertionInARow(r: Registry, cap: nat, p: ProxyData, at: Time)
    ensures var s := After(r, cap, TestRoom(p, at));
      if cap > 0 && |r.proxies| >= cap then s == r && InsertedIfAbsent(r.proxies, cap, p) == r.proxies
      else Finished(s, Inserting(p)) == r.(proxies := InsertedIfAbsent(r.proxies, cap, p))
  {
    hide Key;
    BeginThenFinish(r.pending, Inserting(p));
  }

  lemma AdditionInARow(r: Registry, cap: nat, p: ProxyData, at: Time)
    ensures var s := After(r, cap, TestKey(p, at));
      if Key(p) in r.proxies then s == r && Added(Both(r), p) == Both(r)
      else Both(Finished(s, Adding(p))) == Added(Both(r), p)
  {
    hide Key;
  }

  lemma BanInARow(r: Registry, cap: nat, key: string, at: Time)
    ensures var s := After(r, cap, TakeOut(key, at));
      if !(Bannable(key) && key in r.proxies) then s == r && AfterBan(Both(r), key) == Both(r)
      else Both(Finished(s, Banning(key, r.proxies[key]))) == AfterBan(Both(r), key)
  {
    hide Key, Bannable;
  }

  lemma UnbanInARow(r: Registry, cap: nat, key: string, at: Time)
    ensures var s := After(r, cap, TakeBack(key, at));
      if key !in r.banned then s == r && AfterUnban(Both(r), key) == Both(r)
      else Both(Finished(s, Unbanning(r.banned[key]))) == AfterUnban(Both(r), key)
  {
    hide Key, Bannable;
  }

  lemma BeginThenFinish(pending: multiset<Pending>, call: Pending)
    ensures pending + multiset{call} - multiset{call} == pending
  {
  }

  // ---- The size cap ----

  // The pool has one entry more afterwards.
  predicate Grows(r: Registry, c: Change) {
    c.Finish? && !c.call.Banning? && Key(c.call.proxy) !in r.proxies
  }

  lemma SizeAfter(r: Registry, cap: nat, c: Change)
    ensures Grows(r, c) ==> |After(r, cap, c).proxies| == |r.proxies| + 1
    ensures !Grows(r, c) ==> |After(r, cap, c).proxies| <= |r.proxies|
    ensures c.TestRoom? || c.TestKey? || c.TakeBack? ==> After(r, cap, c).proxies == r.proxies
  {
    hide Key, Bannable, Updated, WorthKeeping;
    match c
    case Finish(call, _) => OneMoreEntry(r.proxies, Key(call.proxy), call.proxy);
    case TakeOut(key, _) => FewerEntries(r.proxies, After(r, cap, c).proxies);
    case CleanUp(_) => FewerEntries(r.proxies, After(r, cap, c).proxies);
    case Record(key, e, _) =>
      UpdatedKeys(r.proxies, key, e);
      FewerEntries(r.proxies, After(r, cap, c).proxies);
    case _ =>
  }

  lemma UpdatedKeys(pool: ProxyMap, key: string, e: Event)
    ensures Updated(pool, key, e).Keys == pool.Keys
  {
  }

  lemma FewerEntries(pool: ProxyMap, after: ProxyMap)
    requires after.Keys <= pool.Keys
    ensures |after| <= |pool|
  {
    Fewer(after.Keys, pool.Keys);
    assert |after| == |after.Keys| && |pool| == |pool.Keys|;
  }

  lemma {:induction false} Fewer<T>(a: set<T>, b: set<T>)
    requires a <= b
    ensures |a| <= |b|
  {
    if a != {} {
      var x :| x in a;
      Fewer(a - {x}, b - {x});
    }
  }

  // A put of a fresh key meets a full pool. It may be the put of an addition, of an unban, or of an
  // insertion whose length test was passed before the pool was full.
  predicate Overflows(r: Registry, cap: nat, c: Change) {
    cap > 0 && |r.proxies| >= cap && Grows(r, c)
  }

  /** One operation keeps a pool within its cap if and only if it does not put a fresh key into a full pool. */
  lemma CapKeptExactly(r: Registry, cap: nat, c: Change)
    requires cap > 0 && |r.proxies| <= cap
    ensures |After(r, cap, c).proxies| <= cap <==> !Overflows(r, cap, c)
  {
    SizeAfter(r, cap, c);
  }

  ghost predicate StaysWithin(r: Registry, cap: nat, cs: seq<Change>)
    decreases |cs|
  {
    |r.proxies| <= cap && (cs == [] || StaysWithin(After(r, cap, cs[0]), cap, cs[1..]))
  }

  function Overflowing(r: Registry, cap: nat, cs: seq<Change>): nat
    decreases |cs|
  {
    if cs == [] then 0
    else (if Overflows(r, cap, cs[0]) then 1 else 0) + Overflowing(After(r, cap, cs[0]), cap, cs[1..])
  }

  /** Over a whole history the pool never passes its cap if and only if no put of a fresh key meets a full pool. */
  lemma {:induction false} CapKeptThroughoutExactly(r: Registry, cap: nat, cs: seq<Change>)
    requires cap > 0 && |r.proxies| <= cap
    ensures StaysWithin(r, cap, cs) <==> Overflowing(r, cap, cs) == 0
    decreases |cs|
  {
    if cs == [] {
    } else {
      CapKeptExactly(r, cap, cs[0]);
      if !Overflows(r, cap, cs[0]) {
        CapKeptThroughoutExactly(After(r, cap, cs[0]), cap, cs[1..]);
      }
    }
  }

  /** And it is never past the cap by more than the number of those. */
  lemma {:induction false} PastCapByForced(r: Registry, cap: nat, cs: seq<Change>)
    requires cap > 0
    ensures |AfterAll(r, cap, cs).proxies| <=
      (if |r.proxies| <= cap then cap else |r.proxies|) + Overflowing(r, cap, cs)
    decreases |cs|
  {
    if cs == [] {
    } else {
      SizeAfter(r, cap, cs[0]);
      PastCapByForced(After(r, cap, cs[0]), cap, cs[1..]);
    }
  }

  // ---- Insertions alone ----

  // At most k calls under way at any time, all of them insertions or bans.
  ghost predicate InsertionsOnly(r: Registry, cap: nat, cs: seq<Change>, k: nat)
    decreases |cs|
  {
    && |r.pending| <= k && (forall call :: call in r.pending ==> call.Inserting? || call.Banning?)
    && (cs == [] ||
        (!cs[0].TestKey? && !cs[0].TakeBack? && InsertionsOnly(After(r, cap, cs[0]), cap, cs[1..], k)))
  }

  lemma PendingAfter(r: Registry, cap: nat, c: Change)
    requires c.Finish? ==> c.call in r.pending
    ensures var s := After(r, cap, c);
      && (c.Finish? ==> |s.pending| == |r.pending| - 1)
      && (c.CleanUp? || c.Record? ==> s.pending == r.pending)
      && (c.TestRoom? && cap > 0 && |r.proxies| >= cap ==> s == r)
      && (c.TakeOut? ==> |s.proxies| + |s.pending| == |r.proxies| + |r.pending|)
  {
    hide Key, Bannable, Updated, WorthKeeping;
    if c.TakeOut? && Bannable(c.key) && c.key in r.proxies {
      OneMoreEntry(r.proxies - {c.key}, c.key, r.proxies[c.key]);
      assert (r.proxies - {c.key})[c.key := r.proxies[c.key]] == r.proxies;
    }
  }

  lemma OneInsertionOperation(r: Registry, cap: nat, c: Change, k: nat)
    requires cap > 0 && (|r.proxies| >= cap ==> |r.proxies| + |r.pending| <= cap + k - 1)
    requires |r.pending| <= k && |After(r, cap, c).pending| <= k
    requires !c.TestKey? && !c.TakeBack? && (c.Finish? ==> c.call in r.pending)
    ensures var s := After(r, cap, c); |s.proxies| >= cap ==> |s.proxies| + |s.pending| <= cap + k - 1
  {
    hide After, Grows;
    SizeAfter(r, cap, c);
    PendingAfter(r, cap, c);
    GrowthIsFinish(r, c);
  }

  lemma GrowthIsFinish(r: Registry, c: Change)
    ensures Grows(r, c) ==> c.Finish?
  {
  }

  /**
   Insertions respect the cap up to their own concurrency: while no addition or unban is under way, at
   most k calls at once leave the pool at most k - 1 past its cap. So a single inserter keeps the cap.
   */
  lemma {:induction false} InsertionsPassByConcurrency(r: Registry, cap: nat, cs: seq<Change>, k: nat)
    requires cap > 0 && k > 0 && Possible(r, cap, cs) && InsertionsOnly(r, cap, cs, k)
    requires |r.proxies| >= cap ==> |r.proxies| + |r.pending| <= cap + k - 1
    ensures |AfterAll(r, cap, cs).proxies| <= cap + k - 1
    decreases |cs|
  {
    hide After;
    if cs == [] {
    } else {
      OneInsertionOperation(r, cap, cs[0], k);
      InsertionsPassByConcurrency(After(r, cap, cs[0]), cap, cs[1..], k);
    }
  }

  /**
   The cap does fail. With one entry to a cap of one: by an addition, and by a ban, an insertion and an
   unban. And with room for one more: by an insertion whose length test comes before an addition and
   whose put comes after it, so that neither of the two calls began at a full pool.
   */
  lemma CapIsPassed(p: ProxyData, q: ProxyData, s: ProxyData, at: Time)
    requires Key(p) != Key(q) && Key(p) != Key(s) && Key(q) != Key(s)
    ensures var full := Pools(map[Key(p) := p], map[]);
      && |Added(full, q).proxies| == 2
      && (Bannable(Key(p)) ==>
            var replaced := AfterBan(full, Key(p));
            |AfterUnban(replaced.(proxies := InsertedIfAbsent(replaced.proxies, 1, q)), Key(p)).proxies| == 2)
    ensures var r := Registry(map[Key(p) := p], map[], multiset{});
      var cs := [TestRoom(q, at), TestKey(s, at), Finish(Adding(s), at), Finish(Inserting(q), at)];
      Possible(r, 2, cs) && |AfterAll(r, 2, cs).proxies| == 3
  {
    hide Key, Bannable;
    var full := Pools(map[Key(p) := p], map[]);
    OneMoreEntry(full.proxies, Key(q), q);
    if Bannable(Key(p)) {
      assert AfterBan(full, Key(p)) == Pools(map[], map[Key(p) := p]);
      OneMoreEntry(map[Key(q) := q], Key(p), p);
    }
    RaceTrace(p, q, s, at);
  }

  lemma RaceTrace(p: ProxyData, q: ProxyData, s: ProxyData, at: Time)
    requires Key(p) != Key(q) && Key(p) != Key(s) && Key(q) != Key(s)
    ensures var r := Registry(map[Key(p) := p], map[], multiset{});
      var cs := [TestRoom(q, at), TestKey(s, at), Finish(Adding(s), at), Finish(Inserting(q), at)];
      Possible(r, 2, cs) && |AfterAll(r, 2, cs).proxies| == 3
  {
    hide Key;
    var pool := map[Key(p) := p];
    var r0 := Registry(pool, map[], multiset{});
    var cs := [TestRoom(q, at), TestKey(s, at), Finish(Adding(s), at), Finish(Inserting(q), at)];
    var r1 := After(r0, 2, cs[0]);
    var r2 := After(r1, 2, cs[1]);
    var r3 := After(r2, 2, cs[2]);
    var r4 := After(r3, 2, cs[3]);
    OneMoreEntry(pool, Key(s), s);
    OneMoreEntry(pool[Key(s) := s], Key(q), q);
    assert r4.proxies == pool[Key(s) := s][Key(q) := q];
    RunOfFour(r0, 2, cs, r1, r2, r3, r4);
  }

  lemma RunOfFour(r0: Registry, cap: nat, cs: seq<Change>, r1: Registry, r2: Registry, r3: Registry, r4: Registry)
    requires |cs| == 4
    requires r1 == After(r0, cap, cs[0]) && r2 == After(r1, cap, cs[1])
    requires r3 == After(r2, cap, cs[2]) && r4 == After(r3, cap, cs[3])
    requires cs[0].Finish? ==> cs[0].call in r0.pending
    requires cs[1].Finish? ==> cs[1].call in r1.pending
    requires cs[2].Finish? ==> cs[2].call in r2.pending
    requires cs[3].Finish? ==> cs[3].call in r3.pending
    ensures Possible(r0, cap, cs) && AfterAll(r0, cap, cs) == r4
  {
    hide After;
    assert cs[3..][1..] == [] && cs[2..][1..] == cs[3..] && cs[1..][1..] == cs[2..];
    assert Possible(r4, cap, []) && AfterAll(r4, cap, []) == r4;
    assert Possible(r3, cap, cs[3..]) && AfterAll(r3, cap, cs[3..]) == r4;
    assert Possible(r2, cap, cs[2..]) && AfterAll(r2, cap, cs[2..]) == r4;
    assert Possible(r1, cap, cs[1..]) && AfterAll(r1, cap, cs[1..]) == r4;
  }

  // ---- Nobody is lost ----

  // In the pool, banned, or on the way between the two.
  function InTransit(pending: multiset<Pending>): set<string> {
    set call | call in pending && (call.Banning? || call.Unbanning?) :: Key(call.proxy)
  }

  function Somewhere(r: Registry): set<string> {
    r.proxies.Keys + r.banned.Keys + InTransit(r.pending)
  }

  ghost predicate CallsKeyed(pending: multiset<Pending>) {
    forall call :: call in pending && call.Banning? ==> Key(call.proxy) == call.key
  }

  // Everything sits under its own key.
  ghost predicate Keyed(r: Registry) {
    KeysMatch(r.proxies) && KeysMatch(r.banned) && CallsKeyed(r.pending)
  }

  lemma BeginKeepsKeyed(pending: multiset<Pending>, call: Pending)
    requires CallsKeyed(pending) && (call.Banning? ==> Key(call.proxy) == call.key)
    ensures CallsKeyed(pending + multiset{call})
  {
    hide Key;
  }

  lemma FinishKeepsKeyed(r: Registry, call: Pending)
    requires Keyed(r) && call in r.pending
    ensures Keyed(Finished(r, call))
  {
    hide Key;
    assert forall other :: other in r.pending - multiset{call} ==> other in r.pending;
  }

  lemma ChangeKeepsKeyed(r: Registry, cap: nat, c: Change)
    requires Keyed(r) && (c.Finish? ==> c.call in r.pending)
    ensures Keyed(After(r, cap, c))
  {
    hide Key, Bannable, Updated, WorthKeeping, CallsKeyed, Finished;
    match c
    case TestRoom(p, _) => BeginKeepsKeyed(r.pending, Inserting(p));
    case TestKey(p, _) => BeginKeepsKeyed(r.pending, Adding(p));
    case TakeOut(key, _) =>
      if key in r.proxies {
        BeginKeepsKeyed(r.pending, Banning(key, r.proxies[key]));
      }
    case TakeBack(key, _) =>
      if key in r.banned {
        BeginKeepsKeyed(r.pending, Unbanning(r.banned[key]));
      }
    case Finish(call, _) => FinishKeepsKeyed(r, call);
    case CleanUp(_) =>
    case Record(key, e, _) => UpdateKeepsKeys(r.proxies, key, e);
  }

  lemma TransitBegins(pending: multiset<Pending>, call: Pending)
    ensures InTransit(pending) <= InTransit(pending + multiset{call})
    ensures call.Banning? || call.Unbanning? ==> Key(call.proxy) in InTransit(pending + multiset{call})
  {
    hide Key;
    assert call in pending + multiset{call};
  }

  lemma TransitEnds(pending: multiset<Pending>, call: Pending)
    ensures InTransit(pending) <= InTransit(pending - multiset{call}) +
      if call.Banning? || call.Unbanning? then {Key(call.proxy)} else {}
  {
    hide Key;
    forall other | other in pending && other != call ensures other in pending - multiset{call} {
    }
  }

  lemma ChangeLosesNobody(r: Registry, cap: nat, c: Change)
    requires Keyed(r) && (c.Finish? ==> c.call in r.pending) && !c.CleanUp?
    ensures Somewhere(r) <= Somewhere(After(r, cap, c))
  {
    hide Key, Bannable, Updated, InTransit;
    match c
    case TestRoom(p, _) => TransitBegins(r.pending, Inserting(p));
    case TestKey(p, _) => TransitBegins(r.pending, Adding(p));
    case TakeOut(key, _) =>
      if key in r.proxies {
        TransitBegins(r.pending, Banning(key, r.proxies[key]));
      }
    case TakeBack(key, _) =>
      if key in r.banned {
        TransitBegins(r.pending, Unbanning(r.banned[key]));
      }
    case Finish(call, _) => TransitEnds(r.pending, call);
    case Record(key, e, _) => UpdateKeepsKeys(r.proxies, key, e);
  }

  /** Except for cleanups, every proxy in the pool, banned, or on its way is in one of the three at every instant. */
  lemma {:induction false} NobodyIsLost(r: Registry, cap: nat, cs: seq<Change>)
    requires Keyed(r) && Possible(r, cap, cs)
    requires forall c :: c in cs ==> !c.CleanUp?
    ensures Somewhere(r) <= Somewhere(AfterAll(r, cap, cs))
    decreases |cs|
  {
    hide After, Somewhere, Keyed;
    if cs == [] {
    } else {
      assert cs[0] in cs;
      ChangeKeepsKeyed(r, cap, cs[0]);
      ChangeLosesNobody(r, cap, cs[0]);
      NobodyIsLost(After(r, cap, cs[0]), cap, cs[1..]);
    }
  }

  /** Once no call is under way, that is the pool and the banned list. */
  lemma NobodyIsLostInTheEnd(r: Registry, cap: nat, cs: seq<Change>)
    requires Keyed(r) && Possible(r, cap, cs) && r.pending == multiset{}
    requires (forall c :: c in cs ==> !c.CleanUp?) && AfterAll(r, cap, cs).pending == multiset{}
    ensures var s := AfterAll(r, cap, cs); r.proxies.Keys + r.banned.Keys <= s.proxies.Keys + s.banned.Keys
  {
    NobodyIsLost(r, cap, cs);
  }

  // ---- Bans and unbans ----

  // It takes the proxy off the banned list or replaces it there.
  ghost predicate Touches(c: Change, key: string) {
    (c.TakeBack? && c.key == key) || (c.Finish? && c.call.Banning? && c.call.key == key)
  }

  lemma BannedStaysOnce(r: Registry, cap: nat, c: Change, key: string)
    requires key in r.banned && !Touches(c, key)
    ensures key in After(r, cap, c).banned && After(r, cap, c).banned[key] == r.banned[key]
  {
    hide Key, Bannable, Updated, WorthKeeping;
  }

  lemma {:induction false} BannedStays(r: Registry, cap: nat, cs: seq<Change>, key: string)
    requires key in r.banned && forall c :: c in cs ==> !Touches(c, key)
    ensures key in AfterAll(r, cap, cs).banned && AfterAll(r, cap, cs).banned[key] == r.banned[key]
    decreases |cs|
  {
    hide After, Touches;
    if cs == [] {
    } else {
      assert cs[0] in cs;
      BannedStaysOnce(r, cap, cs[0], key);
      BannedStays(After(r, cap, cs[0]), cap, cs[1..], key);
    }
  }

  /**
   An unban brings back the very record of the ban, whatever else happened since the ban and between the
   unban's own two operations; a proxy inserted again under the key meanwhile is overwritten.
   */
  lemma UnbanRestores(r: Registry, cap: nat, key: string, cs: seq<Change>, more: seq<Change>, at: Time)
    requires Keyed(r) && Bannable(key) && key in r.proxies
    requires forall c :: c in cs ==> !Touches(c, key)
    ensures var p := r.proxies[key];
      var banned := Finished(After(r, cap, TakeOut(key, at)), Banning(key, p));
      var taken := After(AfterAll(banned, cap, cs), cap, TakeBack(key, at));
      var back := Finished(AfterAll(taken, cap, more), Unbanning(p));
      && Unbanning(p) in taken.pending
      && key in back.proxies && back.proxies[key] == p
    ensures AfterUnban(AfterBan(Both(r), key), key).proxies == r.proxies
  {
    hide AfterAll, Touches, Key, Bannable;
    var banned := Finished(After(r, cap, TakeOut(key, at)), Banning(key, r.proxies[key]));
    BannedStays(banned, cap, cs, key);
  }

  /** A ban does not keep a proxy out: the next insertion of its key puts it back, if the cap leaves room. */
  lemma BanDoesNotLast(ps: Pools, cap: nat, key: string, again: ProxyData)
    requires Bannable(key) && key in ps.proxies && Key(again) == key
    ensures var after := AfterBan(ps, key);
      key in after.banned && (key in InsertedIfAbsent(after.proxies, cap, again) <==> cap == 0 || |ps.proxies| <= cap)
  {
    hide Key, Bannable;
    var banned := AfterBan(ps, key).proxies;
    assert ps.proxies == banned[key := ps.proxies[key]];
    OneMoreEntry(banned, key, ps.proxies[key]);
  }

  /**
   A put changes an entry that is there if and only if it is that of an addition or an unban, with
   another record for its key: an addition too may overwrite, if its key has come in since its test.
   */
  lemma OverwritesExactly(r: Registry, call: Pending, key: string)
    requires key in r.proxies
    ensures key in Finished(r, call).proxies
    ensures Finished(r, call).proxies[key] != r.proxies[key] <==>
      (call.Adding? || call.Unbanning?) && Key(call.proxy) == key && call.proxy != r.proxies[key]
  {
    hide Key;
  }

  // ---- Reachability ----

  ghost predicate CallsReachable(pending: multiset<Pending>, now: Time) {
    forall call :: call in pending ==> Reachable(call.proxy, now)
  }

  ghost predicate Sound(r: Registry, now: Time) {
    && Keyed(r) && AllReachable(r.proxies, now) && AllReachable(r.banned, now)
    && CallsReachable(r.pending, now)
  }

  // No earlier than now; what comes in is reachable, what is finished has begun, and an event can
  // happen to the entry it is for.
  ghost predicate Allowed(r: Registry, c: Change, now: Time) {
    && now <= c.at
    && (c.TestRoom? || c.TestKey? ==> Reachable(c.proxy, c.at))
    && (c.Finish? ==> c.call in r.pending)
    && (c.Record? ==> c.event.at == c.at && (c.key in r.proxies ==> Enabled(r.proxies[c.key], c.event)))
  }

  lemma LaterSound(r: Registry, now: Time, later: Time)
    requires Sound(r, now) && now <= later
    ensures Sound(r, later)
  {
    LaterReachable(r.proxies, now, later);
    LaterReachable(r.banned, now, later);
    forall call | call in r.pending ensures Reachable(call.proxy, later) {
      ReachableLater(call.proxy, now, later);
    }
  }

  lemma RecordKeepsReachable(pool: ProxyMap, key: string, e: Event)
    requires AllReachable(pool, e.at) && (key in pool ==> Enabled(pool[key], e))
    ensures AllReachable(Updated(pool, key, e), e.at)
  {
    UpdateKeepsReachable(pool, key, e, e.at);
  }

  lemma FinishKeepsReachable(r: Registry, call: Pending, now: Time)
    requires AllReachable(r.proxies, now) && AllReachable(r.banned, now) && CallsReachable(r.pending, now)
    requires call in r.pending
    ensures AllReachable(Finished(r, call).proxies, now) && AllReachable(Finished(r, call).banned, now)
    ensures CallsReachable(Finished(r, call).pending, now)
  {
    hide Reachable, Key;
    assert Reachable(call.proxy, now);
    forall other | other in r.pending - multiset{call} ensures other in r.pending {
    }
  }

  lemma BeginKeepsReachable(pending: multiset<Pending>, call: Pending, now: Time)
    requires CallsReachable(pending, now) && Reachable(call.proxy, now)
    ensures CallsReachable(pending + multiset{call}, now)
  {
    hide Reachable;
  }

  lemma ChangeKeepsReachable(r: Registry, cap: nat, c: Change)
    requires AllReachable(r.proxies, c.at) && AllReachable(r.banned, c.at) && CallsReachable(r.pending, c.at)
    requires Allowed(r, c, c.at)
    ensures AllReachable(After(r, cap, c).proxies, c.at) && AllReachable(After(r, cap, c).banned, c.at)
    ensures CallsReachable(After(r, cap, c).pending, c.at)
  {
    hide Reachable, Key, Bannable, WorthKeeping, Updated, Enabled, CallsReachable, Finished;
    match c
    case TestRoom(p, at) => BeginKeepsReachable(r.pending, Inserting(p), at);
    case TestKey(p, at) => BeginKeepsReachable(r.pending, Adding(p), at);
    case TakeOut(key, at) =>
      if key in r.proxies {
        BeginKeepsReachable(r.pending, Banning(key, r.proxies[key]), at);
      }
    case TakeBack(key, at) =>
      if key in r.banned {
        BeginKeepsReachable(r.pending, Unbanning(r.banned[key]), at);
      }
    case Finish(call, at) => FinishKeepsReachable(r, call, at);
    case CleanUp(_) =>
    case Record(key, e, _) => RecordKeepsReachable(r.proxies, key, e);
  }

  /** Every operation keeps both lists, and what is under way, reachable and keyed. */
  lemma ChangeKeepsSound(r: Registry, cap: nat, c: Change, now: Time)
    requires Sound(r, now) && Allowed(r, c, now)
    ensures Sound(After(r, cap, c), c.at)
  {
    hide After, Keyed, Reachable, Enabled, AllReachable, CallsReachable;
    LaterSound(r, now, c.at);
    ChangeKeepsKeyed(r, cap, c);
    ChangeKeepsReachable(r, cap, c);
  }

  ghost predicate AllAllowed(r: Registry, cap: nat, cs: seq<Change>, now: Time)
    decreases |cs|
  {
    cs == [] || (Allowed(r, cs[0], now) && AllAllowed(After(r, cap, cs[0]), cap, cs[1..], cs[0].at))
  }

  function LastChange(cs: seq<Change>, now: Time): Time {
    if cs == [] then now else LastChange(cs[1..], cs[0].at)
  }

  /** Over any history every pool entry and every banned proxy is reachable and sits under its own key. */
  lemma {:induction false} HistoryKeepsSound(r: Registry, cap: nat, cs: seq<Change>, now: Time)
    requires Sound(r, now) && AllAllowed(r, cap, cs, now)
    ensures Sound(AfterAll(r, cap, cs), LastChange(cs, now))
    decreases |cs|
  {
    hide After, Sound, Allowed;
    if cs == [] {
    } else {
      ChangeKeepsSound(r, cap, cs[0], now);
      HistoryKeepsSound(After(r, cap, cs[0]), cap, cs[1..], cs[0].at);
    }
  }
}
