/**
 HTTPS is meant to go through TLS-clean proxies. Where the handlers keep to that when everything runs at
 once, exactly when they do not, and inputs on which they do not.
 */
module TlsPolicy {
  import opened Words
  import opened Wrappers
  import opened Ordering
  import opened Proxies
  import opened Selection
  import opened State
  import opened Interleaving
  import Gateway
  import Handler
  import Lifecycle
  import Membership
  import Sticky
  import WarmPool

  predicate IsClean(p: ProxyData) {
    p.record.tlsClean == Some(true)
  }

  // A TLS-clean proxy that selection could take now.
  ghost predicate CleanCandidate(pool: ProxyMap, excluded: seq<string>, now: Time) {
    exists k :: k in pool &&
      (TlsTierFilter(Verified, excluded, now)(pool[k]) || TlsTierFilter(PresumedAlive, excluded, now)(pool[k]))
  }

  // ---- The pick ----

  // The key the attempt is bound to: the sticky one at first, the backup on the first retry.
  function Pinned(w: World, id: nat): Option<string>
    requires InLoop(w, id)
  {
    if AttemptOf(w, id) == 0 then w.tasks[id].sticky
    else if AttemptOf(w, id) == 1 && w.tasks[id].stage.Prepared? then w.tasks[id].stage.backup
    else None
  }

  lemma FreePickIsClean(choice: Option<ProxyData>, pool: ProxyMap, order: seq<string>, excluded: seq<string>, now: Time)
    requires IsEnumeration(order, pool) && IsBestTlsChoice(choice, pool, order, excluded, now)
    requires CleanCandidate(pool, excluded, now)
    ensures choice.Some? && IsClean(choice.value)
  {
    hide IsBestTlsChoice;
    var k :| k in pool &&
      (TlsTierFilter(Verified, excluded, now)(pool[k]) || TlsTierFilter(PresumedAlive, excluded, now)(pool[k]));
    TlsChoiceIsClean(choice, pool, order, excluded, now, pool[k]);
  }

  /**
   While a TLS-clean candidate exists, what an HTTPS attempt picks is TLS-clean if and only if it is bound
   to no key, or that key is in the pool and its entry is clean at that moment.
   */
  lemma HttpsPick(w: World, id: nat, order: seq<string>, excluded: seq<string>, choice: Option<ProxyData>)
    requires InLoop(w, id) && MayPick(w, id, order, excluded, choice) && w.tasks[id].https
    requires CleanCandidate(w.pools.proxies, excluded, w.now)
    ensures (choice.Some? && IsClean(choice.value)) <==>
      (Pinned(w, id).Some? ==> CleanEntry(w.pools.proxies, Pinned(w, id).value))
    ensures Pinned(w, id).Some? ==> choice == Handler.Lookup(w.pools.proxies, Pinned(w, id).value)
  {
    hide IsBestChoice, IsBestTlsChoice, CleanCandidate;
    if Pinned(w, id) == None {
      FreePickIsClean(choice, w.pools.proxies, order, excluded, w.now);
    }
  }

  // ---- The backup ----

  ghost predicate AtBackup(w: World, id: nat, key: string) {
    && InLoop(w, id) && AttemptOf(w, id) == 1 && w.tasks[id].https && w.tasks[id].stage.Ready?
    && Sticky.Backup(w.sessions, w.tasks[id].peer) == Some(key)
  }

  /** Nobody looks at the backup's verdict: an HTTPS retry may go through a proxy that is not clean. */
  lemma BackupMayBeDirty(w: World, cfg: Config, id: nat, key: string, order: seq<string>)
    requires AtBackup(w, id, key) && IsEnumeration(order, w.pools.proxies)
    requires key in w.pools.proxies && !IsClean(w.pools.proxies[key])
    ensures Enabled(w, AskBackup(id), cfg)
    ensures var v := Step(w, AskBackup(id), cfg);
      Enabled(v, Pick(id, order, [], Some(v.pools.proxies[key])), cfg) && v.pools == w.pools
  {
    var v := Step(w, AskBackup(id), cfg);
    assert Handler.Lookup(v.pools.proxies, key) == Some(v.pools.proxies[key]);
  }

  // ---- Waking up ----

  // An empty pick only sets the handler waiting.
  lemma PickLeavesShared(w: World, id: nat, order: seq<string>, cfg: Config)
    requires Enabled(w, Pick(id, order, [], None), cfg)
    ensures var v := Step(w, Pick(id, order, [], None), cfg);
      v == w.(tasks := w.tasks[id := w.tasks[id].(stage := Waiting)])
  {
    hide MayPick;
  }

  lemma FewAreAmongBest(p: ProxyData, pool: ProxyMap, order: seq<string>, f: Filter, now: Time)
    requires forall k :: k in order ==> k in pool
    requires p in Eligible(pool, order, f) && |Eligible(pool, order, f)| <= TOP_N
    ensures AmongBest(p, pool, order, f, now)
  {
    hide StableSort;
    var all := Eligible(pool, order, f);
    StableSortCorrect(all, ScoreAt(now));
    assert p in multiset(all) && p in multiset(StableSort(all, ScoreAt(now)));
    var i :| 0 <= i < |StableSort(all, ScoreAt(now))| && StableSort(all, ScoreAt(now))[i] == p;
    assert ScoreAt(now)(StableSort(all, ScoreAt(now))[i]) == ScoreAt(now)(p);
  }

  /**
   A handler that has waited takes any best choice, HTTPS or not. While Verified proxies are eligible it
   is sure to get a clean one if and only if all that are among the 10 best of them are clean.
   */
  lemma WokenIsCleanExactly(pool: ProxyMap, order: seq<string>, excluded: seq<string>, now: Time)
    requires IsEnumeration(order, pool) && Eligible(pool, order, TierFilter(Verified, excluded, now)) != []
    ensures
      (forall choice :: IsBestChoice(choice, pool, order, excluded, now) ==>
         choice.Some? && IsClean(choice.value)) <==>
      (forall p :: AmongBest(p, pool, order, TierFilter(Verified, excluded, now), now) ==> IsClean(p))
  {
    hide AmongBest;
    if forall choice :: IsBestChoice(choice, pool, order, excluded, now) ==> choice.Some? && IsClean(choice.value) {
      forall p | AmongBest(p, pool, order, TierFilter(Verified, excluded, now), now) ensures IsClean(p) {
        assert IsBestChoice(Some(p), pool, order, excluded, now);
      }
    }
  }

  /**
   That happens while clean candidates exist: a first retry whose backup has left the pool picks nothing,
   waits, and may be given any of few Verified proxies, clean or not.
   */
  lemma WokenMayBeDirty(w: World, cfg: Config, id: nat, key: string, order: seq<string>, dirty: ProxyData)
    requires |w.tasks| == |w.gate.handlers| && InLoop(w, id) && AttemptOf(w, id) == 1 && w.tasks[id].https
    requires w.tasks[id].stage == Prepared(Some(key)) && key !in w.pools.proxies
    requires IsEnumeration(order, w.pools.proxies)
    requires dirty in Eligible(w.pools.proxies, order, TierFilter(Verified, [], w.now)) && !IsClean(dirty)
    requires |Eligible(w.pools.proxies, order, TierFilter(Verified, [], w.now))| <= TOP_N
    ensures Enabled(w, Pick(id, order, [], None), cfg)
    ensures var v := Step(w, Pick(id, order, [], None), cfg);
      v.pools == w.pools && Enabled(v, Wake(id, order, [], Some(dirty)), cfg)
  {
    hide AmongBest, StableSort, IsBestTlsChoice, PoolsAfter, SessionsAfter, WarmAfter, GateAfter;
    FewAreAmongBest(dirty, w.pools.proxies, order, TierFilter(Verified, [], w.now), w.now);
    assert Handler.Lookup(w.pools.proxies, key) == None;
    PickLeavesShared(w, id, order, cfg);
  }

  // ---- Between the check of the sticky proxy and its use ----

  // The operations that take a clean entry away or replace it by one that is not.
  predicate Soils(r: Membership.Registry, c: Membership.Change, key: string)
    requires key in r.proxies
  {
    match c
    case TakeOut(k, _) => k == key && Bannable(key)
    case Finish(call, _) => (call.Adding? || call.Unbanning?) && Key(call.proxy) == key && !IsClean(call.proxy)
    case CleanUp(at) => !WorthKeeping(r.proxies[key], at)
    case Record(k, e, _) => k == key && e.JudgeTls? && !e.clean
    case _ => false
  }

  lemma EventKeepsVerdict(p: ProxyData, e: Lifecycle.Event)
    requires IsClean(p)
    ensures IsClean(Lifecycle.Apply(p, e)) <==> !(e.JudgeTls? && !e.clean)
  {
  }

  lemma FinishStaysCleanExactly(r: Membership.Registry, call: Membership.Pending, at: Time, key: string)
    requires CleanEntry(r.proxies, key)
    ensures CleanEntry(Membership.Finished(r, call).proxies, key) <==> !Soils(r, Membership.Finish(call, at), key)
  {
    hide Key, Bannable, WorthKeeping;
  }

  /**
   A clean entry of the pool stays a clean entry if and only if the operation is none of these: the
   removal of a ban, the put of an addition or unban with a record that is not clean, a cleanup that drops
   it, or a verdict against it.
   */
  lemma {:induction false} StaysCleanExactly(r: Membership.Registry, cap: nat, c: Membership.Change, key: string)
    requires CleanEntry(r.proxies, key)
    ensures CleanEntry(Membership.After(r, cap, c).proxies, key) <==> !Soils(r, c, key)
  {
    hide Key, Bannable, WorthKeeping, Lifecycle.Apply, Membership.Finished;
    match c
    case TestRoom(_, _) =>
    case TestKey(_, _) =>
    case TakeOut(_, _) =>
    case TakeBack(_, _) =>
    case Finish(call, at) => FinishStaysCleanExactly(r, call, at, key);
    case CleanUp(_) =>
    case Record(_, e, _) => EventKeepsVerdict(r.proxies[key], e);
  }

  ghost predicate SoilsStep(w: World, a: Action, key: string)
    requires key in w.pools.proxies
  {
    a.Change? && Soils(w.pools, a.change, key)
  }

  lemma RecordStaysClean(w: World, k: string, e: Lifecycle.Event, key: string)
    requires CleanEntry(w.pools.proxies, key) && !e.JudgeTls?
    ensures CleanEntry(Recorded(w, k, e).proxies, key)
  {
    StaysCleanExactly(w.pools, 0, Membership.Record(k, e, w.now), key);
  }

  lemma PoolsStayCleanExactly(w: World, a: Action, cfg: Config, key: string)
    requires CleanEntry(w.pools.proxies, key) && Enabled(w, a, cfg)
    ensures CleanEntry(PoolsAfter(w, a, cfg).proxies, key) <==> !SoilsStep(w, a, key)
  {
    hide Soils, CleanEntry, MayPick, Recorded, Membership.After, Gateway.CanMove, Handler.Milliseconds, Key;
    if a.Change? {
      StaysCleanExactly(w.pools, a.cap, a.change, key);
    } else if a.Succeed? {
      var s := w.tasks[a.id].stage;
      RecordStaysClean(w, Key(s.proxy), Lifecycle.Success(Handler.Milliseconds(w.now - s.since), w.now), key);
    } else if a.Fail? {
      RecordStaysClean(w, Key(w.tasks[a.id].stage.proxy), Lifecycle.Failure(w.now), key);
    } else {
      assert PoolsAfter(w, a, cfg) == w.pools;
    }
  }

  lemma StepStaysCleanExactly(w: World, a: Action, cfg: Config, key: string)
    requires CleanEntry(w.pools.proxies, key) && Enabled(w, a, cfg)
    ensures CleanEntry(Step(w, a, cfg).pools.proxies, key) <==> !SoilsStep(w, a, key)
  {
    hide Enabled, GateAfter, TasksAfter, PoolsAfter, SessionsAfter, WarmAfter, SoilsStep, CleanEntry;
    PoolsStayCleanExactly(w, a, cfg, key);
  }

  // Clean at the beginning and after every step.
  ghost predicate CleanThroughout(w: World, actions: seq<Action>, cfg: Config, key: string)
    requires ValidRun(w, actions, cfg)
    decreases |actions|
  {
    CleanEntry(w.pools.proxies, key) &&
    (actions == [] || CleanThroughout(Step(w, actions[0], cfg), actions[1..], cfg, key))
  }

  ghost predicate NothingSoils(w: World, actions: seq<Action>, cfg: Config, key: string)
    requires ValidRun(w, actions, cfg)
    decreases |actions|
  {
    actions == [] ||
    ((key in w.pools.proxies ==> !SoilsStep(w, actions[0], key))
     && NothingSoils(Step(w, actions[0], cfg), actions[1..], cfg, key))
  }

  /** Over any run an entry that is clean stays clean throughout if and only if no step is one of those. */
  lemma {:induction false} StaysCleanThroughoutExactly(w: World, actions: seq<Action>, cfg: Config, key: string)
    requires CleanEntry(w.pools.proxies, key) && ValidRun(w, actions, cfg)
    ensures CleanThroughout(w, actions, cfg, key) <==> NothingSoils(w, actions, cfg, key)
    ensures NothingSoils(w, actions, cfg, key) ==> CleanEntry(Run(w, actions, cfg).pools.proxies, key)
    decreases |actions|
  {
    hide Enabled, Step, SoilsStep, CleanEntry;
    if actions == [] {
    } else {
      assert key in w.pools.proxies by {
        CleanIsIn(w.pools.proxies, key);
      }
      StepStaysCleanExactly(w, actions[0], cfg, key);
      if !SoilsStep(w, actions[0], key) {
        StaysCleanThroughoutExactly(Step(w, actions[0], cfg), actions[1..], cfg, key);
      }
    }
  }

  lemma CleanIsIn(pool: ProxyMap, key: string)
    requires CleanEntry(pool, key)
    ensures key in pool
  {
  }

  lemma {:induction false} OthersLeaveTask(w: World, actions: seq<Action>, cfg: Config, id: nat)
    requires ValidRun(w, actions, cfg) && id < |w.tasks| == |w.gate.handlers|
    requires forall a :: a in actions ==> Actor(a) != Some(id)
    ensures var v := Run(w, actions, cfg);
      && id < |v.tasks| == |v.gate.handlers|
      && v.tasks[id] == w.tasks[id] && v.gate.handlers[id] == w.gate.handlers[id]
    decreases |actions|
  {
    hide Enabled, Step;
    if actions == [] {
    } else {
      assert actions[0] in actions;
      OthersUntouched(w, actions[0], cfg);
      OthersLeaveTask(Step(w, actions[0], cfg), actions[1..], cfg, id);
    }
  }

  // The sticky proxy has passed its check, and the handler is about to pick.
  ghost predicate StickyChecked(w: World, id: nat, key: string) {
    && InLoop(w, id) && AttemptOf(w, id) == 0 && w.tasks[id].https
    && w.tasks[id].stage.Ready? && w.tasks[id].sticky == Some(key)
  }

  /**
   So the check of the sticky proxy protects the attempt exactly as far as nothing soils its entry
   before the pick: whatever the others do in between, if none of their steps does, the pick is clean.
   */
  lemma StickyPick(w: World, actions: seq<Action>, cfg: Config, id: nat, key: string,
                   order: seq<string>, excluded: seq<string>, choice: Option<ProxyData>)
    requires StickyChecked(w, id, key) && CleanEntry(w.pools.proxies, key)
    requires ValidRun(w, actions, cfg) && forall a :: a in actions ==> Actor(a) != Some(id)
    requires var v := Run(w, actions, cfg); InLoop(v, id) && MayPick(v, id, order, excluded, choice)
    ensures var v := Run(w, actions, cfg);
      && choice == Handler.Lookup(v.pools.proxies, key)
      && ((choice.Some? && IsClean(choice.value)) <==> CleanEntry(v.pools.proxies, key))
      && (NothingSoils(w, actions, cfg, key) ==> choice.Some? && IsClean(choice.value))
  {
    hide IsBestChoice, IsBestTlsChoice, IsEnumeration, NothingSoils, Run;
    OthersLeaveTask(w, actions, cfg, id);
    StaysCleanThroughoutExactly(w, actions, cfg, key);
  }

  ghost predicate AtStickyCheck(w: World, id: nat, key: string) {
    InLoop(w, id) && AttemptOf(w, id) == 0 && w.tasks[id].https && w.tasks[id].stage == Judging(key)
  }

  function Verdict(key: string, now: Time): Action {
    Change(Membership.Record(key, Lifecycle.JudgeTls(false, now), now), 0)
  }

  lemma CheckPasses(w: World, cfg: Config, id: nat, key: string)
    requires AtStickyCheck(w, id, key) && CleanEntry(w.pools.proxies, key)
    ensures Enabled(w, JudgeSticky(id), cfg)
    ensures var v := Step(w, JudgeSticky(id), cfg);
      StickyChecked(v, id, key) && v.pools == w.pools && v.now == w.now
  {
    hide MayPick;
  }

  lemma VerdictArrives(w: World, cfg: Config, key: string)
    requires CleanEntry(w.pools.proxies, key) && |w.tasks| == |w.gate.handlers|
    ensures Enabled(w, Verdict(key, w.now), cfg)
    ensures var u := Step(w, Verdict(key, w.now), cfg);
      && u == w.(pools := u.pools) && u.pools.proxies.Keys == w.pools.proxies.Keys
      && !IsClean(u.pools.proxies[key])
  {
    hide MayPick;
    UpdateKeepsSet(w.pools.proxies, key, Lifecycle.JudgeTls(false, w.now));
  }

  lemma UpdateKeepsSet(pool: ProxyMap, key: string, e: Lifecycle.Event)
    ensures Updated(pool, key, e).Keys == pool.Keys
  {
  }

  lemma StickyIsPicked(w: World, cfg: Config, id: nat, key: string, order: seq<string>)
    requires StickyChecked(w, id, key) && key in w.pools.proxies && IsEnumeration(order, w.pools.proxies)
    ensures Enabled(w, Pick(id, order, [], Some(w.pools.proxies[key])), cfg)
  {
    hide IsBestChoice, IsBestTlsChoice;
    assert Handler.Lookup(w.pools.proxies, key) == Some(w.pools.proxies[key]);
  }

  /** And something may: a verdict that comes in between the check and the pick goes unnoticed. */
  lemma StickyTurnsDirty(w: World, cfg: Config, id: nat, key: string, order: seq<string>)
    requires AtStickyCheck(w, id, key) && IsEnumeration(order, w.pools.proxies)
    requires CleanEntry(w.pools.proxies, key)
    ensures Enabled(w, JudgeSticky(id), cfg)
    ensures var v := Step(w, JudgeSticky(id), cfg);
      && StickyChecked(v, id, key) && Enabled(v, Verdict(key, w.now), cfg)
      && var u := Step(v, Verdict(key, w.now), cfg);
      && key in u.pools.proxies && !IsClean(u.pools.proxies[key])
      && Enabled(u, Pick(id, order, [], Some(u.pools.proxies[key])), cfg)
  {
    hide Enabled, Step;
    CheckPasses(w, cfg, id, key);
    var v := Step(w, JudgeSticky(id), cfg);
    VerdictArrives(v, cfg, key);
    StickyIsPicked(Step(v, Verdict(key, w.now), cfg), cfg, id, key, order);
  }

  /** The two looks of the check are one, if nothing comes between them: the whole check of one handler alone. */
  lemma ChecksInARow(t: Task, pool: ProxyMap)
    requires t.stage.Answered? && t.sticky == None
    ensures var u := CheckedSticky(t, pool);
      (if u.stage.Judging? then (if CleanEntry(pool, u.stage.key) then Some(u.stage.key) else None) else u.sticky)
      == Handler.UsableSticky(pool, t.stage.remembered, t.https)
  {
  }
}
