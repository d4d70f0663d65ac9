/**
 The whole gateway at once: any number of connection handlers, the health checks, the REST calls, the
 sticky sessions' cleanup and the warm pool's refresh, all interleaved over the shared components. The
 handlers' control flow and the counters are those of Gateway; here every step also does what it does to
 the pool, the sessions and the warm connections.
 */
module Interleaving {
  import opened Words
  import opened Wrappers
  import opened Proxies
  import opened Lifecycle
  import opened Selection
  import opened State
  import Gateway
  import Handler
  import Membership
  import Sticky
  import WarmPool

  // What one handler is doing.
  datatype Stage =
    | Fresh
    | Expiring
    | Answered(remembered: Option<string>)
    | Judging(key: string)
    | Ready
    | Prepared(backup: Option<string>)
    | Waiting
    | Picked(proxy: ProxyData, since: Time)
    | Connecting(proxy: ProxyData, since: Time, conn: Option<WarmPool.Conn>)
    | Failing
    | Accepted(key: string, conn: Option<WarmPool.Conn>)
    | Missing(key: string, conn: Option<WarmPool.Conn>, since: Time)
    | Serving(conn: Option<WarmPool.Conn>)
    | Over

  // `asked` counts its requests for a warm connection.
  datatype Task = Task(peer: Sticky.Client, https: bool, sticky: Option<string>, stage: Stage, asked: nat)

  datatype World = World(
    gate: Gateway.World,
    tasks: seq<Task>,
    pools: Membership.Registry,
    sessions: Sticky.Sessions,
    warm: WarmPool.History,
    now: Time)

  datatype Config = Config(maxConnections: U64, warmSize: nat, maxAge: nat)

  // Every step is one operation on one shared map or counter, or one pass over a map.
  // Caps, TTLs and excluded countries may be reconfigured at any time, so they come with the step that reads them.
  datatype Action =
    | Elapse(later: Time)
    | Accept(peer: Sticky.Client, https: bool)
    | Reject
    | DropEarly(id: nat)
    | CountRequest(id: nat)
    | CountActive(id: nat)
    | AskSession(id: nat, ttl: nat)
    | DropSession(id: nat)
    | CheckSticky(id: nat)
    | JudgeSticky(id: nat)
    | AskBackup(id: nat)
    | Pick(id: nat, order: seq<string>, excluded: seq<string>, choice: Option<ProxyData>)
    | Wake(id: nat, order: seq<string>, excluded: seq<string>, choice: Option<ProxyData>)
    | TimeOut(id: nat)
    | TakeWarm(id: nat, alive: WarmPool.Conn -> bool)
    | Succeed(id: nat)
    | Fail(id: nat)
    | Rotate(id: nat)
    | Remember(id: nat)
    | InsertSession(id: nat)
    | Exhaust(id: nat)
    | Uncount(id: nat)
    | Release(id: nat)
    | Change(change: Membership.Change, cap: nat)
    | Session(op: Sticky.Op, ttl: nat)
    | Warm(move: WarmPool.Move)

  // The step's part in the protocol of handlers, permits and counters.
  function GateAction(a: Action): Option<Gateway.Action> {
    match a
    case Accept(_, _) => Some(Gateway.Accept)
    case Reject => Some(Gateway.Reject)
    case DropEarly(id) => Some(Gateway.Act(id, Gateway.DropEarly))
    case CountRequest(id) => Some(Gateway.Act(id, Gateway.CountRequest))
    case CountActive(id) => Some(Gateway.Act(id, Gateway.CountActive))
    case Wake(id, _, _, choice) => if choice == None then Some(Gateway.Act(id, Gateway.NoProxy)) else None
    case TimeOut(id) => Some(Gateway.Act(id, Gateway.NoProxy))
    case Succeed(id) => Some(Gateway.Act(id, Gateway.AttemptSucceeds))
    case Rotate(id) => Some(Gateway.Act(id, Gateway.AttemptFails))
    case Exhaust(id) => Some(Gateway.Act(id, Gateway.Exhausted))
    case Uncount(id) => Some(Gateway.Act(id, Gateway.Uncount))
    case Release(id) => Some(Gateway.Act(id, Gateway.Release))
    case _ => None
  }

  predicate GateEnabled(w: World, a: Action) {
    GateAction(a).Some? ==> Gateway.Enabled(w.gate, GateAction(a).value)
  }

  function GateAfter(w: World, a: Action): Gateway.World
    requires GateEnabled(w, a)
  {
    if GateAction(a).Some? then Gateway.Step(w.gate, GateAction(a).value) else w.gate
  }

  // The handler is in its retry loop with an attempt left.
  predicate InLoop(w: World, id: nat) {
    id < |w.tasks| == |w.gate.handlers| && w.gate.handlers[id].phase.Trying?
    && w.gate.handlers[id].phase.attempt < Gateway.MAX_RETRIES
  }

  function AttemptOf(w: World, id: nat): nat
    requires InLoop(w, id)
  {
    w.gate.handlers[id].phase.attempt
  }

  ghost predicate MayPick(w: World, id: nat, order: seq<string>, excluded: seq<string>, choice: Option<ProxyData>)
    requires InLoop(w, id)
  {
    var t, i := w.tasks[id], AttemptOf(w, id);
    && (if i == 1 then t.stage.Prepared? else t.stage.Ready?)
    && IsEnumeration(order, w.pools.proxies)
    && Handler.IsPick(choice, i, t.https, t.sticky, if t.stage.Prepared? then t.stage.backup else None,
                      w.pools.proxies, order, excluded, w.now)
  }

  ghost predicate Enabled(w: World, a: Action, cfg: Config) {
    GateEnabled(w, a) && |w.tasks| == |w.gate.handlers| &&
    match a
    case Elapse(later) => w.now <= later
    case AskSession(id, _) => InLoop(w, id) && w.tasks[id].stage.Fresh?
    case DropSession(id) => InLoop(w, id) && w.tasks[id].stage.Expiring?
    case CheckSticky(id) => InLoop(w, id) && w.tasks[id].stage.Answered?
    case JudgeSticky(id) => InLoop(w, id) && w.tasks[id].stage.Judging?
    case AskBackup(id) => InLoop(w, id) && AttemptOf(w, id) == 1 && w.tasks[id].stage.Ready?
    case Pick(id, order, excluded, choice) => InLoop(w, id) && MayPick(w, id, order, excluded, choice)
    case Wake(id, order, excluded, choice) =>
      InLoop(w, id) && w.tasks[id].stage.Waiting? && IsEnumeration(order, w.pools.proxies)
      && IsBestChoice(choice, w.pools.proxies, order, excluded, w.now)
    case TimeOut(id) => w.tasks[id].stage.Waiting?
    case TakeWarm(id, _) => InLoop(w, id) && w.tasks[id].stage.Picked?
    case Succeed(id) => w.tasks[id].stage.Connecting?
    case Fail(id) => InLoop(w, id) && w.tasks[id].stage.Connecting?
    case Rotate(id) => w.tasks[id].stage.Failing?
    case Remember(id) => id < |w.tasks| && w.tasks[id].stage.Accepted?
    case InsertSession(id) => id < |w.tasks| && w.tasks[id].stage.Missing?
    case Exhaust(id) => w.tasks[id].stage.Ready?
    case Uncount(id) => !w.tasks[id].stage.Accepted? && !w.tasks[id].stage.Missing?
    case Change(c, _) => c.at == w.now && Membership.Allowed(w.pools, c, w.now)
    case Warm(m) =>
      !m.Take? && m.at == w.now && (m.Connect? ==> |w.warm.account.Queue(m.key)| < cfg.warmSize)
    case _ => true
  }

  // The connection a take of this key hands out.
  function Given(h: WarmPool.History, key: string, now: Time, maxAge: nat, alive: WarmPool.Conn -> bool):
    Option<WarmPool.Conn>
  {
    if key in h.account.queues then WarmPool.TakeFrom(h.account.queues[key], now, maxAge, alive).conn else None
  }

  // The handler a step belongs to.
  function Actor(a: Action): Option<nat> {
    match a
    case DropEarly(id) => Some(id)
    case CountRequest(id) => Some(id)
    case CountActive(id) => Some(id)
    case AskSession(id, _) => Some(id)
    case DropSession(id) => Some(id)
    case CheckSticky(id) => Some(id)
    case JudgeSticky(id) => Some(id)
    case AskBackup(id) => Some(id)
    case Pick(id, _, _, _) => Some(id)
    case Wake(id, _, _, _) => Some(id)
    case TimeOut(id) => Some(id)
    case TakeWarm(id, _) => Some(id)
    case Succeed(id) => Some(id)
    case Fail(id) => Some(id)
    case Rotate(id) => Some(id)
    case Remember(id) => Some(id)
    case InsertSession(id) => Some(id)
    case Exhaust(id) => Some(id)
    case Uncount(id) => Some(id)
    case Release(id) => Some(id)
    case _ => None
  }

  predicate CleanEntry(pool: ProxyMap, key: string) {
    key in pool && pool[key].record.tlsClean == Some(true)
  }

  // The first look at the pool: a key that is gone is forgotten, and HTTPS takes a second look.
  function CheckedSticky(t: Task, pool: ProxyMap): Task
    requires t.stage.Answered?
  {
    match t.stage.remembered
    case None => t.(stage := Ready)
    case Some(key) =>
      if key !in pool then t.(stage := Ready)
      else if t.https then t.(stage := Judging(key))
      else t.(sticky := Some(key), stage := Ready)
  }

  // What the step makes of its handler.
  function TaskAfter(w: World, a: Action, cfg: Config): Task
    requires Enabled(w, a, cfg) && Actor(a).Some? && Actor(a).value < |w.tasks|
  {
    var t := w.tasks[Actor(a).value];
    match a
    case DropEarly(_) => t.(stage := Over)
    case AskSession(_, ttl) =>
      t.(stage :=
        if t.peer in w.sessions && Sticky.ExpiredForGet(w.sessions[t.peer], ttl, w.now) then Expiring
        else Answered(Sticky.Answer(w.sessions, ttl, t.peer, w.now)))
    case DropSession(_) => t.(stage := Answered(None))
    case CheckSticky(_) => CheckedSticky(t, w.pools.proxies)
    case JudgeSticky(_) =>
      t.(sticky := if CleanEntry(w.pools.proxies, t.stage.key) then Some(t.stage.key) else None, stage := Ready)
    case AskBackup(_) => t.(stage := Prepared(Sticky.Backup(w.sessions, t.peer)))
    case Pick(_, _, _, choice) => t.(stage := if choice.Some? then Picked(choice.value, w.now) else Waiting)
    case Wake(_, _, _, choice) => t.(stage := if choice.Some? then Picked(choice.value, w.now) else Over)
    case TimeOut(_) => t.(stage := Over)
    case TakeWarm(_, alive) =>
      var s := t.stage;
      t.(stage := Connecting(s.proxy, s.since, Given(w.warm, Key(s.proxy), w.now, cfg.maxAge, alive)),
         asked := t.asked + 1)
    case Succeed(_) => t.(stage := Accepted(Key(t.stage.proxy), t.stage.conn))
    case Fail(_) => t.(stage := Failing)
    case Rotate(_) => t.(stage := Ready)
    case Remember(_) =>
      t.(stage := if t.peer in w.sessions then Serving(t.stage.conn) else Missing(t.stage.key, t.stage.conn, w.now))
    case InsertSession(_) => t.(stage := Serving(t.stage.conn))
    case Exhaust(_) => t.(stage := Over)
    case Uncount(_) => t.(stage := Over)
    case _ => t
  }

  function TasksAfter(w: World, a: Action, cfg: Config): seq<Task>
    requires Enabled(w, a, cfg)
  {
    if a.Accept? then w.tasks + [Task(a.peer, a.https, None, Fresh, 0)]
    else if Actor(a).Some? && Actor(a).value < |w.tasks| then w.tasks[Actor(a).value := TaskAfter(w, a, cfg)]
    else w.tasks
  }

  function Recorded(w: World, key: string, e: Event): Membership.Registry {
    Membership.After(w.pools, 0, Membership.Record(key, e, w.now))
  }

  function PoolsAfter(w: World, a: Action, cfg: Config): Membership.Registry
    requires Enabled(w, a, cfg)
  {
    match a
    case Change(c, cap) => Membership.After(w.pools, cap, c)
    case Succeed(id) =>
      var s := w.tasks[id].stage;
      Recorded(w, Key(s.proxy), Success(Handler.Milliseconds(w.now - s.since), w.now))
    case Fail(id) => Recorded(w, Key(w.tasks[id].stage.proxy), Failure(w.now))
    case _ => w.pools
  }

  function SessionsAfter(w: World, a: Action, cfg: Config): Sticky.Sessions
    requires Enabled(w, a, cfg)
  {
    match a
    case DropSession(id) => w.sessions - {w.tasks[id].peer}
    case Remember(id) =>
      var t := w.tasks[id];
      if t.peer in w.sessions
      then w.sessions[t.peer := Sticky.AfterUse(Some(w.sessions[t.peer]), t.stage.key, w.now)] else w.sessions
    case InsertSession(id) =>
      var t := w.tasks[id];
      w.sessions[t.peer := Sticky.NewSession(t.stage.key, t.stage.since)]
    case Session(op, ttl) => Sticky.Step(w.sessions, ttl, op)
    case _ => w.sessions
  }

  function WarmAfter(w: World, a: Action, cfg: Config): WarmPool.History
    requires Enabled(w, a, cfg)
  {
    match a
    case TakeWarm(id, alive) =>
      WarmPool.AfterMove(w.warm, WarmPool.Move.Take(Key(w.tasks[id].stage.proxy), alive, w.now), cfg.maxAge)
    case Warm(m) => WarmPool.AfterMove(w.warm, m, cfg.maxAge)
    case _ => w.warm
  }

  function Step(w: World, a: Action, cfg: Config): World
    requires Enabled(w, a, cfg)
  {
    World(
      GateAfter(w, a),
      TasksAfter(w, a, cfg),
      PoolsAfter(w, a, cfg),
      SessionsAfter(w, a, cfg),
      WarmAfter(w, a, cfg),
      if a.Elapse? then a.later else w.now)
  }

  // Nothing accepted yet; the pool as loaded, no sessions and no warm connections.
  function Initial(cfg: Config, pools: Membership.Registry, now: Time): World {
    World(Gateway.Initial(cfg.maxConnections), [], pools, map[],
          WarmPool.History(WarmPool.Account(map[], {}, [], {}), 0, 0), now)
  }

  ghost predicate ValidRun(w: World, actions: seq<Action>, cfg: Config)
    decreases |actions|
  {
    actions == [] || (Enabled(w, actions[0], cfg) && ValidRun(Step(w, actions[0], cfg), actions[1..], cfg))
  }

  function Run(w: World, actions: seq<Action>, cfg: Config): World
    requires ValidRun(w, actions, cfg)
    decreases |actions|
  {
    if actions == [] then w else Run(Step(w, actions[0], cfg), actions[1..], cfg)
  }

  // ---- The invariant, component by component ----

  function Held(t: Task): Option<WarmPool.Conn> {
    match t.stage
    case Connecting(_, _, conn) => conn
    case Accepted(_, conn) => conn
    case Missing(_, conn, _) => conn
    case Serving(conn) => conn
    case _ => None
  }

  // A handler's stage fits its phase, and it has asked for a warm connection once per attempt.
  ghost predicate Consistent(h: Gateway.Handler, t: Task) {
    && (match h.phase
        case Started => t.stage.Fresh?
        case Counted => t.stage.Fresh?
        case Trying(i) =>
          && !t.stage.Accepted? && !t.stage.Missing? && !t.stage.Serving? && !t.stage.Over?
          && (t.stage.Fresh? || t.stage.Expiring? || t.stage.Answered? || t.stage.Judging? ==> i == 0)
          && (t.stage.Prepared? ==> i == 1)
          && (!t.stage.Ready? ==> i < Gateway.MAX_RETRIES)
        case Relaying => t.stage.Accepted? || t.stage.Missing? || t.stage.Serving?
        case _ => t.stage.Over?)
    && t.asked == h.failures + h.successes + if t.stage.Connecting? || t.stage.Failing? then 1 else 0
  }

  ghost predicate AllConsistent(w: World) {
    |w.tasks| == |w.gate.handlers| && forall i :: 0 <= i < |w.tasks| ==> Consistent(w.gate.handlers[i], w.tasks[i])
  }

  // Every connection a handler holds was handed out, and no two handlers hold the same.
  ghost predicate HeldOnce(tasks: seq<Task>, handed: seq<WarmPool.Conn>) {
    && (forall i :: 0 <= i < |tasks| && Held(tasks[i]).Some? ==> Held(tasks[i]).value in handed)
    && (forall i, j :: 0 <= i < j < |tasks| && Held(tasks[i]).Some? ==> Held(tasks[i]) != Held(tasks[j]))
  }

  // The most steps a handler may still take.
  function Remaining(h: Gateway.Handler, t: Task): (n: nat)
    ensures n <= 24
  {
    match h.phase
    case Started => 24
    case Counted => 23
    case Trying(i) => if i <= 3 then InLoopRemaining(i, t.stage) else 3
    case Relaying => if t.stage.Accepted? then 4 else if t.stage.Missing? then 3 else 2
    case GaveUp => 2
    case Leaving => 1
    case Done => 0
  }

  // A failed attempt takes five steps, and one more for the backup.
  function InLoopRemaining(i: nat, stage: Stage): (n: nat)
    requires i <= 3
    ensures n <= 22
  {
    var next := if i == 0 then 14 else if i == 1 then 8 else 3;
    match stage
    case Fresh => 22
    case Expiring => 21
    case Answered(remembered) => if remembered.Some? then 21 else 20
    case Judging(_) => 20
    case Ready => if i == 0 then 19 else if i == 1 then 14 else if i == 2 then 8 else 3
    case Prepared(_) => 13
    case Waiting => next + 4
    case Picked(_, _) => next + 3
    case Connecting(_, _, _) => next + 2
    case _ => next + 1
  }

  function Asked(t: Task): nat {
    t.asked
  }

  ghost predicate Inv(w: World, cfg: Config) {
    && Gateway.Inv(w.gate, cfg.maxConnections)
    && AllConsistent(w)
    && Membership.Sound(w.pools, w.now)
    && Sticky.BackupsDiffer(w.sessions)
    && WarmPool.Balanced(w.warm.account, cfg.warmSize, w.now, w.warm.sockets)
    && |w.warm.account.handed| <= w.warm.takes == Gateway.Sum(w.tasks, Asked)
    && HeldOnce(w.tasks, w.warm.account.handed)
  }

  lemma InitialInv(cfg: Config, pools: Membership.Registry, now: Time)
    requires Membership.Sound(pools, now)
    ensures Inv(Initial(cfg, pools, now), cfg)
  {
  }

  // ---- Every step keeps it ----

  lemma GateKept(w: World, a: Action, cfg: Config)
    requires Gateway.Inv(w.gate, cfg.maxConnections) && GateEnabled(w, a)
    ensures Gateway.Inv(GateAfter(w, a), cfg.maxConnections)
  {
    hide Gateway.Inv, Gateway.Step, Gateway.Enabled;
    if GateAction(a).Some? {
      Gateway.StepKeepsInv(w.gate, GateAction(a).value, cfg.maxConnections);
    }
  }

  lemma RecordKeepsSound(w: World, key: string, e: Event)
    requires Membership.Sound(w.pools, w.now) && e.at == w.now && !e.Restart?
    ensures Membership.Sound(Recorded(w, key, e), w.now)
  {
    hide Membership.Sound, Membership.After;
    Membership.ChangeKeepsSound(w.pools, 0, Membership.Record(key, e, w.now), w.now);
  }

  lemma PoolsKept(w: World, a: Action, cfg: Config)
    requires Membership.Sound(w.pools, w.now) && Enabled(w, a, cfg)
    ensures Membership.Sound(PoolsAfter(w, a, cfg), if a.Elapse? then a.later else w.now)
  {
    hide Membership.Sound, Membership.After, Recorded, Gateway.CanMove, MayPick, Handler.Milliseconds;
    match a
    case Elapse(later) => Membership.LaterSound(w.pools, w.now, later);
    case Change(c, cap) => Membership.ChangeKeepsSound(w.pools, cap, c, w.now);
    case Succeed(id) =>
      var s := w.tasks[id].stage;
      RecordKeepsSound(w, Key(s.proxy), Success(Handler.Milliseconds(w.now - s.since), w.now));
    case Fail(id) => RecordKeepsSound(w, Key(w.tasks[id].stage.proxy), Failure(w.now));
    case _ =>
  }

  lemma SessionsKept(w: World, a: Action, cfg: Config)
    requires Sticky.BackupsDiffer(w.sessions) && Enabled(w, a, cfg)
    ensures Sticky.BackupsDiffer(SessionsAfter(w, a, cfg))
  {
    hide GateEnabled, MayPick;
    match a
    case Session(op, ttl) =>
    case DropSession(id) =>
    case Remember(id) =>
    case InsertSession(id) =>
    case _ =>
  }

  ghost predicate WarmInv(h: WarmPool.History, size: nat, now: Time) {
    WarmPool.Balanced(h.account, size, now, h.sockets) && |h.account.handed| <= h.takes
  }

  lemma WarmKept(w: World, a: Action, cfg: Config)
    requires WarmInv(w.warm, cfg.warmSize, w.now) && Enabled(w, a, cfg)
    ensures WarmInv(WarmAfter(w, a, cfg), cfg.warmSize, if a.Elapse? then a.later else w.now)
    ensures w.warm.account.handed <= WarmAfter(w, a, cfg).account.handed
  {
    hide GateEnabled, MayPick, WarmPool.Balanced, WarmPool.AfterMove;
    var h := w.warm;
    match a
    case Elapse(later) => WarmPool.LaterKeepsBalance(h.account, cfg.warmSize, w.now, later, h.sockets);
    case Warm(m) => WarmPool.MoveKeepsBalance(h, m, cfg.warmSize, cfg.maxAge, w.now);
    case TakeWarm(id, alive) =>
      var take := WarmPool.Move.Take(Key(w.tasks[id].stage.proxy), alive, w.now);
      WarmPool.MoveKeepsBalance(h, take, cfg.warmSize, cfg.maxAge, w.now);
    case _ =>
  }

  // The handlers' part of a step: one new handler, or its own one moved.
  lemma GateHandlers(w: World, a: Action)
    requires GateEnabled(w, a)
    ensures var hs := GateAfter(w, a).handlers;
      && (a.Accept? ==> hs == w.gate.handlers + [Gateway.Handler(Gateway.Started, false, 0, 0)])
      && (Actor(a) == None && !a.Accept? ==> hs == w.gate.handlers)
      && (Actor(a).Some? && GateAction(a) == None ==> hs == w.gate.handlers)
      && (Actor(a).Some? && GateAction(a).Some? ==>
            var id := Actor(a).value;
            && GateAction(a).value.Act? && GateAction(a).value.id == id < |w.gate.handlers|
            && hs == w.gate.handlers[id := Gateway.Moved(w.gate.handlers[id], GateAction(a).value.move)])
  {
    hide Gateway.CanMove, Gateway.Moved;
  }

  lemma ActorExists(w: World, a: Action, cfg: Config)
    requires Enabled(w, a, cfg) && Actor(a).Some?
    ensures Actor(a).value < |w.tasks|
  {
    hide Gateway.CanMove, MayPick;
  }

  lemma StepBeforePick(w: World, a: Action, cfg: Config, id: nat)
    requires Enabled(w, a, cfg) && Actor(a) == Some(id) && id < |w.tasks| == |w.gate.handlers|
    requires Consistent(w.gate.handlers[id], w.tasks[id])
    requires a.AskSession? || a.DropSession? || a.CheckSticky? || a.JudgeSticky? || a.AskBackup?
    ensures Consistent(w.gate.handlers[id], TaskAfter(w, a, cfg))
    ensures Remaining(w.gate.handlers[id], TaskAfter(w, a, cfg)) < Remaining(w.gate.handlers[id], w.tasks[id])
  {
    hide GateEnabled, CleanEntry, Sticky.Answer, Sticky.ExpiredForGet;
    match a
    case AskSession(_, _) =>
    case DropSession(_) =>
    case CheckSticky(_) =>
    case JudgeSticky(_) =>
    case AskBackup(_) =>
  }

  lemma StepPicks(w: World, a: Action, cfg: Config, id: nat)
    requires Enabled(w, a, cfg) && Actor(a) == Some(id) && id < |w.tasks| == |w.gate.handlers|
    requires Consistent(w.gate.handlers[id], w.tasks[id]) && (a.Pick? || (a.Wake? && a.choice.Some?))
    ensures Consistent(w.gate.handlers[id], TaskAfter(w, a, cfg))
    ensures Remaining(w.gate.handlers[id], TaskAfter(w, a, cfg)) < Remaining(w.gate.handlers[id], w.tasks[id])
  {
    hide Handler.IsPick, IsEnumeration, IsBestChoice, Gateway.CanMove;
  }

  lemma StepConnects(w: World, a: Action, cfg: Config, id: nat)
    requires Enabled(w, a, cfg) && Actor(a) == Some(id) && id < |w.tasks| == |w.gate.handlers|
    requires Consistent(w.gate.handlers[id], w.tasks[id]) && (a.TakeWarm? || a.Fail?)
    ensures Consistent(w.gate.handlers[id], TaskAfter(w, a, cfg))
    ensures Remaining(w.gate.handlers[id], TaskAfter(w, a, cfg)) < Remaining(w.gate.handlers[id], w.tasks[id])
  {
    hide Given, GateEnabled, MayPick;
  }

  lemma StepRemembers(w: World, a: Action, cfg: Config, id: nat)
    requires Enabled(w, a, cfg) && Actor(a) == Some(id) && id < |w.tasks| == |w.gate.handlers|
    requires Consistent(w.gate.handlers[id], w.tasks[id]) && (a.Remember? || a.InsertSession?)
    ensures Consistent(w.gate.handlers[id], TaskAfter(w, a, cfg))
    ensures Remaining(w.gate.handlers[id], TaskAfter(w, a, cfg)) < Remaining(w.gate.handlers[id], w.tasks[id])
  {
    hide GateEnabled, MayPick;
  }

  lemma StepWithinPhase(w: World, a: Action, cfg: Config, id: nat)
    requires Enabled(w, a, cfg) && Actor(a) == Some(id) && id < |w.tasks| == |w.gate.handlers|
    requires Consistent(w.gate.handlers[id], w.tasks[id]) && GateAction(a) == None
    ensures Consistent(w.gate.handlers[id], TaskAfter(w, a, cfg))
    ensures Remaining(w.gate.handlers[id], TaskAfter(w, a, cfg)) < Remaining(w.gate.handlers[id], w.tasks[id])
  {
    hide Enabled, Consistent, TaskAfter, Remaining;
    match a
    case Pick(_, _, _, _) => StepPicks(w, a, cfg, id);
    case Wake(_, _, _, _) => StepPicks(w, a, cfg, id);
    case TakeWarm(_, _) => StepConnects(w, a, cfg, id);
    case Fail(_) => StepConnects(w, a, cfg, id);
    case Remember(_) => StepRemembers(w, a, cfg, id);
    case InsertSession(_) => StepRemembers(w, a, cfg, id);
    case _ => StepBeforePick(w, a, cfg, id);
  }

  lemma StepOfPhase(w: World, a: Action, cfg: Config, id: nat)
    requires Enabled(w, a, cfg) && Actor(a) == Some(id) && id < |w.tasks| == |w.gate.handlers|
    requires Consistent(w.gate.handlers[id], w.tasks[id]) && Gateway.HandlerInv(w.gate.handlers[id])
    requires GateAction(a).Some? && GateAction(a).value.Act? && GateAction(a).value.id == id
    ensures Gateway.CanMove(w.gate.handlers[id], GateAction(a).value.move)
    ensures var h := Gateway.Moved(w.gate.handlers[id], GateAction(a).value.move);
      && Consistent(h, TaskAfter(w, a, cfg))
      && Remaining(h, TaskAfter(w, a, cfg)) < Remaining(w.gate.handlers[id], w.tasks[id])
  {
    hide Handler.IsPick, IsEnumeration, IsBestChoice;
    match a
    case DropEarly(_) =>
    case CountRequest(_) =>
    case CountActive(_) =>
    case Wake(_, _, _, _) =>
    case TimeOut(_) =>
    case Succeed(_) =>
    case Rotate(_) =>
    case Exhaust(_) =>
    case Uncount(_) =>
    case Release(_) =>
  }

  // What its step makes of a handler and its stage.
  lemma OwnStep(w: World, a: Action, cfg: Config, id: nat)
    requires Enabled(w, a, cfg) && Actor(a) == Some(id) && id < |w.tasks| == |w.gate.handlers|
    requires Consistent(w.gate.handlers[id], w.tasks[id]) && Gateway.HandlerInv(w.gate.handlers[id])
    ensures id < |GateAfter(w, a).handlers|
    ensures Consistent(GateAfter(w, a).handlers[id], TaskAfter(w, a, cfg))
    ensures Remaining(GateAfter(w, a).handlers[id], TaskAfter(w, a, cfg))
            < Remaining(w.gate.handlers[id], w.tasks[id])
  {
    hide Enabled, Consistent, GateAfter, TaskAfter, Remaining;
    EnabledInGate(w, a, cfg);
    GateHandlers(w, a);
    if GateAction(a) == None {
      StepWithinPhase(w, a, cfg, id);
    } else {
      StepOfPhase(w, a, cfg, id);
    }
  }

  // A step concerns its own handler only.
  lemma OthersUntouched(w: World, a: Action, cfg: Config)
    requires Enabled(w, a, cfg)
    ensures var v := Step(w, a, cfg);
      && |v.tasks| == |v.gate.handlers| == |w.tasks| + (if a.Accept? then 1 else 0)
      && (forall i :: 0 <= i < |w.tasks| && Actor(a) != Some(i) ==>
            v.tasks[i] == w.tasks[i] && v.gate.handlers[i] == w.gate.handlers[i])
  {
    hide GateAfter, Gateway.Moved, TaskAfter, PoolsAfter, SessionsAfter, WarmAfter;
    GateHandlers(w, a);
  }

  lemma TasksKept(w: World, a: Action, cfg: Config)
    requires Enabled(w, a, cfg) && AllConsistent(w) && Gateway.Inv(w.gate, cfg.maxConnections)
    ensures AllConsistent(Step(w, a, cfg))
  {
    hide Enabled, Consistent, GateAfter, TaskAfter, PoolsAfter, SessionsAfter, WarmAfter, Gateway.Inv, Remaining;
    var v := Step(w, a, cfg);
    OthersUntouched(w, a, cfg);
    forall i | 0 <= i < |v.tasks| ensures Consistent(v.gate.handlers[i], v.tasks[i]) {
      if i < |w.tasks| {
        if Actor(a) == Some(i) {
          Gateway.HandlerOf(w.gate, i, cfg.maxConnections);
          OwnStep(w, a, cfg, i);
        }
      } else {
        NewcomerConsistent(w, a, cfg);
      }
    }
  }

  lemma NewcomerConsistent(w: World, a: Action, cfg: Config)
    requires Enabled(w, a, cfg) && a.Accept?
    ensures var v := Step(w, a, cfg);
      && |v.tasks| == |v.gate.handlers| == |w.tasks| + 1
      && Consistent(v.gate.handlers[|w.tasks|], v.tasks[|w.tasks|])
  {
  }

  // What a handler's step does to what it holds and has asked for.
  lemma OwnHolding(w: World, a: Action, cfg: Config, id: nat)
    requires Enabled(w, a, cfg) && Actor(a) == Some(id) && id < |w.tasks|
    ensures var t, u := w.tasks[id], TaskAfter(w, a, cfg);
      && Asked(u) == Asked(t) + (if a.TakeWarm? then 1 else 0)
      && (!a.TakeWarm? ==> Held(u) == None || Held(u) == Held(t))
      && (a.TakeWarm? ==> t.stage.Picked? && Held(u) == Given(w.warm, Key(t.stage.proxy), w.now, cfg.maxAge, a.alive))
  {
    hide MayPick, GateEnabled, Given, CleanEntry, Sticky.Answer, Sticky.ExpiredForGet;
  }

  // A connection handed out was nobody's before.
  lemma GivenIsNew(h: WarmPool.History, key: string, size: nat, now: Time, maxAge: nat, alive: WarmPool.Conn -> bool)
    requires WarmPool.Balanced(h.account, size, now, h.sockets)
    ensures var c := Given(h, key, now, maxAge, alive);
      c.Some? ==>
        && c.value !in h.account.handed
        && c.value in WarmPool.AfterMove(h, WarmPool.Move.Take(key, alive, now), maxAge).account.handed
  {
    hide WarmPool.TakeFrom, WarmPool.ByAge, WarmPool.Young;
    if key in h.account.queues {
      var q := h.account.queues[key];
      WarmPool.TakeCutsQueue(q, now, maxAge, alive);
      var t := WarmPool.TakeFrom(q, now, maxAge, alive);
      if t.conn.Some? {
        assert q[|t.dropped|] == t.conn.value && t.conn.value in q;
        assert t.conn.value in h.account.Queue(t.conn.value.key);
      }
    }
  }

  lemma NewcomerIsEmpty(peer: Sticky.Client, https: bool)
    ensures Held(Task(peer, https, None, Fresh, 0)) == None && Asked(Task(peer, https, None, Fresh, 0)) == 0
  {
  }

  lemma HoldingsKept(w: World, a: Action, cfg: Config)
    requires HeldOnce(w.tasks, w.warm.account.handed) && WarmInv(w.warm, cfg.warmSize, w.now)
    requires Enabled(w, a, cfg)
    ensures HeldOnce(TasksAfter(w, a, cfg), WarmAfter(w, a, cfg).account.handed)
  {
    hide Enabled, TaskAfter, Held, Given, WarmInv, WarmAfter;
    var tasks, handed := TasksAfter(w, a, cfg), WarmAfter(w, a, cfg).account.handed;
    WarmKept(w, a, cfg);
    if a.Accept? {
      NewcomerIsEmpty(a.peer, a.https);
    } else if Actor(a).Some? {
      ActorExists(w, a, cfg);
      OwnHolding(w, a, cfg, Actor(a).value);
      if a.TakeWarm? {
        TakeGives(w, a, cfg);
      }
    }
  }

  lemma TakeGives(w: World, a: Action, cfg: Config)
    requires WarmInv(w.warm, cfg.warmSize, w.now) && Enabled(w, a, cfg) && a.TakeWarm?
    ensures a.id < |w.tasks| && w.tasks[a.id].stage.Picked?
    ensures var c := Given(w.warm, Key(w.tasks[a.id].stage.proxy), w.now, cfg.maxAge, a.alive);
      c.Some? ==> c.value !in w.warm.account.handed && c.value in WarmAfter(w, a, cfg).account.handed
  {
    hide WarmPool.Balanced, WarmPool.AfterMove, Given;
    GivenIsNew(w.warm, Key(w.tasks[a.id].stage.proxy), cfg.warmSize, w.now, cfg.maxAge, a.alive);
  }

  lemma AskedKept(w: World, a: Action, cfg: Config)
    requires w.warm.takes == Gateway.Sum(w.tasks, Asked) && Enabled(w, a, cfg)
    ensures WarmAfter(w, a, cfg).takes == Gateway.Sum(TasksAfter(w, a, cfg), Asked)
  {
    hide Enabled, TaskAfter, Asked, Held, Given, WarmAfter;
    TakesAfter(w, a, cfg);
    if a.Accept? {
      NewcomerIsEmpty(a.peer, a.https);
      Gateway.SumAppend(w.tasks, Task(a.peer, a.https, None, Fresh, 0), Asked);
    } else if Actor(a).Some? {
      ActorExists(w, a, cfg);
      OwnHolding(w, a, cfg, Actor(a).value);
      Gateway.SumUpdate(w.tasks, Actor(a).value, TaskAfter(w, a, cfg), Asked);
    }
  }

  lemma TakesAfter(w: World, a: Action, cfg: Config)
    requires Enabled(w, a, cfg)
    ensures WarmAfter(w, a, cfg).takes == w.warm.takes + if a.TakeWarm? then 1 else 0
  {
    hide GateEnabled, MayPick;
    hide WarmPool.AfterTake, WarmPool.AfterRetain, WarmPool.AfterExpiry, WarmPool.AfterConnect;
  }

  lemma EnabledInGate(w: World, a: Action, cfg: Config)
    requires Enabled(w, a, cfg)
    ensures GateEnabled(w, a)
  {
  }

  /** Every step of whoever comes next keeps all the accounts. */
  lemma StepKeepsInv(w: World, a: Action, cfg: Config)
    requires Inv(w, cfg) && Enabled(w, a, cfg)
    ensures Inv(Step(w, a, cfg), cfg)
  {
    hide Enabled, GateAfter, TasksAfter, PoolsAfter, SessionsAfter, WarmAfter, AllConsistent, HeldOnce;
    hide Gateway.Inv, Membership.Sound, Sticky.BackupsDiffer, WarmPool.Balanced;
    EnabledInGate(w, a, cfg);
    GateKept(w, a, cfg);
    PoolsKept(w, a, cfg);
    SessionsKept(w, a, cfg);
    WarmKept(w, a, cfg);
    TasksKept(w, a, cfg);
    HoldingsKept(w, a, cfg);
    AskedKept(w, a, cfg);
  }

  lemma {:induction false} RunKeepsInv(w: World, actions: seq<Action>, cfg: Config)
    requires Inv(w, cfg) && ValidRun(w, actions, cfg)
    ensures Inv(Run(w, actions, cfg), cfg)
    decreases |actions|
  {
    hide Inv, Enabled, Step;
    if actions == [] {
    } else {
      StepKeepsInv(w, actions[0], cfg);
      RunKeepsInv(Step(w, actions[0], cfg), actions[1..], cfg);
    }
  }

  // ---- Single operations in a row ----

  /** With nothing in between, asking for the session and dropping an expired one are the manager's get. */
  lemma SessionAskedInARow(w: World, cfg: Config, id: nat, ttl: nat)
    requires Enabled(w, AskSession(id, ttl), cfg)
    ensures var v := Step(w, AskSession(id, ttl), cfg);
      var peer, answer := w.tasks[id].peer, Sticky.Answer(w.sessions, ttl, w.tasks[id].peer, w.now);
      && id < |v.tasks|
      && (if v.tasks[id].stage.Expiring? then
            && answer == None
            && SessionsAfterDrop(v, id) == Sticky.AfterGet(w.sessions, ttl, peer, w.now)
          else
            && v.tasks[id].stage == Answered(answer)
            && v.sessions == Sticky.AfterGet(w.sessions, ttl, peer, w.now))
  {
    hide GateEnabled, GateAfter, MayPick;
  }

  function SessionsAfterDrop(v: World, id: nat): Sticky.Sessions
    requires id < |v.tasks|
  {
    v.sessions - {v.tasks[id].peer}
  }

  lemma SessionDropped(w: World, cfg: Config, id: nat)
    requires Enabled(w, DropSession(id), cfg)
    ensures var v := Step(w, DropSession(id), cfg);
      && id < |w.tasks| && id < |v.tasks|
      && v.tasks[id].stage == Answered(None) && v.sessions == SessionsAfterDrop(w, id)
  {
    hide GateEnabled, GateAfter, MayPick;
  }

  /** And touching the session and inserting a missing one are its set_or_touch. */
  lemma SuccessRememberedInARow(w: World, cfg: Config, id: nat)
    requires Enabled(w, Remember(id), cfg)
    ensures id < |w.tasks| && w.tasks[id].stage.Accepted?
    ensures var v, t := Step(w, Remember(id), cfg), w.tasks[id];
      var after := w.sessions[t.peer := Sticky.AfterUse(Sticky.Find(w.sessions, t.peer), t.stage.key, w.now)];
      && id < |v.tasks|
      && (if v.tasks[id].stage.Missing? then
            && v.tasks[id].stage == Missing(t.stage.key, t.stage.conn, w.now) && v.sessions == w.sessions
            && w.sessions[t.peer := Sticky.NewSession(t.stage.key, w.now)] == after
          else v.tasks[id].stage == Serving(t.stage.conn) && v.sessions == after)
  {
    hide GateEnabled, GateAfter, MayPick;
  }

  lemma SessionInserted(w: World, cfg: Config, id: nat)
    requires Enabled(w, InsertSession(id), cfg)
    ensures var v := Step(w, InsertSession(id), cfg);
      && id < |w.tasks| && id < |v.tasks| && w.tasks[id].stage.Missing?
      && v.tasks[id].stage == Serving(w.tasks[id].stage.conn)
      && v.sessions == w.sessions[w.tasks[id].peer := Sticky.NewSession(w.tasks[id].stage.key, w.tasks[id].stage.since)]
  {
    hide GateEnabled, GateAfter, MayPick;
  }

  /** The end of an attempt is recorded on the proxy it went through, with the time since it was picked. */
  lemma OutcomeIsRecorded(w: World, cfg: Config, id: nat)
    requires id < |w.tasks| && w.tasks[id].stage.Connecting?
    ensures var s := w.tasks[id].stage;
      Enabled(w, Succeed(id), cfg) ==>
        var v := Step(w, Succeed(id), cfg);
        && id < |v.tasks| && v.tasks[id].stage == Accepted(Key(s.proxy), s.conn)
        && v.pools.proxies ==
             Updated(w.pools.proxies, Key(s.proxy), Success(Handler.Milliseconds(w.now - s.since), w.now))
    ensures var s := w.tasks[id].stage;
      Enabled(w, Fail(id), cfg) ==>
        var v := Step(w, Fail(id), cfg);
        && id < |v.tasks| && v.tasks[id].stage == Failing
        && v.pools.proxies == Updated(w.pools.proxies, Key(s.proxy), Failure(w.now))
  {
    hide GateAfter, MayPick, Updated, Handler.Milliseconds;
  }

  // ---- What every run keeps ----

  lemma HeldSocketsDiffer(w: World, cfg: Config, i: nat, j: nat)
    requires Inv(w, cfg) && i < j < |w.tasks|
    requires Held(w.tasks[i]).Some? && Held(w.tasks[j]).Some?
    ensures Held(w.tasks[i]).value.id != Held(w.tasks[j]).value.id
  {
    hide Gateway.Inv, Membership.Sound, Held, Consistent;
    var c, d := Held(w.tasks[i]).value, Held(w.tasks[j]).value;
    assert c in w.warm.account.made && d in w.warm.account.made;
  }

  lemma AskedAtMostThree(w: World, cfg: Config, i: nat)
    requires Inv(w, cfg) && i < |w.tasks|
    ensures w.tasks[i].asked <= 3
  {
    Gateway.HandlerOf(w.gate, i, cfg.maxConnections);
  }

  /**
   For every interleaving of handlers, health checks, REST calls, cleanups and refreshes, from any sound
   pool on: all entries of the pool and of the banned list stay reachable and under their own keys; every
   warm connection is in exactly one place, and no socket is ever held by two handlers; the warm pool is
   asked once per attempt, at most three times per connection; no session has its own proxy for a backup;
   and permits and the active count add up as in Gateway.
   */
  lemma EveryInterleaving(cfg: Config, pools: Membership.Registry, start: Time, actions: seq<Action>)
    requires Membership.Sound(pools, start) && ValidRun(Initial(cfg, pools, start), actions, cfg)
    ensures var w := Run(Initial(cfg, pools, start), actions, cfg);
      && KeysMatch(w.pools.proxies) && AllReachable(w.pools.proxies, w.now)
      && KeysMatch(w.pools.banned) && AllReachable(w.pools.banned, w.now)
      && WarmPool.Balanced(w.warm.account, cfg.warmSize, w.now, w.warm.sockets)
      && (forall i, j :: 0 <= i < j < |w.tasks| && Held(w.tasks[i]).Some? && Held(w.tasks[j]).Some? ==>
            Held(w.tasks[i]).value.id != Held(w.tasks[j]).value.id)
      && |w.warm.account.handed| <= w.warm.takes == Gateway.Sum(w.tasks, Asked)
      && (forall i :: 0 <= i < |w.tasks| ==> w.tasks[i].asked <= 3)
      && Sticky.BackupsDiffer(w.sessions)
      && w.gate.permits + Gateway.Sum(w.gate.handlers, Gateway.IsLive) == cfg.maxConnections
      && w.gate.activeConnections == Gateway.Sum(w.gate.handlers, Gateway.IsActive) <= cfg.maxConnections
  {
    InitialInv(cfg, pools, start);
    RunKeepsInv(Initial(cfg, pools, start), actions, cfg);
    var w := Run(Initial(cfg, pools, start), actions, cfg);
    Gateway.ActiveAtMostLive(w.gate);
    forall i, j | 0 <= i < j < |w.tasks| && Held(w.tasks[i]).Some? && Held(w.tasks[j]).Some?
      ensures Held(w.tasks[i]).value.id != Held(w.tasks[j]).value.id
    {
      HeldSocketsDiffer(w, cfg, i, j);
    }
    forall i | 0 <= i < |w.tasks| ensures w.tasks[i].asked <= 3 {
      AskedAtMostThree(w, cfg, i);
    }
  }

  // ---- Refinement of the protocol of permits and counters ----

  function GateActions(actions: seq<Action>): seq<Gateway.Action> {
    if actions == [] then []
    else (if GateAction(actions[0]).Some? then [GateAction(actions[0]).value] else []) + GateActions(actions[1..])
  }

  /** Forgetting all but the permits, phases and counters, every run is a run of Gateway. */
  lemma {:induction false} RefinesGateway(w: World, actions: seq<Action>, cfg: Config)
    requires ValidRun(w, actions, cfg)
    ensures Gateway.ValidRun(w.gate, GateActions(actions))
    ensures Run(w, actions, cfg).gate == Gateway.Run(w.gate, GateActions(actions))
    decreases |actions|
  {
    if actions == [] {
    } else {
      var a, rest := actions[0], GateActions(actions[1..]);
      EnabledInGate(w, a, cfg);
      RefinesGateway(Step(w, a, cfg), actions[1..], cfg);
      if GateAction(a).Some? {
        assert ([GateAction(a).value] + rest)[1..] == rest;
      } else {
        assert GateActions(actions) == rest;
      }
    }
  }

  // ---- Every handler finishes ----

  /** A handler that is not done has a step of its own, whatever the others have done to the pool. */
  lemma NeverStuck(w: World, cfg: Config, id: nat, order: seq<string>)
    requires Inv(w, cfg) && id < |w.tasks| && !w.gate.handlers[id].phase.Done?
    requires IsEnumeration(order, w.pools.proxies)
    ensures exists a :: Actor(a) == Some(id) && Enabled(w, a, cfg)
  {
    hide Gateway.Inv, Membership.Sound, WarmPool.Balanced, HeldOnce, Consistent, Enabled;
    assert Consistent(w.gate.handlers[id], w.tasks[id]);
    var a;
    if InLoop(w, id) {
      a := NextInLoop(w, cfg, id, order);
    } else {
      Gateway.HandlerOf(w.gate, id, cfg.maxConnections);
      a := NextOutside(w, cfg, id);
    }
  }

  lemma NextOutside(w: World, cfg: Config, id: nat) returns (a: Action)
    requires id < |w.tasks| == |w.gate.handlers| && !w.gate.handlers[id].phase.Done? && !InLoop(w, id)
    requires Consistent(w.gate.handlers[id], w.tasks[id]) && Gateway.HandlerInv(w.gate.handlers[id])
    ensures Actor(a) == Some(id) && Enabled(w, a, cfg)
  {
    match w.gate.handlers[id].phase
    case Started => a := CountRequest(id);
    case Counted => a := CountActive(id);
    case Trying(_) => a := Exhaust(id);
    case Relaying =>
      a := if w.tasks[id].stage.Accepted? then Remember(id)
           else if w.tasks[id].stage.Missing? then InsertSession(id) else Uncount(id);
    case GaveUp => a := Uncount(id);
    case _ => a := Release(id);
  }

  lemma NextInLoop(w: World, cfg: Config, id: nat, order: seq<string>) returns (a: Action)
    requires InLoop(w, id) && Consistent(w.gate.handlers[id], w.tasks[id])
    requires IsEnumeration(order, w.pools.proxies)
    ensures Actor(a) == Some(id) && Enabled(w, a, cfg)
  {
    var t, i := w.tasks[id], AttemptOf(w, id);
    match t.stage
    case Fresh => a := AskSession(id, 0);
    case Expiring => a := DropSession(id);
    case Answered(_) => a := CheckSticky(id);
    case Judging(_) => a := JudgeSticky(id);
    case Failing => a := Rotate(id);
    case Waiting => a := TimeOut(id);
    case Picked(_, _) => a := TakeWarm(id, _ => true);
    case Connecting(_, _, _) => a := Fail(id);
    case Ready =>
      if i == 1 {
        a := AskBackup(id);
      } else {
        var choice := Handler.PickExists(i, t.https, t.sticky, None, w.pools.proxies, order, [], w.now);
        a := Pick(id, order, [], choice);
      }
    case Prepared(backup) =>
      var choice := Handler.PickExists(i, t.https, t.sticky, backup, w.pools.proxies, order, [], w.now);
      a := Pick(id, order, [], choice);
    case _ =>
      assert false;
  }

  function StepsOf(actions: seq<Action>, id: nat): nat {
    if actions == [] then 0 else (if Actor(actions[0]) == Some(id) then 1 else 0) + StepsOf(actions[1..], id)
  }

  lemma StepCounts(w: World, a: Action, cfg: Config, id: nat)
    requires Inv(w, cfg) && Enabled(w, a, cfg) && id < |w.tasks|
    ensures var v := Step(w, a, cfg);
      && id < |v.tasks| == |v.gate.handlers|
      && (if Actor(a) == Some(id) then 1 else 0) + Remaining(v.gate.handlers[id], v.tasks[id])
         <= Remaining(w.gate.handlers[id], w.tasks[id])
  {
    hide Enabled, GateAfter, TaskAfter, PoolsAfter, SessionsAfter, WarmAfter, Remaining, Consistent;
    hide Gateway.Inv, Membership.Sound, WarmPool.Balanced, HeldOnce, Sticky.BackupsDiffer;
    OthersUntouched(w, a, cfg);
    if Actor(a) == Some(id) {
      Gateway.HandlerOf(w.gate, id, cfg.maxConnections);
      OwnStep(w, a, cfg, id);
    }
  }

  /** In any run a handler takes at most as many steps as it has left, so at most twenty-four in its life. */
  lemma {:induction false} StepsAreBounded(w: World, actions: seq<Action>, cfg: Config, id: nat)
    requires Inv(w, cfg) && ValidRun(w, actions, cfg) && id < |w.tasks|
    ensures var v := Run(w, actions, cfg);
      && id < |v.tasks| == |v.gate.handlers|
      && StepsOf(actions, id) + Remaining(v.gate.handlers[id], v.tasks[id])
         <= Remaining(w.gate.handlers[id], w.tasks[id])
    decreases |actions|
  {
    hide Enabled, Step, Remaining, Consistent;
    hide Gateway.Inv, Membership.Sound, WarmPool.Balanced, HeldOnce, Sticky.BackupsDiffer;
    if actions == [] {
    } else {
      var a := actions[0];
      StepKeepsInv(w, a, cfg);
      StepCounts(w, a, cfg, id);
      StepsAreBounded(Step(w, a, cfg), actions[1..], cfg, id);
    }
  }
}
