/**
 All connection handlers at once: a step relation over the accept loop and any number of handlers that
 share the semaphore and the counters, interleaved in any way.
 */
module Gateway {
  import opened Words

  const MAX_RETRIES: nat := 3

  // Where a handler is. Trying(i) is the loop head with i attempts behind it; Done has given its permit back.
  datatype Phase = Started | Counted | Trying(attempt: nat) | Relaying | GaveUp | Leaving | Done

  datatype Handler = Handler(phase: Phase, requested: bool, successes: nat, failures: nat)

  // Handlers in the order their connections were accepted.
  datatype World = World(
    permits: nat,
    handlers: seq<Handler>,
    totalRequests: U64,
    activeConnections: U64,
    proxyRotations: U64)

  // What one handler does next.
  datatype Move =
    | DropEarly
    | CountRequest
    | CountActive
    | NoProxy
    | AttemptFails
    | AttemptSucceeds
    | Exhausted
    | Uncount
    | Release

  datatype Action = Accept | Reject | Act(id: nat, move: Move)

  predicate CanMove(h: Handler, m: Move) {
    match m
    case DropEarly => h.phase.Started?
    case CountRequest => h.phase.Started?
    case CountActive => h.phase.Counted?
    case NoProxy => h.phase.Trying? && h.phase.attempt < MAX_RETRIES
    case AttemptFails => h.phase.Trying? && h.phase.attempt < MAX_RETRIES
    case AttemptSucceeds => h.phase.Trying? && h.phase.attempt < MAX_RETRIES
    case Exhausted => h.phase.Trying? && h.phase.attempt == MAX_RETRIES
    case Uncount => h.phase.Relaying? || h.phase.GaveUp?
    case Release => h.phase.Leaving?
  }

  function Moved(h: Handler, m: Move): Handler
    requires CanMove(h, m)
  {
    match m
    case DropEarly => h.(phase := Leaving)
    case CountRequest => h.(phase := Counted, requested := true)
    case CountActive => h.(phase := Trying(0))
    case NoProxy => h.(phase := GaveUp)
    case AttemptFails =>
      h.(phase := Trying(h.phase.attempt + 1), failures := h.failures + 1)
    case AttemptSucceeds => h.(phase := Relaying, successes := h.successes + 1)
    case Exhausted => h.(phase := GaveUp)
    case Uncount => h.(phase := Leaving)
    case Release => h.(phase := Done)
  }

  predicate Enabled(w: World, a: Action) {
    match a
    case Accept => w.permits > 0
    case Reject => w.permits == 0
    case Act(id, m) => id < |w.handlers| && CanMove(w.handlers[id], m)
  }

  function Step(w: World, a: Action): World
    requires Enabled(w, a)
  {
    match a
    case Accept => w.(permits := w.permits - 1, handlers := w.handlers + [Handler(Started, false, 0, 0)])
    case Reject => w
    case Act(id, m) =>
      World(
        if m.Release? then w.permits + 1 else w.permits,
        w.handlers[id := Moved(w.handlers[id], m)],
        if m.CountRequest? then Next64(w.totalRequests) else w.totalRequests,
        if m.CountActive? then Next64(w.activeConnections)
        else if m.Uncount? then Previous64(w.activeConnections) else w.activeConnections,
        if m.AttemptFails? then Next64(w.proxyRotations) else w.proxyRotations)
  }

  function Initial(maxConnections: U64): World {
    World(maxConnections, [], 0, 0, 0)
  }

  // ---- Counting over the handlers ----

  function Sum<T>(hs: seq<T>, f: T -> nat): nat {
    if hs == [] then 0 else Sum(hs[..|hs| - 1], f) + f(hs[|hs| - 1])
  }

  lemma {:induction false} SumUpdate<T>(hs: seq<T>, i: nat, h: T, f: T -> nat)
    requires i < |hs|
    ensures Sum(hs[i := h], f) + f(hs[i]) == Sum(hs, f) + f(h)
  {
    var n := |hs| - 1;
    if i == n {
      assert hs[i := h][..n] == hs[..n];
    } else {
      assert hs[i := h][..n] == hs[..n][i := h];
      SumUpdate(hs[..n], i, h, f);
    }
  }

  lemma SumAppend<T>(hs: seq<T>, h: T, f: T -> nat)
    ensures Sum(hs + [h], f) == Sum(hs, f) + f(h)
  {
    assert (hs + [h])[..|hs|] == hs;
  }

  lemma {:induction false} SumAtMost<T>(hs: seq<T>, f: T -> nat, g: T -> nat)
    requires forall i :: 0 <= i < |hs| ==> f(hs[i]) <= g(hs[i])
    ensures Sum(hs, f) <= Sum(hs, g)
  {
    if hs == [] {
    } else {
      SumAtMost(hs[..|hs| - 1], f, g);
    }
  }

  function IsLive(h: Handler): nat {
    if h.phase.Done? then 0 else 1
  }

  // Between its increment and its decrement of active_connections.
  function IsActive(h: Handler): nat {
    if h.phase.Trying? || h.phase.Relaying? || h.phase.GaveUp? then 1 else 0
  }

  function Requests(h: Handler): nat {
    if h.requested then 1 else 0
  }

  function Failures(h: Handler): nat {
    h.failures
  }

  // At most three attempts, all but the last failed, and it alone may have succeeded.
  ghost predicate HandlerInv(h: Handler) {
    && h.failures + h.successes <= MAX_RETRIES && h.successes <= 1
    && (h.phase.Trying? ==> h.phase.attempt == h.failures && h.successes == 0)
    && (h.phase.Relaying? ==> h.successes == 1)
    && (h.phase.GaveUp? ==> h.successes == 0)
    && (h.phase.Started? ==> !h.requested)
    && (!h.requested ==> h.phase.Started? || h.phase.Leaving? || h.phase.Done?)
    && (h.phase.Started? || h.phase.Counted? || !h.requested ==> h.failures == 0 && h.successes == 0)
  }

  ghost predicate Inv(w: World, maxConnections: U64) {
    && w.permits + Sum(w.handlers, IsLive) == maxConnections
    && w.activeConnections == Sum(w.handlers, IsActive)
    && w.totalRequests == Sum(w.handlers, Requests) % TWO_64
    && w.proxyRotations == Sum(w.handlers, Failures) % TWO_64
    && forall i :: 0 <= i < |w.handlers| ==> HandlerInv(w.handlers[i])
  }

  ghost predicate ValidRun(w: World, actions: seq<Action>)
    decreases |actions|
  {
    actions == [] || (Enabled(w, actions[0]) && ValidRun(Step(w, actions[0]), actions[1..]))
  }

  function Run(w: World, actions: seq<Action>): World
    requires ValidRun(w, actions)
    decreases |actions|
  {
    if actions == [] then w else Run(Step(w, actions[0]), actions[1..])
  }

  // What a move does to the four accounts of its handler.
  lemma MoveEffect(h: Handler, m: Move)
    requires CanMove(h, m) && HandlerInv(h)
    ensures HandlerInv(Moved(h, m))
    ensures IsLive(h) == 1 && IsLive(Moved(h, m)) == if m.Release? then 0 else 1
    ensures IsActive(Moved(h, m)) ==
      if m.CountActive? then IsActive(h) + 1 else if m.Uncount? then IsActive(h) - 1 else IsActive(h)
    ensures Requests(Moved(h, m)) == Requests(h) + if m.CountRequest? then 1 else 0
    ensures Failures(Moved(h, m)) == Failures(h) + if m.AttemptFails? then 1 else 0
    ensures Remaining(Moved(h, m)) < Remaining(h)
  {
    match m
    case DropEarly =>
    case CountRequest =>
    case CountActive =>
    case NoProxy =>
    case AttemptFails =>
    case AttemptSucceeds =>
    case Exhausted =>
    case Uncount =>
    case Release =>
  }

  lemma ActiveAtMostLive(w: World)
    ensures Sum(w.handlers, IsActive) <= Sum(w.handlers, IsLive)
  {
    SumAtMost(w.handlers, IsActive, IsLive);
  }

  lemma AcceptKeepsInv(w: World, maxConnections: U64)
    requires Inv(w, maxConnections) && Enabled(w, Accept)
    ensures Inv(Step(w, Accept), maxConnections)
  {
    var h := Handler(Started, false, 0, 0);
    SumAppend(w.handlers, h, IsLive);
    SumAppend(w.handlers, h, IsActive);
    SumAppend(w.handlers, h, Requests);
    SumAppend(w.handlers, h, Failures);
  }

  lemma MoveKeepsInv(w: World, id: nat, m: Move, maxConnections: U64)
    requires Inv(w, maxConnections) && Enabled(w, Act(id, m))
    ensures Inv(Step(w, Act(id, m)), maxConnections)
  {
    hide CanMove, Moved, HandlerInv, IsLive, IsActive, Requests, Failures, Remaining, Next64, Previous64, Sum;
    var h, w' := w.handlers[id], Step(w, Act(id, m));
    MoveEffect(h, m);
    SumUpdate(w.handlers, id, Moved(h, m), IsLive);
    SumUpdate(w.handlers, id, Moved(h, m), IsActive);
    SumUpdate(w.handlers, id, Moved(h, m), Requests);
    SumUpdate(w.handlers, id, Moved(h, m), Failures);
    ActiveAtMostLive(w');
    NextExactly(0, w.activeConnections);
    PreviousExactly(w.activeConnections);
    Next64Counts(Sum(w.handlers, Requests));
    Next64Counts(Sum(w.handlers, Failures));
  }

  /** Every step of the accept loop or of any handler keeps the permit, counter and attempt accounts. */
  lemma StepKeepsInv(w: World, a: Action, maxConnections: U64)
    requires Inv(w, maxConnections) && Enabled(w, a)
    ensures Inv(Step(w, a), maxConnections)
  {
    match a
    case Accept => AcceptKeepsInv(w, maxConnections);
    case Reject =>
    case Act(id, m) => MoveKeepsInv(w, id, m, maxConnections);
  }

  lemma {:induction false} RunKeepsInv(w: World, actions: seq<Action>, maxConnections: U64)
    requires Inv(w, maxConnections) && ValidRun(w, actions)
    ensures Inv(Run(w, actions), maxConnections)
    decreases |actions|
  {
    if actions == [] {
    } else {
      StepKeepsInv(w, actions[0], maxConnections);
      RunKeepsInv(Step(w, actions[0]), actions[1..], maxConnections);
    }
  }

  /**
   For every interleaving: free permits and live handlers add up to the limit, active_connections is
   exactly the number of handlers between increment and decrement and within the limit, the request and
   rotation counters are the requests and failures of all handlers, and every handler makes at most 3
   attempts with at most one success.
   */
  lemma Accounting(maxConnections: U64, actions: seq<Action>)
    requires ValidRun(Initial(maxConnections), actions)
    ensures var w := Run(Initial(maxConnections), actions);
      && w.permits + Sum(w.handlers, IsLive) == maxConnections
      && w.activeConnections == Sum(w.handlers, IsActive) <= maxConnections
      && w.totalRequests == Sum(w.handlers, Requests) % TWO_64
      && w.proxyRotations == Sum(w.handlers, Failures) % TWO_64
      && forall i :: 0 <= i < |w.handlers| ==>
        w.handlers[i].failures + w.handlers[i].successes <= 3 && w.handlers[i].successes <= 1
  {
    RunKeepsInv(Initial(maxConnections), actions, maxConnections);
    ActiveAtMostLive(Run(Initial(maxConnections), actions));
  }

  /** A new connection is accepted exactly while fewer handlers than the limit are live, and rejected otherwise. */
  lemma RejectedExactlyAtLimit(w: World, maxConnections: U64)
    requires Inv(w, maxConnections)
    ensures Enabled(w, Accept) <==> Sum(w.handlers, IsLive) < maxConnections
    ensures Enabled(w, Reject) <==> Sum(w.handlers, IsLive) == maxConnections
  {
  }

  /** What a handler may do next: an attempt while it has made fewer than three, and giving up after three. */
  lemma MovesExactly(h: Handler, m: Move)
    ensures h.phase.Started? ==> (CanMove(h, m) <==> m.DropEarly? || m.CountRequest?)
    ensures h.phase.Counted? ==> (CanMove(h, m) <==> m.CountActive?)
    ensures h.phase.Trying? && h.phase.attempt < 3 ==>
      (CanMove(h, m) <==> m.NoProxy? || m.AttemptFails? || m.AttemptSucceeds?)
    ensures h.phase == Trying(3) ==> (CanMove(h, m) <==> m.Exhausted?)
    ensures h.phase.Relaying? || h.phase.GaveUp? ==> (CanMove(h, m) <==> m.Uncount?)
    ensures h.phase.Leaving? ==> (CanMove(h, m) <==> m.Release?)
    ensures h.phase.Done? ==> !CanMove(h, m)
  {
  }

  /** Once every handler is done, all permits are back and nothing counts as active. */
  lemma QuietMeansFree(w: World, maxConnections: U64)
    requires Inv(w, maxConnections)
    requires forall i :: 0 <= i < |w.handlers| ==> w.handlers[i].phase.Done?
    ensures w.permits == maxConnections && w.activeConnections == 0
  {
    SumAtMost(w.handlers, IsLive, (h: Handler) => 0);
    SumOfZero(w.handlers);
    ActiveAtMostLive(w);
  }

  lemma {:induction false} SumOfZero(hs: seq<Handler>)
    ensures Sum(hs, (h: Handler) => 0) == 0
  {
    if hs == [] {
    } else {
      SumOfZero(hs[..|hs| - 1]);
    }
  }

  // ---- Every handler finishes ----

  // The most steps a handler may still take.
  function Remaining(h: Handler): (n: nat)
    ensures n <= 8
  {
    match h.phase
    case Started => 8
    case Counted => 7
    case Trying(i) => if i <= MAX_RETRIES then 6 - i else 3
    case Relaying => 2
    case GaveUp => 2
    case Leaving => 1
    case Done => 0
  }

  /** A handler that is not done can always move. */
  lemma NeverStuck(h: Handler)
    requires HandlerInv(h) && !h.phase.Done?
    ensures exists m :: CanMove(h, m)
  {
    match h.phase
    case Started => assert CanMove(h, DropEarly);
    case Counted => assert CanMove(h, CountActive);
    case Trying(i) => assert if i < MAX_RETRIES then CanMove(h, NoProxy) else CanMove(h, Exhausted);
    case Relaying => assert CanMove(h, Uncount);
    case GaveUp => assert CanMove(h, Uncount);
    case Leaving => assert CanMove(h, Release);
  }

  /** The bound is met: some step always leaves all but one of the remaining ones. */
  lemma RemainingIsMet(h: Handler)
    requires HandlerInv(h) && !h.phase.Done?
    ensures exists m :: CanMove(h, m) && Remaining(Moved(h, m)) == Remaining(h) - 1
  {
    var longest :=
      match h.phase
      case Started => CountRequest
      case Counted => CountActive
      case Trying(i) => if i < MAX_RETRIES then AttemptFails else Exhausted
      case Relaying => Uncount
      case GaveUp => Uncount
      case _ => Release;
    assert CanMove(h, longest) && Remaining(Moved(h, longest)) == Remaining(h) - 1;
  }

  function StepsOf(actions: seq<Action>, id: nat): nat {
    if actions == [] then 0
    else (if actions[0].Act? && actions[0].id == id then 1 else 0) + StepsOf(actions[1..], id)
  }

  lemma OneStep(w: World, a: Action, id: nat)
    requires Enabled(w, a) && id < |w.handlers| && HandlerInv(w.handlers[id])
    ensures id < |Step(w, a).handlers|
    ensures StepsOf([a], id) + Remaining(Step(w, a).handlers[id]) <= Remaining(w.handlers[id])
  {
    assert [a][1..] == [];
    if a.Act? && a.id == id {
      MoveEffect(w.handlers[id], a.move);
    }
  }

  /** In any run a handler takes at most as many steps as it has left, so at most eight in its life. */
  lemma {:induction false} StepsAreBounded(w: World, actions: seq<Action>, id: nat, maxConnections: U64)
    requires Inv(w, maxConnections) && ValidRun(w, actions) && id < |w.handlers|
    ensures id < |Run(w, actions).handlers|
    ensures StepsOf(actions, id) + Remaining(Run(w, actions).handlers[id]) <= Remaining(w.handlers[id])
    decreases |actions|
  {
    hide Inv, Remaining;
    if actions == [] {
    } else {
      StepKeepsInv(w, actions[0], maxConnections);
      HandlerOf(w, id, maxConnections);
      OneStep(w, actions[0], id);
      StepsAreBounded(Step(w, actions[0]), actions[1..], id, maxConnections);
    }
  }

  lemma HandlerOf(w: World, id: nat, maxConnections: U64)
    requires Inv(w, maxConnections) && id < |w.handlers|
    ensures HandlerInv(w.handlers[id])
  {
  }
}
