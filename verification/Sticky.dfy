/** Sticky sessions: which proxy a client stays with, its backup, and when the session expires. */
module Sticky {
  import opened Words
  import opened Wrappers
  import opened Proxies

  type Client = string

  datatype Session = Session(
    proxyKey: string,
    backup: Option<string>,
    createdAt: Time,
    lastAccess: Time,
    successCount: U32)

  type Sessions = map<Client, Session>

  // Seconds. Sixty more per ten successes, at most twice the base on top of it.
  function EffectiveTtl(base: nat, successes: U32): nat {
    var bonus := successes / 10 * 60;
    base + if bonus < base * 2 then bonus else base * 2
  }

  predicate ExpiredForGet(s: Session, base: nat, now: Time) {
    s.lastAccess < now - EffectiveTtl(base, s.successCount) * SECOND
  }

  predicate KeptByCleanup(s: Session, base: nat, now: Time) {
    now - s.lastAccess < EffectiveTtl(base, s.successCount) * SECOND
  }

  function NewSession(key: string, now: Time): Session {
    Session(key, None, now, now, 1)
  }

  // A successful connection through `key`.
  function AfterUse(s: Option<Session>, key: string, now: Time): Session {
    match s
    case None => NewSession(key, now)
    case Some(session) =>
      if session.proxyKey == key
      then session.(lastAccess := now, successCount := Next32(session.successCount))
      else session.(proxyKey := key, backup := Some(session.proxyKey), lastAccess := now, successCount := 1)
  }

  function Find(ss: Sessions, client: Client): Option<Session> {
    if client in ss then Some(ss[client]) else None
  }

  // What get answers, and what it leaves: an expired session is removed on the spot.
  function Answer(ss: Sessions, base: nat, client: Client, now: Time): Option<string> {
    if client in ss && !ExpiredForGet(ss[client], base, now) then Some(ss[client].proxyKey) else None
  }

  function AfterGet(ss: Sessions, base: nat, client: Client, now: Time): Sessions {
    if client in ss && ExpiredForGet(ss[client], base, now) then ss - {client} else ss
  }

  function AfterCleanup(ss: Sessions, base: nat, now: Time): Sessions {
    map c | c in ss && KeptByCleanup(ss[c], base, now) :: ss[c]
  }

  function AfterTouch(ss: Sessions, client: Client, now: Time): Sessions {
    if client in ss then ss[client := ss[client].(lastAccess := now)] else ss
  }

  function Backup(ss: Sessions, client: Client): Option<string> {
    if client in ss then ss[client].backup else None
  }

  class Manager {
    var sessions: Sessions
    var ttlSecs: nat

    constructor (ttlSecs: nat)
      ensures sessions == map[] && this.ttlSecs == ttlSecs
    {
      sessions, this.ttlSecs := map[], ttlSecs;
    }

    method SetTtl(ttlSecs: nat)
      modifies this`ttlSecs
      ensures this.ttlSecs == ttlSecs
    {
      this.ttlSecs := ttlSecs;
    }

    method Get(client: Client, now: Time) returns (key: Option<string>)
      modifies this`sessions
      ensures key == Answer(old(sessions), ttlSecs, client, now)
      ensures sessions == AfterGet(old(sessions), ttlSecs, client, now)
    {
      if client !in sessions {
        return None;
      }
      var session := sessions[client];
      var bonus := session.successCount / 10 * 60;
      var ttl := ttlSecs + if bonus < ttlSecs * 2 then bonus else ttlSecs * 2;
      if session.lastAccess < now - ttl * SECOND {
        sessions := sessions - {client};
        return None;
      }
      key := Some(session.proxyKey);
    }

    method Set(client: Client, key: string, now: Time)
      modifies this`sessions
      ensures sessions == old(sessions)[client := NewSession(key, now)]
    {
      sessions := sessions[client := Session(key, None, now, now, 1)];
    }

    method SetOrTouch(client: Client, key: string, now: Time)
      modifies this`sessions
      ensures sessions == old(sessions)[client := AfterUse(Find(old(sessions), client), key, now)]
    {
      if client in sessions {
        var session := sessions[client];
        if session.proxyKey == key {
          session := session.(lastAccess := now);
          session := session.(successCount := Next32(session.successCount));
        } else {
          var previous := session.proxyKey;
          session := session.(proxyKey := key);
          session := session.(backup := Some(previous));
          session := session.(lastAccess := now, successCount := 1);
        }
        sessions := sessions[client := session];
      } else {
        sessions := sessions[client := Session(key, None, now, now, 1)];
      }
    }

    method GetBackup(client: Client) returns (key: Option<string>)
      ensures key == Backup(sessions, client)
    {
      if client in sessions {
        key := sessions[client].backup;
      } else {
        key := None;
      }
    }

    method Touch(client: Client, now: Time)
      modifies this`sessions
      ensures sessions == AfterTouch(old(sessions), client, now)
      ensures sessions.Keys == old(sessions).Keys
      ensures forall c :: c in sessions && c != client ==> sessions[c] == old(sessions)[c]
    {
      if client in sessions {
        sessions := sessions[client := sessions[client].(lastAccess := now)];
      }
    }

    method Remove(client: Client)
      modifies this`sessions
      ensures sessions == old(sessions) - {client}
    {
      sessions := sessions - {client};
    }

    method Cleanup(now: Time)
      modifies this`sessions
      ensures sessions == AfterCleanup(old(sessions), ttlSecs, now)
    {
      sessions := map c | c in sessions && KeptByCleanup(sessions[c], ttlSecs, now) :: sessions[c];
    }

    method Clear()
      modifies this`sessions
      ensures sessions == map[]
    {
      sessions := map[];
    }
  }

  /** The effective TTL lies between the base and three times the base, never shrinks with success,
      and ten more successes add a minute until it is three times the base. */
  lemma TtlBounds(base: nat, fewer: U32, more: U32)
    requires fewer <= more
    ensures base <= EffectiveTtl(base, fewer) <= EffectiveTtl(base, more) <= 3 * base
    ensures fewer < 10 ==> EffectiveTtl(base, fewer) == base
    ensures more + 10 < TWO_32 ==>
      EffectiveTtl(base, more + 10) ==
        (if EffectiveTtl(base, more) + 60 < 3 * base then EffectiveTtl(base, more) + 60 else 3 * base)
  {
    assert fewer / 10 <= more / 10;
  }

  /**
   In nanoseconds: get answers until the effective TTL has passed, the end included; a cleanup keeps
   until just before.
   */
  lemma ExpiryInNanoseconds(ss: Sessions, base: nat, client: Client, now: Time)
    requires client in ss
    ensures var end := ss[client].lastAccess + EffectiveTtl(base, ss[client].successCount) * 1_000_000_000;
      && Answer(ss, base, client, now) == (if now <= end then Some(ss[client].proxyKey) else None)
      && (client in AfterGet(ss, base, client, now) <==> now <= end)
      && (client in AfterCleanup(ss, base, now) <==> now < end)
  {
  }

  // ---- A session is its success history ----

  datatype Use = Use(key: string, at: Time)

  // The session a client has after these successes and nothing else.
  function SessionAfter(uses: seq<Use>): Option<Session> {
    if uses == [] then None
    else Some(AfterUse(SessionAfter(uses[..|uses| - 1]), uses[|uses| - 1].key, uses[|uses| - 1].at))
  }

  // How many of the last successes went through the last key without a break.
  function TrailingRun(uses: seq<Use>): (n: nat)
    ensures uses != [] ==> 0 < n <= |uses|
  {
    if |uses| <= 1 then |uses|
    else if uses[|uses| - 2].key == uses[|uses| - 1].key then TrailingRun(uses[..|uses| - 1]) + 1
    else 1
  }

  /** TrailingRun is the length of the longest suffix with one key. */
  lemma {:induction false} TrailingRunIsLongest(uses: seq<Use>)
    requires uses != []
    ensures var n := TrailingRun(uses);
      && (forall i :: |uses| - n <= i < |uses| ==> uses[i].key == uses[|uses| - 1].key)
      && (n < |uses| ==> uses[|uses| - n - 1].key != uses[|uses| - 1].key)
  {
    if |uses| > 1 && uses[|uses| - 2].key == uses[|uses| - 1].key {
      TrailingRunIsLongest(uses[..|uses| - 1]);
    }
  }

  /**
   The proxy is the last key used, the success count the length of the trailing run (as a 32-bit count),
   and the backup the key used just before that run, none if the run is everything.
   */
  lemma {:induction false} SessionIsItsHistory(uses: seq<Use>)
    requires uses != []
    ensures var s, n := SessionAfter(uses), TrailingRun(uses);
      && s.Some?
      && s.value.proxyKey == uses[|uses| - 1].key
      && s.value.successCount == n % TWO_32
      && s.value.backup == (if n == |uses| then None else Some(uses[|uses| - n - 1].key))
      && s.value.createdAt == uses[0].at && s.value.lastAccess == uses[|uses| - 1].at
  {
    hide Next32;
    var front, last := uses[..|uses| - 1], uses[|uses| - 1];
    if front == [] {
      assert SessionAfter(front) == None;
    } else {
      SessionIsItsHistory(front);
      assert front[|front| - 1] == uses[|uses| - 2] && front[0] == uses[0];
      if uses[|uses| - 2].key == last.key {
        Next32Counts(TrailingRun(front));
        assert TrailingRun(front) < |front| ==>
          front[|front| - TrailingRun(front) - 1] == uses[|uses| - TrailingRun(uses) - 1];
      }
    }
  }

  /** So a session never names its current proxy as its own backup. */
  lemma BackupDiffers(uses: seq<Use>)
    requires uses != []
    ensures SessionAfter(uses).value.backup != Some(SessionAfter(uses).value.proxyKey)
  {
    SessionIsItsHistory(uses);
    TrailingRunIsLongest(uses);
  }

  // ---- The two expiry tests ----

  /** The test of get and that of cleanup agree except at the exact instant of expiry. */
  lemma TestsDifferExactly(s: Session, base: nat, now: Time)
    ensures (ExpiredForGet(s, base, now) <==> !KeptByCleanup(s, base, now)) <==>
      now != s.lastAccess + EffectiveTtl(base, s.successCount) * SECOND
  {
  }

  // ---- Whole traces of the manager's operations ----

  datatype Op =
    | Get(client: Client, at: Time)
    | GetBackup(client: Client)
    | Use(client: Client, key: string, at: Time)
    | Set(client: Client, key: string, at: Time)
    | Touch(client: Client, at: Time)
    | Remove(client: Client)
    | Clear
    | Cleanup(at: Time)

  function Step(ss: Sessions, base: nat, op: Op): Sessions {
    match op
    case Get(client, at) => AfterGet(ss, base, client, at)
    case GetBackup(_) => ss
    case Use(client, key, at) => ss[client := AfterUse(Find(ss, client), key, at)]
    case Set(client, key, at) => ss[client := NewSession(key, at)]
    case Touch(client, at) => AfterTouch(ss, client, at)
    case Remove(client) => ss - {client}
    case Clear => map[]
    case Cleanup(at) => AfterCleanup(ss, base, at)
  }

  function Replay(ss: Sessions, base: nat, ops: seq<Op>): Sessions
    decreases |ops|
  {
    if ops == [] then ss else Replay(Step(ss, base, ops[0]), base, ops[1..])
  }

  // What the reads of a trace answer, in order.
  function Answers(ss: Sessions, base: nat, ops: seq<Op>): seq<Option<string>>
    decreases |ops|
  {
    if ops == [] then []
    else
      (match ops[0]
       case Get(client, at) => [Answer(ss, base, client, at)]
       case GetBackup(client) => [Backup(ss, client)]
       case _ => [])
      + Answers(Step(ss, base, ops[0]), base, ops[1..])
  }

  // ---- The backup is another proxy ----

  ghost predicate BackupsDiffer(ss: Sessions) {
    forall c :: c in ss ==> ss[c].backup != Some(ss[c].proxyKey)
  }

  /**
   In every table the manager's operations lead to, the backup is a proxy other than the one the client
   is on: whenever get has an answer, the backup is not that answer.
   */
  lemma {:induction false} BackupIsAnotherProxy(ss: Sessions, base: nat, ops: seq<Op>, client: Client, now: Time)
    requires BackupsDiffer(ss)
    ensures BackupsDiffer(Replay(ss, base, ops))
    ensures var after := Replay(ss, base, ops);
      Answer(after, base, client, now).Some? ==> Backup(after, client) != Answer(after, base, client, now)
    decreases |ops|
  {
    if ops == [] {
    } else {
      BackupIsAnotherProxy(Step(ss, base, ops[0]), base, ops[1..], client, now);
    }
  }

  // ---- Cleanups ----

  function WithoutCleanups(ops: seq<Op>): seq<Op> {
    if ops == [] then []
    else (if ops[0].Cleanup? then [] else [ops[0]]) + WithoutCleanups(ops[1..])
  }

  // The latest cleanup so far, and the clients asked for or removed since the last one.
  datatype Watch = Watch(last: Option<Time>, met: set<Client>)

  function Watched(w: Watch, op: Op): Watch {
    match op
    case Cleanup(at) => Watch(if w.last.Some? && at < w.last.value then w.last else Some(at), {})
    case Clear => w
    case GetBackup(_) => w
    case _ => w.(met := w.met + {op.client})
  }

  // Gets come strictly later than the cleanups before them. What reads or continues a session (a
  // success, a touch, the backup) comes after such a get of that client, with no cleanup in between.
  ghost predicate InOrder(op: Op, w: Watch) {
    match op
    case Get(_, at) => w.last.Some? ==> w.last.value < at
    case Use(client, _, _) => client in w.met
    case Touch(client, _) => client in w.met
    case GetBackup(client) => client in w.met
    case _ => true
  }

  ghost predicate AllInOrder(ops: seq<Op>, w: Watch) {
    ops == [] || (InOrder(ops[0], w) && AllInOrder(ops[1..], Watched(w, ops[0])))
  }

  // `cleaned` lacks only sessions that were over by the time of the latest cleanup, and none of the
  // clients met since.
  ghost predicate Cleaned(cleaned: Sessions, ss: Sessions, base: nat, w: Watch) {
    && (forall c :: c in cleaned ==> c in ss && cleaned[c] == ss[c])
    && (forall c :: c in ss && c !in cleaned ==> w.last.Some? && !KeptByCleanup(ss[c], base, w.last.value))
    && (forall c :: c in w.met ==> Find(cleaned, c) == Find(ss, c))
  }

  lemma CleanedCleanup(cleaned: Sessions, ss: Sessions, base: nat, w: Watch, at: Time)
    requires Cleaned(cleaned, ss, base, w)
    ensures Cleaned(AfterCleanup(cleaned, base, at), ss, base, Watched(w, Cleanup(at)))
  {
  }

  lemma CleanedGet(cleaned: Sessions, ss: Sessions, base: nat, w: Watch, client: Client, at: Time)
    requires Cleaned(cleaned, ss, base, w) && InOrder(Get(client, at), w)
    ensures Answer(cleaned, base, client, at) == Answer(ss, base, client, at)
    ensures Cleaned(AfterGet(cleaned, base, client, at), AfterGet(ss, base, client, at), base,
                    Watched(w, Get(client, at)))
  {
  }

  // The same entry written on both sides.
  lemma CleanedEntry(cleaned: Sessions, ss: Sessions, base: nat, w: Watch, client: Client, s: Session)
    requires Cleaned(cleaned, ss, base, w)
    ensures Cleaned(cleaned[client := s], ss[client := s], base, w.(met := w.met + {client}))
  {
    hide KeptByCleanup;
  }

  lemma CleanedWrite(cleaned: Sessions, ss: Sessions, base: nat, w: Watch, op: Op)
    requires Cleaned(cleaned, ss, base, w) && InOrder(op, w) && !op.Get? && !op.Cleanup?
    ensures Cleaned(Step(cleaned, base, op), Step(ss, base, op), base, Watched(w, op))
    ensures op.GetBackup? ==> Backup(cleaned, op.client) == Backup(ss, op.client)
  {
    hide KeptByCleanup, AfterUse;
    match op
    case GetBackup(_) =>
    case Use(client, key, at) =>
      CleanedEntry(cleaned, ss, base, w, client, AfterUse(Find(ss, client), key, at));
    case Set(client, key, at) => CleanedEntry(cleaned, ss, base, w, client, NewSession(key, at));
    case Touch(client, at) =>
      if client in ss {
        CleanedEntry(cleaned, ss, base, w, client, ss[client].(lastAccess := at));
      }
    case Remove(_) =>
    case Clear =>
  }

  lemma {:induction false} CleanedReplay(cleaned: Sessions, ss: Sessions, base: nat, w: Watch, ops: seq<Op>)
    requires Cleaned(cleaned, ss, base, w) && AllInOrder(ops, w)
    ensures Answers(cleaned, base, ops) == Answers(ss, base, WithoutCleanups(ops))
    ensures forall c :: c in Replay(cleaned, base, ops) ==>
      Find(Replay(ss, base, WithoutCleanups(ops)), c) == Find(Replay(cleaned, base, ops), c)
    decreases |ops|
  {
    hide Step, Cleaned, InOrder, Watched, Answer, Backup;
    if ops == [] {
      CleanedAgrees(cleaned, ss, base, w);
    } else {
      var op, rest := ops[0], WithoutCleanups(ops[1..]);
      if op.Cleanup? {
        CleanedStep(cleaned, ss, base, w, op);
        CleanedReplay(Step(cleaned, base, op), ss, base, Watched(w, op), ops[1..]);
        assert WithoutCleanups(ops) == rest;
      } else {
        CleanedStep(cleaned, ss, base, w, op);
        CleanedReplay(Step(cleaned, base, op), Step(ss, base, op), base, Watched(w, op), ops[1..]);
        assert WithoutCleanups(ops) == [op] + rest && ([op] + rest)[1..] == rest;
      }
    }
  }

  lemma CleanedAgrees(cleaned: Sessions, ss: Sessions, base: nat, w: Watch)
    requires Cleaned(cleaned, ss, base, w)
    ensures forall c :: c in cleaned ==> Find(ss, c) == Find(cleaned, c)
  {
  }

  lemma CleanedStep(cleaned: Sessions, ss: Sessions, base: nat, w: Watch, op: Op)
    requires Cleaned(cleaned, ss, base, w) && InOrder(op, w)
    ensures Cleaned(Step(cleaned, base, op), if op.Cleanup? then ss else Step(ss, base, op), base, Watched(w, op))
    ensures op.Get? ==> Answer(cleaned, base, op.client, op.at) == Answer(ss, base, op.client, op.at)
    ensures op.GetBackup? ==> Backup(cleaned, op.client) == Backup(ss, op.client)
  {
    match op
    case Get(client, at) => CleanedGet(cleaned, ss, base, w, client, at);
    case Cleanup(at) => CleanedCleanup(cleaned, ss, base, w, at);
    case _ => CleanedWrite(cleaned, ss, base, w, op);
  }

  /**
   Cleanups anywhere in a trace change no answer and no session that is still there at its end, as long
   as a client is asked for again, strictly later, before its session is continued: the handler's own
   order, with no cleanup between its get and its success.
   */
  lemma CleanupsAreInvisible(ss: Sessions, base: nat, ops: seq<Op>)
    requires AllInOrder(ops, Watch(None, {}))
    ensures Answers(ss, base, ops) == Answers(ss, base, WithoutCleanups(ops))
    ensures forall c :: c in Replay(ss, base, ops) ==>
      Find(Replay(ss, base, WithoutCleanups(ops)), c) == Find(Replay(ss, base, ops), c)
  {
    CleanedReplay(ss, ss, base, Watch(None, {}), ops);
  }

  /**
   A cleanup between the get and the success is another matter. The session after the success is the
   same as without the cleanup if and only if there was none, or the cleanup kept it, or it was
   already what a first success at that instant makes of nothing.
   */
  lemma CleanupForgetsExactly(ss: Sessions, base: nat, client: Client, key: string, at: Time, now: Time)
    ensures AfterUse(Find(AfterCleanup(ss, base, at), client), key, now) == AfterUse(Find(ss, client), key, now) <==>
      || client !in ss
      || KeptByCleanup(ss[client], base, at)
      || (var s := ss[client];
          s.proxyKey == key && s.backup == None && s.createdAt == now && s.successCount == 0)
    ensures client in ss && !KeptByCleanup(ss[client], base, at) ==>
      AfterUse(Find(AfterCleanup(ss, base, at), client), key, now) == NewSession(key, now)
  {
  }

  /** Nor does a touch bring a session back: without the cleanup it would have. */
  lemma TouchRevivesExactly(ss: Sessions, base: nat, client: Client, at: Time, touched: Time, now: Time)
    requires client in ss && touched <= now
    ensures Answer(AfterTouch(AfterCleanup(ss, base, at), client, touched), base, client, now) ==
            Answer(AfterTouch(ss, client, touched), base, client, now) <==>
      KeptByCleanup(ss[client], base, at) || now > touched + EffectiveTtl(base, ss[client].successCount) * SECOND
  {
  }
}
