/** The pool of connections opened ahead of time, with an account of where every one of them ended up. */
module WarmPool {
  import opened Words
  import opened Wrappers
  import opened Ordering
  import opened Proxies

  // `id` stands for the socket.
  datatype Conn = Conn(id: nat, key: string, establishedAt: Time)

  // The clock and the outcome of connection attempts; every attempt may take time.
  class Network {
    var now: Time
    var nextSocket: nat
    ghost var refusals: nat

    constructor (now: Time)
      ensures this.now == now
    {
      this.now, nextSocket, refusals := now, 0, 0;
    }

    method Connect(address: string) returns (socket: Option<nat>)
      modifies this
      ensures now >= old(now)
      ensures socket.Some? ==>
        socket.value == old(nextSocket) && nextSocket == old(nextSocket) + 1 && refusals == old(refusals)
      ensures socket == None ==> nextSocket == old(nextSocket) && refusals == old(refusals) + 1
    {
      var later :| later >= now;
      now := later;
      if * {
        socket := Some(nextSocket);
        nextSocket := nextSocket + 1;
      } else {
        socket := None;
        refusals := refusals + 1;
      }
    }

    // Anything else that takes time and may fail: here, opening a tunnel through a proxy.
    method Attempt() returns (ok: bool)
      modifies this`now
      ensures now >= old(now)
    {
      var later :| later >= now;
      now := later;
      ok := *;
    }
  }

  // Instant::elapsed saturates at zero.
  predicate Young(c: Conn, now: Time, maxAge: nat) {
    (if now < c.establishedAt then 0 else now - c.establishedAt) < maxAge
  }

  /** A connection is young as long as it was established less than the maximal age ago. */
  lemma AgeExactly(now: Time, maxAge: nat)
    ensures forall c: Conn :: c.establishedAt <= now ==> (Young(c, now, maxAge) <==> now - c.establishedAt < maxAge)
    ensures forall c: Conn :: c.establishedAt > now ==> (Young(c, now, maxAge) <==> maxAge > 0)
  {
  }

  // ---- Queues ----

  ghost predicate ByAge(q: seq<Conn>) {
    forall i, j :: 0 <= i < j < |q| ==> q[i].establishedAt <= q[j].establishedAt
  }

  datatype Taken = Taken(conn: Option<Conn>, rest: seq<Conn>, dropped: seq<Conn>)

  // Pops from the front until a young, live connection is found.
  function TakeFrom(q: seq<Conn>, now: Time, maxAge: nat, alive: Conn -> bool): Taken {
    if q == [] then Taken(None, [], [])
    else if Young(q[0], now, maxAge) && alive(q[0]) then Taken(Some(q[0]), q[1..], [])
    else
      var t := TakeFrom(q[1..], now, maxAge, alive);
      t.(dropped := [q[0]] + t.dropped)
  }

  function YoungOnes(q: seq<Conn>, now: Time, maxAge: nat): (r: seq<Conn>)
    ensures |r| <= |q| && forall c :: c in r <==> c in q && Young(c, now, maxAge)
  {
    if q == [] then []
    else
      assert q == [q[0]] + q[1..];
      (if Young(q[0], now, maxAge) then [q[0]] else []) + YoungOnes(q[1..], now, maxAge)
  }

  /**
   What a take does to a queue: it cuts it into dropped, taken and kept parts; the taken connection is
   young and alive, every dropped one stale or dead, and nothing is found only if nothing is left.
   */
  lemma {:induction false} TakeCutsQueue(q: seq<Conn>, now: Time, maxAge: nat, alive: Conn -> bool)
    ensures var t := TakeFrom(q, now, maxAge, alive);
      && q == t.dropped + (if t.conn.Some? then [t.conn.value] else []) + t.rest
      && (t.conn.Some? ==> Young(t.conn.value, now, maxAge) && alive(t.conn.value))
      && (forall c :: c in t.dropped ==> !(Young(c, now, maxAge) && alive(c)))
      && (t.conn == None ==> t.rest == [])
    ensures var t := TakeFrom(q, now, maxAge, alive);
      && (t.conn.Some? && t.conn.value.establishedAt <= now ==> now - t.conn.value.establishedAt < maxAge)
      && (forall c :: c in t.dropped && alive(c) && c.establishedAt <= now ==> now - c.establishedAt >= maxAge)
  {
    AgeExactly(now, maxAge);
    hide Young;
    if q == [] {
    } else if Young(q[0], now, maxAge) && alive(q[0]) {
      assert q == [q[0]] + q[1..];
    } else {
      var t := TakeFrom(q[1..], now, maxAge, alive);
      TakeCutsQueue(q[1..], now, maxAge, alive);
      assert q == [q[0]] + (t.dropped + (if t.conn.Some? then [t.conn.value] else []) + t.rest);
    }
  }

  function StaleCount(q: seq<Conn>, now: Time, maxAge: nat): (k: nat)
    ensures k <= |q| && (k < |q| ==> Young(q[k], now, maxAge))
    ensures forall i :: 0 <= i < k ==> !Young(q[i], now, maxAge)
  {
    if q == [] || Young(q[0], now, maxAge) then 0 else 1 + StaleCount(q[1..], now, maxAge)
  }

  lemma {:induction false} YoungSuffix(q: seq<Conn>, now: Time, maxAge: nat, k: nat)
    requires k <= |q|
    requires forall i :: 0 <= i < k ==> !Young(q[i], now, maxAge)
    requires forall i :: k <= i < |q| ==> Young(q[i], now, maxAge)
    ensures YoungOnes(q, now, maxAge) == q[k..]
  {
    hide Young;
    if q == [] {
    } else if k == 0 {
      YoungSuffix(q[1..], now, maxAge, 0);
      assert q == [q[0]] + q[1..];
    } else {
      YoungSuffix(q[1..], now, maxAge, k - 1);
    }
  }

  /** In a queue by age the stale connections come first, so dropping them cuts a prefix off. */
  lemma StaleIsPrefix(q: seq<Conn>, now: Time, maxAge: nat)
    requires ByAge(q)
    ensures YoungOnes(q, now, maxAge) == q[StaleCount(q, now, maxAge)..]
    ensures forall i :: StaleCount(q, now, maxAge) <= i < |q| ==> Young(q[i], now, maxAge)
  {
    var k := StaleCount(q, now, maxAge);
    forall i | k <= i < |q| ensures Young(q[i], now, maxAge) {
      assert q[k].establishedAt <= q[i].establishedAt;
    }
    YoungSuffix(q, now, maxAge, k);
  }

  // ---- The account ----

  // The queues, every connection ever made, those handed out in order, and those dropped.
  datatype Account = Account(queues: map<string, seq<Conn>>, made: set<Conn>, handed: seq<Conn>, dropped: set<Conn>)
  {
    function Queue(key: string): seq<Conn> {
      if key in queues then queues[key] else []
    }
  }

  // Every queue is by age, within its size, and holds each connection once and under its own key.
  ghost predicate QueueInOrder(key: string, q: seq<Conn>, size: nat, now: Time) {
    && |q| <= size && ByAge(q) && Distinct(q)
    && forall c :: c in q ==> c.key == key && c.establishedAt <= now
  }

  ghost predicate QueuesInOrder(a: Account, size: nat, now: Time) {
    forall k :: k in a.queues ==> QueueInOrder(k, a.queues[k], size, now)
  }

  // Every connection made is in exactly one place (its own key's queue, handed out, dropped), nothing
  // else is anywhere, and none was handed out twice.
  ghost predicate Placed(a: Account) {
    && (forall c :: c in a.made <==> c in a.Queue(c.key) || c in a.handed || c in a.dropped)
    && (forall c :: c in a.handed ==> c !in a.dropped && c !in a.Queue(c.key))
    && (forall c :: c in a.dropped ==> c !in a.Queue(c.key))
    && Distinct(a.handed)
  }

  // No two connections share a socket.
  ghost predicate SocketsDiffer(made: set<Conn>, nextSocket: nat) {
    && (forall c :: c in made ==> c.id < nextSocket)
    && (forall c, d :: c in made && d in made && c.id == d.id ==> c == d)
  }

  ghost predicate Balanced(a: Account, size: nat, now: Time, nextSocket: nat) {
    QueuesInOrder(a, size, now) && Placed(a) && SocketsDiffer(a.made, nextSocket)
  }

  function AfterTake(a: Account, key: string, now: Time, maxAge: nat, alive: Conn -> bool): Account {
    if key !in a.queues then a
    else
      var t := TakeFrom(a.queues[key], now, maxAge, alive);
      a.(queues := a.queues[key := t.rest],
         handed := a.handed + (if t.conn.Some? then [t.conn.value] else []),
         dropped := a.dropped + set c | c in t.dropped)
  }

  function AfterRetain(a: Account, active: set<string>): Account {
    a.(queues := map k | k in a.queues && k in active :: a.queues[k],
       dropped := a.dropped + set c | c in a.made && c.key !in active && c in a.Queue(c.key))
  }

  function AfterExpiry(a: Account, key: string, now: Time, maxAge: nat): Account {
    var q := a.Queue(key);
    a.(queues := a.queues[key := YoungOnes(q, now, maxAge)],
       dropped := a.dropped + set c | c in q && !Young(c, now, maxAge))
  }

  function AfterConnect(a: Account, c: Conn): Account {
    a.(queues := a.queues[c.key := a.Queue(c.key) + [c]], made := a.made + {c})
  }

  // Part of one queue leaves it: some handed out, some dropped.
  lemma MoveKeepsPlaces(a: Account, b: Account, key: string, out: seq<Conn>, given: seq<Conn>, rest: seq<Conn>)
    requires Placed(a) && Distinct(given) && b.made == a.made
    requires b.queues == a.queues[key := rest]
    requires b.handed == a.handed + given && b.dropped == a.dropped + set c | c in out
    requires forall c :: c in a.Queue(key) <==> c in out || c in given || c in rest
    requires forall c :: !(c in out && c in given) && !(c in out && c in rest) && !(c in given && c in rest)
    requires forall c :: c in a.Queue(key) ==> c.key == key
    ensures Placed(b)
  {
    forall c: Conn ensures c in b.Queue(c.key) <==> if c.key == key then c in rest else c in a.Queue(c.key) {
    }
    assert Distinct(b.handed) by {
      assert forall c :: c in given ==> c !in a.handed;
    }
  }

  lemma PartsDisjoint<T>(x: seq<T>, y: seq<T>)
    requires Distinct(x + y)
    ensures Distinct(x) && Distinct(y)
    ensures forall c :: !(c in x && c in y)
  {
    var q := x + y;
    forall i, j | 0 <= i < |x| && 0 <= j < |y| ensures x[i] != y[j] {
      assert q[i] == x[i] && q[|x| + j] == y[j];
    }
    forall i, j | 0 <= i < j < |y| ensures y[i] != y[j] {
      assert q[|x| + i] == y[i] && q[|x| + j] == y[j];
    }
    forall i, j | 0 <= i < j < |x| ensures x[i] != x[j] {
      assert q[i] == x[i] && q[j] == x[j];
    }
  }

  // The three parts of a cut queue share nothing, cover it, and the last is in order.
  lemma CutInThree(q: seq<Conn>, x: seq<Conn>, y: seq<Conn>, z: seq<Conn>, key: string, size: nat, now: Time)
    requires q == x + y + z && QueueInOrder(key, q, size, now)
    ensures QueueInOrder(key, z, size, now) && Distinct(y)
    ensures forall c :: c in q <==> c in x || c in y || c in z
    ensures forall c :: !(c in x && c in y) && !(c in x && c in z) && !(c in y && c in z)
  {
    hide Distinct, ByAge;
    assert q == x + (y + z);
    PartsDisjoint(x, y + z);
    PartsDisjoint(y, z);
    assert z == q[|x| + |y|..];
    SuffixByAge(q, |x| + |y|);
  }

  lemma SuffixByAge(q: seq<Conn>, k: nat)
    requires k <= |q| && ByAge(q)
    ensures ByAge(q[k..])
  {
  }

  lemma EmptyInOrder(key: string, size: nat, now: Time)
    ensures QueueInOrder(key, [], size, now)
  {
  }

  lemma QueueOf(a: Account, key: string, size: nat, now: Time)
    requires QueuesInOrder(a, size, now)
    ensures QueueInOrder(key, a.Queue(key), size, now)
  {
    hide QueueInOrder;
    EmptyInOrder(key, size, now);
  }

  lemma QueueReplaced(a: Account, b: Account, key: string, q: seq<Conn>, size: nat, now: Time)
    requires QueuesInOrder(a, size, now) && QueueInOrder(key, q, size, now) && b.queues == a.queues[key := q]
    ensures QueuesInOrder(b, size, now)
  {
    hide QueueInOrder;
  }

  lemma InOrderKeys(key: string, q: seq<Conn>, size: nat, now: Time)
    requires QueueInOrder(key, q, size, now)
    ensures forall c :: c in q ==> c.key == key
  {
  }

  /** A take keeps the account balanced. */
  lemma TakeKeepsBalance(a: Account, key: string, now: Time, maxAge: nat, alive: Conn -> bool, size: nat,
                         nextSocket: nat)
    requires Balanced(a, size, now, nextSocket)
    ensures Balanced(AfterTake(a, key, now, maxAge, alive), size, now, nextSocket)
  {
    hide SocketsDiffer, Placed, QueuesInOrder, QueueInOrder, TakeFrom, Young;
    if key in a.queues {
      var q := a.queues[key];
      var t := TakeFrom(q, now, maxAge, alive);
      TakeCutsQueue(q, now, maxAge, alive);
      var given: seq<Conn> := if t.conn.Some? then [t.conn.value] else [];
      QueueOf(a, key, size, now);
      InOrderKeys(key, q, size, now);
      CutInThree(q, t.dropped, given, t.rest, key, size, now);
      QueueReplaced(a, AfterTake(a, key, now, maxAge, alive), key, t.rest, size, now);
      MoveKeepsPlaces(a, AfterTake(a, key, now, maxAge, alive), key, t.dropped, given, t.rest);
    }
  }

  /** Forgetting the keys outside the top set keeps the account balanced: their connections count as dropped. */
  lemma RetainKeepsBalance(a: Account, active: set<string>, size: nat, now: Time, nextSocket: nat)
    requires Balanced(a, size, now, nextSocket)
    ensures Balanced(AfterRetain(a, active), size, now, nextSocket)
    ensures forall k :: k in AfterRetain(a, active).queues <==> k in a.queues && k in active
  {
    var b := AfterRetain(a, active);
    forall c: Conn ensures c in b.Queue(c.key) <==> c in a.Queue(c.key) && c.key in active {
    }
  }

  lemma StaleSet(q: seq<Conn>, now: Time, maxAge: nat, k: nat)
    requires k <= |q|
    requires forall i :: 0 <= i < k ==> !Young(q[i], now, maxAge)
    requires forall i :: k <= i < |q| ==> Young(q[i], now, maxAge)
    ensures (set c | c in q && !Young(c, now, maxAge)) == set c | c in q[..k]
  {
    hide Young;
    forall c ensures c in q[..k] <==> c in q && !Young(c, now, maxAge) {
    }
  }

  // The stale part and the young part of one queue.
  lemma ExpiryCuts(q: seq<Conn>, key: string, size: nat, now: Time, maxAge: nat, k: nat)
    requires QueueInOrder(key, q, size, now) && k == StaleCount(q, now, maxAge)
    ensures k <= |q| && YoungOnes(q, now, maxAge) == q[k..] && QueueInOrder(key, q[k..], size, now)
    ensures (set c | c in q && !Young(c, now, maxAge)) == set c | c in q[..k]
    ensures forall c :: c in q <==> c in q[..k] || c in q[k..]
    ensures forall c :: !(c in q[..k] && c in q[k..])
    ensures forall c :: c in q ==> c.key == key
  {
    hide YoungOnes, Young, StaleCount, ByAge, Distinct;
    InOrderByAge(key, q, size, now);
    StaleIsPrefix(q, now, maxAge);
    assert q == q[..k] + [] + q[k..];
    CutInThree(q, q[..k], [], q[k..], key, size, now);
    StaleSet(q, now, maxAge, k);
  }

  lemma InOrderByAge(key: string, q: seq<Conn>, size: nat, now: Time)
    requires QueueInOrder(key, q, size, now)
    ensures ByAge(q)
  {
  }

  /** Dropping a queue's stale connections keeps the account balanced. */
  lemma ExpiryKeepsBalance(a: Account, key: string, now: Time, maxAge: nat, size: nat, nextSocket: nat)
    requires Balanced(a, size, now, nextSocket)
    ensures Balanced(AfterExpiry(a, key, now, maxAge), size, now, nextSocket)
  {
    hide SocketsDiffer, Placed, QueuesInOrder, QueueInOrder, YoungOnes, Young, StaleCount;
    var q, b := a.Queue(key), AfterExpiry(a, key, now, maxAge);
    var k := StaleCount(q, now, maxAge);
    QueueOf(a, key, size, now);
    ExpiryCuts(q, key, size, now, maxAge, k);
    QueueReplaced(a, b, key, q[k..], size, now);
    NothingGiven();
    MoveKeepsPlaces(a, b, key, q[..k], [], q[k..]);
  }

  lemma NothingGiven()
    ensures Distinct<Conn>([])
  {
  }

  /** A new connection at the back of its queue keeps the account balanced. */
  lemma ConnectKeepsBalance(a: Account, c: Conn, size: nat, now: Time, later: Time, nextSocket: nat)
    requires Balanced(a, size, now, nextSocket) && now <= later
    requires c.id == nextSocket && c.establishedAt == later && |a.Queue(c.key)| < size
    ensures Balanced(AfterConnect(a, c), size, later, nextSocket + 1)
    ensures c !in a.made
  {
    var q, b := a.Queue(c.key), AfterConnect(a, c);
    assert QueueInOrder(c.key, q + [c], size, later);
    forall d: Conn ensures d in b.Queue(d.key) <==> d in a.Queue(d.key) || d == c {
    }
  }

  lemma QueueFits(a: Account, key: string, size: nat, now: Time, nextSocket: nat)
    requires Balanced(a, size, now, nextSocket)
    ensures |a.Queue(key)| <= size
  {
  }

  // ---- Whole histories ----

  // What takes and refreshes consist of, each at its time.
  datatype Move =
    | Take(key: string, alive: Conn -> bool, at: Time)
    | Retain(active: set<string>, at: Time)
    | Expire(key: string, at: Time)
    | Connect(key: string, at: Time)

  // The account with the number of sockets opened and of takes asked for so far.
  datatype History = History(account: Account, sockets: nat, takes: nat)

  function AfterMove(h: History, m: Move, maxAge: nat): History {
    match m
    case Take(key, alive, at) => h.(account := AfterTake(h.account, key, at, maxAge, alive), takes := h.takes + 1)
    case Retain(active, _) => h.(account := AfterRetain(h.account, active))
    case Expire(key, at) => h.(account := AfterExpiry(h.account, key, at, maxAge))
    case Connect(key, at) => h.(account := AfterConnect(h.account, Conn(h.sockets, key, at)), sockets := h.sockets + 1)
  }

  // Times do not go back, and a connection is opened only while its queue has room.
  ghost predicate ValidMoves(h: History, moves: seq<Move>, size: nat, maxAge: nat, now: Time)
    decreases |moves|
  {
    moves == [] ||
    (now <= moves[0].at
     && (moves[0].Connect? ==> |h.account.Queue(moves[0].key)| < size)
     && ValidMoves(AfterMove(h, moves[0], maxAge), moves[1..], size, maxAge, moves[0].at))
  }

  function AfterMoves(h: History, moves: seq<Move>, maxAge: nat): History
    decreases |moves|
  {
    if moves == [] then h else AfterMoves(AfterMove(h, moves[0], maxAge), moves[1..], maxAge)
  }

  function LastMove(moves: seq<Move>, now: Time): Time {
    if moves == [] then now else LastMove(moves[1..], moves[0].at)
  }

  lemma MoveKeepsBalance(h: History, m: Move, size: nat, maxAge: nat, now: Time)
    requires Balanced(h.account, size, now, h.sockets) && |h.account.handed| <= h.takes && now <= m.at
    requires m.Connect? ==> |h.account.Queue(m.key)| < size
    ensures var g := AfterMove(h, m, maxAge);
      Balanced(g.account, size, m.at, g.sockets) && |g.account.handed| <= g.takes
      && h.account.handed <= g.account.handed
      && h.account.made <= g.account.made && h.account.dropped <= g.account.dropped
  {
    hide Balanced;
    LaterKeepsBalance(h.account, size, now, m.at, h.sockets);
    match m
    case Take(key, alive, at) => TakeKeepsBalance(h.account, key, at, maxAge, alive, size, h.sockets);
    case Retain(active, at) => RetainKeepsBalance(h.account, active, size, at, h.sockets);
    case Expire(key, at) => ExpiryKeepsBalance(h.account, key, at, maxAge, size, h.sockets);
    case Connect(key, at) => ConnectKeepsBalance(h.account, Conn(h.sockets, key, at), size, at, at, h.sockets);
  }

  /**
   Over any history of takes and refreshes every connection opened stays in exactly one place, hand-outs
   and drops are final, and no more connections are handed out than takes were asked for.
   */
  lemma {:induction false} HistoryKeepsBalance(h: History, moves: seq<Move>, size: nat, maxAge: nat, now: Time)
    requires Balanced(h.account, size, now, h.sockets) && |h.account.handed| <= h.takes
    requires ValidMoves(h, moves, size, maxAge, now)
    ensures var g := AfterMoves(h, moves, maxAge);
      Balanced(g.account, size, LastMove(moves, now), g.sockets) && |g.account.handed| <= g.takes
      && h.account.handed <= g.account.handed
      && h.account.made <= g.account.made && h.account.dropped <= g.account.dropped
    decreases |moves|
  {
    hide Balanced, AfterMove;
    if moves == [] {
    } else {
      MoveKeepsBalance(h, moves[0], size, maxAge, now);
      HistoryKeepsBalance(AfterMove(h, moves[0], maxAge), moves[1..], size, maxAge, moves[0].at);
    }
  }

  // The move drops this connection, and why.
  ghost predicate Drops(m: Move, c: Conn, maxAge: nat) {
    match m
    case Take(key, alive, at) => c.key == key && (at - c.establishedAt >= maxAge || !alive(c))
    case Retain(active, _) => c.key !in active
    case Expire(key, at) => c.key == key && at - c.establishedAt >= maxAge
    case Connect(_, _) => false
  }

  lemma OneMoveDrops(h: History, m: Move, size: nat, maxAge: nat, now: Time, c: Conn)
    requires Balanced(h.account, size, now, h.sockets) && now <= m.at
    requires c in AfterMove(h, m, maxAge).account.dropped && c !in h.account.dropped
    ensures Drops(m, c, maxAge)
  {
    hide Young, Placed, SocketsDiffer, ByAge, Distinct, TakeFrom;
    AgeExactly(m.at, maxAge);
    if m.Take? && m.key in h.account.queues {
      TakeCutsQueue(h.account.queues[m.key], m.at, maxAge, m.alive);
    }
  }

  /** Whatever is dropped in a history is dropped by one of its moves, for the reason that held at that move. */
  lemma {:induction false} DroppedWithCause(h: History, moves: seq<Move>, size: nat, maxAge: nat, now: Time, c: Conn)
    requires Balanced(h.account, size, now, h.sockets) && |h.account.handed| <= h.takes
    requires ValidMoves(h, moves, size, maxAge, now)
    requires c in AfterMoves(h, moves, maxAge).account.dropped && c !in h.account.dropped
    ensures exists m :: m in moves && Drops(m, c, maxAge)
    decreases |moves|
  {
    hide Balanced, AfterMove, Drops;
    var h' := AfterMove(h, moves[0], maxAge);
    if c in h'.account.dropped {
      OneMoveDrops(h, moves[0], size, maxAge, now, c);
      assert moves[0] in moves;
    } else {
      MoveKeepsBalance(h, moves[0], size, maxAge, now);
      DroppedWithCause(h', moves[1..], size, maxAge, moves[0].at, c);
    }
  }

  lemma {:induction false} AppendMoves(h: History, a: seq<Move>, b: seq<Move>, size: nat, maxAge: nat,
                                       now: Time, mid: Time)
    requires ValidMoves(h, a, size, maxAge, now) && LastMove(a, now) <= mid
    requires ValidMoves(AfterMoves(h, a, maxAge), b, size, maxAge, mid)
    ensures ValidMoves(h, a + b, size, maxAge, now)
    ensures AfterMoves(h, a + b, maxAge) == AfterMoves(AfterMoves(h, a, maxAge), b, maxAge)
    ensures LastMove(a + b, now) <= LastMove(b, mid)
    decreases |a|
  {
    hide AfterMove;
    if a == [] {
      assert a + b == b;
    } else {
      AppendMoves(AfterMove(h, a[0], maxAge), a[1..], b, size, maxAge, a[0].at, mid);
      assert (a + b)[1..] == a[1..] + b;
    }
  }

  lemma OneMove(h: History, m: Move, size: nat, maxAge: nat, now: Time)
    requires now <= m.at && (m.Connect? ==> |h.account.Queue(m.key)| < size)
    ensures ValidMoves(h, [m], size, maxAge, now)
    ensures AfterMoves(h, [m], maxAge) == AfterMove(h, m, maxAge) && LastMove([m], now) == m.at
  {
    hide AfterMove;
    assert [m][1..] == [];
  }

  function FirstKeys(top: seq<(string, string)>, n: nat): set<string>
    requires n <= |top|
  {
    set i | 0 <= i < n :: top[i].0
  }

  // What a take hands out and drops, in terms of ages.
  lemma TakeInNumbers(h: History, key: string, now: Time, maxAge: nat, alive: Conn -> bool, size: nat)
    requires Balanced(h.account, size, now, h.sockets)
    ensures key in h.account.queues ==>
      var t := TakeFrom(h.account.queues[key], now, maxAge, alive);
      t.conn.Some? ==> alive(t.conn.value) && now - t.conn.value.establishedAt < maxAge
    ensures forall c ::
      c in AfterMove(h, Move.Take(key, alive, now), maxAge).account.dropped && c !in h.account.dropped ==>
      c.key == key && (now - c.establishedAt >= maxAge || !alive(c))
  {
    hide Young, TakeFrom, SocketsDiffer, Placed, ByAge, Distinct;
    if key in h.account.queues {
      var q := h.account.queues[key];
      TakeCutsQueue(q, now, maxAge, alive);
      var t := TakeFrom(q, now, maxAge, alive);
      if t.conn.Some? {
        assert q[|t.dropped|] == t.conn.value && t.conn.value in q;
      }
    }
    forall c | c in AfterMove(h, Move.Take(key, alive, now), maxAge).account.dropped && c !in h.account.dropped
      ensures c.key == key && (now - c.establishedAt >= maxAge || !alive(c))
    {
      OneMoveDrops(h, Move.Take(key, alive, now), size, maxAge, now, c);
    }
  }

  // A refresh: forget the keys outside the active set, then expire every queue that is served, and
  // connect for no other.
  ghost predicate IsRefresh(moves: seq<Move>, active: set<string>, served: set<string>, start: Time) {
    && moves != [] && moves[0] == Move.Retain(active, start)
    && (forall i :: 1 <= i < |moves| ==> (moves[i].Expire? || moves[i].Connect?) && moves[i].key in served)
    && (forall k :: k in served ==> exists i :: 1 <= i < |moves| && moves[i].Expire? && moves[i].key == k)
  }

  lemma NothingServed(top: seq<(string, string)>, active: set<string>, start: Time)
    ensures IsRefresh([Move.Retain(active, start)], active, FirstKeys(top, 0), start)
  {
  }

  lemma OneMoreServed(top: seq<(string, string)>, i: nat)
    requires i < |top|
    ensures FirstKeys(top, i + 1) == FirstKeys(top, i) + {top[i].0} && top[i].0 in FirstKeys(top, |top|)
  {
  }

  // One more queue served.
  lemma ServeOneMore(moves: seq<Move>, round: seq<Move>, active: set<string>, served: set<string>,
                     start: Time, key: string)
    requires IsRefresh(moves, active, served, start)
    requires round != [] && round[0].Expire? && forall i :: 0 <= i < |round| ==> (round[i].Expire? || round[i].Connect?)
    requires forall i :: 0 <= i < |round| ==> round[i].key == key
    ensures IsRefresh(moves + round, active, served + {key}, start)
  {
    var all := moves + round;
    forall k | k in served + {key} ensures exists i :: 1 <= i < |all| && all[i].Expire? && all[i].key == k {
      if k in served {
        var i :| 1 <= i < |moves| && moves[i].Expire? && moves[i].key == k;
        assert all[i] == moves[i];
      } else {
        assert all[|moves|] == round[0];
      }
    }
  }

  // What a refresh may drop: what the retain takes out, and what is stale at its own expiry.
  lemma RefreshDrops(moves: seq<Move>, active: set<string>, served: set<string>, start: Time, maxAge: nat, c: Conn)
    requires IsRefresh(moves, active, served, start) && exists m :: m in moves && Drops(m, c, maxAge)
    ensures c.key !in active || exists at :: Move.Expire(c.key, at) in moves && at - c.establishedAt >= maxAge
  {
    var m :| m in moves && Drops(m, c, maxAge);
    if m.Expire? {
      assert m == Move.Expire(c.key, m.at);
    }
  }

  lemma RefreshCauses(h: History, moves: seq<Move>, active: set<string>, served: set<string>, size: nat, maxAge: nat,
                      start: Time)
    requires Balanced(h.account, size, start, h.sockets) && |h.account.handed| <= h.takes
    requires ValidMoves(h, moves, size, maxAge, start) && IsRefresh(moves, active, served, start)
    ensures forall c :: c in AfterMoves(h, moves, maxAge).account.dropped && c !in h.account.dropped ==>
      c.key !in active || exists at :: Move.Expire(c.key, at) in moves && at - c.establishedAt >= maxAge
  {
    hide Balanced, ValidMoves, AfterMoves, IsRefresh, Young, Drops;
    forall c | c in AfterMoves(h, moves, maxAge).account.dropped && c !in h.account.dropped
      ensures c.key !in active || exists at :: Move.Expire(c.key, at) in moves && at - c.establishedAt >= maxAge
    {
      DroppedWithCause(h, moves, size, maxAge, start, c);
      RefreshDrops(moves, active, served, start, maxAge, c);
    }
  }

  // ---- The pool ----

  method PopFirstLive(queue: seq<Conn>, now: Time, maxAge: nat, alive: Conn -> bool)
    returns (conn: Option<Conn>, rest: seq<Conn>)
    ensures conn == TakeFrom(queue, now, maxAge, alive).conn
    ensures rest == TakeFrom(queue, now, maxAge, alive).rest
  {
    rest := queue;
    while rest != []
      invariant TakeFrom(rest, now, maxAge, alive).conn == TakeFrom(queue, now, maxAge, alive).conn
      invariant TakeFrom(rest, now, maxAge, alive).rest == TakeFrom(queue, now, maxAge, alive).rest
      decreases |rest|
    {
      var c := rest[0];
      rest := rest[1..];
      if Young(c, now, maxAge) {
        if alive(c) {
          return Some(c), rest;
        }
      }
    }
    conn := None;
  }

  class Pool {
    var connections: map<string, seq<Conn>>
    const maxPerProxy: nat
    const maxProxies: nat
    const maxAge: nat
    var hits: U64
    var misses: U64
    const network: Network

    ghost var made: set<Conn>
    ghost var handed: seq<Conn>
    ghost var dropped: set<Conn>
    ghost var takes: nat

    ghost function View(): Account
      reads this
    {
      Account(connections, made, handed, dropped)
    }

    ghost function Ledger(): History
      reads this, network
    {
      History(View(), network.nextSocket, takes)
    }

    ghost predicate Valid()
      reads this, network
    {
      && Balanced(View(), maxPerProxy, network.now, network.nextSocket)
      && |handed| <= takes
      && hits == |handed| % TWO_64 && misses == (takes - |handed|) % TWO_64
    }

    constructor (maxPerProxy: nat, maxProxies: nat, maxAge: nat, network: Network)
      ensures Valid() && View() == Account(map[], {}, [], {}) && takes == 0
      ensures this.maxPerProxy == maxPerProxy && this.maxProxies == maxProxies && this.maxAge == maxAge
      ensures this.network == network
    {
      connections := map[];
      this.maxPerProxy, this.maxProxies, this.maxAge, this.network := maxPerProxy, maxProxies, maxAge, network;
      hits, misses := 0, 0;
      made, handed, dropped, takes := {}, [], {}, 0;
    }

    // `alive` is what the non-blocking peek says of each socket.
    method Take(key: string, alive: Conn -> bool) returns (conn: Option<Conn>)
      requires Valid()
      modifies this
      ensures Valid() && takes == old(takes) + 1
      ensures View() == AfterTake(old(View()), key, network.now, maxAge, alive)
      ensures Ledger() == AfterMove(old(Ledger()), Move.Take(key, alive, network.now), maxAge)
      ensures conn == if key in old(connections)
                      then TakeFrom(old(connections[key]), network.now, maxAge, alive).conn else None
      ensures conn.Some? ==> alive(conn.value) && network.now - conn.value.establishedAt < maxAge
      ensures forall c :: c in dropped && c !in old(dropped) ==>
        c.key == key && (network.now - c.establishedAt >= maxAge || !alive(c))
    {
      hide Balanced, Young, TakeFrom, Next64, Drops;
      TakeInNumbers(Ledger(), key, network.now, maxAge, alive, maxPerProxy);
      Next64Counts(|handed|);
      Next64Counts(takes - |handed|);
      TakeKeepsBalance(View(), key, network.now, maxAge, alive, maxPerProxy, network.nextSocket);
      takes := takes + 1;
      if key !in connections {
        misses := Next64(misses);
        return None;
      }
      var q := connections[key];
      var rest;
      conn, rest := PopFirstLive(q, network.now, maxAge, alive);
      connections := connections[key := rest];
      handed := handed + if conn.Some? then [conn.value] else [];
      dropped := dropped + set c | c in TakeFrom(q, network.now, maxAge, alive).dropped;
      if conn.Some? {
        hits := Next64(hits);
      } else {
        misses := Next64(misses);
      }
    }

    /**
     The moves say what happened when: connections of keys outside the top set are dropped at the start,
     others only when they are stale at the expiry of their own queue.
     */
    method Refresh(top: seq<(string, string)>) returns (ghost moves: seq<Move>)
      requires Valid()
      modifies this, network
      ensures Valid() && network.now >= old(network.now)
      ensures ValidMoves(old(Ledger()), moves, maxPerProxy, maxAge, old(network.now))
      ensures Ledger() == AfterMoves(old(Ledger()), moves, maxAge) && LastMove(moves, old(network.now)) <= network.now
      ensures IsRefresh(moves, FirstKeys(top, |top|), FirstKeys(top, Min(maxProxies, |top|)), old(network.now))
      ensures forall c :: c in dropped && c !in old(dropped) ==>
        || c.key !in FirstKeys(top, |top|)
        || exists at :: Move.Expire(c.key, at) in moves && at - c.establishedAt >= maxAge
      ensures connections.Keys <= FirstKeys(top, |top|)
      ensures handed == old(handed) && takes == old(takes) && old(made) <= made
      ensures network.refusals == old(network.refusals) ==>
        forall i :: 0 <= i < Min(maxProxies, |top|) ==>
          top[i].0 in connections && |connections[top[i].0]| == maxPerProxy
    {
      hide Balanced, YoungOnes, Young, AfterMoves, ValidMoves, LastMove, Drops, AfterMove, IsRefresh, FirstKeys;
      var active := FirstKeys(top, |top|);
      moves := Retain(active);
      NothingServed(top, active, network.now);
      for i := 0 to Min(maxProxies, |top|)
        invariant Valid()
        invariant Follows(old(Ledger()), moves, old(network.now))
        invariant IsRefresh(moves, active, FirstKeys(top, i), old(network.now))
        invariant connections.Keys <= active
        invariant handed == old(handed) && takes == old(takes) && old(made) <= made
        invariant network.now >= old(network.now) && network.refusals >= old(network.refusals)
        invariant network.refusals == old(network.refusals) ==>
          forall j :: 0 <= j < i ==> top[j].0 in connections && |connections[top[j].0]| == maxPerProxy
      {
        ghost var now0 := network.now;
        ghost var round := RefreshOne(top[i].0, top[i].1);
        AppendMoves(old(Ledger()), moves, round, maxPerProxy, maxAge, old(network.now), now0);
        ServeOneMore(moves, round, active, FirstKeys(top, i), old(network.now), top[i].0);
        moves := moves + round;
        OneMoreServed(top, i);
      }
      RefreshCauses(old(Ledger()), moves, active, FirstKeys(top, Min(maxProxies, |top|)), maxPerProxy, maxAge,
                    old(network.now));
    }

    // These moves from that state, none later than now, lead to the present one.
    ghost predicate Follows(before: History, moves: seq<Move>, start: Time)
      reads this, network
    {
      && ValidMoves(before, moves, maxPerProxy, maxAge, start)
      && Ledger() == AfterMoves(before, moves, maxAge)
      && LastMove(moves, start) <= network.now
    }

    method Retain(active: set<string>) returns (ghost moves: seq<Move>)
      requires Valid()
      modifies this`connections, this`dropped
      ensures Valid() && moves == [Move.Retain(active, network.now)]
      ensures Follows(old(Ledger()), moves, network.now)
      ensures connections.Keys <= active
    {
      hide Balanced;
      RetainKeepsBalance(View(), active, maxPerProxy, network.now, network.nextSocket);
      dropped := dropped + set c | c in made && c.key !in active && c in View().Queue(c.key);
      connections := map k | k in connections && k in active :: connections[k];
      moves := [Move.Retain(active, network.now)];
      OneMove(old(Ledger()), moves[0], maxPerProxy, maxAge, network.now);
    }

    lemma KeptAreYoung(key: string)
      requires Valid()
      ensures forall c :: c in YoungOnes(View().Queue(key), network.now, maxAge) <==>
        c in View().Queue(key) && network.now - c.establishedAt < maxAge
    {
      hide YoungOnes, Young, Placed, SocketsDiffer, ByAge, Distinct;
      AgeExactly(network.now, maxAge);
      assert forall c :: c in View().Queue(key) ==> c.establishedAt <= network.now;
    }

    // Drops what is stale and connects until the queue is full or a connection is refused.
    method RefreshOne(key: string, address: string) returns (ghost moves: seq<Move>)
      requires Valid()
      modifies this, network
      ensures Valid() && Follows(old(Ledger()), moves, old(network.now))
      ensures moves != [] && moves[0] == Move.Expire(key, old(network.now))
      ensures forall i :: 1 <= i < |moves| ==> moves[i].Connect? && moves[i].key == key
      ensures handed == old(handed) && takes == old(takes) && old(made) <= made
      ensures network.now >= old(network.now) && network.refusals >= old(network.refusals)
      ensures connections.Keys == old(connections).Keys + {key}
      ensures forall k :: k in old(connections) && k != key ==> connections[k] == old(connections)[k]
      ensures var kept := YoungOnes(old(View()).Queue(key), old(network.now), maxAge);
        && kept <= connections[key]
        && forall i :: |kept| <= i < |connections[key]| ==> connections[key][i] !in old(made)
      ensures forall c :: c in YoungOnes(old(View()).Queue(key), old(network.now), maxAge) <==>
        c in old(View()).Queue(key) && old(network.now) - c.establishedAt < maxAge
      ensures network.refusals == old(network.refusals) ==> |connections[key]| == maxPerProxy
    {
      hide Valid, YoungOnes, Young, AfterMoves, ValidMoves, LastMove;
      KeptAreYoung(key);
      moves := DropStale(key);
      ghost var kept := connections[key];
      while |connections[key]| < maxPerProxy
        invariant Valid() && key in connections && |connections[key]| <= maxPerProxy
        invariant Follows(old(Ledger()), moves, old(network.now))
        invariant moves != [] && moves[0] == Move.Expire(key, old(network.now))
        invariant forall i :: 1 <= i < |moves| ==> moves[i].Connect? && moves[i].key == key
        invariant handed == old(handed) && takes == old(takes) && old(made) <= made
        invariant network.now >= old(network.now) && network.refusals == old(network.refusals)
        invariant connections.Keys == old(connections).Keys + {key}
        invariant forall k :: k in old(connections) && k != key ==> connections[k] == old(connections)[k]
        invariant kept <= connections[key]
        invariant forall i :: |kept| <= i < |connections[key]| ==> connections[key][i] !in old(made)
        decreases maxPerProxy - |connections[key]|
      {
        ghost var now0, ledger0 := network.now, Ledger();
        var connected := ConnectOne(key, address);
        if !connected {
          break;
        }
        ghost var m := Move.Connect(key, network.now);
        OneMove(ledger0, m, maxPerProxy, maxAge, network.now);
        AppendMoves(old(Ledger()), moves, [m], maxPerProxy, maxAge, old(network.now), network.now);
        moves := moves + [m];
      }
    }

    method DropStale(key: string) returns (ghost moves: seq<Move>)
      requires Valid()
      modifies this`connections, this`dropped
      ensures moves == [Move.Expire(key, network.now)] && Follows(old(Ledger()), moves, network.now)
      ensures Valid() && key in connections && |connections[key]| <= maxPerProxy
      ensures View() == AfterExpiry(old(View()), key, network.now, maxAge)
    {
      hide Balanced, YoungOnes, Young;
      ExpiryKeepsBalance(View(), key, network.now, maxAge, maxPerProxy, network.nextSocket);
      QueueFits(AfterExpiry(View(), key, network.now, maxAge), key, maxPerProxy, network.now, network.nextSocket);
      var queue := if key in connections then connections[key] else [];
      dropped := dropped + set c | c in queue && !Young(c, network.now, maxAge);
      connections := connections[key := YoungOnes(queue, network.now, maxAge)];
      moves := [Move.Expire(key, network.now)];
      OneMove(old(Ledger()), moves[0], maxPerProxy, maxAge, network.now);
    }

    // Something else on the network, while the pool stands still.
    method Elapse() returns (ok: bool)
      requires Valid()
      modifies network`now
      ensures Valid() && network.now >= old(network.now)
    {
      hide Balanced;
      ok := network.Attempt();
      LaterKeepsBalance(View(), maxPerProxy, old(network.now), network.now, network.nextSocket);
    }

    method ConnectOne(key: string, address: string) returns (connected: bool)
      requires Valid() && key in connections && |connections[key]| < maxPerProxy
      modifies this`connections, this`made, network
      ensures Valid() && network.now >= old(network.now)
      ensures connected ==> network.refusals == old(network.refusals)
      ensures connected ==>
        var c := Conn(old(network.nextSocket), key, network.now);
        c !in old(made) && View() == AfterConnect(old(View()), c)
      ensures connected ==> Ledger() == AfterMove(old(Ledger()), Move.Connect(key, network.now), maxAge)
      ensures !connected ==> network.refusals == old(network.refusals) + 1 && Ledger() == old(Ledger())
    {
      hide Balanced;
      ghost var socket0 := network.nextSocket;
      var socket := network.Connect(address);
      if socket == None {
        LaterKeepsBalance(View(), maxPerProxy, old(network.now), network.now, socket0);
        return false;
      }
      var c := Conn(socket.value, key, network.now);
      ConnectKeepsBalance(View(), c, maxPerProxy, old(network.now), network.now, socket0);
      connections := connections[key := connections[key] + [c]];
      made := made + {c};
      connected := true;
    }
  }

  lemma LaterKeepsBalance(a: Account, size: nat, now: Time, later: Time, nextSocket: nat)
    requires Balanced(a, size, now, nextSocket) && now <= later
    ensures Balanced(a, size, later, nextSocket)
  {
  }
}
