/**
 The country index over whole histories: every operation on the pool and the banned list, and GeoIP
 answers, which set a proxy's country first and list it in the index afterwards.
 */
module GeoHistory {
  import opened Wrappers
  import opened Ordering
  import opened Proxies
  import opened Lifecycle
  import opened Selection
  import opened State
  import opened Geo
  import opened Membership

  // `waiting` holds the answers whose country is set and not listed yet.
  datatype World = World(index: Index, registry: Registry, waiting: multiset<(string, string)>)

  datatype Step =
    | Plain(change: Change)
    | SetCountry(key: string, country: string, at: Time)
    | List(country: string, key: string)

  function Next(w: World, cap: nat, s: Step): World {
    match s
    case Plain(c) => w.(registry := After(w.registry, cap, c))
    case SetCountry(key, country, at) =>
      w.(registry := After(w.registry, cap, Record(key, Locate(country, at), at)),
         waiting := w.waiting + multiset{(country, key)})
    case List(country, key) =>
      w.(index := Inserted(w.index, country, key), waiting := w.waiting - multiset{(country, key)})
  }

  ghost predicate Possible(w: World, s: Step) {
    match s
    case Plain(c) => (c.Finish? ==> c.call in w.registry.pending) && (c.Record? ==> !c.event.Locate?)
    case SetCountry(_, _, _) => true
    case List(country, key) => (country, key) in w.waiting
  }

  // Its country, if it has one, lists the proxy or is about to.
  ghost predicate Placed(w: World, p: ProxyData) {
    p.record.country.Some? ==>
      Key(p) in Listed(w.index, p.record.country.value) || (p.record.country.value, Key(p)) in w.waiting
  }

  ghost predicate AllPlaced(w: World) {
    && (forall k :: k in w.registry.proxies ==> Placed(w, w.registry.proxies[k]))
    && (forall k :: k in w.registry.banned ==> Placed(w, w.registry.banned[k]))
    && (forall call :: call in w.registry.pending ==> Placed(w, call.proxy))
  }

  // A call begins with a proxy that has a country and is not listed: only loading does that.
  ghost predicate BringsUnlisted(w: World, cap: nat, s: Step) {
    s.Plain? && (s.change.TestRoom? || s.change.TestKey?)
    && After(w.registry, cap, s.change).pending != w.registry.pending
    && !Placed(w, s.change.proxy)
  }

  lemma InsertedLists(index: Index, country: string, key: string)
    ensures forall c, k :: k in Listed(Inserted(index, country, key), c) <==>
      k in Listed(index, c) || (c == country && k == key)
  {
  }

  lemma ListKeepsPlaced(w: World, cap: nat, country: string, key: string, p: ProxyData)
    requires Placed(w, p)
    ensures Placed(Next(w, cap, List(country, key)), p)
  {
    hide Key, Listed, Inserted;
    InsertedLists(w.index, country, key);
    if p.record.country.Some? && (p.record.country.value, Key(p)) in w.waiting {
      var own := (p.record.country.value, Key(p));
      assert own != (country, key) ==> own in w.waiting - multiset{(country, key)};
    }
  }

  lemma EventKeepsCountry(p: ProxyData, e: Event)
    requires !e.Locate?
    ensures Apply(p, e).record.country == p.record.country && Key(Apply(p, e)) == Key(p)
  {
  }

  lemma LocatedKey(p: ProxyData, country: string, at: Time)
    ensures Key(Apply(p, Locate(country, at))) == Key(p)
  {
  }

  lemma BeginPlacedExactly(w: World, call: Pending)
    requires AllPlaced(w)
    ensures AllPlaced(w.(registry := Begun(w.registry, call))) <==> Placed(w, call.proxy)
  {
    hide Key, Listed;
    assert call in Begun(w.registry, call).pending;
  }

  lemma EntryKeepsPlaced(w: World, key: string, p: ProxyData)
    requires AllPlaced(w) && Placed(w, p)
    ensures AllPlaced(w.(registry := w.registry.(proxies := w.registry.proxies[key := p])))
    ensures AllPlaced(w.(registry := w.registry.(banned := w.registry.banned[key := p])))
  {
    hide Key, Listed;
  }

  lemma EndKeepsPlaced(w: World, call: Pending)
    requires AllPlaced(w) && call in w.registry.pending
    ensures var v := w.(registry := w.registry.(pending := w.registry.pending - multiset{call}));
      AllPlaced(v) && Placed(v, call.proxy)
  {
    hide Key, Listed;
    assert forall other :: other in w.registry.pending - multiset{call} ==> other in w.registry.pending;
  }

  lemma FinishKeepsPlaced(w: World, call: Pending)
    requires AllPlaced(w) && call in w.registry.pending
    ensures AllPlaced(w.(registry := Finished(w.registry, call)))
  {
    hide Key, AllPlaced, Placed;
    var v := w.(registry := w.registry.(pending := w.registry.pending - multiset{call}));
    EndKeepsPlaced(w, call);
    EntryKeepsPlaced(v, if call.Banning? then call.key else Key(call.proxy), call.proxy);
  }

  lemma RecordKeepsPlaced(w: World, key: string, e: Event)
    requires AllPlaced(w) && !e.Locate?
    ensures AllPlaced(w.(registry := w.registry.(proxies := Updated(w.registry.proxies, key, e))))
  {
    hide Key, Listed, Apply;
    if key in w.registry.proxies {
      EventKeepsCountry(w.registry.proxies[key], e);
    }
  }

  lemma FewerKeepPlaced(w: World, proxies: ProxyMap, banned: ProxyMap)
    requires AllPlaced(w)
    requires forall k :: k in proxies ==> k in w.registry.proxies && proxies[k] == w.registry.proxies[k]
    requires forall k :: k in banned ==> k in w.registry.banned && banned[k] == w.registry.banned[k]
    ensures AllPlaced(w.(registry := Registry(proxies, banned, w.registry.pending)))
  {
    hide Key, Listed;
  }

  lemma PlainKeepsPlaced(w: World, cap: nat, c: Change)
    requires AllPlaced(w) && Possible(w, Plain(c)) && !c.TestRoom? && !c.TestKey?
    ensures AllPlaced(Next(w, cap, Plain(c)))
  {
    hide Key, Bannable, WorthKeeping, Listed, Updated, Finished, Placed, AllPlaced, Begun;
    var r := w.registry;
    match c
    case TakeOut(key, _) =>
      if Bannable(key) && key in r.proxies {
        OneIsPlaced(w, r.proxies[key]);
        FewerKeepPlaced(w, r.proxies - {key}, r.banned);
        BeginPlacedExactly(w.(registry := r.(proxies := r.proxies - {key})), Banning(key, r.proxies[key]));
      }
    case TakeBack(key, _) =>
      if key in r.banned {
        OneIsPlaced(w, r.banned[key]);
        FewerKeepPlaced(w, r.proxies, r.banned - {key});
        BeginPlacedExactly(w.(registry := r.(banned := r.banned - {key})), Unbanning(r.banned[key]));
      }
    case Finish(call, _) => FinishKeepsPlaced(w, call);
    case CleanUp(at) => FewerKeepPlaced(w, CleanedUp(r.proxies, at), r.banned);
    case Record(key, e, _) => RecordKeepsPlaced(w, key, e);
  }

  // Being placed depends on the index and what waits for it only.
  lemma OneIsPlaced(w: World, p: ProxyData)
    requires AllPlaced(w)
    requires (exists k :: k in w.registry.proxies && w.registry.proxies[k] == p)
          || (exists k :: k in w.registry.banned && w.registry.banned[k] == p)
    ensures forall v: World :: v.index == w.index && v.waiting == w.waiting ==> Placed(v, p)
  {
    hide Key, Listed;
  }

  lemma SetCountryKeepsPlaced(w: World, cap: nat, key: string, country: string, at: Time)
    requires AllPlaced(w) && KeysMatch(w.registry.proxies)
    ensures AllPlaced(Next(w, cap, SetCountry(key, country, at)))
  {
    hide Key, Listed;
    var v := Next(w, cap, SetCountry(key, country, at));
    assert (country, key) in v.waiting;
    assert forall x :: x in w.waiting ==> x in v.waiting;
    if key in w.registry.proxies {
      LocatedKey(w.registry.proxies[key], country, at);
    }
  }

  /** One step keeps every located proxy listed, or about to be, if and only if it brings in no unlisted one. */
  lemma StepKeepsPlacedExactly(w: World, cap: nat, s: Step)
    requires AllPlaced(w) && KeysMatch(w.registry.proxies) && Possible(w, s)
    ensures AllPlaced(Next(w, cap, s)) <==> !BringsUnlisted(w, cap, s)
  {
    hide Placed, AllPlaced, Key, KeysMatch;
    match s
    case Plain(c) =>
      if c.TestRoom? {
        BeginPlacedExactly(w, Inserting(c.proxy));
        assert Begun(w.registry, Inserting(c.proxy)).pending[Inserting(c.proxy)]
            == w.registry.pending[Inserting(c.proxy)] + 1;
      } else if c.TestKey? {
        BeginPlacedExactly(w, Adding(c.proxy));
        assert Begun(w.registry, Adding(c.proxy)).pending[Adding(c.proxy)]
            == w.registry.pending[Adding(c.proxy)] + 1;
      } else {
        PlainKeepsPlaced(w, cap, c);
      }
    case SetCountry(key, country, at) => SetCountryKeepsPlaced(w, cap, key, country, at);
    case List(country, key) => ListKeepsAll(w, cap, country, key);
  }

  lemma ListKeepsAll(w: World, cap: nat, country: string, key: string)
    requires AllPlaced(w)
    ensures AllPlaced(Next(w, cap, List(country, key)))
  {
    hide Placed;
    var v := Next(w, cap, List(country, key));
    forall k | k in v.registry.proxies ensures Placed(v, v.registry.proxies[k]) {
      ListKeepsPlaced(w, cap, country, key, w.registry.proxies[k]);
    }
    forall k | k in v.registry.banned ensures Placed(v, v.registry.banned[k]) {
      ListKeepsPlaced(w, cap, country, key, w.registry.banned[k]);
    }
    forall call | call in v.registry.pending ensures Placed(v, call.proxy) {
      ListKeepsPlaced(w, cap, country, key, call.proxy);
    }
  }

  lemma StepKeepsKeyed(w: World, cap: nat, s: Step)
    requires Keyed(w.registry) && Possible(w, s)
    ensures Keyed(Next(w, cap, s).registry)
  {
    hide Keyed, After;
    match s
    case Plain(c) => ChangeKeepsKeyed(w.registry, cap, c);
    case SetCountry(key, country, at) => ChangeKeepsKeyed(w.registry, cap, Record(key, Locate(country, at), at));
    case List(_, _) =>
  }

  function Replay(w: World, cap: nat, steps: seq<Step>): World
    decreases |steps|
  {
    if steps == [] then w else Replay(Next(w, cap, steps[0]), cap, steps[1..])
  }

  ghost predicate AllPossible(w: World, cap: nat, steps: seq<Step>)
    decreases |steps|
  {
    steps == [] || (Possible(w, steps[0]) && AllPossible(Next(w, cap, steps[0]), cap, steps[1..]))
  }

  ghost predicate PlacedThroughout(w: World, cap: nat, steps: seq<Step>)
    decreases |steps|
  {
    AllPlaced(w) && (steps == [] || PlacedThroughout(Next(w, cap, steps[0]), cap, steps[1..]))
  }

  ghost predicate NoneUnlisted(w: World, cap: nat, steps: seq<Step>)
    decreases |steps|
  {
    steps == [] ||
    (!BringsUnlisted(w, cap, steps[0]) && NoneUnlisted(Next(w, cap, steps[0]), cap, steps[1..]))
  }

  /**
   Over any history every located proxy, in the pool, banned, or on its way between them, is listed under
   its country or about to be, at every instant, if and only if no unlisted located proxy is brought in.
   */
  lemma {:induction false} PlacedThroughoutExactly(w: World, cap: nat, steps: seq<Step>)
    requires AllPlaced(w) && Keyed(w.registry) && AllPossible(w, cap, steps)
    ensures PlacedThroughout(w, cap, steps) <==> NoneUnlisted(w, cap, steps)
    ensures NoneUnlisted(w, cap, steps) ==> AllPlaced(Replay(w, cap, steps))
    decreases |steps|
  {
    hide AllPlaced, Next, Possible, BringsUnlisted;
    if steps == [] {
    } else {
      StepKeepsPlacedExactly(w, cap, steps[0]);
      StepKeepsKeyed(w, cap, steps[0]);
      if !BringsUnlisted(w, cap, steps[0]) {
        PlacedThroughoutExactly(Next(w, cap, steps[0]), cap, steps[1..]);
      } else {
        NotPlacedThroughout(Next(w, cap, steps[0]), cap, steps[1..]);
      }
    }
  }

  lemma NotPlacedThroughout(w: World, cap: nat, steps: seq<Step>)
    requires !AllPlaced(w)
    ensures !PlacedThroughout(w, cap, steps)
  {
  }

  ghost predicate NewcomersWithoutCountry(steps: seq<Step>) {
    forall s :: s in steps && s.Plain? && (s.change.TestRoom? || s.change.TestKey?) ==>
      s.change.proxy.record.country == None
  }

  lemma {:induction false} NewcomersAreListed(w: World, cap: nat, steps: seq<Step>)
    requires NewcomersWithoutCountry(steps)
    ensures NoneUnlisted(w, cap, steps)
    decreases |steps|
  {
    hide Next;
    if steps == [] {
    } else {
      assert steps[0] in steps;
      NewcomersAreListed(Next(w, cap, steps[0]), cap, steps[1..]);
    }
  }

  /**
   So while only proxies without a country come in, as from the sources and the REST interface, the index
   is complete whenever no answer is about to be listed: from an index rebuilt while nothing was banned.
   */
  lemma CompleteOverHistories(pool: ProxyMap, order: seq<string>, cap: nat, steps: seq<Step>)
    requires KeysMatch(pool) && IsEnumeration(order, pool) && NewcomersWithoutCountry(steps)
    requires AllPossible(World(Rebuilt(pool, order), Registry(pool, map[], multiset{}), multiset{}), cap, steps)
    ensures var w := Replay(World(Rebuilt(pool, order), Registry(pool, map[], multiset{}), multiset{}), cap, steps);
      w.waiting == multiset{} ==>
        Complete(w.index, w.registry.proxies) && Complete(w.index, w.registry.banned)
  {
    hide Rebuilt, AllPossible, NoneUnlisted, Replay, Possible;
    var start := World(Rebuilt(pool, order), Registry(pool, map[], multiset{}), multiset{});
    RebuildRestoresAll(pool, order);
    assert AllPlaced(start);
    NewcomersAreListed(start, cap, steps);
    PlacedThroughoutExactly(start, cap, steps);
    KeyedThroughout(start, cap, steps);
  }

  lemma {:induction false} KeyedThroughout(w: World, cap: nat, steps: seq<Step>)
    requires Keyed(w.registry) && AllPossible(w, cap, steps)
    ensures Keyed(Replay(w, cap, steps).registry)
    decreases |steps|
  {
    hide Keyed, Next, Possible;
    if steps == [] {
    } else {
      StepKeepsKeyed(w, cap, steps[0]);
      KeyedThroughout(Next(w, cap, steps[0]), cap, steps[1..]);
    }
  }
}
