/** What selection over the shared pool means: eligibility, the n best, the tiers and the sampling weights. */
module Selection {
  import opened Words
  import opened Wrappers
  import opened Ordering
  import opened Proxies
  import opened Lifecycle

  type ProxyMap = map<string, ProxyData>
  type Filter = ProxyData -> bool

  const F64_MAX: real := 1.7976931348623157e308
  const TOP_N: nat := 10

  // Every entry sits under its own "host:port".
  ghost predicate KeysMatch(pool: ProxyMap) {
    forall k :: k in pool ==> Key(pool[k]) == k
  }

  ghost predicate AllReachable(pool: ProxyMap, now: Time) {
    forall k :: k in pool ==> Reachable(pool[k], now)
  }

  lemma LaterReachable(pool: ProxyMap, now: Time, later: Time)
    requires AllReachable(pool, now) && now <= later
    ensures AllReachable(pool, later)
  {
    forall k | k in pool ensures Reachable(pool[k], later) {
      ReachableLater(pool[k], now, later);
    }
  }

  // One iteration of the map: every key once, in any order.
  ghost predicate IsEnumeration(order: seq<string>, pool: ProxyMap) {
    && Distinct(order)
    && (forall k :: k in order <==> k in pool)
  }

  // The entries an iteration meets that pass a filter, in the order met.
  function Eligible(pool: ProxyMap, order: seq<string>, f: Filter): seq<ProxyData>
    requires forall k :: k in order ==> k in pool
  {
    if order == [] then []
    else
      var front, last := order[..|order| - 1], order[|order| - 1];
      assert last in order;
      Eligible(pool, front, f) + (if f(pool[last]) then [pool[last]] else [])
  }

  lemma EligibleNext(pool: ProxyMap, order: seq<string>, i: nat, f: Filter)
    requires i < |order| && forall k :: k in order ==> k in pool
    ensures order[i] in pool
    ensures Eligible(pool, order[..i + 1], f) ==
      Eligible(pool, order[..i], f) + (if f(pool[order[i]]) then [pool[order[i]]] else [])
  {
    assert order[..i + 1][..i] == order[..i];
    assert order[i] in order;
  }

  // p is under some key of the order and passes the filter.
  ghost predicate Meets(pool: ProxyMap, order: seq<string>, f: Filter, p: ProxyData)
    requires forall k :: k in order ==> k in pool
  {
    f(p) && exists k :: k in order && pool[k] == p
  }

  lemma {:induction false} EligibleMembers(pool: ProxyMap, order: seq<string>, f: Filter, p: ProxyData)
    requires forall k :: k in order ==> k in pool
    ensures p in Eligible(pool, order, f) <==> Meets(pool, order, f, p)
  {
    if order == [] {
    } else {
      var n := |order| - 1;
      EligibleMembers(pool, order[..n], f, p);
      assert order[n] in order;
      if Meets(pool, order, f, p) {
        var k :| k in order && pool[k] == p;
        assert k == order[n] || k in order[..n];
      }
      if Meets(pool, order[..n], f, p) {
        var k :| k in order[..n] && pool[k] == p;
        assert k in order;
      }
    }
  }

  lemma NoneEligible(pool: ProxyMap, order: seq<string>, f: Filter)
    requires IsEnumeration(order, pool)
    ensures Eligible(pool, order, f) == [] <==> forall k :: k in pool ==> !f(pool[k])
  {
    var e := Eligible(pool, order, f);
    if e != [] {
      EligibleMembers(pool, order, f, e[0]);
    }
    forall k | k in pool && f(pool[k]) ensures e != [] {
      EligibleMembers(pool, order, f, pool[k]);
    }
  }

  lemma {:induction false} EligibleOnce(pool: ProxyMap, order: seq<string>, f: Filter)
    requires KeysMatch(pool) && forall k :: k in order ==> k in pool
    requires Distinct(order)
    ensures Distinct(Eligible(pool, order, f))
  {
    if order == [] {
    } else {
      var front, last := order[..|order| - 1], order[|order| - 1];
      EligibleOnce(pool, front, f);
      EligibleMembers(pool, front, f, pool[last]);
      assert last !in front;
    }
  }

  /** What is eligible does not depend on the iteration order. */
  lemma EligibleInAnyOrder(pool: ProxyMap, a: seq<string>, b: seq<string>, f: Filter)
    requires KeysMatch(pool) && IsEnumeration(a, pool) && IsEnumeration(b, pool)
    ensures multiset(Eligible(pool, a, f)) == multiset(Eligible(pool, b, f))
  {
    EligibleOnce(pool, a, f);
    EligibleOnce(pool, b, f);
    forall p ensures p in Eligible(pool, a, f) <==> p in Eligible(pool, b, f) {
      EligibleMembers(pool, a, f, p);
      EligibleMembers(pool, b, f, p);
    }
    SameElementsOnce(Eligible(pool, a, f), Eligible(pool, b, f));
  }

  // ---- One step of the bounded scan ----

  lemma KeepOne<T>(kept: seq<T>, all: seq<T>, x: T, key: T -> real)
    requires Splits(kept, [], all, key)
    ensures Splits(kept + [x], [], all + [x], key)
  {
  }

  lemma RejectOne<T>(kept: seq<T>, rest: seq<T>, all: seq<T>, x: T, key: T -> real)
    requires Splits(kept, rest, all, key)
    requires forall k :: k in kept ==> key(k) <= key(x)
    ensures Splits(kept, rest + [x], all + [x], key)
  {
  }

  lemma ReplaceWorst<T>(kept: seq<T>, rest: seq<T>, all: seq<T>, i: nat, x: T, key: T -> real)
    requires Splits(kept, rest, all, key) && i < |kept|
    requires forall k :: k in kept ==> key(k) <= key(kept[i])
    requires key(x) < key(kept[i])
    ensures Splits(kept[i := x], rest + [kept[i]], all + [x], key)
  {
    var kept' := kept[i := x];
    assert kept == kept[..i] + [kept[i]] + kept[i + 1..];
    assert kept' == kept[..i] + [x] + kept[i + 1..];
    forall k | k in kept' ensures k == x || k in kept {
      var j :| 0 <= j < |kept'| && kept'[j] == k;
    }
  }

  // Iterator::fold(f64::MIN, f64::max) over a nonempty list of finite scores.
  function Highest(s: seq<real>): (m: real)
    requires s != []
    ensures m in s && forall x :: x in s ==> x <= m
  {
    if |s| == 1 then s[0]
    else
      var front := s[..|s| - 1];
      assert s == front + [s[|s| - 1]];
      Max(Highest(front), s[|s| - 1])
  }

  // Iterator::max_by: the last of the greatest.
  function LastHighest(s: seq<real>): (i: nat)
    requires s != []
    ensures i < |s|
    ensures forall j :: 0 <= j < |s| ==> s[j] <= s[i]
    ensures forall j :: i < j < |s| ==> s[j] < s[i]
  {
    if |s| == 1 then 0
    else
      var i := LastHighest(s[..|s| - 1]);
      if s[i] <= s[|s| - 1] then |s| - 1 else i
  }

  // ---- Selection tiers ----

  predicate InExcludedCountry(p: ProxyData, excluded: seq<string>) {
    p.record.country.Some? && p.record.country.value in excluded
  }

  function TierFilter(status: Status, excluded: seq<string>, now: Time): Filter {
    p => IsAvailable(p, now) && p.status == Some(status) && !InExcludedCountry(p, excluded)
  }

  function TlsTierFilter(status: Status, excluded: seq<string>, now: Time): Filter {
    p => IsAvailable(p, now) && p.status == Some(status) && p.record.tlsClean == Some(true)
         && !InExcludedCountry(p, excluded)
  }

  function UntestedFilter(excluded: seq<string>, now: Time): Filter {
    p => IsAvailable(p, now) && !InExcludedCountry(p, excluded)
         && (p.status == Some(Unchecked) || p.status == None)
  }

  // p passes f, and its score is one of the 10 lowest among those that do.
  ghost predicate AmongBest(p: ProxyData, pool: ProxyMap, order: seq<string>, f: Filter, now: Time)
    requires forall k :: k in order ==> k in pool
  {
    var all := Eligible(pool, order, f);
    && p in all
    && |StableSort(all, ScoreAt(now))| == |all|
    && exists i :: 0 <= i < Min(10, |all|) && ScoreAt(now)(StableSort(all, ScoreAt(now))[i]) == ScoreAt(now)(p)
  }

  // The three tiers in order; within a scored tier, one of the 10 best.
  ghost predicate IsBestChoice(r: Option<ProxyData>, pool: ProxyMap, order: seq<string>, excluded: seq<string>,
                               now: Time)
    requires forall k :: k in order ==> k in pool
  {
    var verified, presumed := TierFilter(Verified, excluded, now), TierFilter(PresumedAlive, excluded, now);
    var untested := UntestedFilter(excluded, now);
    if Eligible(pool, order, verified) != [] then r.Some? && AmongBest(r.value, pool, order, verified, now)
    else if Eligible(pool, order, presumed) != [] then r.Some? && AmongBest(r.value, pool, order, presumed, now)
    else if Eligible(pool, order, untested) != [] then r == Some(Eligible(pool, order, untested)[0])
    else r == None
  }

  ghost predicate IsBestTlsChoice(r: Option<ProxyData>, pool: ProxyMap, order: seq<string>, excluded: seq<string>,
                                  now: Time)
    requires forall k :: k in order ==> k in pool
  {
    var verified, presumed := TlsTierFilter(Verified, excluded, now), TlsTierFilter(PresumedAlive, excluded, now);
    if Eligible(pool, order, verified) != [] then r.Some? && AmongBest(r.value, pool, order, verified, now)
    else if Eligible(pool, order, presumed) != [] then r.Some? && AmongBest(r.value, pool, order, presumed, now)
    else IsBestChoice(r, pool, order, excluded, now)
  }

  // ---- Weighted choice ----

  function Scores(candidates: seq<ProxyData>, now: Time): (s: seq<real>)
    ensures |s| == |candidates|
  {
    seq(|candidates|, i requires 0 <= i < |candidates| => Score(candidates[i], now))
  }

  function Weights(candidates: seq<ProxyData>, now: Time): (w: seq<real>)
    requires candidates != []
    ensures |w| == |candidates|
  {
    var highest := Highest(Scores(candidates, now));
    seq(|candidates|, i requires 0 <= i < |candidates| => highest - Score(candidates[i], now) + 1.0)
  }

  function Sum(w: seq<real>): real {
    if w == [] then 0.0 else w[0] + Sum(w[1..])
  }

  // When the weighted sampler can be built: some weight, none negative, not all zero.
  predicate Samplable(weights: seq<real>) {
    weights != [] && (forall w :: w in weights ==> w >= 0.0) && Sum(weights) > 0.0
  }

  const HEAVIEST: real := 60801.0

  lemma {:induction false} SumBounds(w: seq<real>)
    requires forall i :: 0 <= i < |w| ==> 0.0 <= w[i] <= HEAVIEST
    ensures 0.0 <= Sum(w) <= |w| as real * HEAVIEST
  {
    if w == [] {
    } else {
      SumBounds(w[1..]);
      assert |w| as real == |w[1..]| as real + 1.0;
    }
  }

  lemma {:induction false} SumNonNegative(w: seq<real>)
    requires forall i :: 0 <= i < |w| ==> w[i] >= 0.0
    ensures Sum(w) >= 0.0
  {
    if w == [] {
    } else {
      SumNonNegative(w[1..]);
    }
  }

  lemma {:induction false} SumWithout(w: seq<real>, i: nat)
    requires i < |w|
    ensures Sum(w) == w[i] + Sum(Without(w, i))
  {
    if i == 0 {
      assert Without(w, 0) == w[1..];
    } else {
      SumWithout(w[1..], i - 1);
      assert Without(w, i) == [w[0]] + Without(w[1..], i - 1);
    }
  }

  /** Every weight is at least 1, so the sampler can always be built and its fallback is never taken. */
  lemma WeightsAreSamplable(candidates: seq<ProxyData>, now: Time)
    requires candidates != []
    ensures forall i :: 0 <= i < |candidates| ==> Weights(candidates, now)[i] >= 1.0
    ensures Samplable(Weights(candidates, now))
  {
    var s, w := Scores(candidates, now), Weights(candidates, now);
    forall i | 0 <= i < |w| ensures w[i] >= 1.0 {
      assert s[i] in s;
    }
    SumWithout(w, 0);
    SumNonNegative(Without(w, 0));
  }

  /** Weights differ by exactly the score difference, the other way round, and the worst candidate's is 1. */
  lemma WeightsExactly(candidates: seq<ProxyData>, now: Time, i: nat, j: nat)
    requires i < |candidates| && j < |candidates|
    ensures Weights(candidates, now)[i] - Weights(candidates, now)[j] ==
            Score(candidates[j], now) - Score(candidates[i], now)
    ensures (forall k :: 0 <= k < |candidates| ==> Score(candidates[k], now) <= Score(candidates[i], now)) ==>
            Weights(candidates, now)[i] == 1.0
  {
    var s := Scores(candidates, now);
    var m :| 0 <= m < |s| && s[m] == Highest(s);
    assert s[i] in s;
  }

  /** A lower score never gets a smaller weight, and equal weights mean equal scores. */
  lemma WeightsFollowScores(candidates: seq<ProxyData>, now: Time, i: nat, j: nat)
    requires i < |candidates| && j < |candidates|
    ensures Score(candidates[i], now) <= Score(candidates[j], now) <==>
            Weights(candidates, now)[i] >= Weights(candidates, now)[j]
  {
  }

  /**
   For at most 10 reachable candidates of the scored tiers every weight lies in [1, 60801], so each is
   drawn with probability at least 1/547210.
   */
  lemma WeightBounds(candidates: seq<ProxyData>, now: Time, i: nat)
    requires i < |candidates| <= TOP_N
    requires forall p :: p in candidates ==>
      Reachable(p, now) && (p.status == Some(Verified) || p.status == Some(PresumedAlive))
    ensures forall j :: 0 <= j < |candidates| ==> 1.0 <= Weights(candidates, now)[j] <= HEAVIEST
    ensures Sum(Weights(candidates, now)) > 0.0
    ensures Weights(candidates, now)[i] / Sum(Weights(candidates, now)) >= 1.0 / 547210.0
  {
    WeightsInRange(candidates, now);
    ShareOfTen(Weights(candidates, now), i);
  }

  lemma OthersInRange(w: seq<real>, i: nat)
    requires i < |w| && forall j :: 0 <= j < |w| ==> 1.0 <= w[j] <= HEAVIEST
    ensures |Without(w, i)| == |w| - 1
    ensures forall j :: 0 <= j < |w| - 1 ==> 0.0 <= Without(w, i)[j] <= HEAVIEST
  {
  }

  lemma ShareOfTen(w: seq<real>, i: nat)
    requires i < |w| <= TOP_N
    requires forall j :: 0 <= j < |w| ==> 1.0 <= w[j] <= HEAVIEST
    ensures Sum(w) > 0.0 && w[i] / Sum(w) >= 1.0 / 547210.0
  {
    hide Sum, Without;
    var others := Without(w, i);
    OthersInRange(w, i);
    SumBounds(others);
    SumWithout(w, i);
    assert |others| as real <= 9.0;
    assert Sum(others) <= 547209.0;
    ShareBound(w[i], Sum(w), 547210.0);
  }

  lemma WeightsInRange(candidates: seq<ProxyData>, now: Time)
    requires candidates != []
    requires forall p :: p in candidates ==>
      Reachable(p, now) && (p.status == Some(Verified) || p.status == Some(PresumedAlive))
    ensures forall j :: 0 <= j < |candidates| ==> 1.0 <= Weights(candidates, now)[j] <= HEAVIEST
  {
    forall j | 0 <= j < |candidates| ensures 1.0 <= Weights(candidates, now)[j] <= HEAVIEST {
      WeightInRange(candidates, now, j);
    }
  }

  lemma WeightInRange(candidates: seq<ProxyData>, now: Time, j: nat)
    requires j < |candidates|
    requires forall p :: p in candidates ==>
      Reachable(p, now) && (p.status == Some(Verified) || p.status == Some(PresumedAlive))
    ensures 1.0 <= Weights(candidates, now)[j] <= HEAVIEST
  {
    var s := Scores(candidates, now);
    assert s[j] in s;
    ScoreBounds(candidates[j], now);
    var m :| 0 <= m < |s| && s[m] == Highest(s);
    ScoreBounds(candidates[m], now);
  }

  lemma ShareBound(own: real, total: real, parts: real)
    requires own > 0.0 && parts > 0.0 && 0.0 < total <= own * parts
    ensures own / total >= 1.0 / parts
  {
    var share := own / total;
    if share < 1.0 / parts {
      MulLess(share, 1.0 / parts, total);
      assert own < (1.0 / parts) * total;
      MulLess(own, (1.0 / parts) * total, parts);
    }
  }

  lemma MulLess(x: real, y: real, z: real)
    requires x < y && z > 0.0
    ensures x * z < y * z
  {
  }
}
