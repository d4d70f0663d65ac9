/**
 One upstream proxy: its persisted record, its runtime fields, and the operations on it.

 Time is one clock in nanoseconds, standing for both `Instant` and `Utc`; each operation reads it once.
 f64 is modelled as real, so a latency sample is either a finite real or a non-finite float.
 */
module Proxies {
  import opened Words
  import opened Wrappers

  type Time = int
  const SECOND: int := 1_000_000_000
  const HOUR: int := 3600 * SECOND

  datatype Protocol = Http | Socks5 | Https
  datatype Status = Verified | PresumedAlive | Unchecked | Failed
  datatype Latency = Finite(ms: real) | NonFinite

  // The serialised fields.
  datatype ProxyRecord = ProxyRecord(
    host: string,
    port: U16,
    protocol: Protocol,
    latencyEwma: real,
    successCount: U64,
    failCount: U64,
    consecutiveFails: U32,
    lastCheck: Option<Time>,
    lastSuccess: Option<Time>,
    lastFail: Option<Time>,
    country: Option<string>,
    manual: bool,
    priorityBoost: real,
    tlsClean: Option<bool>,
    uptimeMaxSecs: U64)

  // A proxy as a value: the record and the fields serialisation skips.
  datatype ProxyData = ProxyData(
    record: ProxyRecord,
    status: Option<Status>,
    circuitOpenUntil: Option<Time>,
    uptimeStreakStart: Option<Time>)

  // Decimal digits of a port, as `format!` prints them.
  function Decimal(n: nat): string {
    if n < 10 then ['0' + n as char] else Decimal(n / 10) + ['0' + (n % 10) as char]
  }

  function KeyOf(host: string, port: U16): string {
    host + ":" + Decimal(port)
  }

  function NumberOf(digits: string): nat
    requires forall c :: c in digits ==> '0' <= c <= '9'
  {
    if digits == [] then 0
    else
      var n := |digits| - 1;
      assert digits[n] in digits && forall c :: c in digits[..n] ==> c in digits;
      NumberOf(digits[..n]) * 10 + (digits[n] - '0') as nat
  }

  // str::parse::<u16> succeeds: an optional plus sign, at least one digit, no more than 65535.
  predicate ParsesAsU16(s: string) {
    var digits := if |s| > 1 && s[0] == '+' then s[1..] else s;
    digits != [] && (forall c :: c in digits ==> '0' <= c <= '9') && NumberOf(digits) < TWO_16
  }

  // What the REST interface takes for a key: one colon, a port after it.
  predicate Bannable(key: string) {
    exists i :: 0 <= i < |key| && key[i] == ':' && ':' !in key[..i] && ':' !in key[i + 1..] && ParsesAsU16(key[i + 1..])
  }

  function Key(p: ProxyData): string {
    KeyOf(p.record.host, p.record.port)
  }

  function NewProxy(host: string, port: U16, protocol: Protocol): ProxyData {
    ProxyData(
      ProxyRecord(host, port, protocol, 5000.0, 0, 0, 0, None, None, None, None, false, 0.0, None, 0),
      Some(Unchecked), None, None)
  }

  // Duration::as_secs of an elapsed time, which saturates at zero.
  function WholeSeconds(elapsed: int): nat {
    if elapsed < 0 then 0 else elapsed / SECOND
  }

  // TimeDelta::num_seconds and num_hours truncate toward zero.
  function Truncated(d: int, unit: int): int
    requires unit > 0
  {
    if d < 0 then -(-d / unit) else d / unit
  }

  function Saturate64(n: nat): U64 {
    if n < TWO_64 then n else TWO_64 - 1
  }

  function Clean(sample: Latency): real {
    match sample
    case NonFinite => 5000.0
    case Finite(ms) => if ms < 0.0 then 0.0 else if ms > 60000.0 then 60000.0 else ms
  }

  function Smooth(ewma: real, sample: Latency): real {
    ewma * 0.8 + Clean(sample) * 0.2
  }

  function LongestUptime(longest: U64, start: Time, now: Time): U64 {
    var up := Saturate64(WholeSeconds(now - start));
    if up > longest then up else longest
  }

  function AfterSuccess(p: ProxyData, sample: Latency, now: Time): ProxyData {
    var newStreak := p.record.consecutiveFails > 0 || p.uptimeStreakStart == None;
    ProxyData(
      p.record.(
        latencyEwma := Smooth(p.record.latencyEwma, sample),
        successCount := Next64(p.record.successCount),
        consecutiveFails := 0,
        lastCheck := Some(now),
        lastSuccess := Some(now),
        uptimeMaxSecs :=
          if newStreak then p.record.uptimeMaxSecs
          else LongestUptime(p.record.uptimeMaxSecs, p.uptimeStreakStart.value, now)),
      Some(Verified),
      None,
      if newStreak then Some(now) else p.uptimeStreakStart)
  }

  // How long the breaker opens for a count of consecutive failures, in seconds; nothing from 50 on.
  function DisableSeconds(fails: U32): Option<nat> {
    if fails <= 4 then Some(0)
    else if fails <= 9 then Some(60)
    else if fails <= 19 then Some(300)
    else if fails <= 49 then Some(3600)
    else None
  }

  function AfterFailure(p: ProxyData, now: Time): ProxyData {
    var fails := Next32(p.record.consecutiveFails);
    var q := ProxyData(
      p.record.(
        failCount := Next64(p.record.failCount),
        consecutiveFails := fails,
        lastFail := Some(now),
        lastCheck := Some(now)),
      p.status, p.circuitOpenUntil, None);
    match DisableSeconds(fails)
    case None => q.(status := Some(Failed))
    case Some(secs) =>
      if secs > 0
      then q.(status := Some(Failed), circuitOpenUntil := Some(now + secs * SECOND))
      else q
  }

  function AfterPresumedAlive(p: ProxyData): ProxyData {
    p.(record := p.record.(consecutiveFails := 0), status := Some(PresumedAlive), circuitOpenUntil := None)
  }

  predicate IsAvailable(p: ProxyData, now: Time) {
    p.circuitOpenUntil.Some? ==> now >= p.circuitOpenUntil.value
  }

  function Max(a: real, b: real): real {
    if a < b then b else a
  }

  function RecencyBonus(r: ProxyRecord, now: Time): real {
    if r.lastSuccess.Some? &&
       var age := Truncated(now - r.lastSuccess.value, SECOND); (if age < 0 then 0 else age) < 300
    then 100.0 else 0.0
  }

  function UptimeBonus(p: ProxyData, now: Time): real {
    var current := if p.uptimeStreakStart.Some? then WholeSeconds(now - p.uptimeStreakStart.value) as real else 0.0;
    var uptime := Max(current, p.record.uptimeMaxSecs as real);
    if uptime > 300.0 then
      var bonus := (uptime - 300.0) / 3300.0 * 450.0 + 50.0;
      if bonus < 500.0 then bonus else 500.0
    else 0.0
  }

  // Lower is better.
  function Score(p: ProxyData, now: Time): real {
    p.record.latencyEwma + p.record.consecutiveFails as real * 50.0 - p.record.priorityBoost
    - RecencyBonus(p.record, now) - UptimeBonus(p, now)
  }

  function ScoreAt(now: Time): ProxyData -> real {
    p => Score(p, now)
  }

  // What deserialising a record yields: the skipped fields take their defaults.
  function Deserialised(r: ProxyRecord): ProxyData {
    ProxyData(r, None, None, None)
  }

  predicate SucceededWithinTheHour(r: ProxyRecord, now: Time) {
    r.lastSuccess.Some? && Truncated(now - r.lastSuccess.value, HOUR) < 1
  }

  // One record through the loading loop.
  function Loaded(r: ProxyRecord, now: Time): ProxyData {
    if SucceededWithinTheHour(r, now) then AfterPresumedAlive(Deserialised(r)) else Deserialised(r)
  }

  /**
   The mutable proxy, in its two parts: the serialised fields and the runtime-only ones. Each method
   is specified by the value function of the same operation.
   */
  class Proxy {
    var saved: ProxyRecord
    var status: Option<Status>
    var circuitOpenUntil: Option<Time>
    var uptimeStreakStart: Option<Time>

    function View(): ProxyData
      reads this
    {
      ProxyData(saved, status, circuitOpenUntil, uptimeStreakStart)
    }

    constructor (host: string, port: U16, protocol: Protocol)
      ensures View() == NewProxy(host, port, protocol)
    {
      saved := ProxyRecord(host, port, protocol, 5000.0, 0, 0, 0, None, None, None, None, false, 0.0, None, 0);
      status, circuitOpenUntil, uptimeStreakStart := Some(Unchecked), None, None;
    }

    constructor Clone(p: ProxyData)
      ensures View() == p
    {
      saved, status := p.record, p.status;
      circuitOpenUntil, uptimeStreakStart := p.circuitOpenUntil, p.uptimeStreakStart;
    }

    method RecordSuccess(sample: Latency, now: Time)
      modifies this
      ensures View() == AfterSuccess(old(View()), sample, now)
    {
      saved := saved.(latencyEwma := saved.latencyEwma * 0.8 + Clean(sample) * 0.2);
      saved := saved.(successCount := Next64(saved.successCount));
      if saved.consecutiveFails > 0 || uptimeStreakStart == None {
        uptimeStreakStart := Some(now);
      } else {
        var up := Saturate64(WholeSeconds(now - uptimeStreakStart.value));
        if up > saved.uptimeMaxSecs {
          saved := saved.(uptimeMaxSecs := up);
        }
      }
      saved := saved.(consecutiveFails := 0, lastSuccess := Some(now), lastCheck := Some(now));
      status := Some(Verified);
      circuitOpenUntil := None;
    }

    method RecordFail(now: Time)
      modifies this
      ensures View() == AfterFailure(old(View()), now)
    {
      saved := saved.(failCount := Next64(saved.failCount),
                      consecutiveFails := Next32(saved.consecutiveFails));
      saved := saved.(lastFail := Some(now), lastCheck := Some(now));
      uptimeStreakStart := None;
      var disable := 0;
      if saved.consecutiveFails <= 4 {
      } else if saved.consecutiveFails <= 9 {
        disable := 60;
      } else if saved.consecutiveFails <= 19 {
        disable := 300;
      } else if saved.consecutiveFails <= 49 {
        disable := 3600;
      } else {
        status := Some(Failed);
        return;
      }
      if disable > 0 {
        circuitOpenUntil := Some(now + disable * SECOND);
        status := Some(Failed);
      }
    }

    method MarkPresumedAlive()
      modifies this
      ensures View() == AfterPresumedAlive(old(View()))
    {
      status := Some(PresumedAlive);
      circuitOpenUntil := None;
      saved := saved.(consecutiveFails := 0);
    }
  }

  // ---- Keys ----

  lemma {:induction false} DecimalIsDigits(n: nat)
    ensures Decimal(n) != [] && forall c :: c in Decimal(n) ==> '0' <= c <= '9'
  {
    if n >= 10 {
      DecimalIsDigits(n / 10);
    }
  }

  lemma {:induction false} DecimalInjective(m: nat, n: nat)
    requires Decimal(m) == Decimal(n)
    ensures m == n
  {
    DecimalIsDigits(m / 10);
    DecimalIsDigits(n / 10);
    var a, b := Decimal(m), Decimal(n);
    assert a[|a| - 1] == '0' + (m % 10) as char && b[|b| - 1] == '0' + (n % 10) as char;
    if m >= 10 && n >= 10 {
      assert a[..|a| - 1] == Decimal(m / 10) && b[..|b| - 1] == Decimal(n / 10);
      DecimalInjective(m / 10, n / 10);
    }
  }

  lemma NoColonAfter(h: string, d: string, i: nat)
    requires ':' !in d && i < |h + ":" + d| && (h + ":" + d)[i] == ':'
    ensures i <= |h|
  {
    assert forall j :: |h| < j < |h + ":" + d| ==> (h + ":" + d)[j] == d[j - |h| - 1] && d[j - |h| - 1] in d;
  }

  // A text is cut at its last colon in one way.
  lemma LastColonIsUnique(h1: string, d1: string, h2: string, d2: string)
    requires h1 + ":" + d1 == h2 + ":" + d2
    requires ':' !in d1 && ':' !in d2
    ensures h1 == h2 && d1 == d2
  {
    var text := h1 + ":" + d1;
    assert text[|h1|] == ':' && text[|h2|] == ':';
    NoColonAfter(h1, d1, |h2|);
    NoColonAfter(h2, d2, |h1|);
    assert h1 == text[..|h1|] && d1 == text[|h1| + 1..];
    assert h2 == text[..|h2|] && d2 == text[|h2| + 1..];
  }

  /** "host:port" names one host and one port, even for hosts that contain colons. */
  lemma KeyIdentifies(h1: string, p1: U16, h2: string, p2: U16)
    requires KeyOf(h1, p1) == KeyOf(h2, p2)
    ensures h1 == h2 && p1 == p2
  {
    hide Decimal;
    DecimalIsDigits(p1);
    DecimalIsDigits(p2);
    LastColonIsUnique(h1, Decimal(p1), h2, Decimal(p2));
    DecimalInjective(p1, p2);
  }

  lemma {:induction false} DecimalReadsBack(n: nat)
    ensures forall c :: c in Decimal(n) ==> '0' <= c <= '9'
    ensures NumberOf(Decimal(n)) == n
  {
    DecimalIsDigits(n);
    var d := Decimal(n);
    if n >= 10 {
      DecimalReadsBack(n / 10);
      assert d[..|d| - 1] == Decimal(n / 10);
    } else {
      assert d[..0] == [];
    }
  }

  /** A proxy can be banned through the REST interface exactly when its host contains no colon. */
  lemma BannableExactly(host: string, port: U16)
    ensures Bannable(KeyOf(host, port)) <==> ':' !in host
  {
    hide Decimal, NumberOf;
    var d, key := Decimal(port), KeyOf(host, port);
    DecimalIsDigits(port);
    DecimalReadsBack(port);
    assert key[|host|] == ':' && key[..|host|] == host && key[|host| + 1..] == d;
    assert d[0] in d && ParsesAsU16(d);
    if Bannable(key) {
      var i :| 0 <= i < |key| && key[i] == ':' && ':' !in key[..i] && ':' !in key[i + 1..] && ParsesAsU16(key[i + 1..]);
      LastColonIsUnique(host, d, key[..i], key[i + 1..]);
    }
  }

  /** A decimal number is taken for a port exactly up to 65535, with a plus sign in front or without. */
  lemma ParsesAsU16Exactly(n: nat)
    ensures ParsesAsU16(Decimal(n)) <==> n <= 65535
    ensures ParsesAsU16("+" + Decimal(n)) <==> n <= 65535
  {
    hide Decimal, NumberOf;
    DecimalIsDigits(n);
    DecimalReadsBack(n);
    assert Decimal(n)[0] in Decimal(n);
    assert ("+" + Decimal(n))[1..] == Decimal(n);
  }

  /** And nothing that is no digit is part of one, but for that sign. */
  lemma PortsAreDigits(s: string)
    requires ParsesAsU16(s)
    ensures s != [] && s != "+" && forall i :: 0 <= i < |s| ==> '0' <= s[i] <= '9' || (i == 0 && s[i] == '+')
  {
    hide NumberOf;
    var digits := if |s| > 1 && s[0] == '+' then s[1..] else s;
    forall i | 0 <= i < |s| ensures '0' <= s[i] <= '9' || (i == 0 && s[i] == '+') {
      assert i < |digits| ==> digits[i] in digits;
      assert |digits| == |s| - 1 && i > 0 ==> s[i] == digits[i - 1] && digits[i - 1] in digits;
    }
  }
}
