/** The HTTP CONNECT handshake: a reader of at most 1024 bytes, under any chunking of the reply. */
module Connect {
  import opened Words
  import opened Wrappers
  import opened Streams
  import Proxies
  import Utf8

  const LIMIT: nat := 1024
  const CR: Byte := 13
  const LF: Byte := 10

  datatype Outcome = Accepted | Rejected(status: U16) | TooLarge | ClosedEarly | IoError

  // ---- The end of the header ----

  predicate EndsAt(s: Bytes, i: nat) {
    i + 4 <= |s| && s[i] == CR && s[i + 1] == LF && s[i + 2] == CR && s[i + 3] == LF
  }

  function HeaderEnd(s: Bytes): (e: Option<nat>)
    ensures e.Some? ==> 4 <= e.value <= |s|
  {
    if |s| < 4 then None
    else if EndsAt(s, 0) then Some(4)
    else
      match HeaderEnd(s[1..])
      case None => None
      case Some(e) => Some(e + 1)
  }

  /** The first CRLFCRLF, both ways: the position found follows one, and none starts earlier. */
  lemma {:induction false} HeaderEndExactly(s: Bytes, i: nat)
    ensures HeaderEnd(s) == Some(i + 4) <==> EndsAt(s, i) && forall j :: 0 <= j < i ==> !EndsAt(s, j)
  {
    if |s| < 4 {
    } else if EndsAt(s, 0) {
    } else if i > 0 {
      var t := s[1..];
      HeaderEndExactly(t, i - 1);
      forall j: nat ensures EndsAt(t, j) <==> EndsAt(s, j + 1) {
      }
      if forall j :: 0 <= j < i - 1 ==> !EndsAt(t, j) {
        forall j | 0 <= j < i ensures !EndsAt(s, j) {
          assert j > 0 ==> !EndsAt(t, j - 1);
        }
      }
      if forall j :: 0 <= j < i ==> !EndsAt(s, j) {
        forall j | 0 <= j < i - 1 ensures !EndsAt(t, j) {
          assert !EndsAt(s, j + 1);
        }
      }
    }
  }

  // A header end is found in a prefix exactly when it lies within it.
  lemma {:induction false} HeaderEndInPrefix(s: Bytes, n: nat)
    requires n <= |s|
    ensures HeaderEnd(s[..n]) ==
      if HeaderEnd(s).Some? && HeaderEnd(s).value <= n then HeaderEnd(s) else None
  {
    if n < 4 {
    } else if EndsAt(s, 0) {
      assert EndsAt(s[..n], 0);
    } else {
      assert s[..n][1..] == s[1..][..n - 1];
      HeaderEndInPrefix(s[1..], n - 1);
    }
  }

  // ---- The status line ----

  // Bytes of the white-space character at the front in UTF-8, 0 if there is none. A lead byte never
  // occurs inside another character, so this is exact on lossily decoded text too.
  function SpaceSize(s: Bytes): nat {
    if s == [] then 0
    else if 9 <= s[0] <= 13 || s[0] == 32 then 1
    else if |s| >= 2 && s[0] == 0xC2 && (s[1] == 0x85 || s[1] == 0xA0) then 2
    else if |s| < 3 then 0
    else if s[0] == 0xE1 && s[1] == 0x9A && s[2] == 0x80 then 3
    else if s[0] == 0xE2 && s[1] == 0x80 && (0x80 <= s[2] <= 0x8A || s[2] in {0xA8, 0xA9, 0xAF}) then 3
    else if s[0] == 0xE2 && s[1] == 0x81 && s[2] == 0x9F then 3
    else if s[0] == 0xE3 && s[1] == 0x80 && s[2] == 0x80 then 3
    else 0
  }

  function FirstLine(s: Bytes): (line: Bytes)
    ensures |line| <= |s|
  {
    if s == [] || s[0] == LF then [] else [s[0]] + FirstLine(s[1..])
  }

  function SkipSpaces(s: Bytes): (t: Bytes)
    ensures |t| <= |s|
    decreases |s|
  {
    if 0 < SpaceSize(s) <= |s| then SkipSpaces(s[SpaceSize(s)..]) else s
  }

  function Word(s: Bytes): (w: Bytes)
    ensures |w| <= |s|
  {
    if s == [] || SpaceSize(s) > 0 then [] else [s[0]] + Word(s[1..])
  }

  predicate IsDigit(b: Byte) {
    48 <= b <= 57
  }

  function DigitValue(b: Byte): nat {
    if b >= 48 then b - 48 else 0
  }

  function Number(s: Bytes): nat {
    if s == [] then 0 else Number(s[..|s| - 1]) * 10 + DigitValue(s[|s| - 1])
  }

  predicate AllDigits(s: Bytes) {
    forall i :: 0 <= i < |s| ==> IsDigit(s[i])
  }

  // str::parse::<u16>: an optional plus sign, at least one digit, no more than 65535.
  function ParseU16(s: Bytes): Option<U16> {
    var digits := if |s| > 1 && s[0] == 43 then s[1..] else s;
    if digits != [] && AllDigits(digits) && Number(digits) < TWO_16
    then Some(Number(digits)) else None
  }

  // The second word of the first line, 0 if it is missing or no number.
  function StatusOf(header: Bytes): U16 {
    var line := SkipSpaces(FirstLine(header));
    var second := Word(SkipSpaces(line[|Word(line)|..]));
    match ParseU16(second)
    case None => 0
    case Some(status) => status
  }

  function Verdict(header: Bytes): Outcome {
    if StatusOf(header) == 200 then Accepted else Rejected(StatusOf(header))
  }

  // ---- What the reply decides ----

  function Seen(reply: Bytes): Bytes {
    if |reply| <= LIMIT then reply else reply[..LIMIT]
  }

  // Decided by the reply's first 1024 bytes and how it ends, nothing else.
  function Decision(reply: Bytes, ending: Ending): Outcome {
    match HeaderEnd(Seen(reply))
    case Some(e) => Verdict(reply[..e])
    case None => if |reply| >= LIMIT then TooLarge else if ending == Closed then ClosedEarly else IoError
  }

  // How much of the reply has been read when the loop ends, if after `total` bytes a read brings `arrived(total)`.
  function Taken(reply: Bytes, arrived: nat -> nat, total: nat): (t: nat)
    requires total <= |reply|
    ensures total <= t <= |reply|
    decreases |reply| - total
  {
    if total >= LIMIT || total == |reply| then total
    else
      var next := total + ReadSize(|reply| - total, LIMIT - total, arrived(total));
      if HeaderEnd(reply[..next]).Some? then next else Taken(reply, arrived, next)
  }

  function Text(s: string): Bytes {
    seq(|s|, i requires 0 <= i < |s| => (s[i] as int) % 256)
  }

  function Request(host: Bytes, port: U16): Bytes {
    var target := host + [58] + Text(Proxies.Decimal(port));
    Text("CONNECT ") + target + Text(" HTTP/1.1\r\nHost: ") + target
    + Text("\r\nProxy-Connection: keep-alive\r\n\r\n")
  }

  /**
   `arrived` decides the size of every read, so it stands for every way the network may cut the reply.
   The outcome does not depend on it; how many bytes have been taken off the stream does.
   */
  method HttpConnectHandshake(stream: ServerStream, host: Bytes, port: U16, arrived: nat -> nat)
    returns (outcome: Outcome)
    modifies stream
    ensures old(stream.accepts) == 0 ==>
      && outcome == IoError && stream.incoming == old(stream.incoming)
      && IsPartOf(Request(host, port), old(stream.sent), stream.sent)
    ensures old(stream.accepts) > 0 ==>
      && outcome == Decision(old(stream.incoming), stream.ending)
      && stream.incoming == old(stream.incoming)[Taken(old(stream.incoming), arrived, 0)..]
      && stream.sent == old(stream.sent) + Request(host, port)
  {
    hide StatusOf, HeaderEnd, Request, Taken, Decision, ReadSize, IsPartOf;
    var ok := stream.WriteAll(Request(host, port));
    if !ok {
      return IoError;
    }
    ghost var reply := stream.incoming;
    var buf := new Byte[LIMIT];
    var total := 0;
    while true
      invariant ReadSoFar(reply, buf[..], total, stream.incoming)
      invariant Taken(reply, arrived, 0) == Taken(reply, arrived, total)
      invariant stream.sent == old(stream.sent) + Request(host, port)
      decreases |reply| - total
    {
      if total >= buf.Length {
        NothingFound(reply, total, arrived, stream.ending);
        return TooLarge;
      }
      var n := ReadInto(stream, buf, total, arrived(total), reply);
      if n == None {
        NothingFound(reply, total, arrived, stream.ending);
        return IoError;
      }
      if n.value == 0 {
        NothingFound(reply, total, arrived, stream.ending);
        return ClosedEarly;
      }
      TakenStep(reply, arrived, total);
      total := total + n.value;
      var headerEnd := HeaderEnd(buf[..total]);
      if headerEnd.Some? {
        FoundDecides(reply, total, headerEnd.value, stream.ending);
        var header := buf[..headerEnd.value];
        assert header == buf[..total][..headerEnd.value];
        return if StatusOf(header) == 200 then Accepted else Rejected(StatusOf(header));
      }
    }
  }

  // The loop's state: the buffer starts with what has been read, and no header end is in it yet.
  ghost predicate ReadSoFar(reply: Bytes, buf: Bytes, total: nat, incoming: Bytes) {
    && |buf| == LIMIT && total <= LIMIT && total <= |reply|
    && buf[..total] == reply[..total]
    && incoming == reply[total..]
    && HeaderEnd(reply[..total]) == None
  }

  // stream.read(&mut buf[total..]): None is an I/O error, 0 the end of the stream.
  method ReadInto(stream: ServerStream, buf: array<Byte>, total: nat, arrived: nat, ghost reply: Bytes)
    returns (n: Option<nat>)
    requires total < buf.Length && total <= |reply|
    requires buf[..total] == reply[..total] && stream.incoming == reply[total..]
    modifies stream`incoming, buf
    ensures total == |reply| ==> n == (if stream.ending == Closed then Some(0) else None)
    ensures total < |reply| ==> n == Some(ReadSize(|reply| - total, buf.Length - total, arrived))
    ensures var end := total + if n.Some? then n.value else 0;
      end <= buf.Length && end <= |reply| && buf[..end] == reply[..end] && stream.incoming == reply[end..]
  {
    var chunk := stream.Read(buf.Length - total, arrived);
    if chunk == None {
      return None;
    }
    n := Some(|chunk.value|);
    assert total < |reply| ==> chunk.value == reply[total..total + |chunk.value|];
    forall i | 0 <= i < |chunk.value| {
      buf[total + i] := chunk.value[i];
    }
  }

  lemma FoundIn(reply: Bytes, total: nat, e: nat)
    requires total <= |reply| && total <= LIMIT && HeaderEnd(reply[..total]) == Some(e)
    ensures HeaderEnd(Seen(reply)) == Some(e)
  {
    assert Seen(reply)[..total] == reply[..total];
    HeaderEndInPrefix(Seen(reply), total);
  }

  lemma FoundDecides(reply: Bytes, total: nat, e: nat, ending: Ending)
    requires total <= |reply| && total <= LIMIT && HeaderEnd(reply[..total]) == Some(e)
    ensures Decision(reply, ending) == Verdict(reply[..total][..e])
  {
    FoundIn(reply, total, e);
    assert reply[..total][..e] == reply[..e];
  }

  lemma NothingFound(reply: Bytes, total: nat, arrived: nat -> nat, ending: Ending)
    requires total == LIMIT <= |reply| || total == |reply| < LIMIT
    requires HeaderEnd(reply[..total]) == None
    ensures Decision(reply, ending) ==
      if total == LIMIT then TooLarge else if ending == Closed then ClosedEarly else IoError
    ensures Taken(reply, arrived, total) == total
  {
    assert Seen(reply) == reply[..total];
  }

  lemma TakenStep(reply: Bytes, arrived: nat -> nat, total: nat)
    requires total < LIMIT && total < |reply|
    ensures var next := total + ReadSize(|reply| - total, LIMIT - total, arrived(total));
      Taken(reply, arrived, total) == if HeaderEnd(reply[..next]).Some? then next else Taken(reply, arrived, next)
  {
  }

  // ---- Consequences ----

  /** The bytes after the header never matter to the outcome. */
  lemma DecidedByHeader(reply: Bytes, more: Bytes, ending: Ending, other: Ending)
    requires HeaderEnd(Seen(reply)).Some?
    ensures Decision(reply[..HeaderEnd(Seen(reply)).value] + more, other) == Decision(reply, ending)
  {
    var e := HeaderEnd(Seen(reply)).value;
    var b := reply[..e] + more;
    HeaderEndInPrefix(Seen(reply), e);
    assert Seen(reply)[..e] == reply[..e] == Seen(b)[..e];
    HeaderEndInPrefix(Seen(b), e);
    assert b[..e] == reply[..e];
  }

  lemma {:induction false} TakenWithin(reply: Bytes, arrived: nat -> nat, total: nat)
    requires total <= |reply| && total <= LIMIT
    requires HeaderEnd(reply[..total]) == None
    ensures total <= Taken(reply, arrived, total) <= |Seen(reply)|
    ensures HeaderEnd(Seen(reply)).Some? ==> HeaderEnd(Seen(reply)).value <= Taken(reply, arrived, total)
    decreases |reply| - total
  {
    if total >= LIMIT || total == |reply| {
      assert Seen(reply) == reply[..total];
    } else {
      var next := total + ReadSize(|reply| - total, LIMIT - total, arrived(total));
      if HeaderEnd(reply[..next]).Some? {
        FoundIn(reply, next, HeaderEnd(reply[..next]).value);
      } else {
        TakenWithin(reply, arrived, next);
      }
    }
  }

  function One(n: nat): nat {
    1
  }

  // A read of one byte, up to the header end.
  lemma OneByteMore(reply: Bytes, total: nat)
    requires total < |reply| && HeaderEnd(Seen(reply)).Some? && total < HeaderEnd(Seen(reply)).value
    ensures Taken(reply, One, total) ==
      if total + 1 == HeaderEnd(Seen(reply)).value then total + 1 else Taken(reply, One, total + 1)
    ensures total + 1 < HeaderEnd(Seen(reply)).value ==> HeaderEnd(reply[..total + 1]) == None
  {
    hide HeaderEnd, Taken;
    assert Seen(reply)[..total + 1] == reply[..total + 1];
    HeaderEndInPrefix(Seen(reply), total + 1);
    TakenStep(reply, One, total);
  }

  lemma {:induction false} OneByteAtATime(reply: Bytes, total: nat)
    requires total <= |reply| && HeaderEnd(reply[..total]) == None
    requires HeaderEnd(Seen(reply)).Some? && total < HeaderEnd(Seen(reply)).value
    ensures Taken(reply, One, total) == HeaderEnd(Seen(reply)).value
    decreases |reply| - total
  {
    hide HeaderEnd, Taken;
    OneByteMore(reply, total);
    if total + 1 < HeaderEnd(Seen(reply)).value {
      OneByteAtATime(reply, total + 1);
    }
  }

  lemma AllAtOnce(reply: Bytes)
    requires HeaderEnd(Seen(reply)).Some?
    ensures Taken(reply, _ => LIMIT, 0) == |Seen(reply)|
  {
    assert reply[..|Seen(reply)|] == Seen(reply);
  }

  /**
   On success the reply may be cut so that the first tunnel bytes are taken along with the header, and
   they are dropped. No cut loses any exactly when the first 1024 bytes end with the header.
   */
  lemma TunnelBytesSafeExactly(reply: Bytes)
    requires HeaderEnd(Seen(reply)).Some?
    ensures (forall arrived :: Taken(reply, arrived, 0) == HeaderEnd(Seen(reply)).value) <==>
      |Seen(reply)| == HeaderEnd(Seen(reply)).value
  {
    assert reply[..0] == [];
    forall arrived: nat -> nat
      ensures HeaderEnd(Seen(reply)).value <= Taken(reply, arrived, 0) <= |Seen(reply)|
    {
      TakenWithin(reply, arrived, 0);
    }
    AllAtOnce(reply);
    var greedy: nat -> nat := _ => LIMIT;
    assert Taken(reply, greedy, 0) == |Seen(reply)|;
  }

  // ---- Status lines ----

  ghost predicate Visible(s: Bytes) {
    forall i :: 0 <= i < |s| ==> 33 <= s[i] <= 126
  }

  // A visible word ends at the end of the text or at white space.
  lemma {:induction false} WordThenSpace(w: Bytes, after: Bytes)
    requires Visible(w) && (after == [] || SpaceSize(after) > 0)
    ensures Word(w + after) == w
  {
    if w == [] {
      assert w + after == after;
    } else {
      assert (w + after)[1..] == w[1..] + after;
      WordThenSpace(w[1..], after);
    }
  }

  lemma {:induction false} LineUpToLf(line: Bytes, rest: Bytes)
    requires forall i :: 0 <= i < |line| ==> line[i] != LF
    ensures FirstLine(line + [LF] + rest) == line
  {
    var s := line + [LF] + rest;
    if line == [] {
    } else {
      assert s[1..] == line[1..] + [LF] + rest;
      LineUpToLf(line[1..], rest);
    }
  }

  function ThreeDigits(code: nat): Bytes
    requires code <= 999
  {
    [48 + code / 100, 48 + code / 10 % 10, 48 + code % 10]
  }

  lemma DigitsOf(code: nat)
    requires 100 <= code <= 999
    ensures 0 < code / 100 < 10 && 0 <= code / 10 % 10 < 10
    ensures (code / 100 * 10 + code / 10 % 10) * 10 + code % 10 == code
  {
  }

  lemma NumberOfThree(a: Byte, b: Byte, c: Byte)
    ensures Number([a, b, c]) == (DigitValue(a) * 10 + DigitValue(b)) * 10 + DigitValue(c)
  {
    hide DigitValue;
    assert [a, b, c][..2] == [a, b] && [a, b][..1] == [a] && [a][..0] == [];
    assert Number([a]) == DigitValue(a);
    assert Number([a, b]) == DigitValue(a) * 10 + DigitValue(b);
  }

  lemma ThreeDigitsRead(code: nat)
    requires 100 <= code <= 999
    ensures ParseU16(ThreeDigits(code)) == Some(code) && Visible(ThreeDigits(code))
    ensures |ThreeDigits(code)| == 3 && IsDigit(ThreeDigits(code)[0])
  {
    hide Number;
    var d := ThreeDigits(code);
    DigitsOf(code);
    NumberOfThree(d[0], d[1], d[2]);
    assert IsDigit(d[0]) && IsDigit(d[1]) && IsDigit(d[2]);
  }

  /**
   A status line is read as its three-digit code: "version code", followed by the end of the line or by
   white space and anything (a reason, or the carriage return), then by any other lines.
   */
  lemma StatusLineRead(version: Bytes, code: nat, after: Bytes, rest: Bytes)
    requires version != [] && Visible(version)
    requires 100 <= code <= 999
    requires after == [] || SpaceSize(after) > 0
    requires LF !in after
    ensures StatusOf((version + ([32] + (ThreeDigits(code) + after))) + [LF] + rest) == code
  {
    hide SpaceSize, ParseU16, ThreeDigits, Word, SkipSpaces, FirstLine;
    var digits := ThreeDigits(code);
    var tail := digits + after;
    var line := version + ([32] + tail);
    ThreeDigitsRead(code);
    LineUpToLf(line, rest);
    StartsVisible(line);
    StartsWithBlank([32] + tail);
    WordThenSpace(version, [32] + tail);
    assert line[|version|..] == [32] + tail;
    SecondWord([32] + tail, tail);
    WordThenSpace(digits, after);
  }

  lemma {:induction false} StartsVisible(line: Bytes)
    requires line != [] && 33 <= line[0] <= 126
    ensures SkipSpaces(line) == line
  {
  }

  lemma StartsWithBlank(s: Bytes)
    requires s != [] && s[0] == 32
    ensures SpaceSize(s) == 1
  {
  }

  lemma SecondWord(after: Bytes, tail: Bytes)
    requires after == [32] + tail && tail != [] && IsDigit(tail[0])
    ensures SkipSpaces(after) == tail
  {
    assert after[1..] == tail;
    assert SkipSpaces(tail) == tail;
  }

  // ---- Whole replies ----

  // The header in raw bytes, carriage return and line feed twice, ends within the first 1024.
  lemma {:induction false} HeaderWithin(reply: Bytes, i: nat)
    requires i + 4 <= |reply| && i + 4 <= 1024
    requires reply[i] == 13 && reply[i + 1] == 10 && reply[i + 2] == 13 && reply[i + 3] == 10
    ensures HeaderEnd(Seen(reply)).Some?
  {
    var s := Seen(reply);
    assert EndsAt(s, i);
    FirstEnd(s, i);
  }

  lemma {:induction false} FirstEnd(s: Bytes, i: nat)
    requires EndsAt(s, i)
    ensures HeaderEnd(s).Some? && HeaderEnd(s).value <= i + 4
  {
    if !EndsAt(s, 0) {
      assert EndsAt(s[1..], i - 1);
      FirstEnd(s[1..], i - 1);
    }
  }

  lemma {:induction false} FoundEndsInLf(s: Bytes)
    requires HeaderEnd(s).Some?
    ensures 4 <= HeaderEnd(s).value <= |s| && s[HeaderEnd(s).value - 1] == LF
  {
    HeaderEndExactly(s, HeaderEnd(s).value - 4);
  }

  /**
   A reply with an ordinary status line, any further header lines and the header's end within the first 1024
   bytes opens the tunnel if and only if the code is 200, and is otherwise rejected with that code,
   whatever follows and however the stream ends.
   */
  lemma {:induction false} ReplyIsJudged(version: Bytes, code: nat, after: Bytes, rest: Bytes, i: nat, ending: Ending)
    requires version != [] && Visible(version)
    requires 100 <= code <= 999
    requires (after == [] || SpaceSize(after) > 0) && LF !in after
    requires var reply := (version + ([32] + (ThreeDigits(code) + after))) + [LF] + rest;
      && i + 4 <= |reply| && i + 4 <= 1024
      && reply[i] == 13 && reply[i + 1] == 10 && reply[i + 2] == 13 && reply[i + 3] == 10
    ensures Decision((version + ([32] + (ThreeDigits(code) + after))) + [LF] + rest, ending) ==
      if code == 200 then Accepted else Rejected(code)
  {
    hide SpaceSize, StatusOf, HeaderEnd, ThreeDigits;
    var line := version + ([32] + (ThreeDigits(code) + after));
    var reply := line + [LF] + rest;
    HeaderWithin(reply, i);
    var e := HeaderEnd(Seen(reply)).value;
    FoundEndsInLf(Seen(reply));
    ThreeDigitsRead(code);
    assert LF !in line;
    assert reply[e - 1] == LF;
    assert e > |line|;
    assert reply[..e] == line + [LF] + rest[..e - |line| - 1];
    StatusLineRead(version, code, after, rest[..e - |line| - 1]);
  }

  // The second word of the first line.
  function SecondWordOf(header: Bytes): Bytes {
    var line := SkipSpaces(FirstLine(header));
    Word(SkipSpaces(line[|Word(line)|..]))
  }

  function Zeros(n: nat): Bytes {
    seq(n, _ => 48)
  }

  lemma {:induction false} NumberIsZero(d: Bytes)
    requires AllDigits(d)
    ensures Number(d) == 0 <==> d == Zeros(|d|)
  {
    if d != [] {
      var front := d[..|d| - 1];
      NumberIsZero(front);
      if d == Zeros(|d|) {
        assert front == Zeros(|front|);
      }
      if Number(d) == 0 {
        assert d == front + [48];
      }
    }
  }

  lemma LastThree(c: Bytes, x: Byte, y: Byte, z: Byte)
    ensures Number(c + [x, y, z]) == ((Number(c) * 10 + DigitValue(x)) * 10 + DigitValue(y)) * 10 + DigitValue(z)
  {
    hide DigitValue;
    var d := c + [x, y, z];
    assert d[..|d| - 1] == c + [x, y] && (c + [x, y])[..|c| + 1] == c + [x] && (c + [x])[..|c|] == c;
    assert Number(c + [x]) == Number(c) * 10 + DigitValue(x);
    assert Number(c + [x, y]) == Number(c + [x]) * 10 + DigitValue(y);
  }

  lemma TwoHundredParts(n: nat, x: nat, y: nat, z: nat)
    requires x <= 9 && y <= 9 && z <= 9
    ensures ((n * 10 + x) * 10 + y) * 10 + z == 200 <==> n == 0 && x == 2 && y == 0 && z == 0
  {
  }

  lemma TwoHundredExactly(d: Bytes)
    requires AllDigits(d)
    ensures Number(d) == 200 <==> |d| >= 3 && d == Zeros(|d| - 3) + [50, 48, 48]
  {
    hide Number;
    if |d| >= 3 {
      var c, x, y, z := d[..|d| - 3], d[|d| - 3], d[|d| - 2], d[|d| - 1];
      NumberIsZero(c);
      assert d == c + [x, y, z];
      LastThree(c, x, y, z);
      assert IsDigit(x) && IsDigit(y) && IsDigit(z);
      TwoHundredParts(Number(c), DigitValue(x), DigitValue(y), DigitValue(z));
    } else {
      FewDigitsAreSmall(d);
    }
  }

  lemma FewDigitsAreSmall(d: Bytes)
    requires |d| < 3 && AllDigits(d)
    ensures Number(d) < 100
  {
    if |d| == 2 {
      assert d[..1][..0] == [] && Number(d[..1]) == DigitValue(d[0]);
    } else if |d| == 1 {
      assert d[..0] == [];
    }
  }

  // The number 200 as it may be written: a plus sign or none, any number of zeros, and the three digits.
  ghost predicate Reads200(w: Bytes) {
    exists n: nat :: w == Zeros(n) + [50, 48, 48] || w == [43] + (Zeros(n) + [50, 48, 48])
  }

  lemma ParsedDigits(w: Bytes)
    requires ParseU16(w).Some?
    ensures var digits := if |w| > 1 && w[0] == 43 then w[1..] else w;
      digits != [] && Number(digits) == ParseU16(w).value && AllDigits(digits)
  {
  }

  lemma ParsesTo200(w: Bytes)
    ensures ParseU16(w) == Some(200) <==> Reads200(w)
  {
    var digits := if |w| > 1 && w[0] == 43 then w[1..] else w;
    hide Number;
    if ParseU16(w) == Some(200) {
      ParsedDigits(w);
      TwoHundredExactly(digits);
      assert |w| > 1 && w[0] == 43 ==> w == [43] + digits;
    }
    forall n: nat | w == Zeros(n) + [50, 48, 48] || w == [43] + (Zeros(n) + [50, 48, 48])
      ensures ParseU16(w) == Some(200)
    {
      var d := Zeros(n) + [50, 48, 48];
      assert d[0] != 43;
      assert digits == d;
      assert AllDigits(d);
      TwoHundredExactly(d);
    }
  }

  /**
   The tunnel is opened if and only if the header ends within the first 1024 bytes and the second word of
   its first line reads 200. Without an end the reply is too large, or closed early, or broken off.
   */
  lemma AcceptedExactly(reply: Bytes, ending: Ending)
    ensures Decision(reply, ending) == Accepted <==>
      HeaderEnd(Seen(reply)).Some? && Reads200(SecondWordOf(reply[..HeaderEnd(Seen(reply)).value]))
    ensures HeaderEnd(Seen(reply)) == None ==>
      Decision(reply, ending) == if |reply| >= 1024 then TooLarge else if ending == Closed then ClosedEarly else IoError
  {
    hide SecondWordOf, HeaderEnd, Reads200, ParseU16;
    if HeaderEnd(Seen(reply)).Some? {
      var header := reply[..HeaderEnd(Seen(reply)).value];
      ParsesTo200(SecondWordOf(header));
      StatusIsSecondWord(header);
    }
  }

  lemma StatusIsSecondWord(header: Bytes)
    ensures StatusOf(header) == 200 <==> ParseU16(SecondWordOf(header)) == Some(200)
  {
    hide ParseU16, Word, SkipSpaces, FirstLine;
  }

  // ---- White space ----

  // Unicode's White_Space property.
  ghost predicate WhiteSpace(cp: nat) {
    || 9 <= cp <= 13 || cp == 32 || cp == 0x85 || cp == 0xA0 || cp == 0x1680 || 0x2000 <= cp <= 0x200A
    || cp == 0x2028 || cp == 0x2029 || cp == 0x202F || cp == 0x205F || cp == 0x3000
  }

  /**
   A text starts with white space if and only if its first character has that property; its size is the
   character's.
   */
  lemma SpaceSizeExactly(cp: Utf8.Scalar, rest: Bytes)
    ensures SpaceSize(Utf8.Encode(cp) + rest) == if WhiteSpace(cp) then |Utf8.Encode(cp)| else 0
    ensures SpaceSize([]) == 0
  {
    var e := Utf8.Encode(cp);
    var s := e + rest;
    Utf8.Parts(cp);
    assert forall i :: 0 <= i < |e| ==> s[i] == e[i];
  }

  // White space only.
  ghost predicate Blank(s: Bytes)
    decreases |s|
  {
    s == [] || (0 < SpaceSize(s) <= |s| && Blank(s[SpaceSize(s)..]))
  }

  lemma {:induction false} BlankIsSkipped(s: Bytes)
    requires Blank(s)
    ensures SkipSpaces(s) == []
    decreases |s|
  {
    hide SpaceSize;
    if s != [] {
      BlankIsSkipped(s[SpaceSize(s)..]);
    } else {
      assert SpaceSize([]) == 0 by {
        NoSpace();
      }
    }
  }

  lemma NoSpace()
    ensures SpaceSize([]) == 0
  {
  }

  /** A line of one word, with nothing or white space after it, has no code, which counts as 0. */
  lemma {:induction false} NoCodeIsZero(version: Bytes, after: Bytes, rest: Bytes)
    requires version != [] && Visible(version) && Blank(after) && LF !in after
    ensures StatusOf((version + after) + [LF] + rest) == 0
    ensures Verdict((version + after) + [LF] + rest) == Rejected(0)
  {
    hide SpaceSize, Word, SkipSpaces, FirstLine;
    var line := version + after;
    LineUpToLf(line, rest);
    StartsVisible(line);
    BlankStart(after);
    WordThenSpace(version, after);
    assert line[|version|..] == after;
    BlankIsSkipped(after);
    NoWord();
  }

  lemma BlankStart(s: Bytes)
    requires Blank(s)
    ensures s == [] || SpaceSize(s) > 0
  {
  }

  lemma NoWord()
    ensures Word([]) == [] && ParseU16([]) == None
  {
  }

  /** A second word that is no number counts as 0 too. */
  lemma {:induction false} NoNumberIsZero(version: Bytes, word: Bytes, after: Bytes, rest: Bytes, i: nat)
    requires version != [] && Visible(version) && word != [] && Visible(word)
    requires i < |word| && !(48 <= word[i] <= 57) && !(i == 0 && word[0] == 43)
    requires (after == [] || SpaceSize(after) > 0) && LF !in after
    ensures Verdict((version + ([32] + (word + after))) + [LF] + rest) == Rejected(0)
  {
    hide SpaceSize, Word, SkipSpaces, FirstLine, Number;
    var tail := word + after;
    var line := version + ([32] + tail);
    LineUpToLf(line, rest);
    StartsVisible(line);
    StartsWithBlank([32] + tail);
    WordThenSpace(version, [32] + tail);
    assert line[|version|..] == [32] + tail;
    SkipOneBlank(tail);
    WordThenSpace(word, after);
    NotANumber(word, i);
  }

  lemma NotANumber(word: Bytes, i: nat)
    requires i < |word| && !(48 <= word[i] <= 57) && !(i == 0 && word[0] == 43)
    ensures ParseU16(word) == None
  {
    hide Number;
    if |word| > 1 && word[0] == 43 {
      assert word[1..][i - 1] == word[i];
    }
  }

  /** A number is read as such up to 65535, with a plus sign in front or without. */
  lemma NumberIsRead(n: nat)
    ensures var d := Text(Proxies.Decimal(n));
      && ParseU16(d) == (if n <= 65535 then Some(n) else None)
      && ParseU16([43] + d) == (if n <= 65535 then Some(n) else None)
  {
    hide Number, Text, Proxies.Decimal, Proxies.NumberOf;
    Proxies.DecimalReadsBack(n);
    Proxies.DecimalIsDigits(n);
    DigitsAsBytes(Proxies.Decimal(n));
    var d := Text(Proxies.Decimal(n));
    DigitsHaveLength(Proxies.Decimal(n));
    assert AllDigits(d) && d[0] != 43;
    assert ([43] + d)[1..] == d;
  }

  lemma DigitsHaveLength(s: string)
    ensures |Text(s)| == |s|
  {
  }

  // ---- The request, read by a proxy ----

  lemma {:induction false} PlainBeforeEnd(a: Bytes, b: Bytes)
    requires CR !in a && HeaderEnd(b).Some?
    ensures HeaderEnd(a + b) == Some(|a| + HeaderEnd(b).value)
  {
    if a == [] {
      assert a + b == b;
    } else {
      assert (a + b)[0] == a[0] && a[0] in a;
      assert (a + b)[1..] == a[1..] + b;
      PlainBeforeEnd(a[1..], b);
    }
  }

  lemma {:induction false} NotYet(s: Bytes)
    requires |s| >= 4 && s[2] != CR
    ensures HeaderEnd(s[1..]).Some? ==> HeaderEnd(s) == Some(HeaderEnd(s[1..]).value + 1)
  {
  }

  lemma {:induction false} LfBeforeEnd(next: Bytes)
    requires HeaderEnd(next).Some?
    ensures HeaderEnd([LF] + next) == Some(HeaderEnd(next).value + 1)
  {
    var s := [LF] + next;
    assert s[1..] == next && s[0] == LF;
  }

  lemma {:induction false} BreakBeforeEnd(next: Bytes)
    requires next != [] && next[0] != CR && HeaderEnd(next).Some?
    ensures HeaderEnd([CR, LF] + next) == Some(HeaderEnd(next).value + 2)
  {
    var s := [CR, LF] + next;
    LfBeforeEnd(next);
    assert s[1..] == [LF] + next && s[2] == next[0];
    assert |next| >= 4;
    NotYet(s);
  }

  lemma {:induction false} LineBeforeEnd(line: Bytes, next: Bytes)
    requires CR !in line && next != [] && next[0] != CR && HeaderEnd(next).Some?
    ensures HeaderEnd(line + ([CR, LF] + next)) == Some(|line| + 2 + HeaderEnd(next).value)
  {
    hide HeaderEnd;
    BreakBeforeEnd(next);
    PlainBeforeEnd(line, [CR, LF] + next);
  }

  lemma {:induction false} LastLine(line: Bytes, more: Bytes)
    requires CR !in line
    ensures HeaderEnd(line + ([CR, LF, CR, LF] + more)) == Some(|line| + 4)
  {
    var s := [CR, LF, CR, LF] + more;
    assert EndsAt(s, 0);
    PlainBeforeEnd(line, s);
  }

  lemma {:induction false} TextAppend(a: string, b: string)
    ensures Text(a + b) == Text(a) + Text(b)
  {
  }

  // The request's three lines.
  function RequestLine(target: Bytes): Bytes {
    Text("CONNECT ") + target + Text(" HTTP/1.1")
  }

  function HostLine(target: Bytes): Bytes {
    Text("Host: ") + target
  }

  function Target(host: Bytes, port: U16): Bytes {
    host + [58] + Text(Proxies.Decimal(port))
  }

  // The request and what follows it, from its second and third line on.
  function ThirdPart(more: Bytes): Bytes {
    Text("Proxy-Connection: keep-alive") + ([CR, LF, CR, LF] + more)
  }

  function SecondPart(target: Bytes, more: Bytes): Bytes {
    HostLine(target) + ([CR, LF] + ThirdPart(more))
  }

  lemma {:induction false} RequestLines(host: Bytes, port: U16, more: Bytes)
    ensures var t := Target(host, port);
      Request(host, port) + more ==
        RequestLine(t) + ([CR, LF] + SecondPart(t, more))
  {
    hide Text;
    var t := Target(host, port);
    LineBreaks();
    TextAppend(" HTTP/1.1", "\r\nHost: ");
    TextAppend("\r\n", "Host: ");
    TextAppend("\r\n", "Proxy-Connection: keep-alive\r\n\r\n");
    TextAppend("Proxy-Connection: keep-alive", "\r\n\r\n");
    assert " HTTP/1.1" + "\r\nHost: " == " HTTP/1.1\r\nHost: " && "\r\n" + "Host: " == "\r\nHost: ";
    assert "\r\n" + "Proxy-Connection: keep-alive\r\n\r\n" == "\r\nProxy-Connection: keep-alive\r\n\r\n";
    assert "Proxy-Connection: keep-alive" + "\r\n\r\n" == "Proxy-Connection: keep-alive\r\n\r\n";
  }

  lemma LineBreaks()
    ensures Text("\r\n") == [CR, LF] && Text("\r\n\r\n") == [CR, LF, CR, LF]
  {
  }

  lemma PortText(port: U16)
    ensures Visible(Text(Proxies.Decimal(port))) && Number(Text(Proxies.Decimal(port))) == port
    ensures Text(Proxies.Decimal(port)) != []
    ensures forall i :: 0 <= i < |Text(Proxies.Decimal(port))| ==> IsDigit(Text(Proxies.Decimal(port))[i])
  {
    Proxies.DecimalReadsBack(port);
    Proxies.DecimalIsDigits(port);
    DigitsAsBytes(Proxies.Decimal(port));
  }

  lemma {:induction false} DigitsAsBytes(d: string)
    requires forall c :: c in d ==> '0' <= c <= '9'
    ensures Number(Text(d)) == Proxies.NumberOf(d)
    ensures Visible(Text(d)) && forall i :: 0 <= i < |d| ==> IsDigit(Text(d)[i])
  {
    if d != [] {
      var n := |d| - 1;
      assert forall c :: c in d[..n] ==> c in d;
      DigitsAsBytes(d[..n]);
      var front, all := Text(d[..n]), Text(d);
      assert all[..n] == front && d[n] in d;
      hide Text;
      assert forall i :: 0 <= i < n ==> all[i] == front[i];
    }
  }

  lemma RequestLength(host: Bytes, port: U16)
    ensures |Request(host, port)| ==
      |RequestLine(Target(host, port))| + 2 + (|HostLine(Target(host, port))| + 2
      + (|Text("Proxy-Connection: keep-alive")| + 4))
  {
  }

  lemma LinesArePlain(t: Bytes)
    requires Visible(t)
    ensures CR !in RequestLine(t) && LF !in RequestLine(t) && CR !in HostLine(t) && LF !in HostLine(t)
    ensures CR !in Text("Proxy-Connection: keep-alive")
    ensures HostLine(t) != [] && Text("Proxy-Connection: keep-alive") != []
    ensures HostLine(t)[0] == 72 && Text("Proxy-Connection: keep-alive")[0] == 80
  {
    hide Text;
    assert forall b :: b in t ==> 33 <= b <= 126;
    ConnectText();
    VersionText();
    HostText();
    KeepAliveText();
  }

  lemma ConnectText()
    ensures Text("CONNECT ") == [67, 79, 78, 78, 69, 67, 84] + [32]
  {
  }

  lemma VersionText()
    ensures Text(" HTTP/1.1") == [32] + [72, 84, 84, 80, 47, 49, 46, 49]
  {
  }

  lemma HostText()
    ensures Text("Host: ") == [72, 111, 115, 116, 58] + [32]
  {
  }

  lemma KeepAliveText()
    ensures var t := Text("Proxy-Connection: keep-alive"); |t| == 28 && t[0] == 80 && CR !in t
  {
    var text := "Proxy-Connection: keep-alive";
    assert forall i :: 0 <= i < |text| ==> text[i] >= ' ';
    assert forall i :: 0 <= i < |text| ==> Text(text)[i] >= 32;
  }

  // The first line of line, carriage return, line feed and more.
  lemma {:induction false} FirstLineOf(line: Bytes, next: Bytes)
    requires LF !in line
    ensures FirstLine(line + ([CR, LF] + next)) == line + [CR]
  {
    LineUpToLf(line + [CR], next);
    assert (line + [CR]) + [LF] + next == line + ([CR, LF] + next);
  }

  lemma {:induction false} RequestLineWords(t: Bytes)
    requires t != [] && Visible(t)
    ensures Word(RequestLine(t) + [CR]) == [67, 79, 78, 78, 69, 67, 84]
    ensures SecondWordOf(RequestLine(t) + [CR]) == t
  {
    hide Text, Word, SecondWordOf;
    ConnectText();
    VersionText();
    var first: Bytes := [67, 79, 78, 78, 69, 67, 84];
    var after: Bytes := [32] + ([72, 84, 84, 80, 47, 49, 46, 49] + [CR]);
    assert RequestLine(t) + [CR] == first + ([32] + (t + after));
    TwoWords(first, t, after);
  }

  lemma {:induction false} HostLineWords(t: Bytes)
    requires t != [] && Visible(t)
    ensures Word(HostLine(t) + [CR]) == [72, 111, 115, 116, 58]
    ensures SecondWordOf(HostLine(t) + [CR]) == t
  {
    hide Text, Word, SecondWordOf;
    HostText();
    var first: Bytes := [72, 111, 115, 116, 58];
    assert HostLine(t) + [CR] == first + ([32] + (t + [CR]));
    TwoWords(first, t, [CR]);
  }

  lemma {:induction false} TwoWords(first: Bytes, second: Bytes, after: Bytes)
    requires first != [] && second != [] && Visible(first) && Visible(second)
    requires after != [] && SpaceSize(after) > 0 && LF !in after
    ensures var line := first + ([32] + (second + after));
      Word(line) == first && SecondWordOf(line) == second
  {
    hide SpaceSize, Word, SkipSpaces, FirstLine;
    var line := first + ([32] + (second + after));
    NoLfIsOneLine(line);
    StartsVisible(line);
    StartsWithBlank([32] + (second + after));
    WordThenSpace(first, [32] + (second + after));
    assert line[|first|..] == [32] + (second + after);
    SkipOneBlank(second + after);
    WordThenSpace(second, after);
  }

  lemma {:induction false} NoLfIsOneLine(line: Bytes)
    requires LF !in line
    ensures FirstLine(line) == line
  {
    if line != [] {
      assert line[0] in line && forall b :: b in line[1..] ==> b in line;
      NoLfIsOneLine(line[1..]);
    }
  }

  lemma {:induction false} SkipOneBlank(tail: Bytes)
    requires tail != [] && 33 <= tail[0] <= 126
    ensures SkipSpaces([32] + tail) == tail
  {
    assert ([32] + tail)[1..] == tail;
    assert SkipSpaces(tail) == tail;
  }

  // What follows the first line.
  function NextLines(s: Bytes): Bytes {
    if |FirstLine(s)| < |s| then s[|FirstLine(s)| + 1..] else []
  }

  // The first line starts with this word, and the next word is the target.
  ghost predicate SplitsAs(s: Bytes, first: Bytes, target: Bytes) {
    var line := FirstLine(s);
    Word(line) == first && SecondWordOf(line) == target
  }

  lemma {:induction false} RequestEnds(host: Bytes, port: U16, more: Bytes)
    requires Visible(Target(host, port))
    ensures HeaderEnd(Request(host, port) + more) == Some(|Request(host, port)|)
  {
    hide Text, HeaderEnd, Request, RequestLine, HostLine, Target;
    var t := Target(host, port);
    RequestLines(host, port, more);
    LinesArePlain(t);
    PartsStart(t, more);
    LastLine(Text("Proxy-Connection: keep-alive"), more);
    LineBeforeEnd(HostLine(t), ThirdPart(more));
    LineBeforeEnd(RequestLine(t), SecondPart(t, more));
    RequestLength(host, port);
  }

  lemma {:induction false} PartsStart(t: Bytes, more: Bytes)
    requires Visible(t)
    ensures ThirdPart(more) != [] && ThirdPart(more)[0] != CR
    ensures SecondPart(t, more) != [] && SecondPart(t, more)[0] != CR
  {
    hide Text, HostLine;
    LinesArePlain(t);
    assert SecondPart(t, more)[0] == HostLine(t)[0];
    assert ThirdPart(more)[0] == Text("Proxy-Connection: keep-alive")[0];
  }

  lemma {:induction false} RequestSplits(host: Bytes, port: U16, more: Bytes)
    requires Visible(Target(host, port)) && Target(host, port) != []
    ensures var s, t := Request(host, port) + more, Target(host, port);
      && SplitsAs(s, [67, 79, 78, 78, 69, 67, 84], t)
      && SplitsAs(NextLines(s), [72, 111, 115, 116, 58], t)
  {
    hide Text, Request, RequestLine, HostLine, Target, FirstLine, Word, SecondWordOf, ThirdPart;
    var s, t := Request(host, port) + more, Target(host, port);
    RequestLines(host, port, more);
    LinesArePlain(t);
    FirstLineOf(RequestLine(t), SecondPart(t, more));
    FirstLineOf(HostLine(t), ThirdPart(more));
    assert s == (RequestLine(t) + [CR]) + [LF] + SecondPart(t, more);
    assert NextLines(s) == SecondPart(t, more);
    RequestLineWords(t);
    HostLineWords(t);
  }

  /**
   What a proxy reads of a request, whatever follows it: the header ends where the request does; its first
   line is the method CONNECT with the target, its second the Host field with the same; and the target
   is the host, a colon, and the port in decimal.
   */
  lemma {:induction false} RequestReadBack(host: Bytes, port: U16, more: Bytes)
    requires host != [] && Visible(host)
    ensures var s, t := Request(host, port) + more, Target(host, port);
      && HeaderEnd(s) == Some(|Request(host, port)|)
      && SplitsAs(s, [67, 79, 78, 78, 69, 67, 84], t)
      && SplitsAs(NextLines(s), [72, 111, 115, 116, 58], t)
      && |t| > |host| && t[..|host|] == host && t[|host|] == 58 && Number(t[|host| + 1..]) == port
  {
    hide Text, HeaderEnd, Request, Number, SplitsAs, NextLines;
    var t := Target(host, port);
    PortText(port);
    assert Visible(t);
    RequestEnds(host, port, more);
    RequestSplits(host, port, more);
    assert t[|host| + 1..] == Text(Proxies.Decimal(port));
  }
}
