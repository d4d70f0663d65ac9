/** Extraction of the server name from a TLS ClientHello: the cursor walk, and the exact inputs it accepts. */
module Sniff {
  import opened Words
  import opened Wrappers
  import Utf8

  // ---- UTF-8 (str::from_utf8) ----

  predicate Continuation(b: Byte) {
    0x80 <= b <= 0xBF
  }

  // Length of the well-formed UTF-8 sequence at the front, 0 if there is none.
  function Utf8Step(s: Bytes): nat {
    if s == [] then 0
    else if s[0] < 0x80 then 1
    else if |s| < 2 then 0
    else if 0xC2 <= s[0] <= 0xDF then (if Continuation(s[1]) then 2 else 0)
    else if |s| < 3 || !Continuation(s[2]) then 0
    else if s[0] == 0xE0 then (if 0xA0 <= s[1] <= 0xBF then 3 else 0)
    else if s[0] == 0xED then (if 0x80 <= s[1] <= 0x9F then 3 else 0)
    else if 0xE1 <= s[0] <= 0xEF then (if Continuation(s[1]) then 3 else 0)
    else if |s| < 4 || !Continuation(s[3]) then 0
    else if s[0] == 0xF0 then (if 0x90 <= s[1] <= 0xBF then 4 else 0)
    else if 0xF1 <= s[0] <= 0xF3 then (if Continuation(s[1]) then 4 else 0)
    else if s[0] == 0xF4 then (if 0x80 <= s[1] <= 0x8F then 4 else 0)
    else 0
  }

  predicate ValidUtf8(s: Bytes) {
    s == [] || (0 < Utf8Step(s) <= |s| && ValidUtf8(s[Utf8Step(s)..]))
  }

  // Every character's encoding is a step of its own length.
  lemma StepOfCharacter(cp: Utf8.Scalar, rest: Bytes)
    ensures Utf8Step(Utf8.Encode(cp) + rest) == |Utf8.Encode(cp)|
  {
    var e := Utf8.Encode(cp);
    var s := e + rest;
    Utf8.Parts(cp);
    assert forall i :: 0 <= i < |e| ==> s[i] == e[i];
  }

  // And every step takes the encoding of one character.
  lemma CharacterOfStep(s: Bytes) returns (cp: Utf8.Scalar)
    requires Utf8Step(s) > 0
    ensures Utf8Step(s) <= |s| && s[..Utf8Step(s)] == Utf8.Encode(cp)
  {
    var n := Utf8Step(s);
    if n == 1 {
      cp := s[0];
    } else if n == 2 {
      cp := TwoByteCharacter(s[0], s[1]);
    } else if n == 3 {
      cp := ThreeByteCharacter(s[0], s[1], s[2]);
    } else {
      cp := FourByteCharacter(s[0], s[1], s[2], s[3]);
    }
    assert s[..n] == Utf8.Encode(cp);
  }

  lemma TwoByteCharacter(a: Byte, b: Byte) returns (cp: Utf8.Scalar)
    requires 0xC2 <= a <= 0xDF && 0x80 <= b <= 0xBF
    ensures Utf8.Encode(cp) == [a, b]
  {
    cp := (a - 0xC0) * 64 + (b - 0x80);
  }

  lemma ThreeByteCharacter(a: Byte, b: Byte, c: Byte) returns (cp: Utf8.Scalar)
    requires 0xE0 <= a <= 0xEF && 0x80 <= b <= 0xBF && 0x80 <= c <= 0xBF
    requires (a == 0xE0 ==> b >= 0xA0) && (a == 0xED ==> b <= 0x9F)
    ensures Utf8.Encode(cp) == [a, b, c]
  {
    var high: nat := (a - 0xE0) * 64 + (b - 0x80);
    cp := high * 64 + (c - 0x80);
    assert cp / 64 == high && cp % 64 == c - 0x80;
    Utf8.Parts(cp);
    assert high / 64 == a - 0xE0;
  }

  lemma FourByteCharacter(a: Byte, b: Byte, c: Byte, d: Byte) returns (cp: Utf8.Scalar)
    requires 0xF0 <= a <= 0xF4 && 0x80 <= b <= 0xBF && 0x80 <= c <= 0xBF && 0x80 <= d <= 0xBF
    requires (a == 0xF0 ==> b >= 0x90) && (a == 0xF4 ==> b <= 0x8F)
    ensures Utf8.Encode(cp) == [a, b, c, d]
  {
    var top: nat := (a - 0xF0) * 64 + (b - 0x80);
    var high: nat := top * 64 + (c - 0x80);
    cp := high * 64 + (d - 0x80);
    assert cp / 64 == high && cp % 64 == d - 0x80;
    assert high / 64 == top && high % 64 == c - 0x80;
    Utf8.Parts(cp);
    assert top / 64 == a - 0xF0;
  }

  /** The validity test accepts exactly the encodings of texts. */
  lemma {:induction false} ValidUtf8Exactly(s: Bytes)
    ensures ValidUtf8(s) <==> exists cps :: s == Utf8.EncodeAll(cps)
  {
    if ValidUtf8(s) {
      var cps := TextOf(s);
    }
    forall cps | s == Utf8.EncodeAll(cps) ensures ValidUtf8(s) {
      TextIsValid(cps);
    }
  }

  lemma {:induction false} TextOf(s: Bytes) returns (cps: seq<Utf8.Scalar>)
    requires ValidUtf8(s)
    ensures s == Utf8.EncodeAll(cps)
  {
    hide Utf8Step, Utf8.Encode;
    if s == [] {
      cps := [];
    } else {
      var cp := CharacterOfStep(s);
      var rest := TextOf(s[Utf8Step(s)..]);
      cps := [cp] + rest;
      assert cps[1..] == rest;
      assert s == s[..Utf8Step(s)] + s[Utf8Step(s)..];
    }
  }

  lemma {:induction false} TextIsValid(cps: seq<Utf8.Scalar>)
    ensures ValidUtf8(Utf8.EncodeAll(cps))
  {
    hide Utf8Step, Utf8.Encode;
    if cps == [] {
    } else {
      var e, rest := Utf8.Encode(cps[0]), Utf8.EncodeAll(cps[1..]);
      TextIsValid(cps[1..]);
      StepOfCharacter(cps[0], rest);
      assert (e + rest)[|e|..] == rest;
    }
  }

  lemma {:induction false} AsciiIsValid(s: Bytes)
    requires forall i :: 0 <= i < |s| ==> s[i] < 0x80
    ensures ValidUtf8(s)
  {
    if s == [] {
    } else {
      AsciiIsValid(s[1..]);
    }
  }

  // ---- The name a buffer yields, by suffixes ----

  // What follows a field with a one-byte length, and with a two-byte length.
  function Skip8(s: Bytes): Option<Bytes> {
    if |s| < 1 then None
    else
      var length: nat := s[0];
      if |s| < 1 + length then None else Some(s[1 + length..])
  }

  function Skip16(s: Bytes): Option<Bytes> {
    if |s| < 2 then None
    else
      var length: nat := FromBigEndian(s[0], s[1]);
      if |s| < 2 + length then None else Some(s[2 + length..])
  }

  // The server name extension's content: list length, name type, name length, name.
  function NameIn(s: Bytes): Option<Bytes> {
    if |s| < 5 then None
    else
      var length: nat := FromBigEndian(s[3], s[4]);
      if s[2] == 0 && 5 + length <= |s| && ValidUtf8(s[5..5 + length]) then Some(s[5..5 + length]) else None
  }

  function Walk(s: Bytes): Option<Bytes> {
    if |s| < 4 then None
    else if FromBigEndian(s[0], s[1]) == 0 then NameIn(s[4..])
    else
      match Skip16(s[2..])
      case None => None
      case Some(rest) => Walk(rest)
  }

  // The extension bytes within their declared length.
  function Window(declared: U16, body: Bytes): Bytes {
    if declared <= |body| then body[..declared] else body
  }

  function FromExtensions(s: Bytes): Option<Bytes> {
    if |s| < 2 then None else Walk(Window(FromBigEndian(s[0], s[1]), s[2..]))
  }

  function FromCompression(s: Bytes): Option<Bytes> {
    match Skip8(s)
    case None => None
    case Some(rest) => FromExtensions(rest)
  }

  function FromSuites(s: Bytes): Option<Bytes> {
    match Skip16(s)
    case None => None
    case Some(rest) => FromCompression(rest)
  }

  function FromSession(s: Bytes): Option<Bytes> {
    match Skip8(s)
    case None => None
    case Some(rest) => FromSuites(rest)
  }

  function Sni(buf: Bytes): Option<Bytes> {
    if |buf| < 43 || buf[0] != 0x16 || buf[5] != 0x01 then None else FromSession(buf[43..])
  }

  // ---- The cursor walk ----

  lemma SliceDrop(s: Bytes, i: nat, j: nat, end: nat)
    requires i + j <= end <= |s|
    ensures s[i..end][j..] == s[i + j..end]
  {
  }

  lemma SliceSlice(s: Bytes, i: nat, end: nat, j: nat, k: nat)
    requires j <= k && i + k <= end <= |s|
    ensures s[i..end][j..k] == s[i + j..i + k]
  {
    var t := s[i..end];
    forall m | j <= m < k ensures t[m] == s[i + m] {
    }
    assert t[j..k] == s[i + j..i + k];
  }

  // Reading a one-byte or two-byte length at the cursor and moving past the field.
  lemma CursorSkip8(buf: Bytes, pos: nat)
    ensures pos <= |buf| ==>
      Skip8(buf[pos..]) == if pos + 1 > |buf| || pos + 1 + buf[pos] > |buf| then None else Some(buf[pos + 1 + buf[pos]..])
  {
  }

  lemma CursorSkip16(buf: Bytes, pos: nat)
    ensures pos <= |buf| ==>
      Skip16(buf[pos..]) ==
        if pos + 2 > |buf| || pos + 2 + FromBigEndian(buf[pos], buf[pos + 1]) > |buf| then None
        else Some(buf[pos + 2 + FromBigEndian(buf[pos], buf[pos + 1])..])
  {
  }

  lemma NoExtensions(buf: Bytes, pos: nat)
    ensures pos <= |buf| < pos + 2 ==> FromExtensions(buf[pos..]) == None
  {
  }

  // The fixed and length-prefixed fields: where the extensions' length field is, if the name can be reached.
  method SkipToExtensions(buf: Bytes) returns (start: Option<nat>)
    ensures start.Some? ==> start.value + 2 <= |buf| && Sni(buf) == FromExtensions(buf[start.value..])
    ensures start == None ==> Sni(buf) == None
  {
    hide FromExtensions, Skip8, Skip16, FromBigEndian;
    if |buf| < 43 {
      return None;
    }
    if buf[0] != 0x16 {
      return None;
    }
    if buf[5] != 0x01 {
      return None;
    }
    var pos := 5 + 4 + 2 + 32;
    CursorSkip8(buf, pos);
    if pos >= |buf| {
      return None;
    }
    pos := pos + 1 + buf[pos];
    CursorSkip16(buf, pos);
    if pos + 2 > |buf| {
      return None;
    }
    pos := pos + 2 + FromBigEndian(buf[pos], buf[pos + 1]);
    CursorSkip8(buf, pos);
    if pos + 1 > |buf| {
      return None;
    }
    pos := pos + 1 + buf[pos];
    NoExtensions(buf, pos);
    if pos + 2 > |buf| {
      return None;
    }
    start := Some(pos);
  }

  lemma CursorWindow(buf: Bytes, pos: nat, end: nat)
    requires pos + 2 <= |buf|
    requires end == if pos + 2 + FromBigEndian(buf[pos], buf[pos + 1]) < |buf|
                    then pos + 2 + FromBigEndian(buf[pos], buf[pos + 1]) else |buf|
    ensures FromExtensions(buf[pos..]) == Walk(buf[pos + 2..end])
  {
    var declared := FromBigEndian(buf[pos], buf[pos + 1]);
    assert buf[pos..][2..] == buf[pos + 2..];
    assert Window(declared, buf[pos + 2..]) == buf[pos + 2..end];
  }

  // One extension at the cursor.
  lemma CursorWalk(buf: Bytes, pos: nat, end: nat)
    requires end <= |buf|
    ensures pos <= end ==>
      Walk(buf[pos..end]) ==
        if pos + 4 > end then None
        else
          var length: nat := FromBigEndian(buf[pos + 2], buf[pos + 3]);
          if FromBigEndian(buf[pos], buf[pos + 1]) == 0 then NameIn(buf[pos + 4..end])
          else if pos + 4 + length <= end then Walk(buf[pos + 4 + length..end]) else None
  {
    if pos + 4 <= end {
      var s := buf[pos..end];
      var length: nat := FromBigEndian(buf[pos + 2], buf[pos + 3]);
      assert s[0] == buf[pos] && s[1] == buf[pos + 1];
      SliceDrop(buf, pos, 4, end);
      SliceDrop(buf, pos, 2, end);
      if pos + 4 + length <= end {
        SliceDrop(buf, pos + 2, 2 + length, end);
      }
    }
  }

  lemma CursorName(buf: Bytes, pos: nat, end: nat)
    requires pos <= end <= |buf|
    ensures NameIn(buf[pos..end]) ==
      if pos + 5 > end then None
      else
        var length: nat := FromBigEndian(buf[pos + 3], buf[pos + 4]);
        if buf[pos + 2] == 0 && pos + 5 + length <= end && ValidUtf8(buf[pos + 5..pos + 5 + length])
        then Some(buf[pos + 5..pos + 5 + length]) else None
  {
    if pos + 5 <= end {
      var length: nat := FromBigEndian(buf[pos + 3], buf[pos + 4]);
      if pos + 5 + length <= end {
        SliceSlice(buf, pos, end, 5, 5 + length);
      }
    }
  }

  method ParseTlsSni(buf: Bytes) returns (name: Option<Bytes>)
    ensures name == Sni(buf)
  {
    hide ValidUtf8, Walk, NameIn, Sni, FromBigEndian;
    var start := SkipToExtensions(buf);
    if start == None {
      return None;
    }
    var pos := start.value;
    var extensionsLen := FromBigEndian(buf[pos], buf[pos + 1]);
    var end := if pos + 2 + extensionsLen < |buf| then pos + 2 + extensionsLen else |buf|;
    CursorWindow(buf, pos, end);
    pos := pos + 2;

    while pos + 4 <= end
      invariant end <= |buf|
      invariant Sni(buf) == if pos <= end then Walk(buf[pos..end]) else None
      decreases end - pos
    {
      CursorWalk(buf, pos, end);
      var extType := FromBigEndian(buf[pos], buf[pos + 1]);
      var extLen := FromBigEndian(buf[pos + 2], buf[pos + 3]);
      pos := pos + 4;
      if extType == 0 {
        CursorName(buf, pos, end);
        if pos + 5 > end {
          return None;
        }
        var sniType := buf[pos + 2];
        var nameLen := FromBigEndian(buf[pos + 3], buf[pos + 4]);
        pos := pos + 5;
        if sniType == 0 && pos + nameLen <= end {
          name := if ValidUtf8(buf[pos..pos + nameLen]) then Some(buf[pos..pos + nameLen]) else None;
          return;
        }
        return None;
      }
      pos := pos + extLen;
    }
    CursorWalk(buf, pos, end);
    name := None;
  }

  // ---- The accepted language ----

  function Field8(x: Bytes): Bytes
    requires |x| < 256
  {
    [|x|] + x
  }

  function Field16(x: Bytes): Bytes
    requires |x| < TWO_16
  {
    BigEndian(|x|) + x
  }

  datatype Extension = Extension(kind: U16, data: Bytes)

  ghost predicate Encodable(es: seq<Extension>) {
    forall i :: 0 <= i < |es| ==> |es[i].data| < TWO_16
  }

  function EncodeExtension(e: Extension): Bytes
    requires |e.data| < TWO_16
  {
    BigEndian(e.kind) + Field16(e.data)
  }

  function EncodeExtensions(es: seq<Extension>): Bytes
    requires Encodable(es)
  {
    if es == [] then [] else EncodeExtension(es[0]) + EncodeExtensions(es[1..])
  }

  lemma BigEndianInverts(n: U16)
    ensures FromBigEndian(BigEndian(n)[0], BigEndian(n)[1]) == n
  {
  }

  lemma FromBigEndianInverts(high: Byte, low: Byte)
    ensures BigEndian(FromBigEndian(high, low)) == [high, low]
  {
  }

  lemma Skip8Field(x: Bytes, rest: Bytes)
    requires |x| < 256
    ensures Skip8(Field8(x) + rest) == Some(rest)
  {
    var s := Field8(x) + rest;
    assert s[0] == |x|;
    assert s[1 + |x|..] == rest;
  }

  lemma Skip16Field(x: Bytes, rest: Bytes)
    requires |x| < TWO_16
    ensures Skip16(Field16(x) + rest) == Some(rest)
  {
    var s := Field16(x) + rest;
    BigEndianInverts(|x|);
    assert s[0] == BigEndian(|x|)[0] && s[1] == BigEndian(|x|)[1];
    assert s[2 + |x|..] == rest;
  }

  lemma Skip8Inverts(s: Bytes) returns (x: Bytes)
    requires Skip8(s).Some?
    ensures |x| < 256 && s == Field8(x) + Skip8(s).value
  {
    x := s[1..1 + s[0]];
  }

  lemma Skip16Inverts(s: Bytes) returns (x: Bytes)
    requires Skip16(s).Some?
    ensures |x| < TWO_16 && s == Field16(x) + Skip16(s).value
  {
    x := s[2..2 + FromBigEndian(s[0], s[1])];
    FromBigEndianInverts(s[0], s[1]);
    assert BigEndian(|x|) == [s[0], s[1]];
  }

  // The bytes before the extensions' length field: the fixed 43 and the three skipped fields.
  datatype Opening = Opening(header: Bytes, session: Bytes, suites: Bytes, compression: Bytes)

  ghost predicate WellOpened(o: Opening) {
    && |o.header| == 43 && o.header[0] == 0x16 && o.header[5] == 0x01
    && |o.session| < 256 && |o.suites| < TWO_16 && |o.compression| < 256
  }

  ghost function Opened(o: Opening, rest: Bytes): Bytes
    requires WellOpened(o)
  {
    o.header + (Field8(o.session) + (Field16(o.suites) + (Field8(o.compression) + rest)))
  }

  lemma OpenedSkips(o: Opening, rest: Bytes)
    requires WellOpened(o)
    ensures Sni(Opened(o, rest)) == FromExtensions(rest)
  {
    var c := Field8(o.compression) + rest;
    var b := Field16(o.suites) + c;
    var a := Field8(o.session) + b;
    assert Opened(o, rest) == o.header + a;
    assert (o.header + a)[43..] == a;
    Skip8Field(o.session, b);
    Skip16Field(o.suites, c);
    Skip8Field(o.compression, rest);
  }

  lemma SniIsOpened(buf: Bytes) returns (o: Opening, rest: Bytes)
    requires Sni(buf).Some?
    ensures WellOpened(o) && buf == Opened(o, rest) && |rest| >= 2
    ensures Sni(buf) == FromExtensions(rest)
  {
    var a := buf[43..];
    var session := Skip8Inverts(a);
    var b := Skip8(a).value;
    var suites := Skip16Inverts(b);
    var c := Skip16(b).value;
    var compression := Skip8Inverts(c);
    rest := Skip8(c).value;
    o := Opening(buf[..43], session, suites, compression);
    assert buf == o.header + a;
  }

  // A server name entry as the parser reads it. `lengths` are the extension's length and the list's
  // length, two bytes each, which it never looks at.
  function NameField(lengths: Bytes, host: Bytes): Bytes
    requires |host| < TWO_16
  {
    [0, 0] + lengths + [0] + Field16(host)
  }

  lemma NameFound(lengths: Bytes, host: Bytes, rest: Bytes)
    requires |lengths| == 4 && |host| < TWO_16 && ValidUtf8(host)
    ensures Walk(NameField(lengths, host) + rest) == Some(host)
  {
    var size := BigEndian(|host|);
    var head: Bytes := [0, 0, lengths[0], lengths[1], lengths[2], lengths[3], 0, size[0], size[1]];
    assert NameField(lengths, host) == head + host;
    NameAfterHead(head, host, rest);
  }

  lemma NameAfterHead(head: Bytes, host: Bytes, rest: Bytes)
    requires |head| == 9 && head[0] == head[1] == head[6] == 0
    requires |host| < TWO_16 && head[7] == BigEndian(|host|)[0] && head[8] == BigEndian(|host|)[1] && ValidUtf8(host)
    ensures Walk((head + host) + rest) == Some(host)
  {
    hide ValidUtf8, Utf8Step;
    var s := (head + host) + rest;
    assert forall i :: 0 <= i < 9 ==> s[i] == head[i];
    BigEndianInverts(|host|);
    SliceSlice(s, 4, |s|, 5, 5 + |host|);
    assert s[4..|s|] == s[4..];
    assert s[9..9 + |host|] == host;
  }

  lemma NameInverts(s: Bytes) returns (lengths: Bytes, host: Bytes, rest: Bytes)
    requires |s| >= 4 && s[0] == 0 && s[1] == 0 && NameIn(s[4..]).Some?
    ensures |lengths| == 4 && |host| < TWO_16 && ValidUtf8(host)
    ensures NameIn(s[4..]) == Some(host) && s == NameField(lengths, host) + rest
  {
    lengths := s[2..6];
    var length: nat := FromBigEndian(s[7], s[8]);
    assert s[4..][2] == s[6] && s[4..][3] == s[7] && s[4..][4] == s[8];
    host := s[9..9 + length];
    assert s[4..][5..5 + length] == host;
    rest := s[9 + length..];
    FromBigEndianInverts(s[7], s[8]);
    assert Field16(host) == [s[7], s[8]] + host;
  }

  lemma WalkPastExtension(e: Extension, rest: Bytes)
    requires |e.data| < TWO_16 && e.kind != 0
    ensures Walk(EncodeExtension(e) + rest) == Walk(rest)
  {
    var s := EncodeExtension(e) + rest;
    BigEndianInverts(e.kind);
    assert s[0] == BigEndian(e.kind)[0] && s[1] == BigEndian(e.kind)[1];
    assert s[2..] == Field16(e.data) + rest;
    Skip16Field(e.data, rest);
  }

  lemma ConcatAssoc(a: Bytes, b: Bytes, c: Bytes)
    ensures (a + b) + c == a + (b + c)
  {
  }

  lemma {:induction false} WalkPastExtensions(es: seq<Extension>, rest: Bytes)
    requires Encodable(es) && forall i :: 0 <= i < |es| ==> es[i].kind != 0
    ensures Walk(EncodeExtensions(es) + rest) == Walk(rest)
  {
    if es == [] {
      assert EncodeExtensions(es) + rest == rest;
    } else {
      WalkPastExtensions(es[1..], rest);
      WalkPastExtension(es[0], EncodeExtensions(es[1..]) + rest);
      ConcatAssoc(EncodeExtension(es[0]), EncodeExtensions(es[1..]), rest);
    }
  }

  lemma ExtensionInverts(s: Bytes) returns (e: Extension)
    requires |s| >= 4 && Skip16(s[2..]).Some?
    ensures |e.data| < TWO_16 && e.kind == FromBigEndian(s[0], s[1])
    ensures s == EncodeExtension(e) + Skip16(s[2..]).value
  {
    var data := Skip16Inverts(s[2..]);
    e := Extension(FromBigEndian(s[0], s[1]), data);
    FromBigEndianInverts(s[0], s[1]);
    assert s == [s[0], s[1]] + s[2..];
    ConcatAssoc(BigEndian(e.kind), Field16(data), Skip16(s[2..]).value);
  }

  lemma {:induction false} WalkInverts(s: Bytes) returns (before: seq<Extension>, rest: Bytes)
    requires Walk(s).Some?
    ensures Encodable(before) && forall i :: 0 <= i < |before| ==> before[i].kind != 0
    ensures s == EncodeExtensions(before) + rest
    ensures |rest| >= 4 && rest[0] == 0 && rest[1] == 0 && Walk(s) == NameIn(rest[4..])
  {
    if FromBigEndian(s[0], s[1]) == 0 {
      before, rest := [], s;
      assert EncodeExtensions(before) + rest == rest;
    } else {
      var e := ExtensionInverts(s);
      var es, r := WalkInverts(Skip16(s[2..]).value);
      before, rest := [e] + es, r;
      assert before[1..] == es;
      ConcatAssoc(EncodeExtension(e), EncodeExtensions(es), r);
    }
  }

  // Everything the parser looks at, and the bytes it passes over.
  datatype Frame = Frame(
    opening: Opening,
    declared: U16,
    before: seq<Extension>,
    lengths: Bytes,
    host: Bytes,
    rest: Bytes)

  ghost predicate WellFramed(f: Frame) {
    && WellOpened(f.opening)
    && Encodable(f.before) && (forall i :: 0 <= i < |f.before| ==> f.before[i].kind != 0)
    && |f.lengths| == 4
    && |f.host| < TWO_16 && ValidUtf8(f.host)
    && |Core(f.before, f.lengths, f.host)| <= f.declared
  }

  // The extensions up to and including the host name.
  ghost function Core(before: seq<Extension>, lengths: Bytes, host: Bytes): Bytes
    requires Encodable(before) && |host| < TWO_16
  {
    EncodeExtensions(before) + NameField(lengths, host)
  }

  ghost function FrameBytes(f: Frame): Bytes
    requires WellFramed(f)
  {
    Opened(f.opening, BigEndian(f.declared) + (Core(f.before, f.lengths, f.host) + f.rest))
  }

  lemma CoreFound(before: seq<Extension>, lengths: Bytes, host: Bytes, rest: Bytes)
    requires Encodable(before) && forall i :: 0 <= i < |before| ==> before[i].kind != 0
    requires |lengths| == 4 && |host| < TWO_16 && ValidUtf8(host)
    ensures Walk(Core(before, lengths, host) + rest) == Some(host)
  {
    NameFound(lengths, host, rest);
    WalkPastExtensions(before, NameField(lengths, host) + rest);
    ConcatAssoc(EncodeExtensions(before), NameField(lengths, host), rest);
  }

  lemma DeclaredThenBody(declared: U16, body: Bytes)
    ensures FromExtensions(BigEndian(declared) + body) == Walk(Window(declared, body))
  {
    var s := BigEndian(declared) + body;
    BigEndianInverts(declared);
    assert s[0] == BigEndian(declared)[0] && s[1] == BigEndian(declared)[1];
    assert s[2..] == body;
  }

  lemma WindowKeepsCore(declared: U16, core: Bytes, rest: Bytes) returns (seen: Bytes)
    requires |core| <= declared
    ensures Window(declared, core + rest) == core + seen
  {
    var w := Window(declared, core + rest);
    seen := w[|core|..];
    assert w[..|core|] == core;
    assert w == w[..|core|] + seen;
  }

  lemma FrameYieldsHost(f: Frame)
    requires WellFramed(f)
    ensures Sni(FrameBytes(f)) == Some(f.host)
  {
    var core := Core(f.before, f.lengths, f.host);
    OpenedSkips(f.opening, BigEndian(f.declared) + (core + f.rest));
    DeclaredThenBody(f.declared, core + f.rest);
    var seen := WindowKeepsCore(f.declared, core, f.rest);
    CoreFound(f.before, f.lengths, f.host, seen);
  }

  lemma WalkHasCore(s: Bytes) returns (before: seq<Extension>, lengths: Bytes, host: Bytes, rest: Bytes)
    requires Walk(s).Some?
    ensures Encodable(before) && forall i :: 0 <= i < |before| ==> before[i].kind != 0
    ensures |lengths| == 4 && |host| < TWO_16 && ValidUtf8(host)
    ensures Walk(s) == Some(host) && s == Core(before, lengths, host) + rest
  {
    var r;
    before, r := WalkInverts(s);
    lengths, host, rest := NameInverts(r);
    ConcatAssoc(EncodeExtensions(before), NameField(lengths, host), rest);
  }

  lemma WindowPrefix(declared: U16, body: Bytes, core: Bytes, seen: Bytes) returns (rest: Bytes)
    requires Window(declared, body) == core + seen
    ensures |core| <= declared && body == core + rest
  {
    var w := Window(declared, body);
    rest := body[|core|..];
    assert body[..|core|] == w[..|core|] == core;
    assert body == body[..|core|] + rest;
  }

  lemma HostHasFrame(buf: Bytes) returns (f: Frame)
    requires Sni(buf).Some?
    ensures WellFramed(f) && f.host == Sni(buf).value && FrameBytes(f) == buf
  {
    hide Opened, Core, Sni, WellOpened, Walk, Window;
    var o, s := SniIsOpened(buf);
    var declared, body := FromBigEndian(s[0], s[1]), s[2..];
    FromBigEndianInverts(s[0], s[1]);
    assert s == BigEndian(declared) + body;
    var before, lengths, host, seen := WalkHasCore(Window(declared, body));
    var rest := WindowPrefix(declared, body, Core(before, lengths, host), seen);
    f := Frame(o, declared, before, lengths, host, rest);
  }

  /** The parser accepts exactly the framed buffers, and yields exactly the framed name. */
  lemma SniExactly(buf: Bytes, host: Bytes)
    ensures Sni(buf) == Some(host) <==> exists f :: WellFramed(f) && f.host == host && FrameBytes(f) == buf
  {
    if Sni(buf) == Some(host) {
      var f := HostHasFrame(buf);
    }
    forall f | WellFramed(f) && f.host == host && FrameBytes(f) == buf ensures Sni(buf) == Some(host) {
      FrameYieldsHost(f);
    }
  }

  lemma OpenedAppend(o: Opening, rest: Bytes, more: Bytes)
    requires WellOpened(o)
    ensures Opened(o, rest) + more == Opened(o, rest + more)
  {
    var c := Field8(o.compression) + rest;
    var b := Field16(o.suites) + c;
    var a := Field8(o.session) + b;
    ConcatAssoc(o.header, a, more);
    ConcatAssoc(Field8(o.session), b, more);
    ConcatAssoc(Field16(o.suites), c, more);
    ConcatAssoc(Field8(o.compression), rest, more);
  }

  /** Once a name is found, more bytes never change it. */
  lemma SniIsPrefixStable(buf: Bytes, more: Bytes)
    requires Sni(buf).Some?
    ensures Sni(buf + more) == Sni(buf)
  {
    var f := HostHasFrame(buf);
    var g := f.(rest := f.rest + more);
    FrameYieldsHost(g);
    var core := Core(f.before, f.lengths, f.host);
    OpenedAppend(f.opening, BigEndian(f.declared) + (core + f.rest), more);
    ConcatAssoc(BigEndian(f.declared), core + f.rest, more);
    ConcatAssoc(core, f.rest, more);
  }

  /** So a truncated peek gives the name of the whole data, or none. */
  lemma TruncatedPeek(buf: Bytes, n: nat)
    requires n <= |buf|
    ensures Sni(buf[..n]) == None || Sni(buf[..n]) == Sni(buf)
  {
    hide Sni;
    if Sni(buf[..n]).Some? {
      SniIsPrefixStable(buf[..n], buf[n..]);
      assert buf == buf[..n] + buf[n..];
    }
  }
}
