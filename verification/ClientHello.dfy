/**
 ClientHello messages as section 4.1.2 of RFC 8446 lays them out, with server_name extensions as in
 section 3 of RFC 6066, in one TLS record; and the round trip through the parser.
 */
module ClientHello {
  import opened Words
  import opened Wrappers
  import opened Sniff

  // Name type 0 is host_name.
  datatype NameEntry = NameEntry(kind: Byte, name: Bytes)

  datatype HelloExtension = ServerNames(names: seq<NameEntry>) | Other(kind: U16, data: Bytes)

  datatype Hello = Hello(
    recordVersion: U16,
    version: U16,
    random: Bytes,
    session: Bytes,
    suites: Bytes,
    compression: Bytes,
    extensions: seq<HelloExtension>)

  ghost predicate NamesFit(names: seq<NameEntry>) {
    forall i :: 0 <= i < |names| ==> |names[i].name| < TWO_16
  }

  function EncodeNames(names: seq<NameEntry>): Bytes
    requires NamesFit(names)
  {
    if names == [] then [] else [names[0].kind] + Field16(names[0].name) + EncodeNames(names[1..])
  }

  ghost predicate ExtensionFits(e: HelloExtension) {
    match e
    case Other(kind, data) => kind != 0 && |data| < TWO_16
    case ServerNames(names) => names != [] && NamesFit(names) && |EncodeNames(names)| + 2 < TWO_16
  }

  ghost function ToExtension(e: HelloExtension): (x: Extension)
    requires ExtensionFits(e)
    ensures |x.data| < TWO_16
  {
    match e
    case Other(kind, data) => Extension(kind, data)
    case ServerNames(names) => Extension(0, Field16(EncodeNames(names)))
  }

  ghost function ToExtensions(es: seq<HelloExtension>): (xs: seq<Extension>)
    requires forall i :: 0 <= i < |es| ==> ExtensionFits(es[i])
    ensures |xs| == |es| && Encodable(xs)
  {
    if es == [] then [] else [ToExtension(es[0])] + ToExtensions(es[1..])
  }

  ghost predicate WellFormed(h: Hello) {
    && |h.random| == 32
    && |h.session| < 256 && |h.suites| < TWO_16 && |h.compression| < 256
    && (forall i :: 0 <= i < |h.extensions| ==> ExtensionFits(h.extensions[i]))
    && |EncodeExtensions(ToExtensions(h.extensions))| < TWO_16
    && |Message(h)| + 4 < TWO_16
  }

  ghost function Message(h: Hello): Bytes
    requires |h.session| < 256 && |h.suites| < TWO_16 && |h.compression| < 256
    requires forall i :: 0 <= i < |h.extensions| ==> ExtensionFits(h.extensions[i])
    requires |EncodeExtensions(ToExtensions(h.extensions))| < TWO_16
  {
    BigEndian(h.version) + h.random + Field8(h.session) + Field16(h.suites) + Field8(h.compression)
    + Field16(EncodeExtensions(ToExtensions(h.extensions)))
  }

  // The record header and the handshake header, both with true lengths.
  ghost function Headers(h: Hello): Bytes
    requires WellFormed(h)
  {
    [0x16] + BigEndian(h.recordVersion) + BigEndian(|Message(h)| + 4) + [0x01] + [0] + BigEndian(|Message(h)|)
  }

  ghost function Encode(h: Hello): Bytes
    requires WellFormed(h)
  {
    Headers(h) + Message(h)
  }

  // The first server_name extension decides; its first entry is the answer if it is a host name in UTF-8.
  function Expected(es: seq<HelloExtension>): Option<Bytes> {
    if es == [] then None
    else
      match es[0]
      case Other(_, _) => Expected(es[1..])
      case ServerNames(names) =>
        if names != [] && names[0].kind == 0 && ValidUtf8(names[0].name) then Some(names[0].name) else None
  }

  lemma NameInHead(head: Bytes, name: Bytes, rest: Bytes)
    requires |head| == 5 && |name| < TWO_16
    requires head[3] == BigEndian(|name|)[0] && head[4] == BigEndian(|name|)[1]
    ensures NameIn((head + name) + rest) == if head[2] == 0 && ValidUtf8(name) then Some(name) else None
  {
    hide ValidUtf8;
    var s := (head + name) + rest;
    assert forall i :: 0 <= i < 5 ==> s[i] == head[i];
    BigEndianInverts(|name|);
    assert s[5..5 + |name|] == name;
  }

  lemma ServerNamesWalk(names: seq<NameEntry>, rest: Bytes)
    requires ExtensionFits(ServerNames(names))
    ensures Walk(EncodeExtension(ToExtension(ServerNames(names))) + rest) ==
      if names[0].kind == 0 && ValidUtf8(names[0].name) then Some(names[0].name) else None
  {
    hide ValidUtf8;
    var list, name := EncodeNames(names), names[0].name;
    var data := Field16(list);
    var s := EncodeExtension(ToExtension(ServerNames(names))) + rest;
    assert s[0] == 0 && s[1] == 0;
    assert s[4..] == data + rest;
    var size := BigEndian(|list|);
    var head: Bytes := [size[0], size[1], names[0].kind, BigEndian(|name|)[0], BigEndian(|name|)[1]];
    var others := EncodeNames(names[1..]);
    assert data == (head + name) + others;
    ConcatAssoc(head + name, others, rest);
    NameInHead(head, name, others + rest);
  }

  lemma {:induction false} ExtensionsWalk(es: seq<HelloExtension>)
    requires forall i :: 0 <= i < |es| ==> ExtensionFits(es[i])
    ensures Walk(EncodeExtensions(ToExtensions(es))) == Expected(es)
  {
    if es == [] {
    } else {
      var xs := ToExtensions(es);
      assert xs[1..] == ToExtensions(es[1..]);
      match es[0]
      case Other(_, _) =>
        ExtensionsWalk(es[1..]);
        WalkPastExtension(xs[0], EncodeExtensions(xs[1..]));
      case ServerNames(names) =>
        ServerNamesWalk(names, EncodeExtensions(xs[1..]));
    }
  }

  // What precedes the extensions' length field, as the parser sees it.
  ghost function OpeningOf(h: Hello): Opening
    requires WellFormed(h)
  {
    Opening(Headers(h) + BigEndian(h.version) + h.random, h.session, h.suites, h.compression)
  }

  lemma EncodeIsOpened(h: Hello, tail: Bytes)
    requires WellFormed(h)
    ensures var list := EncodeExtensions(ToExtensions(h.extensions));
      && WellOpened(OpeningOf(h))
      && Encode(h) + tail == Opened(OpeningOf(h), BigEndian(|list|) + (list + tail))
  {
    var list := EncodeExtensions(ToExtensions(h.extensions));
    Reassociate(Headers(h), BigEndian(h.version), h.random, Field8(h.session), Field16(h.suites),
                Field8(h.compression), BigEndian(|list|), list, tail);
  }

  lemma Reassociate(a: Bytes, b: Bytes, c: Bytes, d: Bytes, e: Bytes, f: Bytes, g: Bytes, h: Bytes, t: Bytes)
    ensures (a + (b + c + d + e + f + (g + h))) + t == (a + b + c) + (d + (e + (f + (g + (h + t)))))
  {
  }

  /**
   Round trip: for every well-formed ClientHello, whatever its session id, suites, compression list
   and extensions and whatever bytes follow, the parser yields the name of its first server_name
   extension, and nothing when it has none.
   */
  lemma SniRoundTrip(h: Hello, tail: Bytes)
    requires WellFormed(h)
    ensures Sni(Encode(h) + tail) == Expected(h.extensions)
  {
    var list := EncodeExtensions(ToExtensions(h.extensions));
    EncodeIsOpened(h, tail);
    OpenedSkips(OpeningOf(h), BigEndian(|list|) + (list + tail));
    DeclaredThenBody(|list|, list + tail);
    assert Window(|list|, list + tail) == list;
    ExtensionsWalk(h.extensions);
  }

  lemma {:induction false} NoServerNameExpectsNone(es: seq<HelloExtension>)
    requires forall i :: 0 <= i < |es| ==> es[i].Other?
    ensures Expected(es) == None
  {
    if es == [] {
    } else {
      NoServerNameExpectsNone(es[1..]);
    }
  }

  lemma {:induction false} FirstServerNameExpected(before: seq<HelloExtension>, host: Bytes, after: seq<HelloExtension>)
    requires forall i :: 0 <= i < |before| ==> before[i].Other?
    requires ValidUtf8(host)
    ensures Expected(before + [ServerNames([NameEntry(0, host)])] + after) == Some(host)
  {
    hide ValidUtf8;
    var es := before + [ServerNames([NameEntry(0, host)])] + after;
    if before == [] {
    } else {
      FirstServerNameExpected(before[1..], host, after);
      assert es[1..] == before[1..] + [ServerNames([NameEntry(0, host)])] + after;
    }
  }

  /** The usual case, for any prefix of the bytes that reaches the parser: the encoded host name, or nothing. */
  lemma HostRoundTrip(h: Hello, before: seq<HelloExtension>, host: Bytes, after: seq<HelloExtension>,
                      tail: Bytes, n: nat)
    requires WellFormed(h) && h.extensions == before + [ServerNames([NameEntry(0, host)])] + after
    requires forall i :: 0 <= i < |before| ==> before[i].Other?
    requires forall i :: 0 <= i < |host| ==> host[i] < 0x80
    requires n <= |Encode(h) + tail|
    ensures Sni(Encode(h) + tail) == Some(host)
    ensures Sni((Encode(h) + tail)[..n]) in {None, Some(host)}
  {
    AsciiIsValid(host);
    FirstServerNameExpected(before, host, after);
    SniRoundTrip(h, tail);
    TruncatedPeek(Encode(h) + tail, n);
  }
}
