/** The TCP stream to an upstream proxy, with the server's bytes still to come and the bytes written to it. */
module Streams {
  import opened Words
  import opened Wrappers

  // How the server's byte stream ends.
  datatype Ending = Closed | Broken

  class ServerStream {
    var incoming: Bytes
    const ending: Ending
    var accepts: nat
    var sent: Bytes

    // `accepts` is how many writes the peer takes before one fails.
    constructor (incoming: Bytes, ending: Ending, accepts: nat)
      ensures this.incoming == incoming && this.ending == ending && this.accepts == accepts && sent == []
    {
      this.incoming, this.ending, this.accepts, sent := incoming, ending, accepts, [];
    }

    // A write that fails may still have sent the beginning.
    method WriteAll(bytes: Bytes) returns (ok: bool)
      modifies this`sent, this`accepts
      ensures ok == (old(accepts) > 0)
      ensures accepts == if ok then old(accepts) - 1 else 0
      ensures ok ==> sent == old(sent) + bytes
      ensures !ok ==> IsPartOf(bytes, old(sent), sent)
    {
      ok := accepts > 0;
      if ok {
        sent, accepts := sent + bytes, accepts - 1;
      } else {
        var n: nat :| n <= |bytes|;
        assert sent + bytes[..n] == old(sent) + bytes[..n];
        sent := sent + bytes[..n];
      }
    }

    // One read into a buffer with room for `space` bytes. The network delivers at most `arrived` of
    // them, and at least one while there are any. None is an I/O error, [] the end of the stream.
    method Read(space: nat, arrived: nat) returns (chunk: Option<Bytes>)
      requires space > 0
      modifies this`incoming
      ensures old(incoming) == [] ==> chunk == (if ending == Closed then Some([]) else None) && incoming == []
      ensures old(incoming) != [] ==>
        var n := ReadSize(|old(incoming)|, space, arrived);
        chunk == Some(old(incoming)[..n]) && incoming == old(incoming)[n..]
    {
      if incoming == [] {
        chunk := if ending == Closed then Some([]) else None;
      } else {
        var n := ReadSize(|incoming|, space, arrived);
        chunk := Some(incoming[..n]);
        incoming := incoming[n..];
      }
    }

    // None when the stream ends first.
    method ReadExact(n: nat) returns (bytes: Option<Bytes>)
      modifies this`incoming
      ensures n <= |old(incoming)| ==> bytes == Some(old(incoming)[..n]) && incoming == old(incoming)[n..]
      ensures n > |old(incoming)| ==> bytes == None && incoming == []
    {
      if n <= |incoming| {
        bytes := Some(incoming[..n]);
        incoming := incoming[n..];
      } else {
        bytes := None;
        incoming := [];
      }
    }
  }

  // Some beginning of the bytes has been added.
  ghost predicate IsPartOf(bytes: Bytes, before: Bytes, after: Bytes) {
    exists n :: 0 <= n <= |bytes| && after == before + bytes[..n]
  }

  function ReadSize(available: nat, space: nat, arrived: nat): (n: nat)
    requires available > 0 && space > 0
    ensures 0 < n <= available && n <= space
  {
    var most := if available < space then available else space;
    if arrived < 1 then 1 else if arrived > most then most else arrived
  }
}
