/** A byte stream to a peer: what it will still deliver before it ends, and what it has been sent. */
module Sockets {
  import opened Bytes
  import opened Wrappers

  class Socket {
    var incoming: seq<byte>
    var sent: seq<byte>

    constructor (stream: seq<byte>)
      ensures incoming == stream && sent == []
    {
      incoming, sent := stream, [];
    }

    /** One read: any non-empty prefix that fits the buffer, or nothing at the end of the stream. */
    method Read(capacity: nat) returns (chunk: seq<byte>)
      modifies this`incoming
      ensures chunk + incoming == old(incoming)
      ensures |chunk| <= capacity
      ensures chunk == [] <==> capacity == 0 || old(incoming) == []
    {
      var most := Min(capacity, |incoming|);
      var n: nat :| n <= most && (n == 0 <==> most == 0);
      chunk := incoming[..n];
      incoming := incoming[n..];
    }

    /** Reads until the buffer is full; fails when the stream ends first. */
    method ReadExact(count: nat) returns (buffer: Option<seq<byte>>)
      modifies this`incoming
      ensures |old(incoming)| >= count ==> buffer == Some(old(incoming)[..count]) && incoming == old(incoming)[count..]
      ensures |old(incoming)| < count ==> buffer == None && incoming == []
    {
      var filled: seq<byte> := [];
      while |filled| < count
        invariant filled + incoming == old(incoming) && |filled| <= count
        decreases count - |filled|
      {
        var chunk := Read(count - |filled|);
        if chunk == [] {
          return None;
        }
        assert filled + (chunk + incoming) == (filled + chunk) + incoming;
        filled := filled + chunk;
      }
      return Some(filled);
    }

    method WriteAll(data: seq<byte>)
      modifies this`sent
      ensures sent == old(sent) + data
    {
      sent := sent + data;
    }
  }
}
