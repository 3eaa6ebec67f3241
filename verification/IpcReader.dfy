/** The pipe, the buffered reader and the call that reads one message, as objects. */
module IpcReader {
  import opened WalletTypes
  import opened IpcFrames
  import opened Ipc

  class Pipe {
    var chunks: seq<Bytes>

    /** One read of at most `n` bytes; nothing at the end of the input. */
    method Read(n: nat) returns (got: Bytes)
      modifies this
      ensures (got, chunks) == ReadPipe(old(chunks), n)
    {
      if chunks == [] {
        return [];
      }
      var first := chunks[0];
      if |first| <= n {
        got, chunks := first, chunks[1..];
      } else {
        got, chunks := first[..n], [first[n..]] + chunks[1..];
      }
    }
  }

  class BufReader {
    const pipe: Pipe
    var buffered: Bytes

    constructor (pipe: Pipe)
      ensures this.pipe == pipe && buffered == []
    {
      this.pipe := pipe;
      buffered := [];
    }

    function State(): Source
      reads this, pipe
    {
      Source(buffered, pipe.chunks)
    }

    method Read(n: nat) returns (got: Bytes)
      modifies this, pipe
      ensures (got, State()) == ReadOnce(old(State()), n)
    {
      if buffered == [] {
        if n >= BUFFER_SIZE {
          got := pipe.Read(n);
          return;
        }
        buffered := pipe.Read(BUFFER_SIZE);
      }
      var k := if n < |buffered| then n else |buffered|;
      got, buffered := buffered[..k], buffered[k..];
    }

    /** Fills a slice of `n` bytes, or fails at the end of the input. */
    method ReadFull(n: nat) returns (data: Option<Bytes>)
      modifies this, pipe
      ensures (data, State()) == Ipc.ReadFull(old(State()), n)
    {
      hide ReadOnce, Ahead;
      var filled: Bytes := [];
      AheadNothing(Ipc.ReadFull(State(), n));
      while |filled| < n
        invariant |filled| <= n
        invariant Ipc.ReadFull(old(State()), n) == Ahead(filled, Ipc.ReadFull(State(), n - |filled|))
      {
        ghost var before := State();
        var got := Read(n - |filled|);
        if got == [] {
          AheadNone(filled, before, n - |filled|);
          return None;
        }
        filled := filled + got;
        AheadTwice(filled, got, before, State(), n);
      }
      AheadAll(filled, State());
      data := Some(filled);
    }
  }

  /** The outcome of a read of which some bytes had already come. */
  function Ahead(filled: Bytes, r: (Option<Bytes>, Source)): (Option<Bytes>, Source) {
    (if r.0.Some? then Some(filled + r.0.value) else None, r.1)
  }

  lemma AheadNothing(r: (Option<Bytes>, Source))
    ensures Ahead([], r) == r
  {
    assert r.0.Some? ==> [] + r.0.value == r.0.value;
  }

  lemma AheadNone(filled: Bytes, src: Source, n: nat)
    requires n > 0 && ReadOnce(src, n).0 == []
    ensures Ahead(filled, Ipc.ReadFull(src, n)) == (None, ReadOnce(src, n).1)
  {
  }

  lemma AheadAll(filled: Bytes, src: Source)
    ensures Ahead(filled, Ipc.ReadFull(src, 0)) == (Some(filled), src)
  {
    assert filled + [] == filled;
  }

  lemma AheadTwice(filled: Bytes, got: Bytes, before: Source, after: Source, n: nat)
    requires |got| <= |filled| <= n && got != [] && filled[|filled| - |got|..] == got
    requires ReadOnce(before, n - |filled| + |got|) == (got, after)
    ensures Ahead(filled[..|filled| - |got|], ReadFull(before, n - |filled| + |got|))
          == Ahead(filled, ReadFull(after, n - |filled|))
  {
    var init := filled[..|filled| - |got|];
    assert filled == init + got;
    var (more, _) := ReadFull(after, n - |filled|);
    if more.Some? {
      assert init + (got + more.value) == filled + more.value;
    }
  }

  /** Reads one message; the reader made for it, and what it has buffered, is dropped on return. */
  method NextIPCMessage(pipe: Pipe) returns (r: Result)
    modifies pipe
    ensures r == Next(old(pipe.chunks)).0 && pipe.chunks == Next(old(pipe.chunks)).1.chunks
  {
    var reader := new BufReader(pipe);
    var bProto := reader.ReadFull(1);
    if bProto == None {
      return Err(NoProtocol);
    }
    var gotProtoVersion := bProto.value[0];
    if gotProtoVersion != PROTOCOL_VERSION {
      return Err(VersionMismatch(gotProtoVersion));
    }
    var bLenType := reader.ReadFull(1);
    if bLenType == None {
      return Err(NoTypeLength);
    }
    var typ := reader.ReadFull(bLenType.value[0]);
    if typ == None {
      return Err(NoType);
    }
    var bLenPay := reader.ReadFull(4);
    if bLenPay == None {
      return Err(NoPayloadLength);
    }
    var payload := reader.ReadFull(Uint32(bLenPay.value));
    if payload == None {
      return Err(NoPayload);
    }
    r := Result.Ok(Decode(typ.value, payload.value));
  }
}
