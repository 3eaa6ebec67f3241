/** Reading frames from a pipe through a buffered reader made anew for every message. */
module Ipc {
  import opened WalletTypes
  import opened IpcFrames

  const BUFFER_SIZE := 4096

  /** What the pipe still holds, as the chunks its reads will return at most one of at a time, and the
      bytes the buffered reader has taken but not yet passed on. */
  datatype Source = Source(buffered: Bytes, chunks: seq<Bytes>)

  function Flat(chunks: seq<Bytes>): Bytes {
    if chunks == [] then [] else chunks[0] + Flat(chunks[1..])
  }

  /** A read that does not fail returns something. */
  predicate NonEmpty(chunks: seq<Bytes>) {
    forall i :: 0 <= i < |chunks| ==> chunks[i] != []
  }

  function All(src: Source): Bytes {
    src.buffered + Flat(src.chunks)
  }

  // ----- reading -----

  function Min(a: nat, b: nat): nat {
    if a < b then a else b
  }

  /** One read of the pipe into `n` bytes: part of the next chunk, or nothing at the end. */
  function ReadPipe(chunks: seq<Bytes>, n: nat): (r: (Bytes, seq<Bytes>))
    ensures |r.0| <= n
  {
    if chunks == [] then ([], [])
    else if |chunks[0]| <= n then (chunks[0], chunks[1..])
    else (chunks[0][..n], [chunks[0][n..]] + chunks[1..])
  }

  /** One read of the buffered reader: from its buffer if that holds anything, else straight from the
      pipe if the request is at least as large as the buffer, else by filling the buffer once. */
  function ReadOnce(src: Source, n: nat): (r: (Bytes, Source))
    ensures |r.0| <= n
  {
    if src.buffered != [] then
      var k := Min(n, |src.buffered|);
      (src.buffered[..k], src.(buffered := src.buffered[k..]))
    else if n >= BUFFER_SIZE then
      var (got, chunks) := ReadPipe(src.chunks, n);
      (got, Source([], chunks))
    else
      var (got, chunks) := ReadPipe(src.chunks, BUFFER_SIZE);
      var k := Min(n, |got|);
      (got[..k], Source(got[k..], chunks))
  }

  /** Reads until `n` bytes have come, or fails at the end of the input. */
  function ReadFull(src: Source, n: nat): (r: (Option<Bytes>, Source))
    ensures r.0.Some? ==> |r.0.value| == n
    decreases n
  {
    if n == 0 then (Some([]), src)
    else
      var (got, src1) := ReadOnce(src, n);
      if got == [] then (None, src1)
      else
        var (more, src2) := ReadFull(src1, n - |got|);
        (if more.Some? then Some(got + more.value) else None, src2)
  }

  function FailWith(error: ReadError, src: Source): (Result, Source) {
    (Err(error), src)
  }

  function NextPayload(typ: Bytes, src: Source): (Result, Source) {
    var (len, src1) := ReadFull(src, 4);
    if len.None? then FailWith(NoPayloadLength, src1)
    else
      var (payload, src2) := ReadFull(src1, Uint32(len.value));
      if payload.None? then FailWith(NoPayload, src2) else (Ok(Decode(typ, payload.value)), src2)
  }

  function NextType(src: Source): (Result, Source) {
    var (len, src1) := ReadFull(src, 1);
    if len.None? then FailWith(NoTypeLength, src1)
    else
      var (typ, src2) := ReadFull(src1, len.value[0]);
      if typ.None? then FailWith(NoType, src2) else NextPayload(typ.value, src2)
  }

  /** One call: what it returns, and the pipe and the buffer it leaves behind. The buffer is dropped. */
  function Next(chunks: seq<Bytes>): (Result, Source) {
    var (proto, src) := ReadFull(Source([], chunks), 1);
    if proto.None? then FailWith(NoProtocol, src)
    else if proto.value[0] != PROTOCOL_VERSION then FailWith(VersionMismatch(proto.value[0]), src)
    else NextType(src)
  }

  // ----- what reading delivers -----

  lemma FlatCons(first: Bytes, rest: seq<Bytes>)
    ensures Flat([first] + rest) == first + Flat(rest)
  {
    assert ([first] + rest)[1..] == rest;
  }

  lemma FlatEmpty(chunks: seq<Bytes>)
    requires NonEmpty(chunks)
    ensures chunks == [] <==> Flat(chunks) == []
  {
  }

  lemma CutChunk(first: Bytes, rest: seq<Bytes>, n: nat)
    requires n < |first|
    ensures first[..n] + Flat([first[n..]] + rest) == first + Flat(rest)
  {
    hide Flat;
    FlatCons(first[n..], rest);
    assert first == first[..n] + first[n..];
    assert first[..n] + (first[n..] + Flat(rest)) == first + Flat(rest);
  }

  lemma ReadPipeDelivers(chunks: seq<Bytes>, n: nat)
    requires NonEmpty(chunks) && n > 0
    ensures var (got, chunks1) := ReadPipe(chunks, n);
            && NonEmpty(chunks1) && got + Flat(chunks1) == Flat(chunks) && (got == [] <==> Flat(chunks) == [])
  {
    hide Flat;
    FlatEmpty(chunks);
    if chunks != [] {
      var first, rest := chunks[0], chunks[1..];
      assert chunks == [first] + rest;
      FlatCons(first, rest);
      if |first| > n {
        CutChunk(first, rest, n);
      }
    }
  }

  lemma ReadOnceDelivers(src: Source, n: nat)
    requires NonEmpty(src.chunks) && n > 0
    ensures var (got, src1) := ReadOnce(src, n);
            && NonEmpty(src1.chunks)
            && got + All(src1) == All(src)
            && (got == [] ==> All(src) == [])
  {
    hide Flat, ReadPipe;
    if src.buffered != [] {
      var k := Min(n, |src.buffered|);
      assert src.buffered == src.buffered[..k] + src.buffered[k..];
    } else {
      var size := if n >= BUFFER_SIZE then n else BUFFER_SIZE;
      ReadPipeDelivers(src.chunks, size);
      var (got, chunks) := ReadPipe(src.chunks, size);
      var k := Min(n, |got|);
      assert got == got[..k] + got[k..];
    }
  }

  /** However the input is cut into chunks, a full read delivers its next bytes and nothing else, and
      fails only if there are not enough. */
  lemma {:induction false} ReadFullDelivers(src: Source, n: nat)
    requires NonEmpty(src.chunks)
    ensures var (got, src2) := ReadFull(src, n);
            && NonEmpty(src2.chunks)
            && (got.Some? <==> n <= |All(src)|)
            && (got.Some? ==> |got.value| == n && got.value + All(src2) == All(src))
    decreases n
  {
    hide All, ReadOnce, NonEmpty;
    if n > 0 {
      ReadOnceDelivers(src, n);
      var (got, src1) := ReadOnce(src, n);
      if got != [] {
        ReadFullDelivers(src1, n - |got|);
        var (more, src2) := ReadFull(src1, n - |got|);
        if more.Some? {
          assert got + more.value + All(src2) == got + (more.value + All(src2));
        }
      }
    }
  }

  lemma NextPayloadIsParse(s: Bytes, typ: Bytes, src: Source)
    requires NonEmpty(src.chunks) && |s| >= 2 + |typ| && s[0] == PROTOCOL_VERSION && s[1] == |typ|
    requires s[2..2 + |typ|] == typ && All(src) == s[2 + |typ|..]
    ensures NextPayload(typ, src).0 == Parse(s).0 && NonEmpty(NextPayload(typ, src).1.chunks)
    ensures Parse(s).0.Ok? ==> Parse(s).1 <= |s| && All(NextPayload(typ, src).1) == s[Parse(s).1..]
  {
    hide Flat, ReadFull, All, Decode, Uint32;
    var t := |typ|;
    ReadFullDelivers(src, 4);
    var (len, src1) := ReadFull(src, 4);
    if len.Some? {
      assert len.value == s[2 + t..6 + t] && All(src1) == s[6 + t..];
      ReadFullDelivers(src1, Uint32(len.value));
      var (payload, src2) := ReadFull(src1, Uint32(len.value));
      if payload.Some? {
        assert payload.value == s[6 + t..][..|payload.value|] == s[6 + t..6 + t + |payload.value|];
      }
    }
  }

  /** One call returns what decoding all the bytes of the pipe gives, however they are cut into chunks;
      after a success the frame read is followed by the bytes left in the buffer and in the pipe. */
  lemma NextIsParse(chunks: seq<Bytes>)
    requires NonEmpty(chunks)
    ensures Next(chunks).0 == Parse(Flat(chunks)).0 && NonEmpty(Next(chunks).1.chunks)
    ensures Next(chunks).0.Ok? ==>
              var used := Parse(Flat(chunks)).1;
              used <= |Flat(chunks)| && All(Next(chunks).1) == Flat(chunks)[used..]
  {
    hide Flat, ReadFull, All, NextPayload, Decode, Uint32;
    var s := Flat(chunks);
    var src := Source([], chunks);
    WholeInput(chunks);
    ReadFullDelivers(src, 1);
    var (proto, src1) := ReadFull(src, 1);
    if proto.Some? {
      assert proto.value == s[..1] && All(src1) == s[1..];
      ReadFullDelivers(src1, 1);
      var (len, src2) := ReadFull(src1, 1);
      if len.Some? && s[0] == PROTOCOL_VERSION {
        assert len.value == s[1..2] && All(src2) == s[2..];
        var t := len.value[0];
        ReadFullDelivers(src2, t);
        var (typ, src3) := ReadFull(src2, t);
        if typ.Some? {
          assert typ.value == s[2..2 + t] && All(src3) == s[2 + t..];
          NextPayloadIsParse(s, typ.value, src3);
        }
      }
    }
  }

  lemma WholeInput(chunks: seq<Bytes>)
    ensures All(Source([], chunks)) == Flat(chunks)
  {
  }

  // ----- what reading leaves alone -----

  function With(src: Source, later: seq<Bytes>): Source {
    src.(chunks := src.chunks + later)
  }

  lemma ReadPipeLocal(chunks: seq<Bytes>, n: nat, later: seq<Bytes>)
    requires chunks != []
    ensures ReadPipe(chunks + later, n) == (ReadPipe(chunks, n).0, ReadPipe(chunks, n).1 + later)
  {
    assert (chunks + later)[1..] == chunks[1..] + later;
    assert [chunks[0][Min(n, |chunks[0]|)..]] + (chunks[1..] + later)
          == [chunks[0][Min(n, |chunks[0]|)..]] + chunks[1..] + later;
  }

  lemma ReadOnceLocal(src: Source, n: nat, later: seq<Bytes>)
    requires All(src) != []
    ensures ReadOnce(With(src, later), n) == (ReadOnce(src, n).0, With(ReadOnce(src, n).1, later))
  {
    hide ReadPipe;
    if src.buffered == [] {
      assert src.chunks != [];
      ReadPipeLocal(src.chunks, n, later);
      ReadPipeLocal(src.chunks, BUFFER_SIZE, later);
    }
  }

  /** A read that the first chunks can meet does not touch the others. */
  lemma {:induction false} ReadFullLocal(src: Source, n: nat, later: seq<Bytes>)
    requires NonEmpty(src.chunks) && n <= |All(src)|
    ensures ReadFull(With(src, later), n) == (ReadFull(src, n).0, With(ReadFull(src, n).1, later))
    decreases n
  {
    hide All, ReadOnce, NonEmpty, With;
    if n > 0 {
      ReadOnceLocal(src, n, later);
      ReadOnceDelivers(src, n);
      var (got, src1) := ReadOnce(src, n);
      if got != [] {
        ReadFullLocal(src1, n - |got|, later);
      }
    }
  }

  lemma NextPayloadLocal(typ: Bytes, src: Source, later: seq<Bytes>)
    requires NonEmpty(src.chunks) && NextPayload(typ, src).0.Ok?
    ensures NextPayload(typ, With(src, later)) == (NextPayload(typ, src).0, With(NextPayload(typ, src).1, later))
  {
    hide All, ReadFull, NonEmpty, With, Uint32, Decode;
    ReadFullDelivers(src, 4);
    ReadFullLocal(src, 4, later);
    var (len, src1) := ReadFull(src, 4);
    ReadFullDelivers(src1, Uint32(len.value));
    ReadFullLocal(src1, Uint32(len.value), later);
  }

  /** A call that succeeds on the first chunks alone does the same when others follow, and leaves them. */
  lemma NextLocal(chunks: seq<Bytes>, later: seq<Bytes>)
    requires NonEmpty(chunks) && Next(chunks).0.Ok?
    ensures Next(chunks + later) == (Next(chunks).0, With(Next(chunks).1, later))
  {
    hide All, ReadFull, NonEmpty, NextPayload;
    var src := Source([], chunks);
    assert With(src, later) == Source([], chunks + later);
    ReadFullDelivers(src, 1);
    ReadFullLocal(src, 1, later);
    var (_, src1) := ReadFull(src, 1);
    ReadFullDelivers(src1, 1);
    ReadFullLocal(src1, 1, later);
    var (len, src2) := ReadFull(src1, 1);
    ReadFullDelivers(src2, len.value[0]);
    ReadFullLocal(src2, len.value[0], later);
    var (typ, src3) := ReadFull(src2, len.value[0]);
    NextPayloadLocal(typ.value, src3, later);
  }

  // ----- streams of messages -----

  datatype Frame = Frame(typ: Bytes, payload: Bytes) {
    predicate Fits() {
      Encodable(typ, payload)
    }

    function Bytes(): Bytes
      requires Fits()
    {
      Encode(typ, payload)
    }

    function Says(): Result {
      Result.Ok(Decode(typ, payload))
    }
  }

  predicate AllFit(frames: seq<Frame>) {
    forall i :: 0 <= i < |frames| ==> frames[i].Fits()
  }

  function EncodeAll(frames: seq<Frame>): Bytes
    requires AllFit(frames)
  {
    if frames == [] then [] else frames[0].Bytes() + EncodeAll(frames[1..])
  }

  /** What is left of the pipe after `k` calls. */
  function After(chunks: seq<Bytes>, k: nat): seq<Bytes> {
    if k == 0 then chunks else Next(After(chunks, k - 1)).1.chunks
  }

  function Call(chunks: seq<Bytes>, k: nat): Result {
    Next(After(chunks, k)).0
  }

  /** What call `k` read from the pipe and threw away with its buffer. */
  function Lost(chunks: seq<Bytes>, k: nat): Bytes {
    Next(After(chunks, k)).1.buffered
  }

  /** A call at the start of a frame returns its message; what follows in the pipe is the rest of the
      stream without what the call lost, so the next call starts at the next frame exactly if it lost
      nothing. */
  lemma CallReadsFrame(chunks: seq<Bytes>, f: Frame, rest: Bytes)
    requires NonEmpty(chunks) && f.Fits() && Flat(chunks) == f.Bytes() + rest
    ensures var (r, src) := Next(chunks);
            && r == f.Says() && NonEmpty(src.chunks)
            && src.buffered + Flat(src.chunks) == rest
            && (Flat(src.chunks) == rest <==> src.buffered == [])
  {
    NextIsParse(chunks);
    ParseEncode(f.typ, f.payload, rest);
    assert Flat(chunks)[|f.Bytes()|..] == rest;
  }

  /** As long as no call reads past its frame, the calls return the messages encoded, in order, and the
      pipe then holds the frames not yet read. */
  lemma {:induction false} StreamIfNothingLost(chunks: seq<Bytes>, frames: seq<Frame>, k: nat)
    requires NonEmpty(chunks) && AllFit(frames) && Flat(chunks) == EncodeAll(frames) && k <= |frames|
    requires forall i :: 0 <= i < k ==> Lost(chunks, i) == []
    ensures NonEmpty(After(chunks, k)) && Flat(After(chunks, k)) == EncodeAll(frames[k..])
    ensures forall i :: 0 <= i < k ==> Call(chunks, i) == frames[i].Says()
  {
    hide Next, Encode, Decode, Flat, NonEmpty;
    if k == 0 {
      assert frames[0..] == frames;
    } else {
      StreamIfNothingLost(chunks, frames, k - 1);
      var left := frames[k - 1..];
      assert left[1..] == frames[k..] && left[0] == frames[k - 1];
      CallReadsFrame(After(chunks, k - 1), frames[k - 1], EncodeAll(frames[k..]));
      assert Lost(chunks, k - 1) == [];
    }
  }

  function Concat(groups: seq<seq<Bytes>>): seq<Bytes> {
    if groups == [] then [] else groups[0] + Concat(groups[1..])
  }

  /** The chunks are grouped so that each group is one frame: no chunk runs past the end of its
      frame, so no read can either. */
  predicate Aligned(groups: seq<seq<Bytes>>, frames: seq<Frame>) {
    && AllFit(frames) && |groups| == |frames|
    && (forall i :: 0 <= i < |groups| ==> NonEmpty(groups[i]) && Flat(groups[i]) == frames[i].Bytes())
  }

  lemma GroupReadWhole(group: seq<Bytes>, f: Frame, later: seq<Bytes>)
    requires NonEmpty(group) && f.Fits() && Flat(group) == f.Bytes()
    ensures Next(group + later) == (f.Says(), Source([], later))
  {
    assert f.Bytes() + [] == f.Bytes();
    CallReadsFrame(group, f, []);
    NextLocal(group, later);
    FlatEmpty(Next(group).1.chunks);
    assert [] + later == later;
  }

  lemma EmptyPipe()
    ensures Next([]).0 == Err(NoProtocol)
  {
    NextIsParse([]);
  }

  /** If no chunk runs past the end of a frame, repeated calls return exactly the messages encoded, in
      order, and the next call reports the end of the input. */
  lemma {:induction false} AlignedStream(groups: seq<seq<Bytes>>, frames: seq<Frame>, k: nat)
    requires Aligned(groups, frames) && k <= |frames|
    ensures After(Concat(groups), k) == Concat(groups[k..])
    ensures forall i :: 0 <= i < k ==> Call(Concat(groups), i) == frames[i].Says()
    ensures k == |frames| ==> Call(Concat(groups), k) == Err(NoProtocol)
  {
    hide Encode, Decode, Next, Flat, NonEmpty;
    if k == 0 {
      assert groups[0..] == groups;
    } else {
      AlignedStream(groups, frames, k - 1);
      var left := groups[k - 1..];
      assert left[1..] == groups[k..] && left[0] == groups[k - 1];
      GroupReadWhole(groups[k - 1], frames[k - 1], Concat(groups[k..]));
    }
    EmptyPipe();
  }

  /** The condition is needed: a frame that arrives in one small chunk with what follows it swallows all
      of that chunk, and if that was all, the next call finds the pipe at its end. */
  lemma FollowersAreLost(f: Frame, rest: Bytes)
    requires f.Fits() && rest != [] && |f.Bytes() + rest| <= 4096
    ensures var chunks := [f.Bytes() + rest];
            Call(chunks, 0) == f.Says() && Lost(chunks, 0) == rest && Call(chunks, 1) == Err(NoProtocol)
  {
    var chunks := [f.Bytes() + rest];
    FlatCons(f.Bytes() + rest, []);
    CallReadsFrame(chunks, f, rest);
    StaysDry(ReadOnce(Source([], chunks), 1).1, 0);
    NextStaysDry(chunks);
    NextIsParse([]);
  }

  lemma {:induction false} StaysDry(src: Source, n: nat)
    requires src.chunks == []
    ensures ReadFull(src, n).1.chunks == []
    decreases n
  {
    if n > 0 && ReadOnce(src, n).0 != [] {
      StaysDry(ReadOnce(src, n).1, n - |ReadOnce(src, n).0|);
    }
  }

  lemma NextStaysDry(chunks: seq<Bytes>)
    requires ReadFull(Source([], chunks), 1).1.chunks == []
    ensures Next(chunks).1.chunks == []
  {
    hide ReadFull, Uint32;
    var src1 := ReadFull(Source([], chunks), 1).1;
    StaysDry(src1, 1);
    var (len, src2) := ReadFull(src1, 1);
    if len.Some? {
      StaysDry(src2, len.value[0]);
      var src3 := ReadFull(src2, len.value[0]).1;
      StaysDry(src3, 4);
      var (size, src4) := ReadFull(src3, 4);
      if size.Some? {
        StaysDry(src4, Uint32(size.value));
      }
    }
  }
}
