/** When repeated calls read a stream of messages: exactly when the reads of the pipe stop at the ends of
    the frames, which the sizes of the chunks and of the frames decide. */
module IpcStreams {
  import opened WalletTypes
  import opened IpcFrames
  import opened Ipc

  // ----- where the pipe's reads stop -----

  /** The chunks without their first `n` bytes. */
  function Cut(chunks: seq<Bytes>, n: nat): seq<Bytes> {
    if n == 0 || chunks == [] then chunks
    else if |chunks[0]| <= n then Cut(chunks[1..], n - |chunks[0]|)
    else [chunks[0][n..]] + chunks[1..]
  }

  function ReadSize(pos: nat, body: nat, end: nat): nat {
    if pos >= body && end - pos >= BUFFER_SIZE then end - pos else BUFFER_SIZE
  }

  /** The pipe after reading on from `pos` to `end` at least, and how far it was read. Each read takes at
      most the rest of a chunk: of it a buffer's worth, or straight away all that is missing where the
      payload is being read, from `body` on, and as much as a buffer holds is missing. */
  function ReadOn(chunks: seq<Bytes>, pos: nat, body: nat, end: nat): (seq<Bytes>, nat)
    decreases |chunks|, if chunks == [] then 0 else |chunks[0]|
  {
    if pos >= end || chunks == [] then (chunks, pos)
    else
      var (got, rest) := ReadPipe(chunks, ReadSize(pos, body, end));
      ReadOn(rest, pos + |got|, body, end)
  }

  /** Where the chunk that holds the last byte before `end` starts and stops, the first chunk at `pos`. */
  function ChunkAround(chunks: seq<Bytes>, pos: nat, end: nat): (nat, nat) {
    if chunks == [] then (pos, pos)
    else if pos + |chunks[0]| >= end then (pos, pos + |chunks[0]|)
    else ChunkAround(chunks[1..], pos + |chunks[0]|, end)
  }

  /** A read stops at `end`, given where its last chunk starts and stops: the chunk stops there; or the
      first buffer's worth of the chunk does, if it starts before the payload; or, after that buffer's
      worth if there is one, at least a buffer's worth of payload is still to come in the chunk. */
  predicate StopsAt(start: nat, stop: nat, body: nat, end: nat) {
    || stop == end
    || (start < body && end == start + 4096)
    || end >= (if start < body then start + 4096 else start) + 4096
  }

  /** The condition on a frame at the front of the pipe, in sizes only. */
  predicate EndsRead(chunks: seq<Bytes>, typeSize: nat, payloadSize: nat) {
    var body := 6 + typeSize;
    var (start, stop) := ChunkAround(chunks, 0, body + payloadSize);
    StopsAt(start, stop, body, body + payloadSize)
  }

  lemma ReadPipeCuts(chunks: seq<Bytes>, n: nat)
    requires NonEmpty(chunks) && n > 0
    ensures var (got, rest) := ReadPipe(chunks, n);
            && rest == Cut(chunks, |got|) && NonEmpty(rest)
            && (chunks != [] ==> |got| == Min(n, |chunks[0]|) > 0)
  {
    if chunks != [] && |chunks[0]| <= n {
      assert Cut(chunks[1..], 0) == chunks[1..];
    }
  }

  lemma {:induction false} CutTwice(chunks: seq<Bytes>, a: nat, b: nat)
    requires NonEmpty(chunks)
    ensures NonEmpty(Cut(chunks, a)) && Cut(Cut(chunks, a), b) == Cut(chunks, a + b)
  {
    if a > 0 && chunks != [] {
      if |chunks[0]| <= a {
        CutTwice(chunks[1..], a - |chunks[0]|, b);
      } else {
        var rest := [chunks[0][a..]] + chunks[1..];
        assert rest[0] == chunks[0][a..] && rest[1..] == chunks[1..];
        assert b < |rest[0]| ==> rest[0][b..] == chunks[0][a + b..];
      }
    }
  }

  lemma {:induction false} CutFlat(chunks: seq<Bytes>, n: nat)
    requires n <= |Flat(chunks)|
    ensures |Flat(Cut(chunks, n))| == |Flat(chunks)| - n
  {
    if n > 0 && chunks != [] {
      if |chunks[0]| <= n {
        CutFlat(chunks[1..], n - |chunks[0]|);
      } else {
        FlatCons(chunks[0][n..], chunks[1..]);
      }
    }
  }

  /** Reading within a chunk does not change which chunk holds the end, unless it is that one. */
  lemma AroundLater(chunks: seq<Bytes>, pos: nat, end: nat, n: nat)
    requires chunks != [] && 0 < n <= |chunks[0]| && pos + |chunks[0]| < end
    ensures ChunkAround(Cut(chunks, n), pos + n, end) == ChunkAround(chunks, pos, end)
  {
    if n == |chunks[0]| {
      assert Cut(chunks[1..], 0) == chunks[1..];
    } else {
      assert ([chunks[0][n..]] + chunks[1..])[1..] == chunks[1..];
    }
  }

  lemma ReadOnStep(chunks: seq<Bytes>, pos: nat, body: nat, end: nat)
    requires pos < end && chunks != []
    ensures var (got, rest) := ReadPipe(chunks, ReadSize(pos, body, end));
            ReadOn(chunks, pos, body, end) == ReadOn(rest, pos + |got|, body, end)
  {
  }

  /** What the first read within the chunk that holds the end comes to. */
  lemma StopsStep(start: nat, stop: nat, body: nat, end: nat, next: nat)
    requires start < end <= stop && body <= BUFFER_SIZE
    requires next == start + Min(ReadSize(start, body, end), stop - start)
    ensures next >= end ==> (next == end <==> StopsAt(start, stop, body, end))
    ensures next < end ==> (StopsAt(next, stop, body, end) <==> StopsAt(start, stop, body, end))
  {
  }

  lemma AroundHere(chunks: seq<Bytes>, pos: nat, end: nat, n: nat)
    requires chunks != [] && pos + n < end <= pos + |chunks[0]|
    ensures ChunkAround(chunks, pos, end) == (pos, pos + |chunks[0]|)
    ensures ChunkAround(Cut(chunks, n), pos + n, end) == (pos + n, pos + |chunks[0]|)
  {
  }

  /** Reading on passes the end, and stops right there exactly in the cases listed. */
  lemma {:induction false} ReadOnStops(chunks: seq<Bytes>, pos: nat, body: nat, end: nat)
    requires NonEmpty(chunks) && pos < end <= pos + |Flat(chunks)| && body <= BUFFER_SIZE
    ensures var (rest, at) := ReadOn(chunks, pos, body, end);
            var (start, stop) := ChunkAround(chunks, pos, end);
            && at >= end && rest == Cut(chunks, at - pos)
            && (at == end <==> StopsAt(start, stop, body, end))
    decreases |chunks|, if chunks == [] then 0 else |chunks[0]|
  {
    hide StopsAt, ReadSize, ReadPipe, Cut, NonEmpty;
    var first, size := |chunks[0]|, ReadSize(pos, body, end);
    var (got, rest) := ReadPipe(chunks, size);
    SizeIsPositive(pos, body, end);
    ReadPipeCuts(chunks, size);
    ReadOnStep(chunks, pos, body, end);
    var next := pos + |got|;
    if pos + first >= end {
      StopsStep(pos, pos + first, body, end, next);
    }
    if next < end {
      CutFlat(chunks, |got|);
      RestIsSmaller(chunks, |got|);
      ReadOnStops(rest, next, body, end);
      CutTwice(chunks, |got|, ReadOn(rest, next, body, end).1 - next);
      if pos + first < end {
        AroundLater(chunks, pos, end, |got|);
      } else {
        AroundHere(chunks, pos, end, |got|);
      }
    }
  }

  lemma SizeIsPositive(pos: nat, body: nat, end: nat)
    ensures ReadSize(pos, body, end) > 0
  {
  }

  lemma RestIsSmaller(chunks: seq<Bytes>, n: nat)
    requires chunks != [] && 0 < n <= |chunks[0]|
    ensures var rest := Cut(chunks, n);
            |rest| < |chunks| || (|rest| == |chunks| && |rest[0]| < |chunks[0]|)
  {
    if n == |chunks[0]| {
      assert Cut(chunks[1..], 0) == chunks[1..];
    }
  }

  // ----- full reads in these terms -----

  lemma ReadOnceReadsOn(src: Source, from: nat, n: nat)
    requires NonEmpty(src.chunks) && n > 0
    ensures var (got, src1) := ReadOnce(src, n);
            ReadOn(src.chunks, from + |src.buffered|, 0, from + n) ==
            ReadOn(src1.chunks, from + |got| + |src1.buffered|, 0, from + n)
  {
    hide ReadPipe, ReadOn, NonEmpty;
    if src.buffered == [] {
      if src.chunks == [] {
        EndOfPipe(from, n);
      } else {
        ReadOnStep(src.chunks, from, 0, from + n);
      }
    }
  }

  lemma EndOfPipe(from: nat, n: nat)
    ensures forall size: nat :: ReadPipe([], size) == ([], [])
    ensures forall pos: nat :: ReadOn([], pos, 0, from + n) == ([], pos)
  {
  }

  /** A full read reads the pipe on from where it stands to where the bytes wanted end, at least. */
  lemma {:induction false} ReadFullReadsOn(src: Source, from: nat, n: nat)
    requires NonEmpty(src.chunks) && n <= |All(src)|
    ensures var src2 := ReadFull(src, n).1;
            ReadOn(src.chunks, from + |src.buffered|, 0, from + n) == (src2.chunks, from + n + |src2.buffered|)
    decreases n
  {
    hide ReadOnce, NonEmpty, Flat;
    if n > 0 {
      ReadOnceDelivers(src, n);
      ReadOnceReadsOn(src, from, n);
      var (got, src1) := ReadOnce(src, n);
      ReadFullReadsOn(src1, from + |got|, n - |got|);
    }
  }

  /** Short of a buffer's worth it makes no difference where the payload starts. */
  lemma {:induction false} ReadOnSmall(chunks: seq<Bytes>, pos: nat, body: nat, body2: nat, end: nat)
    requires end < BUFFER_SIZE
    ensures ReadOn(chunks, pos, body, end) == ReadOn(chunks, pos, body2, end)
    decreases |chunks|, if chunks == [] then 0 else |chunks[0]|
  {
    if pos < end && chunks != [] {
      var (got, rest) := ReadPipe(chunks, BUFFER_SIZE);
      ReadOnSmall(rest, pos + |got|, body, body2, end);
    }
  }

  /** Reading the header part by part and then the payload is reading on through the frame. */
  lemma {:induction false} ReadOnInTwo(chunks: seq<Bytes>, pos: nat, body: nat, end: nat)
    requires body < BUFFER_SIZE && body <= end
    ensures var (rest, at) := ReadOn(chunks, pos, 0, body);
            ReadOn(rest, at, 0, end) == ReadOn(chunks, pos, body, end)
    decreases |chunks|, if chunks == [] then 0 else |chunks[0]|
  {
    if pos < end && chunks != [] {
      var (got, rest) := ReadPipe(chunks, ReadSize(pos, body, end));
      ReadOnInTwo(rest, pos + |got|, body, end);
    }
  }

  // ----- one call -----

  /** The source after reading the header of a frame, part by part, and its payload. */
  function Parts(src: Source, typeSize: nat, payloadSize: nat): Source {
    var src1 := ReadFull(src, 1).1;
    var src2 := ReadFull(src1, 1).1;
    var src3 := ReadFull(src2, typeSize).1;
    var src4 := ReadFull(src3, 4).1;
    ReadFull(src4, payloadSize).1
  }

  lemma NextReadsParts(chunks: seq<Bytes>, f: Frame, rest: Bytes)
    requires NonEmpty(chunks) && f.Fits() && Flat(chunks) == f.Bytes() + rest
    ensures Next(chunks).1 == Parts(Source([], chunks), |f.typ|, |f.payload|)
  {
    hide ReadFull, Flat, All, NonEmpty, Decode, Uint32, PutUint32;
    var s, t := Flat(chunks), |f.typ|;
    EncodeParts(f.typ, f.payload, rest);
    WholeInput(chunks);
    var src0 := Source([], chunks);
    ReadFullDelivers(src0, 1);
    var (proto, src1) := ReadFull(src0, 1);
    assert proto.value == s[..1] && All(src1) == s[1..];
    ReadFullDelivers(src1, 1);
    var (len, src2) := ReadFull(src1, 1);
    assert len.value == s[1..2] && All(src2) == s[2..];
    ReadFullDelivers(src2, t);
    var (typ, src3) := ReadFull(src2, t);
    assert typ.value == s[2..2 + t] && All(src3) == s[2 + t..];
    ReadFullDelivers(src3, 4);
    var size := ReadFull(src3, 4).0;
    assert size.value == s[2 + t..6 + t];
    assert Uint32(size.value) == |f.payload|;
  }

  lemma PartsReadOn(src: Source, from: nat, n: nat, body: nat)
    requires NonEmpty(src.chunks) && n <= |All(src)| && from + n < BUFFER_SIZE
    ensures var src2 := ReadFull(src, n).1;
            && NonEmpty(src2.chunks) && |All(src2)| == |All(src)| - n
            && ReadOn(src.chunks, from + |src.buffered|, 0, from + n) == (src2.chunks, from + n + |src2.buffered|)
  {
    ReadFullDelivers(src, n);
    ReadFullReadsOn(src, from, n);
  }

  /** Reading a short stretch in two parts is reading it at once. */
  lemma ReadOnTwice(chunks: seq<Bytes>, pos: nat, mid: nat, end: nat)
    requires mid <= end < BUFFER_SIZE
    ensures var (rest, at) := ReadOn(chunks, pos, 0, mid); ReadOn(rest, at, 0, end) == ReadOn(chunks, pos, 0, end)
  {
    ReadOnInTwo(chunks, pos, mid, end);
    ReadOnSmall(chunks, pos, mid, 0, end);
  }

  lemma PartsAreReadOn(chunks: seq<Bytes>, t: nat, m: nat)
    requires NonEmpty(chunks) && t <= 255 && 6 + t + m <= |Flat(chunks)|
    ensures var src := Parts(Source([], chunks), t, m);
            ReadOn(chunks, 0, 6 + t, 6 + t + m) == (src.chunks, 6 + t + m + |src.buffered|)
  {
    hide ReadFull, ReadOn, All, Flat, NonEmpty;
    WholeInput(chunks);
    var src0 := Source([], chunks);
    PartsReadOn(src0, 0, 1, 0);
    var src1 := ReadFull(src0, 1).1;
    PartsReadOn(src1, 1, 1, 0);
    ReadOnTwice(chunks, 0, 1, 2);
    var src2 := ReadFull(src1, 1).1;
    PartsReadOn(src2, 2, t, 0);
    ReadOnTwice(chunks, 0, 2, 2 + t);
    var src3 := ReadFull(src2, t).1;
    PartsReadOn(src3, 2 + t, 4, 0);
    ReadOnTwice(chunks, 0, 2 + t, 6 + t);
    var src4 := ReadFull(src3, 4).1;
    ReadFullReadsOn(src4, 6 + t, m);
    ReadOnInTwo(chunks, 0, 6 + t, 6 + t + m);
  }

  /** A call on a frame loses nothing with its buffer if and only if a read of the pipe stops at the end of
      the frame, which the sizes of the chunks, of the type and of the payload decide; it then leaves the
      chunks that follow the frame. */
  lemma NothingLostIff(chunks: seq<Bytes>, f: Frame, rest: Bytes)
    requires NonEmpty(chunks) && f.Fits() && Flat(chunks) == f.Bytes() + rest
    ensures var src := Next(chunks).1;
            && (src.buffered == [] <==> EndsRead(chunks, |f.typ|, |f.payload|))
            && (src.buffered == [] ==> src.chunks == Cut(chunks, |f.Bytes()|))
  {
    hide Next, Parts, ReadOn, Flat, StopsAt, ChunkAround, NonEmpty;
    EncodeParts(f.typ, f.payload, rest);
    NextReadsParts(chunks, f, rest);
    PartsAreReadOn(chunks, |f.typ|, |f.payload|);
    ReadOnStops(chunks, 0, 6 + |f.typ|, |f.Bytes()|);
  }

  lemma {:induction false} AroundShort(chunks: seq<Bytes>, pos: nat, end: nat)
    requires forall i :: 0 <= i < |chunks| ==> 0 < |chunks[i]| <= BUFFER_SIZE
    requires pos < end <= pos + |Flat(chunks)|
    ensures var (start, stop) := ChunkAround(chunks, pos, end); start < end <= stop <= start + BUFFER_SIZE
    ensures ChunkAround(chunks, pos, end).1 == end <==>
            exists j :: 0 <= j <= |chunks| && pos + |Flat(chunks[..j])| == end
  {
    var first := |chunks[0]|;
    assert forall j :: 1 <= j <= |chunks| ==> chunks[..j][0] == chunks[0] && chunks[..j][1..] == chunks[1..][..j - 1];
    if pos + first >= end {
      assert chunks[..1][1..] == [];
      assert |Flat(chunks[..1])| == first;
      if pos + first > end {
        forall j | 0 <= j <= |chunks| ensures pos + |Flat(chunks[..j])| != end {
          assert j >= 1 ==> |Flat(chunks[..j])| == first + |Flat(chunks[1..][..j - 1])|;
        }
      }
    } else {
      AroundShort(chunks[1..], pos + first, end);
      if ChunkAround(chunks, pos, end).1 == end {
        var j :| 0 <= j <= |chunks| - 1 && pos + first + |Flat(chunks[1..][..j])| == end;
        assert chunks[..j + 1][1..] == chunks[1..][..j];
        assert |Flat(chunks[..j + 1])| == first + |Flat(chunks[1..][..j])|;
      }
      if j :| 0 <= j <= |chunks| && pos + |Flat(chunks[..j])| == end {
        assert j >= 1;
        assert |Flat(chunks[..j])| == first + |Flat(chunks[1..][..j - 1])|;
      }
    }
  }

  /** If no chunk is larger than the buffer, that is so if and only if the frame ends where a chunk does. */
  lemma SmallChunksIff(chunks: seq<Bytes>, f: Frame, rest: Bytes)
    requires forall i :: 0 <= i < |chunks| ==> 0 < |chunks[i]| <= 4096
    requires f.Fits() && Flat(chunks) == f.Bytes() + rest
    ensures Next(chunks).1.buffered == [] <==> exists j :: 0 <= j <= |chunks| && |Flat(chunks[..j])| == |f.Bytes()|
  {
    hide Next, ChunkAround, Flat;
    EncodeParts(f.typ, f.payload, rest);
    NothingLostIff(chunks, f, rest);
    AroundShort(chunks, 0, |f.Bytes()|);
    if exists j :: 0 <= j <= |chunks| && |Flat(chunks[..j])| == |f.Bytes()| {
      var j :| 0 <= j <= |chunks| && 0 + |Flat(chunks[..j])| == |f.Bytes()|;
    }
  }

  // ----- repeated calls -----

  /** The first `k` frames all end where a read stops, given that each is read from its start. */
  predicate AllEndReads(chunks: seq<Bytes>, frames: seq<Frame>, k: nat)
    requires k <= |frames| && AllFit(frames)
    decreases k
  {
    k > 0 ==>
      && EndsRead(chunks, |frames[0].typ|, |frames[0].payload|)
      && AllEndReads(Cut(chunks, |frames[0].Bytes()|), frames[1..], k - 1)
  }

  /** Call `i` finds the pipe at the start of frame `i`. */
  predicate InPlace(chunks: seq<Bytes>, frames: seq<Frame>, i: nat)
    requires i <= |frames| && AllFit(frames)
  {
    Flat(After(chunks, i)) == EncodeAll(frames[i..])
  }

  lemma {:induction false} AfterNext(chunks: seq<Bytes>, k: nat)
    ensures After(chunks, k + 1) == After(Next(chunks).1.chunks, k)
  {
    hide Next;
    if k > 0 {
      AfterNext(chunks, k - 1);
    }
  }

  lemma FirstCall(chunks: seq<Bytes>, frames: seq<Frame>)
    requires NonEmpty(chunks) && AllFit(frames) && frames != [] && Flat(chunks) == EncodeAll(frames)
    ensures var f, src := frames[0], Next(chunks).1;
            && Call(chunks, 0) == f.Says() && NonEmpty(src.chunks)
            && (InPlace(chunks, frames, 1) <==> EndsRead(chunks, |f.typ|, |f.payload|))
            && (EndsRead(chunks, |f.typ|, |f.payload|) ==>
                  src.chunks == Cut(chunks, |f.Bytes()|) && Flat(src.chunks) == EncodeAll(frames[1..]))
  {
    hide Next, Flat, NonEmpty, EndsRead, Cut;
    CallReadsFrame(chunks, frames[0], EncodeAll(frames[1..]));
    NothingLostIff(chunks, frames[0], EncodeAll(frames[1..]));
    assert After(chunks, 1) == Next(After(chunks, 0)).1.chunks;
  }

  /** Every call up to the `k`th leaves the next one at the start of the next frame if and only if each
      frame ends where a read stops. Then, and one call further, the calls return the messages. */
  lemma {:induction false} StreamInPlaceIff(chunks: seq<Bytes>, frames: seq<Frame>, k: nat)
    requires NonEmpty(chunks) && AllFit(frames) && Flat(chunks) == EncodeAll(frames) && k <= |frames|
    ensures (forall i :: 0 <= i <= k ==> InPlace(chunks, frames, i)) <==> AllEndReads(chunks, frames, k)
    ensures AllEndReads(chunks, frames, k) ==>
              forall i :: 0 <= i <= k && i < |frames| ==> Call(chunks, i) == frames[i].Says()
    decreases k
  {
    hide Next, Flat, NonEmpty, EndsRead, Cut;
    assert frames[0..] == frames;
    if frames != [] {
      FirstCall(chunks, frames);
    }
    if k > 0 {
      var f, later := frames[0], Next(chunks).1.chunks;
      forall i: nat | i < |frames| ensures frames[1..][i..] == frames[i + 1..] {
      }
      forall i: nat ensures After(chunks, i + 1) == After(later, i) {
        AfterNext(chunks, i);
      }
      if EndsRead(chunks, |f.typ|, |f.payload|) {
        StreamInPlaceIff(later, frames[1..], k - 1);
        RestInPlace(chunks, later, frames, k);
      }
    }
  }

  lemma RestInPlace(chunks: seq<Bytes>, later: seq<Bytes>, frames: seq<Frame>, k: nat)
    requires AllFit(frames) && 0 < k <= |frames| && InPlace(chunks, frames, 0)
    requires forall i: nat :: After(chunks, i + 1) == After(later, i)
    ensures (forall i :: 0 <= i <= k ==> InPlace(chunks, frames, i)) <==>
            (forall i :: 0 <= i <= k - 1 ==> InPlace(later, frames[1..], i))
    ensures forall i: nat :: Call(chunks, i + 1) == Call(later, i)
  {
    hide Next, Flat, EncodeAll;
    forall i: nat | i < k ensures InPlace(later, frames[1..], i) <==> InPlace(chunks, frames, i + 1) {
      assert frames[1..][i..] == frames[i + 1..];
      assert After(chunks, i + 1) == After(later, i);
    }
    if forall i :: 0 <= i <= k - 1 ==> InPlace(later, frames[1..], i) {
      forall i | 0 <= i <= k ensures InPlace(chunks, frames, i) {
        if i > 0 {
          assert InPlace(later, frames[1..], i - 1);
        }
      }
    }
    if forall i :: 0 <= i <= k ==> InPlace(chunks, frames, i) {
      forall i | 0 <= i <= k - 1 ensures InPlace(later, frames[1..], i) {
        assert InPlace(chunks, frames, i + 1);
      }
    }
  }

  // ----- streams of messages -----

  predicate AllSendable(msgs: seq<Message>) {
    forall i :: 0 <= i < |msgs| ==> Sendable(msgs[i])
  }

  function FramesOf(msgs: seq<Message>): (frames: seq<Frame>)
    requires AllSendable(msgs)
    ensures AllFit(frames)
  {
    seq(|msgs|, i requires 0 <= i < |msgs| => Frame(Word(msgs[i]), msgs[i].addr))
  }

  /** The parts are the bytes of the messages on the wire. */
  ghost predicate Written(parts: seq<Bytes>, msgs: seq<Message>)
    requires AllSendable(msgs)
  {
    |parts| == |msgs| && forall i :: 0 <= i < |msgs| ==> WireForm(parts[i], msgs[i])
  }

  lemma WrittenFrames(parts: seq<Bytes>, msgs: seq<Message>)
    requires AllSendable(msgs) && Written(parts, msgs)
    ensures var frames := FramesOf(msgs);
            forall i :: 0 <= i < |msgs| ==> parts[i] == frames[i].Bytes() && frames[i].Says() == Ok(msgs[i])
  {
    hide WireForm, Word, Encode, Decode;
    forall i | 0 <= i < |msgs|
      ensures var f := FramesOf(msgs)[i]; parts[i] == f.Bytes() && f.Says() == Ok(msgs[i])
    {
      WireIsEncoding(parts[i], msgs[i]);
      DecodeWord(msgs[i]);
    }
  }

  lemma {:induction false} EncodeAllIsFlat(parts: seq<Bytes>, frames: seq<Frame>)
    requires AllFit(frames) && |parts| == |frames|
    requires forall i :: 0 <= i < |frames| ==> parts[i] == frames[i].Bytes()
    ensures EncodeAll(frames) == Flat(parts)
  {
    hide Encode;
    if frames != [] {
      EncodeAllIsFlat(parts[1..], frames[1..]);
    }
  }

  /** If each of the first `k` messages written to the pipe ends where a read stops, the calls up to the
      one after them return the messages written, in order. */
  lemma MessagesInOrder(chunks: seq<Bytes>, parts: seq<Bytes>, msgs: seq<Message>, k: nat)
    requires NonEmpty(chunks) && AllSendable(msgs) && Written(parts, msgs) && Flat(chunks) == Flat(parts)
    requires k <= |msgs| && AllEndReads(chunks, FramesOf(msgs), k)
    ensures forall i :: 0 <= i <= k && i < |msgs| ==> Call(chunks, i) == Ok(msgs[i])
  {
    hide Flat, AllEndReads, Call;
    var frames := FramesOf(msgs);
    WrittenFrames(parts, msgs);
    EncodeAllIsFlat(parts, frames);
    StreamInPlaceIff(chunks, frames, k);
  }

  /** If no chunk holds bytes of two messages, the calls return all the messages and then the end. */
  lemma MessagesThenEnd(groups: seq<seq<Bytes>>, msgs: seq<Message>)
    requires AllSendable(msgs) && |groups| == |msgs|
    requires forall i :: 0 <= i < |msgs| ==> NonEmpty(groups[i]) && WireForm(Flat(groups[i]), msgs[i])
    ensures forall i :: 0 <= i < |msgs| ==> Call(Concat(groups), i) == Ok(msgs[i])
    ensures Call(Concat(groups), |msgs|) == Err(NoProtocol)
  {
    hide Flat, Call, WireForm, NonEmpty;
    var parts := seq(|msgs|, i requires 0 <= i < |msgs| => Flat(groups[i]));
    var frames := FramesOf(msgs);
    WrittenFrames(parts, msgs);
    forall i | 0 <= i < |groups| ensures Flat(groups[i]) == frames[i].Bytes() {
      assert parts[i] == Flat(groups[i]);
    }
    AlignedStream(groups, frames, |msgs|);
  }
}
