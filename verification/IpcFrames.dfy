/** The frames dcrd writes on its pipe, and what one says. */
module IpcFrames {
  import opened WalletTypes

  const PROTOCOL_VERSION: byte := 1

  /** Messages of an unknown type decode to the empty one. */
  datatype Message = Empty | BoundP2PListenAddr(addr: Bytes) | BoundRPCListenAddr(addr: Bytes)

  datatype ReadError =
    | NoProtocol | VersionMismatch(got: byte) | NoTypeLength | NoType | NoPayloadLength | NoPayload

  datatype Result = Ok(msg: Message) | Err(error: ReadError)

  // "p2plistenaddr" and "rpclistenaddr"
  const P2P_LISTEN_ADDR: Bytes := [0x70, 0x32, 0x70, 0x6c, 0x69, 0x73, 0x74, 0x65, 0x6e, 0x61, 0x64, 0x64, 0x72]
  const RPC_LISTEN_ADDR: Bytes := [0x72, 0x70, 0x63, 0x6c, 0x69, 0x73, 0x74, 0x65, 0x6e, 0x61, 0x64, 0x64, 0x72]

  function Decode(typ: Bytes, payload: Bytes): Message {
    if typ == P2P_LISTEN_ADDR then BoundP2PListenAddr(payload)
    else if typ == RPC_LISTEN_ADDR then BoundRPCListenAddr(payload)
    else Empty
  }

  /** Four bytes as an unsigned number, the least significant first. */
  function Uint32(b: Bytes): nat
    requires |b| == 4
  {
    var b0: int, b1: int, b2: int, b3: int := b[0], b[1], b[2], b[3];
    b0 + 0x100 * (b1 + 0x100 * (b2 + 0x100 * b3))
  }

  function PutUint32(n: nat): (b: Bytes)
    requires n < UINT32_LIMIT
    ensures |b| == 4 && Uint32(b) == n
  {
    var n1 := n / 0x100;
    var n2 := n1 / 0x100;
    var n3 := n2 / 0x100;
    [n % 0x100, n1 % 0x100, n2 % 0x100, n3]
  }

  lemma Digits(b: int, rest: int)
    requires 0 <= b < 0x100
    ensures (b + 0x100 * rest) / 0x100 == rest && (b + 0x100 * rest) % 0x100 == b
  {
  }

  /** Four bytes are the encoding of the number they decode to. */
  lemma PutOfUint32(b: Bytes)
    requires |b| == 4
    ensures Uint32(b) < UINT32_LIMIT && PutUint32(Uint32(b)) == b
  {
    var b1: int, b2: int, b3: int := b[1], b[2], b[3];
    Digits(b[0], b1 + 0x100 * (b2 + 0x100 * b3));
    Digits(b[1], b2 + 0x100 * b3);
    Digits(b[2], b3);
  }

  /** A type and a payload short enough to be written. */
  predicate Encodable(typ: Bytes, payload: Bytes) {
    |typ| <= 255 && |payload| < UINT32_LIMIT
  }

  function Encode(typ: Bytes, payload: Bytes): Bytes
    requires Encodable(typ, payload)
  {
    [PROTOCOL_VERSION, |typ|] + typ + PutUint32(|payload|) + payload
  }

  /** What decoding a whole input gives, and how many of its bytes are read on success. */
  function Parse(s: Bytes): (Result, nat) {
    if |s| < 1 then (Err(NoProtocol), 0)
    else if s[0] != PROTOCOL_VERSION then (Err(VersionMismatch(s[0])), 0)
    else if |s| < 2 then (Err(NoTypeLength), 0)
    else
      var t := s[1];
      if |s| < 2 + t then (Err(NoType), 0)
      else if |s| < 6 + t then (Err(NoPayloadLength), 0)
      else
        var n := Uint32(s[2 + t..6 + t]);
        if |s| < 6 + t + n then (Err(NoPayload), 0)
        else (Ok(Decode(s[2..2 + t], s[6 + t..6 + t + n])), 6 + t + n)
  }

  lemma EncodeParts(typ: Bytes, payload: Bytes, rest: Bytes)
    requires Encodable(typ, payload)
    ensures var t, s := |typ|, Encode(typ, payload) + rest;
            && |Encode(typ, payload)| == 6 + t + |payload|
            && s[0] == PROTOCOL_VERSION && s[1] == t
            && s[2..2 + t] == typ && s[2 + t..6 + t] == PutUint32(|payload|)
            && s[6 + t..6 + t + |payload|] == payload
  {
  }

  /** Decoding undoes encoding, whatever follows the frame. */
  lemma ParseEncode(typ: Bytes, payload: Bytes, rest: Bytes)
    requires Encodable(typ, payload)
    ensures Parse(Encode(typ, payload) + rest) == (Ok(Decode(typ, payload)), |Encode(typ, payload)|)
  {
    EncodeParts(typ, payload, rest);
  }

  /** The error for a frame cut short, by where it is cut. */
  function CutError(t: nat, k: nat): ReadError {
    if k < 1 then NoProtocol
    else if k < 2 then NoTypeLength
    else if k < 2 + t then NoType
    else if k < 6 + t then NoPayloadLength
    else NoPayload
  }

  /** Every strict prefix of a frame is an error, that of the part the input ends in. */
  lemma ParseCut(typ: Bytes, payload: Bytes, k: nat)
    requires Encodable(typ, payload) && k < |Encode(typ, payload)|
    ensures Parse(Encode(typ, payload)[..k]).0 == Err(CutError(|typ|, k))
  {
    EncodeParts(typ, payload, []);
    var whole := Encode(typ, payload);
    assert whole + [] == whole;
    var s := whole[..k];
    if k >= 6 + |typ| {
      assert s[2 + |typ|..6 + |typ|] == whole[2 + |typ|..6 + |typ|];
    }
  }

  /** Only frames decode: a successful read took exactly the encoding of some type and payload. */
  lemma ParsedIsEncoded(s: Bytes) returns (typ: Bytes, payload: Bytes)
    requires Parse(s).0.Ok?
    ensures Encodable(typ, payload) && Parse(s).1 <= |s|
    ensures s[..Parse(s).1] == Encode(typ, payload) && Parse(s).0.msg == Decode(typ, payload)
  {
    var t := s[1];
    var len := s[2 + t..6 + t];
    PutOfUint32(len);
    typ, payload := s[2..2 + t], s[6 + t..6 + t + Uint32(len)];
    assert s[..Parse(s).1] == [s[0], s[1]] + typ + len + payload;
  }

  // ----- messages as bytes -----

  /** A message that has a word, and whose address can be sent. */
  predicate Sendable(m: Message) {
    !m.Empty? && |m.addr| < 0x1_0000_0000
  }

  /** "p2plistenaddr" or "rpclistenaddr". */
  function Word(m: Message): Bytes
    requires !m.Empty?
  {
    if m.BoundP2PListenAddr?
    then [0x70, 0x32, 0x70, 0x6c, 0x69, 0x73, 0x74, 0x65, 0x6e, 0x61, 0x64, 0x64, 0x72]
    else [0x72, 0x70, 0x63, 0x6c, 0x69, 0x73, 0x74, 0x65, 0x6e, 0x61, 0x64, 0x64, 0x72]
  }

  /** The bytes of a message on the wire: version 1, the 13 letters of its word, the size of the address in
      four bytes, the least significant first, and the address. */
  ghost predicate WireForm(frame: Bytes, m: Message)
    requires !m.Empty?
  {
    exists b0: byte, b1: byte, b2: byte, b3: byte ::
      && |m.addr| == b0 + 256 * b1 + 65536 * b2 + 16777216 * b3
      && frame == [1, 13] + Word(m) + [b0, b1, b2, b3] + m.addr
  }

  lemma LittleEndian(n: nat, b: Bytes)
    requires |b| == 4
    ensures var b0: int, b1: int, b2: int, b3: int := b[0], b[1], b[2], b[3];
            n == b0 + 256 * b1 + 65536 * b2 + 16777216 * b3 <==> n < 0x1_0000_0000 && b == PutUint32(n)
  {
    hide PutUint32;
    PutOfUint32(b);
  }

  lemma WireIsEncoding(frame: Bytes, m: Message)
    requires !m.Empty?
    ensures WireForm(frame, m) <==> Sendable(m) && frame == Encode(Word(m), m.addr)
  {
    hide Word, Uint32, PutUint32;
    DecodeWord(m);
    if WireForm(frame, m) {
      var b0: byte, b1: byte, b2: byte, b3: byte :|
        && |m.addr| == b0 + 256 * b1 + 65536 * b2 + 16777216 * b3
        && frame == [1, 13] + Word(m) + [b0, b1, b2, b3] + m.addr;
      LittleEndian(|m.addr|, [b0, b1, b2, b3]);
    }
    if Sendable(m) && frame == Encode(Word(m), m.addr) {
      var b := PutUint32(|m.addr|);
      LittleEndian(|m.addr|, b);
      assert b == [b[0], b[1], b[2], b[3]];
    }
  }

  lemma DecodeWord(m: Message)
    requires !m.Empty?
    ensures |Word(m)| == 13 && Decode(Word(m), m.addr) == m
  {
    assert P2P_LISTEN_ADDR[0] != RPC_LISTEN_ADDR[0];
  }

  lemma DecodeIsWord(typ: Bytes, payload: Bytes)
    ensures var m := Decode(typ, payload); !m.Empty? ==> typ == Word(m) && payload == m.addr
  {
  }

  /** An input decodes to a message other than the empty one exactly if it starts with the bytes of that
      message, whatever follows them. */
  lemma MessageReadIff(s: Bytes, m: Message)
    requires !m.Empty?
    ensures Parse(s).0 == Ok(m) <==> exists n :: 0 <= n <= |s| && WireForm(s[..n], m)
    ensures Parse(s).0 == Ok(m) ==> WireForm(s[..Parse(s).1], m)
  {
    hide Parse, Encode, WireForm, Word;
    if Parse(s).0 == Ok(m) {
      var typ, payload := ParsedIsEncoded(s);
      DecodeIsWord(typ, payload);
      assert typ == Word(m);
      WireIsEncoding(s[..Parse(s).1], m);
    }
    if n :| 0 <= n <= |s| && WireForm(s[..n], m) {
      WireIsEncoding(s[..n], m);
      DecodeWord(m);
      ParseEncode(Word(m), m.addr, s[n..]);
      assert s == s[..n] + s[n..];
    }
  }

  /** The messages written are the messages read. */
  lemma MessageRoundTrip(m: Message, rest: Bytes)
    requires Sendable(m)
    ensures Parse(Encode(Word(m), m.addr) + rest) == (Ok(m), |Encode(Word(m), m.addr)|)
  {
    ParseEncode(Word(m), m.addr, rest);
    DecodeWord(m);
  }

  /** A frame of any other type is the empty message, and any version but 1 is an error. */
  lemma OtherFrames(typ: Bytes, payload: Bytes, rest: Bytes, s: Bytes)
    requires Encodable(typ, payload)
    ensures Parse(Encode(typ, payload) + rest).0 == Ok(Empty) <==>
            typ != Word(BoundP2PListenAddr(payload)) && typ != Word(BoundRPCListenAddr(payload))
    ensures s != [] && s[0] != 1 ==> Parse(s).0 == Err(VersionMismatch(s[0]))
  {
    ParseEncode(typ, payload, rest);
    DecodeWord(BoundP2PListenAddr(payload));
    DecodeWord(BoundRPCListenAddr(payload));
    if typ == P2P_LISTEN_ADDR {
      assert typ == Word(BoundP2PListenAddr(payload));
    }
    if typ == RPC_LISTEN_ADDR {
      assert typ == Word(BoundRPCListenAddr(payload));
    }
  }
}
