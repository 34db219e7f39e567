/** The integrity codec: frames with length, sequence number and checksum over a byte stream. */
module Codec {
  import opened Protocol
  import opened BigEndian

  datatype IntegrityError = PacketTooBig | SeqSkipped | DataCorrupted

  datatype DecodeState = Header | Body(length: nat, checksum: nat)

  datatype Decoder = Decoder(max: U32, state: DecodeState, number: U16)

  datatype Outcome = Item(data: Bytes) | NeedMore | Failed(error: IntegrityError)

  datatype Decoded = Decoded(decoder: Decoder, rest: Bytes, outcome: Outcome)

  const HEADER_LEN := 10

  function NextNumber(n: U16): U16 {
    (n + 1) % 0x1_0000
  }

  // -------------------------------------------------------------------------- encoding

  function FrameHeader(length: nat, number: U16, checksum: nat): (b: Bytes)
    ensures |b| == HEADER_LEN
  {
    ToBytes(length, 4) + ToBytes(number, 2) + ToBytes(checksum, 4)
  }

  function EncodeFrame(crc: Bytes -> U32, data: Bytes, number: U16): Bytes {
    FrameHeader(|data|, number, crc(data)) + data
  }

  function EncodeAll(crc: Bytes -> U32, packets: seq<Bytes>, number: U16): Bytes {
    if packets == [] then []
    else EncodeFrame(crc, packets[0], number) + EncodeAll(crc, packets[1..], NextNumber(number))
  }

  // -------------------------------------------------------------------------- decoding

  function DecodeBody(crc: Bytes -> U32, d: Decoder, src: Bytes): Decoded
    requires d.state.Body?
  {
    if |src| < d.state.length then Decoded(d, src, NeedMore)
    else
      var data := src[..d.state.length];
      if d.state.checksum != crc(data) then Decoded(d, src[d.state.length..], Failed(DataCorrupted))
      else Decoded(d.(state := Header), src[d.state.length..], Item(data))
  }

  /** One call of the decoder on the buffered bytes. */
  function Decode(crc: Bytes -> U32, d: Decoder, src: Bytes): Decoded {
    if d.state.Body? then DecodeBody(crc, d, src)
    else if |src| < HEADER_LEN then Decoded(d, src, NeedMore)
    else
      var length, number, checksum := FromBytes(src[..4]), FromBytes(src[4..6]), FromBytes(src[6..10]);
      if length > d.max then Decoded(d, src[4..], Failed(PacketTooBig))
      else if number != d.number then Decoded(d, src[6..], Failed(SeqSkipped))
      else DecodeBody(crc, d.(state := Body(length, checksum), number := NextNumber(d.number)), src[10..])
  }

  datatype Drained = Drained(decoder: Decoder, rest: Bytes, items: seq<Bytes>, error: Option<IntegrityError>)

  /** Decoding until more bytes are needed or an error occurs. */
  function Drain(crc: Bytes -> U32, d: Decoder, src: Bytes): Drained
    decreases |src|, if d.state.Body? then 1 else 0
  {
    var r := Decode(crc, d, src);
    match r.outcome
    case NeedMore => Drained(r.decoder, r.rest, [], None)
    case Failed(error) => Drained(r.decoder, r.rest, [], Some(error))
    case Item(data) =>
      var more := Drain(crc, r.decoder, r.rest);
      more.(items := [data] + more.items)
  }

  /** The bytes arrive in chunks; after each chunk everything decodable is decoded. */
  function Feed(crc: Bytes -> U32, d: Decoder, buffered: Bytes, chunks: seq<Bytes>): Drained
    decreases |chunks|
  {
    if chunks == [] then Drained(d, buffered, [], None)
    else
      var r := Drain(crc, d, buffered + chunks[0]);
      if r.error.Some? then r
      else
        var more := Feed(crc, r.decoder, r.rest, chunks[1..]);
        more.(items := r.items + more.items)
  }

  function Concat(chunks: seq<Bytes>): Bytes {
    if chunks == [] then [] else chunks[0] + Concat(chunks[1..])
  }

  // ----------------------------------------------------------------- independence of chunking

  /** More bytes do not change what the bytes so far decode to. */
  lemma DecodeExtends(crc: Bytes -> U32, d: Decoder, a: Bytes, b: Bytes)
    ensures var r := Decode(crc, d, a);
            var s := Decode(crc, d, a + b);
            match r.outcome
            case NeedMore => s == Decode(crc, r.decoder, r.rest + b)
            case Item(_) => s == r.(rest := r.rest + b)
            case Failed(_) => s == r.(rest := r.rest + b)
  {
    if d.state.Body? {
      BodyExtends(crc, d, a, b);
    } else if |a| >= HEADER_LEN {
      assert (a + b)[..4] == a[..4] && (a + b)[4..6] == a[4..6] && (a + b)[6..10] == a[6..10];
      assert (a + b)[10..] == a[10..] + b && (a + b)[4..] == a[4..] + b && (a + b)[6..] == a[6..] + b;
      var length, number, checksum := FromBytes(a[..4]), FromBytes(a[4..6]), FromBytes(a[6..10]);
      if length <= d.max && number == d.number {
        BodyExtends(crc, d.(state := Body(length, checksum), number := NextNumber(d.number)), a[10..], b);
      }
    }
  }

  lemma BodyExtends(crc: Bytes -> U32, d: Decoder, a: Bytes, b: Bytes)
    requires d.state.Body?
    ensures var r := DecodeBody(crc, d, a);
            var s := DecodeBody(crc, d, a + b);
            match r.outcome
            case NeedMore => r == Decoded(d, a, NeedMore)
            case Item(_) => s == r.(rest := r.rest + b)
            case Failed(_) => s == r.(rest := r.rest + b)
  {
    if |a| >= d.state.length {
      assert (a + b)[..d.state.length] == a[..d.state.length];
      assert (a + b)[d.state.length..] == a[d.state.length..] + b;
    }
  }

  lemma {:induction false} DrainExtends(crc: Bytes -> U32, d: Decoder, a: Bytes, b: Bytes)
    ensures var r := Drain(crc, d, a);
            var s := Drain(crc, d, a + b);
            if r.error.Some? then s == r.(rest := r.rest + b)
            else var t := Drain(crc, r.decoder, r.rest + b); s == t.(items := r.items + t.items)
    decreases |a|, if d.state.Body? then 1 else 0
  {
    DecodeExtends(crc, d, a, b);
    DecodeShortens(crc, d, a);
    hide Decode;
    var r := Decode(crc, d, a);
    match r.outcome
    case NeedMore =>
      var t := Drain(crc, r.decoder, r.rest + b);
      assert [] + t.items == t.items;
    case Failed(_) =>
    case Item(data) =>
      DrainExtends(crc, r.decoder, r.rest, b);
      var more := Drain(crc, r.decoder, r.rest);
      if more.error.None? {
        var t := Drain(crc, more.decoder, more.rest + b);
        assert [data] + (more.items + t.items) == ([data] + more.items) + t.items;
      }
  }

  lemma DecodeShortens(crc: Bytes -> U32, d: Decoder, a: Bytes)
    ensures var r := Decode(crc, d, a);
            && (r.outcome.Item? ==> r.decoder.state.Header?)
            && (r.outcome.Item? ==> |r.rest| < |a| || (|r.rest| == |a| && d.state.Body?))
            && (r.outcome.NeedMore? && d.state.Body? ==> r == Decoded(d, a, NeedMore))
            && (r.outcome.NeedMore? ==> |r.rest| <= |a| && Decode(crc, r.decoder, r.rest) == r)
  {
  }

  /** After draining, nothing more can be decoded from what is left. */
  lemma {:induction false} DrainIsStable(crc: Bytes -> U32, d: Decoder, a: Bytes)
    ensures var r := Drain(crc, d, a);
            r.error.None? ==> Drain(crc, r.decoder, r.rest) == r.(items := [])
    decreases |a|, if d.state.Body? then 1 else 0
  {
    DecodeShortens(crc, d, a);
    hide Decode;
    var r := Decode(crc, d, a);
    if r.outcome.Item? {
      DrainIsStable(crc, r.decoder, r.rest);
    }
  }

  /** However the bytes are split, the outcome is that of all bytes at once. */
  lemma {:induction false} ChunkingIsInvisible(crc: Bytes -> U32, d: Decoder, buffered: Bytes, chunks: seq<Bytes>)
    requires Drain(crc, d, buffered) == Drained(d, buffered, [], None)
    ensures var r := Feed(crc, d, buffered, chunks);
            var s := Drain(crc, d, buffered + Concat(chunks));
            && r.items == s.items && r.error == s.error
            && (r.error.None? ==> r.decoder == s.decoder && r.rest == s.rest)
    decreases |chunks|
  {
    if chunks == [] {
      assert buffered + [] == buffered;
    } else {
      var c, more := chunks[0], Concat(chunks[1..]);
      assert buffered + Concat(chunks) == (buffered + c) + more;
      DrainExtends(crc, d, buffered + c, more);
      var r := Drain(crc, d, buffered + c);
      if r.error.None? {
        DrainIsStable(crc, d, buffered + c);
        ChunkingIsInvisible(crc, r.decoder, r.rest, chunks[1..]);
      }
    }
  }

  // ------------------------------------------------------------------------- round trip

  lemma DecodeFrame(crc: Bytes -> U32, max: U32, data: Bytes, number: U16, after: Bytes)
    requires |data| <= max
    ensures Decode(crc, Decoder(max, Header, number), EncodeFrame(crc, data, number) + after)
            == Decoded(Decoder(max, Header, NextNumber(number)), after, Item(data))
  {
    HeaderReads(|data|, number, crc(data), data + after);
    hide FrameHeader;
    var src := EncodeFrame(crc, data, number) + after;
    assert src == FrameHeader(|data|, number, crc(data)) + (data + after);
    assert (data + after)[..|data|] == data && (data + after)[|data|..] == after;
  }

  lemma HeaderReads(length: U32, number: U16, checksum: U32, after: Bytes)
    ensures var src := FrameHeader(length, number, checksum) + after;
            && FromBytes(src[..4]) == length && FromBytes(src[4..6]) == number && FromBytes(src[6..10]) == checksum
            && src[10..] == after
  {
    Sizes();
    ReadsBack(length, 4);
    ReadsBack(number, 2);
    ReadsBack(checksum, 4);
    hide ToBytes, FromBytes, Pow256;
    var src := FrameHeader(length, number, checksum) + after;
    assert src[..4] == ToBytes(length, 4);
    assert src[4..6] == ToBytes(number, 2);
    assert src[6..10] == ToBytes(checksum, 4);
    assert src[10..] == after;
  }

  /** What is wrong with a frame is told: a length above the limit, before anything else is looked at; a number that is not
      the next one; and data that does not match its checksum.  A frame without these faults is taken. */
  lemma FaultsAreTold(crc: Bytes -> U32, max: U32, next: U16, number: U16, checksum: U32, data: Bytes, after: Bytes)
    requires |data| < 0x1_0000_0000
    ensures var r := Decode(crc, Decoder(max, Header, next), FrameHeader(|data|, number, checksum) + (data + after));
            r.outcome == if |data| > max then Failed(PacketTooBig)
                         else if number != next then Failed(SeqSkipped)
                         else if checksum != crc(data) then Failed(DataCorrupted)
                         else Outcome.Item(data)
  {
    HeaderReads(|data|, number, checksum, data + after);
    hide FrameHeader;
    assert (data + after)[..|data|] == data && (data + after)[|data|..] == after;
  }

  lemma {:induction false} DecodeAllFrames(crc: Bytes -> U32, max: U32, packets: seq<Bytes>, number: U16)
    requires forall i | 0 <= i < |packets| :: |packets[i]| <= max
    ensures var r := Drain(crc, Decoder(max, Header, number), EncodeAll(crc, packets, number));
            r.items == packets && r.error.None? && r.rest == [] && r.decoder.state.Header?
  {
    if packets == [] {
      NothingDrains(crc, Decoder(max, Header, number));
    } else {
      hide Decode, EncodeFrame, NextNumber;
      var after := EncodeAll(crc, packets[1..], NextNumber(number));
      DecodeFrame(crc, max, packets[0], number, after);
      DecodeAllFrames(crc, max, packets[1..], NextNumber(number));
      assert packets == [packets[0]] + packets[1..];
    }
  }

  /** Any list of packets within the size limit, of any length, encoded and split in any way, is recovered exactly. */
  lemma RoundTrip(crc: Bytes -> U32, max: U32, packets: seq<Bytes>, number: U16, chunks: seq<Bytes>)
    requires forall i | 0 <= i < |packets| :: |packets[i]| <= max
    requires Concat(chunks) == EncodeAll(crc, packets, number)
    ensures var r := Feed(crc, Decoder(max, Header, number), [], chunks);
            r.items == packets && r.error.None? && r.rest == [] && r.decoder.state.Header?
  {
    hide *;
    NothingDrains(crc, Decoder(max, Header, number));
    ChunkingIsInvisible(crc, Decoder(max, Header, number), [], chunks);
    assert [] + Concat(chunks) == Concat(chunks);
    DecodeAllFrames(crc, max, packets, number);
  }

  /** Whatever part of the bytes has arrived, and however it was split: packets from the front, in order and unchanged, and
      no error. */
  lemma PrefixDecodes(crc: Bytes -> U32, max: U32, packets: seq<Bytes>, number: U16, chunks: seq<Bytes>)
    requires forall i | 0 <= i < |packets| :: |packets[i]| <= max
    requires Concat(chunks) <= EncodeAll(crc, packets, number)
    ensures var r := Feed(crc, Decoder(max, Header, number), [], chunks);
            && r.items <= packets && r.error.None?
            && (Concat(chunks) == EncodeAll(crc, packets, number) ==> r.items == packets)
  {
    hide *;
    var d, now := Decoder(max, Header, number), Concat(chunks);
    var all := EncodeAll(crc, packets, number);
    NothingDrains(crc, d);
    ChunkingIsInvisible(crc, d, [], chunks);
    DecodeAllFrames(crc, max, packets, number);
    assert [] + now == now && now + all[|now|..] == all;
    PrefixDrains(crc, d, now, all[|now|..]);
  }

  lemma NothingDrains(crc: Bytes -> U32, d: Decoder)
    requires d.state.Header?
    ensures Drain(crc, d, []) == Drained(d, [], [], None)
  {
  }

  /** What has arrived of bytes that decode without an error decodes to the front of it. */
  lemma PrefixDrains(crc: Bytes -> U32, d: Decoder, a: Bytes, b: Bytes)
    requires Drain(crc, d, a + b).error.None?
    ensures Drain(crc, d, a).error.None? && Drain(crc, d, a).items <= Drain(crc, d, a + b).items
  {
    hide *;
    DrainExtends(crc, d, a, b);
  }

  /** The bytes of a frame that was begun. */
  function Begun(d: Decoder, number: U16): Bytes {
    if d.state.Body? then FrameHeader(d.state.length, number, d.state.checksum) else []
  }

  function NumberAfter(number: U16, k: nat): U16 {
    (number + k) % 0x1_0000
  }

  lemma ItemIsFrame(crc: Bytes -> U32, max: U32, number: U16, src: Bytes)
    requires Decode(crc, Decoder(max, Header, number), src).outcome.Item?
    ensures var r := Decode(crc, Decoder(max, Header, number), src);
            && src == EncodeFrame(crc, r.outcome.data, number) + r.rest
            && r.decoder == Decoder(max, Header, NextNumber(number))
  {
    HeaderReadsBack(src);
    var length := FromBytes(src[..4]);
    assert src == src[..10] + (src[10..][..length] + src[10..][length..]);
  }

  lemma RemainderIsBegun(crc: Bytes -> U32, max: U32, number: U16, src: Bytes)
    requires Decode(crc, Decoder(max, Header, number), src).outcome.NeedMore?
    ensures var r := Decode(crc, Decoder(max, Header, number), src);
            src == Begun(r.decoder, number) + r.rest
  {
    if |src| >= HEADER_LEN {
      HeaderReadsBack(src);
      assert src == src[..10] + src[10..];
    }
  }

  /** Nothing else is accepted: what decodes without an error is the encoding of the items it decodes to, followed by
      an unfinished frame. */
  lemma {:induction false} DecodedIsEncoded(crc: Bytes -> U32, max: U32, number: U16, src: Bytes)
    requires Drain(crc, Decoder(max, Header, number), src).error.None?
    ensures var r := Drain(crc, Decoder(max, Header, number), src);
            src == EncodeAll(crc, r.items, number) + Begun(r.decoder, NumberAfter(number, |r.items|)) + r.rest
    decreases |src|
  {
    hide Decode, EncodeFrame, Begun, EncodeAll, NumberAfter, NextNumber;
    var r := Decode(crc, Decoder(max, Header, number), src);
    if r.outcome.NeedMore? {
      RemainderIsBegun(crc, max, number, src);
      NothingEncoded(crc, number);
      assert src == [] + Begun(r.decoder, number) + r.rest;
    } else {
      ItemIsFrame(crc, max, number, src);
      FrameIsLonger(crc, r.outcome.data, number);
      DecodedIsEncoded(crc, max, NextNumber(number), r.rest);
      var more := Drain(crc, r.decoder, r.rest);
      EncodeCons(crc, r.outcome.data, more.items, number);
      NumberAfterNext(number, |more.items|);
      Regroup(EncodeFrame(crc, r.outcome.data, number), EncodeAll(crc, more.items, NextNumber(number)),
              Begun(more.decoder, NumberAfter(NextNumber(number), |more.items|)), more.rest);
    }
  }

  lemma NothingEncoded(crc: Bytes -> U32, number: U16)
    ensures EncodeAll(crc, [], number) == [] && NumberAfter(number, 0) == number
  {
  }

  lemma NumberAfterNext(number: U16, k: nat)
    ensures NumberAfter(NextNumber(number), k) == NumberAfter(number, k + 1)
  {
  }

  lemma EncodeCons(crc: Bytes -> U32, packet: Bytes, packets: seq<Bytes>, number: U16)
    ensures EncodeAll(crc, [packet] + packets, number)
            == EncodeFrame(crc, packet, number) + EncodeAll(crc, packets, NextNumber(number))
  {
    hide EncodeFrame;
    assert ([packet] + packets)[1..] == packets;
  }

  lemma Regroup(a: Bytes, b: Bytes, c: Bytes, d: Bytes)
    ensures a + (b + c + d) == (a + b) + c + d
  {
  }

  lemma FrameIsLonger(crc: Bytes -> U32, data: Bytes, number: U16)
    ensures |EncodeFrame(crc, data, number)| == HEADER_LEN + |data|
  {
  }

  lemma HeaderReadsBack(src: Bytes)
    requires |src| >= HEADER_LEN
    ensures src[..10] == ToBytes(FromBytes(src[..4]), 4) + ToBytes(FromBytes(src[4..6]), 2) + ToBytes(FromBytes(src[6..10]), 4)
  {
    WritesBack(src[..4]);
    WritesBack(src[4..6]);
    WritesBack(src[6..10]);
  }

  /** A stream is decoded completely to `items` exactly when it is their encoding. */
  lemma DecodesExactlyEncodings(crc: Bytes -> U32, max: U32, number: U16, items: seq<Bytes>, src: Bytes)
    requires forall i | 0 <= i < |items| :: |items[i]| <= max
    ensures src == EncodeAll(crc, items, number) <==>
            var r := Drain(crc, Decoder(max, Header, number), src);
            r.items == items && r.error.None? && r.rest == [] && r.decoder.state.Header?
  {
    DecodeAllFrames(crc, max, items, number);
    if Drain(crc, Decoder(max, Header, number), src).error.None? {
      DecodedIsEncoded(crc, max, number, src);
    }
  }

  // ------------------------------------------------------------------------- the codec

  class IntegrityCodec {
    const crc: Bytes -> U32
    var maxFrameLen: U32
    var state: DecodeState
    var decodeSeq: U16
    var encodeSeq: U16

    constructor (crc: Bytes -> U32)
      ensures this.crc == crc && maxFrameLen == 8 * 1_024 * 1_024
      ensures state == Header && decodeSeq == 0 && encodeSeq == 0
    {
      this.crc := crc;
      maxFrameLen, state, decodeSeq, encodeSeq := 8 * 1_024 * 1_024, Header, 0, 0;
    }

    ghost function DecoderState(): Decoder
      reads this
    {
      Decoder(maxFrameLen, state, decodeSeq)
    }

    method DecodeHeader(src: Bytes) returns (rest: Bytes, header: Option<DecodeState>, error: Option<IntegrityError>)
      modifies this`decodeSeq
      ensures |src| < HEADER_LEN ==> header.None? && error.None? && rest == src && decodeSeq == old(decodeSeq)
      ensures |src| >= HEADER_LEN ==>
                var length, number := FromBytes(src[..4]), FromBytes(src[4..6]);
                if length > maxFrameLen then error == Some(PacketTooBig) && rest == src[4..] && decodeSeq == old(decodeSeq)
                else if number != old(decodeSeq) then error == Some(SeqSkipped) && rest == src[6..] && decodeSeq == old(decodeSeq)
                else error.None? && header == Some(Body(length, FromBytes(src[6..10]))) && rest == src[10..]
                     && decodeSeq == NextNumber(old(decodeSeq))
    {
      rest, header, error := src, None, None;
      if |rest| < HEADER_LEN {
        return;
      }
      var length := FromBytes(rest[..4]);
      rest := rest[4..];
      if length > maxFrameLen {
        error := Some(PacketTooBig);
        return;
      }
      assert rest[..2] == src[4..6];
      var number := FromBytes(rest[..2]);
      rest := rest[2..];
      if number != decodeSeq {
        error := Some(SeqSkipped);
        return;
      }
      decodeSeq := NextNumber(decodeSeq);
      assert rest[..4] == src[6..10];
      var checksum := FromBytes(rest[..4]);
      rest := rest[4..];
      header := Some(Body(length, checksum));
    }

    /** Decodes at most one frame from the buffered bytes; returns what is left of them. */
    method DecodeOne(src: Bytes) returns (rest: Bytes, outcome: Outcome)
      modifies this`state, this`decodeSeq
      ensures Decoded(DecoderState(), rest, outcome) == old(Decode(crc, DecoderState(), src))
    {
      rest := src;
      if state.Header? {
        var header, error;
        rest, header, error := DecodeHeader(src);
        if error.Some? {
          return rest, Failed(error.value);
        }
        if header.None? {
          return rest, NeedMore;
        }
        state := header.value;
      }
      var length := state.length;
      if |rest| < length {
        return rest, NeedMore;
      }
      var data := rest[..length];
      rest := rest[length..];
      if state.checksum != crc(data) {
        return rest, Failed(DataCorrupted);
      }
      state := Header;
      outcome := Item(data);
    }

    /** Appends a packet to the bytes to be sent. */
    method Encode(data: Bytes, dst: Bytes) returns (dst': Bytes, error: Option<IntegrityError>)
      modifies this`encodeSeq
      ensures |data| > maxFrameLen ==> error == Some(PacketTooBig) && dst' == dst && encodeSeq == old(encodeSeq)
      ensures |data| <= maxFrameLen ==>
                error.None? && dst' == dst + old(EncodeFrame(crc, data, encodeSeq)) && encodeSeq == old(NextNumber(encodeSeq))
    {
      if |data| > maxFrameLen {
        return dst, Some(PacketTooBig);
      }
      dst' := dst + ToBytes(|data|, 4);
      dst' := dst' + ToBytes(encodeSeq, 2);
      encodeSeq := NextNumber(encodeSeq);
      dst' := dst' + ToBytes(crc(data), 4);
      dst' := dst' + data;
      error := None;
    }
  }
}
