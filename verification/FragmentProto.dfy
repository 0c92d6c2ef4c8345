/**
 * The FragmentProto wire format: a packet is a run of chunks, and a chunk is a
 * seven-byte header followed by a piece of one frame.
 */
module FragmentProto {
  import opened Bytes

  const HEADER_LEN: nat := 7
  const FRAME_ID_LIMIT: nat := 0x1_0000

  datatype Chunk = Chunk(frameId: nat, start: nat, isLast: bool, data: seq<Byte>)

  /** The chunks whose header fields fit their sixteen-bit slots. */
  predicate Encodable(c: Chunk) {
    c.frameId <= UINT16_MAX && c.start <= UINT16_MAX && |c.data| <= UINT16_MAX
  }

  predicate AllEncodable(cs: seq<Chunk>) {
    forall i | 0 <= i < |cs| :: Encodable(cs[i])
  }

  function EncodeHeader(c: Chunk): (bs: seq<Byte>)
    requires Encodable(c)
    ensures |bs| == HEADER_LEN
  {
    [c.frameId % 256, c.frameId / 256,
     c.start % 256, c.start / 256,
     |c.data| % 256, |c.data| / 256,
     if c.isLast then 1 else 0]
  }

  function EncodeChunk(c: Chunk): (bs: seq<Byte>)
    requires Encodable(c)
    ensures |bs| == HEADER_LEN + |c.data|
  {
    EncodeHeader(c) + c.data
  }

  function EncodePacket(cs: seq<Chunk>): seq<Byte>
    requires AllEncodable(cs)
  {
    if cs == [] then [] else EncodePacket(cs[..|cs| - 1]) + EncodeChunk(cs[|cs| - 1])
  }

  /** The chunk at a position of a packet, or None where the receiver stops reading the packet. */
  function NextChunk(packet: seq<Byte>, pos: nat): (r: Option<Chunk>)
    requires pos <= |packet|
    ensures r.Some? ==> Encodable(r.value) && pos + HEADER_LEN + |r.value.data| <= |packet|
  {
    if |packet| - pos < HEADER_LEN then
      None
    else
      var len := Uint16At(packet, pos + 4);
      var isLast := packet[pos + 6];
      var dataPos := pos + HEADER_LEN;
      if isLast > 1 then
        None
      else if |packet| - dataPos < len then
        None
      else
        Some(Chunk(Uint16At(packet, pos), Uint16At(packet, pos + 2), isLast == 1, packet[dataPos..dataPos + len]))
  }

  /** The chunks a receiver reads from a position of a packet on. */
  function ParsePacket(packet: seq<Byte>, pos: nat): (cs: seq<Chunk>)
    requires pos <= |packet|
    ensures AllEncodable(cs)
    decreases |packet| - pos
  {
    match NextChunk(packet, pos)
    case None => []
    case Some(c) => [c] + ParsePacket(packet, pos + HEADER_LEN + |c.data|)
  }

  lemma NextChunkOfEncoding(c: Chunk, before: seq<Byte>, after: seq<Byte>)
    requires Encodable(c)
    ensures NextChunk(before + EncodeChunk(c) + after, |before|) == Some(c)
  {
    var packet, pos, header := before + EncodeChunk(c) + after, |before|, EncodeHeader(c);
    assert forall k | 0 <= k < HEADER_LEN :: packet[pos + k] == header[k];
    assert packet[pos + HEADER_LEN..pos + HEADER_LEN + |c.data|] == c.data;
  }

  lemma Uint16Bytes(packet: seq<Byte>, pos: nat)
    requires pos + 2 <= |packet|
    ensures var v := Uint16At(packet, pos); packet[pos] == v % 256 && packet[pos + 1] == v / 256
  {
  }

  /** A chunk is read exactly where its encoding stands; where none does, the reading of the packet ends. */
  lemma NextChunkDecides(packet: seq<Byte>, pos: nat, c: Chunk)
    requires pos <= |packet|
    ensures NextChunk(packet, pos) == Some(c) <==> Encodable(c) && EncodeChunk(c) <= packet[pos..]
  {
    if Encodable(c) && EncodeChunk(c) <= packet[pos..] {
      var n := pos + |EncodeChunk(c)|;
      assert packet == packet[..pos] + EncodeChunk(c) + packet[n..];
      NextChunkOfEncoding(c, packet[..pos], packet[n..]);
    }
    if NextChunk(packet, pos) == Some(c) {
      Uint16Bytes(packet, pos);
      Uint16Bytes(packet, pos + 2);
      Uint16Bytes(packet, pos + 4);
      assert packet[pos..pos + HEADER_LEN] == EncodeHeader(c);
      assert packet[pos..pos + |EncodeChunk(c)|] == EncodeChunk(c);
    }
  }

  /** The two bytes of a number, the low one first. */
  ghost predicate IsShort(packet: seq<Byte>, pos: nat, n: nat)
    requires pos + 2 <= |packet|
  {
    n == packet[pos] as int + 256 * packet[pos + 1] as int
  }

  /** Identifier, start and length of a chunk, whether it is the last, and its data, one behind the other. */
  ghost predicate StandsAt(packet: seq<Byte>, pos: nat, c: Chunk) {
    && pos + 7 + |c.data| <= |packet|
    && IsShort(packet, pos, c.frameId) && IsShort(packet, pos + 2, c.start) && IsShort(packet, pos + 4, |c.data|)
    && packet[pos + 6] == (if c.isLast then 1 else 0) && packet[pos + 7..pos + 7 + |c.data|] == c.data
  }

  /** What is read as a chunk, byte by byte. */
  lemma ChunkLayout(packet: seq<Byte>, pos: nat, c: Chunk)
    requires pos <= |packet|
    ensures NextChunk(packet, pos) == Some(c) <==> StandsAt(packet, pos, c)
  {
  }

  lemma {:induction false} EncodePacketPrepend(c: Chunk, cs: seq<Chunk>)
    requires Encodable(c) && AllEncodable(cs)
    ensures EncodePacket([c] + cs) == EncodeChunk(c) + EncodePacket(cs)
  {
    hide EncodeChunk;
    var all := [c] + cs;
    if cs == [] {
      assert all[..0] == [];
    } else {
      var init, last := cs[..|cs| - 1], cs[|cs| - 1];
      EncodePacketPrepend(c, init);
      assert all[..|all| - 1] == [c] + init;
    }
  }

  lemma NothingLeft(packet: seq<Byte>)
    ensures ParsePacket(packet, |packet|) == []
  {
  }

  lemma {:induction false} ParseInvertsEncodeAt(cs: seq<Chunk>, before: seq<Byte>)
    requires AllEncodable(cs)
    ensures ParsePacket(before + EncodePacket(cs), |before|) == cs
    decreases |cs|
  {
    hide EncodeChunk, NextChunk, Encodable;
    if cs == [] {
      assert before + [] == before;
      NothingLeft(before);
    } else {
      var c, rest := cs[0], cs[1..];
      assert cs == [c] + rest;
      EncodePacketPrepend(c, rest);
      NextChunkOfEncoding(c, before, EncodePacket(rest));
      ParseInvertsEncodeAt(rest, before + EncodeChunk(c));
      assert before + EncodePacket(cs) == before + EncodeChunk(c) + EncodePacket(rest);
    }
  }

  /** Reading a packet gives back exactly the chunks that were written to it. */
  lemma ParseInvertsEncode(cs: seq<Chunk>)
    requires AllEncodable(cs)
    ensures ParsePacket(EncodePacket(cs), 0) == cs
  {
    assert [] + EncodePacket(cs) == EncodePacket(cs);
    ParseInvertsEncodeAt(cs, []);
  }
}
