/** The disassembler as it runs, writing chunk headers and data into the packet buffer it was handed. */
module Disassembler {
  import opened Bytes
  import opened FragmentProto
  import opened DisassemblerSpec

  lemma AppendChunk(cs: seq<Chunk>, c: Chunk)
    requires AllEncodable(cs) && Encodable(c)
    ensures AllEncodable(cs + [c])
    ensures EncodePacket(cs + [c]) == EncodePacket(cs) + EncodeChunk(c)
    ensures PacketLen(cs + [c]) == PacketLen(cs) + HEADER_LEN + |c.data|
  {
    assert (cs + [c])[..|cs|] == cs;
  }

  lemma CarriedAppend(cs: seq<Chunk>, c: Chunk)
    ensures Carried(cs + [c]) == Carried(cs) + |c.data|
  {
    if cs == [] {
      assert [c][1..] == [];
    } else {
      CarriedAppend(cs[1..], c);
      assert (cs + [c])[1..] == cs[1..] + [c];
    }
  }

  lemma CarriedOfNone()
    ensures Carried([]) == 0
  {
  }

  lemma NextPieceIs(cfg: Config, id: nat, frame: seq<Byte>, used: nat, room: nat, n: nat)
    requires ConfigOk(cfg) && used <= |frame| && room > 0
    requires n == var m := Min(|frame| - used, room); if cfg.chunkMtu > 0 then Min(m, cfg.chunkMtu) else m
    ensures used + n <= |frame| && n <= room
    ensures NextPiece(cfg, id, frame, used, room) == Chunk(id, used, n == |frame| - used, frame[used..used + n])
  {
  }

  lemma EmptyPacket()
    ensures EncodePacket([]) == [] && PacketLen([]) == 0
  {
  }

  /** A run of the code and the step it should take: the same state, and the packet's bytes in place of its chunks. */
  ghost predicate Matches(r: Outcome, st: State, finished: bool, packet: Option<seq<Byte>>) {
    && st == r.st && finished == r.finished
    && match (r.packet, packet)
       case (None, None) => true
       case (Some(cs), Some(bytes)) => AllEncodable(cs) && bytes == EncodePacket(cs)
       case _ => false
  }

  class Disassembler {
    const cfg: Config
    var inLen: int         // -1 while there is no input frame
    var input: seq<Byte>
    var inUsed: nat
    var out: array?<Byte>
    var outUsed: nat
    var frameId: nat
    /** When the timer is due, if it runs, and what the clock says. */
    var timer: Option<int>
    var clock: int
    ghost var begun: int
    ghost var chunks: seq<Chunk>

    ghost function View(): State
      reads this
    {
      State(if inLen < 0 then None else Some(input),
            if inLen < 0 then 0 else inUsed,
            if out == null then None else Some(chunks),
            frameId, timer, begun, clock)
    }

    /** The packet buffer begins with the encoding of the chunks written to it. */
    ghost predicate BufferOk()
      reads this, out
    {
      out != null ==>
        && out.Length == cfg.mtu
        && AllEncodable(chunks)
        && outUsed == PacketLen(chunks) <= out.Length
        && out[..outUsed] == EncodePacket(chunks)
    }

    ghost predicate Valid()
      reads this, out
    {
      && ConfigOk(cfg)
      && StateOk(cfg, View())
      && (inLen >= 0 ==> inLen == |input|)
      && BufferOk()
    }

    constructor (cfg: Config)
      requires ConfigOk(cfg)
      ensures Valid() && this.cfg == cfg && View() == FRESH
    {
      this.cfg := cfg;
      inLen, input, inUsed, out, outUsed, frameId, timer, clock := -1, [], 0, null, 0, 0, None, 0;
      chunks, begun := [], 0;
    }

    lemma BufferLen()
      requires BufferOk() && out != null
      ensures outUsed == PacketLen(chunks) && AllEncodable(chunks) && outUsed <= out.Length == cfg.mtu
    {
    }

    /** Writes one chunk header and its data after what the packet holds. */
    method WriteChunk(chunkLen: nat)
      requires out != null && BufferOk() && 0 <= inLen == |input| <= UINT16_MAX && frameId <= UINT16_MAX
      requires inUsed + chunkLen <= inLen && outUsed + HEADER_LEN + chunkLen <= cfg.mtu
      modifies out, this`chunks, this`inUsed, this`outUsed
      ensures BufferOk()
      ensures chunks == old(chunks) + [Chunk(frameId, old(inUsed), chunkLen == inLen - old(inUsed), input[old(inUsed)..old(inUsed) + chunkLen])]
      ensures inUsed == old(inUsed) + chunkLen && outUsed == old(outUsed) + HEADER_LEN + chunkLen
    {
      hide EncodePacket, EncodeHeader, PacketLen;
      var c := Chunk(frameId, inUsed, chunkLen == inLen - inUsed, input[inUsed..inUsed + chunkLen]);
      AppendChunk(chunks, c);
      PutChunk(c);
      inUsed := inUsed + chunkLen;
      outUsed := outUsed + HEADER_LEN + chunkLen;
      chunks := chunks + [c];
    }

    method PutChunk(c: Chunk)
      requires out != null && Encodable(c) && outUsed + HEADER_LEN + |c.data| <= out.Length
      modifies out
      ensures out[..outUsed + HEADER_LEN + |c.data|] == old(out[..outUsed]) + EncodeHeader(c) + c.data
    {
      hide EncodeHeader;
      var at := outUsed + HEADER_LEN;
      CopyTo(out, outUsed, EncodeHeader(c));
      ghost var before := out[..at];
      assert before == old(out[..outUsed]) + EncodeHeader(c);
      CopyTo(out, at, c.data);
      assert out[..at + |c.data|] == out[..at] + out[at..at + |c.data|];
    }

    /** One round of the loop of write_chunks: as much of the frame as there is room for is written, or as a chunk may carry. */
    method WriteNext()
      requires ConfigOk(cfg) && BufferOk() && 0 <= inLen == |input| <= UINT16_MAX && frameId <= UINT16_MAX
      requires out != null && inUsed <= inLen && Room(cfg, outUsed) > 0
      modifies this`chunks, this`inUsed, this`outUsed, out
      ensures BufferOk()
      ensures var c := NextPiece(cfg, frameId, input, old(inUsed), Room(cfg, old(outUsed)));
        && chunks == old(chunks) + [c] && inUsed == old(inUsed) + |c.data| <= inLen
        && outUsed == old(outUsed) + HEADER_LEN + |c.data|
    {
      hide BufferOk, NextPiece;
      BufferLen();
      var chunkLen := Min(inLen - inUsed, cfg.mtu - outUsed - HEADER_LEN);
      if cfg.chunkMtu > 0 {
        chunkLen := Min(chunkLen, cfg.chunkMtu);
      }
      NextPieceIs(cfg, frameId, input, inUsed, Room(cfg, outUsed), chunkLen);
      WriteChunk(chunkLen);
    }

    /** The loop of write_chunks: chunks are written until the frame is done or the packet is full. */
    method FillPacket()
      requires ConfigOk(cfg) && BufferOk() && 0 <= inLen == |input| <= UINT16_MAX && frameId <= UINT16_MAX
      requires out != null && inUsed <= inLen && Room(cfg, outUsed) > 0
      modifies this`chunks, this`inUsed, this`outUsed, out
      ensures BufferOk()
      ensures var cs := Cut(cfg, frameId, input, old(inUsed), Room(cfg, old(outUsed)));
        chunks == old(chunks) + cs && inUsed == old(inUsed) + Carried(cs) <= inLen
    {
      hide BufferOk, Cut, Carried, NextPiece;
      ghost var done: seq<Chunk> := [];
      ghost var todo := Cut(cfg, frameId, input, inUsed, Room(cfg, outUsed));
      assert chunks + done == chunks;
      assert done + todo == todo;
      var more := true;
      CarriedOfNone();
      while more
        invariant BufferOk() && 0 <= inLen
        invariant chunks == old(chunks) + done
        invariant inUsed == old(inUsed) + Carried(done) <= inLen
        invariant more ==> Room(cfg, outUsed) > 0 && todo == Cut(cfg, frameId, input, inUsed, Room(cfg, outUsed))
        invariant !more ==> todo == []
        invariant Cut(cfg, frameId, input, old(inUsed), Room(cfg, old(outUsed))) == done + todo
        decreases more, inLen - inUsed
      {
        CutFirst(cfg, frameId, input, inUsed, Room(cfg, outUsed));
        ghost var c := NextPiece(cfg, frameId, input, inUsed, Room(cfg, outUsed));
        CarriedAppend(done, c);
        WriteNext();
        assert todo == [c] + todo[1..] && done + todo == done + [c] + todo[1..];
        done, todo := done + [c], todo[1..];
        more := inLen - inUsed > 0 && cfg.mtu - outUsed - HEADER_LEN > 0;
      }
      assert done + [] == done;
    }

    method WriteChunks() returns (finished: bool, packet: Option<seq<Byte>>)
      requires ConfigOk(cfg) && BufferOk() && 0 <= inLen == |input| <= UINT16_MAX && frameId <= UINT16_MAX
      requires out != null && CanWrite(cfg, View()) && TimerOk(cfg, View())
      modifies this`chunks, this`inUsed, this`outUsed, this`inLen, this`frameId, this`out, this`timer, this`begun, out
      ensures Valid()
      ensures Matches(DisassemblerSpec.WriteChunks(cfg, old(View())), View(), finished, packet)
    {
      hide EncodePacket, PacketLen, Cut, Carried, Encodable;
      WriteChunksKeepsOk(cfg, View());
      begun := if chunks == [] then clock else begun;
      FillPacket();
      finished := inLen == inUsed;
      if finished {
        inLen := -1;
        frameId := (frameId + 1) % FRAME_ID_LIMIT;
      }
      packet := HandOver();
    }

    /** A packet that is full or must not wait is handed over; for another the timer runs. */
    method HandOver() returns (packet: Option<seq<Byte>>)
      requires out != null && outUsed <= out.Length
      modifies this`out, this`timer
      ensures if Room(cfg, outUsed) <= 0 || cfg.latency < 0 then
          packet == Some(old(out[..outUsed])) && out == null && timer == None
        else
          packet == None && out == old(out) && timer == if old(timer).Some? then old(timer) else Some(clock + cfg.latency)
    {
      packet := None;
      if cfg.mtu - outUsed - HEADER_LEN <= 0 || cfg.latency < 0 {
        packet := Some(out[..outUsed]);
        out := null;
        timer := None;
      } else if timer == None {
        timer := Some(clock + cfg.latency);
      }
    }

    /** A frame arrives to be sent. */
    method InputSend(data: seq<Byte>) returns (finished: bool, packet: Option<seq<Byte>>)
      requires Valid() && Legal(View(), Send(data))
      modifies this, out
      ensures Valid()
      ensures Matches(Step(cfg, old(View()), Send(data)), View(), finished, packet)
    {
      hide EncodePacket, PacketLen, DisassemblerSpec.WriteChunks, AllEncodable;
      StepKeepsOk(cfg, View(), Send(data));
      inLen, input, inUsed := |data|, data, 0;
      if out == null {
        return false, None;
      }
      finished, packet := WriteChunks();
    }

    /** The packet buffer is handed over. */
    method OutputRecv(buffer: array<Byte>) returns (finished: bool, packet: Option<seq<Byte>>)
      requires Valid() && Legal(View(), Request) && buffer.Length == cfg.mtu
      modifies this, buffer
      ensures Valid()
      ensures Matches(Step(cfg, old(View()), Request), View(), finished, packet)
    {
      hide EncodePacket, DisassemblerSpec.WriteChunks;
      StepKeepsOk(cfg, View(), Request);
      out, outUsed, chunks := buffer, 0, [];
      EmptyPacket();
      if inLen < 0 {
        return false, None;
      }
      finished, packet := WriteChunks();
    }

    /** The packet being filled has waited long enough. */
    method TimerExpired() returns (packet: Option<seq<Byte>>)
      requires Valid() && Legal(View(), Timer)
      modifies this
      ensures Valid()
      ensures Matches(Step(cfg, old(View()), Timer), View(), false, packet)
    {
      hide EncodePacket, PacketLen;
      StepKeepsOk(cfg, View(), Timer);
      packet := Some(out[..outUsed]);
      timer := None;
      out := null;
    }

    /** Time passes. */
    method Elapse(dt: nat)
      requires Valid()
      modifies this`clock
      ensures Valid()
      ensures View() == Step(cfg, old(View()), Tick(dt)).st
    {
      StepKeepsOk(cfg, View(), Tick(dt));
      clock := clock + dt;
    }
  }
}
