/** The disassembler and the assembler together: what is sent in frames is received as frames. */
module FragmentRoundTrip {
  import opened Bytes
  import opened FragmentProto
  import A = AssemblerSpec
  import D = DisassemblerSpec

  // ----- the receiving side, a packet at a time

  datatype Received = Received(st: A.State, frames: seq<seq<Byte>>)

  function Emitted(frame: Option<seq<Byte>>): seq<seq<Byte>> {
    match frame
    case None => []
    case Some(x) => [x]
  }

  /** The arrival of chunks one after the other. */
  function Take(cfg: A.Config, st: A.State, cs: seq<Chunk>): Received
    requires A.ConfigOk(cfg)
    decreases |cs|
  {
    if cs == [] then Received(st, [])
    else
      var r := A.Arrive(cfg, st, cs[0]);
      var rest := Take(cfg, r.st, cs[1..]);
      Received(rest.st, Emitted(r.frame) + rest.frames)
  }

  function Deliver(cfg: A.Config, st: A.State, cs: seq<Chunk>, purge: bool): Received
    requires A.ConfigOk(cfg)
  {
    var t := Take(cfg, st, cs);
    Received(A.EndPacket(cfg, t.st, purge), t.frames)
  }

  /** Handing frames out one by one and resuming after each delivers the same as taking the whole packet. */
  lemma {:induction false} ResumingDelivers(cfg: A.Config, st: A.State, cs: seq<Chunk>, purge: bool)
    requires A.ConfigOk(cfg)
    ensures var p, d := A.Feed(cfg, st, cs, purge), Deliver(cfg, st, cs, purge);
      match p.frame
      case None => d == Received(p.st, []) && p.rest == []
      case Some(x) =>
        var d' := Deliver(cfg, p.st, p.rest, purge);
        d == Received(d'.st, [x] + d'.frames) && |p.rest| < |cs|
    decreases |cs|
  {
    hide A.Arrive, A.EndPacket;
    if cs != [] {
      var r := A.Arrive(cfg, st, cs[0]);
      if r.frame.None? {
        ResumingDelivers(cfg, r.st, cs[1..], purge);
      }
    }
  }

  lemma {:induction false} TakeAppend(cfg: A.Config, st: A.State, cs: seq<Chunk>, ds: seq<Chunk>)
    requires A.ConfigOk(cfg)
    ensures var t := Take(cfg, st, cs);
      var u := Take(cfg, t.st, ds);
      Take(cfg, st, cs + ds) == Received(u.st, t.frames + u.frames)
    decreases |cs|
  {
    hide A.Arrive;
    if cs == [] {
      assert cs + ds == ds;
    } else {
      TakeAppend(cfg, A.Arrive(cfg, st, cs[0]).st, cs[1..], ds);
      assert (cs + ds)[1..] == cs[1..] + ds;
    }
  }

  // ----- how many chunks a frame comes in

  /** The number of chunks for the rest of a frame, when the first may carry as much as the room allows. */
  function ChunksNeeded(cfg: D.Config, left: nat, room: nat): (n: nat)
    requires D.ConfigOk(cfg) && room > 0
    ensures n > 0
    decreases left
  {
    var k := D.ChunkLen(cfg, left, room);
    var room' := room - HEADER_LEN - k;
    if left - k == 0 then 1
    else 1 + ChunksNeeded(cfg, left - k, if room' > 0 then room' else cfg.mtu - HEADER_LEN)
  }

  /** Wherever in a packet a frame of the given length starts, it comes in no more chunks than an entry can hold. */
  ghost predicate ChunksSuffice(dcfg: D.Config, acfg: A.Config, len: nat)
    requires D.ConfigOk(dcfg)
  {
    forall room: nat | 0 < room <= dcfg.mtu - HEADER_LEN :: ChunksNeeded(dcfg, len, room) <= acfg.numChunks
  }

  // ----- a frame under way

  /** A partial frame holds exactly the first part of a frame. */
  ghost predicate Holds(f: A.Partial, id: nat, frame: seq<Byte>, used: nat) {
    && f.id == id && f.length.None?
    && A.Within(f.pieces, used) && A.Covers(f.pieces, used)
    && used <= |frame|
    && forall k | 0 <= k < |f.pieces| :: f.pieces[k].End() <= |frame| && f.pieces[k].data == frame[f.pieces[k].start..f.pieces[k].End()]
  }

  /** No entry that has not timed out is under an identifier. */
  ghost predicate NotHeld(cfg: A.Config, st: A.State, id: nat) {
    var k := A.IndexOf(st.frames, id);
    k < |st.frames| ==> A.TimedOut(cfg, st.frames[k], st.clock)
  }

  ghost predicate Collecting(cfg: A.Config, st: A.State, id: nat, frame: seq<Byte>, used: nat, toCome: nat) {
    var k := A.IndexOf(st.frames, id);
    && k < |st.frames|
    && Holds(st.frames[k], id, frame, used)
    && st.clock <= st.frames[k].last + 1
    && |st.frames[k].pieces| + toCome <= cfg.numChunks
  }

  /** Whatever else the receiver has, it has the first part of the frame being sent, and can hold as many chunks as are to come. */
  ghost predicate InStep(cfg: A.Config, st: A.State, id: nat, frame: seq<Byte>, used: nat, toCome: nat) {
    && A.StateOk(cfg, st)
    && if used == 0 then NotHeld(cfg, st, id) && toCome <= cfg.numChunks else Collecting(cfg, st, id, frame, used, toCome)
  }

  /** The entry under an identifier is from the packet that is arriving. */
  ghost predicate Latest(st: A.State, id: nat) {
    var k := A.IndexOf(st.frames, id);
    k < |st.frames| && st.frames[k].last == st.clock
  }

  ghost predicate NoneOf(frames: seq<A.Partial>, id: nat) {
    forall f | f in frames :: f.id != id
  }

  /** Entries under other identifiers may go but not come. */
  ghost predicate NoOthers(before: seq<A.Partial>, after: seq<A.Partial>, id: nat) {
    forall f | f in after && f.id != id :: f in before
  }

  /** The entry a chunk of the frame goes to, with room for it and for what is to come. */
  lemma PreparedInStep(cfg: A.Config, st: A.State, id: nat, frame: seq<Byte>, used: nat, toCome: nat)
    requires A.ConfigOk(cfg) && InStep(cfg, st, id, frame, used, toCome)
    ensures var frames := A.Prepare(cfg, st, id);
      var k := A.IndexOf(frames, id);
      && A.FramesOk(cfg, frames, st.clock) && k < |frames|
      && Holds(frames[k], id, frame, used)
      && |frames[k].pieces| + toCome <= cfg.numChunks
  {
    hide A.Prepare, A.PartialOk;
    A.PrepareKeepsOk(cfg, st, id);
    A.PrepareChooses(cfg, st, id);
  }

  lemma CoversMore(ps: seq<A.Piece>, used: nat, p: A.Piece)
    requires A.Covers(ps, used) && p.start == used
    ensures A.Covers(ps + [p], p.End())
  {
    var ps' := ps + [p];
    forall i: nat | i < p.End() ensures A.Touched(ps', i) {
      if i < used {
        assert A.Touched(ps, i);
        var k :| 0 <= k < |ps| && ps[k].Contains(i);
        assert ps'[k].Contains(i);
      } else {
        assert ps'[|ps|].Contains(i);
      }
    }
  }

  lemma {:induction false} ByteAtOfFrame(ps: seq<A.Piece>, frame: seq<Byte>, i: nat)
    requires forall k | 0 <= k < |ps| :: ps[k].End() <= |frame| && ps[k].data == frame[ps[k].start..ps[k].End()]
    requires A.Touched(ps, i)
    ensures i < |frame| && A.ByteAt(ps, i) == frame[i]
  {
    var p := ps[|ps| - 1];
    if !p.Contains(i) {
      A.TouchedByLast(ps, i);
      ByteAtOfFrame(ps[..|ps| - 1], frame, i);
    }
  }

  /** A chunk that carries the frame on fits what is held of it. */
  lemma NextChunkFits(f: A.Partial, id: nat, frame: seq<Byte>, used: nat, p: A.Piece, isLast: bool, clock: nat)
    requires Holds(f, id, frame, used)
    requires p.start == used && p.End() <= |frame| && p.data == frame[used..p.End()]
    requires isLast <==> p.End() == |frame|
    ensures A.Fits(f, p, isLast)
    ensures var f' := A.Add(f, p, isLast, clock);
      && (!isLast ==> !A.Complete(f') && Holds(f', id, frame, p.End()))
      && (isLast ==> A.Complete(f') && A.Assembled(f') == frame)
  {
    var f' := A.Add(f, p, isLast, clock);
    CoversMore(f.pieces, used, p);
    if isLast {
      forall i: nat | i < |frame| ensures A.Assembled(f')[i] == frame[i] {
        ByteAtOfFrame(f'.pieces, frame, i);
      }
    }
  }

  /** One chunk: the last one completes the frame, any other keeps the receiver in step. */
  lemma OneChunk(cfg: A.Config, st: A.State, c: Chunk, id: nat, frame: seq<Byte>, used: nat, toCome: nat)
    requires A.ConfigOk(cfg) && |frame| <= cfg.frameMtu && D.Continues(c, id, frame, used)
    requires InStep(cfg, st, id, frame, used, toCome)
    requires if c.isLast then toCome > 0 else toCome > 1 && c.data != []
    ensures var r := A.Arrive(cfg, st, c);
      && r.st.clock == st.clock && A.StateOk(cfg, r.st)
      && NoOthers(st.frames, r.st.frames, id)
      && if c.isLast then
           NoneOf(r.st.frames, id) && r.frame == Some(frame)
         else
           r.frame == None && Latest(r.st, id) && InStep(cfg, r.st, id, frame, used + |c.data|, toCome - 1)
  {
    hide A.Fits, A.Complete, A.Assembled, Holds, A.Prepare, A.Arrive, A.StateOk, NoOthers;
    var p := A.Piece(c.start, c.data);
    var frames := A.Prepare(cfg, st, id);
    var k := A.IndexOf(frames, id);
    PreparedInStep(cfg, st, id, frame, used, toCome);
    NextChunkFits(frames[k], id, frame, used, p, c.isLast, st.clock);
    A.ArriveKeepsOk(cfg, st, c);
    NoOthersCome(cfg, st, c);
    OneChunkPlaced(cfg, st, c, frame, used);
  }

  lemma OneChunkPlaced(cfg: A.Config, st: A.State, c: Chunk, frame: seq<Byte>, used: nat)
    requires A.ConfigOk(cfg) && |frame| <= cfg.frameMtu && D.Continues(c, c.frameId, frame, used)
    requires var frames, p := A.Prepare(cfg, st, c.frameId), A.Piece(c.start, c.data);
      var k := A.IndexOf(frames, c.frameId);
      && A.FramesOk(cfg, frames, st.clock) && k < |frames|
      && A.Fits(frames[k], p, c.isLast)
      && var f' := A.Add(frames[k], p, c.isLast, st.clock);
      if c.isLast then A.Complete(f') && A.Assembled(f') == frame else !A.Complete(f') && |f'.pieces| < cfg.numChunks
    ensures var r, frames := A.Arrive(cfg, st, c), A.Prepare(cfg, st, c.frameId);
      var k := A.IndexOf(frames, c.frameId);
      && r.st.clock == st.clock
      && if c.isLast then
        NoneOf(r.st.frames, c.frameId) && r.frame == Some(frame)
      else
        && r.frame == None && A.IndexOf(r.st.frames, c.frameId) == k < |r.st.frames|
        && r.st.frames[k] == A.Add(frames[k], A.Piece(c.start, c.data), false, st.clock)
  {
    hide A.Fits, A.Complete, A.Assembled, A.Prepare, A.PartialOk;
    var frames := A.Prepare(cfg, st, c.frameId);
    var k := A.IndexOf(frames, c.frameId);
    A.WithoutKeepsOk(cfg, frames, k, st.clock);
    A.UpdateKeepsIndex(frames, k, A.Add(frames[k], A.Piece(c.start, c.data), false, st.clock));
  }

  lemma NoOthersCome(cfg: A.Config, st: A.State, c: Chunk)
    requires A.ConfigOk(cfg) && A.StateOk(cfg, st)
    ensures NoOthers(st.frames, A.Arrive(cfg, st, c).st.frames, c.frameId)
  {
    hide A.Arrive, A.StateOk;
    forall f | f in A.Arrive(cfg, st, c).st.frames && f.id != c.frameId
      ensures f in st.frames
    {
      A.ArriveKeepsOthers(cfg, st, c, f);
    }
  }

  /** Chunks that carry the frame on complete it at its end, and keep the receiver in step before that. */
  lemma {:induction false} ChunksTaken(cfg: A.Config, st: A.State, cs: seq<Chunk>, id: nat, frame: seq<Byte>, used: nat, toCome: nat)
    requires A.ConfigOk(cfg) && |frame| <= cfg.frameMtu && cs != [] && D.CarryOn(cs, id, frame, used) && D.Steady(cs)
    requires InStep(cfg, st, id, frame, used, toCome)
    requires |cs| + (if cs[|cs| - 1].isLast then 0 else 1) <= toCome
    ensures var t := Take(cfg, st, cs);
      && t.st.clock == st.clock && A.StateOk(cfg, t.st)
      && NoOthers(st.frames, t.st.frames, id)
      && if cs[|cs| - 1].isLast then
           NoneOf(t.st.frames, id) && t.frames == [frame]
         else
           t.frames == [] && Latest(t.st, id) && InStep(cfg, t.st, id, frame, used + D.Carried(cs), toCome - |cs|)
    decreases |cs|
  {
    hide InStep, A.Arrive, A.StateOk, D.Steady, Latest, NoneOf, Take;
    var c, rest := cs[0], cs[1..];
    var r := A.Arrive(cfg, st, c);
    D.SteadyFirst(cs);
    OneChunk(cfg, st, c, id, frame, used, toCome);
    assert cs == [c] + rest;
    TakeFirst(cfg, st, c, rest);
    TakeOne(cfg, r.st);
    if rest != [] {
      ChunksTaken(cfg, r.st, rest, id, frame, used + |c.data|, toCome - 1);
      D.CarriedMore(c, rest);
    }
  }

  /** The receiver after some of a frame has been written to a packet that is now full. */
  ghost predicate Paused(acfg: A.Config, dcfg: D.Config, st: A.State, id: nat, frame: seq<Byte>, used: nat)
    requires D.ConfigOk(dcfg)
  {
    && 0 < used < |frame|
    && InStep(acfg, st, id, frame, used, ChunksNeeded(dcfg, |frame| - used, dcfg.mtu - HEADER_LEN))
    && Latest(st, id)
  }

  /** A run of chunks cut from a frame for one packet: it completes the frame or leaves the receiver in step. */
  lemma CutTaken(acfg: A.Config, dcfg: D.Config, st: A.State, id: nat, frame: seq<Byte>, used: nat, room: nat)
    requires A.ConfigOk(acfg) && D.ConfigOk(dcfg)
    requires used <= |frame| <= acfg.frameMtu && room > 0 && |frame| <= UINT16_MAX && id <= UINT16_MAX
    requires InStep(acfg, st, id, frame, used, ChunksNeeded(dcfg, |frame| - used, room))
    ensures var cs := D.Cut(dcfg, id, frame, used, room);
      var r, used' := Take(acfg, st, cs), used + D.Carried(cs);
      && r.st.clock == st.clock && A.StateOk(acfg, r.st)
      && NoOthers(st.frames, r.st.frames, id)
      && if used' == |frame| then
           NoneOf(r.st.frames, id) && r.frames == [frame]
         else
           r.frames == [] && Paused(acfg, dcfg, r.st, id, frame, used')
  {
    hide InStep, ChunksNeeded, D.ChunkLen, D.NextPiece, D.Cut, D.Carried, Take, D.Steady, D.CarryOn, A.StateOk, Latest, NoneOf, NoOthers;
    var cs := D.Cut(dcfg, id, frame, used, room);
    D.CutCarries(dcfg, id, frame, used, room);
    D.CutSteady(dcfg, id, frame, used, room);
    D.CarryOnEnd(cs, id, frame, used);
    CutCount(dcfg, id, frame, used, room);
    ChunksTaken(acfg, st, cs, id, frame, used, ChunksNeeded(dcfg, |frame| - used, room));
  }

  lemma TakeFirst(cfg: A.Config, st: A.State, c: Chunk, cs: seq<Chunk>)
    requires A.ConfigOk(cfg)
    ensures var r := A.Arrive(cfg, st, c);
      var rest := Take(cfg, r.st, cs);
      Take(cfg, st, [c] + cs) == Received(rest.st, Emitted(r.frame) + rest.frames)
  {
    hide A.Arrive;
    assert ([c] + cs)[1..] == cs;
  }

  lemma TakeOne(cfg: A.Config, st: A.State)
    requires A.ConfigOk(cfg)
    ensures Take(cfg, st, []) == Received(st, []) && D.Carried([]) == 0
  {
  }

  // ----- whole runs of the sender

  datatype Sent = Sent(st: D.State, packets: seq<seq<Chunk>>, finished: seq<seq<Byte>>)

  ghost predicate PacketsOk(cfg: D.Config, packets: seq<seq<Chunk>>) {
    forall k | 0 <= k < |packets| :: D.PacketOk(cfg, packets[k])
  }

  ghost function Next(cfg: D.Config, s: Sent, e: D.Event): (s': Sent)
    requires D.ConfigOk(cfg) && D.StateOk(cfg, s.st) && D.Legal(s.st, e)
    requires PacketsOk(cfg, s.packets)
    ensures D.StateOk(cfg, s'.st)
    ensures PacketsOk(cfg, s'.packets)
  {
    hide D.Step, D.PacketOk;
    D.StepKeepsOk(cfg, s.st, e);
    var r := D.Step(cfg, s.st, e);
    var frame := match e
      case Send(frame) => frame
      case _ => if s.st.frame.Some? then s.st.frame.value else [];
    Sent(r.st,
         if r.packet.Some? then s.packets + [r.packet.value] else s.packets,
         if r.finished then s.finished + [frame] else s.finished)
  }

  /** The events are ones that the interfaces of the disassembler allow, one after the other. */
  ghost predicate LegalRun(cfg: D.Config, events: seq<D.Event>)
    requires D.ConfigOk(cfg)
    decreases |events|, 2
  {
    events == [] ||
    var init := events[..|events| - 1];
    LegalRun(cfg, init) && D.Legal(SendAll(cfg, init).st, events[|events| - 1])
  }

  ghost function SendAll(cfg: D.Config, events: seq<D.Event>): (s: Sent)
    requires D.ConfigOk(cfg) && LegalRun(cfg, events)
    ensures D.StateOk(cfg, s.st)
    ensures PacketsOk(cfg, s.packets)
    decreases |events|, 3
  {
    if events == [] then Sent(D.FRESH, [], [])
    else Next(cfg, SendAll(cfg, events[..|events| - 1]), events[|events| - 1])
  }

  /** Packets delivered in order and without loss; purge tells at the end of which packets timed-out entries are dropped. */
  function DeliverAll(cfg: A.Config, packets: seq<seq<Chunk>>, purge: nat -> bool): Received
    requires A.ConfigOk(cfg)
  {
    if packets == [] then Received(A.FRESH, [])
    else
      var d := DeliverAll(cfg, packets[..|packets| - 1], purge);
      var r := Deliver(cfg, d.st, packets[|packets| - 1], purge(|packets| - 1));
      Received(r.st, d.frames + r.frames)
  }

  function Unsent(st: D.State): seq<Chunk> {
    if st.out.Some? then st.out.value else []
  }

  /** What has been received when the packet being filled is counted in. */
  function ReceivedSoFar(cfg: A.Config, s: Sent, purge: nat -> bool): Received
    requires A.ConfigOk(cfg)
  {
    var d := DeliverAll(cfg, s.packets, purge);
    var t := Take(cfg, d.st, Unsent(s.st));
    Received(t.st, d.frames + t.frames)
  }

  ghost predicate InSync(acfg: A.Config, dcfg: D.Config, s: Sent, r: Received)
    requires D.ConfigOk(dcfg)
  {
    && r.frames == s.finished && A.StateOk(acfg, r.st)
    && match s.st.frame
       case None => r.st.frames == []
       case Some(frame) =>
         && |frame| <= acfg.frameMtu && s.st.used <= |frame|
         && (forall f | f in r.st.frames :: f.id == s.st.frameId)
         && InStep(acfg, r.st, s.st.frameId, frame, s.st.used, ChunksNeeded(dcfg, |frame| - s.st.used, dcfg.mtu - HEADER_LEN))
  }

  /** Writing the input frame: what the new chunks do at the receiver. */
  lemma WriteTaken(acfg: A.Config, dcfg: D.Config, st: D.State, recv: A.State)
    requires A.ConfigOk(acfg) && D.ConfigOk(dcfg) && D.CanWrite(dcfg, st)
    requires |st.frame.value| <= UINT16_MAX && st.frameId <= UINT16_MAX
    requires var frame := st.frame.value;
      && |frame| <= acfg.frameMtu
      && InStep(acfg, recv, st.frameId, frame, st.used,
                ChunksNeeded(dcfg, |frame| - st.used, D.Room(dcfg, D.PacketLen(st.out.value))))
    ensures var r, frame := D.WriteChunks(dcfg, st), st.frame.value;
      var cs := D.Cut(dcfg, st.frameId, frame, st.used, D.Room(dcfg, D.PacketLen(st.out.value)));
      var t := Take(acfg, recv, cs);
      && (if r.packet.Some? then r.packet.value == st.out.value + cs && r.st.out.None?
          else r.st.out == Some(st.out.value + cs))
      && A.StateOk(acfg, t.st) && NoOthers(recv.frames, t.st.frames, st.frameId)
      && if r.finished then
           r.st.frame.None? && t.frames == [frame] && NoneOf(t.st.frames, st.frameId)
         else
           && r.packet.Some? && r.st.frame == Some(frame) && r.st.frameId == st.frameId
           && t.frames == [] && Paused(acfg, dcfg, t.st, st.frameId, frame, r.st.used)
  {
    hide D.Cut, Take, InStep, ChunksNeeded, D.PacketLen, D.Carried, NoOthers, NoneOf, A.StateOk;
    var frame, room := st.frame.value, D.Room(dcfg, D.PacketLen(st.out.value));
    var cs := D.Cut(dcfg, st.frameId, frame, st.used, room);
    CutTaken(acfg, dcfg, recv, st.frameId, frame, st.used, room);
    D.CutCarries(dcfg, st.frameId, frame, st.used, room);
    D.PacketLenAppend(st.out.value, cs);
  }

  /** Counting a full packet as delivered rather than as being filled only ends it at the receiver. */
  lemma PacketDelivered(cfg: A.Config, packets: seq<seq<Chunk>>, packet: seq<Chunk>, purge: nat -> bool)
    requires A.ConfigOk(cfg)
    ensures var d := DeliverAll(cfg, packets, purge);
      var t := Take(cfg, d.st, packet);
      DeliverAll(cfg, packets + [packet], purge) ==
        Received(A.EndPacket(cfg, t.st, purge(|packets|)), d.frames + t.frames)
  {
    assert (packets + [packet])[..|packets|] == packets;
  }

  /** One writing step of the sender keeps the two sides in step. */
  lemma WriteInSync(acfg: A.Config, dcfg: D.Config, s: Sent, st: D.State, purge: nat -> bool)
    requires A.ConfigOk(acfg) && D.ConfigOk(dcfg) && D.CanWrite(dcfg, st)
    requires |st.frame.value| <= UINT16_MAX && st.frameId <= UINT16_MAX
    requires st.out.value == Unsent(s.st)
    requires var frame, r := st.frame.value, ReceivedSoFar(acfg, s, purge);
      && r.frames == s.finished
      && |frame| <= acfg.frameMtu && (forall f | f in r.st.frames :: f.id == st.frameId)
      && InStep(acfg, r.st, st.frameId, frame, st.used,
                ChunksNeeded(dcfg, |frame| - st.used, D.Room(dcfg, D.PacketLen(st.out.value))))
    ensures var w := D.WriteChunks(dcfg, st);
      var s' := Sent(w.st,
        if w.packet.Some? then s.packets + [w.packet.value] else s.packets,
        if w.finished then s.finished + [st.frame.value] else s.finished);
      InSync(acfg, dcfg, s', ReceivedSoFar(acfg, s', purge))
  {
    hide D.WriteChunks, D.Cut, Take, InStep, ChunksNeeded, D.PacketLen, DeliverAll, A.EndPacket, A.StateOk;
    var frame, w := st.frame.value, D.WriteChunks(dcfg, st);
    var cs := D.Cut(dcfg, st.frameId, frame, st.used, D.Room(dcfg, D.PacketLen(st.out.value)));
    var d := DeliverAll(acfg, s.packets, purge);
    var r := ReceivedSoFar(acfg, s, purge);
    var t := Take(acfg, r.st, cs);
    WriteTaken(acfg, dcfg, st, r.st);
    TakeAppend(acfg, d.st, st.out.value, cs);
    assert d.frames + (Take(acfg, d.st, st.out.value).frames + t.frames) == r.frames + t.frames;
    if w.packet.Some? {
      PacketDelivered(acfg, s.packets, w.packet.value, purge);
      var ended := DeliverAll(acfg, s.packets + [w.packet.value], purge);
      TakeOne(acfg, ended.st);
      assert ended.frames + [] == ended.frames;
      PacketEnded(acfg, t.st, purge(|s.packets|));
      if !w.finished {
        PauseEnded(acfg, dcfg, t.st, st.frameId, frame, w.st.used, purge(|s.packets|));
      }
      AllGone(ended.st.frames, st.frameId);
    }
    AllGone(t.st.frames, st.frameId);
    assert r.frames + [] == r.frames;
  }

  /** The end of a packet may drop entries, but none that is from that packet. */
  lemma PacketEnded(acfg: A.Config, st: A.State, purge: bool)
    requires A.StateOk(acfg, st)
    ensures var st' := A.EndPacket(acfg, st, purge);
      && A.StateOk(acfg, st') && (forall f | f in st'.frames :: f in st.frames)
      && (forall f | f in st.frames && f.last == st.clock :: f in st'.frames)
  {
    hide A.PartialOk, A.Live;
    A.EndPacketKeepsOk(acfg, st, purge);
    A.LiveKeepsOk(acfg, st.frames, st.clock);
  }

  lemma StepEnded(cfg: A.Config, st: A.State, id: nat, frame: seq<Byte>, used: nat, toCome: nat, purge: bool)
    requires A.ConfigOk(cfg) && used > 0 && InStep(cfg, st, id, frame, used, toCome) && Latest(st, id)
    ensures InStep(cfg, A.EndPacket(cfg, st, purge), id, frame, used, toCome)
  {
    hide A.Live, A.PartialOk, Holds;
    PacketEnded(cfg, st, purge);
    SameEntry(st.frames, A.EndPacket(cfg, st, purge).frames, id);
  }

  lemma PauseEnded(acfg: A.Config, dcfg: D.Config, st: A.State, id: nat, frame: seq<Byte>, used: nat, purge: bool)
    requires A.ConfigOk(acfg) && D.ConfigOk(dcfg) && Paused(acfg, dcfg, st, id, frame, used)
    ensures InStep(acfg, A.EndPacket(acfg, st, purge), id, frame, used, ChunksNeeded(dcfg, |frame| - used, dcfg.mtu - HEADER_LEN))
  {
    hide InStep, A.EndPacket, ChunksNeeded, Latest;
    StepEnded(acfg, st, id, frame, used, ChunksNeeded(dcfg, |frame| - used, dcfg.mtu - HEADER_LEN), purge);
  }

  /** An entry that stays is found under its identifier. */
  lemma SameEntry(frames: seq<A.Partial>, rest: seq<A.Partial>, id: nat)
    requires A.DistinctIds(frames) && forall f | f in rest :: f in frames
    requires var k := A.IndexOf(frames, id); k < |frames| && frames[k] in rest
    ensures var k, k' := A.IndexOf(frames, id), A.IndexOf(rest, id); k' < |rest| && rest[k'] == frames[k]
  {
    hide A.IndexOf, A.DistinctIds;
    var k, k' := A.IndexOf(frames, id), A.IndexOf(rest, id);
    var i :| 0 <= i < |rest| && rest[i] == frames[k];
    A.IndexOfFound(rest, id, i);
    var f := rest[k'];
    assert f in rest;
    SameId(frames, f, frames[k]);
  }

  lemma SameId(frames: seq<A.Partial>, f: A.Partial, g: A.Partial)
    requires A.DistinctIds(frames) && f in frames && g in frames && f.id == g.id
    ensures f == g
  {
  }

  lemma AllGone(frames: seq<A.Partial>, id: nat)
    requires forall f | f in frames :: f.id == id
    ensures NoneOf(frames, id) ==> frames == []
  {
    if frames != [] {
      assert frames[0] in frames;
    }
  }

  lemma StepInSync(acfg: A.Config, dcfg: D.Config, s: Sent, e: D.Event, purge: nat -> bool)
    requires A.ConfigOk(acfg) && D.ConfigOk(dcfg) && D.StateOk(dcfg, s.st) && D.Legal(s.st, e)
    requires PacketsOk(dcfg, s.packets)
    requires e.Send? ==> |e.frame| <= acfg.frameMtu && ChunksSuffice(dcfg, acfg, |e.frame|)
    requires InSync(acfg, dcfg, s, ReceivedSoFar(acfg, s, purge))
    ensures var s' := Next(dcfg, s, e); InSync(acfg, dcfg, s', ReceivedSoFar(acfg, s', purge))
  {
    hide D.WriteChunks, Take, ChunksNeeded, A.EndPacket, DeliverAll, Holds;
    match e
    case Send(frame) =>
      if s.st.out.Some? {
        WriteInSync(acfg, dcfg, s, s.st.(frame := Some(frame), used := 0), purge);
      } else {
        assert D.Room(dcfg, 0) == dcfg.mtu - HEADER_LEN;
      }
    case Request =>
      if s.st.frame.Some? {
        assert D.PacketLen([]) == 0;
        WriteInSync(acfg, dcfg, s, s.st.(out := Some([])), purge);
      }
    case Timer =>
      PacketDelivered(acfg, s.packets, s.st.out.value, purge);
      var ended := DeliverAll(acfg, s.packets + [s.st.out.value], purge);
      TakeOne(acfg, ended.st);
      assert ended.frames + [] == ended.frames;
      var d := DeliverAll(acfg, s.packets, purge);
      PacketEnded(acfg, Take(acfg, d.st, s.st.out.value).st, purge(|s.packets|));
      AllGone(ended.st.frames, 0);
    case Tick(_) =>
  }

  /**
   * The round trip. Whatever frames are sent, however output requests and timer
   * expiries come in between, and whenever the receiver rebases its clock, the
   * packets delivered in order give back exactly the finished frames, in order;
   * those that end in the packet still being filled come with that packet.
   */
  lemma {:induction false} RoundTrip(acfg: A.Config, dcfg: D.Config, events: seq<D.Event>, purge: nat -> bool)
    requires A.ConfigOk(acfg) && D.ConfigOk(dcfg) && LegalRun(dcfg, events)
    requires forall frame: seq<Byte> | D.Send(frame) in events :: |frame| <= acfg.frameMtu && ChunksSuffice(dcfg, acfg, |frame|)
    ensures var s := SendAll(dcfg, events);
      && InSync(acfg, dcfg, s, ReceivedSoFar(acfg, s, purge))
      && ReceivedSoFar(acfg, s, purge).frames == s.finished
      && (Unsent(s.st) == [] ==> DeliverAll(acfg, s.packets, purge).frames == s.finished)
    decreases |events|
  {
    hide Next, InStep, A.EndPacket, ChunksSuffice;
    if events != [] {
      var init, e := events[..|events| - 1], events[|events| - 1];
      RoundTrip(acfg, dcfg, init, purge);
      if e.Send? {
        assert D.Send(e.frame) in events;
      }
      StepInSync(acfg, dcfg, SendAll(dcfg, init), e, purge);
    }
  }

  // ----- what comes over the wire, frame by frame

  /** The chunks written for each finished frame, and for the one being written. */
  datatype Log = Log(frames: seq<seq<Chunk>>, current: seq<Chunk>)

  /** The state in which the chunks of an event are written, if any are. */
  function Writing(st: D.State, e: D.Event): D.State {
    match e
    case Send(frame) => st.(frame := Some(frame), used := 0)
    case Request => st.(out := Some([]))
    case _ => st.(frame := None)
  }

  ghost predicate Writes(cfg: D.Config, st: D.State, e: D.Event) {
    D.CanWrite(cfg, Writing(st, e))
  }

  /** The chunks that an event writes. */
  ghost function Written(cfg: D.Config, st: D.State, e: D.Event): seq<Chunk>
    requires D.ConfigOk(cfg) && Writes(cfg, st, e)
  {
    var w := Writing(st, e);
    D.Cut(cfg, w.frameId, w.frame.value, w.used, D.Room(cfg, D.PacketLen(w.out.value)))
  }

  ghost function LogNext(cfg: D.Config, log: Log, st: D.State, e: D.Event): Log
    requires D.ConfigOk(cfg)
  {
    if !Writes(cfg, st, e) then log else
      var w, cs := Writing(st, e), Written(cfg, st, e);
      if w.used + D.Carried(cs) == |w.frame.value| then Log(log.frames + [log.current + cs], [])
      else Log(log.frames, log.current + cs)
  }

  ghost function LogAll(cfg: D.Config, events: seq<D.Event>): Log
    requires D.ConfigOk(cfg) && LegalRun(cfg, events)
    decreases |events|
  {
    if events == [] then Log([], []) else
      var init := events[..|events| - 1];
      LogNext(cfg, LogAll(cfg, init), SendAll(cfg, init).st, events[|events| - 1])
  }

  function Flat(packets: seq<seq<Chunk>>): seq<Chunk> {
    if packets == [] then [] else Flat(packets[..|packets| - 1]) + packets[|packets| - 1]
  }

  lemma FlatAppend(packets: seq<seq<Chunk>>, packet: seq<Chunk>)
    ensures Flat(packets + [packet]) == Flat(packets) + packet
  {
    assert (packets + [packet])[..|packets|] == packets;
  }

  /** The chunks counted on for the rest of a frame are those cut for one packet, and those for what is left. */
  lemma {:induction false} CutCount(cfg: D.Config, id: nat, frame: seq<Byte>, used: nat, room: nat)
    requires D.ConfigOk(cfg) && used <= |frame| && room > 0
    ensures var cs := D.Cut(cfg, id, frame, used, room);
      && used + D.Carried(cs) <= |frame|
      && var left := |frame| - used - D.Carried(cs);
      ChunksNeeded(cfg, |frame| - used, room) == |cs| + if left == 0 then 0 else ChunksNeeded(cfg, left, cfg.mtu - HEADER_LEN)
    decreases |frame| - used
  {
    hide D.ChunkLen;
    var c := D.NextPiece(cfg, id, frame, used, room);
    var used', room' := used + |c.data|, room - HEADER_LEN - |c.data|;
    if used' < |frame| && room' > 0 {
      CutCount(cfg, id, frame, used', room');
      D.CarriedMore(c, D.Cut(cfg, id, frame, used', room'));
    } else {
      D.CarriedMore(c, []);
    }
  }

  /** As many chunks as are counted on when a frame of some length starts somewhere in a packet. */
  ghost predicate Counted(cfg: D.Config, len: nat, n: nat)
    requires D.ConfigOk(cfg)
  {
    exists room: nat | 0 < room <= cfg.mtu - HEADER_LEN :: n == ChunksNeeded(cfg, len, room)
  }

  /** All chunks of a frame, and no more than are counted on. */
  ghost predicate Whole(cfg: D.Config, cs: seq<Chunk>, id: nat, frame: seq<Byte>)
    requires D.ConfigOk(cfg)
  {
    D.CarryOn(cs, id, frame, 0) && D.Steady(cs) && D.Carried(cs) == |frame| && Counted(cfg, |frame|, |cs|)
  }

  ghost predicate WholeFrames(cfg: D.Config, logged: seq<seq<Chunk>>, frames: seq<seq<Byte>>)
    requires D.ConfigOk(cfg)
  {
    |logged| == |frames| && forall k | 0 <= k < |logged| :: Whole(cfg, logged[k], k % FRAME_ID_LIMIT, frames[k])
  }

  /** The first chunks of a frame. */
  ghost predicate Part(cfg: D.Config, cs: seq<Chunk>, id: nat, frame: seq<Byte>, used: nat)
    requires D.ConfigOk(cfg)
  {
    && D.CarryOn(cs, id, frame, 0) && D.Steady(cs) && D.Carried(cs) == used <= |frame|
    && (used == 0 ==> cs == [])
    && (used > 0 ==> used < |frame| && Counted(cfg, |frame|, |cs| + ChunksNeeded(cfg, |frame| - used, cfg.mtu - HEADER_LEN)))
  }

  ghost predicate Logged(cfg: D.Config, s: Sent, log: Log)
    requires D.ConfigOk(cfg)
  {
    && Flat(s.packets) + Unsent(s.st) == Flat(log.frames) + log.current
    && WholeFrames(cfg, log.frames, s.finished)
    && s.st.frameId == |s.finished| % FRAME_ID_LIMIT
    && match s.st.frame
       case None => log.current == []
       case Some(frame) => Part(cfg, log.current, s.st.frameId, frame, s.st.used)
  }

  /** Cutting a frame for one more packet makes it whole, or leaves a longer part of it. */
  lemma CutExtends(cfg: D.Config, cs: seq<Chunk>, id: nat, frame: seq<Byte>, used: nat, room: nat)
    requires D.ConfigOk(cfg) && |frame| <= UINT16_MAX && id <= UINT16_MAX && Part(cfg, cs, id, frame, used)
    requires 0 < room <= cfg.mtu - HEADER_LEN && (used > 0 ==> room == cfg.mtu - HEADER_LEN)
    ensures var ds := D.Cut(cfg, id, frame, used, room);
      var more := used + D.Carried(ds);
      if more == |frame| then Whole(cfg, cs + ds, id, frame) else Part(cfg, cs + ds, id, frame, more)
  {
    hide D.Cut, D.CarryOn, D.Carried, ChunksNeeded, D.Steady;
    var ds := D.Cut(cfg, id, frame, used, room);
    D.CutSteady(cfg, id, frame, used, room);
    D.SteadyAppend(cs, ds, id, frame);
    D.CutCarries(cfg, id, frame, used, room);
    D.CarryOnAppend(cs, ds, id, frame, 0);
    CutCount(cfg, id, frame, used, room);
  }

  /** The first chunks written for a frame are written where it starts, and later ones at the start of a packet. */
  lemma WriteLogged(cfg: D.Config, s: Sent, log: Log, e: D.Event)
    requires D.ConfigOk(cfg) && D.StateOk(cfg, s.st) && D.Legal(s.st, e) && PacketsOk(cfg, s.packets)
    requires Logged(cfg, s, log) && Writes(cfg, s.st, e)
    ensures Logged(cfg, Next(cfg, s, e), LogNext(cfg, log, s.st, e))
  {
    hide D.Cut, D.PacketLen, D.Carried, Part, Whole, Flat;
    var w, cs := Writing(s.st, e), Written(cfg, s.st, e);
    var frame, room := w.frame.value, D.Room(cfg, D.PacketLen(w.out.value));
    NothingYet(cfg, w.frameId, frame);
    EmptyPacket();
    CutExtends(cfg, log.current, w.frameId, frame, w.used, room);
    SameOnWire(cfg, s, log, e);
  }

  /** What is written goes behind what is on the wire, and behind what is logged. */
  lemma SameOnWire(cfg: D.Config, s: Sent, log: Log, e: D.Event)
    requires D.ConfigOk(cfg) && D.StateOk(cfg, s.st) && D.Legal(s.st, e) && PacketsOk(cfg, s.packets)
    requires Flat(s.packets) + Unsent(s.st) == Flat(log.frames) + log.current && Writes(cfg, s.st, e)
    ensures var s', log' := Next(cfg, s, e), LogNext(cfg, log, s.st, e);
      Flat(s'.packets) + Unsent(s'.st) == Flat(log'.frames) + log'.current
  {
    hide D.Cut, D.PacketLen, D.Carried, Flat;
    var w, cs := Writing(s.st, e), Written(cfg, s.st, e);
    var s', log' := Next(cfg, s, e), LogNext(cfg, log, s.st, e);
    FlatAppend(s.packets, w.out.value + cs);
    FlatAppend(log.frames, log.current + cs);
    assert Unsent(w) == Unsent(s.st);
    assert Flat(s'.packets) + Unsent(s'.st) == (Flat(s.packets) + Unsent(s.st)) + cs;
    assert Flat(log'.frames) + log'.current == (Flat(log.frames) + log.current) + cs;
  }

  lemma NothingYet(cfg: D.Config, id: nat, frame: seq<Byte>)
    requires D.ConfigOk(cfg)
    ensures Part(cfg, [], id, frame, 0)
  {
  }

  lemma EmptyPacket()
    ensures D.PacketLen([]) == 0
  {
  }

  lemma StepLogged(cfg: D.Config, s: Sent, log: Log, e: D.Event)
    requires D.ConfigOk(cfg) && D.StateOk(cfg, s.st) && D.Legal(s.st, e) && PacketsOk(cfg, s.packets)
    requires Logged(cfg, s, log)
    ensures Logged(cfg, Next(cfg, s, e), LogNext(cfg, log, s.st, e))
  {
    hide D.Cut, D.PacketLen, Part, WholeFrames, Flat;
    if Writes(cfg, s.st, e) {
      WriteLogged(cfg, s, log, e);
    } else {
      EmptyPacket();
      match e
      case Send(frame) => NothingYet(cfg, s.st.frameId, frame);
      case Request =>
      case Timer => FlatAppend(s.packets, s.st.out.value);
      case Tick(_) =>
    }
  }

  /**
   * What is on the wire is, frame after frame, the chunks of that frame: they carry it from start
   * to end without a gap, and are as many as are counted on.
   */
  lemma {:induction false} FramesOnWire(cfg: D.Config, events: seq<D.Event>)
    requires D.ConfigOk(cfg) && LegalRun(cfg, events)
    ensures var s, log := SendAll(cfg, events), LogAll(cfg, events);
      Logged(cfg, s, log) && (cfg.chunkMtu < 0 ==> FewChunks(cfg, log.frames, s.finished))
    decreases |events|
  {
    hide Next, LogNext, Whole, Counted;
    if events == [] {
      assert D.FRESH.frameId == 0;
    } else {
      var init, e := events[..|events| - 1], events[|events| - 1];
      FramesOnWire(cfg, init);
      StepLogged(cfg, SendAll(cfg, init), LogAll(cfg, init), e);
    }
    var s, log := SendAll(cfg, events), LogAll(cfg, events);
    if cfg.chunkMtu < 0 {
      forall k | 0 <= k < |log.frames|
        ensures |log.frames[k]| <= MaxChunks(cfg, |s.finished[k]|)
      {
        WholeBound(cfg, log.frames[k], k % FRAME_ID_LIMIT, s.finished[k]);
      }
    }
  }

  /** The most chunks that a frame can come in. */
  function MaxChunks(cfg: D.Config, len: nat): nat
    requires D.ConfigOk(cfg)
  {
    1 + if len == 0 then 0 else DivideUp(len - 1, cfg.mtu - HEADER_LEN)
  }

  ghost predicate FewChunks(cfg: D.Config, logged: seq<seq<Chunk>>, frames: seq<seq<Byte>>)
    requires D.ConfigOk(cfg)
  {
    |logged| == |frames| && forall k | 0 <= k < |logged| :: |logged[k]| <= MaxChunks(cfg, |frames[k]|)
  }

  lemma WholeBound(cfg: D.Config, cs: seq<Chunk>, id: nat, frame: seq<Byte>)
    requires D.ConfigOk(cfg) && cfg.chunkMtu < 0 && Whole(cfg, cs, id, frame)
    ensures |cs| <= MaxChunks(cfg, |frame|)
  {
    var room: nat :| 0 < room <= cfg.mtu - HEADER_LEN && |cs| == ChunksNeeded(cfg, |frame|, room);
    ChunkBound(cfg, |frame|, room);
  }

  // ----- the same for the bytes on the wire

  function Wire(packets: seq<seq<Chunk>>): seq<seq<Byte>>
    requires forall k | 0 <= k < |packets| :: AllEncodable(packets[k])
  {
    seq(|packets|, k requires 0 <= k < |packets| => EncodePacket(packets[k]))
  }

  function DeliverBytes(cfg: A.Config, packets: seq<seq<Byte>>, purge: nat -> bool): Received
    requires A.ConfigOk(cfg)
  {
    if packets == [] then Received(A.FRESH, [])
    else
      var d := DeliverBytes(cfg, packets[..|packets| - 1], purge);
      var r := Deliver(cfg, d.st, ParsePacket(packets[|packets| - 1], 0), purge(|packets| - 1));
      Received(r.st, d.frames + r.frames)
  }

  lemma {:induction false} BytesDeliverChunks(cfg: A.Config, packets: seq<seq<Chunk>>, purge: nat -> bool)
    requires A.ConfigOk(cfg)
    requires forall k | 0 <= k < |packets| :: AllEncodable(packets[k])
    ensures DeliverBytes(cfg, Wire(packets), purge) == DeliverAll(cfg, packets, purge)
  {
    hide Deliver, EncodePacket, ParsePacket;
    if packets != [] {
      var init := packets[..|packets| - 1];
      BytesDeliverChunks(cfg, init, purge);
      ParseInvertsEncode(packets[|packets| - 1]);
      assert Wire(packets)[..|packets| - 1] == Wire(init);
    }
  }

  // ----- the bound on chunks that the client configures

  function DivideUp(a: nat, b: nat): nat
    requires b > 0
  {
    if a % b > 0 then a / b + 1 else a / b
  }

  function MaxChunksForFrame(carrierMtu: nat, frameMtu: nat): nat
    requires carrierMtu > HEADER_LEN
  {
    DivideUp(frameMtu, carrierMtu - HEADER_LEN) + 1
  }

  /** DivideUp is the least number of parts of size b that hold a. */
  lemma DivideUpBound(a: nat, b: nat, q: nat)
    requires b > 0
    ensures a <= q * b <==> DivideUp(a, b) <= q
  {
    var d, r := a / b, a % b;
    assert a == d * b + r && 0 <= r < b;
    if q <= d {
      assert q * b <= d * b;
      if q < d { assert (q + 1) * b <= d * b; }
    } else {
      assert (d + 1) * b <= q * b;
    }
  }

  /** With no limit on chunks, all but the first and the last fill a packet. */
  lemma {:induction false} FullChunks(cfg: D.Config, left: nat, q: nat)
    requires D.ConfigOk(cfg) && cfg.chunkMtu < 0
    requires left <= q * (cfg.mtu - HEADER_LEN)
    ensures left > 0 ==> ChunksNeeded(cfg, left, cfg.mtu - HEADER_LEN) <= q
    decreases left
  {
    var room := cfg.mtu - HEADER_LEN;
    if left > room {
      assert q > 0 by { assert 0 * room == 0; }
      assert (q - 1) * room == q * room - room;
      FullChunks(cfg, left - room, q - 1);
    } else if left > 0 {
      assert q > 0 by { assert 0 * room == 0; }
    }
  }

  /** A frame comes in at most one chunk more than the packets that all but its first byte would fill. */
  lemma ChunkBound(cfg: D.Config, len: nat, room: nat)
    requires D.ConfigOk(cfg) && cfg.chunkMtu < 0 && 0 < room <= cfg.mtu - HEADER_LEN
    ensures ChunksNeeded(cfg, len, room) <= MaxChunks(cfg, len)
  {
    var full := cfg.mtu - HEADER_LEN;
    if len > room {
      DivideUpBound(len - 1, full, DivideUp(len - 1, full));
      FullChunks(cfg, len - room, DivideUp(len - 1, full));
    }
  }

  lemma ConfiguredChunksSuffice(acfg: A.Config, dcfg: D.Config, frameMtu: nat, len: nat)
    requires D.ConfigOk(dcfg) && dcfg.chunkMtu < 0
    requires acfg.numChunks == MaxChunksForFrame(dcfg.mtu, frameMtu) && len <= frameMtu
    ensures ChunksSuffice(dcfg, acfg, len)
  {
    var full := dcfg.mtu - HEADER_LEN;
    forall room: nat | 0 < room <= full ensures ChunksNeeded(dcfg, len, room) <= acfg.numChunks {
      ChunkBound(dcfg, len, room);
      DivideUpBound(frameMtu, full, DivideUp(frameMtu, full));
      if len > 0 {
        DivideUpBound(len - 1, full, DivideUp(frameMtu, full));
      }
    }
  }

  /** The client's own configuration: no frame up to the MTU it was set up for is ever lost to a lack of chunks. */
  lemma RoundTripAsConfigured(acfg: A.Config, dcfg: D.Config, frameMtu: nat, events: seq<D.Event>, purge: nat -> bool)
    requires A.ConfigOk(acfg) && D.ConfigOk(dcfg) && LegalRun(dcfg, events)
    requires dcfg.chunkMtu < 0 && frameMtu <= acfg.frameMtu
    requires acfg.numChunks == MaxChunksForFrame(dcfg.mtu, frameMtu)
    requires forall frame: seq<Byte> | D.Send(frame) in events :: |frame| <= frameMtu
    requires Unsent(SendAll(dcfg, events).st) == []
    ensures var s := SendAll(dcfg, events);
      DeliverBytes(acfg, Wire(s.packets), purge).frames == s.finished
  {
    forall frame: seq<Byte> | D.Send(frame) in events ensures ChunksSuffice(dcfg, acfg, |frame|) {
      ConfiguredChunksSuffice(acfg, dcfg, frameMtu, |frame|);
    }
    RoundTrip(acfg, dcfg, events, purge);
    BytesDeliverChunks(acfg, SendAll(dcfg, events).packets, purge);
  }
}
