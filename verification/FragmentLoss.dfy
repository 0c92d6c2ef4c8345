/**
 * The disassembler and the assembler over a network that loses, repeats and reorders packets. Frame
 * identifiers have sixteen bits, so all of this is about fewer than 2^16 frames.
 */
module FragmentLoss {
  import opened Bytes
  import opened FragmentProto
  import opened FragmentRoundTrip
  import A = AssemblerSpec
  import D = DisassemblerSpec

  // ----- any packets, in any order

  lemma {:induction false} CarriedChunk(cs: seq<Chunk>, id: nat, frame: seq<Byte>, used: nat, c: Chunk)
    requires D.CarryOn(cs, id, frame, used) && c in cs
    ensures D.Continues(c, id, frame, c.start) && c.start + |c.data| <= used + D.Carried(cs)
    decreases |cs|
  {
    assert cs == [cs[0]] + cs[1..];
    if c != cs[0] {
      CarriedChunk(cs[1..], id, frame, used + |cs[0].data|, c);
    }
  }

  lemma {:induction false} InSome(packets: seq<seq<Chunk>>, c: Chunk) returns (k: nat)
    requires c in Flat(packets)
    ensures k < |packets| && c in packets[k]
  {
    k := |packets| - 1;
    if c !in packets[k] {
      k := InSome(packets[..|packets| - 1], c);
    }
  }

  lemma {:induction false} AllOfFlat(packets: seq<seq<Chunk>>, k: nat, c: Chunk)
    requires k < |packets| && c in packets[k]
    ensures c in Flat(packets)
  {
    if k < |packets| - 1 {
      AllOfFlat(packets[..|packets| - 1], k, c);
    }
  }

  /** A chunk of the finished frame with its identifier, or one that is not the last of the frame being sent. */
  ghost predicate OfFrame(frames: seq<seq<Byte>>, c: Chunk) {
    if c.frameId < |frames| then D.Continues(c, c.frameId, frames[c.frameId], c.start) else !c.isLast
  }

  lemma ChunksOfFrames(cfg: D.Config, events: seq<D.Event>, c: Chunk)
    requires D.ConfigOk(cfg) && LegalRun(cfg, events) && |SendAll(cfg, events).finished| < FRAME_ID_LIMIT
    requires c in Flat(SendAll(cfg, events).packets)
    ensures OfFrame(SendAll(cfg, events).finished, c)
  {
    hide SendAll, LogAll, Flat, D.CarryOn, Counted, LegalRun, D.Continues, D.Carried;
    FramesOnWire(cfg, events);
    var s, log := SendAll(cfg, events), LogAll(cfg, events);
    assert c in Flat(s.packets) + Unsent(s.st);
    if c in Flat(log.frames) {
      var k := InSome(log.frames, c);
      assert Whole(cfg, log.frames[k], k % FRAME_ID_LIMIT, s.finished[k]);
      CarriedChunk(log.frames[k], k, s.finished[k], 0, c);
      OfItsFrame(c, k, s.finished[k]);
    } else {
      var frame := s.st.frame.value;
      CarriedChunk(log.current, s.st.frameId, frame, 0, c);
      OfItsFrame(c, s.st.frameId, frame);
    }
  }

  lemma OfItsFrame(c: Chunk, id: nat, frame: seq<Byte>)
    requires D.Continues(c, id, frame, c.start)
    ensures c.frameId == id && (c.isLast <==> c.start + |c.data| == |frame|)
  {
  }

  /**
   * Whatever packets of a run arrive, in whatever order, however often, and whenever the receiver
   * rebases its clock: each frame that comes out is one that was sent.
   */
  lemma OnlySentFrames(acfg: A.Config, dcfg: D.Config, events: seq<D.Event>, arrivals: seq<A.Event>)
    requires A.ConfigOk(acfg) && D.ConfigOk(dcfg) && LegalRun(dcfg, events) && |SendAll(dcfg, events).finished| < FRAME_ID_LIMIT
    requires forall c: Chunk | A.Arrival(c) in arrivals :: c in Flat(SendAll(dcfg, events).packets)
    ensures forall x | x in A.RunOf(acfg, arrivals).emitted :: x in SendAll(dcfg, events).finished
  {
    hide SendAll, Flat, LegalRun, A.RunOf, A.StateOk, A.PoolReceived;
    var frames := SendAll(dcfg, events).finished;
    forall c: Chunk | A.Arrival(c) in arrivals
      ensures OfFrame(frames, c)
    {
      ChunksOfFrames(dcfg, events, c);
    }
    A.EmittedFramesAreTiled(acfg, arrivals);
    forall x | x in A.RunOf(acfg, arrivals).emitted
      ensures x in frames
    {
      MadeOfFrames(arrivals, frames, x);
    }
  }

  lemma MadeOfFrames(arrivals: seq<A.Event>, frames: seq<seq<Byte>>, x: seq<Byte>)
    requires forall c: Chunk | A.Arrival(c) in arrivals :: OfFrame(frames, c)
    requires A.MadeOfReceived(arrivals, x)
    ensures x in frames
  {
    var id: nat, ps: seq<A.Piece> :| A.AllReceived(arrivals, id, ps) && A.TiledBy(x, ps) && A.EndReceived(arrivals, id, |x|);
    var end: Chunk :| A.Arrival(end) in arrivals && end.frameId == id && end.isLast && end.start + |end.data| == |x|;
    assert OfFrame(frames, end);
    hide A.TiledBy, A.AllReceived;
    forall i: nat | i < |x|
      ensures x[i] == frames[id][i]
    {
      ByteOfFrame(arrivals, frames, x, id, ps, i);
    }
    assert x == frames[id];
  }

  lemma ByteOfFrame(arrivals: seq<A.Event>, frames: seq<seq<Byte>>, x: seq<Byte>, id: nat, ps: seq<A.Piece>, i: nat)
    requires forall c: Chunk | A.Arrival(c) in arrivals :: OfFrame(frames, c)
    requires A.AllReceived(arrivals, id, ps) && A.TiledBy(x, ps) && id < |frames| && i < |x| == |frames[id]|
    ensures x[i] == frames[id][i]
  {
    assert A.Touched(ps, i);
    var k :| 0 <= k < |ps| && ps[k].Contains(i);
    assert A.Received(arrivals, id, ps[k]);
    var c: Chunk :| A.Arrival(c) in arrivals && c.frameId == id && c.start == ps[k].start && c.data == ps[k].data;
    assert OfFrame(frames, c);
  }

  /** The chunks of packets as they arrive, each packet with its end. */
  function Arrivals(packets: seq<seq<Chunk>>, purge: nat -> bool): seq<A.Event> {
    if packets == [] then [] else
      var n := |packets| - 1;
      Arrivals(packets[..n], purge) + ChunkArrivals(packets[n]) + [A.PacketEnd(purge(n))]
  }

  function ChunkArrivals(cs: seq<Chunk>): (r: seq<A.Event>)
    ensures |r| == |cs|
  {
    seq(|cs|, i requires 0 <= i < |cs| => A.Arrival(cs[i]))
  }

  lemma {:induction false} TakenAsArrivals(cfg: A.Config, before: seq<A.Event>, cs: seq<Chunk>)
    requires A.ConfigOk(cfg)
    ensures var run, t := A.RunOf(cfg, before), Take(cfg, A.RunOf(cfg, before).st, cs);
      A.RunOf(cfg, before + ChunkArrivals(cs)) == A.Run(t.st, run.emitted + t.frames)
    decreases |cs|
  {
    hide A.Arrive, A.RunOf, Take;
    var run := A.RunOf(cfg, before);
    if cs == [] {
      assert before + ChunkArrivals(cs) == before;
      TakeOne(cfg, run.st);
    } else {
      var more := before + [A.Arrival(cs[0])];
      OneArrives(cfg, before, A.Arrival(cs[0]));
      TakenAsArrivals(cfg, more, cs[1..]);
      assert cs == [cs[0]] + cs[1..];
      TakeFirst(cfg, run.st, cs[0], cs[1..]);
      assert before + ChunkArrivals(cs) == more + ChunkArrivals(cs[1..]);
      var r := A.Arrive(cfg, run.st, cs[0]);
      var rest := Take(cfg, r.st, cs[1..]);
      assert (run.emitted + Emitted(r.frame)) + rest.frames == run.emitted + (Emitted(r.frame) + rest.frames);
    }
  }

  lemma OneArrives(cfg: A.Config, before: seq<A.Event>, e: A.Event)
    requires A.ConfigOk(cfg)
    ensures var run := A.RunOf(cfg, before);
      A.RunOf(cfg, before + [e]) ==
        match e
        case PacketEnd(purge) => A.Run(A.EndPacket(cfg, run.st, purge), run.emitted)
        case Arrival(c) =>
          var r := A.Arrive(cfg, run.st, c);
          A.Run(r.st, run.emitted + Emitted(r.frame))
  {
    hide A.Arrive, A.EndPacket;
    assert (before + [e])[..|before|] == before;
  }

  lemma {:induction false} DeliveredAsArrivals(cfg: A.Config, packets: seq<seq<Chunk>>, purge: nat -> bool)
    requires A.ConfigOk(cfg)
    ensures var run, d := A.RunOf(cfg, Arrivals(packets, purge)), DeliverAll(cfg, packets, purge);
      run == A.Run(d.st, d.frames)
  {
    hide A.RunOf, Take, A.EndPacket;
    if packets == [] {
      A.EmptyRun(cfg);
    } else {
      var n := |packets| - 1;
      var before := Arrivals(packets[..n], purge);
      DeliveredAsArrivals(cfg, packets[..n], purge);
      TakenAsArrivals(cfg, before, packets[n]);
      OneArrives(cfg, before + ChunkArrivals(packets[n]), A.PacketEnd(purge(n)));
    }
  }

  lemma {:induction false} ArrivalsAreChunks(packets: seq<seq<Chunk>>, purge: nat -> bool, c: Chunk) returns (k: nat)
    requires A.Arrival(c) in Arrivals(packets, purge)
    ensures k < |packets| && c in packets[k]
  {
    var n := |packets| - 1;
    if A.Arrival(c) in Arrivals(packets[..n], purge) {
      k := ArrivalsAreChunks(packets[..n], purge, c);
    } else {
      k := n;
      assert A.Arrival(c) in ChunkArrivals(packets[n]);
    }
  }

  /** The same for packets of bytes: a receiver that is given any of a run's packets, as often and in whatever order, gives out only frames that were sent. */
  lemma OnlySentArrive(acfg: A.Config, dcfg: D.Config, events: seq<D.Event>, arrived: seq<seq<Byte>>, purge: nat -> bool)
    requires A.ConfigOk(acfg) && D.ConfigOk(dcfg) && LegalRun(dcfg, events) && |SendAll(dcfg, events).finished| < FRAME_ID_LIMIT
    requires forall k | 0 <= k < |arrived| :: arrived[k] in Wire(SendAll(dcfg, events).packets)
    ensures forall x | x in DeliverBytes(acfg, arrived, purge).frames :: x in SendAll(dcfg, events).finished
  {
    hide SendAll, LegalRun, Flat, EncodePacket, DeliverAll, DeliverBytes, Arrivals, A.RunOf;
    var packets := SendAll(dcfg, events).packets;
    var some := Encoded(packets, arrived);
    BytesDeliverChunks(acfg, some, purge);
    DeliveredAsArrivals(acfg, some, purge);
    forall c: Chunk | A.Arrival(c) in Arrivals(some, purge)
      ensures c in Flat(packets)
    {
      var k := ArrivalsAreChunks(some, purge, c);
      var i :| 0 <= i < |packets| && packets[i] == some[k];
      AllOfFlat(packets, i, c);
    }
    OnlySentFrames(acfg, dcfg, events, Arrivals(some, purge));
  }

  /** The packets that some bytes are the encodings of. */
  lemma {:induction false} Encoded(packets: seq<seq<Chunk>>, arrived: seq<seq<Byte>>) returns (some: seq<seq<Chunk>>)
    requires forall k | 0 <= k < |packets| :: AllEncodable(packets[k])
    requires forall k | 0 <= k < |arrived| :: arrived[k] in Wire(packets)
    ensures forall k | 0 <= k < |some| :: some[k] in packets
    ensures (forall k | 0 <= k < |some| :: AllEncodable(some[k])) && Wire(some) == arrived
  {
    if arrived == [] {
      some := [];
    } else {
      var n := |arrived| - 1;
      var init := Encoded(packets, arrived[..n]);
      var i :| 0 <= i < |packets| && Wire(packets)[i] == arrived[n];
      some := init + [packets[i]];
      assert forall k | 0 <= k < |some| :: AllEncodable(some[k]);
      assert Wire(some) == Wire(init) + [arrived[n]];
    }
  }

  // ----- packets in order, some of them lost

  /** What is left of a list of which some places are kept. */
  function Kept<T>(list: seq<T>, keep: nat -> bool): (r: seq<T>)
    ensures |r| <= |list|
  {
    if list == [] then [] else
      var n := |list| - 1;
      Kept(list[..n], keep) + if keep(n) then [list[n]] else []
  }

  lemma KeptMore<T>(list: seq<T>, x: T, keep: nat -> bool)
    ensures Kept(list + [x], keep) == Kept(list, keep) + if keep(|list|) then [x] else []
  {
    assert (list + [x])[..|list|] == list;
  }

  ghost predicate Has(packet: seq<Chunk>, id: nat) {
    exists i :: 0 <= i < |packet| && packet[i].frameId == id
  }

  /** Some packet with a chunk of a frame is lost. */
  ghost predicate Missed(packets: seq<seq<Chunk>>, id: nat, keep: nat -> bool) {
    exists p: nat :: p < |packets| && !keep(p) && Has(packets[p], id)
  }

  /** The frames of which no packet is lost. */
  ghost function Intact(frames: seq<seq<Byte>>, packets: seq<seq<Chunk>>, keep: nat -> bool): seq<seq<Byte>> {
    if frames == [] then [] else
      var n := |frames| - 1;
      Intact(frames[..n], packets, keep) + if Missed(packets, n, keep) then [] else [frames[n]]
  }

  lemma {:induction false} IntactAlike(frames: seq<seq<Byte>>, packets: seq<seq<Chunk>>, others: seq<seq<Chunk>>, keep: nat -> bool)
    requires forall id: nat | id < |frames| :: Missed(packets, id, keep) <==> Missed(others, id, keep)
    ensures Intact(frames, packets, keep) == Intact(frames, others, keep)
  {
    if frames != [] {
      IntactAlike(frames[..|frames| - 1], packets, others, keep);
    }
  }

  lemma IntactMore(frames: seq<seq<Byte>>, frame: seq<Byte>, packets: seq<seq<Chunk>>, keep: nat -> bool)
    ensures Intact(frames + [frame], packets, keep) ==
      Intact(frames, packets, keep) + if Missed(packets, |frames|, keep) then [] else [frame]
  {
    assert (frames + [frame])[..|frames|] == frames;
  }

  /** Some position before that up to which the frame has been sent is in no piece, or, if there may be such, some piece is from behind that. */
  ghost predicate Spoiled(f: A.Partial, used: nat, strays: bool) {
    && f.length.None?
    && ((exists i: nat :: i < used && !A.Touched(f.pieces, i)) || (strays && exists k :: 0 <= k < |f.pieces| && Stray(f.pieces[k], used)))
  }

  ghost predicate Stray(p: A.Piece, used: nat) {
    p.data != [] && p.start >= used
  }

  /** What the receiver has of a frame, if anything, cannot become what has been sent. */
  ghost predicate Broken(st: A.State, id: nat, used: nat, strays: bool) {
    forall f | f in st.frames && f.id == id :: Spoiled(f, used, strays)
  }

  /** The next piece does not mend it. */
  lemma SpoiledStays(f: A.Partial, p: A.Piece, isLast: bool, clock: nat, used: nat, strays: bool)
    requires Spoiled(f, used, strays) && p.start == used && A.Fits(f, p, isLast) && (isLast || p.data != [])
    ensures var f' := A.Add(f, p, isLast, clock);
      !A.Complete(f') && (!isLast ==> Spoiled(f', p.End(), strays))
  {
    var f' := A.Add(f, p, isLast, clock);
    if i: nat :| i < used && !A.Touched(f.pieces, i) {
      A.TouchedByLast(f'.pieces, i);
      assert f'.pieces[..|f.pieces|] == f.pieces;
    } else {
      var k :| 0 <= k < |f.pieces| && Stray(f.pieces[k], used);
      assert !A.Overlap(f.pieces[k], p);
      assert Stray(f'.pieces[k], p.End()) || isLast;
    }
  }

  /** The entry that a chunk makes of the one it goes to. */
  ghost function EntryWith(cfg: A.Config, st: A.State, c: Chunk): A.Partial
    requires A.ConfigOk(cfg)
  {
    var frames := A.Prepare(cfg, st, c.frameId);
    A.Add(frames[A.IndexOf(frames, c.frameId)], A.Piece(c.start, c.data), c.isLast, st.clock)
  }

  ghost predicate Joins(cfg: A.Config, st: A.State, c: Chunk)
    requires A.ConfigOk(cfg)
  {
    var frames := A.Prepare(cfg, st, c.frameId);
    A.Fits(frames[A.IndexOf(frames, c.frameId)], A.Piece(c.start, c.data), c.isLast)
  }

  /** What an arrival leaves under the identifier of the chunk, and what it emits. */
  lemma ArriveLeaves(cfg: A.Config, st: A.State, c: Chunk)
    requires A.ConfigOk(cfg) && A.StateOk(cfg, st) && c.start + |c.data| <= cfg.frameMtu
    ensures var r, f' := A.Arrive(cfg, st, c), EntryWith(cfg, st, c);
      && r.frame == (if Joins(cfg, st, c) && A.Complete(f') then Some(A.Assembled(f')) else None)
      && forall f | f in r.st.frames && f.id == c.frameId :: f == f' && Joins(cfg, st, c) && !A.Complete(f')
  {
    hide A.Fits, A.Complete, A.Assembled, A.Prepare, A.PartialOk;
    var frames := A.Prepare(cfg, st, c.frameId);
    var k, r := A.IndexOf(frames, c.frameId), A.Arrive(cfg, st, c);
    A.PrepareKeepsOk(cfg, st, c.frameId);
    A.WithoutKeepsOk(cfg, frames, k, st.clock);
    forall f | f in r.st.frames && f.id == c.frameId
      ensures f == EntryWith(cfg, st, c) && Joins(cfg, st, c) && !A.Complete(f)
    {
      var i :| 0 <= i < |r.st.frames| && r.st.frames[i] == f;
      assert i == k;
    }
  }

  /** The entry that a chunk goes to is the one there is, or a blank one if that has timed out. */
  lemma GoesTo(cfg: A.Config, st: A.State, id: nat)
    requires A.ConfigOk(cfg) && A.StateOk(cfg, st)
    ensures var frames, k := A.Prepare(cfg, st, id), A.IndexOf(st.frames, id);
      frames[A.IndexOf(frames, id)] == if NotHeld(cfg, st, id) then A.Partial(id, st.clock, [], None) else st.frames[k]
  {
    hide A.Prepare, A.StateOk;
    A.PrepareChooses(cfg, st, id);
  }

  lemma BlankIsSpoiled(id: nat, clock: nat, used: nat, strays: bool)
    requires used > 0
    ensures Spoiled(A.Partial(id, clock, [], None), used, strays)
  {
    assert !A.Touched([], 0);
  }

  /** A chunk of a frame of which too little, or something else, is held does not complete it. */
  lemma ChunkBroken(cfg: A.Config, st: A.State, c: Chunk, id: nat, frame: seq<Byte>, used: nat, strays: bool)
    requires A.ConfigOk(cfg) && |frame| <= cfg.frameMtu && D.Continues(c, id, frame, used) && (c.isLast || c.data != [])
    requires A.StateOk(cfg, st) && Broken(st, id, used, strays) && (used > 0 || !NotHeld(cfg, st, id))
    ensures var r := A.Arrive(cfg, st, c);
      && r.st.clock == st.clock && A.StateOk(cfg, r.st) && NoOthers(st.frames, r.st.frames, id)
      && r.frame == None && (!c.isLast ==> Broken(r.st, id, used + |c.data|, strays))
  {
    hide A.Fits, A.Complete, A.Prepare, A.StateOk, NoOthers, Spoiled, A.Assembled, A.Arrive;
    var frames, p := A.Prepare(cfg, st, id), A.Piece(c.start, c.data);
    A.ArriveKeepsOk(cfg, st, c);
    NoOthersCome(cfg, st, c);
    SameClock(cfg, st, c);
    ArriveLeaves(cfg, st, c);
    GoesTo(cfg, st, id);
    if NotHeld(cfg, st, id) {
      BlankIsSpoiled(id, st.clock, used, strays);
    }
    if Joins(cfg, st, c) {
      SpoiledStays(frames[A.IndexOf(frames, id)], p, c.isLast, st.clock, used, strays);
    }
  }

  lemma SameClock(cfg: A.Config, st: A.State, c: Chunk)
    requires A.ConfigOk(cfg)
    ensures A.Arrive(cfg, st, c).st.clock == st.clock
  {
    hide A.Fits, A.Complete, A.Prepare, A.Assembled;
  }

  lemma {:induction false} ChunksBroken(cfg: A.Config, st: A.State, cs: seq<Chunk>, id: nat, frame: seq<Byte>, used: nat, strays: bool)
    requires A.ConfigOk(cfg) && |frame| <= cfg.frameMtu && used > 0 && cs != [] && D.CarryOn(cs, id, frame, used) && D.Steady(cs)
    requires A.StateOk(cfg, st) && Broken(st, id, used, strays)
    ensures var t := Take(cfg, st, cs);
      && t.st.clock == st.clock && A.StateOk(cfg, t.st) && NoOthers(st.frames, t.st.frames, id)
      && t.frames == [] && (!cs[|cs| - 1].isLast ==> Broken(t.st, id, used + D.Carried(cs), strays))
    decreases |cs|
  {
    hide A.Arrive, A.StateOk, D.Steady, Take, Broken;
    var c, rest := cs[0], cs[1..];
    var r := A.Arrive(cfg, st, c);
    D.SteadyFirst(cs);
    ChunkBroken(cfg, st, c, id, frame, used, strays);
    assert cs == [c] + rest;
    TakeFirst(cfg, st, c, rest);
    TakeOne(cfg, r.st);
    if rest != [] {
      ChunksBroken(cfg, r.st, rest, id, frame, used + |c.data|, strays);
      D.CarriedMore(c, rest);
    }
  }

  /** A part of a frame lacks what is sent while it is not kept. */
  lemma HoldsLess(cfg: A.Config, st: A.State, id: nat, frame: seq<Byte>, used: nat, toCome: nat, more: nat)
    requires InStep(cfg, st, id, frame, used, toCome) && used < more && (used == 0 ==> NoneOf(st.frames, id))
    ensures Broken(st, id, more, false)
  {
    forall f | f in st.frames && f.id == id
      ensures Spoiled(f, more, false)
    {
      var i :| 0 <= i < |st.frames| && st.frames[i] == f;
      assert i == A.IndexOf(st.frames, id);
      assert !A.Touched(f.pieces, used);
    }
  }

  lemma BrokenLonger(st: A.State, id: nat, used: nat, more: nat)
    requires Broken(st, id, used, false) && used <= more
    ensures Broken(st, id, more, false)
  {
    forall f | f in st.frames && f.id == id
      ensures Spoiled(f, more, false)
    {
      var i: nat :| i < used && !A.Touched(f.pieces, i);
    }
  }

  /** The chunks that are written next. */
  ghost function NextChunks(dcfg: D.Config, st: D.State): seq<Chunk>
    requires D.ConfigOk(dcfg) && D.CanWrite(dcfg, st)
  {
    D.Cut(dcfg, st.frameId, st.frame.value, st.used, D.Room(dcfg, D.PacketLen(st.out.value)))
  }

  /** The receiver after chunks have been written to a packet, which is kept or not, and may be ended by them. */
  ghost function AfterWriting(acfg: A.Config, recv: A.State, cs: seq<Chunk>, kept: bool, ended: bool, purge: bool): Received
    requires A.ConfigOk(acfg)
  {
    if !kept then Received(recv, []) else
      var t := Take(acfg, recv, cs);
      if ended then Received(A.EndPacket(acfg, t.st, purge), t.frames) else t
  }

  /** What the receiver has of the frame that is being sent: all that was sent, unless some of it was lost. */
  ghost predicate Follows(acfg: A.Config, dcfg: D.Config, recv: A.State, id: nat, frame: seq<Byte>, used: nat, room: nat, lost: bool)
    requires D.ConfigOk(dcfg)
  {
    if lost then used > 0 && Broken(recv, id, used, false)
    else used <= |frame| && room > 0 && InStep(acfg, recv, id, frame, used, ChunksNeeded(dcfg, |frame| - used, room))
  }

  ghost predicate Writable(acfg: A.Config, dcfg: D.Config, st: D.State)
    requires D.ConfigOk(dcfg)
  {
    D.CanWrite(dcfg, st) && |st.frame.value| <= UINT16_MAX && st.frameId <= UINT16_MAX && |st.frame.value| <= acfg.frameMtu
  }

  ghost predicate Settled(acfg: A.Config, dcfg: D.Config, st: D.State, recv: A.State, after: Received, lost: bool)
    requires D.ConfigOk(dcfg) && D.CanWrite(dcfg, st)
  {
    var w := D.WriteChunks(dcfg, st);
    && A.StateOk(acfg, after.st) && NoOthers(recv.frames, after.st.frames, st.frameId)
    && after.frames == (if w.finished && !lost then [st.frame.value] else [])
    && (!w.finished ==> Follows(acfg, dcfg, after.st, st.frameId, st.frame.value, w.st.used, dcfg.mtu - HEADER_LEN, lost))
  }

  /** While nothing is lost. */
  lemma WrittenWhole(acfg: A.Config, dcfg: D.Config, st: D.State, recv: A.State, purge: bool)
    requires A.ConfigOk(acfg) && D.ConfigOk(dcfg) && Writable(acfg, dcfg, st) && A.StateOk(acfg, recv)
    requires Follows(acfg, dcfg, recv, st.frameId, st.frame.value, st.used, D.Room(dcfg, D.PacketLen(st.out.value)), false)
    ensures Settled(acfg, dcfg, st, recv,
      AfterWriting(acfg, recv, NextChunks(dcfg, st), true, D.WriteChunks(dcfg, st).packet.Some?, purge), false)
  {
    hide D.WriteChunks, D.Cut, Take, InStep, ChunksNeeded, D.PacketLen, A.EndPacket, A.StateOk;
    var w, t := D.WriteChunks(dcfg, st), Take(acfg, recv, NextChunks(dcfg, st));
    WriteTaken(acfg, dcfg, st, recv);
    PacketEnded(acfg, t.st, purge);
    if !w.finished {
      PauseEnded(acfg, dcfg, t.st, st.frameId, st.frame.value, w.st.used, purge);
    }
  }

  /** Once something has been lost. */
  lemma WrittenBroken(acfg: A.Config, dcfg: D.Config, st: D.State, recv: A.State, kept: bool, purge: bool)
    requires A.ConfigOk(acfg) && D.ConfigOk(dcfg) && Writable(acfg, dcfg, st) && A.StateOk(acfg, recv)
    requires Follows(acfg, dcfg, recv, st.frameId, st.frame.value, st.used, D.Room(dcfg, D.PacketLen(st.out.value)), true)
    ensures Settled(acfg, dcfg, st, recv,
      AfterWriting(acfg, recv, NextChunks(dcfg, st), kept, D.WriteChunks(dcfg, st).packet.Some?, purge), true)
  {
    hide D.WriteChunks, D.Cut, Take, D.PacketLen, A.EndPacket, A.StateOk, Spoiled, D.Carried, D.Steady, D.CarryOn;
    var frame, room, cs := st.frame.value, D.Room(dcfg, D.PacketLen(st.out.value)), NextChunks(dcfg, st);
    WrittenTo(dcfg, st);
    D.CutCarries(dcfg, st.frameId, frame, st.used, room);
    D.CutSteady(dcfg, st.frameId, frame, st.used, room);
    D.CarryOnEnd(cs, st.frameId, frame, st.used);
    if kept {
      ChunksBroken(acfg, recv, cs, st.frameId, frame, st.used, false);
      PacketEnded(acfg, Take(acfg, recv, cs).st, purge);
    } else {
      BrokenLonger(recv, st.frameId, st.used, st.used + D.Carried(cs));
    }
  }

  /** When the first of it is lost. */
  lemma WrittenLost(acfg: A.Config, dcfg: D.Config, st: D.State, recv: A.State)
    requires A.ConfigOk(acfg) && D.ConfigOk(dcfg) && Writable(acfg, dcfg, st) && A.StateOk(acfg, recv)
    requires Follows(acfg, dcfg, recv, st.frameId, st.frame.value, st.used, D.Room(dcfg, D.PacketLen(st.out.value)), false)
    requires st.used == 0 ==> NoneOf(recv.frames, st.frameId)
    ensures Settled(acfg, dcfg, st, recv, Received(recv, []), true)
  {
    hide D.WriteChunks, D.Cut, D.PacketLen, A.StateOk, InStep, Broken, D.Carried, ChunksNeeded;
    var frame, room, cs := st.frame.value, D.Room(dcfg, D.PacketLen(st.out.value)), NextChunks(dcfg, st);
    WrittenTo(dcfg, st);
    D.CutCarries(dcfg, st.frameId, frame, st.used, room);
    if st.used + D.Carried(cs) < |frame| {
      HoldsLess(acfg, recv, st.frameId, frame, st.used, ChunksNeeded(dcfg, |frame| - st.used, room), st.used + D.Carried(cs));
    }
  }

  lemma WrittenTo(dcfg: D.Config, st: D.State)
    requires D.ConfigOk(dcfg) && D.CanWrite(dcfg, st)
    ensures var w, cs := D.WriteChunks(dcfg, st), NextChunks(dcfg, st);
      && (w.finished <==> st.used + D.Carried(cs) == |st.frame.value|)
      && if w.finished then w.st.frame == None && w.st.frameId == (st.frameId + 1) % FRAME_ID_LIMIT
         else w.st.frame == st.frame && w.st.frameId == st.frameId && w.st.used == st.used + D.Carried(cs)
  {
  }

  // ----- whole runs with losses

  /** The packets there have been, with the one that is being filled. */
  function Sofar(s: Sent): seq<seq<Chunk>> {
    s.packets + [Unsent(s.st)]
  }

  /** What has been received of the packets that are kept, with the one that is being filled. */
  function ReceivedKept(cfg: A.Config, s: Sent, keep: nat -> bool, purge: nat -> bool): Received
    requires A.ConfigOk(cfg)
  {
    var d := DeliverAll(cfg, Kept(s.packets, keep), purge);
    if keep(|s.packets|) then
      var t := Take(cfg, d.st, Unsent(s.st));
      Received(t.st, d.frames + t.frames)
    else d
  }

  ghost predicate EntriesBelow(frames: seq<A.Partial>, n: nat) {
    forall f | f in frames :: f.id < n
  }

  ghost predicate ChunksBelow(packets: seq<seq<Chunk>>, n: nat) {
    forall p, i | 0 <= p < |packets| && 0 <= i < |packets[p]| :: packets[p][i].frameId < n
  }

  /** The identifiers up to that of the frame under way, which is used once some of it has been written. */
  function Begun(st: D.State): nat {
    if st.frame.Some? && st.used > 0 then st.frameId + 1 else st.frameId
  }

  ghost predicate LossySync(acfg: A.Config, dcfg: D.Config, s: Sent, keep: nat -> bool, r: Received)
    requires D.ConfigOk(dcfg)
  {
    && A.StateOk(acfg, r.st) && s.st.frameId == |s.finished|
    && r.frames == Intact(s.finished, Sofar(s), keep)
    && EntriesBelow(r.st.frames, Begun(s.st)) && ChunksBelow(Sofar(s), Begun(s.st))
    && match s.st.frame
       case None => true
       case Some(frame) =>
         && |frame| <= acfg.frameMtu
         && Follows(acfg, dcfg, r.st, s.st.frameId, frame, s.st.used, dcfg.mtu - HEADER_LEN, Missed(Sofar(s), s.st.frameId, keep))
  }

  ghost predicate AllOf(cs: seq<Chunk>, id: nat) {
    cs != [] && forall i | 0 <= i < |cs| :: cs[i].frameId == id
  }

  /** Chunks are written to the last packet, behind which there may be a new one then. */
  ghost predicate Extends(before: seq<seq<Chunk>>, cs: seq<Chunk>, after: seq<seq<Chunk>>) {
    && before != []
    && var n := |before| - 1;
    var more := before[n := before[n] + cs];
    after == more || after == more + [[]]
  }

  lemma MissedMore(before: seq<seq<Chunk>>, cs: seq<Chunk>, after: seq<seq<Chunk>>, id: nat, keep: nat -> bool, other: nat)
    requires Extends(before, cs, after) && AllOf(cs, id)
    ensures Missed(after, other, keep) <==> Missed(before, other, keep) || (other == id && !keep(|before| - 1))
  {
    var n := |before| - 1;
    HasMore(before[n], cs, id, other);
    NothingIn(other);
    forall p: nat | p < n
      ensures after[p] == before[p]
    {
    }
    if Missed(before, other, keep) {
      var p: nat :| p < |before| && !keep(p) && Has(before[p], other);
      assert Has(after[p], other);
    }
    if other == id && !keep(n) {
      assert Has(after[n], other);
    }
    if Missed(after, other, keep) {
      var p: nat :| p < |after| && !keep(p) && Has(after[p], other);
      assert p <= n;
      assert p < n ==> Has(before[p], other);
    }
  }

  lemma NothingIn(id: nat)
    ensures !Has([], id)
  {
  }

  lemma HasMore(packet: seq<Chunk>, cs: seq<Chunk>, id: nat, other: nat)
    requires AllOf(cs, id)
    ensures Has(packet + cs, other) <==> Has(packet, other) || other == id
  {
    if Has(packet, other) {
      var i :| 0 <= i < |packet| && packet[i].frameId == other;
      assert (packet + cs)[i].frameId == other;
    }
    assert (packet + cs)[|packet|] == cs[0];
  }

  lemma BelowMore(before: seq<seq<Chunk>>, cs: seq<Chunk>, after: seq<seq<Chunk>>, id: nat, n: nat)
    requires Extends(before, cs, after) && AllOf(cs, id) && ChunksBelow(before, n) && n <= id + 1
    ensures ChunksBelow(after, id + 1)
  {
  }

  lemma NotMissed(packets: seq<seq<Chunk>>, id: nat, keep: nat -> bool)
    requires ChunksBelow(packets, id)
    ensures !Missed(packets, id, keep)
  {
  }

  lemma {:induction false} CarriedIds(cs: seq<Chunk>, id: nat, frame: seq<Byte>, used: nat)
    requires D.CarryOn(cs, id, frame, used) && cs != []
    ensures AllOf(cs, id)
    decreases |cs|
  {
    if |cs| > 1 {
      CarriedIds(cs[1..], id, frame, used + |cs[0].data|);
      assert cs == [cs[0]] + cs[1..];
    }
  }

  /** The sender after a step that writes. */
  ghost function SentOn(dcfg: D.Config, s: Sent, st: D.State): Sent
    requires D.ConfigOk(dcfg) && D.CanWrite(dcfg, st)
  {
    var w := D.WriteChunks(dcfg, st);
    Sent(w.st,
         if w.packet.Some? then s.packets + [w.packet.value] else s.packets,
         if w.finished then s.finished + [st.frame.value] else s.finished)
  }

  lemma SofarMore(dcfg: D.Config, s: Sent, st: D.State)
    requires D.ConfigOk(dcfg) && D.CanWrite(dcfg, st) && st.out.value == Unsent(s.st)
    ensures Extends(Sofar(s), NextChunks(dcfg, st), Sofar(SentOn(dcfg, s, st)))
  {
    hide D.Cut, D.PacketLen, D.Carried;
    var n, cs := |s.packets|, NextChunks(dcfg, st);
    var more := Sofar(s)[n := Sofar(s)[n] + cs];
    var after := Sofar(SentOn(dcfg, s, st));
    assert more == s.packets + [st.out.value + cs];
    assert after == more || after == more + [[]];
  }

  /** What is received after a step that writes: of a packet that is not kept nothing. */
  lemma ReceivedMore(acfg: A.Config, dcfg: D.Config, s: Sent, st: D.State, keep: nat -> bool, purge: nat -> bool)
    requires A.ConfigOk(acfg) && D.ConfigOk(dcfg) && D.CanWrite(dcfg, st) && st.out.value == Unsent(s.st)
    ensures var r := ReceivedKept(acfg, s, keep, purge);
      var next := AfterWriting(acfg, r.st, NextChunks(dcfg, st), keep(|s.packets|), D.WriteChunks(dcfg, st).packet.Some?,
                               purge(|Kept(s.packets, keep)|));
      ReceivedKept(acfg, SentOn(dcfg, s, st), keep, purge) == Received(next.st, r.frames + next.frames)
  {
    hide D.Cut, D.PacketLen, D.Carried, Take, DeliverAll, A.EndPacket, Kept;
    var cs, w := NextChunks(dcfg, st), D.WriteChunks(dcfg, st);
    var kept := Kept(s.packets, keep);
    var d := DeliverAll(acfg, kept, purge);
    var r := ReceivedKept(acfg, s, keep, purge);
    assert r.frames + [] == r.frames && d.frames + [] == d.frames;
    TakeAppend(acfg, d.st, st.out.value, cs);
    var t, u := Take(acfg, d.st, st.out.value), Take(acfg, Take(acfg, d.st, st.out.value).st, cs);
    assert (d.frames + t.frames) + u.frames == d.frames + (t.frames + u.frames);
    if w.packet.Some? {
      var packet := w.packet.value;
      KeptMore(s.packets, packet, keep);
      PacketDelivered(acfg, kept, packet, purge);
      var after := DeliverAll(acfg, Kept(s.packets + [packet], keep), purge);
      TakeOne(acfg, after.st);
      assert after.frames + [] == after.frames;
      assert kept + [] == kept;
    }
  }

  /** The state in which a step writes, and what it finds. */
  ghost predicate ReadyToWrite(acfg: A.Config, dcfg: D.Config, s: Sent, st: D.State, keep: nat -> bool, r: Received)
    requires D.ConfigOk(dcfg)
  {
    && Writable(acfg, dcfg, st) && st.out.value == Unsent(s.st) && st.frameId == |s.finished|
    && A.StateOk(acfg, r.st) && r.frames == Intact(s.finished, Sofar(s), keep)
    && EntriesBelow(r.st.frames, Begun(st)) && ChunksBelow(Sofar(s), Begun(st))
    && Follows(acfg, dcfg, r.st, st.frameId, st.frame.value, st.used, D.Room(dcfg, D.PacketLen(st.out.value)),
               Missed(Sofar(s), st.frameId, keep))
  }

  lemma SettledAfter(acfg: A.Config, dcfg: D.Config, s: Sent, st: D.State, keep: nat -> bool, purge: bool, r: Received)
    requires A.ConfigOk(acfg) && D.ConfigOk(dcfg) && ReadyToWrite(acfg, dcfg, s, st, keep, r)
    ensures var kept := keep(|s.packets|);
      Settled(acfg, dcfg, st, r.st, AfterWriting(acfg, r.st, NextChunks(dcfg, st), kept, D.WriteChunks(dcfg, st).packet.Some?, purge),
              Missed(Sofar(s), st.frameId, keep) || !kept)
  {
    hide D.WriteChunks, D.Cut, D.PacketLen, A.StateOk, Settled, NextChunks, Follows, Missed, ChunksBelow, Intact;
    if Missed(Sofar(s), st.frameId, keep) {
      WrittenBroken(acfg, dcfg, st, r.st, keep(|s.packets|), purge);
    } else if keep(|s.packets|) {
      WrittenWhole(acfg, dcfg, st, r.st, purge);
    } else {
      WrittenLost(acfg, dcfg, st, r.st);
    }
  }

  lemma WriteSynced(acfg: A.Config, dcfg: D.Config, s: Sent, st: D.State, keep: nat -> bool, purge: nat -> bool)
    requires A.ConfigOk(acfg) && D.ConfigOk(dcfg) && ReadyToWrite(acfg, dcfg, s, st, keep, ReceivedKept(acfg, s, keep, purge))
    requires |SentOn(dcfg, s, st).finished| < FRAME_ID_LIMIT
    ensures var s' := SentOn(dcfg, s, st); LossySync(acfg, dcfg, s', keep, ReceivedKept(acfg, s', keep, purge))
  {
    hide D.WriteChunks, D.Cut, D.PacketLen, A.StateOk, NextChunks, Follows, Missed, ChunksBelow, Intact, AfterWriting, ReceivedKept,
      Extends, AllOf, Sofar;
    var s', cs, w := SentOn(dcfg, s, st), NextChunks(dcfg, st), D.WriteChunks(dcfg, st);
    var r, id := ReceivedKept(acfg, s, keep, purge), st.frameId;
    SettledAfter(acfg, dcfg, s, st, keep, purge(|Kept(s.packets, keep)|), r);
    ReceivedMore(acfg, dcfg, s, st, keep, purge);
    SofarMore(dcfg, s, st);
    WrittenTo(dcfg, st);
    WrittenIds(acfg, dcfg, st);
    BelowMore(Sofar(s), cs, Sofar(s'), id, Begun(st));
    ExpectedAfter(acfg, dcfg, s, st, keep);
  }

  lemma WrittenIds(acfg: A.Config, dcfg: D.Config, st: D.State)
    requires D.ConfigOk(dcfg) && Writable(acfg, dcfg, st)
    ensures AllOf(NextChunks(dcfg, st), st.frameId) && D.Carried(NextChunks(dcfg, st)) + st.used <= |st.frame.value|
    ensures st.used < |st.frame.value| ==> D.Carried(NextChunks(dcfg, st)) > 0
  {
    hide D.Cut, D.PacketLen;
    var room := D.Room(dcfg, D.PacketLen(st.out.value));
    D.CutCarries(dcfg, st.frameId, st.frame.value, st.used, room);
    CarriedIds(NextChunks(dcfg, st), st.frameId, st.frame.value, st.used);
  }

  /** The frames that are expected after a step that writes. */
  lemma ExpectedAfter(acfg: A.Config, dcfg: D.Config, s: Sent, st: D.State, keep: nat -> bool)
    requires D.ConfigOk(dcfg) && Writable(acfg, dcfg, st) && st.out.value == Unsent(s.st) && st.frameId == |s.finished|
    ensures var s', lost := SentOn(dcfg, s, st), Missed(Sofar(s), st.frameId, keep) || !keep(|s.packets|);
      && Missed(Sofar(s'), st.frameId, keep) == lost
      && Intact(s'.finished, Sofar(s'), keep) ==
         Intact(s.finished, Sofar(s), keep) + if D.WriteChunks(dcfg, st).finished && !lost then [st.frame.value] else []
  {
    hide D.WriteChunks, D.Cut, D.PacketLen, NextChunks, Missed, Intact, Extends, AllOf;
    var s', cs := SentOn(dcfg, s, st), NextChunks(dcfg, st);
    SofarMore(dcfg, s, st);
    WrittenIds(acfg, dcfg, st);
    forall id: nat
      ensures Missed(Sofar(s'), id, keep) <==> Missed(Sofar(s), id, keep) || (id == st.frameId && !keep(|s.packets|))
    {
      MissedMore(Sofar(s), cs, Sofar(s'), st.frameId, keep, id);
    }
    IntactAlike(s.finished, Sofar(s'), Sofar(s), keep);
    IntactMore(s.finished, st.frame.value, Sofar(s'), keep);
    assert Intact(s.finished, Sofar(s), keep) + [] == Intact(s.finished, Sofar(s), keep);
  }

  /** A frame that is to be sent, of which no chunk has been seen. */
  lemma FollowsAtFirst(acfg: A.Config, dcfg: D.Config, recv: A.State, id: nat, frame: seq<Byte>, room: nat)
    requires D.ConfigOk(dcfg) && A.StateOk(acfg, recv) && EntriesBelow(recv.frames, id)
    requires 0 < room <= dcfg.mtu - HEADER_LEN && ChunksSuffice(dcfg, acfg, |frame|)
    ensures Follows(acfg, dcfg, recv, id, frame, 0, room, false)
  {
    hide A.StateOk, ChunksNeeded;
    forall k | 0 <= k < |recv.frames|
      ensures recv.frames[k].id < id
    {
      assert recv.frames[k] in recv.frames;
    }
  }

  lemma SendSynced(acfg: A.Config, dcfg: D.Config, s: Sent, frame: seq<Byte>, keep: nat -> bool, purge: nat -> bool)
    requires A.ConfigOk(acfg) && D.ConfigOk(dcfg) && D.StateOk(dcfg, s.st) && D.Legal(s.st, D.Send(frame)) && PacketsOk(dcfg, s.packets)
    requires |frame| <= acfg.frameMtu && ChunksSuffice(dcfg, acfg, |frame|)
    requires LossySync(acfg, dcfg, s, keep, ReceivedKept(acfg, s, keep, purge))
    requires |Next(dcfg, s, D.Send(frame)).finished| < FRAME_ID_LIMIT
    ensures var s' := Next(dcfg, s, D.Send(frame)); LossySync(acfg, dcfg, s', keep, ReceivedKept(acfg, s', keep, purge))
  {
    hide D.WriteChunks, D.PacketLen, A.StateOk, Follows, Missed, ChunksBelow, Intact, ReceivedKept, ChunksSuffice, EntriesBelow;
    var w := s.st.(frame := Some(frame), used := 0);
    var r := ReceivedKept(acfg, s, keep, purge);
    NotMissed(Sofar(s), s.st.frameId, keep);
    EmptyPacket();
    if s.st.out.Some? {
      FollowsAtFirst(acfg, dcfg, r.st, s.st.frameId, frame, D.Room(dcfg, D.PacketLen(s.st.out.value)));
      WriteSynced(acfg, dcfg, s, w, keep, purge);
    } else {
      FollowsAtFirst(acfg, dcfg, r.st, s.st.frameId, frame, dcfg.mtu - HEADER_LEN);
      SameReceived(acfg, s, Sent(w, s.packets, s.finished), keep, purge);
    }
  }

  lemma SameReceived(acfg: A.Config, s: Sent, s': Sent, keep: nat -> bool, purge: nat -> bool)
    requires A.ConfigOk(acfg) && s'.packets == s.packets && Unsent(s'.st) == Unsent(s.st)
    ensures ReceivedKept(acfg, s', keep, purge) == ReceivedKept(acfg, s, keep, purge) && Sofar(s') == Sofar(s)
  {
  }

  lemma RequestSynced(acfg: A.Config, dcfg: D.Config, s: Sent, keep: nat -> bool, purge: nat -> bool)
    requires A.ConfigOk(acfg) && D.ConfigOk(dcfg) && D.StateOk(dcfg, s.st) && D.Legal(s.st, D.Request) && PacketsOk(dcfg, s.packets)
    requires LossySync(acfg, dcfg, s, keep, ReceivedKept(acfg, s, keep, purge))
    requires |Next(dcfg, s, D.Request).finished| < FRAME_ID_LIMIT
    ensures var s' := Next(dcfg, s, D.Request); LossySync(acfg, dcfg, s', keep, ReceivedKept(acfg, s', keep, purge))
  {
    hide D.WriteChunks, D.PacketLen, A.StateOk, Follows, Missed, ChunksBelow, Intact, ReceivedKept, EntriesBelow;
    var w := s.st.(out := Some([]));
    EmptyPacket();
    SameReceived(acfg, s, Sent(w, s.packets, s.finished), keep, purge);
    if s.st.frame.Some? {
      WriteSynced(acfg, dcfg, s, w, keep, purge);
    }
  }

  lemma TimerSynced(acfg: A.Config, dcfg: D.Config, s: Sent, keep: nat -> bool, purge: nat -> bool)
    requires A.ConfigOk(acfg) && D.ConfigOk(dcfg) && D.StateOk(dcfg, s.st) && D.Legal(s.st, D.Timer) && PacketsOk(dcfg, s.packets)
    requires LossySync(acfg, dcfg, s, keep, ReceivedKept(acfg, s, keep, purge))
    ensures var s' := Next(dcfg, s, D.Timer); LossySync(acfg, dcfg, s', keep, ReceivedKept(acfg, s', keep, purge))
  {
    hide A.StateOk, D.StateOk, Follows, Missed, ChunksBelow, Intact, Take, DeliverAll, Kept, A.EndPacket;
    var packet, kept, n := s.st.out.value, Kept(s.packets, keep), |s.packets|;
    var s' := Sent(s.st.(out := None, timer := None), s.packets + [packet], s.finished);
    var d := DeliverAll(acfg, kept, purge);
    NoFrameUnderWay(dcfg, s.st);
    KeptMore(s.packets, packet, keep);
    PacketDelivered(acfg, kept, packet, purge);
    var after := DeliverAll(acfg, Kept(s'.packets, keep), purge);
    TakeOne(acfg, after.st);
    assert after.frames + [] == after.frames && kept + [] == kept;
    if keep(n) {
      PacketEnded(acfg, Take(acfg, d.st, packet).st, purge(|kept|));
    }
    OneMoreEmpty(Sofar(s), s.finished, s.st.frameId, keep);
    assert Sofar(s') == Sofar(s) + [[]];
  }

  lemma TickSynced(acfg: A.Config, dcfg: D.Config, s: Sent, dt: nat, keep: nat -> bool, purge: nat -> bool)
    requires A.ConfigOk(acfg) && D.ConfigOk(dcfg) && D.StateOk(dcfg, s.st) && PacketsOk(dcfg, s.packets)
    requires LossySync(acfg, dcfg, s, keep, ReceivedKept(acfg, s, keep, purge))
    ensures var s' := Next(dcfg, s, D.Tick(dt)); LossySync(acfg, dcfg, s', keep, ReceivedKept(acfg, s', keep, purge))
  {
    hide ReceivedKept, Follows, Missed, Intact, A.StateOk;
    SameReceived(acfg, s, s.(st := s.st.(now := s.st.now + dt)), keep, purge);
  }

  lemma NoFrameUnderWay(dcfg: D.Config, st: D.State)
    requires D.StateOk(dcfg, st) && st.out.Some?
    ensures st.frame == None
  {
  }

  lemma OneMoreEmpty(packets: seq<seq<Chunk>>, frames: seq<seq<Byte>>, n: nat, keep: nat -> bool)
    ensures ChunksBelow(packets, n) ==> ChunksBelow(packets + [[]], n)
    ensures Intact(frames, packets + [[]], keep) == Intact(frames, packets, keep)
    ensures forall id: nat :: Missed(packets + [[]], id, keep) <==> Missed(packets, id, keep)
  {
    var more := packets + [[]];
    forall id: nat
      ensures Missed(more, id, keep) <==> Missed(packets, id, keep)
    {
      if Missed(packets, id, keep) {
        var p: nat :| p < |packets| && !keep(p) && Has(packets[p], id);
        assert Has(more[p], id);
      }
    }
    IntactAlike(frames, more, packets, keep);
  }

  /**
   * Packets delivered in order, any of which may be lost: the frames that come out are, in order,
   * exactly those of which no packet is lost. So what is left of the others never gets into a frame
   * or costs one.
   */
  lemma {:induction false} IntactFramesArrive(acfg: A.Config, dcfg: D.Config, events: seq<D.Event>, keep: nat -> bool, purge: nat -> bool)
    requires A.ConfigOk(acfg) && D.ConfigOk(dcfg) && LegalRun(dcfg, events) && |SendAll(dcfg, events).finished| < FRAME_ID_LIMIT
    requires forall frame: seq<Byte> | D.Send(frame) in events :: |frame| <= acfg.frameMtu && ChunksSuffice(dcfg, acfg, |frame|)
    ensures var s := SendAll(dcfg, events);
      && LossySync(acfg, dcfg, s, keep, ReceivedKept(acfg, s, keep, purge))
      && (Unsent(s.st) == [] ==> DeliverAll(acfg, Kept(s.packets, keep), purge).frames == Intact(s.finished, s.packets, keep))
    decreases |events|
  {
    hide Next, LossySync, ChunksSuffice, ReceivedKept, D.StateOk, D.Legal;
    var s := SendAll(dcfg, events);
    if events == [] {
      SyncedAtFirst(acfg, dcfg, keep, purge);
    } else {
      var init, e := events[..|events| - 1], events[|events| - 1];
      assert events == init + [e];
      NextFinishes(dcfg, SendAll(dcfg, init), e);
      IntactFramesArrive(acfg, dcfg, init, keep, purge);
      match e
      case Send(frame) =>
        assert D.Send(frame) in events;
        SendSynced(acfg, dcfg, SendAll(dcfg, init), frame, keep, purge);
      case Request => RequestSynced(acfg, dcfg, SendAll(dcfg, init), keep, purge);
      case Timer => TimerSynced(acfg, dcfg, SendAll(dcfg, init), keep, purge);
      case Tick(dt) => TickSynced(acfg, dcfg, SendAll(dcfg, init), dt, keep, purge);
    }
    NothingUnsent(acfg, dcfg, s, keep, purge);
  }

  lemma SyncedAtFirst(acfg: A.Config, dcfg: D.Config, keep: nat -> bool, purge: nat -> bool)
    requires A.ConfigOk(acfg) && D.ConfigOk(dcfg)
    ensures var s := Sent(D.FRESH, [], []); LossySync(acfg, dcfg, s, keep, ReceivedKept(acfg, s, keep, purge))
  {
  }

  lemma NextFinishes(dcfg: D.Config, s: Sent, e: D.Event)
    requires D.ConfigOk(dcfg) && D.StateOk(dcfg, s.st) && D.Legal(s.st, e) && PacketsOk(dcfg, s.packets)
    ensures |s.finished| <= |Next(dcfg, s, e).finished|
  {
  }

  lemma NothingUnsent(acfg: A.Config, dcfg: D.Config, s: Sent, keep: nat -> bool, purge: nat -> bool)
    requires A.ConfigOk(acfg) && D.ConfigOk(dcfg) && LossySync(acfg, dcfg, s, keep, ReceivedKept(acfg, s, keep, purge))
    ensures Unsent(s.st) == [] ==> DeliverAll(acfg, Kept(s.packets, keep), purge).frames == Intact(s.finished, s.packets, keep)
  {
    hide Intact, DeliverAll, Kept, Follows;
    var d := DeliverAll(acfg, Kept(s.packets, keep), purge);
    OneMoreEmpty(s.packets, s.finished, 0, keep);
    TakeOne(acfg, d.st);
    assert d.frames + [] == d.frames;
  }
}
