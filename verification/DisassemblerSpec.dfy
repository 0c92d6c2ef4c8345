/**
 * The FragmentProto disassembler: frames of any length are cut into chunks that
 * fill packets of a fixed size, and a packet that is not full may wait for more.
 */
module DisassemblerSpec {
  import opened Bytes
  import opened FragmentProto

  /** chunkMtu is negative for no limit on chunks; latency is negative for sending packets at once. */
  datatype Config = Config(mtu: nat, chunkMtu: int, latency: int)

  predicate ConfigOk(cfg: Config) {
    cfg.mtu > HEADER_LEN && cfg.chunkMtu != 0
  }

  /**
   * frame is the input and used how much of it is written; out is the packet being filled, and begun
   * when the first chunk of it was written. The timer, if it runs, is due at some time.
   */
  datatype State = State(frame: Option<seq<Byte>>, used: nat, out: Option<seq<Chunk>>, frameId: nat, timer: Option<int>, begun: int, now: int)

  const FRESH := State(None, 0, None, 0, None, 0, 0)

  function PacketLen(cs: seq<Chunk>): nat {
    if cs == [] then 0 else PacketLen(cs[..|cs| - 1]) + HEADER_LEN + |cs[|cs| - 1].data|
  }

  /** How much payload one more chunk in a packet of the given length could carry. */
  function Room(cfg: Config, packetLen: nat): int {
    cfg.mtu - packetLen - HEADER_LEN
  }

  function Min(a: int, b: int): int {
    if a < b then a else b
  }

  function ChunkLen(cfg: Config, left: nat, room: nat): (n: nat)
    requires ConfigOk(cfg) && room > 0
    ensures n <= left && n <= room
    ensures left > 0 ==> n > 0
  {
    var n := Min(left, room);
    if cfg.chunkMtu > 0 then Min(n, cfg.chunkMtu) else n
  }

  function NextPiece(cfg: Config, id: nat, frame: seq<Byte>, used: nat, room: nat): Chunk
    requires ConfigOk(cfg) && used <= |frame| && room > 0
  {
    var n := ChunkLen(cfg, |frame| - used, room);
    Chunk(id, used, n == |frame| - used, frame[used..used + n])
  }

  /** The chunks written to a packet with some room, from a position of a frame on. */
  function Cut(cfg: Config, id: nat, frame: seq<Byte>, used: nat, room: nat): (cs: seq<Chunk>)
    requires ConfigOk(cfg) && used <= |frame| && room > 0
    ensures cs != []
    decreases |frame| - used
  {
    var c := NextPiece(cfg, id, frame, used, room);
    var used', room' := used + |c.data|, room - HEADER_LEN - |c.data|;
    [c] + if used' < |frame| && room' > 0 then Cut(cfg, id, frame, used', room') else []
  }

  function Carried(cs: seq<Chunk>): nat {
    if cs == [] then 0 else |cs[0].data| + Carried(cs[1..])
  }

  /** A step may finish the input frame and may finish a packet. */
  datatype Outcome = Outcome(st: State, finished: bool, packet: Option<seq<Chunk>>)

  predicate CanWrite(cfg: Config, st: State) {
    && st.frame.Some? && st.used <= |st.frame.value|
    && st.out.Some? && Room(cfg, PacketLen(st.out.value)) > 0
  }

  function WriteChunks(cfg: Config, st: State): Outcome
    requires ConfigOk(cfg) && CanWrite(cfg, st)
  {
    var frame := st.frame.value;
    var cs := Cut(cfg, st.frameId, frame, st.used, Room(cfg, PacketLen(st.out.value)));
    var packet := st.out.value + cs;
    var used := st.used + Carried(cs);
    var finished := used == |frame|;
    var full := Room(cfg, PacketLen(packet)) <= 0 || cfg.latency < 0;
    Outcome(State(if finished then None else Some(frame),
                  if finished then 0 else used,
                  if full then None else Some(packet),
                  if finished then (st.frameId + 1) % FRAME_ID_LIMIT else st.frameId,
                  if full then None else if st.timer.Some? then st.timer else Some(st.now + cfg.latency),
                  if st.out.value == [] then st.now else st.begun,
                  st.now),
            finished,
            if full then Some(packet) else None)
  }

  /** What happens, and that time passes. */
  datatype Event = Send(frame: seq<Byte>) | Request | Timer | Tick(dt: nat)

  /** Which events the interfaces on both sides and the reactor allow in a state. */
  predicate Legal(st: State, e: Event) {
    match e
    case Send(frame) => st.frame.None? && |frame| <= UINT16_MAX
    case Request => st.out.None?
    case Timer => st.timer.Some? && st.timer.value <= st.now && st.out.Some?
    case Tick(_) => true
  }

  /** The timer runs while the packet holds something, and is due when that has waited for the latency. */
  ghost predicate TimerOk(cfg: Config, st: State) {
    && (st.timer.Some? <==> st.out.Some? && st.out.value != [])
    && (st.timer.Some? ==> st.timer.value == st.begun + cfg.latency && cfg.latency >= 0)
  }

  ghost predicate StateOk(cfg: Config, st: State) {
    && (st.frame.None? ==> st.used == 0)
    && (st.frame.Some? ==> st.out.None? && |st.frame.value| <= UINT16_MAX && st.used <= |st.frame.value|)
    && (st.out.Some? ==> Room(cfg, PacketLen(st.out.value)) > 0 && AllEncodable(st.out.value))
    && st.frameId <= UINT16_MAX && TimerOk(cfg, st)
  }

  function Step(cfg: Config, st: State, e: Event): Outcome
    requires ConfigOk(cfg) && Legal(st, e)
    requires st.frame.Some? ==> st.used <= |st.frame.value|
    requires st.out.Some? ==> Room(cfg, PacketLen(st.out.value)) > 0
  {
    match e
    case Send(frame) =>
      var st' := st.(frame := Some(frame), used := 0);
      if st.out.None? then Outcome(st', false, None) else WriteChunks(cfg, st')
    case Request =>
      var st' := st.(out := Some([]));
      if st.frame.None? then Outcome(st', false, None) else WriteChunks(cfg, st')
    case Timer =>
      Outcome(st.(out := None, timer := None), false, st.out)
    case Tick(dt) =>
      Outcome(st.(now := st.now + dt), false, None)
  }

  lemma {:induction false} PacketLenAppend(cs: seq<Chunk>, ds: seq<Chunk>)
    ensures PacketLen(cs + ds) == PacketLen(cs) + HEADER_LEN * |ds| + Carried(ds)
    decreases |ds|
  {
    if ds == [] {
      assert cs + ds == cs;
    } else {
      PacketLenAppend(cs + [ds[0]], ds[1..]);
      assert cs + ds == cs + [ds[0]] + ds[1..];
      assert (cs + [ds[0]])[..|cs|] == cs;
    }
  }

  lemma PieceOk(cfg: Config, id: nat, frame: seq<Byte>, used: nat, room: nat)
    requires ConfigOk(cfg) && used <= |frame| <= UINT16_MAX && room > 0 && id <= UINT16_MAX
    ensures var c := NextPiece(cfg, id, frame, used, room);
      Encodable(c) && used + |c.data| <= |frame| && (used < |frame| ==> |c.data| > 0)
  {
  }

  lemma CarriedMore(c: Chunk, cs: seq<Chunk>)
    ensures Carried([c] + cs) == |c.data| + Carried(cs)
    ensures Encodable(c) && AllEncodable(cs) ==> AllEncodable([c] + cs)
  {
    assert ([c] + cs)[1..] == cs;
  }

  /** Chunks of one frame, from a position of it on: each starts where the one before it ended and holds what is there, and only one that reaches the end is the last. */
  ghost predicate CarryOn(cs: seq<Chunk>, id: nat, frame: seq<Byte>, used: nat)
    decreases |cs|
  {
    && used <= |frame|
    && (cs == [] || (Continues(cs[0], id, frame, used) && CarryOn(cs[1..], id, frame, used + |cs[0].data|)))
  }

  /** A chunk that holds what is at a position of a frame, and is the last exactly if it reaches the end. */
  ghost predicate Continues(c: Chunk, id: nat, frame: seq<Byte>, used: nat) {
    && c.frameId == id && c.start == used && used + |c.data| <= |frame|
    && c.data == frame[used..used + |c.data|]
    && (c.isLast <==> used + |c.data| == |frame|)
  }

  /** Nothing is behind a last chunk, and no other is empty. */
  ghost predicate Steady(cs: seq<Chunk>) {
    forall i | 0 <= i < |cs| :: if cs[i].isLast then i == |cs| - 1 else cs[i].data != []
  }

  lemma SteadyFirst(cs: seq<Chunk>)
    requires cs != [] && Steady(cs)
    ensures Steady(cs[1..]) && if cs[0].isLast then cs[1..] == [] else cs[0].data != []
  {
  }

  lemma SteadyMore(c: Chunk, cs: seq<Chunk>)
    requires Steady(cs) && if c.isLast then cs == [] else c.data != []
    ensures Steady([c] + cs)
  {
  }

  lemma {:induction false} CutSteady(cfg: Config, id: nat, frame: seq<Byte>, used: nat, room: nat)
    requires ConfigOk(cfg) && used <= |frame| && room > 0
    ensures Steady(Cut(cfg, id, frame, used, room))
    decreases |frame| - used
  {
    hide Steady, Cut;
    var c := NextPiece(cfg, id, frame, used, room);
    var used', room' := used + |c.data|, room - HEADER_LEN - |c.data|;
    CutFirst(cfg, id, frame, used, room);
    if used' < |frame| && room' > 0 {
      CutSteady(cfg, id, frame, used', room');
      SteadyMore(c, Cut(cfg, id, frame, used', room'));
    } else {
      NoneSteady();
      SteadyMore(c, []);
      assert [c] + [] == [c];
    }
  }

  /** Chunks that carry a frame on come to its end exactly if the last of them says so. */
  lemma {:induction false} CarryOnEnd(cs: seq<Chunk>, id: nat, frame: seq<Byte>, used: nat)
    requires cs != [] && CarryOn(cs, id, frame, used) && Steady(cs)
    ensures used + Carried(cs) <= |frame| && (cs[|cs| - 1].isLast <==> used + Carried(cs) == |frame|)
    decreases |cs|
  {
    SteadyFirst(cs);
    if |cs| > 1 {
      CarryOnEnd(cs[1..], id, frame, used + |cs[0].data|);
    }
  }

  /** No chunk is longer than the limit, if there is one, and only where a cut leaves off is one shorter. */
  lemma {:induction false} CutLimits(cfg: Config, id: nat, frame: seq<Byte>, used: nat, room: nat)
    requires ConfigOk(cfg) && used <= |frame| && room > 0
    ensures var cs := Cut(cfg, id, frame, used, room);
      && (forall i | 0 <= i < |cs| :: cfg.chunkMtu > 0 ==> |cs[i].data| <= cfg.chunkMtu)
      && (forall i | 0 <= i < |cs| - 1 :: cfg.chunkMtu > 0 && |cs[i].data| == cfg.chunkMtu)
    decreases |frame| - used
  {
    hide Cut;
    var c := NextPiece(cfg, id, frame, used, room);
    var used', room' := used + |c.data|, room - HEADER_LEN - |c.data|;
    CutFirst(cfg, id, frame, used, room);
    if used' < |frame| && room' > 0 {
      CutLimits(cfg, id, frame, used', room');
    }
  }

  /** Chunks that do not come to the end of the frame, and chunks behind them. */
  lemma SteadyAppend(cs: seq<Chunk>, ds: seq<Chunk>, id: nat, frame: seq<Byte>)
    requires CarryOn(cs, id, frame, 0) && Steady(cs) && Steady(ds) && (cs != [] ==> Carried(cs) < |frame|)
    ensures Steady(cs + ds)
  {
    hide CarryOn, Carried;
    if cs != [] {
      CarryOnEnd(cs, id, frame, 0);
    }
  }

  lemma NoneSteady()
    ensures Steady([])
  {
  }

  /** One chunk, and others that carry on from where it ends. */
  lemma CarryOnFirst(c: Chunk, cs: seq<Chunk>, id: nat, frame: seq<Byte>, used: nat)
    ensures CarryOn([c] + cs, id, frame, used) <==> CarryOn([c], id, frame, used) && CarryOn(cs, id, frame, used + |c.data|)
  {
    assert ([c] + cs)[1..] == cs;
    assert [c][1..] == [];
  }

  lemma {:induction false} CarryOnAppend(cs: seq<Chunk>, ds: seq<Chunk>, id: nat, frame: seq<Byte>, used: nat)
    requires CarryOn(cs, id, frame, used) && CarryOn(ds, id, frame, used + Carried(cs))
    ensures CarryOn(cs + ds, id, frame, used) && Carried(cs + ds) == Carried(cs) + Carried(ds)
    decreases |cs|
  {
    hide CarryOn;
    if cs == [] {
      assert cs + ds == ds;
    } else {
      var c, rest := cs[0], cs[1..];
      assert cs == [c] + rest && cs + ds == [c] + (rest + ds);
      CarryOnFirst(c, rest, id, frame, used);
      CarryOnAppend(rest, ds, id, frame, used + |c.data|);
      CarryOnFirst(c, rest + ds, id, frame, used);
      CarriedMore(c, rest);
      CarriedMore(c, rest + ds);
    }
  }

  lemma CarryOnPiece(cfg: Config, id: nat, frame: seq<Byte>, used: nat, room: nat)
    requires ConfigOk(cfg) && used <= |frame| && room > 0
    ensures var c := NextPiece(cfg, id, frame, used, room);
      |c.data| <= room && CarryOn([c], id, frame, used) && CarryOn([], id, frame, used + |c.data|)
  {
  }

  /** A cut is one piece of the frame, and what the rest is cut into if there is room for it. */
  lemma CutFirst(cfg: Config, id: nat, frame: seq<Byte>, used: nat, room: nat)
    requires ConfigOk(cfg) && used <= |frame| && room > 0
    ensures var c := NextPiece(cfg, id, frame, used, room);
      var used', room' := used + |c.data|, room - HEADER_LEN - |c.data|;
      && used' <= |frame| && (used < |frame| ==> used < used') && |c.data| <= room
      && var rest := if used' < |frame| && room' > 0 then Cut(cfg, id, frame, used', room') else [];
      && Cut(cfg, id, frame, used, room) == [c] + rest
      && Carried([c] + rest) == |c.data| + Carried(rest)
  {
    var c := NextPiece(cfg, id, frame, used, room);
    var used', room' := used + |c.data|, room - HEADER_LEN - |c.data|;
    CarriedMore(c, if used' < |frame| && room' > 0 then Cut(cfg, id, frame, used', room') else []);
  }

  /** The chunks of a cut carry the frame on from where it was, fit the packet, and leave off only at its end or when the packet is full. */
  lemma {:induction false} CutCarries(cfg: Config, id: nat, frame: seq<Byte>, used: nat, room: nat)
    requires ConfigOk(cfg) && used <= |frame| <= UINT16_MAX && room > 0 && id <= UINT16_MAX
    ensures var cs := Cut(cfg, id, frame, used, room);
      && AllEncodable(cs)
      && CarryOn(cs, id, frame, used)
      && used + Carried(cs) <= |frame|
      && HEADER_LEN * |cs| + Carried(cs) <= room + HEADER_LEN
      && (used + Carried(cs) == |frame| || room - HEADER_LEN * |cs| - Carried(cs) <= 0)
      && (used < |frame| ==> Carried(cs) > 0)
    decreases |frame| - used
  {
    hide NextPiece, AllEncodable, CarryOn, Cut, Carried;
    var c := NextPiece(cfg, id, frame, used, room);
    var used', room' := used + |c.data|, room - HEADER_LEN - |c.data|;
    CutFirst(cfg, id, frame, used, room);
    PieceOk(cfg, id, frame, used, room);
    CarryOnPiece(cfg, id, frame, used, room);
    NothingCarried();
    if used' < |frame| && room' > 0 {
      var cs := Cut(cfg, id, frame, used', room');
      CutCarries(cfg, id, frame, used', room');
      CarriedMore(c, cs);
      CarryOnFirst(c, cs, id, frame, used);
    } else {
      CarriedMore(c, []);
      assert [c] + [] == [c];
    }
  }

  lemma NothingCarried()
    ensures Carried([]) == 0 && AllEncodable([])
  {
  }

  /** A packet that is handed over can be encoded, and fits. */
  ghost predicate PacketOk(cfg: Config, packet: seq<Chunk>) {
    AllEncodable(packet) && PacketLen(packet) <= cfg.mtu
  }

  lemma WriteChunksKeepsOk(cfg: Config, st: State)
    requires ConfigOk(cfg) && CanWrite(cfg, st) && |st.frame.value| <= UINT16_MAX
    requires AllEncodable(st.out.value) && st.frameId <= UINT16_MAX && TimerOk(cfg, st)
    ensures var r := WriteChunks(cfg, st);
      && StateOk(cfg, r.st)
      && (r.packet.Some? ==> PacketOk(cfg, r.packet.value))
  {
    hide Cut, Encodable, CarryOn, PacketLen;
    var room := Room(cfg, PacketLen(st.out.value));
    var cs := Cut(cfg, st.frameId, st.frame.value, st.used, room);
    CutCarries(cfg, st.frameId, st.frame.value, st.used, room);
    PacketLenAppend(st.out.value, cs);
  }

  lemma StepKeepsOk(cfg: Config, st: State, e: Event)
    requires ConfigOk(cfg) && StateOk(cfg, st) && Legal(st, e)
    ensures var r := Step(cfg, st, e);
      && StateOk(cfg, r.st)
      && (r.packet.Some? ==> PacketOk(cfg, r.packet.value))
  {
    hide WriteChunks, Encodable;
    match e
    case Send(frame) =>
      if st.out.Some? { WriteChunksKeepsOk(cfg, st.(frame := Some(frame), used := 0)); }
    case Request =>
      if st.frame.Some? { WriteChunksKeepsOk(cfg, st.(out := Some([]))); }
    case Timer =>
    case Tick(dt) =>
  }

  /** Whether a packet holds something that waits to be handed over. */
  predicate Holding(st: State) {
    st.out.Some? && st.out.value != []
  }

  /**
   * When packets are handed over: by any event but the timer's only full ones, if they may wait at
   * all; if they may not, nothing that is written waits. The timer hands over what has waited for
   * the latency, counted from the first chunk that was written.
   */
  lemma HandsOver(cfg: Config, st: State, e: Event)
    requires ConfigOk(cfg) && StateOk(cfg, st) && Legal(st, e)
    ensures var r := Step(cfg, st, e);
      && (r.packet.Some? && !e.Timer? && cfg.latency >= 0 ==> Room(cfg, PacketLen(r.packet.value)) <= 0)
      && (cfg.latency < 0 ==> !Holding(r.st) && !e.Timer?)
      && (Holding(r.st) ==> r.st.begun == if Holding(st) then st.begun else st.now)
      && (e.Timer? ==> r.packet == st.out && st.begun + cfg.latency <= st.now)
      && (e.Tick? ==> r == Outcome(st.(now := st.now + e.dt), false, None)) && (!e.Tick? ==> r.st.now == st.now)
  {
    hide Cut, Encodable, PacketLen, Carried;
  }

  /** As many bytes are written as chunks are counted for. */
  lemma {:induction false} EncodedLen(cs: seq<Chunk>)
    requires AllEncodable(cs)
    ensures |EncodePacket(cs)| == PacketLen(cs)
  {
    if cs != [] {
      EncodedLen(cs[..|cs| - 1]);
    }
  }
}
