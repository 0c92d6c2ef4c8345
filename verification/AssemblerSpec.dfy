/**
 * What the FragmentProto assembler is meant to do, with none of the bookkeeping
 * that makes it fast: packets are numbered by an unbounded counter, a partial
 * frame is the pieces accepted for it, and a frame is complete when its pieces
 * cover it.
 */
module AssemblerSpec {
  import opened Bytes
  import opened FragmentProto
  import opened Lists

  datatype Config = Config(frameMtu: nat, numFrames: nat, numChunks: nat)

  datatype Piece = Piece(start: nat, data: seq<Byte>) {
    function End(): nat { start + |data| }

    predicate Contains(i: int) { start <= i < End() }
  }

  /** The pieces accepted so far for one frame; last is the packet that brought the latest one. */
  datatype Partial = Partial(id: nat, last: nat, pieces: seq<Piece>, length: Option<nat>)

  /** The partial frames are in the order in which their entries were allocated. */
  datatype State = State(clock: nat, frames: seq<Partial>)

  const FRESH := State(0, [])

  // ----- one frame

  predicate Overlap(a: Piece, b: Piece) {
    a.End() > b.start && b.End() > a.start
  }

  /** Whether a piece can join a partial frame. A last piece fixes the length of the frame. */
  predicate Fits(f: Partial, p: Piece, isLast: bool) {
    && (forall k | 0 <= k < |f.pieces| :: !Overlap(f.pieces[k], p))
    && if isLast then
         f.length.None? && forall k | 0 <= k < |f.pieces| :: f.pieces[k].End() <= p.End()
       else
         f.length.Some? ==> p.End() <= f.length.value
  }

  function Add(f: Partial, p: Piece, isLast: bool, clock: nat): Partial {
    Partial(f.id, clock, f.pieces + [p], if isLast then Some(p.End()) else f.length)
  }

  predicate Touched(ps: seq<Piece>, i: nat) {
    exists k | 0 <= k < |ps| :: ps[k].Contains(i)
  }

  /** Every position below n lies in some piece. */
  predicate Covers(ps: seq<Piece>, n: nat) {
    forall i: nat | i < n :: Touched(ps, i)
  }

  predicate Complete(f: Partial) {
    f.length.Some? && Covers(f.pieces, f.length.value)
  }

  /** The byte that a piece containing a position holds for it. */
  function ByteAt(ps: seq<Piece>, i: nat): (b: Byte)
    requires Touched(ps, i)
  {
    var p := ps[|ps| - 1];
    if p.Contains(i) then p.data[i - p.start] else ByteAt(ps[..|ps| - 1], i)
  }

  /** The frame that complete pieces make up. */
  function Assembled(f: Partial): (frame: seq<Byte>)
    requires Complete(f)
    ensures |frame| == f.length.value
  {
    seq(f.length.value, i requires 0 <= i < f.length.value => ByteAt(f.pieces, i))
  }

  // ----- the pool of frames

  predicate TimedOut(cfg: Config, f: Partial, clock: nat)
  {
    clock - f.last > cfg.numFrames
  }

  /** The position of the partial frame with an identifier, or the number of frames if there is none. */
  function IndexOf(frames: seq<Partial>, id: nat): (k: nat)
    ensures k <= |frames|
    ensures k < |frames| ==> frames[k].id == id
    ensures forall j | 0 <= j < k :: frames[j].id != id
  {
    if frames == [] then 0
    else if frames[0].id == id then 0
    else 1 + IndexOf(frames[1..], id)
  }

  function Without(frames: seq<Partial>, k: nat): (r: seq<Partial>)
    requires k < |frames|
    ensures |r| == |frames| - 1
  {
    frames[..k] + frames[k + 1..]
  }

  /** A new entry goes to the end; in a full pool it takes the place of the oldest one. */
  function Allocate(cfg: Config, frames: seq<Partial>, id: nat, clock: nat): (r: seq<Partial>)
    requires cfg.numFrames > 0
    ensures r != [] && r[|r| - 1] == Partial(id, clock, [], None)
  {
    (if |frames| >= cfg.numFrames then frames[1..] else frames) + [Partial(id, clock, [], None)]
  }

  /** The pool in which the chunks of a frame are collected: a timed-out entry is started afresh. */
  function Prepare(cfg: Config, st: State, id: nat): (frames: seq<Partial>)
    requires cfg.numFrames > 0
    ensures IndexOf(frames, id) < |frames|
  {
    var k := IndexOf(st.frames, id);
    var frames :=
      if k == |st.frames| then Allocate(cfg, st.frames, id, st.clock)
      else if TimedOut(cfg, st.frames[k], st.clock) then Allocate(cfg, Without(st.frames, k), id, st.clock)
      else st.frames;
    IndexOfFound(frames, id, if k < |st.frames| && !TimedOut(cfg, st.frames[k], st.clock) then k else |frames| - 1);
    frames
  }

  lemma IndexOfFound(frames: seq<Partial>, id: nat, k: nat)
    requires k < |frames| && frames[k].id == id
    ensures IndexOf(frames, id) <= k
  {
  }

  lemma {:induction false} UpdateKeepsIndex(frames: seq<Partial>, k: nat, f: Partial)
    requires k < |frames| && k == IndexOf(frames, f.id)
    ensures IndexOf(frames[k := f], f.id) == k
    ensures Without(frames[k := f], k) == Without(frames, k)
  {
    if k > 0 {
      UpdateKeepsIndex(frames[1..], k - 1, f);
      assert frames[k := f][1..] == frames[1..][k - 1 := f];
    }
  }

  datatype Outcome = Outcome(st: State, frame: Option<seq<Byte>>)

  /** Puts a piece into the k-th frame of the pool, which completes, fails or goes on waiting. */
  function Place(cfg: Config, frames: seq<Partial>, k: nat, p: Piece, isLast: bool, clock: nat): Outcome
    requires k < |frames|
  {
    var f := frames[k];
    var f' := Add(f, p, isLast, clock);
    if !Fits(f, p, isLast) then
      Outcome(State(clock, Without(frames, k)), None)
    else if Complete(f') then
      Outcome(State(clock, Without(frames, k)), Some(Assembled(f')))
    else if |f'.pieces| == cfg.numChunks then
      Outcome(State(clock, Without(frames, k)), None)
    else
      Outcome(State(clock, frames[k := f']), None)
  }

  /** The arrival of one chunk. */
  function Arrive(cfg: Config, st: State, c: Chunk): Outcome
    requires cfg.numFrames > 0
  {
    if c.start + |c.data| > cfg.frameMtu then
      Outcome(st, None)
    else
      var frames := Prepare(cfg, st, c.frameId);
      Place(cfg, frames, IndexOf(frames, c.frameId), Piece(c.start, c.data), c.isLast, st.clock)
  }

  function Live(cfg: Config, frames: seq<Partial>, clock: nat): (r: seq<Partial>)
    ensures |r| <= |frames|
  {
    if frames == [] then []
    else
      (if TimedOut(cfg, frames[0], clock) then [] else [frames[0]]) + Live(cfg, frames[1..], clock)
  }

  /** The end of a packet. Timed-out frames may be dropped then, and are when purge is set. */
  function EndPacket(cfg: Config, st: State, purge: bool): State {
    State(st.clock + 1, if purge then Live(cfg, st.frames, st.clock) else st.frames)
  }

  /** What became of a packet: the frame that stopped its processing and the chunks still to come, or neither. */
  datatype Progress = Progress(st: State, rest: seq<Chunk>, frame: Option<seq<Byte>>)

  /** The chunks of a packet are taken in order until one completes a frame or the packet is used up. */
  function Feed(cfg: Config, st: State, cs: seq<Chunk>, purge: bool): Progress
    requires cfg.numFrames > 0
    decreases |cs|
  {
    if cs == [] then
      Progress(EndPacket(cfg, st, purge), [], None)
    else
      var r := Arrive(cfg, st, cs[0]);
      if r.frame.Some? then Progress(r.st, cs[1..], r.frame) else Feed(cfg, r.st, cs[1..], purge)
  }

  // ----- pieces that do not overlap and fill their frame are a tiling of it

  ghost predicate Apart(ps: seq<Piece>) {
    forall i, j | 0 <= i < j < |ps| :: !Overlap(ps[i], ps[j])
  }

  ghost predicate Within(ps: seq<Piece>, n: nat) {
    forall k | 0 <= k < |ps| :: ps[k].End() <= n
  }

  function Total(ps: seq<Piece>): nat {
    if ps == [] then 0 else Total(ps[..|ps| - 1]) + |ps[|ps| - 1].data|
  }

  ghost function Positions(lo: nat, hi: nat): (s: set<nat>)
    ensures forall i: nat :: i in s <==> lo <= i < hi
    ensures |s| == if lo <= hi then hi - lo else 0
  {
    if hi <= lo then {} else Positions(lo, hi - 1) + {hi - 1}
  }

  lemma TouchedByLast(ps: seq<Piece>, i: nat)
    requires ps != []
    ensures Touched(ps, i) <==> Touched(ps[..|ps| - 1], i) || ps[|ps| - 1].Contains(i)
  {
    var init := ps[..|ps| - 1];
    if Touched(init, i) {
      var k :| 0 <= k < |init| && init[k].Contains(i);
      assert ps[k].Contains(i);
    }
    if Touched(ps, i) && !ps[|ps| - 1].Contains(i) {
      var k :| 0 <= k < |ps| && ps[k].Contains(i);
      assert init[k].Contains(i);
    }
  }

  ghost function Covered(ps: seq<Piece>): (s: set<nat>)
    ensures forall i: nat :: i in s <==> Touched(ps, i)
  {
    if ps == [] then {}
    else
      var init, last := ps[..|ps| - 1], ps[|ps| - 1];
      var s := Covered(init) + Positions(last.start, last.End());
      assert forall i: nat :: Touched(ps, i) <==> Touched(init, i) || last.Contains(i) by {
        forall i: nat ensures Touched(ps, i) <==> Touched(init, i) || last.Contains(i) { TouchedByLast(ps, i); }
      }
      s
  }

  lemma {:induction false} CoveredSize(ps: seq<Piece>)
    requires Apart(ps)
    ensures |Covered(ps)| == Total(ps)
  {
    if ps != [] {
      var init, last := ps[..|ps| - 1], ps[|ps| - 1];
      CoveredSize(init);
      LastIsApart(ps);
      hide Apart, Touched, Positions;
      assert Covered(ps) == Covered(init) + Positions(last.start, last.End());
    }
  }

  lemma LastIsApart(ps: seq<Piece>)
    requires ps != [] && Apart(ps)
    ensures var last := ps[|ps| - 1]; Covered(ps[..|ps| - 1]) !! Positions(last.start, last.End())
  {
    hide Covered, Positions;
    var init, last := ps[..|ps| - 1], ps[|ps| - 1];
    forall i: nat | Touched(init, i) ensures !last.Contains(i) {
      var k :| 0 <= k < |init| && init[k].Contains(i);
      assert !Overlap(ps[k], last);
    }
  }

  /** The running sum of lengths decides coverage: it never exceeds the length, and reaches it exactly when every position is covered. */
  lemma SumDecidesCoverage(ps: seq<Piece>, n: nat)
    requires Apart(ps) && Within(ps, n)
    ensures Total(ps) <= n
    ensures Total(ps) == n <==> Covers(ps, n)
  {
    CoveredSize(ps);
    assert Covered(ps) <= Positions(0, n);
    SubsetSize(Covered(ps), Positions(0, n));
    assert Covers(ps, n) <==> Covered(ps) == Positions(0, n);
  }

  lemma {:induction false} ByteAtIsUnique(ps: seq<Piece>, k: nat, i: nat)
    requires Apart(ps) && k < |ps| && ps[k].Contains(i)
    ensures Touched(ps, i) && ByteAt(ps, i) == ps[k].data[i - ps[k].start]
  {
    if k < |ps| - 1 {
      assert !Overlap(ps[k], ps[|ps| - 1]);
      ByteAtIsUnique(ps[..|ps| - 1], k, i);
    }
  }

  // ----- what holds in every state the assembler can reach

  ghost predicate PartialOk(cfg: Config, f: Partial, clock: nat) {
    && f.last <= clock
    && Apart(f.pieces)
    && Within(f.pieces, cfg.frameMtu)
    && (f.length.Some? ==> f.length.value <= cfg.frameMtu && Within(f.pieces, f.length.value))
    && |f.pieces| < cfg.numChunks
    && !Complete(f)
  }

  ghost predicate DistinctIds(frames: seq<Partial>) {
    forall i, j | 0 <= i < j < |frames| :: frames[i].id != frames[j].id
  }

  ghost predicate FramesOk(cfg: Config, frames: seq<Partial>, clock: nat) {
    && |frames| <= cfg.numFrames
    && DistinctIds(frames)
    && forall k | 0 <= k < |frames| :: PartialOk(cfg, frames[k], clock)
  }

  ghost predicate StateOk(cfg: Config, st: State) {
    FramesOk(cfg, st.frames, st.clock)
  }

  ghost predicate ConfigOk(cfg: Config) {
    0 < cfg.numFrames && 0 < cfg.numChunks
  }

  lemma WithoutKeepsDistinct(frames: seq<Partial>, k: nat)
    requires DistinctIds(frames) && k < |frames|
    ensures DistinctIds(Without(frames, k))
  {
  }

  lemma AppendKeepsDistinct(frames: seq<Partial>, f: Partial)
    requires DistinctIds(frames) && IndexOf(frames, f.id) == |frames|
    ensures DistinctIds(frames + [f])
  {
  }

  lemma WithoutKeepsOk(cfg: Config, frames: seq<Partial>, k: nat, clock: nat)
    requires FramesOk(cfg, frames, clock) && k < |frames|
    ensures FramesOk(cfg, Without(frames, k), clock)
    ensures forall f | f in Without(frames, k) :: f.id != frames[k].id
  {
  }

  lemma AllocateKeepsOk(cfg: Config, frames: seq<Partial>, id: nat, clock: nat)
    requires ConfigOk(cfg) && FramesOk(cfg, frames, clock)
    requires forall f | f in frames :: f.id != id
    ensures FramesOk(cfg, Allocate(cfg, frames, id, clock), clock)
  {
  }

  lemma PrepareKeepsOk(cfg: Config, st: State, id: nat)
    requires ConfigOk(cfg) && StateOk(cfg, st)
    ensures FramesOk(cfg, Prepare(cfg, st, id), st.clock)
  {
    var k := IndexOf(st.frames, id);
    if k == |st.frames| {
      AllocateKeepsOk(cfg, st.frames, id, st.clock);
    } else if TimedOut(cfg, st.frames[k], st.clock) {
      WithoutKeepsOk(cfg, st.frames, k, st.clock);
      AllocateKeepsOk(cfg, Without(st.frames, k), id, st.clock);
    }
  }

  /** An arrival for an identifier that a full pool does not know takes the entry that was allocated first. */
  ghost predicate Evicts(cfg: Config, st: State, id: nat) {
    |st.frames| >= cfg.numFrames && IndexOf(st.frames, id) == |st.frames|
  }

  /** The chunks of a frame are collected in its entry as it is, or in a fresh one; of the other frames at most the first goes. */
  lemma PrepareChooses(cfg: Config, st: State, id: nat)
    requires ConfigOk(cfg) && StateOk(cfg, st)
    ensures var frames, k := Prepare(cfg, st, id), IndexOf(st.frames, id);
      && frames[IndexOf(frames, id)] ==
         (if k < |st.frames| && !TimedOut(cfg, st.frames[k], st.clock) then st.frames[k] else Partial(id, st.clock, [], None))
      && (forall f: Partial | f.id != id :: f in frames <==> f in st.frames && !(Evicts(cfg, st, id) && f == st.frames[0]))
  {
    var frames, k := Prepare(cfg, st, id), IndexOf(st.frames, id);
    PrepareKeepsOk(cfg, st, id);
    if k == |st.frames| || TimedOut(cfg, st.frames[k], st.clock) {
      var blank := Partial(id, st.clock, [], None);
      var base := if k == |st.frames| then st.frames else Without(st.frames, k);
      var kept := if |base| >= cfg.numFrames then base[1..] else base;
      assert frames == kept + [blank];
      assert frames[|frames| - 1] == blank;
      OnlyIndex(frames, |frames| - 1);
      KeptBut(st.frames, k, id, base);
      forall f: Partial | f.id != id
        ensures f in frames <==> f in kept
      {
      }
      if |base| >= cfg.numFrames {
        assert base == [base[0]] + base[1..];
      }
    }
  }

  /** Taking out the frame with an identifier, if there is one, takes out no other. */
  lemma KeptBut(frames: seq<Partial>, k: nat, id: nat, base: seq<Partial>)
    requires k == IndexOf(frames, id) && base == if k == |frames| then frames else Without(frames, k)
    ensures forall f: Partial | f.id != id :: f in base <==> f in frames
  {
    if k < |frames| {
      assert frames == frames[..k] + [frames[k]] + frames[k + 1..];
    }
  }

  lemma OnlyIndex(frames: seq<Partial>, k: nat)
    requires DistinctIds(frames) && k < |frames|
    ensures IndexOf(frames, frames[k].id) == k
  {
    IndexOfFound(frames, frames[k].id, k);
  }

  /** Which frames a chunk of another frame leaves alone. */
  lemma ArriveKeepsOthers(cfg: Config, st: State, c: Chunk, f: Partial)
    requires ConfigOk(cfg) && StateOk(cfg, st) && f.id != c.frameId
    ensures f in Arrive(cfg, st, c).st.frames <==>
      f in st.frames && !(c.start + |c.data| <= cfg.frameMtu && Evicts(cfg, st, c.frameId) && f == st.frames[0])
  {
    hide Fits, Complete, Assembled, Prepare;
    if c.start + |c.data| <= cfg.frameMtu {
      PrepareChooses(cfg, st, c.frameId);
      var frames := Prepare(cfg, st, c.frameId);
      PlaceKeepsOthers(cfg, frames, IndexOf(frames, c.frameId), Piece(c.start, c.data), c.isLast, st.clock, f);
    }
  }

  lemma PlaceKeepsOthers(cfg: Config, frames: seq<Partial>, k: nat, p: Piece, isLast: bool, clock: nat, f: Partial)
    requires k < |frames| && k == IndexOf(frames, frames[k].id) && f.id != frames[k].id
    requires f.id != Add(frames[k], p, isLast, clock).id
    ensures f in Place(cfg, frames, k, p, isLast, clock).st.frames <==> f in frames
  {
    hide Fits, Complete, Assembled, Without, Add;
    KeptBut(frames, k, frames[k].id, Without(frames, k));
    UpdateKeepsOthers(frames, k, Add(frames[k], p, isLast, clock), f);
  }

  lemma UpdateKeepsOthers(frames: seq<Partial>, k: nat, g: Partial, f: Partial)
    requires k < |frames| && f != frames[k] && f != g
    ensures f in frames[k := g] <==> f in frames
  {
    if f in frames {
      var i :| 0 <= i < |frames| && frames[i] == f;
      assert frames[k := g][i] == f;
    }
  }

  /** Some frame that has not timed out is dropped to make room for another. */
  ghost predicate DropsLive(cfg: Config, st: State, c: Chunk)
    requires ConfigOk(cfg)
  {
    exists f :: f in st.frames && f.id != c.frameId && !TimedOut(cfg, f, st.clock) && f !in Arrive(cfg, st, c).st.frames
  }

  /** An arrival costs a live frame of another identifier exactly if it evicts and the entry allocated first is live, no matter which others have timed out. */
  lemma DropsLiveExactly(cfg: Config, st: State, c: Chunk)
    requires ConfigOk(cfg) && StateOk(cfg, st)
    ensures DropsLive(cfg, st, c) <==>
      c.start + |c.data| <= cfg.frameMtu && Evicts(cfg, st, c.frameId) && !TimedOut(cfg, st.frames[0], st.clock)
  {
    hide Arrive;
    forall f: Partial | f.id != c.frameId
      ensures f in Arrive(cfg, st, c).st.frames <==>
        f in st.frames && !(c.start + |c.data| <= cfg.frameMtu && Evicts(cfg, st, c.frameId) && f == st.frames[0])
    {
      ArriveKeepsOthers(cfg, st, c, f);
    }
    if Evicts(cfg, st, c.frameId) {
      assert st.frames[0] in st.frames && st.frames[0].id != c.frameId;
    }
  }

  lemma AddKeepsApart(cfg: Config, f: Partial, p: Piece, isLast: bool, clock: nat)
    requires PartialOk(cfg, f, clock) && Fits(f, p, isLast) && p.End() <= cfg.frameMtu
    ensures var f' := Add(f, p, isLast, clock);
      && Apart(f'.pieces) && Within(f'.pieces, cfg.frameMtu)
      && (f'.length.Some? ==> f'.length.value <= cfg.frameMtu && Within(f'.pieces, f'.length.value))
  {
  }

  lemma PlaceKeepsOk(cfg: Config, frames: seq<Partial>, k: nat, p: Piece, isLast: bool, clock: nat)
    requires FramesOk(cfg, frames, clock) && k < |frames| && p.End() <= cfg.frameMtu
    ensures StateOk(cfg, Place(cfg, frames, k, p, isLast, clock).st)
  {
    WithoutKeepsOk(cfg, frames, k, clock);
    if Fits(frames[k], p, isLast) {
      AddKeepsApart(cfg, frames[k], p, isLast, clock);
    }
  }

  /** A chunk that reaches beyond the largest frame is ignored: it costs not even the frame it names. */
  lemma BeyondIsIgnored(cfg: Config, st: State, c: Chunk)
    requires ConfigOk(cfg) && StateOk(cfg, st)
    ensures c.start + |c.data| > cfg.frameMtu ==> Arrive(cfg, st, c) == Outcome(st, None)
  {
  }

  lemma ArriveKeepsOk(cfg: Config, st: State, c: Chunk)
    requires ConfigOk(cfg) && StateOk(cfg, st)
    ensures StateOk(cfg, Arrive(cfg, st, c).st)
  {
    if c.start + |c.data| <= cfg.frameMtu {
      PrepareKeepsOk(cfg, st, c.frameId);
      var frames := Prepare(cfg, st, c.frameId);
      PlaceKeepsOk(cfg, frames, IndexOf(frames, c.frameId), Piece(c.start, c.data), c.isLast, st.clock);
    }
  }

  /** Rebasing keeps the frames that have not timed out, in the order they had. */
  lemma LiveKeepsOk(cfg: Config, frames: seq<Partial>, clock: nat)
    requires FramesOk(cfg, frames, clock)
    ensures FramesOk(cfg, Live(cfg, frames, clock), clock)
    ensures forall f :: f in Live(cfg, frames, clock) <==> f in frames && !TimedOut(cfg, f, clock)
    ensures InOrderOf(Live(cfg, frames, clock), frames)
  {
    hide Live, PartialOk, TimedOut, IndexOf;
    var live := Live(cfg, frames, clock);
    LiveIsLive(cfg, frames, clock);
    LiveInOrder(cfg, frames, clock);
    assert forall k | 0 <= k < |live| :: live[k] in live;
  }

  lemma {:induction false} LiveIsLive(cfg: Config, frames: seq<Partial>, clock: nat)
    ensures forall f :: f in Live(cfg, frames, clock) <==> f in frames && !TimedOut(cfg, f, clock)
  {
    if frames != [] {
      LiveIsLive(cfg, frames[1..], clock);
      assert frames == [frames[0]] + frames[1..];
    }
  }

  lemma {:induction false} LiveInOrder(cfg: Config, frames: seq<Partial>, clock: nat)
    requires DistinctIds(frames)
    ensures InOrderOf(Live(cfg, frames, clock), frames)
  {
    hide InOrderOf, TimedOut;
    if frames == [] {
      NoOrder(frames);
    } else {
      var rest := Live(cfg, frames[1..], clock);
      LiveInOrder(cfg, frames[1..], clock);
      LiveIsLive(cfg, frames[1..], clock);
      OrderBehind(rest, frames);
      assert [] + rest == rest;
    }
  }

  lemma NoOrder(frames: seq<Partial>)
    ensures InOrderOf([], frames)
  {
  }

  lemma OrderBehind(live: seq<Partial>, frames: seq<Partial>)
    requires frames != [] && InOrderOf(live, frames[1..]) && forall f | f in live :: f in frames[1..] && f.id != frames[0].id
    ensures InOrderOf(live, frames) && InOrderOf([frames[0]] + live, frames)
  {
    hide IndexOf;
    IndexOfFirst(frames);
    assert forall i | 0 <= i < |live| :: live[i] in live;
    forall f | f in live
      ensures 0 < IndexOf(frames, f.id) == 1 + IndexOf(frames[1..], f.id) < |frames|
    {
      IndexBehind(frames, f);
    }
  }

  lemma IndexOfFirst(frames: seq<Partial>)
    requires frames != []
    ensures IndexOf(frames, frames[0].id) == 0
  {
  }

  lemma IndexBehind(frames: seq<Partial>, f: Partial)
    requires frames != [] && f in frames[1..] && f.id != frames[0].id
    ensures 0 < IndexOf(frames, f.id) == 1 + IndexOf(frames[1..], f.id) < |frames|
  {
    var k :| 0 <= k < |frames[1..]| && frames[1..][k] == f;
    IndexOfFound(frames[1..], f.id, k);
  }

  /** The frames of one pool come in the same order in another. */
  ghost predicate InOrderOf(part: seq<Partial>, frames: seq<Partial>) {
    forall i, j | 0 <= i < j < |part| :: IndexOf(frames, part[i].id) < IndexOf(frames, part[j].id) < |frames|
  }

  lemma LaterKeepsOk(cfg: Config, frames: seq<Partial>, clock: nat)
    requires FramesOk(cfg, frames, clock)
    ensures FramesOk(cfg, frames, clock + 1)
  {
  }

  lemma EndPacketKeepsOk(cfg: Config, st: State, purge: bool)
    requires StateOk(cfg, st)
    ensures StateOk(cfg, EndPacket(cfg, st, purge))
  {
    LiveKeepsOk(cfg, st.frames, st.clock);
    LaterKeepsOk(cfg, if purge then Live(cfg, st.frames, st.clock) else st.frames, st.clock);
  }

  // ----- whole runs: any chunks, in any order, repeated, overlapping or empty

  datatype Event = Arrival(chunk: Chunk) | PacketEnd(purge: bool)

  datatype Run = Run(st: State, emitted: seq<seq<Byte>>)

  function RunOf(cfg: Config, events: seq<Event>): Run
    requires ConfigOk(cfg)
  {
    if events == [] then Run(FRESH, [])
    else
      var before := RunOf(cfg, events[..|events| - 1]);
      match events[|events| - 1]
      case PacketEnd(purge) => Run(EndPacket(cfg, before.st, purge), before.emitted)
      case Arrival(c) =>
        var r := Arrive(cfg, before.st, c);
        Run(r.st, if r.frame.Some? then before.emitted + [r.frame.value] else before.emitted)
  }

  ghost predicate Received(events: seq<Event>, id: nat, p: Piece) {
    exists c: Chunk :: Arrival(c) in events && c.frameId == id && c.start == p.start && c.data == p.data
  }

  ghost predicate AllReceived(events: seq<Event>, id: nat, ps: seq<Piece>) {
    forall k | 0 <= k < |ps| :: Received(events, id, ps[k])
  }

  /** Some chunk that was received ends the frame with an identifier, at a position. */
  ghost predicate EndReceived(events: seq<Event>, id: nat, n: nat) {
    exists c: Chunk :: Arrival(c) in events && c.frameId == id && c.isLast && c.start + |c.data| == n
  }

  ghost predicate FromReceived(events: seq<Event>, f: Partial) {
    AllReceived(events, f.id, f.pieces) && (f.length.Some? ==> EndReceived(events, f.id, f.length.value))
  }

  ghost predicate PoolReceived(events: seq<Event>, frames: seq<Partial>) {
    forall f | f in frames :: FromReceived(events, f)
  }

  /** The pieces lie side by side: each position of the frame is in one of them, in no two, and holds its byte. */
  ghost predicate TiledBy(frame: seq<Byte>, ps: seq<Piece>) {
    && Apart(ps) && Within(ps, |frame|) && Covers(ps, |frame|)
    && Total(ps) == |frame|
    && forall k: nat, i: nat | k < |ps| && ps[k].Contains(i) :: frame[i] == ps[k].data[i - ps[k].start]
  }

  ghost predicate MadeOfReceived(events: seq<Event>, frame: seq<Byte>) {
    exists id, ps :: AllReceived(events, id, ps) && TiledBy(frame, ps) && EndReceived(events, id, |frame|)
  }

  lemma CompletedIsTiled(cfg: Config, f: Partial, p: Piece, isLast: bool, clock: nat)
    requires PartialOk(cfg, f, clock) && Fits(f, p, isLast) && p.End() <= cfg.frameMtu
    requires Complete(Add(f, p, isLast, clock))
    ensures TiledBy(Assembled(Add(f, p, isLast, clock)), f.pieces + [p])
  {
    var f' := Add(f, p, isLast, clock);
    AddKeepsApart(cfg, f, p, isLast, clock);
    SumDecidesCoverage(f'.pieces, f'.length.value);
    forall k: nat, i: nat | k < |f'.pieces| && f'.pieces[k].Contains(i)
      ensures Assembled(f')[i] == f'.pieces[k].data[i - f'.pieces[k].start]
    {
      ByteAtIsUnique(f'.pieces, k, i);
    }
  }

  lemma PrepareKeepsReceived(cfg: Config, events: seq<Event>, st: State, id: nat)
    requires ConfigOk(cfg) && PoolReceived(events, st.frames)
    ensures PoolReceived(events, Prepare(cfg, st, id))
  {
    hide Prepare, Received, EndReceived;
    forall f | f in Prepare(cfg, st, id)
      ensures FromReceived(events, f)
    {
      PreparedFrames(cfg, st, id, f);
    }
  }

  /** An entry that is collected in, or kept, is one of the pool or a blank one. */
  lemma PreparedFrames(cfg: Config, st: State, id: nat, f: Partial)
    requires ConfigOk(cfg) && f in Prepare(cfg, st, id)
    ensures f in st.frames || f == Partial(id, st.clock, [], None)
  {
    var k := IndexOf(st.frames, id);
    if k < |st.frames| && TimedOut(cfg, st.frames[k], st.clock) {
      AllocatedFrames(cfg, Without(st.frames, k), id, st.clock, f);
    } else if k == |st.frames| {
      AllocatedFrames(cfg, st.frames, id, st.clock, f);
    }
  }

  lemma AllocatedFrames(cfg: Config, frames: seq<Partial>, id: nat, clock: nat, f: Partial)
    requires ConfigOk(cfg) && f in Allocate(cfg, frames, id, clock)
    ensures f in frames || f == Partial(id, clock, [], None)
  {
  }

  lemma PlaceKeepsReceived(cfg: Config, events: seq<Event>, frames: seq<Partial>, k: nat, p: Piece, isLast: bool, clock: nat)
    requires FramesOk(cfg, frames, clock) && k < |frames| && p.End() <= cfg.frameMtu
    requires PoolReceived(events, frames) && Received(events, frames[k].id, p) && (isLast ==> EndReceived(events, frames[k].id, p.End()))
    ensures var r := Place(cfg, frames, k, p, isLast, clock);
      && PoolReceived(events, r.st.frames)
      && (r.frame.Some? ==> MadeOfReceived(events, r.frame.value))
  {
    hide Received, EndReceived, TiledBy;
    var f := frames[k];
    assert f in frames;
    assert FromReceived(events, Add(f, p, isLast, clock));
    if Fits(f, p, isLast) && Complete(Add(f, p, isLast, clock)) {
      CompletedIsTiled(cfg, f, p, isLast, clock);
    }
  }

  lemma ReceivedStays(events: seq<Event>, e: Event, id: nat, ps: seq<Piece>)
    requires AllReceived(events, id, ps)
    ensures AllReceived(events + [e], id, ps)
  {
  }

  lemma EndStays(events: seq<Event>, e: Event, id: nat, n: nat)
    requires EndReceived(events, id, n)
    ensures EndReceived(events + [e], id, n)
  {
  }

  lemma ArriveKeepsReceived(cfg: Config, events: seq<Event>, st: State, c: Chunk)
    requires ConfigOk(cfg) && StateOk(cfg, st)
    requires PoolReceived(events, st.frames) && Arrival(c) in events
    ensures var r := Arrive(cfg, st, c);
      && PoolReceived(events, r.st.frames)
      && (r.frame.Some? ==> MadeOfReceived(events, r.frame.value))
  {
    if c.start + |c.data| <= cfg.frameMtu {
      var frames := Prepare(cfg, st, c.frameId);
      PrepareKeepsReceived(cfg, events, st, c.frameId);
      PrepareKeepsOk(cfg, st, c.frameId);
      PlaceKeepsReceived(cfg, events, frames, IndexOf(frames, c.frameId), Piece(c.start, c.data), c.isLast, st.clock);
    }
  }

  /**
   * In every run, every frame the assembler emits is tiled by chunks that were received under one
   * frame identifier, and ends where a chunk received under it ends that says it is the last.
   */
  lemma {:induction false} EmittedFramesAreTiled(cfg: Config, events: seq<Event>)
    requires ConfigOk(cfg)
    ensures StateOk(cfg, RunOf(cfg, events).st)
    ensures PoolReceived(events, RunOf(cfg, events).st.frames)
    ensures forall x | x in RunOf(cfg, events).emitted :: MadeOfReceived(events, x)
  {
    hide Arrive, PartialOk, AllReceived, EndReceived, TiledBy;
    if events != [] {
      var init, e := events[..|events| - 1], events[|events| - 1];
      assert events == init + [e];
      var before := RunOf(cfg, init);
      EmittedFramesAreTiled(cfg, init);
      forall f | f in before.st.frames ensures FromReceived(events, f) {
        ReceivedStays(init, e, f.id, f.pieces);
        if f.length.Some? {
          EndStays(init, e, f.id, f.length.value);
        }
      }
      forall x | x in before.emitted ensures MadeOfReceived(events, x) {
        var id, ps :| AllReceived(init, id, ps) && TiledBy(x, ps) && EndReceived(init, id, |x|);
        ReceivedStays(init, e, id, ps);
        EndStays(init, e, id, |x|);
      }
      match e
      case PacketEnd(purge) =>
        EndPacketKeepsOk(cfg, before.st, purge);
        LiveKeepsOk(cfg, before.st.frames, before.st.clock);
      case Arrival(c) =>
        ArriveKeepsOk(cfg, before.st, c);
        ArriveKeepsReceived(cfg, events, before.st, c);
    }
  }

  lemma RunMore(cfg: Config, events: seq<Event>, e: Event)
    requires ConfigOk(cfg)
    ensures var before := RunOf(cfg, events).st;
      RunOf(cfg, events + [e]).st == if e.PacketEnd? then EndPacket(cfg, before, e.purge) else Arrive(cfg, before, e.chunk).st
  {
    assert (events + [e])[..|events|] == events;
  }

  /** A first byte of a frame, and the byte after it. */
  function Opening(id: nat): Chunk { Chunk(id, 0, false, [0]) }
  function Second(id: nat): Chunk { Chunk(id, 1, false, [0]) }

  /** A chunk that does not end its frame joins what is held of it. */
  lemma JoinsFrame(cfg: Config, st: State, c: Chunk)
    requires ConfigOk(cfg) && StateOk(cfg, st) && c.start + |c.data| <= cfg.frameMtu && !c.isLast
    requires var frames := Prepare(cfg, st, c.frameId);
      var f := frames[IndexOf(frames, c.frameId)];
      f.length == None && |f.pieces| + 1 < cfg.numChunks && Within(f.pieces, c.start)
    ensures var frames := Prepare(cfg, st, c.frameId);
      var k := IndexOf(frames, c.frameId);
      Arrive(cfg, st, c) ==
        Outcome(State(st.clock, frames[k := Partial(frames[k].id, st.clock, frames[k].pieces + [Piece(c.start, c.data)], None)]), None)
  {
    hide Prepare;
  }

  /** That does happen: of two frames, the first was received again lately and the second has timed out, and a third one takes the place of the first. */
  lemma LiveFrameIsDropped() returns (cfg: Config, events: seq<Event>, c: Chunk)
    ensures ConfigOk(cfg)
    ensures var st := RunOf(cfg, events).st;
      && DropsLive(cfg, st, c)
      && exists f :: f in st.frames && TimedOut(cfg, f, st.clock) && f in Arrive(cfg, st, c).st.frames
  {
    hide RunOf, Arrive, DropsLive;
    cfg, c := Config(2, 2, 3), Opening(2);
    var two := State(0, [Partial(0, 0, [Piece(0, [0])], None), Partial(1, 0, [Piece(0, [0])], None)]);
    var start, tick := [Arrival(Opening(0)), Arrival(Opening(1))], PacketEnd(false);
    var later := start + [tick] + [tick];
    events := later + [Arrival(Second(0))] + [tick];
    TwoOpened(cfg);
    RunMore(cfg, start, tick);
    RunMore(cfg, start + [tick], tick);
    RunMore(cfg, later, Arrival(Second(0)));
    JoinsFrame(cfg, State(2, two.frames), Second(0));
    RunMore(cfg, later + [Arrival(Second(0))], tick);
    var end := RunOf(cfg, events).st;
    EmittedFramesAreTiled(cfg, events);
    DropsLiveExactly(cfg, end, c);
    ArriveKeepsOthers(cfg, end, c, end.frames[1]);
  }

  lemma TwoOpened(cfg: Config)
    requires cfg == Config(2, 2, 3)
    ensures RunOf(cfg, [Arrival(Opening(0)), Arrival(Opening(1))]).st ==
      State(0, [Partial(0, 0, [Piece(0, [0])], None), Partial(1, 0, [Piece(0, [0])], None)])
  {
    hide RunOf, Arrive, Prepare;
    OneOpened(cfg);
    RunMore(cfg, [Arrival(Opening(0))], Arrival(Opening(1)));
    JoinsPool(cfg, [Partial(0, 0, [Piece(0, [0])], None)], 1);
    assert [Arrival(Opening(0))] + [Arrival(Opening(1))] == [Arrival(Opening(0)), Arrival(Opening(1))];
  }

  lemma OneOpened(cfg: Config)
    requires cfg == Config(2, 2, 3)
    ensures RunOf(cfg, [Arrival(Opening(0))]).st == State(0, [Partial(0, 0, [Piece(0, [0])], None)])
  {
    hide RunOf, Arrive, Prepare;
    EmptyRun(cfg);
    RunMore(cfg, [], Arrival(Opening(0)));
    JoinsPool(cfg, [], 0);
    assert [] + [Arrival(Opening(0))] == [Arrival(Opening(0))];
  }

  /** A first byte is all that is held of a frame that was not known, in a pool with room. */
  lemma JoinsPool(cfg: Config, frames: seq<Partial>, id: nat)
    requires cfg == Config(2, 2, 3) && StateOk(cfg, State(0, frames)) && |frames| < 2 && IndexOf(frames, id) == |frames|
    ensures Arrive(cfg, State(0, frames), Opening(id)).st == State(0, frames + [Partial(id, 0, [Piece(0, [0])], None)])
  {
    hide Arrive;
    var f := Partial(id, 0, [], None);
    AppendKeepsDistinct(frames, f);
    OnlyIndex(frames + [f], |frames|);
    JoinsFrame(cfg, State(0, frames), Opening(id));
    assert [] + [Piece(0, [0])] == [Piece(0, [0])];
  }

  lemma EmptyRun(cfg: Config)
    requires ConfigOk(cfg)
    ensures RunOf(cfg, []) == Run(FRESH, [])
  {
  }
}
