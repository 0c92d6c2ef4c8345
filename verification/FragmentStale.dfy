/**
 * What becomes of a frame all packets of which arrive, with whatever an assembler holds when they do:
 * it comes out, unless something else is held under its identifier that has not timed out.
 */
module FragmentStale {
  import opened Bytes
  import opened FragmentProto
  import opened FragmentRoundTrip
  import opened FragmentLoss
  import A = AssemblerSpec
  import D = DisassemblerSpec

  /** Packets delivered to a receiver in some state, from a certain one on. */
  function DeliverFrom(cfg: A.Config, st: A.State, packets: seq<seq<Chunk>>, n: nat, purge: nat -> bool): Received
    requires A.ConfigOk(cfg)
    decreases |packets| - n
  {
    if n >= |packets| then Received(st, []) else
      var d := Deliver(cfg, st, packets[n], purge(n));
      var rest := DeliverFrom(cfg, d.st, packets, n + 1, purge);
      Received(rest.st, d.frames + rest.frames)
  }

  /** Packets that carry nothing but a frame, from a position to its end. */
  ghost predicate CarryAll(packets: seq<seq<Chunk>>, n: nat, id: nat, frame: seq<Byte>, used: nat)
    decreases |packets| - n
  {
    && n < |packets| && packets[n] != [] && D.CarryOn(packets[n], id, frame, used) && D.Steady(packets[n])
    && var cs := packets[n];
    if n == |packets| - 1 then cs[|cs| - 1].isLast
    else !cs[|cs| - 1].isLast && CarryAll(packets, n + 1, id, frame, used + D.Carried(cs))
  }

  function Count(packets: seq<seq<Chunk>>, n: nat): nat
    decreases |packets| - n
  {
    if n >= |packets| then 0 else |packets[n]| + Count(packets, n + 1)
  }

  lemma {:induction false} ArrivesWhole(cfg: A.Config, st: A.State, packets: seq<seq<Chunk>>, n: nat, id: nat, frame: seq<Byte>, used: nat, purge: nat -> bool)
    requires A.ConfigOk(cfg) && |frame| <= cfg.frameMtu && CarryAll(packets, n, id, frame, used)
    requires InStep(cfg, st, id, frame, used, Count(packets, n))
    ensures DeliverFrom(cfg, st, packets, n, purge).frames == [frame]
    decreases |packets| - n
  {
    hide InStep, A.StateOk, D.Steady, D.CarryOn, Latest, NoneOf, NoOthers, Take, A.EndPacket;
    var cs, t := packets[n], Take(cfg, st, packets[n]);
    var d := A.EndPacket(cfg, t.st, purge(n));
    if n < |packets| - 1 {
      MoreToCome(packets, n + 1, id, frame, used + D.Carried(cs));
      ChunksTaken(cfg, st, cs, id, frame, used, Count(packets, n));
      SomeCarried(cs, id, frame, used);
      StepEnded(cfg, t.st, id, frame, used + D.Carried(cs), Count(packets, n + 1), purge(n));
      ArrivesWhole(cfg, d, packets, n + 1, id, frame, used + D.Carried(cs), purge);
    } else {
      ChunksTaken(cfg, st, cs, id, frame, used, Count(packets, n));
      assert DeliverFrom(cfg, d, packets, n + 1, purge) == Received(d, []);
    }
  }

  lemma MoreToCome(packets: seq<seq<Chunk>>, n: nat, id: nat, frame: seq<Byte>, used: nat)
    requires CarryAll(packets, n, id, frame, used)
    ensures Count(packets, n) > 0
  {
  }

  lemma SomeCarried(cs: seq<Chunk>, id: nat, frame: seq<Byte>, used: nat)
    requires cs != [] && D.Steady(cs) && !cs[|cs| - 1].isLast
    ensures D.Carried(cs) > 0
  {
  }

  // ----- an entry of another frame with the identifier

  /** A frame with the end that was known, and with what was held. */
  ghost predicate MadeOf(x: seq<Byte>, held: A.Partial) {
    && held.length == Some(|x|)
    && forall k | 0 <= k < |held.pieces| :: held.pieces[k].End() <= |x| && held.pieces[k].data == x[held.pieces[k].start..held.pieces[k].End()]
  }

  /** An entry that knows the end it knew before, and has more pieces. */
  ghost predicate Grown(f: A.Partial, held: A.Partial) {
    && held.length.Some? && f.length == held.length
    && |held.pieces| <= |f.pieces| && f.pieces[..|held.pieces|] == held.pieces
  }

  ghost predicate Tainted(st: A.State, id: nat, used: nat, held: A.Partial) {
    forall f | f in st.frames && f.id == id :: Spoiled(f, used, true) || Grown(f, held)
  }

  lemma MixIsMade(cfg: A.Config, f: A.Partial, p: A.Piece, clock: nat, held: A.Partial)
    requires A.PartialOk(cfg, f, clock) && A.Fits(f, p, false) && p.End() <= cfg.frameMtu && Grown(f, held)
    requires A.Complete(A.Add(f, p, false, clock))
    ensures MadeOf(A.Assembled(A.Add(f, p, false, clock)), held)
  {
    hide A.Fits, A.Complete, A.Assembled, A.PartialOk;
    var f' := A.Add(f, p, false, clock);
    var x := A.Assembled(f');
    A.CompletedIsTiled(cfg, f, p, false, clock);
    forall k | 0 <= k < |held.pieces|
      ensures held.pieces[k].End() <= |x| && held.pieces[k].data == x[held.pieces[k].start..held.pieces[k].End()]
    {
      assert f'.pieces[k] == f.pieces[..|held.pieces|][k];
      PieceOfTiled(x, f'.pieces, k);
    }
  }

  lemma PieceOfTiled(x: seq<Byte>, ps: seq<A.Piece>, k: nat)
    requires A.TiledBy(x, ps) && k < |ps|
    ensures ps[k].End() <= |x| && ps[k].data == x[ps[k].start..ps[k].End()]
  {
    forall i: nat | i < |ps[k].data|
      ensures ps[k].data[i] == x[ps[k].start..ps[k].End()][i]
    {
      assert ps[k].Contains(ps[k].start + i);
    }
  }

  lemma ChunkTainted(cfg: A.Config, st: A.State, c: Chunk, id: nat, frame: seq<Byte>, used: nat, held: A.Partial)
    requires A.ConfigOk(cfg) && |frame| <= cfg.frameMtu && D.Continues(c, id, frame, used) && (c.isLast || c.data != [])
    requires A.StateOk(cfg, st) && Tainted(st, id, used, held) && (used > 0 || !NotHeld(cfg, st, id))
    ensures var r := A.Arrive(cfg, st, c);
      && A.StateOk(cfg, r.st) && (r.frame.Some? ==> MadeOf(r.frame.value, held))
      && (!c.isLast ==> Tainted(r.st, id, used + |c.data|, held))
  {
    hide A.Fits, A.Complete, A.Prepare, A.PartialOk, Spoiled, A.Assembled, A.Arrive, MadeOf;
    var frames, p := A.Prepare(cfg, st, id), A.Piece(c.start, c.data);
    var e := frames[A.IndexOf(frames, id)];
    A.ArriveKeepsOk(cfg, st, c);
    A.PrepareKeepsOk(cfg, st, id);
    ArriveLeaves(cfg, st, c);
    GoesTo(cfg, st, id);
    if NotHeld(cfg, st, id) {
      BlankIsSpoiled(id, st.clock, used, true);
    }
    if Joins(cfg, st, c) {
      if Spoiled(e, used, true) {
        SpoiledStays(e, p, c.isLast, st.clock, used, true);
      } else {
        KnownEnd(e, p, c.isLast);
        if A.Complete(EntryWith(cfg, st, c)) {
          MixIsMade(cfg, e, p, st.clock, held);
        }
      }
    }
  }

  lemma KnownEnd(f: A.Partial, p: A.Piece, isLast: bool)
    requires A.Fits(f, p, isLast) && f.length.Some?
    ensures !isLast
  {
  }

  lemma {:induction false} ChunksTainted(cfg: A.Config, st: A.State, cs: seq<Chunk>, id: nat, frame: seq<Byte>, used: nat, held: A.Partial)
    requires A.ConfigOk(cfg) && |frame| <= cfg.frameMtu && cs != [] && D.CarryOn(cs, id, frame, used) && D.Steady(cs)
    requires A.StateOk(cfg, st) && Tainted(st, id, used, held) && (used > 0 || !NotHeld(cfg, st, id))
    ensures var t := Take(cfg, st, cs);
      && A.StateOk(cfg, t.st) && (forall x | x in t.frames :: MadeOf(x, held))
      && (!cs[|cs| - 1].isLast ==> Tainted(t.st, id, used + D.Carried(cs), held))
    decreases |cs|
  {
    hide A.Arrive, A.StateOk, D.Steady, Take, Tainted, MadeOf, NotHeld;
    var c, rest := cs[0], cs[1..];
    var r := A.Arrive(cfg, st, c);
    D.SteadyFirst(cs);
    ChunkTainted(cfg, st, c, id, frame, used, held);
    assert cs == [c] + rest;
    TakeFirst(cfg, st, c, rest);
    TakeOne(cfg, r.st);
    if rest != [] {
      ChunksTainted(cfg, r.st, rest, id, frame, used + |c.data|, held);
      D.CarriedMore(c, rest);
    }
  }

  lemma {:induction false} ArrivesTainted(cfg: A.Config, st: A.State, packets: seq<seq<Chunk>>, n: nat, id: nat, frame: seq<Byte>, used: nat, purge: nat -> bool, held: A.Partial)
    requires A.ConfigOk(cfg) && |frame| <= cfg.frameMtu && CarryAll(packets, n, id, frame, used)
    requires A.StateOk(cfg, st) && Tainted(st, id, used, held) && (used > 0 || !NotHeld(cfg, st, id))
    ensures forall x | x in DeliverFrom(cfg, st, packets, n, purge).frames :: MadeOf(x, held)
    decreases |packets| - n
  {
    hide A.StateOk, D.Steady, D.CarryOn, Take, A.EndPacket, MadeOf, NotHeld;
    var cs, t := packets[n], Take(cfg, st, packets[n]);
    var d := A.EndPacket(cfg, t.st, purge(n));
    ChunksTainted(cfg, st, cs, id, frame, used, held);
    PacketEnded(cfg, t.st, purge(n));
    if n < |packets| - 1 {
      SomeCarried(cs, id, frame, used);
      ArrivesTainted(cfg, d, packets, n + 1, id, frame, used + D.Carried(cs), purge, held);
    } else {
      assert DeliverFrom(cfg, d, packets, n + 1, purge) == Received(d, []);
    }
  }

  /** An entry that holds some byte of its frame, or knows its end, as every entry does that chunks of a sender have made. */
  ghost predicate HoldsSome(f: A.Partial) {
    f.length.Some? || exists k :: 0 <= k < |f.pieces| && f.pieces[k].data != []
  }

  /**
   * All packets of a frame arrive, in order, at an assembler in any state. If no entry under the
   * frame's identifier is live, the frame comes out, and nothing else. If one is, the only thing
   * that can come out has the end that was known there, and what was held there in its place. So
   * unless the frame happens to be like that, it comes out exactly if no such entry is live.
   */
  lemma ArrivesUnlessHeld(cfg: A.Config, st: A.State, packets: seq<seq<Chunk>>, id: nat, frame: seq<Byte>, purge: nat -> bool)
    requires A.ConfigOk(cfg) && A.StateOk(cfg, st) && |frame| <= cfg.frameMtu
    requires CarryAll(packets, 0, id, frame, 0) && Count(packets, 0) <= cfg.numChunks
    requires NotHeld(cfg, st, id) || HoldsSome(st.frames[A.IndexOf(st.frames, id)])
    ensures var d := DeliverFrom(cfg, st, packets, 0, purge);
      if NotHeld(cfg, st, id) then d.frames == [frame]
      else
        var held := st.frames[A.IndexOf(st.frames, id)];
        && (forall x | x in d.frames :: MadeOf(x, held))
        && (!MadeOf(frame, held) ==> frame !in d.frames)
        && (held.length == None ==> d.frames == [])
  {
    hide A.StateOk, CarryAll, Count, DeliverFrom;
    if NotHeld(cfg, st, id) {
      ArrivesWhole(cfg, st, packets, 0, id, frame, 0, purge);
    } else {
      var held := st.frames[A.IndexOf(st.frames, id)];
      TaintedAtFirst(cfg, st, id);
      ArrivesTainted(cfg, st, packets, 0, id, frame, 0, purge, held);
      var d := DeliverFrom(cfg, st, packets, 0, purge);
      if held.length == None && d.frames != [] {
        assert d.frames[0] in d.frames;
      }
    }
  }

  lemma TaintedAtFirst(cfg: A.Config, st: A.State, id: nat)
    requires A.StateOk(cfg, st) && !NotHeld(cfg, st, id) && HoldsSome(st.frames[A.IndexOf(st.frames, id)])
    ensures Tainted(st, id, 0, st.frames[A.IndexOf(st.frames, id)])
  {
    var held := st.frames[A.IndexOf(st.frames, id)];
    if held.length.None? {
      var k :| 0 <= k < |held.pieces| && held.pieces[k].data != [];
      assert Stray(held.pieces[k], 0);
    }
  }
}
