/**
 * What an assembler makes of the chunks of a frame that arrive in any order, among those of other
 * frames: it collects them, until it has them all, or one comes twice, or too many packets go by.
 */
module FragmentOrder {
  import opened Bytes
  import opened Lists
  import opened FragmentProto
  import opened FragmentRoundTrip
  import opened FragmentLoss
  import A = AssemblerSpec
  import D = DisassemblerSpec

  // ----- the chunks of a frame, as a sender cuts it

  ghost predicate WholeFrom(cs: seq<Chunk>, id: nat, frame: seq<Byte>, used: nat) {
    cs != [] && D.CarryOn(cs, id, frame, used) && D.Steady(cs) && cs[|cs| - 1].isLast
  }

  ghost predicate Reaches(cs: seq<Chunk>, p: nat) {
    exists i :: 0 <= i < |cs| && PieceOf(cs[i]).Contains(p)
  }

  function PieceOf(c: Chunk): A.Piece {
    A.Piece(c.start, c.data)
  }

  /** Each chunk lies behind the one before it and holds what is there, only the last one says so and only it may be empty, and together they reach everything. */
  ghost predicate Tiles(cs: seq<Chunk>, id: nat, frame: seq<Byte>, used: nat) {
    && (forall i | 0 <= i < |cs| :: D.Continues(cs[i], id, frame, cs[i].start) && used <= cs[i].start)
    && (forall i | 0 <= i < |cs| :: if cs[i].isLast then i == |cs| - 1 else cs[i].data != [])
    && (forall i, j | 0 <= i < j < |cs| :: cs[i].start + |cs[i].data| <= cs[j].start)
    && (forall p: nat | used <= p < |frame| :: Reaches(cs, p))
  }

  lemma {:induction false} WholeTiles(cs: seq<Chunk>, id: nat, frame: seq<Byte>, used: nat)
    requires WholeFrom(cs, id, frame, used)
    ensures Tiles(cs, id, frame, used) && Distinct(cs)
    decreases |cs|
  {
    var c, rest := cs[0], cs[1..];
    D.SteadyFirst(cs);
    if rest != [] {
      WholeTiles(rest, id, frame, used + |c.data|);
      forall p: nat | used <= p < |frame|
        ensures Reaches(cs, p)
      {
        if p < used + |c.data| {
          assert PieceOf(cs[0]).Contains(p);
        } else {
          assert Reaches(rest, p);
          var i :| 0 <= i < |rest| && PieceOf(rest[i]).Contains(p);
          assert PieceOf(cs[i + 1]).Contains(p);
        }
      }
      forall i, j | 0 <= i < j < |cs|
        ensures cs[i].start + |cs[i].data| <= cs[j].start && cs[i] != cs[j]
      {
        assert cs[j] == rest[j - 1];
        if i > 0 {
          assert cs[i] == rest[i - 1];
        }
      }
      forall i | 0 <= i < |cs|
        ensures D.Continues(cs[i], id, frame, cs[i].start) && used <= cs[i].start
      {
        if i > 0 {
          assert cs[i] == rest[i - 1];
        }
      }
    } else {
      forall p: nat | used <= p < |frame|
        ensures Reaches(cs, p)
      {
        assert PieceOf(cs[0]).Contains(p);
      }
    }
  }

  // ----- the entry that some of them make

  function Pieces(got: seq<Chunk>): (ps: seq<A.Piece>)
    ensures |ps| == |got|
  {
    seq(|got|, i requires 0 <= i < |got| => PieceOf(got[i]))
  }

  function EndOf(got: seq<Chunk>): Option<nat> {
    if got == [] then None else
      var c := got[|got| - 1];
      if c.isLast then Some(c.start + |c.data|) else EndOf(got[..|got| - 1])
  }

  /** The entry that holds some chunks, the latest from some packet. */
  function Entry(id: nat, last: nat, got: seq<Chunk>): A.Partial {
    A.Partial(id, last, Pieces(got), EndOf(got))
  }

  lemma OneMore(id: nat, last: nat, got: seq<Chunk>, c: Chunk, clock: nat)
    ensures A.Add(Entry(id, last, got), PieceOf(c), c.isLast, clock) == Entry(id, clock, got + [c])
  {
    assert (got + [c])[..|got|] == got;
    assert Pieces(got + [c]) == Pieces(got) + [PieceOf(c)];
  }

  lemma {:induction false} EndKnown(got: seq<Chunk>)
    ensures EndOf(got).Some? <==> exists i :: 0 <= i < |got| && got[i].isLast
    ensures EndOf(got).Some? ==> exists i :: 0 <= i < |got| && got[i].isLast && EndOf(got).value == got[i].start + |got[i].data|
  {
    if got != [] {
      var init := got[..|got| - 1];
      EndKnown(init);
      if EndOf(init).Some? && !got[|got| - 1].isLast {
        var i :| 0 <= i < |init| && init[i].isLast && EndOf(init).value == init[i].start + |init[i].data|;
        assert got[i] == init[i];
      }
      if i :| 0 <= i < |got| && got[i].isLast {
        assert i < |init| ==> init[i].isLast;
      }
    }
  }

  /** Different ones of the chunks of a frame. */
  ghost predicate SomeOf(got: seq<Chunk>, cs: seq<Chunk>) {
    Distinct(got) && forall i | 0 <= i < |got| :: got[i] in cs
  }

  ghost predicate AllIn(cs: seq<Chunk>, got: seq<Chunk>) {
    forall i | 0 <= i < |cs| :: cs[i] in got
  }

  /** The end that is known is that of the frame. */
  lemma EndIsFrames(cs: seq<Chunk>, id: nat, frame: seq<Byte>, got: seq<Chunk>)
    requires Tiles(cs, id, frame, 0) && SomeOf(got, cs)
    ensures EndOf(got).Some? ==> EndOf(got).value == |frame| && cs[|cs| - 1] in got
    ensures cs != [] && cs[|cs| - 1] in got && cs[|cs| - 1].isLast ==> EndOf(got).Some?
  {
    EndKnown(got);
    if EndOf(got).Some? {
      var i :| 0 <= i < |got| && got[i].isLast && EndOf(got).value == got[i].start + |got[i].data|;
      assert got[i] in cs;
    }
  }

  /** A chunk that has not come yet joins the entry of others. */
  lemma NewJoins(cs: seq<Chunk>, id: nat, frame: seq<Byte>, got: seq<Chunk>, c: Chunk, last: nat)
    requires Tiles(cs, id, frame, 0) && SomeOf(got, cs) && c in cs && c !in got
    ensures A.Fits(Entry(id, last, got), PieceOf(c), c.isLast)
  {
    EndIsFrames(cs, id, frame, got);
    hide Tiles, Distinct;
    forall k | 0 <= k < |got|
      ensures !A.Overlap(PieceOf(got[k]), PieceOf(c)) && PieceOf(got[k]).End() <= |frame|
    {
      assert got[k] in cs && got[k] in got;
      ApartInFrame(cs, id, frame, got[k], c);
    }
    ApartInFrame(cs, id, frame, c, c);
  }

  lemma ApartInFrame(cs: seq<Chunk>, id: nat, frame: seq<Byte>, d: Chunk, c: Chunk)
    requires Tiles(cs, id, frame, 0) && d in cs && c in cs
    ensures PieceOf(d).End() <= |frame| && (d != c ==> !A.Overlap(PieceOf(d), PieceOf(c)))
    ensures c.isLast ==> c == cs[|cs| - 1] && PieceOf(c).End() == |frame|
  {
    var i :| 0 <= i < |cs| && cs[i] == d;
    var j :| 0 <= j < |cs| && cs[j] == c;
  }

  /** One that has come already does not. */
  lemma RepeatConflicts(cs: seq<Chunk>, id: nat, frame: seq<Byte>, got: seq<Chunk>, c: Chunk, last: nat)
    requires Tiles(cs, id, frame, 0) && SomeOf(got, cs) && c in got
    ensures !A.Fits(Entry(id, last, got), PieceOf(c), c.isLast)
  {
    EndKnown(got);
    var k :| 0 <= k < |got| && got[k] == c;
    assert got[k] in cs;
    assert Entry(id, last, got).pieces[k] == PieceOf(c);
    if !c.isLast {
      assert A.Overlap(PieceOf(got[k]), PieceOf(c));
    }
  }

  /** The entry is complete exactly if it has all, and then makes up the frame. */
  lemma CompleteWithAll(cs: seq<Chunk>, id: nat, frame: seq<Byte>, got: seq<Chunk>, last: nat)
    requires WholeFrom(cs, id, frame, 0) && SomeOf(got, cs)
    ensures A.Complete(Entry(id, last, got)) <==> AllIn(cs, got)
    ensures AllIn(cs, got) ==> A.Assembled(Entry(id, last, got)) == frame
  {
    hide A.Complete, A.Assembled;
    WholeTiles(cs, id, frame, 0);
    EndIsFrames(cs, id, frame, got);
    if AllIn(cs, got) {
      assert cs[|cs| - 1] in got;
      AllCover(cs, id, frame, got);
      CompleteWhen(Entry(id, last, got), frame);
      AssembledIs(Entry(id, last, got), frame, got, cs, id);
    } else {
      var i :| 0 <= i < |cs| && cs[i] !in got;
      Missing(cs, id, frame, got, last, i);
    }
  }

  lemma CompleteWhen(f: A.Partial, frame: seq<Byte>)
    requires f.length == Some(|frame|) && A.Covers(f.pieces, |frame|)
    ensures A.Complete(f)
  {
  }

  lemma AllCover(cs: seq<Chunk>, id: nat, frame: seq<Byte>, got: seq<Chunk>)
    requires Tiles(cs, id, frame, 0) && AllIn(cs, got)
    ensures A.Covers(Pieces(got), |frame|)
  {
    forall p: nat | p < |frame|
      ensures A.Touched(Pieces(got), p)
    {
      assert Reaches(cs, p);
      var i :| 0 <= i < |cs| && PieceOf(cs[i]).Contains(p);
      var k :| 0 <= k < |got| && got[k] == cs[i];
      assert Pieces(got)[k].Contains(p);
    }
  }

  lemma AssembledIs(f: A.Partial, frame: seq<Byte>, got: seq<Chunk>, cs: seq<Chunk>, id: nat)
    requires A.Complete(f) && f.pieces == Pieces(got) && f.length == Some(|frame|)
    requires Tiles(cs, id, frame, 0) && SomeOf(got, cs)
    ensures A.Assembled(f) == frame
  {
    forall k | 0 <= k < |f.pieces|
      ensures f.pieces[k].End() <= |frame| && f.pieces[k].data == frame[f.pieces[k].start..f.pieces[k].End()]
    {
      assert got[k] in cs;
    }
    forall i: nat | i < |frame|
      ensures A.Assembled(f)[i] == frame[i]
    {
      ByteAtOfFrame(f.pieces, frame, i);
    }
  }

  lemma Missing(cs: seq<Chunk>, id: nat, frame: seq<Byte>, got: seq<Chunk>, last: nat, i: nat)
    requires Tiles(cs, id, frame, 0) && SomeOf(got, cs) && i < |cs| && cs[i] !in got
    ensures !A.Complete(Entry(id, last, got))
  {
    EndIsFrames(cs, id, frame, got);
    if EndOf(got).Some? {
      var p := cs[i].start;
      assert cs[i] != cs[|cs| - 1];
      assert !A.Touched(Pieces(got), p) by {
        forall k | 0 <= k < |got|
          ensures !Pieces(got)[k].Contains(p)
        {
          assert got[k] in cs && got[k] in got;
          var j :| 0 <= j < |cs| && cs[j] == got[k];
        }
      }
    }
  }

  /** Without all of them, there are fewer. */
  lemma FewerThanAll(cs: seq<Chunk>, got: seq<Chunk>)
    requires Distinct(cs) && SomeOf(got, cs) && !AllIn(cs, got)
    ensures |got| < |cs|
  {
    assert Elements(got) < Elements(cs) by {
      assert forall x | x in got :: x in cs;
      var i :| 0 <= i < |cs| && cs[i] !in got;
      assert cs[i] in Elements(cs) && cs[i] !in Elements(got);
    }
    ElementsCount(got);
    ElementsCount(cs);
    SubsetSize(Elements(got), Elements(cs));
  }

  // ----- the place of an entry in the pool

  /** An entry is in the pool under an identifier, and those behind it are under others that have been seen. */
  ghost predicate Held(frames: seq<A.Partial>, id: nat, f: A.Partial, seen: set<nat>) {
    var k := A.IndexOf(frames, id);
    && k < |frames| && frames[k] == f
    && forall j | k < j < |frames| :: frames[j].id in seen
  }

  lemma HeldWithout(frames: seq<A.Partial>, i: nat, id: nat, f: A.Partial, seen: set<nat>)
    requires A.DistinctIds(frames) && Held(frames, id, f, seen) && i < |frames| && frames[i].id != id
    ensures Held(A.Without(frames, i), id, f, seen)
  {
    var k, r := A.IndexOf(frames, id), A.Without(frames, i);
    var k' := if i < k then k - 1 else k;
    A.WithoutKeepsDistinct(frames, i);
    assert r[k'] == frames[k];
    A.OnlyIndex(r, k');
    forall j | k' < j < |r|
      ensures r[j].id in seen
    {
      assert r[j] == frames[if j < i then j else j + 1];
    }
  }

  lemma HeldAppend(frames: seq<A.Partial>, g: A.Partial, id: nat, f: A.Partial, seen: set<nat>)
    requires A.DistinctIds(frames + [g]) && Held(frames, id, f, seen)
    ensures Held(frames + [g], id, f, seen + {g.id})
  {
    A.OnlyIndex(frames + [g], A.IndexOf(frames, id));
  }

  lemma HeldUpdate(frames: seq<A.Partial>, i: nat, g: A.Partial, id: nat, f: A.Partial, seen: set<nat>)
    requires A.DistinctIds(frames) && Held(frames, id, f, seen) && i < |frames| && frames[i].id == g.id != id
    ensures Held(frames[i := g], id, f, seen)
  {
    A.OnlyIndex(frames[i := g], A.IndexOf(frames, id));
  }

  lemma HeldMore(frames: seq<A.Partial>, id: nat, f: A.Partial, seen: set<nat>, more: set<nat>)
    requires Held(frames, id, f, seen) && seen <= more
    ensures Held(frames, id, f, more)
  {
  }

  /** An entry is only evicted after as many others have been allocated as the pool has room for. */
  lemma NotFirstOfFull(cfg: A.Config, frames: seq<A.Partial>, id: nat, f: A.Partial, seen: set<nat>, other: nat)
    requires A.DistinctIds(frames) && Held(frames, id, f, seen) && |frames| >= cfg.numFrames
    requires other != id && A.IndexOf(frames, other) == |frames| && |seen + {other}| < cfg.numFrames
    ensures A.IndexOf(frames, id) > 0
  {
    if A.IndexOf(frames, id) == 0 {
      var ids := seq(|frames|, j requires 0 <= j < |frames| => if j == 0 then other else frames[j].id);
      assert Distinct(ids);
      ElementsCount(ids);
      assert Elements(ids) <= seen + {other};
      if Elements(ids) != seen + {other} {
        SubsetSize(Elements(ids), seen + {other});
      }
    }
  }

  /** A chunk of another frame is given an entry; that costs this one nothing while few others have been seen. */
  lemma HeldPrepare(cfg: A.Config, st: A.State, other: nat, id: nat, f: A.Partial, seen: set<nat>)
    requires A.ConfigOk(cfg) && A.StateOk(cfg, st) && Held(st.frames, id, f, seen) && other != id && |seen + {other}| < cfg.numFrames
    ensures Held(A.Prepare(cfg, st, other), id, f, seen + {other})
  {
    hide A.PartialOk, Held;
    var frames, k := st.frames, A.IndexOf(st.frames, other);
    var blank := A.Partial(other, st.clock, [], None);
    A.PrepareKeepsOk(cfg, st, other);
    if k == |frames| {
      if |frames| >= cfg.numFrames {
        NotFirstOfFull(cfg, frames, id, f, seen, other);
        FirstIs(frames, id);
        HeldWithout(frames, 0, id, f, seen);
        assert frames[1..] == A.Without(frames, 0);
        HeldAppend(A.Without(frames, 0), blank, id, f, seen);
      } else {
        HeldAppend(frames, blank, id, f, seen);
      }
    } else if A.TimedOut(cfg, frames[k], st.clock) {
      HeldWithout(frames, k, id, f, seen);
      HeldAppend(A.Without(frames, k), blank, id, f, seen);
    } else {
      HeldMore(frames, id, f, seen, seen + {other});
    }
  }

  lemma FirstIs(frames: seq<A.Partial>, id: nat)
    requires frames != [] && A.IndexOf(frames, id) > 0
    ensures frames[0].id != id
  {
  }

  lemma HeldPlace(cfg: A.Config, frames: seq<A.Partial>, k: nat, p: A.Piece, isLast: bool, clock: nat, id: nat, f: A.Partial, seen: set<nat>)
    requires A.DistinctIds(frames) && Held(frames, id, f, seen) && k < |frames| && frames[k].id != id
    ensures Held(A.Place(cfg, frames, k, p, isLast, clock).st.frames, id, f, seen)
  {
    hide A.Fits, A.Complete, A.Assembled, Held;
    HeldWithout(frames, k, id, f, seen);
    HeldUpdate(frames, k, A.Add(frames[k], p, isLast, clock), id, f, seen);
  }

  /** A chunk of another frame arrives. */
  lemma HeldArrive(cfg: A.Config, st: A.State, c: Chunk, id: nat, f: A.Partial, seen: set<nat>)
    requires A.ConfigOk(cfg) && A.StateOk(cfg, st) && Held(st.frames, id, f, seen) && c.frameId != id && |seen + {c.frameId}| < cfg.numFrames
    ensures Held(A.Arrive(cfg, st, c).st.frames, id, f, seen + {c.frameId})
  {
    hide A.Place, A.Prepare, A.PartialOk, Held;
    if c.start + |c.data| <= cfg.frameMtu {
      var frames := A.Prepare(cfg, st, c.frameId);
      A.PrepareKeepsOk(cfg, st, c.frameId);
      HeldPrepare(cfg, st, c.frameId, id, f, seen);
      HeldPlace(cfg, frames, A.IndexOf(frames, c.frameId), PieceOf(c), c.isLast, st.clock, id, f, seen + {c.frameId});
    } else {
      HeldMore(st.frames, id, f, seen, seen + {c.frameId});
    }
  }

  /** A packet ends: entries that have timed out may go. */
  lemma HeldEnd(cfg: A.Config, st: A.State, purge: bool, id: nat, f: A.Partial, seen: set<nat>)
    requires A.StateOk(cfg, st) && Held(st.frames, id, f, seen) && !A.TimedOut(cfg, f, st.clock)
    ensures Held(A.EndPacket(cfg, st, purge).frames, id, f, seen)
  {
    if purge {
      var live := A.Live(cfg, st.frames, st.clock);
      A.LiveKeepsOk(cfg, st.frames, st.clock);
      HeldInOrder(st.frames, live, id, f, seen);
    }
  }

  lemma HeldInOrder(frames: seq<A.Partial>, live: seq<A.Partial>, id: nat, f: A.Partial, seen: set<nat>)
    requires A.DistinctIds(frames) && A.DistinctIds(live) && Held(frames, id, f, seen) && f in live
    requires A.InOrderOf(live, frames) && forall g | g in live :: g in frames
    ensures Held(live, id, f, seen)
  {
    hide A.IndexOf;
    var i :| 0 <= i < |live| && live[i] == f;
    A.OnlyIndex(live, i);
    forall j | i < j < |live|
      ensures live[j].id in seen
    {
      var n := A.IndexOf(frames, live[j].id);
      assert A.IndexOf(frames, live[i].id) < n < |frames|;
      assert frames[n].id == live[j].id;
    }
  }

  // ----- collecting

  /** The chunks that are still held when some packets have ended since the latest of them came. */
  function StillHeld(cfg: A.Config, got: seq<Chunk>, since: nat): seq<Chunk> {
    if since <= cfg.numFrames then got else []
  }

  /** What an assembler has of a frame: the chunks collected, so many packets after the latest. */
  ghost predicate Tracks(cfg: A.Config, st: A.State, id: nat, got: seq<Chunk>, since: nat, seen: set<nat>) {
    if StillHeld(cfg, got, since) == [] then NotHeld(cfg, st, id)
    else since <= st.clock && Held(st.frames, id, Entry(id, st.clock - since, got), seen)
  }

  /** A chunk of the frame arrives: what is collected then, and whether it is the whole frame. */
  function Collected(cfg: A.Config, cs: seq<Chunk>, got: seq<Chunk>, since: nat, c: Chunk): (r: (seq<Chunk>, bool)) {
    var held := StillHeld(cfg, got, since);
    if c in held then ([], false)
    else if forall d | d in cs :: d in held + [c] then ([], true)
    else (held + [c], false)
  }

  /** Some chunks of a frame, but not all. */
  ghost predicate PartOf(got: seq<Chunk>, cs: seq<Chunk>) {
    SomeOf(got, cs) && !AllIn(cs, got)
  }

  lemma AllInIs(cs: seq<Chunk>, got: seq<Chunk>)
    ensures AllIn(cs, got) <==> forall d | d in cs :: d in got
  {
  }

  /** The entry that the next chunk goes to holds what is still held. */
  lemma GoesToHeld(cfg: A.Config, st: A.State, id: nat, got: seq<Chunk>, since: nat, seen: set<nat>) returns (last: nat)
    requires A.ConfigOk(cfg) && A.StateOk(cfg, st) && Tracks(cfg, st, id, got, since, seen)
    ensures var frames := A.Prepare(cfg, st, id);
      var k := A.IndexOf(frames, id);
      && A.FramesOk(cfg, frames, st.clock) && k < |frames|
      && frames[k] == Entry(id, last, StillHeld(cfg, got, since))
      && forall j | k < j < |frames| :: frames[j].id in seen
  {
    hide A.PartialOk, A.IndexOf;
    var frames := A.Prepare(cfg, st, id);
    A.PrepareKeepsOk(cfg, st, id);
    GoesTo(cfg, st, id);
    if StillHeld(cfg, got, since) == [] {
      last := st.clock;
      assert Pieces([]) == [];
      A.OnlyIndex(frames, |frames| - 1);
    } else {
      last := st.clock - since;
    }
  }

  /** The frame is gone from the pool. */
  lemma GoneFrom(cfg: A.Config, frames: seq<A.Partial>, k: nat, clock: nat)
    requires A.FramesOk(cfg, frames, clock) && k < |frames|
    ensures NotHeld(cfg, A.State(clock, A.Without(frames, k)), frames[k].id)
  {
    hide A.PartialOk, A.IndexOf;
    A.WithoutKeepsOk(cfg, frames, k, clock);
    var rest := A.Without(frames, k);
    forall i | 0 <= i < |rest|
      ensures rest[i].id != frames[k].id
    {
      assert rest[i] in rest;
    }
  }

  /** A repeated chunk costs the frame. */
  lemma RepeatPlaced(cfg: A.Config, frames: seq<A.Partial>, k: nat, c: Chunk, clock: nat)
    requires A.FramesOk(cfg, frames, clock) && k < |frames| && !A.Fits(frames[k], PieceOf(c), c.isLast)
    ensures var r := A.Place(cfg, frames, k, PieceOf(c), c.isLast, clock);
      r.frame == None && NotHeld(cfg, r.st, frames[k].id)
  {
    hide A.Fits, NotHeld, A.FramesOk;
    GoneFrom(cfg, frames, k, clock);
  }

  /** A new chunk completes the frame, or joins its entry. */
  lemma NewPlaced(cfg: A.Config, frames: seq<A.Partial>, k: nat, c: Chunk, clock: nat, held: seq<Chunk>, last: nat, seen: set<nat>)
    requires A.FramesOk(cfg, frames, clock) && k < |frames| && frames[k] == Entry(c.frameId, last, held) && k == A.IndexOf(frames, c.frameId)
    requires A.Fits(frames[k], PieceOf(c), c.isLast) && |held| + 1 <= cfg.numChunks
    requires forall j | k < j < |frames| :: frames[j].id in seen
    ensures var r, f' := A.Place(cfg, frames, k, PieceOf(c), c.isLast, clock), Entry(c.frameId, clock, held + [c]);
      if A.Complete(f') then r.frame == Some(A.Assembled(f')) && NotHeld(cfg, r.st, c.frameId)
      else r.frame == None && (|held| + 1 < cfg.numChunks ==> Held(r.st.frames, c.frameId, f', seen))
  {
    hide A.Fits, A.Complete, A.Assembled, NotHeld, A.FramesOk;
    GoneFrom(cfg, frames, k, clock);
    OneMore(c.frameId, last, held, c, clock);
    A.UpdateKeepsIndex(frames, k, Entry(c.frameId, clock, held + [c]));
  }

  /** A chunk of the frame arrives at an assembler that has some of the others. */
  lemma OwnArrival(cfg: A.Config, st: A.State, c: Chunk, cs: seq<Chunk>, id: nat, frame: seq<Byte>, got: seq<Chunk>, since: nat, seen: set<nat>)
    requires A.ConfigOk(cfg) && A.StateOk(cfg, st) && |frame| <= cfg.frameMtu && |cs| <= cfg.numChunks
    requires WholeFrom(cs, id, frame, 0) && c in cs && PartOf(got, cs) && Tracks(cfg, st, id, got, since, seen)
    ensures var r, next := A.Arrive(cfg, st, c), Collected(cfg, cs, got, since, c);
      && A.StateOk(cfg, r.st) && r.frame == (if next.1 then Some(frame) else None)
      && PartOf(next.0, cs) && Tracks(cfg, r.st, id, next.0, 0, seen)
  {
    hide A.FramesOk, A.Prepare, A.Place, A.Fits, A.Complete, A.Assembled, Tiles, AllIn, NotHeld, Held, A.IndexOf, Distinct;
    var frames, held := A.Prepare(cfg, st, id), StillHeld(cfg, got, since);
    var k := A.IndexOf(frames, id);
    WholeTiles(cs, id, frame, 0);
    InFrame(cs, id, frame, c);
    A.ArriveKeepsOk(cfg, st, c);
    SameClock(cfg, st, c);
    NothingIsPart(cs);
    var last := GoesToHeld(cfg, st, id, got, since, seen);
    if c in held {
      RepeatConflicts(cs, id, frame, held, c, last);
      RepeatPlaced(cfg, frames, k, c, st.clock);
    } else {
      NewJoins(cs, id, frame, held, c, last);
      DistinctAppend(held, c);
      CompleteWithAll(cs, id, frame, held + [c], st.clock);
      AllInIs(cs, held + [c]);
      FewerThanAll(cs, held);
      if !AllIn(cs, held + [c]) {
        FewerThanAll(cs, held + [c]);
      }
      NewPlaced(cfg, frames, k, c, st.clock, held, last, seen);
    }
  }

  lemma InFrame(cs: seq<Chunk>, id: nat, frame: seq<Byte>, c: Chunk)
    requires Tiles(cs, id, frame, 0) && c in cs
    ensures c.frameId == id && c.start + |c.data| <= |frame|
  {
  }

  lemma NothingIsPart(cs: seq<Chunk>)
    requires cs != []
    ensures PartOf([], cs)
  {
    assert cs[0] !in [];
  }

  /** A chunk of another frame arrives. */
  lemma OtherArrival(cfg: A.Config, st: A.State, c: Chunk, id: nat, got: seq<Chunk>, since: nat, seen: set<nat>)
    requires A.ConfigOk(cfg) && A.StateOk(cfg, st) && Tracks(cfg, st, id, got, since, seen)
    requires c.frameId != id && |seen + {c.frameId}| < cfg.numFrames
    ensures var r := A.Arrive(cfg, st, c);
      A.StateOk(cfg, r.st) && Tracks(cfg, r.st, id, got, since, seen + {c.frameId})
  {
    hide A.PartialOk, A.Arrive, Held;
    A.ArriveKeepsOk(cfg, st, c);
    SameClock(cfg, st, c);
    if StillHeld(cfg, got, since) == [] {
      NoneComesLive(cfg, st, c, id);
    } else {
      HeldArrive(cfg, st, c, id, Entry(id, st.clock - since, got), seen);
    }
  }

  lemma NoneComesLive(cfg: A.Config, st: A.State, c: Chunk, id: nat)
    requires A.ConfigOk(cfg) && A.StateOk(cfg, st) && NotHeld(cfg, st, id) && c.frameId != id
    ensures NotHeld(cfg, A.Arrive(cfg, st, c).st, id)
  {
    hide A.PartialOk, A.Arrive, A.IndexOf;
    var st' := A.Arrive(cfg, st, c).st;
    SameClock(cfg, st, c);
    var k := A.IndexOf(st'.frames, id);
    if k < |st'.frames| {
      var f := st'.frames[k];
      assert f in st'.frames;
      A.ArriveKeepsOthers(cfg, st, c, f);
      OldIsOut(cfg, st, id, f);
    }
  }

  lemma OldIsOut(cfg: A.Config, st: A.State, id: nat, f: A.Partial)
    requires A.StateOk(cfg, st) && NotHeld(cfg, st, id) && f in st.frames && f.id == id
    ensures A.TimedOut(cfg, f, st.clock)
  {
    var i :| 0 <= i < |st.frames| && st.frames[i] == f;
    A.OnlyIndex(st.frames, i);
  }

  /** A packet ends. */
  lemma PacketGoesBy(cfg: A.Config, st: A.State, purge: bool, id: nat, got: seq<Chunk>, since: nat, seen: set<nat>)
    requires A.ConfigOk(cfg) && A.StateOk(cfg, st) && Tracks(cfg, st, id, got, since, seen)
    ensures var st' := A.EndPacket(cfg, st, purge);
      A.StateOk(cfg, st') && Tracks(cfg, st', id, got, since + 1, seen)
  {
    hide A.PartialOk, A.Live, A.IndexOf;
    var st' := A.EndPacket(cfg, st, purge);
    PacketEnded(cfg, st, purge);
    if StillHeld(cfg, got, since + 1) != [] {
      HeldEnd(cfg, st, purge, id, Entry(id, st.clock - since, got), seen);
    } else {
      var k := A.IndexOf(st'.frames, id);
      if k < |st'.frames| {
        var f := st'.frames[k];
        assert f in st'.frames;
        if StillHeld(cfg, got, since) == [] {
          OldIsOut(cfg, st, id, f);
        } else {
          OnlyOne(cfg, st, id, f);
        }
      }
    }
  }

  lemma OnlyOne(cfg: A.Config, st: A.State, id: nat, f: A.Partial)
    requires A.StateOk(cfg, st) && f in st.frames && f.id == id
    ensures var k := A.IndexOf(st.frames, id); k < |st.frames| && f == st.frames[k]
  {
    var i :| 0 <= i < |st.frames| && st.frames[i] == f;
    A.OnlyIndex(st.frames, i);
  }

  // ----- runs

  /** The frames that the chunks of one identifier complete. */
  function EmittedUnder(cfg: A.Config, st: A.State, events: seq<A.Event>, id: nat): seq<seq<Byte>>
    requires A.ConfigOk(cfg)
    decreases |events|
  {
    if events == [] then [] else
      match events[0]
      case PacketEnd(purge) => EmittedUnder(cfg, A.EndPacket(cfg, st, purge), events[1..], id)
      case Arrival(c) =>
        var r := A.Arrive(cfg, st, c);
        (if c.frameId == id then Emitted(r.frame) else []) + EmittedUnder(cfg, r.st, events[1..], id)
  }

  /** How many times the chunks of a frame are all collected. */
  function Completions(cfg: A.Config, events: seq<A.Event>, id: nat, cs: seq<Chunk>, got: seq<Chunk>, since: nat): nat
    decreases |events|
  {
    if events == [] then 0 else
      match events[0]
      case PacketEnd(_) => Completions(cfg, events[1..], id, cs, got, since + 1)
      case Arrival(c) =>
        if c.frameId != id then Completions(cfg, events[1..], id, cs, got, since) else
          var next := Collected(cfg, cs, got, since, c);
          (if next.1 then 1 else 0) + Completions(cfg, events[1..], id, cs, next.0, 0)
  }

  /** The other frames of which chunks arrive. */
  function OtherIds(events: seq<A.Event>, id: nat): (r: set<nat>)
    decreases |events|
  {
    if events == [] then {} else
      OtherIds(events[1..], id) + if events[0].Arrival? && events[0].chunk.frameId != id then {events[0].chunk.frameId} else {}
  }

  /** All chunks that arrive under an identifier are chunks of one frame. */
  ghost predicate OnlyOf(events: seq<A.Event>, id: nat, cs: seq<Chunk>) {
    forall i | 0 <= i < |events| && events[i].Arrival? && events[i].chunk.frameId == id :: events[i].chunk in cs
  }

  function Copies(frame: seq<Byte>, n: nat): seq<seq<Byte>> {
    seq(n, _ => frame)
  }

  /**
   * Whatever chunks of a frame arrive, in whatever order and however often, among those of fewer other
   * frames than the pool has room for: the frame comes out each time that all of its chunks have been
   * collected, where a chunk that comes again undoes what was collected before, and so does it when
   * more packets than the tolerance have ended since the one before. Nothing else comes out under its
   * identifier.
   */
  lemma {:induction false} CollectsChunks(cfg: A.Config, st: A.State, events: seq<A.Event>, id: nat, frame: seq<Byte>, cs: seq<Chunk>, got: seq<Chunk>, since: nat, seen: set<nat>)
    requires A.ConfigOk(cfg) && A.StateOk(cfg, st) && |frame| <= cfg.frameMtu && |cs| <= cfg.numChunks
    requires WholeFrom(cs, id, frame, 0) && OnlyOf(events, id, cs) && |seen + OtherIds(events, id)| < cfg.numFrames
    requires PartOf(got, cs) && Tracks(cfg, st, id, got, since, seen)
    ensures EmittedUnder(cfg, st, events, id) == Copies(frame, Completions(cfg, events, id, cs, got, since))
    decreases |events|
  {
    hide A.Arrive, A.EndPacket, A.StateOk, WholeFrom, PartOf, Tracks, Collected;
    if events != [] {
      var rest := events[1..];
      assert OnlyOf(rest, id, cs);
      match events[0]
      case PacketEnd(purge) =>
        PacketGoesBy(cfg, st, purge, id, got, since, seen);
        CollectsChunks(cfg, A.EndPacket(cfg, st, purge), rest, id, frame, cs, got, since + 1, seen);
      case Arrival(c) =>
        if c.frameId != id {
          var more := seen + {c.frameId};
          assert more + OtherIds(rest, id) == seen + OtherIds(events, id);
          SubsetSize(more, seen + OtherIds(events, id));
          OtherArrival(cfg, st, c, id, got, since, seen);
          CollectsChunks(cfg, A.Arrive(cfg, st, c).st, rest, id, frame, cs, got, since, more);
        } else {
          var next := Collected(cfg, cs, got, since, c);
          OwnArrival(cfg, st, c, cs, id, frame, got, since, seen);
          CollectsChunks(cfg, A.Arrive(cfg, st, c).st, rest, id, frame, cs, next.0, 0, seen);
        }
    }
  }

  // ----- each chunk once, in any order

  /** The chunks that arrive under an identifier. */
  function Of(events: seq<A.Event>, id: nat): seq<Chunk>
    decreases |events|
  {
    if events == [] then [] else
      (if events[0].Arrival? && events[0].chunk.frameId == id then [events[0].chunk] else []) + Of(events[1..], id)
  }

  lemma OfNone(id: nat)
    ensures Of([], id) == []
  {
  }

  lemma OfFirst(events: seq<A.Event>, id: nat)
    requires events != []
    ensures var rest := Of(events[1..], id);
      Of(events, id) == if events[0].Arrival? && events[0].chunk.frameId == id then [events[0].chunk] + rest else rest
  {
  }

  /** No more packets end between two chunks of the frame than the tolerance. */
  predicate InTime(cfg: A.Config, events: seq<A.Event>, id: nat, begun: bool, since: nat)
    decreases |events|
  {
    if events == [] then true else
      match events[0]
      case PacketEnd(_) => (begun && Of(events, id) != [] ==> since < cfg.numFrames) && InTime(cfg, events[1..], id, begun, since + 1)
      case Arrival(c) => if c.frameId == id then InTime(cfg, events[1..], id, true, 0) else InTime(cfg, events[1..], id, begun, since)
  }

  lemma {:induction false} NoneLeft(cfg: A.Config, events: seq<A.Event>, id: nat, cs: seq<Chunk>, got: seq<Chunk>, since: nat)
    requires Of(events, id) == []
    ensures Completions(cfg, events, id, cs, got, since) == 0
    decreases |events|
  {
    if events != [] {
      match events[0]
      case PacketEnd(_) => NoneLeft(cfg, events[1..], id, cs, got, since + 1);
      case Arrival(c) => NoneLeft(cfg, events[1..], id, cs, got, since);
    }
  }

  /** Without one of the chunks the frame is never complete. */
  lemma {:induction false} NeverWithout(cfg: A.Config, events: seq<A.Event>, id: nat, cs: seq<Chunk>, got: seq<Chunk>, since: nat, missing: Chunk)
    requires missing in cs && missing !in Of(events, id) && missing !in StillHeld(cfg, got, since)
    ensures Completions(cfg, events, id, cs, got, since) == 0
    decreases |events|
  {
    if events != [] {
      match events[0]
      case PacketEnd(_) => NeverWithout(cfg, events[1..], id, cs, got, since + 1, missing);
      case Arrival(c) =>
        if c.frameId != id {
          NeverWithout(cfg, events[1..], id, cs, got, since, missing);
        } else {
          assert missing !in StillHeld(cfg, got, since) + [c];
          NeverWithout(cfg, events[1..], id, cs, Collected(cfg, cs, got, since, c).0, 0, missing);
        }
    }
  }

  lemma {:induction false} NoTwice<T>(list: seq<T>, x: T)
    requires Distinct(list)
    ensures multiset(list)[x] <= 1
  {
    if list != [] {
      var init := list[..|list| - 1];
      NoTwice(init, x);
      assert list == init + [list[|list| - 1]];
      if x == list[|list| - 1] {
        assert x !in init;
      }
    }
  }

  /** What has come and what is to come is all chunks of a frame, each once. */
  ghost predicate OnceEach(cs: seq<Chunk>, got: seq<Chunk>, rest: seq<Chunk>) {
    Distinct(cs) && multiset(got + rest) == multiset(cs)
  }

  /** Each chunk is in one part of what has come and is to come. */
  lemma InOnePart(cs: seq<Chunk>, got: seq<Chunk>, c: Chunk, rest: seq<Chunk>, d: Chunk)
    requires OnceEach(cs, got, [c] + rest)
    ensures d in cs <==> d in got || d == c || d in rest
    ensures !(d in got && d in rest) && !(d == c && (d in got || d in rest))
  {
    NoTwice(cs, d);
    assert multiset(got + ([c] + rest)) == multiset(got) + multiset{c} + multiset(rest);
    assert d in cs <==> multiset(cs)[d] > 0;
    assert d in got <==> multiset(got)[d] > 0;
    assert d in rest <==> multiset(rest)[d] > 0;
  }

  /** The next of chunks that come once each is new, and the last of them completes the frame. */
  lemma NextIsNew(cs: seq<Chunk>, got: seq<Chunk>, c: Chunk, rest: seq<Chunk>)
    requires OnceEach(cs, got, [c] + rest)
    ensures c !in got
    ensures (forall d | d in cs :: d in got + [c]) <==> rest == []
    ensures got != [] ==> got[0] in cs && got[0] != c && got[0] !in rest
  {
    hide OnceEach;
    InOnePart(cs, got, c, rest, c);
    if rest != [] {
      InOnePart(cs, got, c, rest, rest[0]);
    } else {
      forall d | d in cs
        ensures d in got + [c]
      {
        InOnePart(cs, got, c, rest, d);
      }
    }
    if got != [] {
      InOnePart(cs, got, c, rest, got[0]);
    }
  }

  lemma NextCollected(cfg: A.Config, cs: seq<Chunk>, got: seq<Chunk>, since: nat, c: Chunk, rest: seq<Chunk>)
    requires OnceEach(cs, got, [c] + rest) && (got != [] ==> since <= cfg.numFrames)
    ensures Collected(cfg, cs, got, since, c) == if rest == [] then ([], true) else (got + [c], false)
    ensures OnceEach(cs, got + [c], rest)
  {
    SamePermutation(got, c, rest);
    NextIsNew(cs, got, c, rest);
    assert StillHeld(cfg, got, since) == got;
  }

  lemma SamePermutation(got: seq<Chunk>, c: Chunk, rest: seq<Chunk>)
    ensures got + ([c] + rest) == (got + [c]) + rest
  {
  }

  /** Chunks that come once each complete the frame once if they come in time, and otherwise never. */
  lemma {:induction false} CompletedInTime(cfg: A.Config, events: seq<A.Event>, id: nat, cs: seq<Chunk>, got: seq<Chunk>, since: nat)
    requires OnceEach(cs, got, Of(events, id)) && Of(events, id) != []
    requires got != [] ==> since <= cfg.numFrames
    ensures Completions(cfg, events, id, cs, got, since) == if InTime(cfg, events, id, got != [], since) then 1 else 0
    decreases |events|
  {
    hide Collected, OnceEach, Of;
    if events == [] {
      OfNone(id);
      return;
    }
    OfFirst(events, id);
    match events[0]
    case PacketEnd(_) =>
      if got != [] && since >= cfg.numFrames {
        TooLate(cfg, events[1..], id, cs, got, since + 1);
      } else {
        CompletedInTime(cfg, events[1..], id, cs, got, since + 1);
      }
    case Arrival(c) =>
      if c.frameId != id {
        CompletedInTime(cfg, events[1..], id, cs, got, since);
      } else {
        var rest := Of(events[1..], id);
        NextCollected(cfg, cs, got, since, c, rest);
        if rest == [] {
          NoneLeft(cfg, events[1..], id, cs, [], 0);
          InTimeAfter(cfg, events[1..], id, true, 0);
        } else {
          CompletedInTime(cfg, events[1..], id, cs, got + [c], 0);
        }
      }
  }

  /** When too many packets have ended, the first chunk that was collected is missing. */
  lemma TooLate(cfg: A.Config, events: seq<A.Event>, id: nat, cs: seq<Chunk>, got: seq<Chunk>, since: nat)
    requires OnceEach(cs, got, Of(events, id)) && Of(events, id) != []
    requires got != [] && since > cfg.numFrames
    ensures Completions(cfg, events, id, cs, got, since) == 0
  {
    hide Completions, OnceEach;
    var rest := Of(events, id);
    assert rest == [rest[0]] + rest[1..];
    NextIsNew(cs, got, rest[0], rest[1..]);
    NeverWithout(cfg, events, id, cs, got, since, got[0]);
  }

  lemma {:induction false} InTimeAfter(cfg: A.Config, events: seq<A.Event>, id: nat, begun: bool, since: nat)
    requires Of(events, id) == []
    ensures InTime(cfg, events, id, begun, since)
    decreases |events|
  {
    if events != [] {
      InTimeAfter(cfg, events[1..], id, begun, if events[0].PacketEnd? then since + 1 else since);
    }
  }

  lemma {:induction false} OfIsOnly(events: seq<A.Event>, id: nat, cs: seq<Chunk>)
    requires forall c | c in Of(events, id) :: c in cs
    ensures OnlyOf(events, id, cs)
    decreases |events|
  {
    if events != [] {
      OfIsOnly(events[1..], id, cs);
      forall i | 0 <= i < |events| && events[i].Arrival? && events[i].chunk.frameId == id
        ensures events[i].chunk in cs
      {
        if i > 0 {
          assert events[i] == events[1..][i - 1];
        }
      }
    }
  }

  /**
   * The chunks of a frame arrive once each, in any order, at an assembler in any state without a live
   * entry under its identifier, among chunks of fewer other frames than the pool has room for. The
   * frame comes out if never more packets end between two of its chunks than the tolerance; otherwise
   * nothing comes out under its identifier.
   */
  lemma AnyOrder(cfg: A.Config, st: A.State, events: seq<A.Event>, id: nat, frame: seq<Byte>, cs: seq<Chunk>)
    requires A.ConfigOk(cfg) && A.StateOk(cfg, st) && NotHeld(cfg, st, id) && |frame| <= cfg.frameMtu && |cs| <= cfg.numChunks
    requires WholeFrom(cs, id, frame, 0) && multiset(Of(events, id)) == multiset(cs) && |OtherIds(events, id)| < cfg.numFrames
    ensures EmittedUnder(cfg, st, events, id) == if InTime(cfg, events, id, false, 0) then [frame] else []
  {
    hide A.StateOk, WholeFrom, Tiles, PartOf, InTime, Completions, EmittedUnder, NotHeld, Distinct, OnceEach;
    WholeHas(cs, id, frame);
    SameChunks(cs, Of(events, id));
    OfIsOnly(events, id, cs);
    NothingIsPart(cs);
    assert {} + OtherIds(events, id) == OtherIds(events, id);
    CollectsChunks(cfg, st, events, id, frame, cs, [], 0, {});
    CompletedInTime(cfg, events, id, cs, [], 0);
  }

  lemma SameChunks(cs: seq<Chunk>, ds: seq<Chunk>)
    requires cs != [] && Distinct(cs) && multiset(ds) == multiset(cs)
    ensures OnceEach(cs, [], ds) && ds != [] && forall c | c in ds :: c in cs
  {
    forall c | c in ds
      ensures c in cs
    {
      assert c in multiset(ds);
    }
    assert cs[0] in multiset(cs) && cs[0] in multiset(ds);
    assert [] + ds == ds;
  }

  lemma WholeHas(cs: seq<Chunk>, id: nat, frame: seq<Byte>)
    requires WholeFrom(cs, id, frame, 0)
    ensures cs != [] && Distinct(cs)
  {
    WholeTiles(cs, id, frame, 0);
  }

  /** The chunks that a run writes for one of the frames it finishes. */
  ghost function ChunksFor(cfg: D.Config, events: seq<D.Event>, k: nat): seq<Chunk>
    requires D.ConfigOk(cfg) && LegalRun(cfg, events) && k < |SendAll(cfg, events).finished|
  {
    FramesOnWire(cfg, events);
    LogAll(cfg, events).frames[k]
  }

  /** So for each frame of a run of the sender, whatever else of the run arrives, and in whatever order. */
  lemma SentInAnyOrder(acfg: A.Config, dcfg: D.Config, events: seq<D.Event>, k: nat, st: A.State, arrivals: seq<A.Event>)
    requires A.ConfigOk(acfg) && D.ConfigOk(dcfg) && LegalRun(dcfg, events) && k < |SendAll(dcfg, events).finished|
    requires var frame := SendAll(dcfg, events).finished[k]; |frame| <= acfg.frameMtu && ChunksSuffice(dcfg, acfg, |frame|)
    requires A.StateOk(acfg, st) && NotHeld(acfg, st, k % FRAME_ID_LIMIT) && |OtherIds(arrivals, k % FRAME_ID_LIMIT)| < acfg.numFrames
    requires multiset(Of(arrivals, k % FRAME_ID_LIMIT)) == multiset(ChunksFor(dcfg, events, k))
    ensures EmittedUnder(acfg, st, arrivals, k % FRAME_ID_LIMIT) ==
      if InTime(acfg, arrivals, k % FRAME_ID_LIMIT, false, 0) then [SendAll(dcfg, events).finished[k]] else []
  {
    hide SendAll, LogAll, LegalRun, D.CarryOn, D.Steady, D.Carried, A.StateOk, NotHeld, EmittedUnder, InTime, Of, OtherIds;
    FramesOnWire(dcfg, events);
    var id, cs, frame := k % FRAME_ID_LIMIT, ChunksFor(dcfg, events, k), SendAll(dcfg, events).finished[k];
    assert Whole(dcfg, cs, id, frame);
    var room: nat :| 0 < room <= dcfg.mtu - HEADER_LEN && |cs| == ChunksNeeded(dcfg, |frame|, room);
    D.CarryOnEnd(cs, id, frame, 0);
    AnyOrder(acfg, st, arrivals, id, frame, cs);
  }
}
