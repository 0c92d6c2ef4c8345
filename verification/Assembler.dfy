/**
 * The FragmentProto assembler as it runs: a fixed pool of frame entries moved
 * between a free and a used list, a search tree over the used ones, a running
 * sum of chunk lengths in place of a coverage check, buffers that are reused
 * without being cleared, and a 32-bit packet clock that is rebased when it is full.
 */
module Assembler {
  import opened Bytes
  import opened FragmentProto
  import opened AssemblerSpec
  import opened Lists

  const MAX_TIME: nat := 0xFFFF_FFFF

  datatype Span = Span(start: nat, len: nat)

  /** length is -1 while it is not known; until then lengthSoFar is where the data ends so far. */
  datatype Entry = Entry(id: nat, time: nat, chunks: seq<Span>, sum: nat, length: int, lengthSoFar: nat, buffer: seq<Byte>)

  // ----- what the entries stand for

  /** Some piece ends at n, unless n is zero. */
  ghost predicate Reached(ps: seq<Piece>, n: nat) {
    n > 0 ==> exists k :: 0 <= k < |ps| && ps[k].End() == n
  }

  ghost predicate Holds(buffer: seq<Byte>, p: Piece) {
    p.End() <= |buffer| && buffer[p.start..p.End()] == p.data
  }

  /**
   * The entry stands for a partial frame, whatever its buffer held before.
   * Its time is that of the unbounded clock less a shift common to all entries.
   */
  ghost predicate Represents(cfg: Config, e: Entry, f: Partial, shift: int) {
    && e.id == f.id
    && f.last - e.time == shift
    && |e.chunks| == |f.pieces|
    && (forall k | 0 <= k < |e.chunks| :: e.chunks[k] == Span(f.pieces[k].start, |f.pieces[k].data|))
    && e.sum == Total(f.pieces)
    && e.length == (if f.length.Some? then f.length.value else -1)
    && (f.length.None? ==> Within(f.pieces, e.lengthSoFar) && Reached(f.pieces, e.lengthSoFar))
    && |e.buffer| == cfg.frameMtu
    && (forall k | 0 <= k < |f.pieces| :: Holds(e.buffer, f.pieces[k]))
  }

  // ----- the structures that index the pool

  datatype Pool = Pool(cfg: Config, entries: seq<Entry>, free: seq<nat>, used: seq<nat>, tree: map<nat, nat>, time: nat)

  ghost predicate Disjoint(a: seq<nat>, b: seq<nat>) {
    forall i, j | 0 <= i < |a| && 0 <= j < |b| :: a[i] != b[j]
  }

  ghost predicate Below(list: seq<nat>, n: nat) {
    forall k | 0 <= k < |list| :: list[k] < n
  }

  /** Every slot of the pool is in exactly one of the two lists, once. */
  ghost predicate ListsOk(slots: nat, free: seq<nat>, used: seq<nat>) {
    && Distinct(free) && Distinct(used) && Disjoint(free, used)
    && Below(free, slots) && Below(used, slots)
    && |free| + |used| == slots
  }

  /** The tree finds every used slot by the identifier of its entry... */
  ghost predicate TreeFinds(entries: seq<Entry>, tree: map<nat, nat>, used: seq<nat>) {
    && Below(used, |entries|)
    && forall k | 0 <= k < |used| :: entries[used[k]].id in tree && tree[entries[used[k]].id] == used[k]
  }

  /** ...and nothing else. */
  ghost predicate TreeOnly(entries: seq<Entry>, tree: map<nat, nat>, used: seq<nat>) {
    forall id | id in tree :: tree[id] in used && tree[id] < |entries| && entries[tree[id]].id == id
  }

  ghost predicate Agree(cfg: Config, entries: seq<Entry>, used: seq<nat>, frames: seq<Partial>, shift: int) {
    && |used| == |frames|
    && Below(used, |entries|)
    && forall k | 0 <= k < |used| :: Represents(cfg, entries[used[k]], frames[k], shift)
  }

  ghost predicate BuffersOk(entries: seq<Entry>, mtu: nat) {
    forall s | 0 <= s < |entries| :: |entries[s].buffer| == mtu
  }

  ghost predicate PoolOk(p: Pool, model: State)
  {
    match p
    case Pool(cfg, entries, free, used, tree, time) =>
    && ConfigOk(cfg) && cfg.numFrames < MAX_TIME
    && |entries| == cfg.numFrames
    && BuffersOk(entries, cfg.frameMtu)
    && ListsOk(|entries|, free, used)
    && TreeFinds(entries, tree, used) && TreeOnly(entries, tree, used)
    && time <= MAX_TIME
    && Agree(cfg, entries, used, model.frames, model.clock - time)
    && DistinctIds(model.frames)
  }

  // ----- one chunk

  predicate ChunksOverlap(start1: nat, len1: nat, start2: nat, len2: nat) {
    start1 + len1 > start2 && start2 + len2 > start1
  }

  /** Whether a chunk is good for an entry, as told from the entry alone. */
  predicate Accepts(e: Entry, start: nat, len: nat, isLast: bool) {
    && (forall i | 0 <= i < |e.chunks| :: !ChunksOverlap(e.chunks[i].start, e.chunks[i].len, start, len))
    && (isLast ==> e.length < 0 && e.lengthSoFar <= start + len)
    && (!isLast && e.length >= 0 ==> start + len <= e.length)
  }

  method CheckChunk(e: Entry, start: nat, len: nat, isLast: bool) returns (good: bool)
    ensures good <==> Accepts(e, start, len, isLast)
  {
    for i := 0 to |e.chunks|
      invariant forall j | 0 <= j < i :: !ChunksOverlap(e.chunks[j].start, e.chunks[j].len, start, len)
    {
      if ChunksOverlap(e.chunks[i].start, e.chunks[i].len, start, len) {
        return false;
      }
    }
    if isLast {
      if e.length >= 0 {
        return false;
      }
      if e.lengthSoFar > start + len {
        return false;
      }
    } else if e.length >= 0 {
      if start + len > e.length {
        return false;
      }
    }
    return true;
  }

  function Overwrite(buffer: seq<Byte>, start: nat, data: seq<Byte>): (r: seq<Byte>)
    requires start + |data| <= |buffer|
    ensures |r| == |buffer|
  {
    buffer[..start] + data + buffer[start + |data|..]
  }

  /** The entry after a good chunk has been added to it. */
  function Extended(e: Entry, time: nat, start: nat, data: seq<Byte>, isLast: bool): (r: Entry)
    requires start + |data| <= |e.buffer|
    ensures r.id == e.id && |r.buffer| == |e.buffer|
  {
    var end := start + |data|;
    e.(time := time,
       chunks := e.chunks + [Span(start, |data|)],
       sum := e.sum + |data|,
       length := if isLast then end else e.length,
       lengthSoFar := if !isLast && e.length < 0 && e.lengthSoFar < end then end else e.lengthSoFar,
       buffer := Overwrite(e.buffer, start, data))
  }

  lemma AcceptsIsFits(cfg: Config, e: Entry, f: Partial, shift: int, p: Piece, isLast: bool)
    requires Represents(cfg, e, f, shift)
    ensures Accepts(e, p.start, |p.data|, isLast) <==> Fits(f, p, isLast)
  {
    hide Holds, Total;
    assert forall i | 0 <= i < |e.chunks| ::
      ChunksOverlap(e.chunks[i].start, e.chunks[i].len, p.start, |p.data|) == Overlap(f.pieces[i], p);
    if f.length.None? && e.lengthSoFar > p.End() {
      assert e.lengthSoFar > 0;
    }
  }

  lemma OverwriteHolds(buffer: seq<Byte>, p: Piece, q: Piece)
    requires p.End() <= |buffer|
    ensures Holds(Overwrite(buffer, p.start, p.data), p)
    ensures Holds(buffer, q) && !Overlap(q, p) ==> Holds(Overwrite(buffer, p.start, p.data), q)
  {
    var r := Overwrite(buffer, p.start, p.data);
    if Holds(buffer, q) && !Overlap(q, p) {
      assert forall i | q.start <= i < q.End() :: r[i] == buffer[i];
      assert r[q.start..q.End()] == buffer[q.start..q.End()];
    }
  }

  lemma TotalAppend(ps: seq<Piece>, p: Piece)
    ensures Total(ps + [p]) == Total(ps) + |p.data|
  {
    assert (ps + [p])[..|ps|] == ps;
  }

  lemma LengthSoFarGrows(ps: seq<Piece>, n: nat, p: Piece)
    requires Within(ps, n) && Reached(ps, n)
    ensures var n' := if n < p.End() then p.End() else n;
      Within(ps + [p], n') && Reached(ps + [p], n')
  {
    var ps' := ps + [p];
    if n < p.End() {
      assert ps'[|ps|].End() == p.End();
    } else if n > 0 {
      var k :| 0 <= k < |ps| && ps[k].End() == n;
      assert ps'[k].End() == n;
    }
  }

  lemma ExtendedRepresents(cfg: Config, e: Entry, f: Partial, clock: nat, time: nat, p: Piece, isLast: bool)
    requires Represents(cfg, e, f, clock - time)
    requires Fits(f, p, isLast) && p.End() <= |e.buffer|
    ensures Represents(cfg, Extended(e, time, p.start, p.data, isLast), Add(f, p, isLast, clock), clock - time)
  {
    hide Holds, Total, Overlap, Overwrite, Reached, Within;
    TotalAppend(f.pieces, p);
    if f.length.None? {
      LengthSoFarGrows(f.pieces, e.lengthSoFar, p);
    }
    var buffer := Overwrite(e.buffer, p.start, p.data);
    forall k | 0 <= k < |f.pieces| + 1 ensures Holds(buffer, (f.pieces + [p])[k]) {
      OverwriteHolds(e.buffer, p, (f.pieces + [p])[k]);
    }
  }

  /** The running sum tells when a frame is complete, and then the buffer begins with it. */
  lemma SumTellsCompletion(cfg: Config, e: Entry, f: Partial, shift: int)
    requires Represents(cfg, e, f, shift)
    requires Apart(f.pieces) && (f.length.Some? ==> f.length.value <= cfg.frameMtu && Within(f.pieces, f.length.value))
    ensures Complete(f) <==> e.length >= 0 && e.sum >= e.length
    ensures Complete(f) ==> e.sum == e.length <= |e.buffer| && Assembled(f) == e.buffer[..e.length]
  {
    if f.length.Some? {
      SumDecidesCoverage(f.pieces, f.length.value);
      if Complete(f) {
        BufferIsAssembled(cfg, e, f, shift);
      }
    }
  }

  lemma BufferIsAssembled(cfg: Config, e: Entry, f: Partial, shift: int)
    requires Represents(cfg, e, f, shift) && Apart(f.pieces)
    requires Complete(f) && f.length.value <= cfg.frameMtu
    ensures Assembled(f) == e.buffer[..e.length]
  {
    forall i: nat | i < f.length.value ensures Assembled(f)[i] == e.buffer[i] {
      assert Touched(f.pieces, i);
      var k :| 0 <= k < |f.pieces| && f.pieces[k].Contains(i);
      ByteAtIsUnique(f.pieces, k, i);
      assert Holds(e.buffer, f.pieces[k]);
    }
  }

  // ----- moving one entry between the lists

  lemma RemoveUsed(slots: nat, free: seq<nat>, used: seq<nat>, k: nat)
    requires ListsOk(slots, free, used) && k < |used|
    ensures Remove(used, used[k]) == used[..k] + used[k + 1..]
    ensures forall s :: s in Remove(used, used[k]) <==> s in used && s != used[k]
  {
    RemoveAt(used, used[k], k);
  }

  lemma ListsAfterFree(slots: nat, free: seq<nat>, used: seq<nat>, k: nat)
    requires ListsOk(slots, free, used) && k < |used|
    ensures ListsOk(slots, free + [used[k]], Remove(used, used[k]))
  {
    RemoveAt(used, used[k], k);
  }

  lemma TreeAfterRemove(entries: seq<Entry>, tree: map<nat, nat>, free: seq<nat>, used: seq<nat>, k: nat)
    requires ListsOk(|entries|, free, used) && k < |used|
    requires TreeFinds(entries, tree, used)
    ensures TreeFinds(entries, tree - {entries[used[k]].id}, Remove(used, used[k]))
  {
    RemoveAt(used, used[k], k);
    var used' := Remove(used, used[k]);
    forall i | 0 <= i < |used'| ensures used'[i] == used[if i < k then i else i + 1] != used[k] {
    }
  }

  lemma TreeOnlyAfterRemove(entries: seq<Entry>, tree: map<nat, nat>, free: seq<nat>, used: seq<nat>, k: nat)
    requires ListsOk(|entries|, free, used) && k < |used|
    requires TreeOnly(entries, tree, used)
    ensures TreeOnly(entries, tree - {entries[used[k]].id}, Remove(used, used[k]))
  {
    RemoveUsed(|entries|, free, used, k);
  }

  lemma AgreeAfterRemove(cfg: Config, entries: seq<Entry>, free: seq<nat>, used: seq<nat>, frames: seq<Partial>, shift: int, k: nat)
    requires ListsOk(|entries|, free, used) && k < |used|
    requires Agree(cfg, entries, used, frames, shift)
    ensures Agree(cfg, entries, Remove(used, used[k]), Without(frames, k), shift)
  {
    hide Represents;
    RemoveAt(used, used[k], k);
  }

  /** The position of a used slot is that of the partial frame it stands for. */
  lemma PositionOf(p: Pool, model: State, s: nat) returns (k: nat)
    requires PoolOk(p, model) && s in p.used
    ensures s < |p.entries|
    ensures k < |p.used| == |model.frames| && p.used[k] == s && k == IndexOf(model.frames, p.entries[s].id)
  {
    k :| 0 <= k < |p.used| && p.used[k] == s;
    var i := IndexOf(model.frames, p.entries[s].id);
    IndexOfFound(model.frames, p.entries[s].id, k);
    assert model.frames[i].id == model.frames[k].id;
  }

  lemma LookupAgrees(p: Pool, model: State, id: nat)
    requires PoolOk(p, model)
    ensures |p.used| == |model.frames|
    ensures id in p.tree <==> IndexOf(model.frames, id) < |model.frames|
    ensures id in p.tree ==>
      var s := p.tree[id];
      s in p.used && s < |p.entries| && p.entries[s].id == id && p.used[IndexOf(model.frames, id)] == s
  {
    if id in p.tree {
      var k := PositionOf(p, model, p.tree[id]);
    } else {
      forall k | 0 <= k < |p.used| ensures model.frames[k].id != id {
        assert Represents(p.cfg, p.entries[p.used[k]], model.frames[k], model.clock - p.time);
      }
    }
  }

  lemma PoolAfterFree(p: Pool, model: State, s: nat) returns (k: nat)
    requires PoolOk(p, model) && s in p.used
    ensures s < |p.entries| && k == IndexOf(model.frames, p.entries[s].id) < |model.frames|
    ensures PoolOk(p.(free := p.free + [s], used := Remove(p.used, s), tree := p.tree - {p.entries[s].id}),
                   State(model.clock, Without(model.frames, k)))
  {
    hide ListsOk, TreeFinds, TreeOnly, Agree, BuffersOk, DistinctIds, Remove, Without, IndexOf;
    k := PositionOf(p, model, s);
    WithoutKeepsDistinct(model.frames, k);
    ListsAfterFree(|p.entries|, p.free, p.used, k);
    TreeAfterRemove(p.entries, p.tree, p.free, p.used, k);
    TreeOnlyAfterRemove(p.entries, p.tree, p.free, p.used, k);
    AgreeAfterRemove(p.cfg, p.entries, p.free, p.used, model.frames, model.clock - p.time, k);
  }

  lemma ListsAfterTake(slots: nat, free: seq<nat>, used: seq<nat>)
    requires ListsOk(slots, free, used) && free != []
    ensures ListsOk(slots, free[1..], used + [free[0]])
    ensures free[0] < slots && free[0] !in used
  {
  }

  /** Writing to a slot that is not used changes nothing that is. */
  lemma UpdateFreeSlot(cfg: Config, entries: seq<Entry>, tree: map<nat, nat>, used: seq<nat>, frames: seq<Partial>, shift: int, s: nat, e: Entry)
    requires TreeFinds(entries, tree, used) && TreeOnly(entries, tree, used) && Agree(cfg, entries, used, frames, shift)
    requires s < |entries| && s !in used
    ensures var entries' := entries[s := e];
      && TreeFinds(entries', tree, used) && TreeOnly(entries', tree, used)
      && Agree(cfg, entries', used, frames, shift)
  {
    hide Represents;
  }

  lemma TreeAfterAppend(entries: seq<Entry>, tree: map<nat, nat>, used: seq<nat>, s: nat)
    requires TreeFinds(entries, tree, used) && TreeOnly(entries, tree, used)
    requires s < |entries| && entries[s].id !in tree
    ensures TreeFinds(entries, tree[entries[s].id := s], used + [s])
    ensures TreeOnly(entries, tree[entries[s].id := s], used + [s])
  {
  }

  lemma AgreeAfterAppend(cfg: Config, entries: seq<Entry>, used: seq<nat>, frames: seq<Partial>, shift: int, s: nat, f: Partial)
    requires Agree(cfg, entries, used, frames, shift)
    requires s < |entries| && Represents(cfg, entries[s], f, shift)
    ensures Agree(cfg, entries, used + [s], frames + [f], shift)
  {
    hide Represents;
  }

  /** An entry as allocation initialises it; its buffer keeps what the previous frame left there. */
  function Initial(e: Entry, id: nat, time: nat): Entry {
    Entry(id, time, [], 0, -1, 0, e.buffer)
  }

  lemma PoolAfterTake(p: Pool, model: State, id: nat)
    requires PoolOk(p, model) && p.free != [] && id !in p.tree
    ensures var s := p.free[0];
      && s < |p.entries|
      && PoolOk(p.(entries := p.entries[s := Initial(p.entries[s], id, p.time)],
                   free := p.free[1..], used := p.used + [s], tree := p.tree[id := s]),
                State(model.clock, model.frames + [Partial(id, model.clock, [], None)]))
  {
    hide ListsOk, TreeFinds, TreeOnly, Agree, DistinctIds, IndexOf;
    var s := p.free[0];
    ListsAfterTake(|p.entries|, p.free, p.used);
    var e, f := Initial(p.entries[s], id, p.time), Partial(id, model.clock, [], None);
    var entries := p.entries[s := e];
    UpdateFreeSlot(p.cfg, p.entries, p.tree, p.used, model.frames, model.clock - p.time, s, e);
    TreeAfterAppend(entries, p.tree, p.used, s);
    AgreeAfterAppend(p.cfg, entries, p.used, model.frames, model.clock - p.time, s, f);
    LookupAgrees(p, model, id);
    AppendKeepsDistinct(model.frames, f);
  }

  /** Replacing a used entry by one that stands for a partial frame with the same identifier. */
  lemma PoolAfterUpdate(p: Pool, model: State, s: nat, k: nat, e: Entry, f: Partial)
    requires PoolOk(p, model) && k < |p.used| && p.used[k] == s && s < |p.entries| && k < |model.frames|
    requires e.id == p.entries[s].id && f.id == model.frames[k].id
    requires |e.buffer| == p.cfg.frameMtu && Represents(p.cfg, e, f, model.clock - p.time)
    ensures PoolOk(p.(entries := p.entries[s := e]), State(model.clock, model.frames[k := f]))
  {
    hide Represents, ConfigOk;
  }

  lemma OldestIsFirst(p: Pool, model: State)
    requires PoolOk(p, model) && p.used != []
    ensures p.used[0] < |p.entries| && model.frames != []
    ensures IndexOf(model.frames, p.entries[p.used[0]].id) == 0
    ensures Without(model.frames, 0) == model.frames[1..]
  {
    assert Represents(p.cfg, p.entries[p.used[0]], model.frames[0], model.clock - p.time);
  }

  lemma PoolSizes(p: Pool, model: State)
    requires PoolOk(p, model)
    ensures ConfigOk(p.cfg) && |p.entries| == p.cfg.numFrames < MAX_TIME && p.time <= MAX_TIME
    ensures |p.free| + |p.used| == p.cfg.numFrames && |p.used| == |model.frames|
  {
  }

  lemma RepresentsAt(p: Pool, model: State, k: nat)
    requires PoolOk(p, model) && StateOk(p.cfg, model) && k < |p.used|
    ensures p.used[k] < |p.entries| && |p.entries[p.used[k]].buffer| == p.cfg.frameMtu && |p.used| == |model.frames|
    ensures Represents(p.cfg, p.entries[p.used[k]], model.frames[k], model.clock - p.time)
    ensures PartialOk(p.cfg, model.frames[k], model.clock)
  {
  }

  /** The extended entry stands for the extended frame, and its sum and length decide what happens next. */
  lemma ExtendedStands(pool: Pool, model: State, k: nat, p: Piece, isLast: bool)
    requires PoolOk(pool, model) && StateOk(pool.cfg, model) && k < |pool.used| && k < |model.frames|
    requires p.End() <= pool.cfg.frameMtu && Fits(model.frames[k], p, isLast)
    ensures pool.used[k] < |pool.entries| && p.End() <= |pool.entries[pool.used[k]].buffer|
    ensures var e := Extended(pool.entries[pool.used[k]], pool.time, p.start, p.data, isLast);
      var f := Add(model.frames[k], p, isLast, model.clock);
      && |e.buffer| == pool.cfg.frameMtu
      && Represents(pool.cfg, e, f, model.clock - pool.time)
      && |e.chunks| == |f.pieces|
      && (Complete(f) <==> e.length >= 0 && e.sum >= e.length)
      && (Complete(f) ==> e.sum == e.length <= |e.buffer| && Assembled(f) == e.buffer[..e.length])
  {
    hide PoolOk, FramesOk, Complete, Assembled, Overwrite, Fits;
    RepresentsAt(pool, model, k);
    var f := model.frames[k];
    ExtendedRepresents(pool.cfg, pool.entries[pool.used[k]], f, model.clock, pool.time, p, isLast);
    AddKeepsApart(pool.cfg, f, p, isLast, model.clock);
    SumTellsCompletion(pool.cfg, Extended(pool.entries[pool.used[k]], pool.time, p.start, p.data, isLast),
      Add(f, p, isLast, model.clock), model.clock - pool.time);
  }

  /** The smallest time among the first n used entries, or None if n is zero. */
  ghost predicate Smallest(entries: seq<Entry>, used: seq<nat>, n: nat, minTime: Option<nat>) {
    && n <= |used|
    && Below(used[..n], |entries|)
    && match minTime
       case None => n == 0
       case Some(t) =>
         && (exists k :: 0 <= k < n && entries[used[..n][k]].time == t)
         && (forall k | 0 <= k < n :: t <= entries[used[..n][k]].time)
  }

  lemma SmallestOfNone(entries: seq<Entry>, used: seq<nat>)
    ensures Smallest(entries, used, 0, None)
  {
  }

  lemma SmallestOfPrefix(entries: seq<Entry>, used: seq<nat>, used': seq<nat>, n: nat, minTime: Option<nat>)
    requires Smallest(entries, used, n, minTime)
    requires n <= |used'| && used'[..n] == used[..n]
    ensures Smallest(entries, used', n, minTime)
  {
  }

  lemma SmallestSoFar(entries: seq<Entry>, used: seq<nat>, n: nat, minTime: Option<nat>)
    requires Smallest(entries, used, n, minTime) && n < |used| && used[n] < |entries|
    ensures var t := entries[used[n]].time;
      Smallest(entries, used, n + 1, if minTime.None? || t < minTime.value then Some(t) else minTime)
  {
    var first, more := used[..n], used[..n + 1];
    assert more == first + [used[n]];
    var t := entries[used[n]].time;
    if minTime.None? || t < minTime.value {
      assert entries[more[n]].time == t;
    } else {
      var k :| 0 <= k < n && entries[first[k]].time == minTime.value;
      assert entries[more[k]].time == minTime.value;
    }
  }

  lemma SmallestMeaning(p: Pool, model: State, minTime: Option<nat>)
    requires PoolOk(p, model) && StateOk(p.cfg, model) && Smallest(p.entries, p.used, |p.used|, minTime)
    ensures minTime.None? <==> p.used == []
    ensures Below(p.used, |p.entries|) && Distinct(p.used)
    ensures minTime.Some? ==>
      minTime.value <= p.time && forall k | 0 <= k < |p.used| :: minTime.value <= p.entries[p.used[k]].time
  {
    hide TreeFinds, TreeOnly;
    assert p.used[..|p.used|] == p.used;
    if minTime.Some? {
      RepresentsAt(p, model, 0);
    }
  }

  /** The entries after the times of the first n used ones have been reduced. */
  function Shifted(entries: seq<Entry>, used: seq<nat>, n: nat, minTime: nat): (r: seq<Entry>)
    requires n <= |used| && Below(used, |entries|)
    requires forall k | 0 <= k < |used| :: minTime <= entries[used[k]].time
    ensures |r| == |entries|
  {
    seq(|entries|, s requires 0 <= s < |entries| =>
      var e := entries[s];
      if s in used[..n] && minTime <= e.time then e.(time := e.time - minTime) else e)
  }

  lemma ShiftedAt(entries: seq<Entry>, used: seq<nat>, n: nat, minTime: nat)
    requires n < |used| && Below(used, |entries|) && Distinct(used)
    requires forall k | 0 <= k < |used| :: minTime <= entries[used[k]].time
    ensures var r := Shifted(entries, used, n, minTime);
      && r[used[n]] == entries[used[n]]
      && Shifted(entries, used, n + 1, minTime) == r[used[n] := entries[used[n]].(time := entries[used[n]].time - minTime)]
  {
    assert used[..n + 1] == used[..n] + [used[n]];
  }

  lemma PoolAfterShift(p: Pool, model: State, minTime: nat)
    requires PoolOk(p, model) && minTime <= p.time && Below(p.used, |p.entries|)
    requires forall k | 0 <= k < |p.used| :: minTime <= p.entries[p.used[k]].time
    ensures PoolOk(p.(entries := Shifted(p.entries, p.used, |p.used|, minTime), time := p.time - minTime), model)
  {
    hide ConfigOk, DistinctIds, ListsOk, Holds, Total;
    assert p.used[..|p.used|] == p.used;
  }

  lemma PoolWithNoFrames(p: Pool, model: State)
    requires PoolOk(p, model) && p.used == []
    ensures PoolOk(p.(time := 0), model)
    ensures PoolOk(p.(time := 0), State(model.clock + 1, model.frames))
  {
    hide ConfigOk, DistinctIds, ListsOk, TreeFinds, TreeOnly;
  }

  lemma PoolAfterTick(p: Pool, model: State)
    requires PoolOk(p, model) && p.time < MAX_TIME
    ensures PoolOk(p.(time := p.time + 1), State(model.clock + 1, model.frames))
  {
    hide ConfigOk, DistinctIds, ListsOk, TreeFinds, TreeOnly;
  }

  lemma ParseStep(packet: seq<Byte>, pos: nat)
    requires pos <= |packet|
    ensures match NextChunk(packet, pos)
      case None => ParsePacket(packet, pos) == []
      case Some(c) => ParsePacket(packet, pos) == [c] + ParsePacket(packet, pos + HEADER_LEN + |c.data|)
  {
  }

  lemma NextChunkMeaning(packet: seq<Byte>, pos: nat)
    requires pos <= |packet|
    ensures |packet| - pos < HEADER_LEN ==> NextChunk(packet, pos).None?
    ensures |packet| - pos >= HEADER_LEN ==>
      var len, dataPos := Uint16At(packet, pos + 4), pos + HEADER_LEN;
      NextChunk(packet, pos) ==
        if packet[pos + 6] > 1 || |packet| - dataPos < len then None
        else Some(Chunk(Uint16At(packet, pos), Uint16At(packet, pos + 2), packet[pos + 6] == 1, packet[dataPos..dataPos + len]))
  {
  }

  lemma FeedStep(cfg: Config, st: State, cs: seq<Chunk>, purge: bool)
    requires cfg.numFrames > 0
    ensures cs == [] ==> Feed(cfg, st, cs, purge) == Progress(EndPacket(cfg, st, purge), [], None)
    ensures cs != [] ==>
      var r := Arrive(cfg, st, cs[0]);
      Feed(cfg, st, cs, purge) == if r.frame.Some? then Progress(r.st, cs[1..], r.frame) else Feed(cfg, r.st, cs[1..], purge)
  {
  }

  lemma PositionUnique(p: Pool, model: State, k: nat)
    requires PoolOk(p, model) && k < |p.used|
    ensures p.used[k] in p.used && p.used[k] < |p.entries| && |p.used| == |model.frames|
    ensures k == IndexOf(model.frames, p.entries[p.used[k]].id)
    ensures Remove(p.used, p.used[k]) == p.used[..k] + p.used[k + 1..]
  {
    var j := PositionOf(p, model, p.used[k]);
    RemoveAt(p.used, p.used[k], k);
  }

  /** The frames that are left when the timed-out ones have been dropped from before the i-th on. */
  ghost predicate DroppedTo(cfg: Config, before: seq<Partial>, frames: seq<Partial>, i: nat, clock: nat) {
    i <= |frames| && Live(cfg, before, clock) == frames[..i] + Live(cfg, frames[i..], clock)
  }

  lemma DroppedStart(cfg: Config, frames: seq<Partial>, clock: nat)
    ensures DroppedTo(cfg, frames, frames, 0, clock)
  {
    assert frames[0..] == frames;
  }

  lemma DroppedStep(cfg: Config, before: seq<Partial>, frames: seq<Partial>, i: nat, clock: nat)
    requires DroppedTo(cfg, before, frames, i, clock) && i < |frames|
    ensures if TimedOut(cfg, frames[i], clock) then DroppedTo(cfg, before, Without(frames, i), i, clock)
      else DroppedTo(cfg, before, frames, i + 1, clock)
  {
    assert frames[i..][1..] == frames[i + 1..];
    assert Without(frames, i)[i..] == frames[i + 1..];
    assert frames[..i + 1] == frames[..i] + [frames[i]];
  }

  lemma DroppedEnd(cfg: Config, before: seq<Partial>, frames: seq<Partial>, clock: nat)
    requires DroppedTo(cfg, before, frames, |frames|, clock)
    ensures frames == Live(cfg, before, clock)
  {
    assert frames[..|frames|] == frames;
  }

  /** A used entry and the partial frame at its position agree on age. */
  lemma UsedEntry(p: Pool, model: State, s: nat)
    requires PoolOk(p, model) && StateOk(p.cfg, model) && s in p.used
    ensures s < |p.entries|
    ensures var k := IndexOf(model.frames, p.entries[s].id);
      && k < |model.frames|
      && p.entries[s].time <= p.time
      && (p.time - p.entries[s].time > p.cfg.numFrames <==> TimedOut(p.cfg, model.frames[k], model.clock))
  {
    var k := PositionOf(p, model, s);
    assert PartialOk(p.cfg, model.frames[k], model.clock);
    assert Represents(p.cfg, p.entries[p.used[k]], model.frames[k], model.clock - p.time);
  }

  class Assembler {
    const cfg: Config
    var time: nat
    var entries: seq<Entry>
    var free: seq<nat>
    var used: seq<nat>
    var tree: map<nat, nat>
    var input: seq<Byte>
    var inLen: int         // -1 while there is no input packet
    var inPos: nat
    ghost var model: State

    ghost function View(): Pool
      reads this
    {
      Pool(cfg, entries, free, used, tree, time)
    }

    ghost function Shift(): int
      reads this
    {
      model.clock - time
    }

    ghost predicate Valid()
      reads this
    {
      && PoolOk(View(), model) && StateOk(cfg, model)
      && -1 <= inLen
      && (inLen >= 0 ==> inLen == |input| && inPos <= inLen)
    }

    constructor (cfg: Config)
      requires ConfigOk(cfg) && cfg.numFrames < MAX_TIME
      ensures Valid() && this.cfg == cfg
      ensures model == FRESH && time == 0 && inLen == -1
    {
      var list: seq<nat> := [];
      while |list| < cfg.numFrames
        invariant |list| <= cfg.numFrames
        invariant forall k | 0 <= k < |list| :: list[k] == k
      {
        list := list + [|list|];
      }
      this.cfg := cfg;
      time, free, used, tree := 0, list, [], map[];
      entries := seq(cfg.numFrames, _ => Entry(0, 0, [], 0, -1, 0, seq(cfg.frameMtu, _ => 0)));
      input, inLen, inPos := [], -1, 0;
      model := FRESH;
    }

    method FreeFrame(s: nat)
      requires PoolOk(View(), model) && s in used && s < |entries|
      modifies this`used, this`tree, this`free, this`model
      ensures PoolOk(View(), model)
      ensures model == State(old(model.clock), Without(old(model.frames), old(IndexOf(model.frames, entries[s].id))))
      ensures free == old(free) + [s] && tree == old(tree) - {entries[s].id} && used == Remove(old(used), s)
    {
      hide PoolOk;
      ghost var k := PoolAfterFree(View(), model, s);
      used := Remove(used, s);
      tree := tree - {entries[s].id};
      free := free + [s];
      model := State(model.clock, Without(model.frames, k));
    }

    method FreeOldestFrame()
      requires PoolOk(View(), model) && used != []
      modifies this`used, this`tree, this`free, this`model
      ensures PoolOk(View(), model)
      ensures model == State(old(model.clock), old(model.frames)[1..])
      ensures free == old(free) + [old(used[0])]
      ensures tree.Keys <= old(tree.Keys)
    {
      hide PoolOk, IndexOf;
      OldestIsFirst(View(), model);
      FreeFrame(used[0]);
    }

    method AllocateNewFrame(id: nat) returns (s: nat)
      requires PoolOk(View(), model) && id !in tree
      modifies this`entries, this`used, this`tree, this`free, this`model
      ensures PoolOk(View(), model)
      ensures model == State(old(model.clock), Allocate(cfg, old(model.frames), id, old(model.clock)))
      ensures s in used && s < |entries| && entries[s].id == id
    {
      hide PoolOk, IndexOf;
      PoolSizes(View(), model);
      if free == [] {
        FreeOldestFrame();
      }
      PoolAfterTake(View(), model, id);
      s := free[0];
      free := free[1..];
      entries := entries[s := Initial(entries[s], id, time)];
      used := used + [s];
      tree := tree[id := s];
      model := State(model.clock, model.frames + [Partial(id, model.clock, [], None)]);
    }

    /** The entry that collects the chunks of a frame: the one in use, unless it has timed out. */
    method EntryFor(id: nat) returns (s: nat)
      requires PoolOk(View(), model) && StateOk(cfg, model)
      modifies this`entries, this`used, this`tree, this`free, this`model
      ensures PoolOk(View(), model)
      ensures model == State(old(model.clock), Prepare(cfg, old(model), id))
      ensures s in used && s < |entries| && entries[s].id == id
    {
      hide PoolOk, IndexOf, FramesOk;
      PoolSizes(View(), model);
      LookupAgrees(View(), model, id);
      if id !in tree {
        s := AllocateNewFrame(id);
      } else {
        s := tree[id];
        UsedEntry(View(), model, s);
        if time - entries[s].time > cfg.numFrames {
          FreeFrame(s);
          s := AllocateNewFrame(id);
        }
      }
    }

    /** The arrival of one chunk; a frame that it completes is returned. */
    method ProcessChunk(frameId: nat, start: nat, payload: seq<Byte>, isLast: bool) returns (out: Option<seq<Byte>>)
      requires PoolOk(View(), model) && StateOk(cfg, model)
      modifies this`entries, this`used, this`tree, this`free, this`model
      ensures PoolOk(View(), model) && StateOk(cfg, model)
      ensures Outcome(model, out) == Arrive(cfg, old(model), Chunk(frameId, start, isLast, payload))
    {
      hide PoolOk, IndexOf, FramesOk, Fits, Accepts, Represents, Complete, Assembled, Extended, Prepare;
      PoolSizes(View(), model);
      ArriveKeepsOk(cfg, model, Chunk(frameId, start, isLast, payload));
      if start > cfg.frameMtu {
        return None;
      }
      if |payload| > cfg.frameMtu - start {
        return None;
      }
      PrepareKeepsOk(cfg, model, frameId);
      var s := EntryFor(frameId);
      ghost var k := PositionOf(View(), model, s);
      ghost var p, f := Piece(start, payload), model.frames[k];
      RepresentsAt(View(), model, k);
      AcceptsIsFits(cfg, entries[s], f, Shift(), p, isLast);
      var good := CheckChunk(entries[s], start, |payload|, isLast);
      if !good {
        FreeFrame(s);
        return None;
      }
      ExtendedStands(View(), model, k, p, isLast);
      var e := Extended(entries[s], time, start, payload, isLast);
      PoolAfterUpdate(View(), model, s, k, e, Add(f, p, isLast, model.clock));
      UpdateKeepsIndex(model.frames, k, Add(f, p, isLast, model.clock));
      entries := entries[s := e];
      model := State(model.clock, model.frames[k := Add(f, p, isLast, model.clock)]);
      if e.length < 0 || e.sum < e.length {
        if |e.chunks| == cfg.numChunks {
          FreeFrame(s);
        }
        return None;
      }
      assert e.sum == e.length;
      out := Some(e.buffer[..e.length]);
      FreeFrame(s);
    }

    /** Frees every timed-out entry, and finds the smallest time among the others. */
    method DropTimedOut() returns (minTime: Option<nat>)
      requires PoolOk(View(), model) && StateOk(cfg, model)
      modifies this`used, this`tree, this`free, this`model
      ensures PoolOk(View(), model) && StateOk(cfg, model)
      ensures model == State(old(model.clock), Live(cfg, old(model.frames), old(model.clock)))
      ensures Smallest(entries, used, |used|, minTime)
      ensures minTime.Some? ==> time - minTime.value <= cfg.numFrames
    {
      hide PoolOk, IndexOf, FramesOk, Remove, Smallest, DroppedTo, Without, Live;
      minTime := None;
      var i := 0;
      PoolSizes(View(), model);
      SmallestOfNone(entries, used);
      DroppedStart(cfg, model.frames, model.clock);
      while i < |used|
        invariant i <= |used| == |model.frames|
        invariant PoolOk(View(), model) && FramesOk(cfg, model.frames, model.clock)
        invariant model.clock == old(model.clock)
        invariant DroppedTo(cfg, old(model.frames), model.frames, i, model.clock)
        invariant Smallest(entries, used, i, minTime)
        invariant minTime.Some? ==> time - minTime.value <= cfg.numFrames
        decreases |used| - i
      {
        var s := used[i];
        UsedEntry(View(), model, s);
        PositionUnique(View(), model, i);
        WithoutKeepsOk(cfg, model.frames, i, model.clock);
        DroppedStep(cfg, old(model.frames), model.frames, i, model.clock);
        if time - entries[s].time > cfg.numFrames {
          SmallestOfPrefix(entries, used, Remove(used, s), i, minTime);
          FreeFrame(s);
        } else {
          SmallestSoFar(entries, used, i, minTime);
          if minTime.None? || entries[s].time < minTime.value {
            minTime := Some(entries[s].time);
          }
          i := i + 1;
        }
      }
      DroppedEnd(cfg, old(model.frames), model.frames, model.clock);
    }

    /** Subtracts a time from every used entry. */
    method SubtractTime(minTime: nat)
      requires Below(used, |entries|) && Distinct(used)
      requires forall k | 0 <= k < |used| :: minTime <= entries[used[k]].time
      modifies this`entries
      ensures entries == Shifted(old(entries), used, |used|, minTime)
    {
      var i := 0;
      while i < |used|
        invariant i <= |used| && |entries| == |old(entries)|
        invariant entries == Shifted(old(entries), used, i, minTime)
      {
        ShiftedAt(old(entries), used, i, minTime);
        var e := entries[used[i]];
        entries := entries[used[i] := e.(time := e.time - minTime)];
        i := i + 1;
      }
    }

    /**
     * Makes room on the packet clock: timed-out entries are freed and all times are
     * reduced by the smallest one left. No age changes.
     */
    method ReduceTimes()
      requires PoolOk(View(), model) && StateOk(cfg, model)
      modifies this`entries, this`used, this`tree, this`free, this`time, this`model
      ensures PoolOk(View(), model) && StateOk(cfg, model)
      ensures model == State(old(model.clock), Live(cfg, old(model.frames), old(model.clock)))
      ensures used == [] ==> time == 0
      ensures used != [] ==> time <= cfg.numFrames
    {
      hide PoolOk, IndexOf, FramesOk, Smallest, Shifted;
      var minTime := DropTimedOut();
      SmallestMeaning(View(), model, minTime);
      if minTime.None? {
        PoolWithNoFrames(View(), model);
        time := 0;
        return;
      }
      PoolAfterShift(View(), model, minTime.value);
      SubtractTime(minTime.value);
      time := time - minTime.value;
    }

    /** Counts a packet. Only a full clock is rebased first; a rebased clock with no frames stays at zero. */
    method AdvanceTime()
      requires PoolOk(View(), model) && StateOk(cfg, model)
      modifies this`entries, this`used, this`tree, this`free, this`time, this`model
      ensures PoolOk(View(), model) && StateOk(cfg, model)
      ensures model == EndPacket(cfg, old(model), old(time) == MAX_TIME)
    {
      hide PoolOk, FramesOk, Live;
      PoolSizes(View(), model);
      EndPacketKeepsOk(cfg, model, time == MAX_TIME);
      if time == MAX_TIME {
        ReduceTimes();
        PoolSizes(View(), model);
        if used != [] {
          assert time < MAX_TIME;
          PoolAfterTick(View(), model);
          time := time + 1;
        } else {
          PoolWithNoFrames(View(), model);
          PoolWithNoFrames(View(), State(model.clock + 1, model.frames));
        }
      } else {
        PoolAfterTick(View(), model);
        time := time + 1;
      }
      model := State(model.clock + 1, model.frames);
    }

    /** The chunks of the input packet that have not been processed. */
    ghost function Pending(): seq<Chunk>
      reads this
      requires inLen >= 0 ==> inPos <= |input|
    {
      if inLen < 0 then [] else ParsePacket(input, inPos)
    }

    /** Processes the input packet until a chunk completes a frame, which is returned, or the packet is done. */
    method ProcessInput() returns (out: Option<seq<Byte>>)
      requires Valid() && inLen >= 0
      modifies this
      ensures Valid()
      ensures var r := Feed(cfg, old(model), old(Pending()), old(time) == MAX_TIME);
        model == r.st && out == r.frame && Pending() == r.rest
      ensures out.None? <==> inLen == -1
      ensures input == old(input) && (out.Some? ==> inLen == old(inLen))
    {
      hide PoolOk, FramesOk, Arrive, EndPacket, ParsePacket, Feed, NextChunk;
      ghost var pending := Pending();
      PoolSizes(View(), model);
      while inPos < inLen
        invariant Valid() && inLen == old(inLen) && input == old(input) && time == old(time)
        invariant pending == ParsePacket(input, inPos)
        invariant Feed(cfg, model, pending, time == MAX_TIME) == Feed(cfg, old(model), old(Pending()), time == MAX_TIME)
        decreases inLen - inPos
      {
        ParseStep(input, inPos);
        FeedNext(pending);
        var c := ReadChunk();
        if c == None {
          break;
        }
        out := ProcessChunk(c.value.frameId, c.value.start, c.value.data, c.value.isLast);
        inPos, pending := inPos + |c.value.data|, pending[1..];
        if out.Some? {
          return;
        }
      }
      NothingPending(pending);
      FeedNext(pending);
      out := None;
      AdvanceTime();
      inLen := -1;
    }

    lemma FeedNext(pending: seq<Chunk>)
      requires Valid()
      ensures cfg.numFrames > 0
      ensures pending == [] ==> Feed(cfg, model, pending, time == MAX_TIME) == Progress(EndPacket(cfg, model, time == MAX_TIME), [], None)
      ensures pending != [] ==>
        var r := Arrive(cfg, model, pending[0]);
        Feed(cfg, model, pending, time == MAX_TIME) ==
          if r.frame.Some? then Progress(r.st, pending[1..], r.frame) else Feed(cfg, r.st, pending[1..], time == MAX_TIME)
    {
      hide PoolOk, FramesOk, Arrive, EndPacket;
      PoolSizes(View(), model);
      FeedStep(cfg, model, pending, time == MAX_TIME);
    }

    /** At the end of a packet there is nothing more to process. */
    lemma NothingPending(pending: seq<Chunk>)
      requires Valid() && inLen >= 0 && (pending == [] || (inPos == inLen && pending == ParsePacket(input, inPos)))
      ensures pending == []
    {
      if inPos == inLen {
        NextChunkMeaning(input, inPos);
        ParseStep(input, inPos);
      }
    }

    /** The next chunk header of the input packet, with the data that follows it, unless that is the end of its processing. */
    method ReadChunk() returns (c: Option<Chunk>)
      requires 0 <= inLen == |input| && inPos <= inLen
      modifies this`inPos
      ensures c == NextChunk(input, old(inPos)) && inPos <= inLen
      ensures c.Some? ==> inPos == old(inPos) + HEADER_LEN && inPos + |c.value.data| <= inLen
    {
      NextChunkMeaning(input, inPos);
      if inLen - inPos < HEADER_LEN {
        return None;
      }
      var frameId, chunkStart, chunkLen := Uint16At(input, inPos), Uint16At(input, inPos + 2), Uint16At(input, inPos + 4);
      var isLast := input[inPos + 6];
      inPos := inPos + HEADER_LEN;
      if !(isLast == 0 || isLast == 1) {
        return None;
      }
      if inLen - inPos < chunkLen {
        return None;
      }
      return Some(Chunk(frameId, chunkStart, isLast == 1, input[inPos..inPos + chunkLen]));
    }

    /** A packet arrives. */
    method InputSend(data: seq<Byte>) returns (out: Option<seq<Byte>>)
      requires Valid() && inLen == -1
      modifies this
      ensures Valid()
      ensures var r := Feed(cfg, old(model), ParsePacket(data, 0), old(time) == MAX_TIME);
        model == r.st && out == r.frame && Pending() == r.rest
      ensures out.None? <==> inLen == -1
    {
      inLen, input, inPos := |data|, data, 0;
      out := ProcessInput();
    }

    /** The receiver has taken the frame last returned. */
    method OutputDone() returns (out: Option<seq<Byte>>)
      requires Valid() && inLen >= 0
      modifies this
      ensures Valid()
      ensures var r := Feed(cfg, old(model), old(Pending()), old(time) == MAX_TIME);
        model == r.st && out == r.frame && Pending() == r.rest
      ensures out.None? <==> inLen == -1
    {
      out := ProcessInput();
    }
  }
}
