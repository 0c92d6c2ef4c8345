/** A switch that decides which peers the frames of a local device go to, from what it has learned of the peers' frames. */
module FrameDecider {
  import opened Bytes
  import opened Lists
  import opened Recency
  import opened MacSpec
  import opened MacTable
  import opened GroupTable

  const BROADCAST: Mac := [0xff, 0xff, 0xff, 0xff, 0xff, 0xff]
  const MULTICAST_PREFIX: Mac := [0x01, 0x00, 0x5e]

  /** compute_sig_for_mac: of the last four bytes, the 23 bits that a group address puts there. */
  function SigOfMac(mac: Mac): nat
    requires |mac| == 6
  {
    (mac[2] as nat * 0x100_0000 + mac[3] as nat * 0x1_0000 + mac[4] as nat * 0x100 + mac[5] as nat) % SIGNATURES
  }

  /** The Ethernet address of an IP group, by section 6.4 of RFC 1112. */
  function GroupMac(group: nat): (mac: Mac)
    ensures |mac| == 6
  {
    MULTICAST_PREFIX + [(group / 0x1_0000 % 0x80) as Byte, (group / 0x100 % 0x100) as Byte, (group % 0x100) as Byte]
  }

  lemma SplitSig(group: nat)
    ensures Sig(group) == (group / 0x1_0000 % 0x80) * 0x1_0000 + (group / 0x100 % 0x100) * 0x100 + group % 0x100
  {
    var x := (group / 0x1_0000 % 0x80) * 0x1_0000 + (group / 0x100 % 0x100) * 0x100 + group % 0x100;
    var high := group / 0x1_0000 / 0x80;
    assert group / 0x100 / 0x100 == group / 0x1_0000;
    assert group == high * SIGNATURES + x;
    Rest(group, high, x);
  }

  lemma Rest(n: nat, q: nat, r: nat)
    requires n == q * SIGNATURES + r && r < SIGNATURES
    ensures n % SIGNATURES == r
  {
  }

  /** A multicast frame is sent by the signature of its group, and an address has the signature of those groups only that use it. */
  lemma SignaturesAgree(group: nat, mac: Mac)
    requires |mac| == 6 && mac[..3] == MULTICAST_PREFIX
    ensures SigOfMac(GroupMac(group)) == Sig(group)
    ensures SigOfMac(mac) == Sig(group) <==> mac[3 := mac[3] % 0x80] == GroupMac(group)
  {
    SplitSig(group);
    SplitMac(mac);
    SplitMac(GroupMac(group));
    var low := mac[3 := mac[3] % 0x80];
    assert low == GroupMac(group) <==> low[3] == GroupMac(group)[3] && low[4] == GroupMac(group)[4] && low[5] == GroupMac(group)[5] by {
      assert low[..3] == MULTICAST_PREFIX && GroupMac(group)[..3] == MULTICAST_PREFIX;
      assert low == low[..3] + [low[3], low[4], low[5]];
      var g := GroupMac(group);
      assert g == g[..3] + [g[3], g[4], g[5]];
    }
  }

  lemma SplitMac(mac: Mac)
    requires |mac| == 6 && mac[..3] == MULTICAST_PREFIX
    ensures SigOfMac(mac) == (mac[3] as nat % 0x80) * 0x1_0000 + mac[4] as nat * 0x100 + mac[5] as nat
  {
    assert mac[2] == mac[..3][2];
    var a: nat, b: nat, c: nat := mac[3], mac[4], mac[5];
    Rest(0x5e00_0000 + a * 0x1_0000 + b * 0x100 + c, 0x5e * 2 + a / 0x80, (a % 0x80) * 0x1_0000 + b * 0x100 + c);
  }

  /** The rest of a list from an element on. */
  function From<T(==)>(list: seq<T>, x: T): (r: seq<T>)
    requires x in list
    ensures r != [] && r[0] == x
  {
    if list[0] == x then list else From(list[1..], x)
  }

  lemma {:induction false} FromAt<T>(list: seq<T>, k: nat)
    requires Distinct(list) && k < |list|
    ensures From(list, list[k]) == list[k..]
  {
    if k > 0 {
      assert list[1..][k - 1] == list[k] && list[1..][k - 1..] == list[k..];
      FromAt(list[1..], k - 1);
    }
  }

  lemma {:induction false} FromIsSuffix<T>(list: seq<T>, x: T) returns (k: nat)
    requires x in list
    ensures k < |list| && list[k] == x && From(list, x) == list[k..]
  {
    if list[0] == x {
      k := 0;
    } else {
      k := FromIsSuffix(list[1..], x);
      k := k + 1;
    }
  }

  lemma FromNext<T>(list: seq<T>, x: T)
    requires Distinct(list) && x in list && |From(list, x)| > 1
    ensures From(list, x)[1] in list && From(list, From(list, x)[1]) == From(list, x)[1..]
  {
    var k := FromIsSuffix(list, x);
    FromAt(list, k + 1);
  }

  lemma {:induction false} FromAppend<T>(list: seq<T>, x: T, y: T)
    requires x in list
    ensures From(list + [y], x) == From(list, x) + [y]
  {
    if list[0] != x {
      assert (list + [y])[1..] == list[1..] + [y];
      FromAppend(list[1..], x, y);
    } else {
      assert (list + [y])[0] == x;
    }
  }

  /** Taking an element off a list takes it off the rest of the list too, and the rest of the list starts at the next if it was the first. */
  lemma {:induction false} FromRemove<T>(list: seq<T>, x: T, y: T)
    requires Distinct(list) && x in list && y in list && x != y
    ensures x in Remove(list, y) && From(Remove(list, y), x) == Forget(From(list, x), y)
  {
    if list[0] == x {
      assert Remove(list, y)[0] == x;
    } else if list[0] == y {
      assert y !in list[1..];
      var k := FromIsSuffix(list[1..], x);
      assert forall z | z in From(list[1..], x) :: z in list[1..];
    } else {
      FromRemove(list[1..], x, y);
      assert Remove(list, y)[1..] == Remove(list[1..], y);
    }
  }

  lemma {:induction false} FromRemoveFirst<T>(list: seq<T>, x: T)
    requires Distinct(list) && x in list && |From(list, x)| > 1
    ensures var next := From(list, x)[1];
      next in Remove(list, x) && From(Remove(list, x), next) == From(list, x)[1..]
  {
    if list[0] == x {
      assert Remove(list, x) == list[1..] && list[1..][0] == list[1];
    } else {
      FromRemoveFirst(list[1..], x);
      var next := From(list[1..], x)[1];
      FromNext(list[1..], x);
      assert Remove(list, x) == [list[0]] + Remove(list[1..], x);
      assert Remove(list, x)[1..] == Remove(list[1..], x);
      assert next in list[1..] && next != list[0];
    }
  }

  /** What can happen while a frame is being flooded. */
  datatype FloodStep<P> = Deliver | Free(peer: P) | Add(peer: P)

  /** The peers a flood is delivered to, from those it has yet to reach. */
  ghost function Delivered<P>(pending: seq<P>, steps: seq<FloodStep<P>>): seq<P>
    decreases |steps|
  {
    if steps == [] then [] else
      match steps[0]
      case Deliver => if pending == [] then Delivered([], steps[1..]) else [pending[0]] + Delivered(pending[1..], steps[1..])
      case Free(p) => Delivered(Forget(pending, p), steps[1..])
      case Add(p) => Delivered(if pending == [] then [] else pending + [p], steps[1..])
  }

  /** Only peers that were not known before are added. */
  ghost predicate AddsNew<P>(known: set<P>, steps: seq<FloodStep<P>>)
    decreases |steps|
  {
    if steps == [] then true else
      match steps[0]
      case Add(p) => p !in known && AddsNew(known + {p}, steps[1..])
      case _ => AddsNew(known, steps[1..])
  }

  ghost function Delivers<P>(steps: seq<FloodStep<P>>): nat {
    if steps == [] then 0 else (if steps[0] == Deliver then 1 else 0) + Delivers(steps[1..])
  }

  lemma ForgetIsPart<P>(list: seq<P>, x: P)
    requires Distinct(list)
    ensures Distinct(Forget(list, x)) && Elements(Forget(list, x)) <= Elements(list)
    ensures forall y :: y in Forget(list, x) ==> y in list
  {
    ForgetKeepsRest(list, x);
    forall y | y in Forget(list, x)
      ensures y in list
    {
      InForget(list, x, y);
    }
  }

  /** A known peer that the flood has passed, or that has been freed, is not returned any more. */
  lemma {:induction false} GoneIsNotReturned<P>(pending: seq<P>, steps: seq<FloodStep<P>>, known: set<P>, gone: P)
    requires AddsNew(known, steps) && gone in known && gone !in pending && Distinct(pending) && Elements(pending) <= known
    ensures gone !in Delivered(pending, steps)
    decreases |steps|
  {
    if steps != [] {
      match steps[0]
      case Deliver =>
        if pending != [] {
          GoneIsNotReturned(pending[1..], steps[1..], known, gone);
        } else {
          GoneIsNotReturned(pending, steps[1..], known, gone);
        }
      case Free(p) =>
        ForgetIsPart(pending, p);
        GoneIsNotReturned(Forget(pending, p), steps[1..], known, gone);
      case Add(p) =>
        assert p !in Elements(pending);
        GoneIsNotReturned(if pending == [] then [] else pending + [p], steps[1..], known + {p}, gone);
    }
  }

  /** No peer is returned twice. */
  lemma {:induction false} FloodReturnsNoneTwice<P>(pending: seq<P>, steps: seq<FloodStep<P>>, known: set<P>)
    requires AddsNew(known, steps) && Distinct(pending) && Elements(pending) <= known
    ensures Distinct(Delivered(pending, steps))
    decreases |steps|
  {
    if steps != [] {
      match steps[0]
      case Deliver =>
        if pending != [] {
          FloodReturnsNoneTwice(pending[1..], steps[1..], known);
          assert pending[0] in Elements(pending);
          GoneIsNotReturned(pending[1..], steps[1..], known, pending[0]);
        } else {
          FloodReturnsNoneTwice(pending, steps[1..], known);
        }
      case Free(p) =>
        ForgetIsPart(pending, p);
        FloodReturnsNoneTwice(Forget(pending, p), steps[1..], known);
      case Add(p) =>
        assert p !in Elements(pending);
        FloodReturnsNoneTwice(if pending == [] then [] else pending + [p], steps[1..], known + {p});
    }
  }

  /** A peer is returned after as many others as were before it, if it is not freed. */
  lemma {:induction false} NthIsReached<P>(pending: seq<P>, steps: seq<FloodStep<P>>, known: set<P>, i: nat)
    requires AddsNew(known, steps) && Distinct(pending) && Elements(pending) <= known
    requires i < |pending| && i < Delivers(steps) && Free(pending[i]) !in steps
    ensures pending[i] in Delivered(pending, steps)
    decreases |steps|
  {
    if steps != [] {
      match steps[0]
      case Deliver =>
        if i > 0 {
          NthIsReached(pending[1..], steps[1..], known, i - 1);
        }
      case Free(p) =>
        ForgetIsPart(pending, p);
        var j := PlaceAfterForget(pending, p, i);
        NthIsReached(Forget(pending, p), steps[1..], known, j);
      case Add(p) =>
        assert p !in Elements(pending);
        NthIsReached(pending + [p], steps[1..], known + {p}, i);
    }
  }

  /** The peers a flood has yet to reach, and those that have been known, after some steps. */
  ghost function PendingAfter<P>(pending: seq<P>, steps: seq<FloodStep<P>>): seq<P>
    decreases |steps|
  {
    if steps == [] then pending else
      match steps[0]
      case Deliver => PendingAfter(if pending == [] then [] else pending[1..], steps[1..])
      case Free(p) => PendingAfter(Forget(pending, p), steps[1..])
      case Add(p) => PendingAfter(if pending == [] then [] else pending + [p], steps[1..])
  }

  ghost function KnownAfter<P>(known: set<P>, steps: seq<FloodStep<P>>): set<P>
    decreases |steps|
  {
    if steps == [] then known else KnownAfter(if steps[0].Add? then known + {steps[0].peer} else known, steps[1..])
  }

  lemma {:induction false} DeliveredAppend<P>(pending: seq<P>, steps: seq<FloodStep<P>>, more: seq<FloodStep<P>>)
    ensures Delivered(pending, steps + more) == Delivered(pending, steps) + Delivered(PendingAfter(pending, steps), more)
    decreases |steps|
  {
    if steps == [] {
      assert steps + more == more;
    } else {
      assert (steps + more)[1..] == steps[1..] + more;
      match steps[0]
      case Deliver => DeliveredAppend(if pending == [] then [] else pending[1..], steps[1..], more);
      case Free(p) => DeliveredAppend(Forget(pending, p), steps[1..], more);
      case Add(p) => DeliveredAppend(if pending == [] then [] else pending + [p], steps[1..], more);
    }
  }

  lemma {:induction false} AddsNewAppend<P>(known: set<P>, steps: seq<FloodStep<P>>, more: seq<FloodStep<P>>)
    ensures AddsNew(known, steps + more) <==> AddsNew(known, steps) && AddsNew(KnownAfter(known, steps), more)
    decreases |steps|
  {
    if steps == [] {
      assert steps + more == more;
    } else {
      assert (steps + more)[1..] == steps[1..] + more;
      AddsNewAppend(if steps[0].Add? then known + {steps[0].peer} else known, steps[1..], more);
    }
  }

  lemma {:induction false} PendingStaysDistinct<P>(pending: seq<P>, steps: seq<FloodStep<P>>, known: set<P>)
    requires AddsNew(known, steps) && Distinct(pending) && Elements(pending) <= known
    ensures Distinct(PendingAfter(pending, steps)) && Elements(PendingAfter(pending, steps)) <= KnownAfter(known, steps)
    decreases |steps|
  {
    if steps != [] {
      match steps[0]
      case Deliver => PendingStaysDistinct(if pending == [] then [] else pending[1..], steps[1..], known);
      case Free(p) =>
        ForgetIsPart(pending, p);
        PendingStaysDistinct(Forget(pending, p), steps[1..], known);
      case Add(p) =>
        assert p !in Elements(pending);
        PendingStaysDistinct(if pending == [] then [] else pending + [p], steps[1..], known + {p});
    }
  }

  /**
   * A peer is returned if it is still present at its turn. Whatever has happened before, and however
   * it goes on: if at some time others are before it and it is not freed until as many have been
   * returned, then it is; it may be freed afterwards.
   */
  lemma FloodReachesAll<P>(pending: seq<P>, before: seq<FloodStep<P>>, turn: seq<FloodStep<P>>, afterwards: seq<FloodStep<P>>, known: set<P>, i: nat)
    requires AddsNew(known, before + turn + afterwards) && Distinct(pending) && Elements(pending) <= known
    requires var rest := PendingAfter(pending, before); i < |rest| && i < Delivers(turn) && Free(rest[i]) !in turn
    ensures PendingAfter(pending, before)[i] in Delivered(pending, before + turn + afterwards)
  {
    hide Delivered, AddsNew;
    AddsNewAppend(known, before + turn, afterwards);
    AddsNewAppend(known, before, turn);
    PendingStaysDistinct(pending, before, known);
    NthIsReached(PendingAfter(pending, before), turn, KnownAfter(known, before), i);
    DeliveredAppend(pending, before + turn, afterwards);
    DeliveredAppend(pending, before, turn);
  }

  lemma {:induction false} PlaceAfterForget<P>(list: seq<P>, x: P, i: nat) returns (j: nat)
    requires i < |list| && list[i] != x
    ensures j <= i && j < |Forget(list, x)| && Forget(list, x)[j] == list[i]
  {
    if x !in list {
      j := i;
    } else if list[0] == x {
      j := i - 1;
    } else if i == 0 {
      j := 0;
    } else {
      var k := PlaceAfterForget(list[1..], x, i - 1);
      j := k + 1;
    }
  }

  /** The course of a flood: the peers there were when it began, what has happened since, the peers returned, and all that have been known. */
  datatype Course<!P> = Course(start: seq<P>, steps: seq<FloodStep<P>>, returned: seq<P>, met: set<P>)

  ghost function Begin<P>(peers: seq<P>): Course<P> {
    Course(peers, [], [], Elements(peers))
  }

  ghost function Happens<P>(c: Course<P>, pending: seq<P>, step: FloodStep<P>): Course<P> {
    Course(c.start, c.steps + [step],
           if step.Deliver? && pending != [] then c.returned + [pending[0]] else c.returned,
           if step.Add? then c.met + {step.peer} else c.met)
  }

  /** The course of a flood that has led to some peers, of which some are pending. */
  ghost predicate Led<P>(c: Course<P>, peers: seq<P>, pending: seq<P>) {
    && Distinct(c.start) && AddsNew(Elements(c.start), c.steps)
    && c.met == KnownAfter(Elements(c.start), c.steps) && Elements(peers) <= c.met
    && pending == PendingAfter(c.start, c.steps) && c.returned == Delivered(c.start, c.steps)
    && Gone(c.steps, c.met, Elements(peers))
  }

  /** Those that have been freed were known, and are not there any more. */
  ghost predicate Gone<P>(steps: seq<FloodStep<P>>, met: set<P>, present: set<P>) {
    forall i | 0 <= i < |steps| && steps[i].Free? :: steps[i].peer in met && steps[i].peer !in present
  }

  lemma BeginLed<P>(peers: seq<P>)
    requires Distinct(peers)
    ensures Led(Begin(peers), peers, peers)
  {
  }

  lemma StepEffect<P>(pending: seq<P>, known: set<P>, step: FloodStep<P>)
    ensures AddsNew(known, [step]) <==> step.Add? ==> step.peer !in known
    ensures KnownAfter(known, [step]) == if step.Add? then known + {step.peer} else known
    ensures Delivered(pending, [step]) == if step.Deliver? && pending != [] then [pending[0]] else []
    ensures PendingAfter(pending, [step]) ==
      if step.Free? then Forget(pending, step.peer)
      else if pending == [] then []
      else if step.Deliver? then pending[1..] else pending + [step.peer]
  {
  }

  lemma {:induction false} AfterAppend<P>(pending: seq<P>, known: set<P>, steps: seq<FloodStep<P>>, more: seq<FloodStep<P>>)
    ensures PendingAfter(pending, steps + more) == PendingAfter(PendingAfter(pending, steps), more)
    ensures KnownAfter(known, steps + more) == KnownAfter(KnownAfter(known, steps), more)
    decreases |steps|
  {
    if steps == [] {
      assert steps + more == more;
    } else {
      assert (steps + more)[1..] == steps[1..] + more;
      var known' := if steps[0].Add? then known + {steps[0].peer} else known;
      match steps[0]
      case Deliver => AfterAppend(if pending == [] then [] else pending[1..], known', steps[1..], more);
      case Free(p) => AfterAppend(Forget(pending, p), known', steps[1..], more);
      case Add(p) => AfterAppend(if pending == [] then [] else pending + [p], known', steps[1..], more);
    }
  }

  lemma HappensLed<P>(c: Course<P>, peers: seq<P>, pending: seq<P>, step: FloodStep<P>, peers': seq<P>, pending': seq<P>)
    requires Led(c, peers, pending) && pending' == PendingAfter(pending, [step])
    requires if step.Add? then step.peer !in c.met && peers' == peers + [step.peer] else Elements(peers') <= Elements(peers)
    requires step.Free? ==> step.peer in peers && step.peer !in peers'
    ensures Led(Happens(c, pending, step), peers', pending')
  {
    hide AddsNew, Delivered, PendingAfter, KnownAfter, Distinct, Elements, Gone;
    var known := Elements(c.start);
    MoreGone(c.steps, c.met, peers, step, peers');
    StepEffect(pending, c.met, step);
    AfterAppend(c.start, known, c.steps, [step]);
    AddsNewAppend(known, c.steps, [step]);
    DeliveredAppend(c.start, c.steps, [step]);
    if step.Add? {
      ElementsMore(peers, step.peer);
    } else {
      assert c.returned + [] == c.returned;
    }
  }

  lemma MoreGone<P>(steps: seq<FloodStep<P>>, met: set<P>, peers: seq<P>, step: FloodStep<P>, peers': seq<P>)
    requires Gone(steps, met, Elements(peers)) && Elements(peers) <= met
    requires if step.Add? then step.peer !in met && peers' == peers + [step.peer] else Elements(peers') <= Elements(peers)
    requires step.Free? ==> step.peer in peers && step.peer !in peers'
    ensures Gone(steps + [step], if step.Add? then met + {step.peer} else met, Elements(peers'))
  {
  }

  lemma ElementsMore<P>(list: seq<P>, x: P)
    ensures Elements(list + [x]) == Elements(list) + {x}
  {
  }

  lemma LedIsDistinct<P>(c: Course<P>, peers: seq<P>, pending: seq<P>)
    requires Led(c, peers, pending)
    ensures Distinct(pending) && Elements(pending) <= c.met
  {
    hide AddsNew, Delivered, PendingAfter, KnownAfter;
    PendingStaysDistinct(c.start, c.steps, Elements(c.start));
  }

  /** A peer that was to be reached is returned, or pending, or has been freed. */
  lemma {:induction false} NoneIsSkipped<P>(pending: seq<P>, steps: seq<FloodStep<P>>, p: P)
    requires p in pending
    ensures p in Delivered(pending, steps) || p in PendingAfter(pending, steps) || Free(p) in steps
    decreases |steps|
  {
    if steps != [] {
      match steps[0]
      case Deliver =>
        if p != pending[0] {
          NoneIsSkipped(pending[1..], steps[1..], p);
        }
      case Free(q) =>
        if p != q {
          var i :| 0 <= i < |pending| && pending[i] == p;
          var j := PlaceAfterForget(pending, q, i);
          NoneIsSkipped(Forget(pending, q), steps[1..], p);
        }
      case Add(q) => NoneIsSkipped(pending + [q], steps[1..], p);
    }
  }

  /** What is pending has not been returned. */
  lemma {:induction false} PendingIsNotReturned<P>(pending: seq<P>, steps: seq<FloodStep<P>>, known: set<P>, p: P)
    requires AddsNew(known, steps) && Distinct(pending) && Elements(pending) <= known
    requires p in Delivered(pending, steps)
    ensures p !in PendingAfter(pending, steps)
  {
    hide Delivered, AddsNew, PendingAfter, KnownAfter;
    var rest := PendingAfter(pending, steps);
    PendingStaysDistinct(pending, steps, known);
    if p in rest {
      var i :| 0 <= i < |rest| && rest[i] == p;
      var more := seq(i + 1, _ => Deliver);
      NoAdds(KnownAfter(known, steps), more);
      AllDeliver(rest, i, p);
      AddsNewAppend(known, steps, more);
      FloodReturnsNoneTwice(pending, steps + more, known);
      DeliveredAppend(pending, steps, more);
      InOneOnly(Delivered(pending, steps), Delivered(rest, more), p);
    }
  }

  lemma InOneOnly<P>(a: seq<P>, b: seq<P>, p: P)
    requires Distinct(a + b) && p in a
    ensures p !in b
  {
    var i :| 0 <= i < |a| && a[i] == p;
    assert (a + b)[i] == p;
    assert forall j | 0 <= j < |b| :: (a + b)[|a| + j] == b[j];
  }

  lemma {:induction false} NoAdds<P>(known: set<P>, steps: seq<FloodStep<P>>)
    requires forall i | 0 <= i < |steps| :: steps[i] == Deliver
    ensures AddsNew(known, steps)
    decreases |steps|
  {
    if steps != [] {
      NoAdds(known, steps[1..]);
    }
  }

  lemma {:induction false} AllDeliver<P>(pending: seq<P>, i: nat, p: P)
    requires i < |pending| && pending[i] == p
    ensures p in Delivered(pending, seq(i + 1, _ => Deliver))
    decreases i
  {
    var steps: seq<FloodStep<P>> := seq(i + 1, _ => Deliver);
    if i > 0 {
      AllDeliver(pending[1..], i - 1, p);
      assert steps[1..] == seq(i, _ => Deliver);
    }
  }

  class DeciderPeer {
    const macs: MacPeer
    const groups: GroupPeer

    constructor (macs: MacPeer, groups: GroupPeer)
      ensures this.macs == macs && this.groups == groups
    {
      this.macs, this.groups := macs, groups;
    }
  }

  /**
   * Where the frame that was last decided on still has to go. The rest of a list of group entries is
   * what an iterator is before, which follows what becomes of the list as long as it is attached to it.
   */
  datatype Decision =
    Nowhere | Unicast(peer: DeciderPeer) | Flood(current: Option<DeciderPeer>) | Multicast(rest: seq<GroupEntry>, attached: bool)

  /** What a frame of the device is, as far as deciding on it goes. */
  datatype Frame = Frame(dest: Mac, igmp: bool, query: Option<nat>)

  ghost predicate Decidable(peers: seq<DeciderPeer>, ofGroups: map<GroupPeer, DeciderPeer>, decision: Decision) {
    match decision
    case Nowhere => true
    case Unicast(p) => p in peers
    case Flood(p) => p.Some? ==> p.value in peers
    case Multicast(rest, _) => forall i | 0 <= i < |rest| :: rest[i].peer in ofGroups
  }

  ghost function Remaining(peers: seq<DeciderPeer>, ofGroups: map<GroupPeer, DeciderPeer>, decision: Decision): seq<DeciderPeer>
    requires Decidable(peers, ofGroups, decision)
  {
    match decision
    case Nowhere => []
    case Unicast(p) => [p]
    case Flood(p) => if p == None then [] else From(peers, p.value)
    case Multicast(rest, _) => Owners(ofGroups, rest)
  }

  /** The peers of entries. */
  ghost function Owners(ofGroups: map<GroupPeer, DeciderPeer>, list: seq<GroupEntry>): (r: seq<DeciderPeer>)
    requires forall i | 0 <= i < |list| :: list[i].peer in ofGroups
    ensures |r| == |list|
    ensures forall i | 0 <= i < |list| :: r[i] == ofGroups[list[i].peer]
  {
    if list == [] then [] else [ofGroups[list[0].peer]] + Owners(ofGroups, list[1..])
  }

  /** After the next destination, what remains is the rest. */
  lemma FloodNext(peers: seq<DeciderPeer>, ofGroups: map<GroupPeer, DeciderPeer>, current: DeciderPeer)
    requires Distinct(peers) && current in peers
    ensures From(peers, current)[0] == current
    ensures var rest := From(peers, current);
      var next := Flood(if |rest| > 1 then Some(rest[1]) else None);
      Decidable(peers, ofGroups, next) && Remaining(peers, ofGroups, next) == rest[1..]
  {
    hide From;
    var rest := From(peers, current);
    if |rest| > 1 {
      FromNext(peers, current);
    } else {
      assert rest[1..] == [];
    }
  }

  /** A new peer comes last, and a frame that is flooded goes there too unless it has been everywhere. */
  lemma RemainingWith(peers: seq<DeciderPeer>, ofGroups: map<GroupPeer, DeciderPeer>, decision: Decision, o: DeciderPeer)
    requires Decidable(peers, ofGroups, decision) && o.groups !in ofGroups
    ensures var groups := ofGroups[o.groups := o];
      && Decidable(peers + [o], groups, decision)
      && var before := Remaining(peers, ofGroups, decision);
      Remaining(peers + [o], groups, decision) == if decision.Flood? && before != [] then before + [o] else before
  {
    hide From, Owners;
    if decision.Flood? && decision.current != None {
      FromAppend(peers, decision.current.value, o);
    }
    if decision.Multicast? {
      assert Owners(ofGroups, decision.rest) == Owners(ofGroups[o.groups := o], decision.rest);
    }
  }

  /** A list without an element, however often it is in it. */
  function Others<T(==)>(list: seq<T>, x: T): seq<T> {
    if list == [] then [] else (if list[0] == x then [] else [list[0]]) + Others(list[1..], x)
  }

  /** In a list of distinct elements, that is to forget the element. */
  lemma {:induction false} OthersIsForget<T>(list: seq<T>, x: T)
    requires Distinct(list)
    ensures Others(list, x) == Forget(list, x)
  {
    if list != [] {
      OthersIsForget(list[1..], x);
      if list[0] == x {
        assert x !in list[1..];
      }
    }
  }

  lemma {:induction false} FromIsDistinct<T>(list: seq<T>, x: T)
    requires Distinct(list) && x in list
    ensures Distinct(From(list, x))
  {
    if list[0] != x {
      FromIsDistinct(list[1..], x);
    }
  }

  lemma ForgetFirst<T>(list: seq<T>)
    requires list != []
    ensures Forget(list, list[0]) == list[1..]
  {
  }

  /** The entries that are not a peer's. */
  function OfOthers(list: seq<GroupEntry>, g: GroupPeer): (r: seq<GroupEntry>)
    ensures forall i | 0 <= i < |r| :: r[i] in list && r[i].peer != g
  {
    if list == [] then [] else
      var rest := OfOthers(list[1..], g);
      assert forall i | 0 <= i < |rest| :: rest[i] in list[1..];
      (if list[0].peer == g then [] else [list[0]]) + rest
  }

  /** The peers of the entries of others are the other peers. */
  lemma {:induction false} OwnersOfOthers(ofGroups: map<GroupPeer, DeciderPeer>, list: seq<GroupEntry>, o: DeciderPeer)
    requires forall i | 0 <= i < |list| :: list[i].peer in ofGroups
    requires forall g | g in ofGroups :: ofGroups[g].groups == g
    requires o.groups in ofGroups && ofGroups[o.groups] == o
    ensures forall i | 0 <= i < |OfOthers(list, o.groups)| :: OfOthers(list, o.groups)[i].peer in ofGroups - {o.groups}
    ensures Owners(ofGroups - {o.groups}, OfOthers(list, o.groups)) == Others(Owners(ofGroups, list), o)
    ensures Owners(ofGroups, OfOthers(list, o.groups)) == Others(Owners(ofGroups, list), o)
  {
    if list != [] {
      var rest := OfOthers(list[1..], o.groups);
      OwnersOfOthers(ofGroups, list[1..], o);
      OwnersMore(ofGroups, list[0], list[1..]);
      if list[0].peer != o.groups {
        OwnersMore(ofGroups - {o.groups}, list[0], rest);
        OwnersMore(ofGroups, list[0], rest);
      }
    }
  }

  lemma OwnersMore(ofGroups: map<GroupPeer, DeciderPeer>, e: GroupEntry, list: seq<GroupEntry>)
    requires e.peer in ofGroups && forall i | 0 <= i < |list| :: list[i].peer in ofGroups
    ensures Owners(ofGroups, [e] + list) == [ofGroups[e.peer]] + Owners(ofGroups, list)
  {
    assert ([e] + list)[1..] == list;
  }

  lemma {:induction false} OfOthersForget(list: seq<GroupEntry>, e: GroupEntry)
    ensures OfOthers(Forget(list, e), e.peer) == OfOthers(list, e.peer)
    ensures forall i | 0 <= i < |Forget(list, e)| :: Forget(list, e)[i] in list
  {
    if e in list && list[0] != e {
      OfOthersForget(list[1..], e);
      assert Forget(list, e) == [list[0]] + Forget(list[1..], e);
      assert Forget(list, e)[1..] == Forget(list[1..], e);
    }
  }

  lemma {:induction false} OfOthersInsert(list: seq<GroupEntry>, x: GroupEntry, e: GroupEntry)
    requires x in list
    ensures OfOthers(InsertAfter(list, x, e), e.peer) == OfOthers(list, e.peer)
    ensures forall i | 0 <= i < |list| + 1 :: InsertAfter(list, x, e)[i] in list || InsertAfter(list, x, e)[i] == e
  {
    var r := InsertAfter(list, x, e);
    if list[0] == x {
      assert r == [x] + ([e] + list[1..]);
      assert r[1..] == [e] + list[1..] && r[1..][1..] == list[1..];
    } else {
      OfOthersInsert(list[1..], x, e);
      assert r[1..] == InsertAfter(list[1..], x, e);
    }
  }

  /** What an iterator is before when an entry has been taken off the list, or another put behind one of it. */
  function Follow(rest: seq<GroupEntry>, gone: Option<GroupEntry>, before: Option<GroupEntry>, e: GroupEntry): seq<GroupEntry> {
    var left := if gone == None then rest else Forget(rest, gone.value);
    if before != None && before.value in left then InsertAfter(left, before.value, e) else left
  }

  lemma FollowKeepsOthers(rest: seq<GroupEntry>, gone: Option<GroupEntry>, before: Option<GroupEntry>, e: GroupEntry)
    requires gone.Some? ==> gone.value.peer == e.peer
    ensures OfOthers(Follow(rest, gone, before, e), e.peer) == OfOthers(rest, e.peer)
    ensures forall x | x in Follow(rest, gone, before, e) :: x in rest || x == e
  {
    if gone != None {
      OfOthersForget(rest, gone.value);
    }
    var left := if gone == None then rest else Forget(rest, gone.value);
    if before != None && before.value in left {
      OfOthersInsert(left, before.value, e);
    }
  }

  class Decider {
    const macs: Macs
    const groups: Groups
    var peers: seq<DeciderPeer>
    /** The peers that the parts of peers belong to. */
    var ofMacs: map<MacPeer, DeciderPeer>
    var ofGroups: map<GroupPeer, DeciderPeer>
    var decision: Decision
    /** The course of the flood that is under way. */
    ghost var course: Course<DeciderPeer>

    /** The course of a flood has led to what is pending of it. */
    ghost predicate CourseOk()
      requires DecisionOk()
      reads this`peers, this`ofGroups, this`decision, this`course
    {
      decision.Flood? ==> Led(course, peers, Pending())
    }

    ghost predicate PeersOk()
      reads this`peers, this`ofMacs, this`ofGroups, macs`peers, groups`peers
    {
      && Distinct(peers)
      && ofMacs.Keys == macs.peers && ofGroups.Keys == groups.peers
      && (forall m | m in ofMacs :: ofMacs[m] in peers && ofMacs[m].macs == m)
      && (forall g | g in ofGroups :: ofGroups[g] in peers && ofGroups[g].groups == g)
      && (forall p | p in peers :: p.macs in ofMacs && ofMacs[p.macs] == p && p.groups in ofGroups && ofGroups[p.groups] == p)
    }

    ghost predicate DecisionOk()
      reads this`peers, this`ofGroups, this`decision
    {
      Decidable(peers, ofGroups, decision)
    }

    ghost predicate Valid()
      reads this, macs, macs.peers, macs.entries, groups, groups.peers, groups.entries
    {
      macs.Valid() && groups.Valid() && PeersOk() && DecisionOk() && CourseOk()
    }

    /** The peers that the frame still has to go to. */
    ghost function Pending(): seq<DeciderPeer>
      requires DecisionOk()
      reads this`peers, this`ofGroups, this`decision
    {
      Remaining(peers, ofGroups, decision)
    }

    constructor (maxMacs: nat, maxGroups: nat, membershipInterval: nat, lastMemberQueryTime: nat)
      requires maxMacs > 0 && maxGroups > 0
      ensures Valid() && peers == [] && Pending() == []
    {
      macs := new Macs(maxMacs);
      groups := new Groups(maxGroups, membershipInterval, lastMemberQueryTime);
      peers, ofMacs, ofGroups, decision := [], map[], map[], Nowhere;
      course := Begin([]);
    }

    /**
     * Over the whole course of a flood no peer is returned twice, none that is returned is pending
     * again, and each that was there when it began has been returned, or is pending, or has been freed;
     * so when nothing is pending any more, each that is still there has been returned.
     */
    lemma FloodIsFair()
      requires Valid() && decision.Flood?
      ensures Distinct(course.returned)
      ensures forall p | p in course.returned :: p !in Pending()
      ensures forall p | p in course.start :: p in course.returned || p in Pending() || Free(p) in course.steps
      ensures forall p | p in course.start && p in peers :: p in course.returned || p in Pending()
    {
      hide Macs.Valid, Groups.Valid, PeersOk, Delivered, AddsNew, PendingAfter, KnownAfter, Distinct, Remaining, Decidable;
      var known := Elements(course.start);
      FloodReturnsNoneTwice(course.start, course.steps, known);
      forall p | p in course.returned
        ensures p !in Pending()
      {
        PendingIsNotReturned(course.start, course.steps, known, p);
      }
      forall p | p in course.start
        ensures p in course.returned || p in Pending() || Free(p) in course.steps
      {
        NoneIsSkipped(course.start, course.steps, p);
      }
    }

    lemma DistinctPeers()
      requires PeersOk()
      ensures Distinct(peers) && forall g | g in ofGroups :: ofGroups[g] in peers
    {
    }

    /** FrameDecider_NextDestination */
    method NextDestination() returns (peer: DeciderPeer?)
      requires Valid()
      modifies this`decision, this`course
      ensures Valid()
      ensures decision.Flood? ==> old(decision.Flood?) && course == old(Happens(course, Pending(), Deliver))
      ensures old(Pending()) == [] ==> peer == null && Pending() == []
      ensures old(Pending()) != [] ==> peer == old(Pending())[0] && peer in peers && Pending() == old(Pending())[1..]
    {
      hide Macs.Valid, Groups.Valid, PeersOk, From, Led, Happens;
      match decision
      case Nowhere =>
        peer := null;
      case Unicast(p) =>
        peer := p;
        decision := Nowhere;
      case Flood(current) =>
        if current == None {
          peer := null;
          decision := Nowhere;
        } else {
          peer := current.value;
          PassOn(current.value);
        }
      case Multicast(rest, _) =>
        DistinctPeers();
        if rest == [] {
          peer := null;
          decision := Nowhere;
        } else {
          peer := ofGroups[rest[0].peer];
          decision := Multicast(rest[1..], true);
        }
    }

    /** A flood goes on to the peer behind the current one, if there is one. */
    method PassOn(current: DeciderPeer)
      requires PeersOk() && DecisionOk() && CourseOk() && decision == Flood(Some(current))
      modifies this`decision, this`course
      ensures DecisionOk() && CourseOk() && decision.Flood? && course == old(Happens(course, Pending(), Deliver))
      ensures old(Pending()) != [] && old(Pending())[0] == current && Pending() == old(Pending())[1..]
    {
      hide PeersOk, From, Led, Happens, PendingAfter;
      DistinctPeers();
      FloodNext(peers, ofGroups, current);
      StepEffect(Pending(), {}, Deliver);
      var rest := From(peers, current);
      var next := Flood(if |rest| > 1 then Some(rest[1]) else None);
      HappensLed(course, peers, rest, Deliver, peers, rest[1..]);
      course := Happens(course, rest, Deliver);
      decision := next;
    }

    /** FrameDeciderPeer_Init: a flood that is not at its end goes to the new peer too. */
    method AddPeer() returns (o: DeciderPeer)
      requires Valid()
      modifies this`peers, this`ofMacs, this`ofGroups, this`course
      modifies macs`peers, macs`entries, macs`table, macs`history, groups`peers, groups`entries, groups`members
      ensures Valid() && fresh(o)
      ensures peers == old(peers) + [o] && decision == old(decision)
      ensures Pending() == if old(decision.Flood? && Pending() != []) then old(Pending()) + [o] else old(Pending())
      ensures course == if decision.Flood? then Happens(old(course), old(Pending()), Add(o)) else old(course)
      ensures macs.history == old(macs.history) + [Event.Joined(o.macs)] && groups.members == old(groups.members)[o.groups := []]
    {
      hide Macs.Valid, Groups.Valid, PeersOk, DecisionOk, CourseOk, Pending, Happens;
      OwnersArePeers();
      var m, g := NewParts();
      o := Enlist(m, g);
      PeersWith(o);
    }

    method NewParts() returns (m: MacPeer, g: GroupPeer)
      requires macs.Valid() && groups.Valid()
      modifies macs`peers, macs`entries, macs`table, macs`history, groups`peers, groups`entries, groups`members
      ensures macs.Valid() && groups.Valid() && m !in old(macs.peers) && g !in old(groups.peers)
      ensures macs.peers == old(macs.peers) + {m} && groups.peers == old(groups.peers) + {g}
      ensures macs.history == old(macs.history) + [Event.Joined(m)] && groups.members == old(groups.members)[g := []]
    {
      hide Macs.Valid, Groups.Valid;
      m := macs.AddPeer();
      g := groups.AddPeer();
    }

    method Enlist(m: MacPeer, g: GroupPeer) returns (o: DeciderPeer)
      requires DecisionOk() && CourseOk() && g !in ofGroups
      modifies this`peers, this`ofMacs, this`ofGroups, this`course
      ensures fresh(o) && o.macs == m && o.groups == g && peers == old(peers) + [o]
      ensures ofMacs == old(ofMacs)[m := o] && ofGroups == old(ofGroups)[g := o]
      ensures DecisionOk() && Pending() == if old(decision.Flood? && Pending() != []) then old(Pending()) + [o] else old(Pending())
      ensures CourseOk() && course == if decision.Flood? then Happens(old(course), old(Pending()), Add(o)) else old(course)
    {
      hide Decidable, Remaining, Led, Happens, PendingAfter;
      o := new DeciderPeer(m, g);
      RemainingWith(peers, ofGroups, decision, o);
      StepEffect(Pending(), {}, Add(o));
      ghost var pending := Pending();
      peers, ofMacs, ofGroups := peers + [o], ofMacs[m := o], ofGroups[g := o];
      if decision.Flood? {
        HappensLed(course, old(peers), pending, Add(o), peers, Pending());
        course := Happens(course, pending, Add(o));
      }
    }

    lemma OwnersArePeers()
      requires PeersOk()
      ensures ofGroups.Keys == groups.peers
    {
    }

    twostate lemma PeersWith(new o: DeciderPeer)
      requires old(PeersOk()) && o !in old(peers) && o.macs !in old(macs.peers) && o.groups !in old(groups.peers)
      requires peers == old(peers) + [o] && ofMacs == old(ofMacs)[o.macs := o] && ofGroups == old(ofGroups)[o.groups := o]
      requires macs.peers == old(macs.peers) + {o.macs} && groups.peers == old(groups.peers) + {o.groups}
      ensures PeersOk()
    {
    }

    /** FrameDeciderPeer_Free: the peer is not returned any more, and nobody else is missed. */
    method FreePeer(o: DeciderPeer)
      requires Valid() && o in peers && Followed()
      modifies this, macs`peers, macs`tree, macs`table, macs`history
      modifies groups`multicast, groups`lists, groups`peers, groups`members, groups`out
      modifies groups.entries`timer, groups.entries`isMaster
      ensures Valid() && Followed()
      ensures peers == Remove(old(peers), o)
      ensures Pending() == Others(old(Pending()), o) && decision == old(Without(o))
      ensures course == if decision.Flood? then Happens(old(course), old(Pending()), Free(o)) else old(course)
      ensures macs.history == old(macs.history) + [Left(o.macs)] && groups.members == old(groups.members) - {o.groups}
    {
      hide Macs.Valid, Groups.Valid, PeersOk, Remove, Others, Decidable, Remaining, Without, Led, Happens;
      PartsOf(o);
      Dismiss(o);
      groups.FreePeer(o.groups);
      macs.FreePeer(o.macs);
      PeersWithout(o);
    }

    /** The peer is taken off the list, and the decision passes it by. */
    method Dismiss(o: DeciderPeer)
      requires PeersOk() && DecisionOk() && CourseOk() && o in peers && Followed()
      modifies this
      ensures peers == Remove(old(peers), o) && ofMacs == old(ofMacs) - {o.macs} && ofGroups == old(ofGroups) - {o.groups}
      ensures decision == old(Without(o)) && DecisionOk() && CourseOk() && Followed()
      ensures Pending() == Others(old(Pending()), o)
      ensures course == if decision.Flood? then Happens(old(course), old(Pending()), Free(o)) else old(course)
    {
      hide PeersOk, Remove, Others, From, Decidable, Remaining, Led, Happens, OfOthers;
      StepPast(o);
      FreedFromCourse(o);
      course := if decision.Flood? then Happens(course, Pending(), Free(o)) else course;
      PassBy(o);
      peers, ofMacs, ofGroups := Remove(peers, o), ofMacs - {o.macs}, ofGroups - {o.groups};
    }

    lemma FreedFromCourse(o: DeciderPeer)
      requires PeersOk() && DecisionOk() && CourseOk() && o in peers
      ensures decision.Flood? ==> Led(Happens(course, Pending(), Free(o)), Remove(peers, o), Others(Pending(), o))
    {
      hide Led, Happens, PendingAfter, Others, Forget, Remaining, Decidable;
      RemoveKeepsRest(peers, o);
      if decision.Flood? {
        LedIsDistinct(course, peers, Pending());
        OthersIsForget(Pending(), o);
        StepEffect(Pending(), {}, Free(o));
        FewerElements(peers, o);
        RemoveKeepsRest(peers, o);
        HappensLed(course, peers, Pending(), Free(o), Remove(peers, o), Others(Pending(), o));
      }
    }

    lemma FewerElements(list: seq<DeciderPeer>, o: DeciderPeer)
      requires o in list && Distinct(list)
      ensures Elements(Remove(list, o)) <= Elements(list)
    {
      RemoveKeepsRest(list, o);
    }

    /** A decision that is before a peer goes on to the next, or is at its end. */
    method PassBy(o: DeciderPeer)
      requires o in peers && Followed()
      modifies this`decision
      ensures decision == old(Without(o)) && Followed()
    {
      hide From, OfOthers;
      match decision
      case Unicast(p) =>
        if p == o {
          decision := Nowhere;
        }
      case Flood(p) =>
        if p == Some(o) {
          var rest := From(peers, o);
          decision := Flood(if |rest| > 1 then Some(rest[1]) else None);
        }
      case Multicast(rest, _) =>
        decision := Multicast(OfOthers(rest, o.groups), true);
      case Nowhere =>
    }

    twostate lemma PeersWithout(o: DeciderPeer)
      requires old(PeersOk()) && o in old(peers)
      requires peers == Remove(old(peers), o) && ofMacs == old(ofMacs) - {o.macs} && ofGroups == old(ofGroups) - {o.groups}
      requires macs.peers == old(macs.peers) - {o.macs} && groups.peers == old(groups.peers) - {o.groups}
      ensures PeersOk()
    {
      hide Remove;
      RemoveKeepsRest(old(peers), o);
    }

    lemma PartsOf(o: DeciderPeer)
      requires PeersOk() && o in peers
      ensures o.macs in macs.peers && o.groups in groups.peers && Distinct(peers)
    {
    }

    /** The decision that is left when a peer goes. */
    ghost function Without(o: DeciderPeer): Decision
      requires o in peers && Followed()
      reads this`peers, this`decision
    {
      match decision
      case Unicast(p) => if p == o then Nowhere else decision
      case Flood(p) => if p == Some(o) then Flood(if |From(peers, o)| > 1 then Some(From(peers, o)[1]) else None) else decision
      case Multicast(rest, attached) => Multicast(OfOthers(rest, o.groups), true)
      case Nowhere => decision
    }

    /** A multicast decision follows what becomes of its list. */
    ghost predicate Followed()
      reads this`decision
    {
      decision.Multicast? ==> decision.attached
    }

    lemma StepPast(o: DeciderPeer)
      requires PeersOk() && DecisionOk() && o in peers && Followed()
      ensures var rest, groups := Remove(peers, o), ofGroups - {o.groups};
        Decidable(rest, groups, Without(o)) && Remaining(rest, groups, Without(o)) == Others(Pending(), o)
    {
      hide From, Remove, Forget, Owners, OfOthers;
      RemoveKeepsRest(peers, o);
      match decision
      case Unicast(p) =>
      case Flood(p) =>
        if p != None {
          FromIsDistinct(peers, p.value);
          OthersIsForget(From(peers, p.value), o);
        }
        if p == Some(o) {
          if |From(peers, o)| > 1 {
            FromRemoveFirst(peers, o);
          }
          ForgetFirst(From(peers, o));
        } else if p != None {
          FromRemove(peers, p.value, o);
        }
      case Multicast(rest, _) => OwnersOfOthers(ofGroups, rest, o);
      case Nowhere =>
    }

    /**
     * FrameDeciderPeer_Analyze, of a frame that comes from the given address and reports the given groups. It
     * leaves the pending decision alone, but that the peer itself may come to or leave a multicast one.
     */
    method Analyze(o: DeciderPeer, source: Mac, joins: seq<nat>, now: int)
      requires Valid() && o in peers && Followed()
      modifies this`decision, macs`tree, macs`table, macs`history, macs.peers, macs.entries
      modifies groups`multicast, groups`lists, groups`members, groups`out, o.groups, groups.entries
      ensures Valid() && Followed()
      ensures decision.Multicast? == old(decision.Multicast?) && course == old(course)
      ensures !old(decision.Multicast?) ==> decision == old(decision) && Pending() == old(Pending())
      ensures Others(Pending(), o) == Others(old(Pending()), o)
      ensures macs.history == old(macs.history) + [Sent(o.macs, source)]
      ensures o.groups in old(groups.members) && groups.max > 0
      ensures groups.members == old(groups.members)[o.groups := JoinAll(old(groups.members)[o.groups], joins, groups.max)]
    {
      hide Macs.Valid, Groups.Valid, PeersOk, Decidable, Remaining, Others;
      PartsOf(o);
      macs.AddMac(o.macs, source);
      JoinGroups(o, joins, now);
    }

    /** The groups that one report of a peer names are joined one after the other. */
    method JoinGroups(o: DeciderPeer, joins: seq<nat>, now: int)
      requires groups.Valid() && PeersOk() && DecisionOk() && o in peers && Followed()
      modifies this`decision, groups`multicast, groups`lists, groups`members, groups`out, o.groups, groups.entries
      ensures groups.Valid() && DecisionOk() && Followed() && decision.Multicast? == old(decision.Multicast?)
      ensures !old(decision.Multicast?) ==> decision == old(decision)
      ensures Others(Pending(), o) == Others(old(Pending()), o)
      ensures o.groups in old(groups.members) && groups.max > 0
      ensures groups.members == old(groups.members)[o.groups := JoinAll(old(groups.members)[o.groups], joins, groups.max)]
    {
      hide Groups.Valid, PeersOk, Decidable, Remaining, Others, JoinAll, Remember, Pending;
      PartsOf(o);
      groups.InMembers(o.groups);
      ghost var list := groups.members[o.groups];
      assert groups.members == groups.members[o.groups := list];
      JoinNone(list, joins, groups.max);
      for i := 0 to |joins|
        invariant groups.Valid() && DecisionOk() && Followed() && decision.Multicast? == old(decision.Multicast?)
        invariant !old(decision.Multicast?) ==> decision == old(decision)
        invariant Others(Pending(), o) == Others(old(Pending()), o)
        invariant groups.members == old(groups.members)[o.groups := JoinAll(old(groups.members)[o.groups], joins[..i], groups.max)]
      {
        JoinMore(list, joins, i, groups.max);
        JoinGroup(o, joins[i], now);
      }
      assert joins[..|joins|] == joins;
    }

    /** A group is joined, and an iterator over the list of its signature goes on with that. */
    method JoinGroup(o: DeciderPeer, group: nat, now: int)
      requires groups.Valid() && PeersOk() && DecisionOk() && o in peers && Followed()
      modifies this`decision, groups`multicast, groups`lists, groups`members, groups`out, o.groups, groups.entries
      ensures groups.Valid() && DecisionOk() && Followed() && decision.Multicast? == old(decision.Multicast?)
      ensures !old(decision.Multicast?) ==> decision == old(decision)
      ensures Others(Pending(), o) == Others(old(Pending()), o)
      ensures o.groups in old(groups.members) && groups.max > 0
      ensures groups.members == old(groups.members)[o.groups := Remember(old(groups.members)[o.groups], group, groups.max)]
    {
      hide Groups.Valid, PeersOk, Others, Follow, Owners, OfOthers;
      PartsOf(o);
      groups.InMembers(o.groups);
      var e, gone, before := groups.AddGroup(o.groups, group, now);
      if decision.Multicast? {
        Moved(o, decision.rest, gone, before, e);
        decision := Multicast(Follow(decision.rest, gone, before, e), true);
      }
    }

    lemma Moved(o: DeciderPeer, rest: seq<GroupEntry>, gone: Option<GroupEntry>, before: Option<GroupEntry>, e: GroupEntry)
      requires PeersOk() && o in peers && e.peer == o.groups && (gone.Some? ==> gone.value.peer == o.groups)
      requires forall i | 0 <= i < |rest| :: rest[i].peer in ofGroups
      ensures var moved := Follow(rest, gone, before, e);
        && (forall i | 0 <= i < |moved| :: moved[i].peer in ofGroups)
        && Others(Owners(ofGroups, moved), o) == Others(Owners(ofGroups, rest), o)
    {
      hide Others, Follow, Owners, OfOthers;
      var moved := Follow(rest, gone, before, e);
      FollowKeepsOthers(rest, gone, before, e);
      forall i | 0 <= i < |moved|
        ensures moved[i].peer in ofGroups
      {
        assert moved[i] in moved;
      }
      OwnersOfOthers(ofGroups, rest, o);
      OwnersOfOthers(ofGroups, moved, o);
    }

    /** group_entry_timer_handler: a membership ends, and a pending multicast decision goes past its entry. */
    method MembershipEnded(o: DeciderPeer, e: GroupEntry)
      requires Valid() && Followed() && o in peers && e in groups.entries && e.peer == o.groups && e.timer != None && e in o.groups.used
      modifies this`decision, groups`multicast, groups`lists, groups`members, groups`out, o.groups, groups.entries
      ensures Valid() && Followed()
      ensures !old(decision.Multicast?) ==> decision == old(decision) && Pending() == old(Pending())
      ensures Others(Pending(), o) == Others(old(Pending()), o)
      ensures o.groups in old(groups.members) && e.group in old(groups.members)[o.groups]
      ensures groups.members == old(groups.members)[o.groups := Remove(old(groups.members)[o.groups], e.group)]
    {
      hide Macs.Valid, Groups.Valid, PeersOk, Others, Follow, Owners, OfOthers, Remove;
      PartsOf(o);
      groups.TimerExpired(e);
      if decision.Multicast? {
        Moved(o, decision.rest, Some(e), None, e);
        decision := Multicast(Follow(decision.rest, Some(e), None, e), true);
      }
    }

    /** FrameDecider_AnalyzeAndDecide; a multicast decision that is not used up is left as it is, and the frame is not looked at. */
    method AnalyzeAndDecide(frame: Frame, now: int)
      requires Valid() && |frame.dest| == 6 && (frame.query.Some? ==> frame.igmp)
      modifies this`decision, this`course, groups.entries`timer
      ensures Valid()
      ensures decision.Flood? ==> course == Begin(peers)
      ensures old(decision).Multicast? ==> decision == old(decision).(attached := false) && Pending() == old(Pending())
      ensures forall e | e in old(groups.entries) ::
          e.timer == if !old(decision).Multicast? && frame.query.Some? && groups.IsMembership(e, frame.query.value)
                     then groups.Lowered(old(e.timer), now) else old(e.timer)
      ensures !old(decision).Multicast? ==>
        if frame.igmp || frame.dest == BROADCAST then Pending() == peers
        else if frame.dest[..3] == MULTICAST_PREFIX then
          && (forall p | p in Pending() :: p in peers && p.groups in groups.members
                && exists g :: g in groups.members[p.groups] && Sig(g) == SigOfMac(frame.dest))
          && (forall p, g | p in peers && p.groups in groups.members && g in groups.members[p.groups] && Sig(g) == SigOfMac(frame.dest) ::
                p in Pending())
        else
          && (Pending() == peers || (|Pending()| == 1 && LastSender(macs.history, frame.dest) == Some(Pending()[0].macs)))
          && (forall p | p in peers && LastSender(macs.history, frame.dest) == Some(p.macs) && |SentSince(macs.history, frame.dest)| < macs.max ::
                Pending() == [p])
    {
      hide Macs.Valid, Groups.Valid, PeersOk, Sig, SigOfMac, LastSender, SentSince;
      if decision.Multicast? {
        decision := decision.(attached := false);
        return;
      }
      if frame.query.Some? {
        groups.LowerTimers(frame.query.value, now);
      }
      Decide(frame);
    }

    method Decide(frame: Frame)
      requires Valid() && |frame.dest| == 6
      modifies this`decision, this`course
      ensures Valid() && Decided(frame) && (decision.Flood? ==> course == Begin(peers))
    {
      hide Macs.Valid, Groups.Valid, PeersOk, Decidable, Remaining, AllMembers, SenderOrAll;
      if frame.igmp || frame.dest == BROADCAST {
        DecideFlood();
      } else if frame.dest[..3] == MULTICAST_PREFIX {
        DecideMulticast(frame.dest);
      } else {
        DecideUnicast(frame.dest);
      }
    }

    /** Broadcast and IGMP go everywhere, multicast to the members, anything else to the last sender or everywhere. */
    ghost predicate Decided(frame: Frame)
      requires DecisionOk() && |frame.dest| == 6
      reads this`peers, this`ofGroups, this`decision, groups`members, macs`history
    {
      if frame.igmp || frame.dest == BROADCAST then Pending() == peers
      else if frame.dest[..3] == MULTICAST_PREFIX then AllMembers(frame.dest)
      else SenderOrAll(frame.dest)
    }

    /** A multicast frame goes to the peers that have joined a group of its signature, and nowhere else. */
    ghost predicate AllMembers(dest: Mac)
      requires DecisionOk() && |dest| == 6
      reads this`peers, this`ofGroups, this`decision, groups`members
    {
      && (forall i | 0 <= i < |Pending()| :: Pending()[i] in peers && Pending()[i].groups in groups.members
            && exists g :: g in groups.members[Pending()[i].groups] && Sig(g) == SigOfMac(dest))
      && (forall p, g | p in peers && p.groups in groups.members && g in groups.members[p.groups] && Sig(g) == SigOfMac(dest) ::
            p in Pending())
    }

    /** Another frame goes to the last to send from its address, or everywhere if it is not known who that is. */
    ghost predicate SenderOrAll(dest: Mac)
      requires DecisionOk()
      reads this`peers, this`ofGroups, this`decision, macs`history
    {
      && (Pending() == peers || (|Pending()| == 1 && LastSender(macs.history, dest) == Some(Pending()[0].macs)))
      && (forall p | p in peers && LastSender(macs.history, dest) == Some(p.macs) && |SentSince(macs.history, dest)| < macs.max ::
            Pending() == [p])
    }

    method DecideFlood()
      requires PeersOk()
      modifies this`decision, this`course
      ensures DecisionOk() && CourseOk() && Pending() == peers && course == Begin(peers)
    {
      hide Led;
      DistinctPeers();
      BeginLed(peers);
      course := Begin(peers);
      if peers == [] {
        decision := Flood(None);
      } else {
        decision := Flood(Some(peers[0]));
      }
    }

    method DecideMulticast(dest: Mac)
      requires PeersOk() && groups.Valid() && |dest| == 6
      modifies this`decision
      ensures DecisionOk() && AllMembers(dest) && !decision.Flood?
    {
      hide Groups.Valid, Sig, SigOfMac;
      var list := groups.EntriesFor(SigOfMac(dest));
      groups.MembersArePeers();
      if list == [] {
        decision := Nowhere;
      } else {
        decision := Multicast(list, true);
      }
      forall i | 0 <= i < |Pending()|
        ensures Pending()[i] in peers && Pending()[i].groups == list[i].peer
      {
      }
    }

    method DecideUnicast(dest: Mac)
      requires PeersOk() && macs.Valid()
      modifies this`decision, this`course
      ensures DecisionOk() && CourseOk() && SenderOrAll(dest) && (decision.Flood? ==> course == Begin(peers))
    {
      hide Macs.Valid, LastSender, SentSince;
      var m := macs.Lookup(dest);
      if m != null {
        decision := Unicast(ofMacs[m]);
      } else {
        DecideFlood();
      }
    }
  }
}
