/**
 * What a learning switch should know: who was last to send from each address, as
 * far as each peer's bounded memory of addresses reaches.
 */
module MacSpec {
  import opened Bytes
  import opened Lists
  import opened Recency

  type Mac = seq<Byte>

  /** The addresses of each peer, in the order they were last sent from. */
  type Table<!P(==)> = map<P, seq<Mac>>

  datatype Event<P> = Joined(peer: P) | Sent(peer: P, mac: Mac) | Left(peer: P)

  /** The sender's address becomes its own, and nobody else's. */
  function Learn<P(==)>(t: Table<P>, peer: P, mac: Mac, max: nat): Table<P>
    requires max > 0 && peer in t
  {
    map p | p in t :: if p == peer then Remember(t[p], mac, max) else Forget(t[p], mac)
  }

  ghost predicate CanHappen<P>(t: Table<P>, e: Event<P>) {
    match e
    case Joined(p) => p !in t
    case Sent(p, _) => p in t
    case Left(p) => p in t
  }

  ghost function Step<P>(t: Table<P>, e: Event<P>, max: nat): Table<P>
    requires max > 0 && CanHappen(t, e)
  {
    match e
    case Joined(p) => t[p := []]
    case Sent(p, mac) => Learn(t, p, mac, max)
    case Left(p) => t - {p}
  }

  ghost predicate Possible<P>(h: seq<Event<P>>, max: nat)
    requires max > 0
    decreases |h|, 0
  {
    h == [] || (Possible(h[..|h| - 1], max) && CanHappen(Run(h[..|h| - 1], max), h[|h| - 1]))
  }

  /** The table that a history leads to. */
  ghost function Run<P>(h: seq<Event<P>>, max: nat): Table<P>
    requires max > 0 && Possible(h, max)
    decreases |h|, 1
  {
    if h == [] then map[] else Step(Run(h[..|h| - 1], max), h[|h| - 1], max)
  }

  /** No address twice, neither with one peer nor with two. */
  ghost predicate TableOk<P>(t: Table<P>, max: nat) {
    && (forall p | p in t :: |t[p]| <= max && Distinct(t[p]))
    && (forall p, q, mac | p in t && q in t && mac in t[p] && mac in t[q] :: p == q)
  }

  /** The last to send from an address, if it has not left since. */
  ghost function LastSender<P>(h: seq<Event<P>>, mac: Mac): Option<P> {
    if h == [] then None else
      var before := LastSender(h[..|h| - 1], mac);
      match h[|h| - 1]
      case Joined(_) => before
      case Sent(p, m) => if m == mac then Some(p) else before
      case Left(p) => if before == Some(p) then None else before
  }

  /** The other addresses its last sender has sent from since. */
  ghost function SentSince<P>(h: seq<Event<P>>, mac: Mac): set<Mac> {
    if h == [] then {} else
      var before := SentSince(h[..|h| - 1], mac);
      match h[|h| - 1]
      case Joined(_) => before
      case Sent(p, m) => if m == mac then {} else if LastSender(h[..|h| - 1], mac) == Some(p) then before + {m} else before
      case Left(_) => before
  }

  lemma LearnKeepsOk<P>(t: Table<P>, peer: P, mac: Mac, max: nat)
    requires max > 0 && peer in t && TableOk(t, max)
    ensures TableOk(Learn(t, peer, mac, max), max)
  {
    RememberKeepsRest(t[peer], mac, max);
    forall p | p in t
      ensures Distinct(Forget(t[p], mac)) && forall m :: m in Forget(t[p], mac) <==> m in t[p] && m != mac
    {
      ForgetKeepsRest(t[p], mac);
    }
  }

  lemma {:induction false} RunOk<P>(h: seq<Event<P>>, max: nat)
    requires max > 0 && Possible(h, max)
    ensures TableOk(Run(h, max), max)
  {
    if h != [] {
      var before, e := h[..|h| - 1], h[|h| - 1];
      RunOk(before, max);
      if e.Sent? {
        LearnKeepsOk(Run(before, max), e.peer, e.mac, max);
      }
    }
  }

  /** Whoever is found for an address was the last to send from it. */
  lemma {:induction false} FoundIsLastSender<P>(h: seq<Event<P>>, max: nat, peer: P, mac: Mac)
    requires max > 0 && Possible(h, max) && peer in Run(h, max) && mac in Run(h, max)[peer]
    ensures LastSender(h, mac) == Some(peer)
  {
    var before, e := h[..|h| - 1], h[|h| - 1];
    var t := Run(before, max);
    RunOk(before, max);
    if e.Sent? && e.mac == mac {
      if e.peer != peer {
        ForgetKeepsRest(t[peer], mac);
        assert false;
      }
    } else {
      if e.Sent? {
        if e.peer == peer {
          RememberKeepsRest(t[peer], e.mac, max);
        } else {
          ForgetKeepsRest(t[peer], e.mac);
        }
      } else if e.Joined? {
        assert peer != e.peer;
      }
      FoundIsLastSender(before, max, peer, mac);
    }
  }

  /** The last sender from an address is found for it, unless it has sent from as many others as it has room for. */
  lemma {:induction false} RecentIsFound<P>(h: seq<Event<P>>, max: nat, peer: P, mac: Mac)
    requires max > 0 && Possible(h, max) && LastSender(h, mac) == Some(peer)
    ensures peer in Run(h, max)
    ensures |SentSince(h, mac)| < max ==> mac in Run(h, max)[peer] && After(Run(h, max)[peer], mac) <= SentSince(h, mac)
  {
    var before, e := h[..|h| - 1], h[|h| - 1];
    var t := Run(before, max);
    RunOk(before, max);
    if e.Sent? && e.mac == mac {
      JustSeen(t[peer], mac, max);
    } else {
      RecentIsFound(before, max, peer, mac);
      var since := SentSince(before, mac);
      if e.Sent? {
        if e.peer == peer {
          assert since <= SentSince(h, mac) && (|since| < max || |since + {e.mac}| >= max) by { Larger(since, e.mac); }
          if |since| < max {
            AfterRemember(t[peer], mac, e.mac, max);
            if mac !in Run(h, max)[peer] {
              Smaller(After(t[peer], mac) + {e.mac}, since + {e.mac});
            }
          }
        } else {
          ForgetKeepsRest(t[peer], e.mac);
          AfterForget(t[peer], mac, e.mac);
        }
      }
    }
  }

  lemma JustSeen(list: seq<Mac>, mac: Mac, max: nat)
    requires max > 0 && |list| <= max && Distinct(list)
    ensures mac in Remember(list, mac, max) && After(Remember(list, mac, max), mac) == {}
  {
    RememberKeepsRest(list, mac, max);
    var r := Remember(list, mac, max);
    LastHasNoneAfter(r);
  }

  lemma {:induction false} LastHasNoneAfter(list: seq<Mac>)
    requires list != [] && Distinct(list)
    ensures After(list, list[|list| - 1]) == {}
  {
    if |list| > 1 {
      LastHasNoneAfter(list[1..]);
    }
  }

  lemma Larger<T>(s: set<T>, x: T)
    ensures |s + {x}| >= |s|
  {
    if x !in s {
      assert |s + {x}| == |s| + 1;
    } else {
      assert s + {x} == s;
    }
  }

  lemma {:induction false} Smaller<T>(s: set<T>, t: set<T>)
    requires s <= t
    ensures |s| <= |t|
  {
    assert |t| == |s| + |t - s| by { assert t == s + (t - s); }
  }
}
