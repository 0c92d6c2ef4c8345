/** The table from which a frame decider knows which peer an address belongs to. */
module MacTable {
  import opened Lists
  import opened Recency
  import opened Bytes
  import opened MacSpec

  class MacEntry {
    const peer: MacPeer
    /** The address, while the entry is used. */
    var mac: Mac

    constructor (peer: MacPeer)
      ensures this.peer == peer
    {
      this.peer, mac := peer, [];
    }
  }

  class MacPeer {
    var free: seq<MacEntry>
    var used: seq<MacEntry>

    constructor ()
      ensures free == [] && used == []
    {
      free, used := [], [];
    }
  }

  class Macs {
    const max: nat
    var tree: map<Mac, MacEntry>
    ghost var peers: set<MacPeer>
    ghost var entries: set<MacEntry>
    /** What the entries mean, and what has led to that. */
    ghost var table: Table<MacPeer>
    ghost var history: seq<Event<MacPeer>>

    /** The entries of a peer are each either free or used. */
    ghost predicate PeerOk(p: MacPeer)
      reads this`entries, p`free, p`used
    {
      && |p.free| + |p.used| == max && Distinct(p.free) && Distinct(p.used)
      && (forall i | 0 <= i < |p.free| :: p.free[i] in entries && p.free[i].peer == p && p.free[i] !in p.used)
      && (forall i | 0 <= i < |p.used| :: p.used[i] in entries && p.used[i].peer == p)
    }

    ghost predicate PeersOk()
      reads this`peers, this`entries, peers`free, peers`used
    {
      forall p | p in peers :: PeerOk(p)
    }

    ghost predicate NamesOk()
      reads this`peers, this`table, this`entries, peers`used, entries`mac
    {
      && table.Keys == peers
      && (forall p | p in peers :: |p.used| == |table[p]|)
      && (forall p, i | p in peers && 0 <= i < |p.used| :: p.used[i] in entries && p.used[i].mac == table[p][i])
    }

    /** The tree holds exactly the used entries. */
    ghost predicate TreeOk()
      reads this`peers, this`tree, this`entries, peers`used, entries`mac
    {
      && (forall p, i | p in peers && 0 <= i < |p.used| ::
            p.used[i] in entries && p.used[i].mac in tree && tree[p.used[i].mac] == p.used[i])
      && (forall mac | mac in tree ::
            tree[mac] in entries && tree[mac].mac == mac && tree[mac].peer in peers && tree[mac] in tree[mac].peer.used)
    }

    ghost predicate Sound()
      reads this`tree, this`peers, this`entries, this`table, peers`free, peers`used, entries`mac
    {
      max > 0 && PeersOk() && NamesOk() && TreeOk() && TableOk(table, max)
    }

    ghost predicate Valid()
      reads this, peers, entries
    {
      Sound() && max > 0 && Possible(history, max) && table == Run(history, max)
    }

    constructor (max: nat)
      requires max > 0
      ensures Valid() && this.max == max && history == []
    {
      this.max := max;
      tree, peers, entries, table, history := map[], {}, {}, map[], [];
    }

    /** What happens next. */
    lemma Extended(h: seq<Event<MacPeer>>, e: Event<MacPeer>)
      requires max > 0 && Possible(h, max) && CanHappen(Run(h, max), e)
      ensures Possible(h + [e], max) && Run(h + [e], max) == Step(Run(h, max), e, max)
    {
      assert (h + [e])[..|h|] == h;
    }

    /** Whoever is found was the last to send from the address, and is not missed unless it sent from too many others since. */
    method Lookup(mac: Mac) returns (peer: MacPeer?)
      requires Valid()
      ensures peer != null ==> peer in peers && LastSender(history, mac) == Some(peer)
      ensures forall p: MacPeer | LastSender(history, mac) == Some(p) && |SentSince(history, mac)| < max :: peer == p
    {
      hide PeersOk, NamesOk, TableOk;
      if mac !in tree {
        NotListed(mac);
        forall p: MacPeer | LastSender(history, mac) == Some(p)
          ensures |SentSince(history, mac)| >= max
        {
          RecentIsFound(history, max, p, mac);
        }
        return null;
      }
      peer := tree[mac].peer;
      Listed(tree[mac]);
      FoundIsLastSender(history, max, peer, mac);
    }

    lemma Listed(e: MacEntry)
      requires Sound() && e.mac in tree && tree[e.mac] == e
      ensures e in entries && e.peer in peers && e in e.peer.used && e.peer in table && e.mac in table[e.peer]
    {
      hide PeersOk, TableOk;
      var i :| 0 <= i < |e.peer.used| && e.peer.used[i] == e;
      assert table[e.peer][i] == e.mac;
    }

    lemma NotListed(mac: Mac)
      requires Sound() && mac !in tree
      ensures forall p | p in table :: mac !in table[p]
    {
      hide PeersOk, TableOk;
      forall p, i | p in table && 0 <= i < |table[p]|
        ensures table[p][i] != mac
      {
        assert p.used[i].mac in tree;
      }
    }

    /** An address goes from the peer it belonged to, whose entry becomes free. */
    method Disown(e: MacEntry)
      requires Sound() && e.mac in tree && tree[e.mac] == e
      modifies this`tree, this`table, e.peer`free, e.peer`used
      ensures Sound() && tree == old(tree) - {e.mac} && e.peer.free == old(e.peer.free) + [e]
      ensures e.peer in old(table) && e.mac in old(table)[e.peer]
      ensures table == old(table)[e.peer := Remove(old(table)[e.peer], e.mac)]
    {
      hide PeersOk, NamesOk, TreeOk, TableOk, Remove;
      Listed(e);
      var q := e.peer;
      tree := tree - {e.mac};
      q.used := Remove(q.used, e);
      q.free := q.free + [e];
      table := table[q := Remove(table[q], e.mac)];
      PeersWithout(e);
      NamesWithout(e);
      TreeWithout(e);
      TableWithout(old(table), q, e.mac);
    }

    twostate predicate Disowned(e: MacEntry)
      reads this`peers, this`entries, this`table, peers`used, entries`mac
    {
      var q := e.peer;
      && peers == old(peers) && entries == old(entries) && q in peers && e in entries && e in old(q.used)
      && q.used == Remove(old(q.used), e)
      && unchanged((peers - {q})`used) && unchanged(entries`mac)
      && q in old(table) && e.mac in old(table[q]) && table == old(table)[q := Remove(old(table)[q], e.mac)]
    }

    /** The other entries of a peer keep their addresses, and their order. */
    twostate lemma OthersNamed(e: MacEntry)
      requires old(NamesOk()) && old(TableOk(table, max)) && e.peer in old(peers) && e in old(e.peer.used)
      requires entries == old(entries) && unchanged(old(entries)`mac)
      ensures e.peer in old(table) && e.mac in old(table)[e.peer]
      ensures var r, s := Remove(old(e.peer.used), e), Remove(old(table)[e.peer], e.mac);
        |r| == |s| && forall i | 0 <= i < |r| :: r[i] in entries && r[i].mac == s[i]
    {
      hide Remove;
      RemoveNamed(old(e.peer.used), old(table)[e.peer], map x | x in old(e.peer.used) :: x.mac, e);
    }

    twostate lemma PeersWithout(e: MacEntry)
      requires old(PeersOk()) && Disowned(e)
      requires e.peer.free == old(e.peer.free) + [e] && unchanged((peers - {e.peer})`free)
      ensures PeersOk()
    {
      hide Remove;
      RemoveKeepsRest(old(e.peer.used), e);
      assert forall p | p in peers && p != e.peer :: old(PeerOk(p));
    }

    twostate lemma NamesWithout(e: MacEntry)
      requires old(NamesOk()) && old(PeersOk()) && old(TableOk(table, max)) && Disowned(e)
      ensures NamesOk()
    {
      hide Remove;
      OthersNamed(e);
    }

    twostate lemma TreeWithout(e: MacEntry)
      requires old(TreeOk()) && old(NamesOk()) && old(PeersOk()) && old(TableOk(table, max)) && Disowned(e)
      requires tree == old(tree) - {e.mac} && e.mac in old(tree) && old(tree)[e.mac] == e
      ensures TreeOk()
    {
      hide Remove;
      RemoveKeepsRest(old(e.peer.used), e);
    }

    lemma TableWithout(t: Table<MacPeer>, q: MacPeer, mac: Mac)
      requires TableOk(t, max) && q in t && mac in t[q]
      ensures TableOk(t[q := Remove(t[q], mac)], max)
    {
      hide Remove;
      RemoveKeepsRest(t[q], mac);
    }

    /** A peer's own address becomes the one it was last seen with. */
    method Touch(e: MacEntry)
      requires Sound() && e.mac in tree && tree[e.mac] == e
      modifies this`table, e.peer`used
      ensures Sound()
      ensures e.peer in old(table) && e.mac in old(table)[e.peer]
      ensures table == old(table)[e.peer := Remove(old(table)[e.peer], e.mac) + [e.mac]]
    {
      hide PeersOk, NamesOk, TreeOk, TableOk, Remove;
      Listed(e);
      var o := e.peer;
      o.used := Remove(o.used, e) + [e];
      table := table[o := Remove(table[o], e.mac) + [e.mac]];
      PeersTouched(e);
      NamesTouched(e);
      TreeTouched(e);
      TableTouched(old(table), o, e.mac);
    }

    twostate predicate Touched(e: MacEntry)
      reads this`peers, this`entries, this`table, peers`used, entries`mac
    {
      var o := e.peer;
      && peers == old(peers) && entries == old(entries) && o in peers && e in entries && e in old(o.used)
      && o.used == Remove(old(o.used), e) + [e]
      && unchanged((peers - {o})`used) && unchanged(entries`mac)
      && o in old(table) && e.mac in old(table[o]) && table == old(table)[o := Remove(old(table)[o], e.mac) + [e.mac]]
    }

    twostate lemma PeersTouched(e: MacEntry)
      requires old(PeersOk()) && Touched(e) && unchanged(peers`free)
      ensures PeersOk()
    {
      hide Remove;
      RemoveKeepsRest(old(e.peer.used), e);
      assert forall p | p in peers :: old(PeerOk(p));
    }

    twostate lemma NamesTouched(e: MacEntry)
      requires old(NamesOk()) && old(PeersOk()) && old(TableOk(table, max)) && Touched(e)
      ensures NamesOk()
    {
      hide Remove;
      OthersNamed(e);
    }

    twostate lemma TreeTouched(e: MacEntry)
      requires old(TreeOk()) && old(PeersOk()) && Touched(e) && tree == old(tree)
      ensures TreeOk()
    {
      hide Remove;
      RemoveKeepsRest(old(e.peer.used), e);
    }

    lemma TableTouched(t: Table<MacPeer>, o: MacPeer, mac: Mac)
      requires TableOk(t, max) && o in t && mac in t[o]
      ensures TableOk(t[o := Remove(t[o], mac) + [mac]], max)
    {
      hide Remove;
      RemoveKeepsRest(t[o], mac);
    }

    /** A peer that has a free entry gets an address that nobody has. */
    method Enter(o: MacPeer, mac: Mac)
      requires Sound() && o in peers && o.free != [] && mac !in tree
      modifies this`tree, this`table, o`free, o`used, entries`mac
      ensures Sound()
      ensures o in old(table) && table == old(table)[o := old(table)[o] + [mac]]
    {
      hide PeersOk, NamesOk, TreeOk, TableOk, NotUsed;
      FreeEntry(o);
      NotListed(mac);
      var e := o.free[0];
      o.free := o.free[1..];
      e.mac := mac;
      o.used := o.used + [e];
      tree := tree[mac := e];
      table := table[o := table[o] + [mac]];
      PeersEntered(e);
      NamesEntered(e);
      TreeEntered(e);
      TableEntered(old(table), o, mac);
    }

    ghost predicate NotUsed(e: MacEntry)
      reads this`peers, peers`used
    {
      forall p | p in peers :: e !in p.used
    }

    lemma FreeEntry(o: MacPeer)
      requires Sound() && o in peers && o.free != []
      ensures o in table && |table[o]| < max
      ensures var e := o.free[0]; e in entries && e.peer == o && NotUsed(e)
    {
      hide TreeOk, TableOk;
      assert forall p | p in peers :: PeerOk(p);
    }

    twostate predicate Entered(e: MacEntry)
      reads this`peers, this`entries, this`table, peers`used, entries`mac
    {
      var o := e.peer;
      && peers == old(peers) && entries == old(entries) && o in peers && e in entries
      && old(NotUsed(e)) && o.used == old(o.used) + [e]
      && unchanged((peers - {o})`used, (entries - {e})`mac)
      && o in old(table) && table == old(table)[o := old(table)[o] + [e.mac]]
    }

    twostate lemma PeersEntered(e: MacEntry)
      requires old(PeersOk()) && Entered(e)
      requires old(e.peer.free) != [] && e == old(e.peer.free)[0] && e.peer.free == old(e.peer.free)[1..]
      requires unchanged((peers - {e.peer})`free)
      ensures PeersOk()
    {
      assert forall p | p in peers :: old(PeerOk(p));
    }

    twostate lemma NamesEntered(e: MacEntry)
      requires old(NamesOk()) && Entered(e)
      ensures NamesOk()
    {
    }

    twostate lemma TreeEntered(e: MacEntry)
      requires old(TreeOk()) && Entered(e) && e.mac !in old(tree) && tree == old(tree)[e.mac := e]
      ensures TreeOk()
    {
    }

    lemma TableEntered(t: Table<MacPeer>, o: MacPeer, mac: Mac)
      requires TableOk(t, max) && o in t && |t[o]| < max && forall p | p in t :: mac !in t[p]
      ensures TableOk(t[o := t[o] + [mac]], max)
    {
    }

    method StoreMac(o: MacPeer, mac: Mac)
      requires Sound() && o in peers
      modifies this`tree, this`table, peers`free, peers`used, entries`mac
      ensures Sound()
      ensures o in old(table) && table == Learn(old(table), o, mac, max)
    {
      hide PeersOk, NamesOk, TreeOk, TableOk, Remove, Learn, Forget;
      InTable(o);
      if mac in tree {
        var e := tree[mac];
        InTree(mac);
        Listed(e);
        if e.peer == o {
          LearnOwn(table, o, mac);
          Touch(e);
          return;
        }
        ForgetOne(table, e.peer, mac);
        Disown(e);
      } else {
        NotListed(mac);
        ForgetNone(table, mac);
      }
      LearnNew(old(table), o, mac, table);
      Admit(o, mac);
    }

    /** An address that nobody has becomes a peer's; a peer that has no room for it loses its oldest one. */
    method Admit(o: MacPeer, mac: Mac)
      requires Sound() && o in peers && mac !in tree
      modifies this`tree, this`table, o`free, o`used, entries`mac
      ensures Sound()
      ensures o in old(table)
      ensures table == old(table)[o := if |old(table)[o]| >= max then old(table)[o][1..] + [mac] else old(table)[o] + [mac]]
    {
      hide PeersOk, NamesOk, TreeOk, TableOk, Remove;
      InTable(o);
      if o.free == [] {
        OldestEntry(o);
        Disown(o.used[0]);
      }
      Enter(o, mac);
    }

    lemma LearnOwn(t: Table<MacPeer>, o: MacPeer, mac: Mac)
      requires TableOk(t, max) && max > 0 && o in t && mac in t[o]
      ensures Learn(t, o, mac, max) == t[o := Remove(t[o], mac) + [mac]]
    {
      hide Remove;
    }

    /** An address is taken from the one peer that has it. */
    lemma ForgetOne(t: Table<MacPeer>, q: MacPeer, mac: Mac)
      requires TableOk(t, max) && q in t && mac in t[q]
      ensures forall p | p in t :: t[q := Remove(t[q], mac)][p] == Forget(t[p], mac)
    {
      hide Remove;
    }

    lemma ForgetNone(t: Table<MacPeer>, mac: Mac)
      requires forall p | p in t :: mac !in t[p]
      ensures forall p | p in t :: t[p] == Forget(t[p], mac)
    {
    }

    /** Once nobody has the address, the peer has to make room, or has room, for it. */
    lemma LearnNew(t: Table<MacPeer>, o: MacPeer, mac: Mac, without: Table<MacPeer>)
      requires max > 0 && o in t && t.Keys == without.Keys && forall p | p in t :: without[p] == Forget(t[p], mac)
      ensures Learn(t, o, mac, max) ==
          without[o := if |without[o]| >= max then without[o][1..] + [mac] else without[o] + [mac]]
    {
      hide Forget;
    }

    lemma InTable(o: MacPeer)
      requires Sound() && o in peers
      ensures o in table && |table[o]| + |o.free| == max
    {
      hide TreeOk, TableOk;
      assert PeerOk(o);
    }

    lemma InTree(mac: Mac)
      requires Sound() && mac in tree
      ensures tree[mac].mac == mac && tree[mac].peer in peers && tree[mac] in entries
    {
      hide PeersOk, NamesOk, TableOk;
    }

    lemma OldestEntry(o: MacPeer)
      requires Sound() && o in peers && o.free == []
      ensures o in table && o.used != [] && table[o] != [] && |table[o]| == max
      ensures var e := o.used[0]; e.peer == o && e.mac == table[o][0] && e.mac in tree && tree[e.mac] == e
      ensures Remove(table[o], table[o][0]) == table[o][1..]
    {
      hide TableOk;
      assert PeerOk(o);
    }

    method EnlistPeer() returns (o: MacPeer)
      requires Sound()
      modifies this`peers, this`entries, this`table
      ensures Sound() && fresh(o) && o.used == []
      ensures o !in old(table) && table == old(table)[o := []] && peers == old(peers) + {o}
      ensures fresh(entries - old(entries))
    {
      hide PeersOk, NamesOk, TreeOk, TableOk;
      o := NewPeer();
      ghost var mine := Elements(o.free);
      NotPeer(o);
      peers, entries, table := peers + {o}, entries + mine, table[o := []];
      PeersWith(o);
      NamesWith(o);
      TreeWith(o);
      TableWith(old(table), o);
    }

    lemma NotPeer(o: MacPeer)
      requires Sound() && o !in peers
      ensures o !in table
    {
    }

    method NewPeer() returns (o: MacPeer)
      ensures fresh(o) && o.used == [] && |o.free| == max && Distinct(o.free)
      ensures forall i | 0 <= i < |o.free| :: fresh(o.free[i]) && o.free[i].peer == o
    {
      o := new MacPeer();
      for i := 0 to max
        invariant fresh(o) && o.used == [] && |o.free| == i && Distinct(o.free)
        invariant forall j | 0 <= j < i :: fresh(o.free[j]) && o.free[j].peer == o
      {
        var e := new MacEntry(o);
        o.free := o.free + [e];
      }
    }

    twostate predicate PeerJoined(new o: MacPeer)
      reads this`peers, this`entries, this`table, o`used, o`free
    {
      var mine := Elements(o.free);
      && o !in old(peers) && peers == old(peers) + {o} && entries == old(entries) + mine
      && o.used == [] && |o.free| == max && Distinct(o.free) && (forall i | 0 <= i < |o.free| :: o.free[i].peer == o)
      && o !in old(table) && table == old(table)[o := []]
    }

    twostate lemma PeersWith(new o: MacPeer)
      requires old(PeersOk()) && PeerJoined(o) && unchanged(old(peers))
      ensures PeersOk()
    {
      assert forall p | p in old(peers) :: old(PeerOk(p));
      assert PeerOk(o);
    }

    twostate lemma NamesWith(new o: MacPeer)
      requires old(NamesOk()) && PeerJoined(o) && unchanged(old(peers), old(entries))
      ensures NamesOk()
    {
    }

    twostate lemma TreeWith(new o: MacPeer)
      requires old(TreeOk()) && PeerJoined(o) && unchanged(old(peers), old(entries)) && tree == old(tree)
      ensures TreeOk()
    {
    }

    lemma TableWith(t: Table<MacPeer>, o: MacPeer)
      requires TableOk(t, max) && o !in t
      ensures TableOk(t[o := []], max)
    {
    }

    method DelistPeer(o: MacPeer)
      requires Sound() && o in peers
      modifies this`peers, this`tree, this`table
      ensures Sound()
      ensures table == old(table) - {o} && peers == old(peers) - {o}
    {
      hide PeersOk, NamesOk, TableOk;
      ClearTree(o);
      peers, table := peers - {o}, table - {o};
      PeersMinus(o);
      NamesMinus(o);
      TableMinus(old(table), o);
    }

    /** A tree from which the first used entries of a peer have been taken. */
    ghost predicate PlacedBut(o: MacPeer, n: nat, tree: map<Mac, MacEntry>)
      requires n <= |o.used|
      reads this`peers, this`entries, peers`used, o`used, entries`mac
    {
      && (forall p, i | p in peers && (if p == o then n else 0) <= i < |p.used| ::
            p.used[i] in entries && p.used[i].mac in tree && tree[p.used[i].mac] == p.used[i])
      && (forall mac | mac in tree ::
            tree[mac] in entries && tree[mac].mac == mac && tree[mac].peer in peers && tree[mac] in tree[mac].peer.used)
      && (forall i | 0 <= i < n :: o.used[i] in entries && o.used[i].mac !in tree)
    }

    method ClearTree(o: MacPeer)
      requires Sound() && o in peers
      modifies this`tree
      ensures forall p, i | p in peers && p != o && 0 <= i < |p.used| ::
            p.used[i] in entries && p.used[i].mac in tree && tree[p.used[i].mac] == p.used[i]
      ensures forall mac | mac in tree ::
            tree[mac] in entries && tree[mac].mac == mac && tree[mac].peer in peers - {o} && tree[mac] in tree[mac].peer.used
    {
      hide PeersOk, NamesOk, TreeOk, TableOk, PlacedBut;
      PlacedAll(o);
      for i := 0 to |o.used|
        invariant PlacedBut(o, i, tree)
      {
        PlacedNext(o, i, tree);
        tree := tree - {o.used[i].mac};
      }
      PlacedRest(o, tree);
    }

    lemma PlacedAll(o: MacPeer)
      requires TreeOk() && o in peers
      ensures PlacedBut(o, 0, tree)
    {
    }

    lemma PlacedNext(o: MacPeer, n: nat, tree: map<Mac, MacEntry>)
      requires PeersOk() && o in peers && n < |o.used| && PlacedBut(o, n, tree)
      ensures PlacedBut(o, n + 1, tree - {o.used[n].mac})
    {
      forall p, i | p in peers && (if p == o then n + 1 else 0) <= i < |p.used|
        ensures p.used[i].mac != o.used[n].mac
      {
        assert PeerOk(p) && PeerOk(o);
      }
    }

    lemma PlacedRest(o: MacPeer, tree: map<Mac, MacEntry>)
      requires o in peers && PlacedBut(o, |o.used|, tree)
      ensures forall p, i | p in peers && p != o && 0 <= i < |p.used| ::
            p.used[i] in entries && p.used[i].mac in tree && tree[p.used[i].mac] == p.used[i]
      ensures forall mac | mac in tree ::
            tree[mac] in entries && tree[mac].mac == mac && tree[mac].peer in peers - {o} && tree[mac] in tree[mac].peer.used
    {
    }

    twostate lemma PeersMinus(o: MacPeer)
      requires old(PeersOk()) && peers == old(peers) - {o} && entries == old(entries) && unchanged(old(peers))
      ensures PeersOk()
    {
      assert forall p | p in peers :: old(PeerOk(p));
    }

    twostate lemma NamesMinus(o: MacPeer)
      requires old(NamesOk()) && peers == old(peers) - {o} && table == old(table) - {o} && entries == old(entries)
      requires unchanged(old(peers), old(entries))
      ensures NamesOk()
    {
    }

    lemma TableMinus(t: Table<MacPeer>, o: MacPeer)
      requires TableOk(t, max)
      ensures TableOk(t - {o}, max)
    {
    }

    /** add_mac_to_peer */
    method AddMac(o: MacPeer, mac: Mac)
      requires Valid() && o in peers
      modifies this`tree, this`table, this`history, peers`free, peers`used, entries`mac
      ensures Valid() && history == old(history) + [Sent(o, mac)]
    {
      hide Sound, Run, Possible;
      InTable(o);
      Extended(history, Sent(o, mac));
      StoreMac(o, mac);
      history := history + [Sent(o, mac)];
    }

    /** The entries of a new peer are all free. */
    method AddPeer() returns (o: MacPeer)
      requires Valid()
      modifies this`peers, this`entries, this`table, this`history
      ensures Valid() && fresh(o) && peers == old(peers) + {o} && history == old(history) + [Event.Joined(o)]
      ensures fresh(entries - old(entries))
    {
      hide Sound, Run, Possible;
      o := EnlistPeer();
      Extended(history, Event.Joined(o));
      history := history + [Event.Joined(o)];
    }

    /** The addresses of a peer that goes are nobody's. */
    method FreePeer(o: MacPeer)
      requires Valid() && o in peers
      modifies this`peers, this`tree, this`table, this`history
      ensures Valid() && peers == old(peers) - {o} && history == old(history) + [Left(o)]
    {
      hide Sound, Run, Possible;
      InTable(o);
      Extended(history, Left(o));
      DelistPeer(o);
      history := history + [Left(o)];
    }
  }
}
