/** The multicast groups that peers have joined, and the index from which multicast frames are forwarded. */
module GroupTable {
  import opened Bytes
  import opened Lists
  import opened Recency

  /** The part of a group address that an Ethernet multicast address carries. */
  const SIGNATURES := 0x80_0000

  function Sig(group: nat): (sig: nat) {
    group % SIGNATURES
  }

  class GroupEntry {
    const peer: GroupPeer
    /** The group, while the entry is used. */
    var group: nat
    /** When the membership ends, while the timer runs. */
    var timer: Option<int>
    var isMaster: bool

    constructor (peer: GroupPeer)
      ensures this.peer == peer && timer == None
    {
      this.peer, group, timer, isMaster := peer, 0, None, false;
    }
  }

  class GroupPeer {
    var free: seq<GroupEntry>
    var used: seq<GroupEntry>
    var tree: map<nat, GroupEntry>

    constructor ()
      ensures free == [] && used == [] && tree == map[]
    {
      free, used, tree := [], [], map[];
    }
  }

  /** A list with an element put after another. */
  function InsertAfter<T(==)>(list: seq<T>, x: T, y: T): (r: seq<T>)
    requires x in list
    ensures |r| == |list| + 1
  {
    if list[0] == x then [x, y] + list[1..] else [list[0]] + InsertAfter(list[1..], x, y)
  }

  lemma {:induction false} InsertKeepsRest<T>(list: seq<T>, x: T, y: T)
    requires Distinct(list) && x in list && y !in list
    ensures Distinct(InsertAfter(list, x, y))
    ensures forall z :: z in InsertAfter(list, x, y) <==> z in list || z == y
    ensures forall i | 0 <= i < |list| + 1 :: InsertAfter(list, x, y)[i] in list || InsertAfter(list, x, y)[i] == y
  {
    assert list == [list[0]] + list[1..];
    if list[0] != x {
      InsertKeepsRest(list[1..], x, y);
      assert list[0] !in list[1..];
    }
  }

  /** An element stands right behind another. */
  ghost predicate Follows<T>(list: seq<T>, x: T, y: T) {
    exists i :: 0 <= i < |list| - 1 && list[i] == x && list[i + 1] == y
  }

  lemma {:induction false} InsertedFollows<T>(list: seq<T>, x: T, y: T)
    requires x in list
    ensures Follows(InsertAfter(list, x, y), x, y)
  {
    var r := InsertAfter(list, x, y);
    if list[0] == x {
      assert r[0] == x && r[1] == y;
    } else {
      InsertedFollows(list[1..], x, y);
      var i :| 0 <= i < |r[1..]| - 1 && r[1..][i] == x && r[1..][i + 1] == y;
      assert r[i + 1] == x && r[i + 2] == y;
    }
  }

  /** The neighbour of an element in a list that has others: the next, or the previous of the last. */
  function NextOrPrev<T(==)>(list: seq<T>, x: T): (r: T)
    requires x in list && |list| > 1
    ensures r in list && (Distinct(list) ==> r != x)
  {
    if list[0] == x then list[1] else if |list| == 2 then list[0] else NextOrPrev(list[1..], x)
  }

  /** The groups of a peer after it has joined some more, one by one. */
  ghost function JoinAll(list: seq<nat>, joins: seq<nat>, max: nat): seq<nat>
    requires max > 0
  {
    if joins == [] then list else Remember(JoinAll(list, joins[..|joins| - 1], max), joins[|joins| - 1], max)
  }

  /** The groups that are joined from a place of a list on. */
  ghost function JoinedFrom(joins: seq<nat>, i: nat): set<nat> {
    set k | i <= k < |joins| :: joins[k]
  }

  /** A group that was joined is remembered if fewer others than there is room for were joined since. */
  ghost predicate RecalledAt(r: seq<nat>, joins: seq<nat>, max: nat, i: nat)
    requires i < |joins|
  {
    var since := JoinedFrom(joins, i + 1) - {joins[i]};
    (|since| < max ==> joins[i] in r) && (joins[i] in r ==> After(r, joins[i]) <= since)
  }

  ghost predicate Recalled(r: seq<nat>, joins: seq<nat>, max: nat) {
    forall i | 0 <= i < |joins| :: RecalledAt(r, joins, max, i)
  }

  /** A peer is a member of the groups it has joined and of those it was, and of no others, of at most as many as there is room for, and of those it has joined last. */
  lemma {:induction false} JoinedAreRemembered(list: seq<nat>, joins: seq<nat>, max: nat)
    requires max > 0 && Distinct(list) && |list| <= max
    ensures var r := JoinAll(list, joins, max);
      && Distinct(r) && |r| <= max
      && (forall g | g in r :: g in list || g in joins)
      && Recalled(r, joins, max)
  {
    hide Remember, After, RecalledAt;
    if joins != [] {
      var n := |joins| - 1;
      var before := JoinAll(list, joins[..n], max);
      JoinedAreRemembered(list, joins[..n], max);
      RememberKeepsRest(before, joins[n], max);
      forall i: nat | i < |joins|
        ensures RecalledAt(JoinAll(list, joins, max), joins, max, i)
      {
        RecallOneMore(before, joins, max, i);
      }
    }
  }

  lemma RecallOneMore(before: seq<nat>, joins: seq<nat>, max: nat, i: nat)
    requires i < |joins| && max > 0 && Distinct(before) && |before| <= max && Recalled(before, joins[..|joins| - 1], max)
    ensures RecalledAt(Remember(before, joins[|joins| - 1], max), joins, max, i)
  {
    hide Remember, After;
    var n, x := |joins| - 1, joins[i];
    RememberKeepsRest(before, joins[n], max);
    if x == joins[n] {
      LastHasNoneAfter(Remember(before, x, max));
    } else {
      assert RecalledAt(before, joins[..n], max, i);
      JoinedMore(joins, i + 1);
      StillRemembered(before, x, joins[n], max, JoinedFrom(joins[..n], i + 1) - {x}, JoinedFrom(joins, i + 1) - {x});
    }
  }

  lemma JoinedMore(joins: seq<nat>, i: nat)
    requires i < |joins|
    ensures JoinedFrom(joins, i) == JoinedFrom(joins[..|joins| - 1], i) + {joins[|joins| - 1]}
  {
    var init, all := joins[..|joins| - 1], JoinedFrom(joins, i);
    forall g
      ensures g in all <==> g in JoinedFrom(init, i) || g == joins[|joins| - 1]
    {
      if g in JoinedFrom(init, i) {
        var k :| i <= k < |init| && init[k] == g;
        assert joins[k] == g;
      }
      if g in all && g != joins[|joins| - 1] {
        var k :| i <= k < |joins| && joins[k] == g;
        assert init[k] == g;
      }
    }
  }

  lemma StillRemembered(before: seq<nat>, x: nat, g: nat, max: nat, since: set<nat>, now: set<nat>)
    requires max > 0 && Distinct(before) && |before| <= max && x != g && now == since + {g}
    requires |since| < max ==> x in before
    requires x in before ==> After(before, x) <= since
    ensures var r := Remember(before, g, max);
      (|now| < max ==> x in r) && (x in r ==> After(r, x) <= now)
  {
    hide Remember, After;
    RememberKeepsRest(before, g, max);
    SubsetSize(since, now);
    if x in before {
      AfterRemember(before, x, g, max);
      SubsetSize(After(before, x) + {g}, now);
    }
  }

  lemma {:induction false} LastHasNoneAfter(list: seq<nat>)
    requires list != [] && Distinct(list)
    ensures After(list, list[|list| - 1]) == {}
  {
    if |list| > 1 {
      LastHasNoneAfter(list[1..]);
    }
  }

  lemma JoinNone(list: seq<nat>, joins: seq<nat>, max: nat)
    requires max > 0
    ensures JoinAll(list, joins[..0], max) == list
  {
  }

  lemma JoinMore(list: seq<nat>, joins: seq<nat>, i: nat, max: nat)
    requires max > 0 && i < |joins|
    ensures JoinAll(list, joins[..i + 1], max) == Remember(JoinAll(list, joins[..i], max), joins[i], max)
  {
    assert joins[..i + 1][..i] == joins[..i];
  }

  class Groups {
    const max: nat
    /** For how long a peer that has joined a group is in it, and for how long one that is asked about it still is. */
    const membershipInterval: nat
    const lastMemberQueryTime: nat
    /** One entry for each signature, and the list that entry is on. */
    var multicast: map<nat, GroupEntry>
    var lists: map<nat, seq<GroupEntry>>
    ghost var peers: set<GroupPeer>
    ghost var entries: set<GroupEntry>
    /** The groups of each peer, in the order they were last joined in. */
    ghost var members: map<GroupPeer, seq<nat>>
    /** Used entries that are not, or not yet, on the list of their signature. */
    ghost var out: set<GroupEntry>

    /** The entries of a peer are each either free or used, and only the used ones have their timers run. */
    ghost predicate PeerOk(p: GroupPeer)
      reads this`entries, p`free, p`used
    {
      && |p.free| + |p.used| == max && Distinct(p.free) && Distinct(p.used)
      && (forall i | 0 <= i < |p.free| :: p.free[i] in entries && p.free[i].peer == p && p.free[i] !in p.used)
      && (forall i | 0 <= i < |p.used| :: p.used[i] in entries && p.used[i].peer == p)
    }

    ghost predicate PeersOk()
      reads this`peers, this`entries, peers`free, peers`used
    {
      forall p | p in peers :: PeerOk(p)
    }

    ghost predicate TimersOf(p: GroupPeer)
      reads this`entries, p`free, p`used, entries`timer
    {
      && (forall i | 0 <= i < |p.used| :: p.used[i] in entries && p.used[i].timer != None)
      && (forall i | 0 <= i < |p.free| :: p.free[i] in entries && p.free[i].timer == None)
    }

    ghost predicate TimersOk()
      reads this`peers, this`entries, peers`free, peers`used, entries`timer
    {
      forall p | p in peers :: TimersOf(p)
    }

    ghost predicate NamesOk()
      reads this`peers, this`members, this`entries, peers`used, entries`group
    {
      && members.Keys == peers
      && (forall p | p in peers :: |p.used| == |members[p]| && Distinct(members[p]))
      && (forall p, i | p in peers && 0 <= i < |p.used| :: p.used[i] in entries && p.used[i].group == members[p][i])
    }

    /** The tree of a peer holds exactly its used entries. */
    ghost predicate TreesOk()
      reads this`peers, this`entries, peers`used, peers`tree, entries`group
    {
      && (forall p, i | p in peers && 0 <= i < |p.used| ::
            p.used[i] in entries && p.used[i].group in p.tree && p.tree[p.used[i].group] == p.used[i])
      && (forall p, g | p in peers && g in p.tree :: p.tree[g] in entries && p.tree[g].group == g && p.tree[g] in p.used)
    }

    ghost predicate ListOk(sig: nat, list: seq<GroupEntry>)
      reads this`peers, this`out, this`entries, peers`used, entries`group
    {
      && list != [] && Distinct(list)
      && (forall i | 0 <= i < |list| ::
            && list[i] in entries && list[i] !in out && list[i].peer in peers && list[i] in list[i].peer.used
            && Sig(list[i].group) == sig)
    }

    ghost predicate ContentsOk()
      reads this`peers, this`out, this`entries, this`lists, peers`used, entries`group
    {
      forall s | s in lists :: ListOk(s, lists[s])
    }

    /** The index holds one entry of each list, and that one is its only master. */
    ghost predicate MastersOk()
      reads this`entries, this`lists, this`multicast, entries`isMaster
    {
      && lists.Keys == multicast.Keys
      && (forall s | s in lists :: multicast[s] in lists[s])
      && (forall s, i | s in lists && 0 <= i < |lists[s]| ::
            lists[s][i] in entries && lists[s][i].isMaster == (lists[s][i] == multicast[s]))
    }

    /** No used entry is missed. */
    ghost predicate CoverOk()
      reads this`peers, this`out, this`entries, this`lists, peers`used, entries`group
    {
      forall p, i | p in peers && 0 <= i < |p.used| && p.used[i] !in out ::
        p.used[i] in entries && Sig(p.used[i].group) in lists && p.used[i] in lists[Sig(p.used[i].group)]
    }

    /** For each signature, the list holds exactly the used entries with it, but for some, and one of them is the master. */
    ghost predicate ListsOk()
      reads this`peers, this`out, this`entries, this`lists, this`multicast, peers`used, entries`group, entries`isMaster
    {
      ContentsOk() && MastersOk() && CoverOk()
    }

    /** All but that some used entries may be off their lists. */
    ghost predicate Sound()
      reads this, peers, entries
    {
      max > 0 && PeersOk() && TimersOk() && NamesOk() && TreesOk() && ListsOk()
    }

    ghost predicate Valid()
      reads this, peers, entries
    {
      Sound() && out == {}
    }

    constructor (max: nat, membershipInterval: nat, lastMemberQueryTime: nat)
      requires max > 0
      ensures Valid() && members == map[]
    {
      this.max, this.membershipInterval, this.lastMemberQueryTime := max, membershipInterval, lastMemberQueryTime;
      multicast, lists, peers, entries, members, out := map[], map[], {}, {}, map[], {};
    }

    /** A used entry is on the list of its signature, and master if and only if it is the one in the tree. */
    lemma OnList(e: GroupEntry)
      requires ListsOk() && e in entries && e.peer in peers && e in e.peer.used && e !in out
      ensures var s := Sig(e.group); s in lists && s in multicast && e in lists[s] && e.isMaster == (e == multicast[s])
      ensures var s := Sig(e.group); ListOk(s, lists[s]) && lists[s] != [] && forall x | x in lists[s] :: x in entries
      ensures Distinct(lists[Sig(e.group)]) && multicast[Sig(e.group)] in lists[Sig(e.group)]
    {
    }

    /** remove_from_multicast: takes a used entry off its list; another of the list becomes master if it was. */
    method RemoveFromMulticast(e: GroupEntry)
      requires ListsOk() && e in entries && e.peer in peers && e in e.peer.used && e !in out
      modifies this`multicast, this`lists, this`out, entries`isMaster
      ensures ListsOk() && out == old(out) + {e} && TakenOff(e)
    {
      hide ContentsOk, MastersOk, CoverOk, ListOk, NextOrPrev, Remove;
      var s := Sig(e.group);
      OnList(e);
      var list := lists[s];
      if e.isMaster {
        multicast := multicast - {s};
        if |list| > 1 {
          var newMaster := NextOrPrev(list, e);
          newMaster.isMaster := true;
          multicast := multicast[s := newMaster];
        }
      }
      if |list| > 1 {
        lists := lists[s := Remove(list, e)];
      } else {
        lists := lists - {s};
      }
      out := out + {e};
      ContentsWithout(e);
      MastersWithout(e);
      CoverWithout(e);
    }

    /** An entry has been taken off its list, and the mastership has passed on if it was the master. */
    twostate predicate TakenOff(e: GroupEntry)
      requires e in entries
      reads this`peers, this`out, this`entries, this`lists, this`multicast, peers`used, entries`group, entries`isMaster
    {
      var s := Sig(e.group);
      && e.peer in peers && e in e.peer.used && e !in old(out) && out == old(out) + {e}
      && peers == old(peers) && entries == old(entries) && unchanged(peers`used, entries`group)
      && s in old(lists) && e in old(lists)[s] && s in old(multicast)
      && var list := old(lists)[s];
      if |list| == 1 then
        lists == old(lists) - {s} && multicast == old(multicast) - {s}
        && forall x | x in entries :: x.isMaster == old(x.isMaster)
      else
        && lists == old(lists)[s := Remove(list, e)]
        && s in multicast && multicast == old(multicast)[s := multicast[s]] && multicast[s] in list && multicast[s] in entries && multicast[s] != e
        && (if old(multicast)[s] == e then multicast[s] == NextOrPrev(list, e) && multicast[s].isMaster else multicast[s] == old(multicast)[s])
        && (forall x | x in entries && (x != multicast[s] || old(multicast)[s] != e) :: x.isMaster == old(x.isMaster))
    }

    twostate lemma ContentsWithout(e: GroupEntry)
      requires e in entries && TakenOff(e) && old(ContentsOk())
      ensures ContentsOk()
    {
      hide Remove;
      RemoveKeepsRest(old(lists)[Sig(e.group)], e);
    }

    twostate lemma MastersWithout(e: GroupEntry)
      requires e in entries && TakenOff(e) && old(ContentsOk()) && old(MastersOk())
      ensures MastersOk()
    {
      hide TakenOff;
      OwnWithout(e);
      OthersWithout(e);
    }

    /** The list that the entry was on has one master, if it still has entries. */
    twostate lemma OwnWithout(e: GroupEntry)
      requires e in entries && TakenOff(e) && old(ContentsOk()) && old(MastersOk())
      ensures var s := Sig(e.group);
        s in lists ==> s in multicast && multicast[s] in lists[s] && forall i | 0 <= i < |lists[s]| ::
            lists[s][i] in entries && lists[s][i].isMaster == (lists[s][i] == multicast[s])
    {
      hide Remove;
      RemoveKeepsRest(old(lists)[Sig(e.group)], e);
    }

    /** The lists of other signatures have the masters they had. */
    twostate lemma OthersWithout(e: GroupEntry)
      requires e in entries && TakenOff(e) && old(ContentsOk()) && old(MastersOk())
      ensures lists.Keys == multicast.Keys
      ensures forall s | s in lists && s != Sig(e.group) :: multicast[s] in lists[s]
      ensures forall s, i | s in lists && s != Sig(e.group) && 0 <= i < |lists[s]| ::
          lists[s][i] in entries && lists[s][i].isMaster == (lists[s][i] == multicast[s])
    {
      hide Remove;
    }

    twostate lemma CoverWithout(e: GroupEntry)
      requires e in entries && TakenOff(e) && old(ContentsOk()) && old(CoverOk())
      ensures CoverOk()
    {
      hide Remove;
      RemoveKeepsRest(old(lists)[Sig(e.group)], e);
    }

    lemma Listed(sig: nat)
      requires ListsOk() && sig in multicast
      ensures sig in lists && multicast[sig] in lists[sig] && multicast[sig] in entries && Distinct(lists[sig])
      ensures forall x | x in lists[sig] :: x in entries && x !in out && Sig(x.group) == sig
    {
    }

    /** add_to_multicast: puts a used entry on the list of its signature, as its master if it is the first. */
    method AddToMulticast(e: GroupEntry)
      requires ListsOk() && e in out && e in entries && e.peer in peers && e in e.peer.used
      modifies this`multicast, this`lists, this`out, e`isMaster
      ensures ListsOk() && out == old(out) - {e} && PutOn(e)
    {
      hide ContentsOk, MastersOk, CoverOk, ListOk, InsertAfter;
      var s := Sig(e.group);
      if s in multicast {
        Listed(s);
        e.isMaster := false;
        lists := lists[s := InsertAfter(lists[s], multicast[s], e)];
      } else {
        SameKeys();
        e.isMaster := true;
        multicast := multicast[s := e];
        lists := lists[s := [e]];
      }
      out := out - {e};
      ContentsWith(e);
      MastersWith(e);
      CoverWith(e);
    }

    lemma SameKeys()
      requires ListsOk()
      ensures lists.Keys == multicast.Keys
    {
    }

    twostate predicate PutOn(e: GroupEntry)
      requires e in entries
      reads this`peers, this`out, this`entries, this`lists, this`multicast, peers`used, entries`group, entries`isMaster
    {
      var s := Sig(e.group);
      && e.peer in peers && e in e.peer.used && e in old(out) && out == old(out) - {e}
      && peers == old(peers) && entries == old(entries) && unchanged(peers`used, entries`group)
      && (forall x | x in entries && x != e :: x.isMaster == old(x.isMaster))
      && if s in old(multicast) then
        && s in old(lists) && old(multicast)[s] in old(lists)[s] && !e.isMaster
        && multicast == old(multicast) && lists == old(lists)[s := InsertAfter(old(lists)[s], old(multicast)[s], e)]
      else
        s !in old(lists) && e.isMaster && multicast == old(multicast)[s := e] && lists == old(lists)[s := [e]]
    }

    twostate lemma ContentsWith(e: GroupEntry)
      requires e in entries && PutOn(e) && old(ContentsOk())
      ensures ContentsOk()
    {
      hide InsertAfter;
      var s := Sig(e.group);
      if s in old(lists) {
        InsertKeepsRest(old(lists)[s], old(multicast)[s], e);
      }
    }

    twostate lemma MastersWith(e: GroupEntry)
      requires e in entries && PutOn(e) && old(ContentsOk()) && old(MastersOk())
      ensures MastersOk()
    {
      hide InsertAfter;
      var s := Sig(e.group);
      if s in old(lists) {
        InsertKeepsRest(old(lists)[s], old(multicast)[s], e);
      }
    }

    twostate lemma CoverWith(e: GroupEntry)
      requires e in entries && PutOn(e) && old(ContentsOk()) && old(CoverOk())
      ensures CoverOk()
    {
      hide InsertAfter;
      var s := Sig(e.group);
      if s in old(lists) {
        InsertKeepsRest(old(lists)[s], old(multicast)[s], e);
      }
    }

    /** A used entry that is on no list becomes free. */
    method Release(e: GroupEntry)
      requires Sound() && e in entries && e.peer in peers && e in e.peer.used && e in out
      modifies this`members, this`out, e.peer`used, e.peer`free, e.peer`tree, e`timer
      ensures Sound() && out == old(out) - {e} && e.peer.free == old(e.peer.free) + [e] && e.timer == None
      ensures e.peer in old(members) && e.group in old(members)[e.peer]
      ensures members == old(members)[e.peer := Remove(old(members)[e.peer], e.group)]
      ensures e.peer.tree == old(e.peer.tree) - {e.group}
    {
      hide PeersOk, TimersOk, NamesOk, TreesOk, ContentsOk, MastersOk, CoverOk, Remove;
      NamedMember(e);
      var p := e.peer;
      p.tree := p.tree - {e.group};
      p.used := Remove(p.used, e);
      p.free := p.free + [e];
      e.timer := None;
      members := members[p := Remove(members[p], e.group)];
      out := out - {e};
      PeersReleased(e);
      TimersReleased(e);
      NamesReleased(e);
      TreesReleased(e);
      ContentsReleased(e);
      CoverReleased(e);
    }

    lemma NamedMember(e: GroupEntry)
      requires PeersOk() && NamesOk() && e.peer in peers && e in e.peer.used
      ensures e.peer in members && e.group in members[e.peer]
    {
      var i :| 0 <= i < |e.peer.used| && e.peer.used[i] == e;
      assert e.peer.used[i].group == members[e.peer][i];
    }

    twostate predicate Released(e: GroupEntry)
      reads this`peers, this`entries, this`members, peers`used, peers`free, peers`tree, entries`group, entries`timer
    {
      var p := e.peer;
      && p in peers && e in entries && e in old(p.used)
      && peers == old(peers) && entries == old(entries)
      && p.used == Remove(old(p.used), e) && p.free == old(p.free) + [e] && p.tree == old(p.tree) - {e.group} && e.timer == None
      && (forall q | q in peers && q != p :: q.used == old(q.used) && q.free == old(q.free) && q.tree == old(q.tree))
      && (forall x | x in entries :: x.group == old(x.group) && (x != e ==> x.timer == old(x.timer)))
      && p in old(members) && e.group in old(members)[p] && members == old(members)[p := Remove(old(members)[p], e.group)]
    }

    /** The other entries of a peer keep their names, and their order. */
    twostate lemma OthersNamed(e: GroupEntry)
      requires old(NamesOk()) && e.peer in old(peers) && e in old(e.peer.used)
      requires entries == old(entries) && unchanged(old(entries)`group)
      ensures e.peer in old(members) && e.group in old(members)[e.peer]
      ensures var r, s := Remove(old(e.peer.used), e), Remove(old(members)[e.peer], e.group);
        && |r| == |s| && Distinct(s) && e.group !in s
        && forall i | 0 <= i < |r| :: r[i] in entries && r[i].group == s[i]
    {
      hide Remove;
      var name := map x | x in old(e.peer.used) :: x.group;
      RemoveNamed(old(e.peer.used), old(members)[e.peer], name, e);
      RemoveKeepsRest(old(members)[e.peer], e.group);
    }

    twostate lemma PeersReleased(e: GroupEntry)
      requires Released(e) && old(PeersOk())
      ensures PeersOk()
    {
      hide Remove;
      RemoveKeepsRest(old(e.peer.used), e);
      assert forall p | p in peers :: old(PeerOk(p));
    }

    twostate lemma TimersReleased(e: GroupEntry)
      requires Released(e) && old(PeersOk()) && old(TimersOk())
      ensures TimersOk()
    {
      hide Remove;
      RemoveKeepsRest(old(e.peer.used), e);
      assert forall p | p in peers :: old(PeerOk(p));
    }

    twostate lemma NamesReleased(e: GroupEntry)
      requires Released(e) && old(PeersOk()) && old(NamesOk())
      ensures NamesOk()
    {
      hide Remove;
      OthersNamed(e);
    }

    twostate lemma TreesReleased(e: GroupEntry)
      requires Released(e) && old(PeersOk()) && old(TreesOk())
      ensures TreesOk()
    {
      hide Remove;
      RemoveKeepsRest(old(e.peer.used), e);
    }

    twostate lemma ContentsReleased(e: GroupEntry)
      requires Released(e) && old(ContentsOk()) && old(PeersOk()) && e in old(out) && out == old(out) - {e} && lists == old(lists)
      ensures ContentsOk()
    {
      hide Remove;
      RemoveKeepsRest(old(e.peer.used), e);
    }

    twostate lemma CoverReleased(e: GroupEntry)
      requires Released(e) && old(CoverOk()) && old(PeersOk()) && e in old(out) && out == old(out) - {e} && lists == old(lists)
      ensures CoverOk()
    {
      hide Remove;
      RemoveKeepsRest(old(e.peer.used), e);
    }

    /** remove_group_entry */
    method Leave(e: GroupEntry)
      requires Valid() && e in entries && e.peer in peers && e in e.peer.used
      modifies this`multicast, this`lists, this`members, this`out, e.peer`used, e.peer`free, e.peer`tree, e`timer, entries`isMaster
      ensures Valid() && e.peer.free == old(e.peer.free) + [e] && e.timer == None
      ensures e.peer in old(members) && e.group in old(members)[e.peer]
      ensures members == old(members)[e.peer := Remove(old(members)[e.peer], e.group)]
      ensures e.peer.tree == old(e.peer.tree) - {e.group}
    {
      hide PeersOk, TimersOk, NamesOk, TreesOk, ListsOk, Remove;
      RemoveFromMulticast(e);
      Release(e);
    }

    lemma FreeEntry(o: GroupPeer)
      requires PeersOk() && NamesOk() && o in peers && o.free != []
      ensures o in members && |members[o]| < max
      ensures var e := o.free[0]; e in entries && e.peer == o && NotUsed(e)
    {
      assert forall p | p in peers :: PeerOk(p);
    }

    ghost predicate NotUsed(e: GroupEntry)
      reads this`peers, peers`used
    {
      forall p | p in peers :: e !in p.used
    }

    /** The first free entry of a peer is taken for a group. */
    method Take(o: GroupPeer, group: nat, now: int) returns (e: GroupEntry)
      requires o in peers && o.free != [] && o.free[0] in entries && o.free[0].peer == o && NotUsed(o.free[0])
      requires group !in o.tree && o in members && group !in members[o]
      modifies this`members, this`out, o`used, o`free, o`tree, entries`group, entries`timer
      ensures e == old(o.free)[0] && Entered(e) && e.group == group && e.timer == Some(now + membershipInterval)
    {
      hide NotUsed;
      e := o.free[0];
      o.free, o.used, o.tree := o.free[1..], o.used + [e], o.tree[group := e];
      e.group, e.timer := group, Some(now + membershipInterval);
      members, out := members[o := members[o] + [group]], out + {e};
    }

    /** A peer gets a new group in a free entry, that is not on its list yet. */
    method Enter(o: GroupPeer, group: nat, now: int) returns (e: GroupEntry)
      requires Sound() && o in peers && o.free != [] && group !in o.tree
      modifies this`members, this`out, o`used, o`free, o`tree, entries`group, entries`timer
      ensures Sound() && out == old(out) + {e} && e == old(o.free)[0] && e in entries && e.peer == o && e in o.used && e !in old(o.used)
      ensures e.group == group && e.timer == Some(now + membershipInterval)
      ensures forall x | x in entries && x != e :: x.timer == old(x.timer) && x.group == old(x.group)
      ensures o in old(members) && members == old(members)[o := old(members)[o] + [group]]
    {
      hide PeersOk, TimersOk, NamesOk, TreesOk, ContentsOk, MastersOk, CoverOk, NotUsed;
      FreeEntry(o);
      NotMember(o, group);
      e := Take(o, group, now);
      PeersEntered(e);
      TimersEntered(e);
      NamesEntered(e);
      TreesEntered(e);
      ContentsEntered(e);
      CoverEntered(e);
    }

    lemma NotMember(o: GroupPeer, group: nat)
      requires NamesOk() && TreesOk() && o in peers
      ensures group in members[o] <==> group in o.tree
    {
      if group in members[o] {
        var i :| 0 <= i < |members[o]| && members[o][i] == group;
        assert o.used[i].group == group;
      }
      if group in o.tree {
        var i :| 0 <= i < |o.used| && o.used[i] == o.tree[group];
        assert o.used[i].group == members[o][i];
      }
    }

    twostate predicate Entered(e: GroupEntry)
      reads this`peers, this`entries, this`members, this`out, this`lists
      reads peers`used, peers`free, peers`tree, entries`group, entries`timer
    {
      var o := e.peer;
      && o in peers && e in entries && old(NotUsed(e)) && old(o.free) != [] && e == old(o.free)[0]
      && peers == old(peers) && entries == old(entries) && lists == old(lists) && out == old(out) + {e}
      && o.used == old(o.used) + [e] && o.free == old(o.free)[1..]
      && e.group !in old(o.tree) && o.tree == old(o.tree)[e.group := e] && e.timer != None
      && (forall q | q in peers && q != o :: q.used == old(q.used) && q.free == old(q.free) && q.tree == old(q.tree))
      && (forall x | x in entries && x != e :: x.group == old(x.group) && x.timer == old(x.timer))
      && o in old(members) && e.group !in old(members)[o] && members == old(members)[o := old(members)[o] + [e.group]]
    }

    twostate lemma PeersEntered(e: GroupEntry)
      requires Entered(e) && old(PeersOk())
      ensures PeersOk()
    {
      assert forall p | p in peers :: old(PeerOk(p));
    }

    twostate lemma TimersEntered(e: GroupEntry)
      requires Entered(e) && old(PeersOk()) && old(TimersOk())
      ensures TimersOk()
    {
      assert forall p | p in peers :: old(PeerOk(p));
    }

    twostate lemma NamesEntered(e: GroupEntry)
      requires Entered(e) && old(NamesOk())
      ensures NamesOk()
    {
    }

    twostate lemma TreesEntered(e: GroupEntry)
      requires Entered(e) && old(TreesOk())
      ensures TreesOk()
    {
    }

    twostate lemma ContentsEntered(e: GroupEntry)
      requires Entered(e) && old(ContentsOk())
      ensures ContentsOk()
    {
    }

    twostate lemma CoverEntered(e: GroupEntry)
      requires Entered(e) && old(CoverOk())
      ensures CoverOk()
    {
    }

    /** A group that is joined again becomes the one its peer last joined. */
    method Touch(e: GroupEntry, now: int)
      requires Valid() && e in entries && e.peer in peers && e in e.peer.used
      modifies this`members, e.peer`used, e`timer
      ensures Valid() && e in e.peer.used && e.timer == Some(now + membershipInterval)
      ensures e.peer in old(members) && e.group in old(members)[e.peer]
      ensures members == old(members)[e.peer := Remove(old(members)[e.peer], e.group) + [e.group]]
    {
      hide PeersOk, TimersOk, NamesOk, TreesOk, ContentsOk, MastersOk, CoverOk, Remove;
      NamedMember(e);
      var p := e.peer;
      p.used := Remove(p.used, e) + [e];
      e.timer := Some(now + membershipInterval);
      members := members[p := Remove(members[p], e.group) + [e.group]];
      SameUsed(e);
      PeersTouched(e);
      TimersTouched(e);
      NamesTouched(e);
      TreesTouched(e);
      ContentsTouched(e);
      CoverTouched(e);
    }

    twostate predicate Touched(e: GroupEntry)
      reads this`peers, this`entries, this`members, peers`used, entries`group, entries`timer
    {
      var p := e.peer;
      && p in peers && e in entries && e in old(p.used)
      && peers == old(peers) && entries == old(entries)
      && p.used == Remove(old(p.used), e) + [e] && e.timer != None
      && (forall q | q in peers && q != p :: q.used == old(q.used))
      && (forall x | x in entries :: x.group == old(x.group) && (x != e ==> x.timer == old(x.timer)))
      && p in old(members) && e.group in old(members)[p]
      && members == old(members)[p := Remove(old(members)[p], e.group) + [e.group]]
    }

    /** The order of the used entries is all that changes. */
    twostate lemma SameUsed(e: GroupEntry)
      requires Touched(e) && old(PeersOk())
      ensures |e.peer.used| == |old(e.peer.used)| && Distinct(e.peer.used)
      ensures forall x :: x in e.peer.used <==> x in old(e.peer.used)
      ensures forall i | 0 <= i < |e.peer.used| :: e.peer.used[i] in old(e.peer.used)
    {
      hide Remove;
      RemoveKeepsRest(old(e.peer.used), e);
      assert e.peer.used[|e.peer.used| - 1] == e;
    }

    twostate lemma PeersTouched(e: GroupEntry)
      requires Touched(e) && old(PeersOk()) && unchanged(peers`free)
      ensures PeersOk()
    {
      hide Remove;
      SameUsed(e);
      assert forall p | p in peers :: old(PeerOk(p));
    }

    twostate lemma TimersTouched(e: GroupEntry)
      requires Touched(e) && old(PeersOk()) && old(TimersOk()) && unchanged(peers`free)
      ensures TimersOk()
    {
      hide Remove;
      SameUsed(e);
      assert forall p | p in peers :: old(PeerOk(p));
    }

    /** The entries of the peer itself are named as its groups. */
    twostate lemma OwnNamed(e: GroupEntry)
      requires Touched(e) && old(NamesOk())
      ensures var p := e.peer;
        && p in members && |p.used| == |members[p]| && Distinct(members[p])
        && forall i | 0 <= i < |p.used| :: p.used[i] in entries && p.used[i].group == members[p][i]
    {
      hide Remove, NamesOk;
      OthersNamed(e);
      DistinctAppend(Remove(old(members)[e.peer], e.group), e.group);
    }

    twostate lemma NamesTouched(e: GroupEntry)
      requires Touched(e) && old(NamesOk())
      ensures NamesOk()
    {
      hide Remove;
      OwnNamed(e);
    }

    twostate lemma TreesTouched(e: GroupEntry)
      requires Touched(e) && old(PeersOk()) && old(TreesOk()) && unchanged(peers`tree)
      ensures TreesOk()
    {
      hide Remove;
      SameUsed(e);
    }

    twostate lemma ContentsTouched(e: GroupEntry)
      requires Touched(e) && old(PeersOk()) && old(ContentsOk()) && lists == old(lists) && out == old(out)
      ensures ContentsOk()
    {
      hide Remove;
      SameUsed(e);
    }

    twostate lemma CoverTouched(e: GroupEntry)
      requires Touched(e) && old(PeersOk()) && old(CoverOk()) && lists == old(lists) && out == old(out)
      ensures CoverOk()
    {
      hide Remove;
      SameUsed(e);
    }

    lemma InTree(o: GroupPeer, group: nat)
      requires Valid() && o in peers
      ensures o in members && (group in members[o] <==> group in o.tree)
      ensures group in o.tree ==> var e := o.tree[group]; e in entries && e.peer == o && e in o.used && e.group == group
    {
      hide TimersOk, ListsOk;
      NotMember(o, group);
      assert PeerOk(o);
    }

    lemma OldestEntry(o: GroupPeer)
      requires Valid() && o in peers && o.free == []
      ensures o in members && o.used != [] && |members[o]| == max
      ensures var e := o.used[0]; e in entries && e.peer == o && e in o.used && e.group == members[o][0]
      ensures Remove(members[o], members[o][0]) == members[o][1..]
    {
      hide TimersOk, ListsOk, TreesOk;
      assert PeerOk(o);
    }

    lemma InMembers(o: GroupPeer)
      requires Valid() && o in peers
      ensures o in members && |members[o]| + |o.free| == max && max > 0
    {
      hide TimersOk, ListsOk, TreesOk;
      assert PeerOk(o);
    }

    /**
     * add_group_to_peer: the group is the one its peer last joined, and will be for as long as a membership lasts.
     * It returns the entry, the entry of the group that was given up for it if it was used for one, and, if
     * the entry has been put on a list, the one it was put after.
     */
    method AddGroup(o: GroupPeer, group: nat, now: int) returns (e: GroupEntry, gone: Option<GroupEntry>, before: Option<GroupEntry>)
      requires Valid() && o in peers
      modifies this`multicast, this`lists, this`members, this`out
      modifies o`used, o`free, o`tree, entries`group, entries`timer, entries`isMaster
      ensures Valid()
      ensures o in old(members) && members == old(members)[o := Remember(old(members)[o], group, max)]
      ensures e in entries && e.peer == o && e in o.used && e.group == group && e.timer == Some(now + membershipInterval)
      ensures forall x | x in entries && x != e && x.timer != None :: x.timer == old(x.timer)
      ensures gone.Some? ==> gone.value.peer == o && gone.value in old(o.used)
      ensures before.Some? ==> e !in old(o.used) || gone == Some(e)
      ensures before.Some? ==> Sig(group) in lists && Follows(lists[Sig(group)], before.value, e)
    {
      hide PeersOk, TimersOk, NamesOk, TreesOk, ListsOk, Remove, Remember;
      InTree(o, group);
      InMembers(o);
      gone, before := None, None;
      if group in o.tree {
        e := o.tree[group];
        RememberOwn(members[o], group);
        Touch(e, now);
      } else {
        e, gone, before := Join(o, group, now);
      }
    }

    lemma RememberOwn(list: seq<nat>, group: nat)
      requires group in list && |list| <= max && max > 0
      ensures Remember(list, group, max) == Remove(list, group) + [group]
    {
      hide Remove;
    }

    /** A group that is not joined yet gets a free entry, or the one of the group that was joined longest ago. */
    method Join(o: GroupPeer, group: nat, now: int) returns (e: GroupEntry, gone: Option<GroupEntry>, before: Option<GroupEntry>)
      requires Valid() && o in peers && group !in o.tree
      modifies this`multicast, this`lists, this`members, this`out
      modifies o`used, o`free, o`tree, entries`group, entries`timer, entries`isMaster
      ensures Valid()
      ensures o in old(members) && max > 0 && members == old(members)[o := Remember(old(members)[o], group, max)]
      ensures e in entries && e.peer == o && e in o.used && e.group == group && e.timer == Some(now + membershipInterval)
      ensures forall x | x in entries && x != e && x.timer != None :: x.timer == old(x.timer)
      ensures gone.Some? ==> gone.value.peer == o && gone.value in old(o.used)
      ensures e !in old(o.used) || gone == Some(e)
      ensures before.Some? ==> Sig(group) in lists && Follows(lists[Sig(group)], before.value, e)
    {
      hide PeersOk, TimersOk, NamesOk, TreesOk, ListsOk, Remove, TakenOff, PutOn, Remember;
      InTree(o, group);
      InMembers(o);
      RememberNew(members[o], group);
      gone := None;
      if o.free == [] {
        OldestEntry(o);
        gone := Some(o.used[0]);
        Leave(o.used[0]);
      }
      e, before := Begin(o, group, now);
    }

    lemma RememberNew(list: seq<nat>, group: nat)
      requires group !in list && |list| <= max && max > 0
      ensures Remember(list, group, max) == (if |list| == max then list[1..] else list) + [group]
    {
    }

    /** A peer with a free entry joins a group. */
    method Begin(o: GroupPeer, group: nat, now: int) returns (e: GroupEntry, before: Option<GroupEntry>)
      requires Valid() && o in peers && o.free != [] && group !in o.tree
      modifies this`multicast, this`lists, this`members, this`out
      modifies o`used, o`free, o`tree, entries`group, entries`timer, entries`isMaster
      ensures Valid()
      ensures o in old(members) && members == old(members)[o := old(members)[o] + [group]]
      ensures e == old(o.free)[0] && e in entries && e.peer == o && e in o.used && e.group == group && e.timer == Some(now + membershipInterval)
      ensures e !in old(o.used)
      ensures forall x | x in entries && x != e :: x.timer == old(x.timer)
      ensures before.Some? ==> Sig(group) in lists && Follows(lists[Sig(group)], before.value, e)
    {
      hide PeersOk, TimersOk, NamesOk, TreesOk, ListsOk, TakenOff, PutOn, Follows;
      e := Enter(o, group, now);
      before := PutOnList(e);
    }

    /** The entry of a group goes right behind the one that the index holds, if it holds one. */
    method PutOnList(e: GroupEntry) returns (before: Option<GroupEntry>)
      requires ListsOk() && e in out && e in entries && e.peer in peers && e in e.peer.used
      modifies this`multicast, this`lists, this`out, e`isMaster
      ensures ListsOk() && out == old(out) - {e} && PutOn(e)
      ensures before.Some? ==> Sig(e.group) in lists && Follows(lists[Sig(e.group)], before.value, e)
    {
      hide ListsOk, Follows, InsertAfter;
      before := if Sig(e.group) in multicast then Some(multicast[Sig(e.group)]) else None;
      AddToMulticast(e);
      if before != None {
        InsertedFollows(old(lists)[Sig(e.group)], before.value, e);
      }
    }

    lemma MembersArePeers()
      requires Valid()
      ensures members.Keys == peers && max > 0
    {
    }

    /** group_entry_timer_handler: the membership has ended. */
    method TimerExpired(e: GroupEntry)
      requires Valid() && e in entries && e.timer != None && e.peer in peers && e in e.peer.used
      modifies this`multicast, this`lists, this`members, this`out, e.peer`used, e.peer`free, e.peer`tree, e`timer, entries`isMaster
      ensures Valid()
      ensures e.peer in old(members) && e.group in old(members)[e.peer]
      ensures members == old(members)[e.peer := Remove(old(members)[e.peer], e.group)]
    {
      hide PeersOk, TimersOk, NamesOk, TreesOk, ListsOk, Remove;
      Leave(e);
    }

    /** The entries with a signature are those of the members of the groups that have it. */
    method EntriesFor(sig: nat) returns (list: seq<GroupEntry>)
      requires Valid()
      ensures Distinct(list)
      ensures forall i | 0 <= i < |list| :: var e := list[i];
          e.peer in members && e.group in members[e.peer] && Sig(e.group) == sig
      ensures forall p, g | p in members && g in members[p] && Sig(g) == sig ::
          exists e :: e in list && e.peer == p && e.group == g
      ensures forall i, j | 0 <= i < j < |list| :: list[i].peer != list[j].peer || list[i].group != list[j].group
    {
      hide PeersOk, TimersOk, NamesOk, TreesOk, ContentsOk, MastersOk, CoverOk;
      SameKeys();
      list := if sig in multicast then lists[sig] else [];
      forall i | 0 <= i < |list|
        ensures var e := list[i]; e.peer in members && e.group in members[e.peer] && Sig(e.group) == sig
      {
        Listed(sig);
        OnListUsed(sig, i);
        NamedMember(list[i]);
      }
      forall p, g | p in members && g in members[p] && Sig(g) == sig
        ensures exists e :: e in list && e.peer == p && e.group == g
      {
        var e := MemberListed(p, g);
      }
      forall i, j | 0 <= i < j < |list|
        ensures list[i].peer != list[j].peer || list[i].group != list[j].group
      {
        OnListApart(sig, i, j);
      }
      if sig in multicast {
        Listed(sig);
      }
    }

    lemma OnListUsed(sig: nat, i: nat)
      requires ContentsOk() && sig in lists && i < |lists[sig]|
      ensures var e := lists[sig][i]; e in entries && e.peer in peers && e in e.peer.used && Sig(e.group) == sig && e !in out
    {
    }

    lemma MemberListed(p: GroupPeer, group: nat) returns (e: GroupEntry)
      requires Valid() && p in members && group in members[p]
      ensures Sig(group) in lists && e in lists[Sig(group)] && e.peer == p && e.group == group
      ensures e in p.used && p in peers && e in entries
    {
      hide TimersOk, TreesOk, ContentsOk, MastersOk;
      var i :| 0 <= i < |members[p]| && members[p][i] == group;
      assert PeerOk(p);
      e := p.used[i];
    }

    /** No two entries on a list are of the same peer and group. */
    lemma OnListApart(sig: nat, i: nat, j: nat)
      requires Valid() && sig in lists && i < j < |lists[sig]|
      ensures lists[sig][i].peer != lists[sig][j].peer || lists[sig][i].group != lists[sig][j].group
    {
      hide PeersOk, TimersOk, NamesOk, MastersOk, CoverOk;
      OnListUsed(sig, i);
      OnListUsed(sig, j);
    }

    /** Memberships of a group last no longer than one that is asked about does. */
    function Lowered(timer: Option<int>, now: int): (r: Option<int>)
      ensures timer == None <==> r == None
      ensures timer.Some? ==> r.value <= timer.value && r.value <= now + lastMemberQueryTime
      ensures timer.Some? ==> r.value == timer.value || r.value == now + lastMemberQueryTime
    {
      if timer.Some? && timer.value > now + lastMemberQueryTime then Some(now + lastMemberQueryTime) else timer
    }

    ghost predicate IsMembership(e: GroupEntry, group: nat)
      reads this`peers, e`group, e.peer`used
    {
      e.peer in peers && e in e.peer.used && e.group == group
    }

    /** The timers of some entries have been lowered, as far as they are for the group. */
    ghost predicate LoweredBy(before: map<GroupEntry, Option<int>>, done: seq<GroupEntry>, group: nat, now: int)
      reads this`entries, entries`group, entries`timer
    {
      && before.Keys == entries
      && forall e | e in entries :: e.timer == if e in done && e.group == group then Lowered(before[e], now) else before[e]
    }

    /** The loop of lower_group_timers_to_lmqt over the list of a signature. */
    method LowerAll(list: seq<GroupEntry>, group: nat, now: int)
      requires Distinct(list) && forall x | x in list :: x in entries
      modifies entries`timer
      ensures forall e: GroupEntry | e in entries :: e.timer == if e in list && e.group == group then Lowered(old(e.timer), now) else old(e.timer)
    {
      hide LoweredBy, Lowered, Distinct;
      ghost var before := map e | e in entries :: e.timer;
      NoneLowered(before, group, now);
      for i := 0 to |list|
        invariant LoweredBy(before, list[..i], group, now)
      {
        LowerOne(before, list, i, list[i], group, now);
      }
      assert list[..|list|] == list;
      AllLowered(before, list, group, now);
    }

    lemma NoneLowered(before: map<GroupEntry, Option<int>>, group: nat, now: int)
      requires before.Keys == entries && forall e | e in entries :: before[e] == e.timer
      ensures LoweredBy(before, [], group, now)
    {
    }

    lemma AllLowered(before: map<GroupEntry, Option<int>>, list: seq<GroupEntry>, group: nat, now: int)
      requires LoweredBy(before, list, group, now)
      ensures before.Keys == entries && forall e | e in entries :: e.timer == if e in list && e.group == group then Lowered(before[e], now) else before[e]
    {
    }

    method LowerOne(ghost before: map<GroupEntry, Option<int>>, ghost list: seq<GroupEntry>, ghost i: nat, e: GroupEntry, group: nat, now: int)
      requires Distinct(list) && i < |list| && e == list[i] && e in entries && LoweredBy(before, list[..i], group, now)
      modifies e`timer
      ensures LoweredBy(before, list[..i + 1], group, now)
    {
      assert list[..i + 1] == list[..i] + [e];
      assert e !in list[..i];
      if e.group == group && e.timer.Some? && e.timer.value > now + lastMemberQueryTime {
        e.timer := Some(now + lastMemberQueryTime);
      }
    }

    /** lower_group_timers_to_lmqt: all memberships of the group are lowered, and nothing else is. */
    method LowerTimers(group: nat, now: int)
      requires Valid()
      modifies entries`timer
      ensures Valid()
      ensures forall e | e in old(entries) ::
          e.timer == if IsMembership(e, group) then Lowered(old(e.timer), now) else old(e.timer)
    {
      hide PeersOk, TimersOk, NamesOk, TreesOk, ContentsOk, MastersOk, CoverOk, Lowered, IsMembership;
      var sig := Sig(group);
      SameKeys();
      MembershipsListed(group);
      if sig in multicast {
        Listed(sig);
        LowerAll(lists[sig], group, now);
        StillRun(group, now);
        TimersStillRun();
      }
    }

    /** A timer that is lowered still runs, and one that does not run is not lowered. */
    lemma StillRun(group: nat, now: int)
      ensures forall t :: Lowered(t, now) == None <==> t == None
    {
    }

    /** The memberships of a group are on the list of its signature. */
    lemma MembershipsListed(group: nat)
      requires Valid()
      ensures forall e | e in entries ::
          (Sig(group) in lists && e in lists[Sig(group)] && e.group == group) <==> IsMembership(e, group)
    {
      hide PeersOk, TimersOk, NamesOk, TreesOk, MastersOk;
    }

    twostate lemma TimersStillRun()
      requires old(TimersOk()) && peers == old(peers) && entries == old(entries) && unchanged(peers)
      requires forall e | e in entries :: e.timer == None <==> old(e.timer) == None
      ensures TimersOk()
    {
    }

    /** The entries of a new peer are all free. */
    method AddPeer() returns (o: GroupPeer)
      requires Valid()
      modifies this`peers, this`entries, this`members
      ensures Valid() && fresh(o) && o.used == [] && fresh(entries - old(entries))
      ensures o !in old(members) && members == old(members)[o := []] && peers == old(peers) + {o}
    {
      hide PeersOk, TimersOk, NamesOk, TreesOk, ContentsOk, MastersOk, CoverOk;
      o := NewPeer();
      ghost var mine := Elements(o.free);
      NotPeer(o);
      peers, entries, members := peers + {o}, entries + mine, members[o := []];
      PeersJoined(o);
      TimersJoined(o);
      NamesJoined(o);
      TreesJoined(o);
      ContentsJoined(o);
      MastersJoined(o);
      CoverJoined(o);
    }

    lemma NotPeer(o: GroupPeer)
      requires NamesOk() && o !in peers
      ensures o !in members
    {
    }

    method NewPeer() returns (o: GroupPeer)
      ensures fresh(o) && o.used == [] && o.tree == map[] && |o.free| == max && Distinct(o.free)
      ensures forall i | 0 <= i < |o.free| :: fresh(o.free[i]) && o.free[i].peer == o && o.free[i].timer == None
    {
      o := new GroupPeer();
      for i := 0 to max
        invariant fresh(o) && o.used == [] && o.tree == map[] && |o.free| == i && Distinct(o.free)
        invariant forall j | 0 <= j < i :: fresh(o.free[j]) && o.free[j].peer == o && o.free[j].timer == None
      {
        var e := new GroupEntry(o);
        o.free := o.free + [e];
      }
    }

    twostate predicate Joined(new o: GroupPeer)
      reads this, o, peers, entries
    {
      var mine := Elements(o.free);
      && o !in old(peers) && peers == old(peers) + {o} && entries == old(entries) + mine
      && o.used == [] && o.tree == map[] && |o.free| == max && Distinct(o.free)
      && (forall i | 0 <= i < |o.free| :: o.free[i].peer == o && o.free[i].timer == None)
      && o !in old(members) && members == old(members)[o := []]
      && multicast == old(multicast) && lists == old(lists) && out == old(out)
      && (forall p | p in old(peers) :: p.used == old(p.used) && p.free == old(p.free) && p.tree == old(p.tree))
      && (forall e | e in old(entries) :: e.group == old(e.group) && e.timer == old(e.timer) && e.isMaster == old(e.isMaster))
    }

    twostate lemma PeersJoined(new o: GroupPeer)
      requires Joined(o) && old(PeersOk())
      ensures PeersOk()
    {
      assert forall p | p in old(peers) :: old(PeerOk(p));
      assert PeerOk(o);
    }

    twostate lemma TimersJoined(new o: GroupPeer)
      requires Joined(o) && old(TimersOk())
      ensures TimersOk()
    {
    }

    twostate lemma NamesJoined(new o: GroupPeer)
      requires Joined(o) && old(NamesOk())
      ensures NamesOk()
    {
    }

    twostate lemma TreesJoined(new o: GroupPeer)
      requires Joined(o) && old(TreesOk())
      ensures TreesOk()
    {
    }

    twostate lemma ContentsJoined(new o: GroupPeer)
      requires Joined(o) && old(ContentsOk())
      ensures ContentsOk()
    {
    }

    twostate lemma MastersJoined(new o: GroupPeer)
      requires Joined(o) && old(MastersOk())
      ensures MastersOk()
    {
    }

    twostate lemma CoverJoined(new o: GroupPeer)
      requires Joined(o) && old(CoverOk())
      ensures CoverOk()
    {
    }

    /** No list holds an entry of a peer that goes, and its timers are stopped. */
    method FreePeer(o: GroupPeer)
      requires Valid() && o in peers
      modifies this`multicast, this`lists, this`peers, this`members, this`out, entries`timer, entries`isMaster
      ensures Valid()
      ensures members == old(members) - {o} && peers == old(peers) - {o}
      ensures forall i | 0 <= i < |o.used| :: o.used[i].timer == None
      ensures forall e | e in old(entries) && e.peer != o :: e.timer == old(e.timer)
    {
      hide PeersOk, TimersOk, NamesOk, TreesOk, ContentsOk, MastersOk, CoverOk, PeerOk;
      ClearPeer(o);
      OtherTimers(o);
      Delist(o);
    }

    twostate lemma OtherTimers(o: GroupPeer)
      requires old(TimersOk()) && old(PeersOk()) && peers == old(peers) && entries == old(entries) && unchanged(peers)
      requires forall e | e in entries && e.peer != o :: e.timer == old(e.timer)
      ensures forall p | p in peers && p != o :: TimersOf(p)
    {
      assert forall p | p in peers :: old(PeerOk(p)) && old(TimersOf(p));
    }

    lemma UsedEntry(o: GroupPeer, i: nat)
      requires PeersOk() && o in peers && i < |o.used|
      ensures o.used[i] in entries && o.used[i].peer == o && o.used[i] in o.used && Distinct(o.used)
    {
      assert PeerOk(o);
    }

    method ClearPeer(o: GroupPeer)
      requires ListsOk() && PeersOk() && out == {} && o in peers
      modifies this`multicast, this`lists, this`out, entries`timer, entries`isMaster
      ensures ListsOk() && out == Elements(o.used)
      ensures forall i | 0 <= i < |o.used| :: o.used[i].timer == None
      ensures forall e | e in old(entries) && e.peer != o :: e.timer == old(e.timer)
    {
      hide PeersOk, ListsOk, PeerOk;
      for i := 0 to |o.used|
        invariant ListsOk() && out == Elements(o.used[..i])
        invariant forall j | 0 <= j < i :: o.used[j].timer == None
        invariant forall e | e in old(entries) && e.peer != o :: e.timer == old(e.timer)
      {
        var e := o.used[i];
        UsedEntry(o, i);
        assert o.used[..i + 1] == o.used[..i] + [e];
        RemoveFromMulticast(e);
        e.timer := None;
      }
      assert o.used[..|o.used|] == o.used;
    }

    method Delist(o: GroupPeer)
      requires max > 0 && PeersOk() && NamesOk() && TreesOk() && ListsOk() && out == Elements(o.used) && o in peers
      requires forall p | p in peers && p != o :: TimersOf(p)
      modifies this`peers, this`members, this`out
      ensures Valid()
      ensures members == old(members) - {o} && peers == old(peers) - {o}
    {
      hide PeersOk, NamesOk, TreesOk, ContentsOk, MastersOk, CoverOk, PeerOk;
      peers, members, out := peers - {o}, members - {o}, {};
      PeersLeft(o);
      NamesLeft(o);
      TreesLeft(o);
      ContentsLeft(o);
      CoverLeft(o);
    }

    twostate predicate HasLeft(o: GroupPeer)
      reads this, peers, entries, o
    {
      && o in old(peers) && peers == old(peers) - {o} && entries == old(entries) && members == old(members) - {o}
      && old(out) == Elements(o.used) && out == {} && lists == old(lists)
      && o.used == old(o.used)
      && (forall p | p in peers :: p.used == old(p.used) && p.free == old(p.free) && p.tree == old(p.tree))
      && (forall e | e in entries :: e.group == old(e.group))
    }

    twostate lemma PeersLeft(o: GroupPeer)
      requires HasLeft(o) && old(PeersOk())
      ensures PeersOk()
    {
      assert forall p | p in peers :: old(PeerOk(p));
    }

    twostate lemma NamesLeft(o: GroupPeer)
      requires HasLeft(o) && old(NamesOk())
      ensures NamesOk()
    {
    }

    twostate lemma TreesLeft(o: GroupPeer)
      requires HasLeft(o) && old(TreesOk())
      ensures TreesOk()
    {
    }

    twostate lemma ContentsLeft(o: GroupPeer)
      requires HasLeft(o) && old(ContentsOk())
      ensures ContentsOk()
    {
    }

    twostate lemma CoverLeft(o: GroupPeer)
      requires HasLeft(o) && old(CoverOk()) && old(PeersOk())
      ensures CoverOk()
    {
      assert forall p | p in old(peers) :: old(PeerOk(p));
    }
  }
}
