/**
 * The peers of a client. A peer is reached over a link of its own, through another
 * peer that relays for it, or not at all, possibly waiting for a relay.
 */
module Peers {
  import opened Bytes
  import opened DataProto
  import opened DPRelay
  import opened Lists

  class Peer {
    /** The flow of the device's own frames to the peer. */
    const flow: DataProtoFlow
    /** Where frames the peer wants relayed come from. */
    const source: RelaySource
    /** Where frames relayed to the peer go. */
    const relaySink: RelaySink

    var haveLink: bool
    var sendDp: DataProtoSink?
    var relayingPeer: Peer?
    var waitingRelay: bool
    var isRelay: bool
    var relayUsers: seq<Peer>

    constructor (flow: DataProtoFlow, source: RelaySource, relaySink: RelaySink)
      ensures this.flow == flow && this.source == source && this.relaySink == relaySink
      ensures !haveLink && sendDp == null && relayingPeer == null && !waitingRelay && !isRelay && relayUsers == []
    {
      this.flow, this.source, this.relaySink := flow, source, relaySink;
      haveLink, sendDp, relayingPeer, waitingRelay, isRelay, relayUsers := false, null, null, false, false, [];
    }

    ghost predicate StateOk()
      reads this`haveLink, this`sendDp, this`relayingPeer, this`waitingRelay, this`isRelay
    {
      && (haveLink <==> sendDp != null)
      && (haveLink ==> relayingPeer == null && !waitingRelay)
      && (relayingPeer != null ==> !waitingRelay)
      && (isRelay ==> haveLink)
    }

    ghost function Links(): set<DataProtoSink>
      reads this`sendDp
    {
      if sendDp == null then {} else {sendDp}
    }

    /** Where the device's frames for the peer go. */
    ghost function Target(): DataProtoSink?
      reads this`haveLink, this`sendDp, this`relayingPeer
      reads (if relayingPeer == null then {} else {relayingPeer})`sendDp
    {
      if haveLink then sendDp else if relayingPeer != null then relayingPeer.sendDp else null
    }
  }

  /** A relay, if there is one, gets a list of new users. */
  ghost function Given(users: map<Peer, seq<Peer>>, relay: Peer?, list: seq<Peer>): map<Peer, seq<Peer>> {
    if relay == null then users else map p | p in users :: if p == relay then users[p] + list else users[p]
  }

  ghost function Got(via: map<Peer, Peer?>, relay: Peer?, list: seq<Peer>): map<Peer, Peer?> {
    if relay == null then via else map p | p in via :: if p in list then relay else via[p]
  }

  lemma GivenNone(users: map<Peer, seq<Peer>>, via: map<Peer, Peer?>, relay: Peer?)
    ensures Given(users, relay, []) == users && Got(via, relay, []) == via
  {
    assert forall p | p in users :: users[p] + [] == users[p];
  }

  lemma GivenNull(users: map<Peer, seq<Peer>>, via: map<Peer, Peer?>, list: seq<Peer>)
    ensures Given(users, null, list) == users && Got(via, null, list) == via
  {
  }

  lemma GivenOneMore(users: map<Peer, seq<Peer>>, via: map<Peer, Peer?>, relay: Peer, list: seq<Peer>, i: nat)
    requires i < |list| && relay in users && list[i] in via
    ensures var before := Given(users, relay, list[..i]);
      relay in before && Given(users, relay, list[..i + 1]) == before[relay := before[relay] + [list[i]]]
    ensures Got(via, relay, list[..i + 1]) == Got(via, relay, list[..i])[list[i] := relay]
  {
    assert list[..i + 1] == list[..i] + [list[i]];
    assert forall p | p in users :: users[p] + (list[..i] + [list[i]]) == (users[p] + list[..i]) + [list[i]];
  }

  lemma GivenFirst(users: map<Peer, seq<Peer>>, relay: Peer, list: seq<Peer>)
    ensures Given(users[relay := []], relay, list) == users[relay := list]
  {
    assert [] + list == list;
  }

  lemma GotOne(via: map<Peer, Peer?>, relay: Peer?, peer: Peer)
    requires peer in via
    ensures relay != null ==> Got(via[peer := null], relay, [peer]) == via[peer := relay]
  {
  }

  /** Peers that are no longer relayed for. */
  ghost function Lost(via: map<Peer, Peer?>, list: seq<Peer>): map<Peer, Peer?> {
    map p | p in via :: if p in list then null else via[p]
  }

  lemma LostOneMore(via: map<Peer, Peer?>, list: seq<Peer>, i: nat)
    requires i < |list| && list[i] in Lost(via, list[..i])
    ensures Lost(via, list[..i + 1]) == Lost(via, list[..i])[list[i] := null]
  {
    assert list[..i + 1] == list[..i] + [list[i]];
  }

  lemma LostNone(via: map<Peer, Peer?>, list: seq<Peer>)
    ensures list[..0] == [] && Lost(via, list[..0]) == via
  {
  }

  /** The DataProto flows of the relay router's flows. */
  ghost function OwnedFlows(relayFlows: set<RelayFlow>): set<DataProtoFlow> {
    set x | x in relayFlows :: x.dpFlow
  }

  lemma OwnedBesides(relayFlows: set<RelayFlow>, x: RelayFlow)
    ensures OwnedFlows(relayFlows + {x}) == OwnedFlows(relayFlows) + {x.dpFlow}
    ensures (forall y | y in relayFlows && y != x :: y.dpFlow != x.dpFlow) ==>
        OwnedFlows(relayFlows - {x}) == OwnedFlows(relayFlows) - {x.dpFlow}
  {
  }

  /** Another list of users for a relay, and another relay for a peer. */
  datatype Wiring = Wiring(relay: Peer, list: seq<Peer>, peer: Peer, to: Peer?)

  class Client {
    const router: Router
    var relays: seq<Peer>
    var waiting: seq<Peer>
    ghost var peers: set<Peer>
    /** Whom each peer relays for, in order, and the relay of each. */
    ghost var users: map<Peer, seq<Peer>>
    ghost var via: map<Peer, Peer?>

    ghost predicate StatesOk()
      reads this`peers, peers`haveLink, peers`sendDp, peers`relayingPeer, peers`waitingRelay, peers`isRelay
    {
      forall p | p in peers :: p.StateOk()
    }

    /** The list of waiting peers holds exactly those that wait. */
    ghost predicate WaitingOk()
      reads this`peers, this`waiting, peers`waitingRelay
    {
      && Distinct(waiting)
      && (forall i | 0 <= i < |waiting| :: waiting[i] in peers && waiting[i].waitingRelay)
      && (forall p | p in peers && p.waitingRelay :: p in waiting)
    }

    /** The list of relays holds exactly the peers that are relays. */
    ghost predicate RelaysOk()
      reads this`peers, this`relays, peers`isRelay
    {
      && Distinct(relays)
      && (forall i | 0 <= i < |relays| :: relays[i] in peers && relays[i].isRelay)
      && (forall p | p in peers && p.isRelay :: p in relays)
    }

    /** The list of users of a relay holds exactly the peers it relays for, and only relays relay. */
    ghost predicate UsersOk(users: map<Peer, seq<Peer>>, via: map<Peer, Peer?>)
      reads this`peers, peers`isRelay
    {
      && peers == users.Keys == via.Keys
      && (forall r | r in peers && r.isRelay :: Distinct(users[r]))
      && (forall r, i | r in peers && r.isRelay && 0 <= i < |users[r]| :: users[r][i] in via && via[users[r][i]] == r)
      && (forall u | u in peers && via[u] != null :: via[u] in peers && via[u].isRelay && u in users[via[u]])
    }

    ghost predicate Relaying()
      reads this`peers, this`users, this`via, peers`relayUsers, peers`relayingPeer
    {
      forall p | p in peers :: p in users && p in via && p.relayUsers == users[p] && p.relayingPeer == via[p]
    }

    ghost predicate ListsOk()
      reads this, peers`haveLink, peers`sendDp, peers`relayingPeer, peers`waitingRelay, peers`isRelay, peers`relayUsers
    {
      StatesOk() && WaitingOk() && RelaysOk() && UsersOk(users, via) && Relaying()
    }

    /** The local flow of each peer is meant for where the peer is reached. */
    ghost predicate TargetsOk(desired: map<DataProtoFlow, DataProtoSink?>)
      reads this`peers, peers`haveLink, peers`sendDp, peers`relayingPeer
    {
      forall p | p in peers ::
        && (p.relayingPeer != null ==> p.relayingPeer in peers)
        && p.flow in desired && desired[p.flow] == p.Target()
    }

    /** Links are live and apart, and the frames relayed to a peer go over its link. */
    ghost predicate LinksOk(links: set<DataProtoSink>, relaySinks: set<RelaySink>)
      reads this`peers, peers`sendDp, relaySinks`dpSink
    {
      && (forall p | p in peers ::
            p.relaySink in relaySinks && p.relaySink.dpSink == p.sendDp && (p.sendDp != null ==> p.sendDp in links))
      && (forall p, q | p in peers && q in peers && p != q && p.sendDp != null :: p.sendDp != q.sendDp)
    }

    ghost function RelaySinks(): set<RelaySink>
      reads this`peers
    {
      set p | p in peers :: p.relaySink
    }

    ghost function Sources(): set<RelaySource>
      reads this`peers
    {
      set p | p in peers :: p.source
    }

    ghost function LocalFlows(): set<DataProtoFlow>
      reads this`peers
    {
      set p | p in peers :: p.flow
    }

    ghost function Flows(relayFlows: set<RelayFlow>): set<DataProtoFlow>
      reads this`peers
    {
      LocalFlows() + OwnedFlows(relayFlows)
    }

    /** The flows, sources and sinks there are belong each to one peer, but for the flows of the relay router. */
    ghost predicate OwnersOk(flows: set<DataProtoFlow>, relayFlows: set<RelayFlow>)
      reads this`peers, router`sources, router`sinks
    {
      && router.sinks == RelaySinks() && router.sources == Sources() && flows == Flows(relayFlows)
      && (forall p, q | p in peers && q in peers && p != q :: p.flow != q.flow && p.relaySink != q.relaySink && p.source != q.source)
      && (forall p, x | p in peers && x in relayFlows :: x.dpFlow != p.flow)
    }

    ghost predicate NetOk()
      reads this`peers, peers`haveLink, peers`sendDp, peers`relayingPeer
      reads router, router.sources`flows, router.sinks`flows, router.sinks`dpSink
      reads router.net, router.net.flows, router.net.buffers, router.net.sinks
    {
      && router.Valid()
      && TargetsOk(router.net.desired) && LinksOk(router.net.sinks, router.sinks) && OwnersOk(router.net.desired.Keys, router.flows)
    }

    ghost predicate Valid()
      reads this, peers, router, router.sources`flows, router.sinks`flows, router.sinks`dpSink
      reads router.net, router.net.flows, router.net.buffers, router.net.sinks
    {
      ListsOk() && NetOk()
    }

    /** Nobody waits for a relay while there is one. */
    predicate Assigned()
      reads this`waiting, this`relays
    {
      waiting == [] || relays == []
    }

    constructor (router: Router)
      requires router.Valid() && router.sources == {} && router.sinks == {} && router.flows == {} && router.net.desired == map[]
      ensures Valid() && Assigned() && this.router == router && peers == {}
    {
      this.router := router;
      relays, waiting, peers, users, via := [], [], {}, map[], map[];
    }

    /** peer_register_need_relay */
    method RegisterNeedRelay(peer: Peer)
      requires Valid() && peer in peers && !peer.waitingRelay && !peer.haveLink && peer.relayingPeer == null
      modifies this`waiting, peer`waitingRelay
      ensures Valid()
      ensures waiting == old(waiting) + [peer] && peer.waitingRelay
    {
      hide UsersOk, Relaying, RelaysOk, NetOk;
      waiting := waiting + [peer];
      peer.waitingRelay := true;
    }

    /** peer_unregister_need_relay */
    method UnregisterNeedRelay(peer: Peer)
      requires Valid() && peer in peers && peer.waitingRelay
      modifies this`waiting, peer`waitingRelay
      ensures Valid()
      ensures !peer.waitingRelay && peer in old(waiting) && waiting == Remove(old(waiting), peer)
    {
      hide UsersOk, Relaying, RelaysOk, NetOk;
      RemoveKeepsRest(waiting, peer);
      waiting := Remove(waiting, peer);
      peer.waitingRelay := false;
    }

    lemma UserAdded(relay: Peer, peer: Peer)
      requires UsersOk(users, via) && relay in peers && relay.isRelay && peer in peers && via[peer] == null
      ensures UsersOk(users[relay := users[relay] + [peer]], via[peer := relay])
    {
    }

    lemma UserRemoved(relay: Peer, peer: Peer)
      requires UsersOk(users, via) && peer in peers && via[peer] == relay
      ensures relay in peers && peer in users[relay]
      ensures UsersOk(users[relay := Remove(users[relay], peer)], via[peer := null])
    {
      RemoveKeepsRest(users[relay], peer);
    }

    twostate predicate Rewired(w: Wiring)
      reads this`peers, this`users, this`via, peers
    {
      && peers == old(peers) && w.relay in peers && w.peer in peers
      && users == old(users)[w.relay := w.list] && via == old(via)[w.peer := w.to]
      && w.relay.relayUsers == w.list && w.peer.relayingPeer == w.to
      && (forall p | p in peers ::
            && p.haveLink == old(p.haveLink) && p.sendDp == old(p.sendDp) && p.waitingRelay == old(p.waitingRelay) && p.isRelay == old(p.isRelay)
            && (p != w.relay ==> p.relayUsers == old(p.relayUsers)) && (p != w.peer ==> p.relayingPeer == old(p.relayingPeer)))
    }

    twostate lemma StatesRewired(w: Wiring)
      requires Rewired(w) && old(StatesOk()) && !w.peer.waitingRelay && !w.peer.haveLink
      ensures StatesOk()
    {
      assert forall p | p in peers :: old(p.StateOk());
    }

    twostate lemma RelayingRewired(w: Wiring)
      requires Rewired(w) && old(Relaying())
      ensures Relaying()
    {
    }

    twostate lemma RestRewired(w: Wiring)
      requires Rewired(w) && old(WaitingOk()) && old(RelaysOk()) && waiting == old(waiting) && relays == old(relays)
      requires old(UsersOk(users[w.relay := w.list], via[w.peer := w.to]))
      ensures WaitingOk() && RelaysOk() && UsersOk(users, via)
    {
    }

    /** Gives a relay another list of users, and one peer, with neither link nor wait, another relay. */
    method Rewire(relay: Peer, list: seq<Peer>, peer: Peer, to: Peer?)
      requires ListsOk() && relay in peers && peer in peers && !peer.waitingRelay && !peer.haveLink
      requires UsersOk(users[relay := list], via[peer := to])
      modifies this`users, this`via, peer`relayingPeer, relay`relayUsers
      ensures ListsOk() && peer.relayingPeer == to
      ensures users == old(users)[relay := list] && via == old(via)[peer := to]
    {
      hide StatesOk, WaitingOk, RelaysOk, UsersOk, Relaying;
      relay.relayUsers := list;
      peer.relayingPeer := to;
      users, via := users[relay := list], via[peer := to];
      StatesRewired(Wiring(relay, list, peer, to));
      RelayingRewired(Wiring(relay, list, peer, to));
      RestRewired(Wiring(relay, list, peer, to));
    }

    /** A peer starts to be relayed for. */
    method AddUser(relay: Peer, peer: Peer)
      requires ListsOk() && relay in peers && peer in peers
      requires relay.isRelay && !peer.waitingRelay && !peer.haveLink && peer.relayingPeer == null
      modifies this`users, this`via, peer`relayingPeer, relay`relayUsers
      ensures ListsOk() && peer.relayingPeer == relay
      ensures relay in old(users) && users == old(users)[relay := old(users)[relay] + [peer]] && via == old(via)[peer := relay]
    {
      hide WaitingOk, RelaysOk, UsersOk, StatesOk;
      UserAdded(relay, peer);
      Rewire(relay, relay.relayUsers + [peer], peer, relay);
    }

    /** A peer stops being relayed for. */
    method RemoveUser(relay: Peer, peer: Peer)
      requires ListsOk() && peer in peers && peer.relayingPeer == relay && peer.StateOk()
      modifies this`users, this`via, peer`relayingPeer, relay`relayUsers
      ensures ListsOk() && peer.relayingPeer == null
      ensures relay in peers && relay in old(users) && peer in old(users)[relay]
      ensures users == old(users)[relay := Remove(old(users)[relay], peer)] && via == old(via)[peer := null]
    {
      hide WaitingOk, RelaysOk, UsersOk, StatesOk, Remove;
      UserRemoved(relay, peer);
      Rewire(relay, Remove(relay.relayUsers, peer), peer, null);
    }

    /** What is known of one peer. */
    lemma AboutPeer(peer: Peer)
      requires Valid() && peer in peers
      ensures router.NotOurs(peer.flow) && peer.flow in router.net.desired
      ensures peer.StateOk() && router.net.desired[peer.flow] == peer.Target()
      ensures peer.sendDp != null ==> peer.sendDp in router.net.sinks
      ensures peer.relaySink in router.sinks && peer.source in router.sources && peer.relaySink.dpSink == peer.sendDp
      ensures var r := peer.relayingPeer;
        r != null ==> r in peers && r.isRelay && r.StateOk() && r.sendDp != null && peer in r.relayUsers
    {
      hide WaitingOk, RelaysOk, Router.Valid;
    }

    /** TargetsOk, but for one peer. */
    ghost predicate OthersReached(peer: Peer, desired: map<DataProtoFlow, DataProtoSink?>)
      reads this`peers
      reads peers`sendDp, (peers - {peer})`haveLink, (peers - {peer})`relayingPeer
    {
      forall p | p in peers && p != peer ::
        && (p.relayingPeer != null ==> p.relayingPeer in peers)
        && p.flow in desired && desired[p.flow] == p.Target()
    }

    lemma MovePeer(peer: Peer, dpSink: DataProtoSink?)
      requires TargetsOk(router.net.desired) && OwnersOk(router.net.desired.Keys, router.flows) && peer in peers
      ensures OthersReached(peer, router.net.desired[peer.flow := dpSink])
      ensures router.net.desired[peer.flow := dpSink].Keys == router.net.desired.Keys
    {
      hide RelaySinks, Sources, Flows;
    }

    lemma AllReached(peer: Peer, desired: map<DataProtoFlow, DataProtoSink?>)
      requires peer in peers && OthersReached(peer, desired) && (peer.relayingPeer != null ==> peer.relayingPeer in peers)
      requires peer.flow in desired && desired[peer.flow] == peer.Target()
      ensures TargetsOk(desired)
    {
    }

    /** All is well, but a peer's flow has been moved ahead of its state. */
    ghost predicate Moved(peer: Peer, dpSink: DataProtoSink?)
      reads this`peers, peers`haveLink, peers`sendDp, (peers - {peer})`relayingPeer
      reads router, router.sources`flows, router.sinks`flows, router.sinks`dpSink
      reads router.net, router.net.flows, router.net.buffers, router.net.sinks
    {
      && peer in peers
      && router.Valid() && LinksOk(router.net.sinks, router.sinks) && OwnersOk(router.net.desired.Keys, router.flows)
      && OthersReached(peer, router.net.desired)
      && peer.flow in router.net.desired && router.net.desired[peer.flow] == dpSink
    }

    lemma Reached(peer: Peer)
      requires Moved(peer, peer.Target()) && (peer.relayingPeer != null ==> peer.relayingPeer in peers)
      ensures NetOk()
    {
      hide Router.Valid, LinksOk, OwnersOk;
    }

    method AttachFlow(peer: Peer, dpSink: DataProtoSink)
      requires Valid() && peer in peers && peer.Target() == null && dpSink in router.net.sinks
      modifies router.DataProtoObjects()
      ensures ListsOk() && Moved(peer, dpSink)
      ensures SameNet()
    {
      hide ListsOk, OthersReached, TargetsOk, LinksOk, OwnersOk, Router.Valid, Router.DataProtoObjects;
      NetApart();
      AboutPeer(peer);
      MovePeer(peer, dpSink);
      router.AttachOther(peer.flow, dpSink);
    }

    method DetachFlow(peer: Peer)
      requires Valid() && peer in peers && peer.Target() != null
      modifies router.DataProtoObjects()
      ensures ListsOk() && Moved(peer, null)
      ensures SameNet()
    {
      hide ListsOk, OthersReached, TargetsOk, LinksOk, OwnersOk, Router.Valid, Router.DataProtoObjects;
      NetApart();
      AboutPeer(peer);
      MovePeer(peer, null);
      router.DetachOther(peer.flow);
    }

    /** peer_install_relaying */
    method InstallRelaying(peer: Peer, relay: Peer)
      requires Valid() && peer in peers && relay in peers
      requires relay.isRelay && !peer.waitingRelay && !peer.haveLink && peer.relayingPeer == null
      modifies this`users, this`via, peer`relayingPeer, relay`relayUsers, router.DataProtoObjects()
      ensures Valid()
      ensures relay in old(users) && users == old(users)[relay := old(users)[relay] + [peer]] && via == old(via)[peer := relay]
      ensures SameNet()
    {
      hide ListsOk, Moved, NetOk;
      AboutPeer(relay);
      AttachFlow(peer, relay.sendDp);
      AddUser(relay, peer);
      Reached(peer);
    }

    /** peer_free_relaying */
    method FreeRelaying(peer: Peer)
      requires Valid() && peer in peers && peer.relayingPeer != null
      modifies this`users, this`via, peer`relayingPeer, peer.relayingPeer`relayUsers, router.DataProtoObjects()
      ensures Valid() && peer.relayingPeer == null
      ensures var relay := old(peer.relayingPeer);
        && relay in old(users) && peer in old(users)[relay]
        && users == old(users)[relay := Remove(old(users)[relay], peer)] && via == old(via)[peer := null]
      ensures SameNet()
    {
      hide ListsOk, Moved, NetOk;
      AboutPeer(peer);
      DetachFlow(peer);
      RemoveUser(peer.relayingPeer, peer);
      Reached(peer);
    }

    /** The sets of flows and of buffers have not changed. */
    twostate predicate SameFlows()
      reads router.net`flows, router.net`buffers
    {
      router.net.flows == old(router.net.flows) && router.net.buffers == old(router.net.buffers)
    }

    /** Nor has the set of sinks. */
    twostate predicate SameNet()
      reads router.net`flows, router.net`buffers, router.net`sinks
    {
      SameFlows() && router.net.sinks == old(router.net.sinks)
    }

    twostate lemma NetStays()
      requires SameNet()
      ensures router.DataProtoObjects() == old(router.DataProtoObjects())
    {
    }

    /** What belongs to the net is no peer, and nothing else of the client. */
    lemma NetApart()
      ensures this !in router.DataProtoObjects() && router !in router.DataProtoObjects() && router.net in router.DataProtoObjects()
      ensures forall p | p in peers :: p !in router.DataProtoObjects()
      ensures forall k | k in router.sinks :: k !in router.DataProtoObjects()
      ensures forall k | k in router.sources :: k !in router.DataProtoObjects()
    {
    }

    twostate lemma NetGrew(new link: DataProtoSink)
      requires SameFlows() && router.net.sinks == old(router.net.sinks) + {link}
      ensures router.DataProtoObjects() == old(router.DataProtoObjects()) + {link}
    {
    }

    twostate lemma NetIsLess()
      requires router.net.flows <= old(router.net.flows) && router.net.buffers <= old(router.net.buffers) && router.net.sinks <= old(router.net.sinks)
      ensures router.DataProtoObjects() <= old(router.DataProtoObjects())
    {
    }

    lemma FirstWaiting()
      requires Valid() && waiting != []
      ensures var p := waiting[0]; p in peers && p.waitingRelay && !p.haveLink && p.relayingPeer == null
      ensures Remove(waiting, waiting[0]) == waiting[1..]
    {
      hide RelaysOk, UsersOk, NetOk, Relaying;
      assert waiting[0] in waiting;
    }

    lemma FirstRelay()
      requires Valid() && relays != []
      ensures relays[0] in peers && relays[0].isRelay && relays[0].haveLink
    {
      hide UsersOk, WaitingOk, NetOk, Relaying;
    }

    /** The relay that the next peer to need one gets. */
    function Relay(): Peer?
      reads this`relays
    {
      if relays == [] then null else relays[0]
    }

    lemma KnownPeers()
      requires Valid()
      ensures peers == users.Keys == via.Keys
    {
      hide NetOk, Relaying, StatesOk, WaitingOk, RelaysOk;
    }

    /** One round of the loop of assign_relays. */
    method AssignNext(ghost givers: map<Peer, seq<Peer>>, ghost takers: map<Peer, Peer?>, ghost list: seq<Peer>, ghost i: nat)
      requires Valid() && relays != [] && i < |list| && waiting == list[i..] && givers.Keys == takers.Keys == peers
      requires users == Given(givers, Relay(), list[..i]) && via == Got(takers, Relay(), list[..i])
      modifies this`waiting, this`users, this`via
      modifies peers`waitingRelay, peers`relayingPeer, peers`relayUsers, router.DataProtoObjects()
      ensures Valid() && waiting == list[i + 1..]
      ensures users == Given(givers, Relay(), list[..i + 1]) && via == Got(takers, Relay(), list[..i + 1])
      ensures SameNet()
    {
      hide Valid, Given, Got, Router.DataProtoObjects;
      NetApart();
      FirstRelay();
      FirstWaiting();
      GivenOneMore(givers, takers, relays[0], list, i);
      AssignFirst(waiting[0], relays[0]);
    }

    /** The first that waits gets the first relay. */
    method AssignFirst(peer: Peer, relay: Peer)
      requires Valid() && waiting != [] && peer == waiting[0] && relay == Relay()
      modifies this`waiting, this`users, this`via
      modifies peer`waitingRelay, peer`relayingPeer, relay`relayUsers, router.DataProtoObjects()
      ensures Valid() && waiting == old(waiting)[1..]
      ensures relay in old(users) && users == old(users)[relay := old(users)[relay] + [peer]] && via == old(via)[peer := relay]
      ensures SameNet()
    {
      hide Valid, Router.DataProtoObjects;
      NetApart();
      FirstWaiting();
      FirstRelay();
      UnregisterNeedRelay(peer);
      InstallRelaying(peer, relay);
    }

    /** assign_relays: all that wait, in the order they wait in, get the first relay, if there is one. */
    method AssignRelays()
      requires Valid()
      modifies this`waiting, this`users, this`via
      modifies peers`waitingRelay, peers`relayingPeer, peers`relayUsers, router.DataProtoObjects()
      ensures Valid() && Assigned()
      ensures relays == [] ==> waiting == old(waiting)
      ensures users == Given(old(users), Relay(), old(waiting)) && via == Got(old(via), Relay(), old(waiting))
      ensures relays != [] ==> waiting == [] && users == Given(old(users), relays[0], old(waiting)) && via == Got(old(via), relays[0], old(waiting))
      ensures SameNet()
    {
      hide Valid, Given, Got;
      KnownPeers();
      ghost var list, i: nat := waiting, 0;
      assert list[..0] == [];
      GivenNone(users, via, Relay());
      while waiting != []
        invariant Valid() && i <= |list| && waiting == list[i..]
        invariant relays == [] ==> i == 0
        invariant users == Given(old(users), Relay(), list[..i]) && via == Got(old(via), Relay(), list[..i])
        invariant SameNet()
        decreases |waiting|
      {
        if relays == [] {
          GivenNull(old(users), old(via), list[..i]);
          GivenNull(old(users), old(via), list);
          return;
        }
        AssignNext(old(users), old(via), list, i);
        i := i + 1;
      }
      assert list[..i] == list;
    }

    /** LinksOk, but for one peer, whose link is to be none of the others'. */
    ghost predicate OthersLinked(peer: Peer, links: set<DataProtoSink>, dpSink: DataProtoSink?)
      reads this`peers, (peers - {peer})`sendDp, router`sinks, (router.sinks - {peer.relaySink})`dpSink
    {
      && (forall p | p in peers && p != peer ::
            && p.relaySink in router.sinks && p.relaySink != peer.relaySink && p.relaySink.dpSink == p.sendDp
            && (p.sendDp != null ==> p.sendDp in links && p.sendDp != dpSink))
      && (forall p, q | p in peers - {peer} && q in peers - {peer} && p != q && p.sendDp != null :: p.sendDp != q.sendDp)
    }

    lemma Linked(peer: Peer, links: set<DataProtoSink>)
      requires peer in peers && OthersLinked(peer, links, peer.sendDp)
      requires peer.relaySink in router.sinks && peer.relaySink.dpSink == peer.sendDp && (peer.sendDp != null ==> peer.sendDp in links)
      ensures LinksOk(links, router.sinks)
    {
    }

    /** A link that is new, or that is being dropped, is not shared. */
    lemma OwnLink(peer: Peer, links: set<DataProtoSink>, dpSink: DataProtoSink)
      requires LinksOk(links, router.sinks) && OwnersOk(router.net.desired.Keys, router.flows) && peer in peers
      ensures dpSink !in links ==> OthersLinked(peer, links + {dpSink}, dpSink)
      ensures peer.sendDp == dpSink ==> OthersLinked(peer, links - {dpSink}, null)
    {
      hide RelaySinks, Sources, Flows;
    }

    /** Where the flows to one peer's relay sink go does not concern the local flows. */
    lemma RelayFlowsApart(peer: Peer, desired: map<DataProtoFlow, DataProtoSink?>, dpSink: DataProtoSink?)
      requires router.Valid() && OwnersOk(desired.Keys, router.flows) && OthersReached(peer, desired) && peer in peers && peer.flow in desired
      requires peer.relaySink in router.sinks
      ensures var after := Retarget(desired, DpFlows(peer.relaySink.flows), dpSink);
        after.Keys == desired.Keys && OthersReached(peer, after) && after[peer.flow] == desired[peer.flow]
    {
      hide Net.Valid, Router.OwnersOk, Router.FollowOk, Router.AttachedOk, RelaySinks, Sources, Flows;
      forall p | p in peers
        ensures p.flow !in DpFlows(peer.relaySink.flows)
      {
        forall i | 0 <= i < |peer.relaySink.flows|
          ensures peer.relaySink.flows[i].dpFlow != p.flow
        {
          router.OfItsSink(peer.relaySink, i);
        }
      }
    }

    /** All is well with the flows and sinks, but for the link of one peer. */
    ghost predicate Relinking(peer: Peer, links: set<DataProtoSink>, link: DataProtoSink?)
      reads this`peers, peers`sendDp, (peers - {peer})`haveLink, (peers - {peer})`relayingPeer
      reads router, router.sources`flows, router.sinks`flows, router.sinks`dpSink
      reads router.net, router.net.flows, router.net.buffers, router.net.sinks
    {
      && peer in peers && peer.relaySink in router.sinks
      && router.Valid() && OwnersOk(router.net.desired.Keys, router.flows)
      && OthersReached(peer, router.net.desired) && OthersLinked(peer, links, link)
      && peer.flow in router.net.desired
    }

    lemma AtLink(peer: Peer)
      requires Relinking(peer, router.net.sinks, peer.sendDp) && peer.relaySink.dpSink == peer.sendDp
      requires router.net.desired[peer.flow] == peer.Target()
      requires peer.sendDp != null ==> peer.sendDp in router.net.sinks
      requires peer.relayingPeer != null ==> peer.relayingPeer in peers
      ensures NetOk()
    {
      hide Router.Valid, OwnersOk, OthersReached, OthersLinked;
      AllReached(peer, router.net.desired);
      Linked(peer, router.net.sinks);
    }

    /** The local flow of a peer that has no link is attached to a new one. */
    method OpenLink(peer: Peer) returns (link: DataProtoSink)
      requires Valid() && peer in peers && peer.sendDp == null && peer.Target() == null
      modifies router.DataProtoObjects()
      ensures ListsOk() && Relinking(peer, router.net.sinks, link)
      ensures fresh(link) && link in router.net.sinks && peer.relaySink.dpSink == null && router.net.desired[peer.flow] == link
      ensures SameFlows() && router.net.sinks == old(router.net.sinks) + {link}
    {
      hide ListsOk, TargetsOk, OthersReached, LinksOk, OthersLinked, OwnersOk, Router.Valid, Router.DataProtoObjects;
      NetApart();
      AboutPeer(peer);
      ghost var links := router.net.sinks;
      link := router.NewDpSink();
      NetGrew(link);
      OwnLink(peer, links, link);
      MovePeer(peer, link);
      router.AttachOther(peer.flow, link);
    }

    /** So is the sink for what is relayed to the peer. */
    method AttachRelaySink(peer: Peer, link: DataProtoSink)
      requires Relinking(peer, router.net.sinks, link) && peer.relaySink.dpSink == null && link in router.net.sinks
      modifies peer.relaySink`dpSink, router.DataProtoObjects()
      ensures Relinking(peer, router.net.sinks, link) && peer.relaySink.dpSink == link
      ensures router.net.desired[peer.flow] == old(router.net.desired)[peer.flow]
      ensures SameNet()
    {
      hide OthersReached, OthersLinked, OwnersOk, Router.Valid, Retarget, DpFlows, Router.DataProtoObjects;
      NetApart();
      RelayFlowsApart(peer, router.net.desired, link);
      router.SinkAttach(peer.relaySink, link);
    }

    method AttachPeer(peer: Peer) returns (link: DataProtoSink)
      requires Valid() && peer in peers && peer.sendDp == null && peer.Target() == null
      modifies peer.relaySink`dpSink, router.DataProtoObjects()
      ensures ListsOk() && Relinking(peer, router.net.sinks, link)
      ensures fresh(link) && link in router.net.sinks && peer.relaySink.dpSink == link && router.net.desired[peer.flow] == link
      ensures SameFlows() && router.net.sinks == old(router.net.sinks) + {link}
    {
      hide ListsOk, NetOk, Relinking, Router.DataProtoObjects;
      NetApart();
      link := OpenLink(peer);
      NetGrew(link);
      AttachRelaySink(peer, link);
    }

    /** peer_init_link, where the transport may fail to set up its part. */
    method InitLink(peer: Peer, transport: bool) returns (ok: bool)
      requires Valid() && peer in peers && !peer.haveLink && peer.relayingPeer == null && !peer.waitingRelay
      modifies peer`haveLink, peer`sendDp, peer.relaySink`dpSink, router.DataProtoObjects()
      ensures Valid()
      ensures ok == transport == peer.haveLink
      ensures ok ==> fresh(peer.sendDp)
      ensures SameFlows() && router.net.sinks == old(router.net.sinks) + peer.Links()
    {
      hide ListsOk, NetOk, Relinking;
      AboutPeer(peer);
      if !transport {
        return false;
      }
      var link := AttachPeer(peer);
      SetLink(peer, link);
      return true;
    }

    lemma NobodyVia(peer: Peer)
      requires ListsOk() && peer in peers && !peer.isRelay
      ensures forall p | p in peers :: p.relayingPeer != peer
    {
      hide StatesOk, WaitingOk, RelaysOk;
    }

    method SetLink(peer: Peer, link: DataProtoSink?)
      requires ListsOk() && Relinking(peer, router.net.sinks, link) && peer.relaySink.dpSink == link && router.net.desired[peer.flow] == link
      requires !peer.isRelay && peer.relayingPeer == null && !peer.waitingRelay && (link != null ==> link in router.net.sinks)
      modifies peer`haveLink, peer`sendDp
      ensures Valid() && peer.sendDp == link && peer.haveLink == (link != null)
    {
      hide WaitingOk, RelaysOk, UsersOk, Relaying, NetOk, Router.Valid, OwnersOk, OthersLinked;
      NobodyVia(peer);
      peer.haveLink, peer.sendDp := link != null, link;
      AtLink(peer);
    }

    lemma OnlyOwnLocalFlow(peer: Peer, p: Peer)
      requires Valid() && peer in peers && peer.haveLink && !peer.isRelay && p in peers
      requires p.flow in router.net.desired && router.net.desired[p.flow] == peer.sendDp
      ensures p == peer
    {
      hide WaitingOk, RelaysOk, Router.Valid, OwnersOk;
      NobodyVia(peer);
      assert p.Target() == peer.sendDp;
    }

    lemma OnlyOwnRelayFlow(peer: Peer, x: RelayFlow)
      requires Valid() && peer in peers && peer.haveLink && x in router.flows
      requires x.dpFlow in router.net.desired && router.net.desired[x.dpFlow] == peer.sendDp
      ensures x in peer.relaySink.flows
    {
      hide ListsOk, Net.Valid, Router.OwnersOk, Router.AttachedOk, TargetsOk, LinksOk, OwnersOk;
      assert router.FollowsSink(x, router.net.desired);
      router.InItsLists(x);
      OnlyOwnSink(peer, x.sink);
    }

    /** Only the peer's own flow and the flows to its relay sink are meant for a link that is not a relay's. */
    lemma OnlyOwnFlows(peer: Peer, f: DataProtoFlow)
      requires Valid() && peer in peers && peer.haveLink && !peer.isRelay
      requires f in router.net.desired && router.net.desired[f] == peer.sendDp
      ensures f == peer.flow || f in DpFlows(peer.relaySink.flows)
    {
      hide ListsOk, Router.Valid, TargetsOk, LinksOk;
      if p :| p in peers && p.flow == f {
        OnlyOwnLocalFlow(peer, p);
      } else {
        assert f in OwnedFlows(router.flows);
        var x :| x in router.flows && x.dpFlow == f;
        OnlyOwnRelayFlow(peer, x);
      }
    }

    lemma OnlyOwnSink(peer: Peer, k: RelaySink)
      requires Valid() && peer in peers && peer.haveLink && k in router.sinks && k.dpSink == peer.sendDp
      ensures k == peer.relaySink
    {
      hide ListsOk, TargetsOk, Router.Valid;
      AboutPeer(peer);
      assert k in RelaySinks();
    }

    lemma Unlinking(peer: Peer)
      requires Valid() && peer in peers && peer.haveLink
      ensures Relinking(peer, router.net.sinks - {peer.sendDp}, null)
    {
      hide ListsOk, TargetsOk, OthersReached, OthersLinked, LinksOk, OwnersOk, Router.Valid;
      AboutPeer(peer);
      OwnLink(peer, router.net.sinks, peer.sendDp);
      MovePeer(peer, peer.sendDp);
      assert router.net.desired[peer.flow := peer.sendDp] == router.net.desired;
    }

    method DetachRelaySink(peer: Peer, ghost links: set<DataProtoSink>)
      requires Relinking(peer, links, null) && peer.relaySink.dpSink != null
      modifies peer.relaySink`dpSink, router.DataProtoObjects()
      ensures Relinking(peer, links, null) && peer.relaySink.dpSink == null
      ensures router.net.desired == Retarget(old(router.net.desired), DpFlows(peer.relaySink.flows), null)
      ensures router.net.desired[peer.flow] == old(router.net.desired)[peer.flow]
      ensures SameNet()
    {
      hide OthersReached, OthersLinked, OwnersOk, Router.Valid, Retarget, DpFlows, Router.DataProtoObjects;
      NetApart();
      RelayFlowsApart(peer, router.net.desired, null);
      router.SinkDetach(peer.relaySink);
    }

    lemma OwnFlowApart(peer: Peer, desired: map<DataProtoFlow, DataProtoSink?>)
      requires OwnersOk(desired.Keys, router.flows) && OthersReached(peer, desired) && peer in peers && peer.flow in desired
      ensures OthersReached(peer, desired[peer.flow := null]) && desired[peer.flow := null].Keys == desired.Keys
      ensures router.NotOurs(peer.flow)
    {
      hide RelaySinks, Sources, Flows;
    }

    method DetachOwnFlow(peer: Peer, ghost links: set<DataProtoSink>)
      requires Relinking(peer, links, null) && router.net.desired[peer.flow] != null
      modifies router.DataProtoObjects()
      ensures Relinking(peer, links, null)
      ensures router.net.desired == old(router.net.desired)[peer.flow := null]
      ensures SameNet()
    {
      hide OthersReached, OthersLinked, OwnersOk, Router.Valid;
      OwnFlowApart(peer, router.net.desired);
      router.DetachOther(peer.flow);
    }

    method FreeSink(peer: Peer, link: DataProtoSink)
      requires Relinking(peer, router.net.sinks - {link}, null) && link in router.net.sinks
      requires forall f | f in router.net.desired :: router.net.desired[f] != link
      requires forall k | k in router.sinks :: k.dpSink != link
      modifies router.DataProtoObjects()
      ensures Relinking(peer, router.net.sinks, null)
      ensures router.net.sinks == old(router.net.sinks) - {link} && router.net.desired == old(router.net.desired)
      ensures router.net.flows == old(router.net.flows) && router.net.buffers <= old(router.net.buffers)
    {
      hide OthersReached, OthersLinked, OwnersOk, Router.Valid;
      router.FreeDpSink(link);
    }

    /** The peer's own flow and those relayed to it are meant for no sink, and all others for the same as before. */
    twostate predicate FlowsDetached(peer: Peer)
      reads router.net`desired, peer.relaySink`flows
    {
      router.net.desired == Retarget(old(router.net.desired), DpFlows(peer.relaySink.flows), null)[peer.flow := null]
    }

    /** What becomes of the flows and sinks: the peer's link is gone, and no other. */
    twostate predicate LinkGone(peer: Peer)
      reads router.net`flows, router.net`buffers, router.net`sinks
    {
      && router.net.sinks == old(router.net.sinks) - old(peer.Links())
      && router.net.flows == old(router.net.flows) && router.net.buffers <= old(router.net.buffers)
    }

    predicate Unreached(peer: Peer)
      reads peer`haveLink, peer`relayingPeer, peer`waitingRelay, peer`isRelay
    {
      !peer.haveLink && peer.relayingPeer == null && !peer.waitingRelay && !peer.isRelay
    }

    /** The flows that are meant for the link of a peer that is no relay are detached, and then the sink is freed. */
    method DropLink(peer: Peer, link: DataProtoSink)
      requires Valid() && peer in peers && peer.haveLink && !peer.isRelay && link == peer.sendDp
      modifies peer.relaySink`dpSink, router.DataProtoObjects()
      ensures ListsOk() && Relinking(peer, router.net.sinks, null) && peer.relaySink.dpSink == null
      ensures router.net.desired[peer.flow] == null && FlowsDetached(peer)
      ensures router.net.sinks == old(router.net.sinks) - {link}
      ensures router.net.flows == old(router.net.flows) && router.net.buffers <= old(router.net.buffers)
    {
      hide ListsOk, NetOk, Relinking, DpFlows, Router.DataProtoObjects;
      NetApart();
      AboutPeer(peer);
      Unlinking(peer);
      forall f | f in router.net.desired && router.net.desired[f] == link
        ensures f == peer.flow || f in DpFlows(peer.relaySink.flows)
      {
        OnlyOwnFlows(peer, f);
      }
      forall k | k in router.sinks && k.dpSink == link
        ensures k == peer.relaySink
      {
        OnlyOwnSink(peer, k);
      }
      ghost var links := router.net.sinks - {link};
      DetachRelaySink(peer, links);
      NetStays();
      DetachOwnFlow(peer, links);
      NetStays();
      FreeSink(peer, link);
    }

    /** peer_free_link: when the link of a peer goes, no flow is meant for it any more. */
    method FreeLink(peer: Peer)
      requires Valid() && peer in peers && peer.haveLink && !peer.isRelay
      modifies peer`haveLink, peer`sendDp, peer.relaySink`dpSink, router.DataProtoObjects()
      ensures Valid() && Unreached(peer) && LinkGone(peer) && FlowsDetached(peer)
    {
      hide ListsOk, NetOk, Relinking, FlowsDetached;
      AboutPeer(peer);
      DropLink(peer, peer.sendDp);
      SetLink(peer, null);
    }

    /** One peer has become, or stopped being, a relay; it has no users. */
    twostate predicate Switched(peer: Peer)
      reads this`peers, this`users, this`via, peers
    {
      && peers == old(peers) && peer in peers && peer.isRelay != old(peer.isRelay)
      && users == old(users)[peer := []] && via == old(via) && peer.relayUsers == []
      && (forall p | p in peers ::
            && p.haveLink == old(p.haveLink) && p.sendDp == old(p.sendDp) && p.relayingPeer == old(p.relayingPeer)
            && p.waitingRelay == old(p.waitingRelay)
            && (p != peer ==> p.isRelay == old(p.isRelay) && p.relayUsers == old(p.relayUsers)))
    }

    twostate lemma StatesSwitched(peer: Peer)
      requires Switched(peer) && old(StatesOk()) && peer.haveLink
      ensures StatesOk()
    {
    }

    twostate lemma UsersSwitched(peer: Peer)
      requires Switched(peer) && old(UsersOk(users, via)) && (old(peer.isRelay) ==> old(users)[peer] == [])
      ensures UsersOk(users, via)
    {
    }

    twostate lemma RelayingSwitched(peer: Peer)
      requires Switched(peer) && old(Relaying())
      ensures Relaying()
    {
    }

    twostate lemma RelaysSwitched(peer: Peer)
      requires Switched(peer) && old(RelaysOk())
      requires if peer.isRelay then relays == old(relays) + [peer] else peer in old(relays) && relays == Remove(old(relays), peer)
      ensures RelaysOk()
    {
      hide Remove;
      if !peer.isRelay {
        RemoveKeepsRest(old(relays), peer);
      }
    }

    /** The switch itself, which concerns nothing of the net. */
    method Switch(peer: Peer, on: bool, list: seq<Peer>)
      requires peer in peers && peer.isRelay != on && peer in users
      modifies this`relays, this`users, peer`isRelay, peer`relayUsers
      ensures Switched(peer) && peer.isRelay == on && relays == list
    {
      relays, users := list, users[peer := []];
      peer.isRelay, peer.relayUsers := on, [];
    }

    /** A linked peer joins the relays, and has no users yet. */
    method MarkRelay(peer: Peer)
      requires Valid() && peer in peers && peer.haveLink && !peer.isRelay
      modifies this`relays, this`users, peer`isRelay, peer`relayUsers
      ensures Valid() && peer.isRelay
      ensures relays == old(relays) + [peer] && users == old(users)[peer := []]
    {
      hide StatesOk, WaitingOk, RelaysOk, UsersOk, Relaying, NetOk;
      UsersField(peer);
      Switch(peer, true, relays + [peer]);
      ListsSwitched(peer);
    }

    twostate lemma ListsSwitched(peer: Peer)
      requires Switched(peer) && old(ListsOk()) && peer.haveLink && (old(peer.isRelay) ==> old(users)[peer] == []) && waiting == old(waiting)
      requires if peer.isRelay then relays == old(relays) + [peer] else peer in old(relays) && relays == Remove(old(relays), peer)
      ensures ListsOk()
    {
      hide StatesOk, WaitingOk, RelaysOk, UsersOk, Relaying, Remove;
      StatesSwitched(peer);
      UsersSwitched(peer);
      RelayingSwitched(peer);
      RelaysSwitched(peer);
      WaitingSwitched(peer);
    }

    twostate lemma WaitingSwitched(peer: Peer)
      requires Switched(peer) && old(WaitingOk()) && waiting == old(waiting)
      ensures WaitingOk()
    {
    }

    /** A relay that has no users left leaves the relays. */
    method UnmarkRelay(peer: Peer)
      requires Valid() && peer in peers && peer.isRelay && peer.relayUsers == []
      modifies this`relays, this`users, peer`isRelay, peer`relayUsers
      ensures Valid() && !peer.isRelay && users == old(users)
      ensures peer in old(relays) && relays == Remove(old(relays), peer)
    {
      hide StatesOk, WaitingOk, RelaysOk, UsersOk, Relaying, NetOk, Remove;
      UsersField(peer);
      State(peer);
      RelayListed(peer);
      assert users == users[peer := []];
      Switch(peer, false, Remove(relays, peer));
      ListsSwitched(peer);
    }

    /** peer_enable_relay_provider */
    method EnableRelayProvider(peer: Peer)
      requires Valid() && Assigned() && peer in peers && peer.haveLink && !peer.isRelay
      modifies this`relays, this`waiting, this`users, this`via, peer`isRelay
      modifies peers`waitingRelay, peers`relayingPeer, peers`relayUsers, router.DataProtoObjects()
      ensures Valid() && Assigned() && peer.isRelay
      ensures relays == old(relays) + [peer] && waiting == []
      ensures users == old(users)[peer := old(waiting)]
      ensures via == Got(old(via), peer, old(waiting))
      ensures SameNet()
    {
      hide Valid, Given, Got, Router.DataProtoObjects;
      NetApart();
      GivenFirst(users, peer, waiting);
      GivenNone(users[peer := []], via, Relay());
      GivenNone(users, via, peer);
      MarkRelay(peer);
      AssignRelays();
    }

    lemma FirstUser(peer: Peer)
      requires Valid() && peer in peers && peer.isRelay && peer.relayUsers != []
      ensures var u := peer.relayUsers[0]; u in peers && u.relayingPeer == peer && u in via && !u.haveLink && !u.waitingRelay && !u.isRelay
      ensures Remove(peer.relayUsers, peer.relayUsers[0]) == peer.relayUsers[1..]
    {
      hide WaitingOk, RelaysOk, NetOk;
    }

    lemma UsersField(peer: Peer)
      requires Valid() && peer in peers
      ensures peer in users && users[peer] == peer.relayUsers && peer in via && via[peer] == peer.relayingPeer
      ensures peer.relayingPeer != null ==> peer.relayingPeer in peers
    {
      hide WaitingOk, RelaysOk, NetOk;
    }

    /** One round of the loop of peer_disable_relay_provider: a user goes from its relay to the waiting peers. */
    method DropUser(relay: Peer, user: Peer)
      requires Valid() && relay in peers && relay.isRelay && relay.relayUsers != [] && user == relay.relayUsers[0]
      modifies this`waiting, this`users, this`via
      modifies user`waitingRelay, user`relayingPeer, relay`relayUsers, router.DataProtoObjects()
      ensures Valid() && user in old(via)
      ensures relay in old(users) && old(users)[relay] == old(relay.relayUsers)
      ensures users == old(users)[relay := old(relay.relayUsers)[1..]] && relay.relayUsers == old(relay.relayUsers)[1..]
      ensures via == old(via)[user := null] && waiting == old(waiting) + [user]
      ensures SameNet()
    {
      hide Valid, Remove, Router.DataProtoObjects;
      NetApart();
      FirstUser(relay);
      UsersField(relay);
      FreeRelaying(user);
      NetStays();
      RegisterNeedRelay(user);
      UsersField(relay);
    }

    method DropNext(relay: Peer, ghost givers: map<Peer, seq<Peer>>, ghost takers: map<Peer, Peer?>, ghost others: seq<Peer>,
                    ghost list: seq<Peer>, ghost i: nat)
      requires Valid() && relay in peers && relay.isRelay && i < |list| && relay.relayUsers == list[i..]
      requires users == givers[relay := list[i..]] && via == Lost(takers, list[..i]) && waiting == others + list[..i]
      modifies this`waiting, this`users, this`via
      modifies peers`waitingRelay, peers`relayingPeer, relay`relayUsers, router.DataProtoObjects()
      ensures Valid() && relay.relayUsers == list[i + 1..]
      ensures users == givers[relay := list[i + 1..]] && via == Lost(takers, list[..i + 1]) && waiting == others + list[..i + 1]
      ensures SameNet()
    {
      hide Valid, Lost;
      FirstUser(relay);
      LostOneMore(takers, list, i);
      DropUser(relay, relay.relayUsers[0]);
    }

    method DropUsers(relay: Peer)
      requires Valid() && relay in peers && relay.isRelay
      modifies this`waiting, this`users, this`via
      modifies peers`waitingRelay, peers`relayingPeer, relay`relayUsers, router.DataProtoObjects()
      ensures Valid() && relay.relayUsers == []
      ensures relay in old(users) && users == old(users)[relay := []] && via == Lost(old(via), old(users)[relay])
      ensures waiting == old(waiting) + old(users)[relay]
      ensures SameNet()
    {
      hide Valid, Lost, Router.DataProtoObjects;
      NetApart();
      UsersField(relay);
      ghost var list, i: nat := relay.relayUsers, 0;
      LostNone(via, list);
      while relay.relayUsers != []
        invariant Valid() && i <= |list| && relay.relayUsers == list[i..]
        invariant users == old(users)[relay := list[i..]] && via == Lost(old(via), list[..i])
        invariant waiting == old(waiting) + list[..i]
        invariant SameNet()
        decreases |relay.relayUsers|
      {
        NetStays();
        DropNext(relay, old(users), old(via), old(waiting), list, i);
        i := i + 1;
      }
      assert list[..i] == list && list[i..] == [];
    }

    /** The users of a relay that is none any more get the first other relay or, in the same order, wait. */
    twostate predicate PassedOn(peer: Peer)
      reads this`relays, this`waiting, this`users, this`via
    {
      && peer in old(relays) && relays == Remove(old(relays), peer)
      && peer in old(users) && (relays == [] ==> waiting == old(users)[peer])
      && users == Given(old(users)[peer := []], Relay(), old(users)[peer])
      && via == Got(Lost(old(via), old(users)[peer]), Relay(), old(users)[peer])
    }

    /** A relay lets its users wait, and is none any more. */
    method Retire(peer: Peer)
      requires Valid() && Assigned() && peer in peers && peer.isRelay
      modifies this`relays, this`waiting, this`users, this`via, peer`isRelay
      modifies peers`waitingRelay, peers`relayingPeer, peer`relayUsers, router.DataProtoObjects()
      ensures Valid() && !peer.isRelay && Retired(peer) && SameNet()
    {
      hide Valid, Lost, Remove, Router.DataProtoObjects;
      NetApart();
      RelayListed(peer);
      UsersField(peer);
      assert waiting + users[peer] == users[peer];
      DropUsers(peer);
      UnmarkRelay(peer);
    }

    twostate predicate Retired(peer: Peer)
      reads this`relays, this`waiting, this`users, this`via
    {
      && peer in old(relays) && relays == Remove(old(relays), peer)
      && peer in old(users) && waiting == old(users)[peer] && users == old(users)[peer := []]
      && via == Lost(old(via), old(users)[peer])
    }

    /** peer_disable_relay_provider: its users get another relay, if there is one. */
    method DisableRelayProvider(peer: Peer)
      requires Valid() && Assigned() && peer in peers && peer.isRelay
      modifies this`relays, this`waiting, this`users, this`via, peer`isRelay
      modifies peers`waitingRelay, peers`relayingPeer, peers`relayUsers, router.DataProtoObjects()
      ensures Valid() && Assigned() && !peer.isRelay && PassedOn(peer) && SameNet()
      ensures relays != [] ==> waiting == [] && via == Got(Lost(old(via), old(users)[peer]), relays[0], old(users)[peer])
    {
      hide Valid, Given, Got, Lost, Remove, Router.DataProtoObjects;
      NetApart();
      Retire(peer);
      NetStays();
      AssignRelays();
    }

    lemma RelayListed(peer: Peer)
      requires Valid() && peer in peers && peer.isRelay
      ensures peer in relays
    {
      hide StatesOk, WaitingOk, UsersOk, Relaying, NetOk;
    }

    /**
     * What becomes of the lists when a peer is no longer reached: it is no relay any more and does not
     * wait, and those it relayed for go to the first other relay or, in the same order, wait.
     */
    twostate predicate GaveUp(peer: Peer)
      reads this`relays, this`waiting, this`via
    {
      && (old(peer.isRelay) ==> peer in old(relays) && peer in old(users))
      && (old(peer.waitingRelay) ==> peer in old(waiting))
      && relays == (if old(peer.isRelay) then Remove(old(relays), peer) else old(relays))
      && waiting == (if old(peer.isRelay) && relays == [] then old(users)[peer]
                     else if old(peer.waitingRelay) then Remove(old(waiting), peer) else old(waiting))
      && via == if old(peer.isRelay) then Got(Lost(old(via), old(users)[peer]), Relay(), old(users)[peer]) else old(via)[peer := null]
    }

    /** A relay loses its link, and those it relayed for go elsewhere. */
    method UnlinkRelay(peer: Peer)
      requires Valid() && Assigned() && peer in peers && peer.haveLink && peer.isRelay && !peer.waitingRelay
      modifies this`relays, this`waiting, this`users, this`via, peer`haveLink, peer`sendDp, peer`isRelay, peer.relaySink`dpSink
      modifies peers`waitingRelay, peers`relayingPeer, peers`relayUsers, router.DataProtoObjects()
      ensures Valid() && Assigned() && Unreached(peer) && GaveUp(peer) && LinkGone(peer)
    {
      hide Valid, Got, Lost, Given, Remove, Peer.Links, FlowsDetached, Router.DataProtoObjects;
      NetApart();
      DisableRelayProvider(peer);
      NetStays();
      FreeLink(peer);
    }

    /** A linked peer loses its link. */
    method Unlink(peer: Peer)
      requires Valid() && Assigned() && peer in peers && peer.haveLink && !peer.waitingRelay && via == via[peer := null]
      modifies this`relays, this`waiting, this`users, this`via, peer`haveLink, peer`sendDp, peer`isRelay, peer.relaySink`dpSink
      modifies peers`waitingRelay, peers`relayingPeer, peers`relayUsers, router.DataProtoObjects()
      ensures Valid() && Assigned() && Unreached(peer) && GaveUp(peer) && LinkGone(peer)
    {
      hide Valid, LinkGone, FlowsDetached;
      if peer.isRelay {
        hide GaveUp;
        UnlinkRelay(peer);
      } else {
        FreeLink(peer);
      }
    }

    lemma WhenUnrelayed(peer: Peer)
      requires Valid() && peer in peers
      ensures peer.relayingPeer == null ==> via == via[peer := null]
      ensures peer.haveLink ==> peer.relayingPeer == null && !peer.waitingRelay
      ensures peer.relayingPeer != null ==> peer.relayingPeer in peers && !peer.waitingRelay
      ensures peer.isRelay ==> peer.haveLink
      ensures peer.haveLink <==> peer.sendDp != null
    {
      hide Valid;
      State(peer);
      UsersField(peer);
    }

    /** A peer that has no link leaves its relay, or does not wait any more. */
    method LeaveRelay(peer: Peer)
      requires Valid() && Assigned() && peer in peers && !peer.haveLink
      modifies this`waiting, this`users, this`via
      modifies peers`waitingRelay, peers`relayingPeer, peers`relayUsers, router.DataProtoObjects()
      ensures Valid() && Assigned() && Unreached(peer) && GaveUp(peer) && LinkGone(peer)
    {
      hide Valid, Got, Lost, Remove, Router.DataProtoObjects;
      NetApart();
      WhenUnrelayed(peer);
      if peer.relayingPeer != null {
        FreeRelaying(peer);
      } else if peer.waitingRelay {
        UnregisterNeedRelay(peer);
      }
    }

    /** peer_cleanup_connections: the peer is not reached in any way, and those it relayed for go elsewhere. */
    method CleanupConnections(peer: Peer)
      requires Valid() && Assigned() && peer in peers
      modifies this`relays, this`waiting, this`users, this`via, peer`haveLink, peer`sendDp, peer`isRelay, peer.relaySink`dpSink
      modifies peers`waitingRelay, peers`relayingPeer, peers`relayUsers, router.DataProtoObjects()
      ensures Valid() && Assigned() && Unreached(peer) && GaveUp(peer) && LinkGone(peer)
    {
      hide Valid, GaveUp, LinkGone;
      WhenUnrelayed(peer);
      if peer.haveLink {
        Unlink(peer);
      } else {
        LeaveRelay(peer);
      }
    }

    lemma State(peer: Peer)
      requires Valid() && peer in peers
      ensures peer.StateOk() && (peer.waitingRelay ==> peer in waiting) && (peer.isRelay ==> peer.haveLink)
    {
      hide RelaysOk, UsersOk, Relaying, NetOk;
    }

    lemma Waits(peer: Peer)
      requires Valid() && Assigned() && peer in peers && peer.waitingRelay
      ensures !peer.haveLink && peer.relayingPeer == null && Relay() == null
      ensures via == via[peer := null]
    {
      hide Valid, Got, Given, Lost, Remove;
      State(peer);
      UsersField(peer);
    }

    /** peer_need_relay: the peer gets the first relay, or waits if there is none. */
    method NeedRelay(peer: Peer)
      requires Valid() && Assigned() && peer in peers && !peer.isRelay
      modifies this`waiting, this`users, this`via, peer`haveLink, peer`sendDp, peer.relaySink`dpSink
      modifies peers`waitingRelay, peers`relayingPeer, peers`relayUsers, router.DataProtoObjects()
      ensures Valid() && Assigned()
      ensures !peer.haveLink && peer.relayingPeer == Relay() && (peer.waitingRelay <==> relays == [])
      ensures relays != [] ==> peer.relayingPeer == relays[0]
      ensures via == old(via)[peer := Relay()]
      ensures waiting == if relays == [] && !old(peer.waitingRelay) then old(waiting) + [peer] else old(waiting)
    {
      hide Valid, Got, Given, Lost, Remove, Router.DataProtoObjects;
      NetApart();
      if peer.waitingRelay {
        Waits(peer);
        return;
      }
      DropOwnWay(peer);
      NetIsLess();
      GetRelay(peer);
    }

    method GetRelay(peer: Peer)
      requires Valid() && Assigned() && peer in peers && !peer.haveLink && peer.relayingPeer == null && !peer.waitingRelay
      modifies this`waiting, this`users, this`via
      modifies peers`waitingRelay, peers`relayingPeer, peers`relayUsers, router.DataProtoObjects()
      ensures Valid() && Assigned()
      ensures peer.relayingPeer == Relay() && (peer.waitingRelay <==> relays == [])
      ensures via == old(via)[peer := Relay()]
      ensures waiting == if relays == [] then old(waiting) + [peer] else old(waiting)
    {
      hide Valid, Got, Given, Remove;
      UsersField(peer);
      ghost var list := waiting + [peer];
      assert relays != [] ==> list == [peer];
      assert via[peer := null] == via;
      GotOne(via, Relay(), peer);
      GivenNull(users, via, list);
      RegisterNeedRelay(peer);
      AssignRelays();
      UsersField(peer);
      WaitsIffListed(peer);
    }

    /** A peer that does not wait, and is no relay, gives up its link or its relay. */
    method DropOwnWay(peer: Peer)
      requires Valid() && peer in peers && !peer.isRelay && !peer.waitingRelay
      modifies this`users, this`via, peer`haveLink, peer`sendDp, peer.relaySink`dpSink
      modifies peers`relayingPeer, peers`relayUsers, router.DataProtoObjects()
      ensures Valid() && !peer.haveLink && peer.relayingPeer == null
      ensures via == old(via)[peer := null] && LinkGone(peer)
    {
      hide Valid, Remove, FlowsDetached;
      WhenUnrelayed(peer);
      if peer.haveLink {
        FreeLink(peer);
      } else if peer.relayingPeer != null {
        FreeRelaying(peer);
      }
    }

    lemma WaitsIffListed(peer: Peer)
      requires Valid() && peer in peers
      ensures peer.waitingRelay <==> peer in waiting
    {
      hide StatesOk, RelaysOk, UsersOk, Relaying, NetOk;
    }

    /** A fresh link, as binding and connecting get one. */
    method FreshLink(peer: Peer, transport: bool) returns (ok: bool)
      requires Valid() && Assigned() && peer in peers
      modifies this`relays, this`waiting, this`users, this`via, peer`haveLink, peer`sendDp, peer`isRelay, peer.relaySink`dpSink
      modifies peers`waitingRelay, peers`relayingPeer, peers`relayUsers, router.DataProtoObjects()
      ensures Valid() && Assigned()
      ensures ok == transport == peer.haveLink
      ensures !peer.isRelay && peer.relayingPeer == null && !peer.waitingRelay
      ensures ok ==> fresh(peer.sendDp)
      ensures GaveUp(peer)
    {
      hide Valid, GaveUp, Router.DataProtoObjects;
      NetApart();
      CleanupConnections(peer);
      NetIsLess();
      ok := InitLink(peer, transport);
    }

    /** peer_dataproto_handler: a link that is up makes a relay of a peer that can be one. */
    method LinkReport(peer: Peer, up: bool, relayServer: bool)
      requires Valid() && Assigned() && peer in peers && peer.haveLink
      modifies this`relays, this`waiting, this`users, this`via, peer`isRelay
      modifies peers`waitingRelay, peers`relayingPeer, peers`relayUsers, router.DataProtoObjects()
      ensures Valid() && Assigned()
      ensures peer.isRelay == (up && (relayServer || old(peer.isRelay)))
      ensures peer.isRelay == old(peer.isRelay) ==> relays == old(relays) && waiting == old(waiting) && via == old(via) && users == old(users)
      ensures peer.isRelay && !old(peer.isRelay) ==>
        relays == old(relays) + [peer] && users == old(users)[peer := old(waiting)] && via == Got(old(via), peer, old(waiting))
      ensures !peer.isRelay && old(peer.isRelay) ==> PassedOn(peer)
    {
      hide Valid, Got, Given, PassedOn;
      if up {
        if relayServer && !peer.isRelay {
          EnableRelayProvider(peer);
        }
      } else if peer.isRelay {
        DisableRelayProvider(peer);
      }
    }

    /** peer_add: nothing but the peer's own flow, source and sink is new; if any part of it cannot be made, there is no peer, and nothing has changed. */
    method AddPeer(made: bool) returns (peer: Peer?)
      requires Valid() && Assigned()
      modifies this`peers, this`users, this`via, router`sources, router`sinks
      modifies router.net`flows, router.net`buffers, router.net`desired
      ensures Valid() && Assigned() && (peer != null <==> made)
      ensures peer == null ==> unchanged(this, router, router.net)
      ensures peer != null ==>
        && fresh(peer) && peers == old(peers) + {peer} && Unreached(peer)
        && via == old(via)[peer := null] && users == old(users)[peer := []]
    {
      hide ListsOk, NetOk, Assigned;
      if !made {
        return null;
      }
      peer := MakePeer();
    }

    method MakePeer() returns (peer: Peer)
      requires Valid()
      modifies this`peers, this`users, this`via, router`sources, router`sinks
      modifies router.net`flows, router.net`buffers, router.net`desired
      ensures Valid() && fresh(peer) && peers == old(peers) + {peer} && Unreached(peer)
      ensures via == old(via)[peer := null] && users == old(users)[peer := []]
    {
      hide ListsOk, NetOk, Unowned;
      var flow, source, relaySink := NewParts();
      peer := new Peer(flow, source, relaySink);
      EnlistPeer(peer);
    }

    /** All is well, but for a flow, sources and sinks that no peer has. */
    ghost predicate NetBut(flow: DataProtoFlow, sources: set<RelaySource>, relaySinks: set<RelaySink>)
      reads this`peers, peers`haveLink, peers`sendDp, peers`relayingPeer
      reads router, router.sources`flows, router.sinks`flows, router.sinks`dpSink
      reads router.net, router.net.flows, router.net.buffers, router.net.sinks
    {
      && router.Valid()
      && TargetsOk(router.net.desired) && LinksOk(router.net.sinks, router.sinks)
      && Parts(router.net.desired.Keys, router.flows, flow)
      && router.sinks == RelaySinks() + relaySinks && router.sources == Sources() + sources
      && RelaySinks() !! relaySinks && Sources() !! sources
      && router.net.desired[flow] == null
    }

    /** The flows there are: those of peers and of the relay router, and one more. */
    ghost predicate Parts(flows: set<DataProtoFlow>, relayFlows: set<RelayFlow>, flow: DataProtoFlow)
      reads this`peers
      ensures Parts(flows, relayFlows, flow) ==> flow in flows
    {
      && flows == Flows(relayFlows) + {flow} && flow !in Flows(relayFlows)
      && (forall p, q | p in peers && q in peers && p != q :: p.flow != q.flow && p.relaySink != q.relaySink && p.source != q.source)
      && (forall p, x | p in peers && x in relayFlows :: x.dpFlow != p.flow)
    }

    /** The parts of a peer that no peer has. */
    ghost predicate Unowned(flow: DataProtoFlow, source: RelaySource, relaySink: RelaySink)
      reads this`peers, peers`haveLink, peers`sendDp, peers`relayingPeer
      reads router, router.sources`flows, router.sinks`flows, router.sinks`dpSink, relaySink`dpSink
      reads router.net, router.net.flows, router.net.buffers, router.net.sinks
    {
      NetBut(flow, {source}, {relaySink}) && relaySink.dpSink == null
    }

    method NewParts() returns (flow: DataProtoFlow, source: RelaySource, relaySink: RelaySink)
      requires Valid()
      modifies router`sources, router`sinks, router.net`flows, router.net`buffers, router.net`desired
      ensures ListsOk() && Unowned(flow, source, relaySink)
      ensures fresh(flow) && fresh(source) && fresh(relaySink)
    {
      hide ListsOk, Router.Valid, LinksOk, TargetsOk, Flows, Parts, RelaySinks, Sources, Router.DataProtoObjects;
      ghost var desired, links, relaySinks := router.net.desired, router.net.sinks, router.sinks;
      flow := router.NewOther();
      TargetsStay(desired, flow);
      PartsWithFlow(desired.Keys, flow);
      assert router.net.desired.Keys == desired.Keys + {flow};
      source := router.NewSource();
      relaySink := router.NewSink();
      MoreSinks(links, relaySinks);
    }

    lemma PartsWithFlow(flows: set<DataProtoFlow>, flow: DataProtoFlow)
      requires OwnersOk(flows, router.flows) && flow !in flows
      ensures Parts(flows + {flow}, router.flows, flow)
    {
    }

    lemma TargetsStay(desired: map<DataProtoFlow, DataProtoSink?>, f: DataProtoFlow)
      requires TargetsOk(desired) && f !in desired
      ensures TargetsOk(desired[f := null])
    {
    }

    lemma MoreSinks(links: set<DataProtoSink>, relaySinks: set<RelaySink>)
      requires LinksOk(links, relaySinks) && relaySinks <= router.sinks
      ensures LinksOk(links, router.sinks)
    {
    }

    /** A peer that is not reached in any way has come, and nothing else is different. */
    twostate predicate Came(peer: Peer)
      reads this`peers, this`relays, this`waiting, this`users, this`via, peers
    {
      && peer !in old(peers) && peers == old(peers) + {peer} && relays == old(relays) && waiting == old(waiting)
      && via == old(via)[peer := null] && users == old(users)[peer := []] && unchanged(peers)
      && peer.StateOk() && Unreached(peer) && peer.relayUsers == []
    }

    twostate lemma UsersWithPeer(peer: Peer)
      requires Came(peer) && old(UsersOk(users, via)) && old(Relaying())
      ensures UsersOk(users, via) && Relaying()
    {
    }

    twostate lemma ListsWithPeer(peer: Peer)
      requires Came(peer) && old(ListsOk())
      ensures ListsOk()
    {
      hide UsersOk, Relaying;
      UsersWithPeer(peer);
    }

    method EnlistPeer(peer: Peer)
      requires ListsOk() && Unowned(peer.flow, peer.source, peer.relaySink) && peer !in peers
      requires Unreached(peer) && peer.sendDp == null && peer.relayUsers == []
      modifies this`peers, this`users, this`via
      ensures Valid() && peers == old(peers) + {peer}
      ensures via == old(via)[peer := null] && users == old(users)[peer := []]
    {
      hide ListsOk, NetOk, Router.Valid, TargetsOk, LinksOk;
      peers, users, via := peers + {peer}, users[peer := []], via[peer := null];
      ListsWithPeer(peer);
      NetWithPeer(peer);
    }

    /** A peer has come whose parts no peer had. */
    twostate predicate CameTo(peer: Peer)
      reads this`peers, peers, router, router.net, router.sinks
    {
      && old(Unowned(peer.flow, peer.source, peer.relaySink)) && peer !in old(peers) && peers == old(peers) + {peer}
      && unchanged(peers) && unchanged(router) && unchanged(router.net) && unchanged(router.sinks)
      && peer.sendDp == null && Unreached(peer)
    }

    twostate lemma OwnersWithPeer(peer: Peer)
      requires CameTo(peer)
      ensures OwnersOk(router.net.desired.Keys, router.flows)
    {
      hide Router.Valid, TargetsOk, LinksOk;
    }

    twostate lemma TargetsWithPeer(peer: Peer)
      requires CameTo(peer)
      ensures TargetsOk(router.net.desired)
    {
      hide Router.Valid, LinksOk, RelaySinks, Sources, Flows;
    }

    twostate lemma LinksWithPeer(peer: Peer)
      requires CameTo(peer)
      ensures LinksOk(router.net.sinks, router.sinks)
    {
      hide Router.Valid, TargetsOk, Sources, Flows;
    }

    twostate lemma NetWithPeer(peer: Peer)
      requires CameTo(peer) && router.Valid()
      ensures NetOk()
    {
      hide CameTo, Router.Valid, TargetsOk, LinksOk, OwnersOk;
      OwnersWithPeer(peer);
      TargetsWithPeer(peer);
      LinksWithPeer(peer);
    }

    /** A peer that is not reached in any way is no longer a peer. */
    method DelistPeer(peer: Peer)
      requires Valid() && peer in peers
      requires !peer.haveLink && peer.relayingPeer == null && !peer.waitingRelay && !peer.isRelay
      modifies this`peers, this`users, this`via
      ensures ListsOk() && Unowned(peer.flow, peer.source, peer.relaySink)
      ensures peers == old(peers) - {peer} && via == old(via) - {peer} && users == old(users) - {peer}
    {
      hide ListsOk, Unowned, Router.Valid, TargetsOk, LinksOk, OwnersOk;
      NobodyVia(peer);
      AboutPeer(peer);
      peers, users, via := peers - {peer}, users - {peer}, via - {peer};
      ListsWithoutPeer(peer);
      NetWithoutPeer(peer);
    }

    twostate lemma ListsWithoutPeer(peer: Peer)
      requires old(ListsOk()) && peer in old(peers) && peers == old(peers) - {peer}
      requires relays == old(relays) && waiting == old(waiting) && unchanged(old(peers))
      requires via == old(via) - {peer} && users == old(users) - {peer}
      requires peer.relayingPeer == null && !peer.waitingRelay && !peer.isRelay
      ensures ListsOk()
    {
    }

    twostate lemma NetWithoutPeer(peer: Peer)
      requires old(NetOk()) && peer in old(peers) && peers == old(peers) - {peer}
      requires unchanged(old(peers)) && unchanged(router) && unchanged(router.net) && unchanged(router.sinks)
      requires router.Valid() && peer.sendDp == null && !peer.haveLink && peer.relayingPeer == null
      requires forall p | p in peers :: p.relayingPeer != peer
      ensures Unowned(peer.flow, peer.source, peer.relaySink)
    {
      hide Router.Valid, RelaySinks, Sources, Flows;
      PartsWithoutPeer(peer);
    }

    twostate lemma PartsWithoutPeer(peer: Peer)
      requires old(OwnersOk(router.net.desired.Keys, router.flows)) && peer in old(peers) && peers == old(peers) - {peer}
      requires unchanged(router)
      ensures router.sinks == RelaySinks() + {peer.relaySink} && RelaySinks() !! {peer.relaySink}
      ensures router.sources == Sources() + {peer.source} && Sources() !! {peer.source}
      ensures old(router.net.desired.Keys) == Flows(router.flows) + {peer.flow} && peer.flow !in Flows(router.flows)
    {
    }

    lemma TargetsWithout(desired: map<DataProtoFlow, DataProtoSink?>, gone: set<DataProtoFlow>)
      requires TargetsOk(desired) && forall p | p in peers :: p.flow !in gone
      ensures TargetsOk(desired - gone)
    {
    }

    lemma FewerSinks(links: set<DataProtoSink>, relaySinks: set<RelaySink>, gone: RelaySink)
      requires LinksOk(links, relaySinks) && gone !in RelaySinks()
      ensures LinksOk(links, relaySinks - {gone})
    {
    }

    /** The flows of the relay router are not those of peers, nor one that is to be freed. */
    lemma RelayFlowsLeave(flow: DataProtoFlow, sources: set<RelaySource>, relaySinks: set<RelaySink>, list: seq<RelayFlow>)
      requires NetBut(flow, sources, relaySinks) && forall i | 0 <= i < |list| :: list[i] in router.flows
      ensures flow !in DpFlows(list) && forall p | p in peers :: p.flow !in DpFlows(list)
      ensures Parts(router.net.desired.Keys - DpFlows(list), router.flows - Members(list), flow)
    {
      hide Net.Valid, Router.ListsOk, Router.FollowOk, Router.AttachedOk, TargetsOk, LinksOk;
    }

    method FreeRelaySink(flow: DataProtoFlow, sources: set<RelaySource>, relaySink: RelaySink)
      requires NetBut(flow, sources, {relaySink}) && relaySink.dpSink == null
      modifies router`flows, router`current, router`sinks, relaySink`flows, router.sources`flows, router.DataProtoObjects()
      ensures NetBut(flow, sources, {}) && NetShrank()
      ensures router.sinks <= old(router.sinks)
    {
      hide Router.Valid, TargetsOk, LinksOk, RelaySinks, Sources, Parts, DpFlows, Members, Router.DataProtoObjects;
      NetApart();
      ghost var list, relaySinks, links, desired := relaySink.flows, router.sinks, router.net.sinks, router.net.desired;
      ListsOfSink(relaySink);
      RelayFlowsLeave(flow, sources, {relaySink}, list);
      FewerSinks(links, relaySinks, relaySink);
      TargetsWithout(desired, DpFlows(list));
      router.SinkFree(relaySink);
    }

    lemma ListsOfSink(relaySink: RelaySink)
      requires router.Valid() && relaySink in router.sinks
      ensures forall i | 0 <= i < |relaySink.flows| :: relaySink.flows[i] in router.flows
    {
    }

    lemma ListsOfSource(source: RelaySource)
      requires router.Valid() && source in router.sources
      ensures forall i | 0 <= i < |source.flows| :: source.flows[i] in router.flows
    {
    }

    twostate predicate NetShrank()
      reads router.net`flows, router.net`buffers, router.net`sinks
    {
      router.net.flows <= old(router.net.flows) && router.net.buffers <= old(router.net.buffers) && router.net.sinks == old(router.net.sinks)
    }

    method FreeSource(flow: DataProtoFlow, source: RelaySource)
      requires NetBut(flow, {source}, {})
      modifies router`flows, router`current, router`sources, source`flows, router.sinks`flows, router.DataProtoObjects()
      ensures NetBut(flow, {}, {}) && NetShrank()
    {
      hide Router.Valid, TargetsOk, LinksOk, RelaySinks, Sources, Parts, DpFlows, Members, Router.DataProtoObjects;
      NetApart();
      ghost var list, desired := source.flows, router.net.desired;
      ListsOfSource(source);
      RelayFlowsLeave(flow, {source}, {}, list);
      TargetsWithout(desired, DpFlows(list));
      router.SourceFree(source);
    }

    method FreeLocalFlow(flow: DataProtoFlow)
      requires NetBut(flow, {}, {})
      modifies router.DataProtoObjects()
      ensures NetOk() && NetShrank()
    {
      hide Router.Valid, TargetsOk, LinksOk, RelaySinks, Sources, Router.DataProtoObjects;
      NetApart();
      TargetsWithout(router.net.desired, {flow});
      router.FreeOther(flow);
    }

    /** peer_remove: nothing of the peer is left, and every other peer still is. */
    method RemovePeer(peer: Peer)
      requires Valid() && Assigned() && peer in peers
      modifies this, peers, router, router.sources`flows, router.sinks`flows, peer.relaySink`dpSink, router.DataProtoObjects()
      ensures Valid() && Assigned()
      ensures peers == old(peers) - {peer}
      ensures router.net.sinks == old(router.net.sinks) - old(peer.Links())
      ensures GoneFrom(peer)
    {
      hide Valid, Got, Lost, Remove, Peer.Links, Router.DataProtoObjects;
      NetApart();
      CleanupConnections(peer);
      NetIsLess();
      RemoveUnreached(peer);
    }

    /** As GaveUp, but the peer is not known any more. */
    twostate predicate GoneFrom(peer: Peer)
      reads this`relays, this`waiting, this`via
    {
      && (old(peer.isRelay) ==> peer in old(relays) && peer in old(users))
      && (old(peer.waitingRelay) ==> peer in old(waiting))
      && relays == (if old(peer.isRelay) then Remove(old(relays), peer) else old(relays))
      && waiting == (if old(peer.isRelay) && relays == [] then old(users)[peer]
                     else if old(peer.waitingRelay) then Remove(old(waiting), peer) else old(waiting))
      && via == (if old(peer.isRelay) then Got(Lost(old(via), old(users)[peer]), Relay(), old(users)[peer]) else old(via)) - {peer}
    }

    method RemoveUnreached(peer: Peer)
      requires Valid() && peer in peers
      requires Unreached(peer)
      modifies this`peers, this`users, this`via, router`flows, router`current, router`sinks, router`sources
      modifies router.sources`flows, router.sinks`flows, router.DataProtoObjects()
      ensures Valid() && peers == old(peers) - {peer} && via == old(via) - {peer} && NetShrank()
    {
      hide ListsOk, NetOk, Unowned;
      DelistPeer(peer);
      FreeParts(peer.flow, peer.source, peer.relaySink);
    }

    method FreeParts(flow: DataProtoFlow, source: RelaySource, relaySink: RelaySink)
      requires ListsOk() && Unowned(flow, source, relaySink)
      modifies router`flows, router`current, router`sinks, router`sources
      modifies router.sources`flows, router.sinks`flows, router.DataProtoObjects()
      ensures Valid() && NetShrank()
    {
      hide ListsOk, NetOk, NetBut, Router.DataProtoObjects;
      NetApart();
      FreeRouterParts(flow, source, relaySink);
      NetIsLess();
      FreeLocalFlow(flow);
    }

    method FreeRouterParts(flow: DataProtoFlow, source: RelaySource, relaySink: RelaySink)
      requires ListsOk() && Unowned(flow, source, relaySink)
      modifies router`flows, router`current, router`sinks, router`sources
      modifies router.sources`flows, router.sinks`flows, router.DataProtoObjects()
      ensures ListsOk() && NetBut(flow, {}, {}) && NetShrank()
    {
      hide ListsOk, NetBut, Router.DataProtoObjects;
      NetApart();
      PartsListed(flow, {source}, {relaySink});
      FreeRelaySink(flow, {source}, relaySink);
      NetIsLess();
      FreeSource(flow, source);
    }

    lemma PartsListed(flow: DataProtoFlow, sources: set<RelaySource>, relaySinks: set<RelaySink>)
      requires NetBut(flow, sources, relaySinks)
      ensures relaySinks <= router.sinks && sources <= router.sources
    {
    }

    /** A flow of the relay router comes, or changes. */
    lemma RelayFlowSet(desired: map<DataProtoFlow, DataProtoSink?>, relayFlows: set<RelayFlow>, x: RelayFlow, dpSink: DataProtoSink?)
      requires TargetsOk(desired) && OwnersOk(desired.Keys, relayFlows) && forall p | p in peers :: p.flow != x.dpFlow
      ensures TargetsOk(desired[x.dpFlow := dpSink]) && OwnersOk(desired[x.dpFlow := dpSink].Keys, relayFlows + {x})
    {
      hide RelaySinks, Sources, LocalFlows, OwnedFlows;
      OwnedBesides(relayFlows, x);
      assert desired[x.dpFlow := dpSink].Keys == desired.Keys + {x.dpFlow};
    }

    /** A flow of the relay router goes. */
    lemma RelayFlowGone(desired: map<DataProtoFlow, DataProtoSink?>, x: RelayFlow)
      requires TargetsOk(desired) && OwnersOk(desired.Keys, router.flows) && router.OwnersOk() && x in router.flows
      ensures TargetsOk(desired - {x.dpFlow}) && OwnersOk((desired - {x.dpFlow}).Keys, router.flows - {x})
    {
      hide RelaySinks, Sources, LocalFlows, OwnedFlows;
      OwnedBesides(router.flows, x);
      assert x.dpFlow !in LocalFlows() by { NotLocal(router.flows, x); }
      assert (desired - {x.dpFlow}).Keys == desired.Keys - {x.dpFlow};
    }

    lemma NotLocal(relayFlows: set<RelayFlow>, x: RelayFlow)
      requires x in relayFlows && forall p, y | p in peers && y in relayFlows :: y.dpFlow != p.flow
      ensures x.dpFlow !in LocalFlows()
    {
    }

    /** A frame that a peer wants relayed to another goes where that one's link is, or nowhere for lack of room. */
    method RelayFrame(from: Peer, to: Peer, data: seq<Byte>, room: bool, memory: bool)
      requires Valid() && from in peers && to in peers && from != to && router.current == null
      modifies router`flows, router`current, router`frame, from.source`flows, to.relaySink`flows, router.DataProtoObjects()
      ensures Valid()
      ensures router.current != null ==> router.current.src == from.source && router.current.sink == to.relaySink && router.frame == data
      ensures router.current != null <==> room && (memory || exists x :: x in old(router.flows) && x.src == from.source && x.sink == to.relaySink)
    {
      hide ListsOk, NetOk, Router.DataProtoObjects;
      NetApart();
      AboutPeer(from);
      AboutPeer(to);
      LocalFlowsApart();
      SubmitFrame(from.source, to.relaySink, data, room, memory);
    }

    /** What is relayed to a peer goes over the peer's own link, if it has one. */
    lemma RelayedOverOwnLink(flow: RelayFlow, to: Peer)
      requires Valid() && flow in router.flows && to in peers && flow.sink == to.relaySink
      ensures flow.dpFlow in router.net.desired && router.net.desired[flow.dpFlow] == to.sendDp
    {
      hide ListsOk, Net.Valid, Router.ListsOk, Router.AttachedOk, TargetsOk, OwnersOk;
      assert router.FollowsSink(flow, router.net.desired);
    }

    method SubmitFrame(source: RelaySource, relaySink: RelaySink, data: seq<Byte>, room: bool, memory: bool)
      requires NetOk() && source in router.sources && relaySink in router.sinks && router.current == null
      requires forall p, x | p in peers && x in router.flows :: x.dpFlow != p.flow
      modifies router`flows, router`current, router`frame, source`flows, relaySink`flows, router.DataProtoObjects()
      ensures NetOk() && router.frame == if room then data else old(router.frame)
      ensures router.current != null ==> router.current.src == source && router.current.sink == relaySink
      ensures router.current != null <==> room && (memory || exists x :: x in old(router.flows) && x.src == source && x.sink == relaySink)
    {
      hide Router.Valid, LinksOk, TargetsOk, OwnersOk;
      ghost var desired, relayFlows := router.net.desired, router.flows;
      router.SubmitFrame(source, relaySink, data, room, memory);
      if router.current != null {
        RelayFlowSet(desired, relayFlows, router.current, relaySink.dpSink);
      }
    }

    lemma LocalFlowsApart()
      requires Valid()
      ensures forall p, x | p in peers && x in router.flows :: x.dpFlow != p.flow
    {
    }

    /** A flow of the relay router has been idle for too long. */
    method RelayFlowInactive(flow: RelayFlow)
      requires Valid() && flow in router.flows
      modifies router`flows, router`current, flow.src`flows, flow.sink`flows, router.DataProtoObjects()
      ensures Valid() && router.flows == old(router.flows) - {flow}
    {
      hide ListsOk, Router.ListsOk, Router.FollowOk, Router.AttachedOk, Net.Valid, LinksOk, TargetsOk, OwnersOk;
      RelayFlowGone(router.net.desired, flow);
      router.FlowInactive(flow);
    }

    /** The relay router has its frame routed: to the flow it was submitted for if there still is one, and so over the link of the peer it is for. */
    method RelayFrameRouted() returns (to: DataProtoFlow?, data: seq<Byte>)
      requires Valid()
      modifies router`current
      ensures Valid() && router.current == null && data == router.frame
      ensures to == if old(router.current) == null then null else old(router.current).dpFlow
      ensures to != null ==> to in router.net.desired
      ensures forall p | p in peers && to != null && old(router.current).sink == p.relaySink :: router.net.desired[to] == p.sendDp
    {
      hide ListsOk, TargetsOk, OwnersOk, LinksOk, Router.ListsOk, Router.OwnersOk, Router.AttachedOk, Router.FollowOk, Net.Valid;
      ghost var flow := router.current;
      if flow != null {
        CurrentIsLive();
        forall p | p in peers && flow.sink == p.relaySink
          ensures flow.dpFlow in router.net.desired && router.net.desired[flow.dpFlow] == p.sendDp
        {
          RelayedOverOwnLink(flow, p);
        }
      }
      to, data := router.RouteFrame();
    }

    lemma CurrentIsLive()
      requires Valid() && router.current != null
      ensures router.current in router.flows
    {
      hide ListsOk, TargetsOk, LinksOk, OwnersOk, Router.ListsOk, Router.OwnersOk, Router.FollowOk, Router.AttachedOk, Net.Valid;
    }

    /** The queue of a link begins with a packet, and is done with one: neither changes who is reached over what. */
    method PacketStarts(b: FlowBuffer)
      requires Valid() && b in router.net.buffers && b.sink != null && b.sink.sending == null
      modifies b.sink`sending
      ensures Valid() && b.IsBusy()
    {
      hide ListsOk, TargetsOk, LinksOk, OwnersOk, Router.ListsOk, Router.OwnersOk, Router.FollowOk, Router.AttachedOk, Net.Valid;
      router.net.StartSending(b);
    }

    method PacketSent(link: DataProtoSink)
      requires Valid() && link in router.net.sinks && link.sending != null
      modifies router.net`buffers, link`sending, link`detaching, link.sending`sink
      ensures Valid() && link.sending == null && link.detaching == null
    {
      hide ListsOk, TargetsOk, LinksOk, OwnersOk, Router.ListsOk, Router.OwnersOk, Router.FollowOk, Router.AttachedOk, Net.Valid;
      router.net.DoneSending(link);
    }

    /** Between events, a peer waits for a relay only if no peer is one. */
    lemma WaitsForLackOfRelays(waiter: Peer, other: Peer)
      requires Valid() && Assigned() && waiter in peers && waiter.waitingRelay && other in peers
      ensures !other.isRelay
    {
      hide NetOk, StatesOk, UsersOk, Relaying;
    }

    /** The device's frames for a peer that is relayed go over the link of a linked peer, and not over any other's. */
    lemma RelayedOverRelay(peer: Peer, other: Peer)
      requires Valid() && peer in peers && peer.relayingPeer != null && other in peers
      ensures router.net.desired[peer.flow] == other.sendDp ==> other == peer.relayingPeer
      ensures peer.relayingPeer.haveLink && router.net.desired[peer.flow] != null
    {
      hide WaitingOk, RelaysOk, Router.Valid, OwnersOk;
      AboutPeer(peer);
    }
  }
}
