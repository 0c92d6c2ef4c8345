/**
 * Relaying between peers: a flow for each pair of a source and a sink that frames
 * have been relayed between lately, attached while the sink is.
 */
module DPRelay {
  import opened Bytes
  import opened DataProto
  import opened Lists

  class RelaySource {
    var flows: seq<RelayFlow>

    constructor ()
      ensures flows == []
    {
      flows := [];
    }
  }

  class RelaySink {
    var flows: seq<RelayFlow>
    var dpSink: DataProtoSink?

    constructor ()
      ensures flows == [] && dpSink == null
    {
      flows, dpSink := [], null;
    }
  }

  class RelayFlow {
    const src: RelaySource
    const sink: RelaySink
    const dpFlow: DataProtoFlow

    constructor (src: RelaySource, sink: RelaySink, dpFlow: DataProtoFlow)
      ensures this.src == src && this.sink == sink && this.dpFlow == dpFlow
    {
      this.src, this.sink, this.dpFlow := src, sink, dpFlow;
    }
  }

  ghost function Members(list: seq<RelayFlow>): set<RelayFlow> {
    set x | x in list
  }

  ghost function DpFlows(list: seq<RelayFlow>): set<DataProtoFlow> {
    set x | x in list :: x.dpFlow
  }

  /** The flows of a router, what they are meant for, and the one it is to route a frame to. */
  datatype Holdings = Holdings(flows: set<RelayFlow>, desired: map<DataProtoFlow, DataProtoSink?>, current: RelayFlow?) {
    ghost function Without(gone: seq<RelayFlow>): Holdings {
      Holdings(flows - Members(gone), desired - DpFlows(gone), if current != null && current in gone then null else current)
    }
  }

  lemma WithoutNone(h: Holdings)
    ensures h.Without([]) == h
  {
  }

  lemma WithoutNext(h: Holdings, list: seq<RelayFlow>, i: nat)
    requires i < |list|
    ensures h.Without(list[..i]).Without(list[i..][..1]) == h.Without(list[..i + 1])
  {
    PrefixGrows(list, i);
    assert list[i..][..1] == [list[i]];
  }

  lemma EmptyPrefix(list: seq<RelayFlow>)
    ensures list[..0] == [] && Members(list[..0]) == {} && DpFlows(list[..0]) == {}
  {
  }

  lemma PrefixGrows(list: seq<RelayFlow>, i: nat)
    requires i < |list|
    ensures Members(list[..i + 1]) == Members(list[..i]) + {list[i]}
    ensures DpFlows(list[..i + 1]) == DpFlows(list[..i]) + {list[i].dpFlow}
    ensures forall x :: x in list[..i + 1] <==> x in list[..i] || x == list[i]
  {
    assert list[..i + 1] == list[..i] + [list[i]];
  }

  /** All of some flows meant for the same sink, or for none. */
  ghost function Retarget(desired: map<DataProtoFlow, DataProtoSink?>, moved: set<DataProtoFlow>, dpSink: DataProtoSink?):
    map<DataProtoFlow, DataProtoSink?>
  {
    map f | f in desired :: if f in moved then dpSink else desired[f]
  }

  lemma RetargetNone(desired: map<DataProtoFlow, DataProtoSink?>, dpSink: DataProtoSink?)
    ensures Retarget(desired, {}, dpSink) == desired
  {
  }

  class Router {
    const net: Net
    /** The flow that the frame in the buffer is for. */
    var current: RelayFlow?
    var frame: seq<Byte>
    ghost var sources: set<RelaySource>
    ghost var sinks: set<RelaySink>
    ghost var flows: set<RelayFlow>

    /** Every flow is once in the list of its source, which has no other to the same sink. */
    ghost predicate SourcesOk()
      reads this`flows, this`sources, sources`flows
    {
      && (forall s | s in sources :: Distinct(s.flows) && forall x | x in s.flows :: x in flows && x.src == s)
      && (forall x | x in flows :: x.src in sources && x in x.src.flows)
      && (forall x, y | x in flows && y in flows && x != y :: !(x.src == y.src && x.sink == y.sink))
    }

    /** Every flow is once in the list of its sink. */
    ghost predicate SinksOk()
      reads this`flows, this`sinks, sinks`flows
    {
      && (forall s | s in sinks :: Distinct(s.flows) && forall x | x in s.flows :: x in flows && x.sink == s)
      && (forall x | x in flows :: x.sink in sinks && x in x.sink.flows)
    }

    /** Each flow has a DataProto flow of its own. */
    ghost predicate OwnersOk()
      reads this`flows
    {
      forall x, y | x in flows && y in flows && x != y :: x.dpFlow != y.dpFlow
    }

    /** The DataProto flow of a flow is meant for where the flow's sink is attached. */
    ghost predicate FollowsSink(x: RelayFlow, desired: map<DataProtoFlow, DataProtoSink?>)
      reads x.sink`dpSink
    {
      x.dpFlow in desired && desired[x.dpFlow] == x.sink.dpSink
    }

    ghost predicate FollowOk(fs: set<RelayFlow>, desired: map<DataProtoFlow, DataProtoSink?>)
      reads this`sinks, sinks`dpSink
    {
      forall x | x in fs :: x.sink in sinks && FollowsSink(x, desired)
    }

    ghost predicate AttachedOk()
      reads this`sinks, sinks`dpSink, net`sinks
    {
      forall s | s in sinks :: s.dpSink != null ==> s.dpSink in net.sinks
    }

    ghost predicate ListsOk()
      reads this`flows, this`sources, this`sinks, sources`flows, sinks`flows
    {
      SourcesOk() && SinksOk()
    }

    ghost predicate Valid()
      reads this, sources`flows, sinks`flows, sinks`dpSink, net, net.flows, net.buffers, net.sinks
    {
      && net.Valid()
      && ListsOk() && OwnersOk() && FollowOk(flows, net.desired) && AttachedOk()
      && (current != null ==> current in flows)
    }

    constructor (net: Net)
      requires net.Valid()
      ensures Valid() && this.net == net
      ensures sources == {} && sinks == {} && flows == {} && current == null
    {
      this.net := net;
      current, frame, sources, sinks, flows := null, [], {}, {}, {};
    }

    /** source_find_flow */
    method FindFlow(src: RelaySource, sink: RelaySink) returns (flow: RelayFlow?)
      requires Valid() && src in sources
      ensures flow != null ==> flow in flows && flow.src == src && flow.sink == sink
      ensures flow == null ==> forall x | x in flows :: !(x.src == src && x.sink == sink)
    {
      for i := 0 to |src.flows|
        invariant forall j | 0 <= j < i :: src.flows[j].sink != sink
      {
        if src.flows[i].sink == sink {
          return src.flows[i];
        }
      }
      return null;
    }

    /** Puts a new flow into the lists of its source and its sink. */
    method Link(flow: RelayFlow)
      requires SourcesOk() && SinksOk() && flow !in flows && flow.src in sources && flow.sink in sinks
      requires forall x | x in flows :: !(x.src == flow.src && x.sink == flow.sink)
      modifies this`flows, flow.src`flows, flow.sink`flows
      ensures SourcesOk() && SinksOk()
      ensures flows == old(flows) + {flow}
    {
      flow.src.flows := flow.src.flows + [flow];
      flow.sink.flows := flow.sink.flows + [flow];
      flows := flows + {flow};
    }

    /** A new flow that is not attached yet. */
    method AddFlow(src: RelaySource, sink: RelaySink) returns (flow: RelayFlow)
      requires Valid() && src in sources && sink in sinks
      requires forall x | x in flows :: !(x.src == src && x.sink == sink)
      modifies this`flows, src`flows, sink`flows, net`flows, net`buffers, net`desired
      ensures net.Valid() && ListsOk() && OwnersOk()
      ensures forall x | x in old(flows) :: x.sink in sinks && FollowsSink(x, net.desired)
      ensures fresh(flow) && fresh(flow.dpFlow) && fresh(flow.dpFlow.b) && flow.src == src && flow.sink == sink
      ensures flow.dpFlow.sinkDesired == null && flow.dpFlow.b.sink == null && net.desired == old(net.desired)[flow.dpFlow := null]
      ensures flows == old(flows) + {flow} && net.flows == old(net.flows) + {flow.dpFlow}
      ensures net.sinks == old(net.sinks)
    {
      hide SourcesOk, SinksOk, Net.Valid;
      var dpFlow := net.NewFlow();
      flow := new RelayFlow(src, sink, dpFlow);
      Link(flow);
    }

    /** create_flow; a failing allocation leaves everything as it is. */
    method CreateFlow(src: RelaySource, sink: RelaySink, memory: bool) returns (flow: RelayFlow?)
      requires Valid() && src in sources && sink in sinks
      requires forall x | x in flows :: !(x.src == src && x.sink == sink)
      modifies this`flows, src`flows, sink`flows, net`flows, net`buffers, net`desired
      ensures Valid() && (flow != null <==> memory) && net.sinks == old(net.sinks)
      ensures flow == null ==> flows == old(flows) && net.flows == old(net.flows) && net.desired == old(net.desired)
      ensures flow != null ==>
        && fresh(flow) && fresh(flow.dpFlow) && flow.src == src && flow.sink == sink
        && flows == old(flows) + {flow} && net.flows == old(net.flows) + {flow.dpFlow}
        && net.desired == old(net.desired)[flow.dpFlow := sink.dpSink]
    {
      hide Valid;
      if memory {
        flow := MakeFlow(src, sink);
      } else {
        flow := null;
      }
    }

    method MakeFlow(src: RelaySource, sink: RelaySink) returns (flow: RelayFlow)
      requires Valid() && src in sources && sink in sinks
      requires forall x | x in flows :: !(x.src == src && x.sink == sink)
      modifies this`flows, src`flows, sink`flows, net`flows, net`buffers, net`desired
      ensures Valid() && net.sinks == old(net.sinks)
      ensures fresh(flow) && fresh(flow.dpFlow) && flow.src == src && flow.sink == sink
      ensures flows == old(flows) + {flow} && net.flows == old(net.flows) + {flow.dpFlow}
      ensures net.desired == old(net.desired)[flow.dpFlow := sink.dpSink]
    {
      hide SourcesOk, SinksOk, Net.Valid;
      flow := AddFlow(src, sink);
      if sink.dpSink != null {
        net.FlowAttach(flow.dpFlow, sink.dpSink);
      }
    }

    ghost function DataProtoObjects(): set<object>
      reads net
    {
      {net as object} + net.flows + net.buffers + net.sinks
    }

    /** What belongs to the net is nothing of the router. */
    lemma NetApart()
      ensures this !in DataProtoObjects() && net in DataProtoObjects()
      ensures forall k | k in sinks :: k !in DataProtoObjects()
      ensures forall k | k in sources :: k !in DataProtoObjects()
      ensures forall x | x in flows :: x !in DataProtoObjects()
    {
    }

    /** Takes a flow out of the lists of its source and its sink. */
    method Unlink(flow: RelayFlow)
      requires ListsOk() && flow in flows
      modifies this`flows, flow.src`flows, flow.sink`flows
      ensures ListsOk()
      ensures flows == old(flows) - {flow}
      ensures flow.src.flows == Remove(old(flow.src.flows), flow) && flow.sink.flows == Remove(old(flow.sink.flows), flow)
    {
      RemoveKeepsRest(flow.src.flows, flow);
      RemoveKeepsRest(flow.sink.flows, flow);
      flow.sink.flows := Remove(flow.sink.flows, flow);
      flow.src.flows := Remove(flow.src.flows, flow);
      flows := flows - {flow};
    }

    /** free_flow */
    method FreeFlow(flow: RelayFlow)
      requires Valid() && flow in flows
      modifies this`flows, this`current, flow.src`flows, flow.sink`flows, DataProtoObjects()
      ensures Valid()
      ensures flows == old(flows) - {flow} && current == if old(current) == flow then null else old(current)
      ensures net.flows == old(net.flows) - {flow.dpFlow} && net.sinks == old(net.sinks) && net.buffers <= old(net.buffers)
      ensures net.desired == old(net.desired) - {flow.dpFlow}
      ensures flow.src.flows == old(Remove(flow.src.flows, flow)) && flow.sink.flows == old(Remove(flow.sink.flows, flow))
    {
      hide SourcesOk, SinksOk, Net.Valid, Remove, FollowOk, AttachedOk, DataProtoObjects;
      NetApart();
      if current == flow {
        current := null;
      }
      FollowsItsSink(flow);
      DetachAndDrop(flow);
    }

    lemma FollowsItsSink(flow: RelayFlow)
      requires FollowOk(flows, net.desired) && flow in flows
      ensures flow.sink in sinks && FollowsSink(flow, net.desired)
    {
    }

    lemma FollowWithout(flow: RelayFlow)
      requires OwnersOk() && FollowOk(flows, net.desired) && flow in flows
      ensures FollowOk(flows - {flow}, net.desired - {flow.dpFlow})
    {
    }

    /** Detaches a flow if it is attached, and removes it. */
    method DetachAndDrop(flow: RelayFlow)
      requires net.Valid() && ListsOk() && OwnersOk() && FollowOk(flows, net.desired) && flow in flows && FollowsSink(flow, net.desired)
      modifies this`flows, flow.src`flows, flow.sink`flows, DataProtoObjects()
      ensures net.Valid() && ListsOk() && OwnersOk() && FollowOk(flows, net.desired)
      ensures flows == old(flows) - {flow}
      ensures net.flows == old(net.flows) - {flow.dpFlow} && net.sinks == old(net.sinks) && net.buffers <= old(net.buffers)
      ensures net.desired == old(net.desired) - {flow.dpFlow}
      ensures flow.src.flows == old(Remove(flow.src.flows, flow)) && flow.sink.flows == old(Remove(flow.sink.flows, flow))
    {
      hide SourcesOk, SinksOk, Net.Valid, Remove, FollowOk;
      FollowWithout(flow);
      net.FlowInNet(flow.dpFlow);
      if flow.sink.dpSink != null {
        net.FlowDetach(flow.dpFlow);
      }
      DropFlow(flow);
      assert net.desired == old(net.desired) - {flow.dpFlow};
    }

    /** Removes a flow that is not attached. */
    method DropFlow(flow: RelayFlow)
      requires net.Valid() && ListsOk() && OwnersOk() && flow in flows
      requires flow.dpFlow in net.desired && net.desired[flow.dpFlow] == null
      modifies this`flows, flow.src`flows, flow.sink`flows, DataProtoObjects()
      ensures net.Valid() && ListsOk() && OwnersOk()
      ensures flows == old(flows) - {flow}
      ensures net.flows == old(net.flows) - {flow.dpFlow} && net.sinks == old(net.sinks) && net.buffers <= old(net.buffers)
      ensures net.desired == old(net.desired) - {flow.dpFlow}
      ensures flow.src.flows == old(Remove(flow.src.flows, flow)) && flow.sink.flows == old(Remove(flow.sink.flows, flow))
    {
      hide SourcesOk, SinksOk, Net.Valid, Remove;
      Unlink(flow);
      net.FlowInNet(flow.dpFlow);
      net.FlowFree(flow.dpFlow);
    }

    /** flow_inactivity_handler */
    method FlowInactive(flow: RelayFlow)
      requires Valid() && flow in flows
      modifies this`flows, this`current, flow.src`flows, flow.sink`flows, DataProtoObjects()
      ensures Valid()
      ensures flows == old(flows) - {flow} && net.desired == old(net.desired) - {flow.dpFlow} && net.sinks == old(net.sinks)
      ensures current == if old(current) == flow then null else old(current)
    {
      hide *;
      FreeFlow(flow);
    }

    method NewSource() returns (src: RelaySource)
      requires Valid()
      modifies this`sources
      ensures Valid() && fresh(src) && src.flows == [] && sources == old(sources) + {src}
    {
      hide SinksOk, Net.Valid, FollowOk, AttachedOk, OwnersOk;
      src := new RelaySource();
      sources := sources + {src};
    }

    method NewSink() returns (sink: RelaySink)
      requires Valid()
      modifies this`sinks
      ensures Valid() && fresh(sink) && sink.flows == [] && sink.dpSink == null && sinks == old(sinks) + {sink}
    {
      hide SourcesOk, Net.Valid, OwnersOk;
      sink := new RelaySink();
      sinks := sinks + {sink};
    }

    lemma InItsLists(flow: RelayFlow)
      requires ListsOk() && flow in flows
      ensures flow.src in sources && flow.sink in sinks && flow in flow.src.flows && flow in flow.sink.flows
    {
    }

    lemma OfItsSource(src: RelaySource, i: nat)
      requires ListsOk() && src in sources && i < |src.flows|
      ensures src.flows[i] in flows && src.flows[i].src == src
    {
    }

    lemma OfItsSink(sink: RelaySink, i: nat)
      requires ListsOk() && sink in sinks && i < |sink.flows|
      ensures sink.flows[i] in flows && sink.flows[i].sink == sink
    {
    }

    /** DPRelaySource_Free: all flows from the source go, and no others. */
    method SourceFree(src: RelaySource)
      requires Valid() && src in sources
      modifies this`flows, this`current, this`sources, src`flows, sinks`flows, DataProtoObjects()
      ensures Valid()
      ensures sources == old(sources) - {src}
      ensures flows == old(flows) - Members(old(src.flows))
      ensures net.desired == old(net.desired) - DpFlows(old(src.flows))
      ensures current == if old(current) != null && old(current) in old(src.flows) then null else old(current)
      ensures net.sinks == old(net.sinks) && net.flows <= old(net.flows) && net.buffers <= old(net.buffers)
    {
      hide Valid, Members, DpFlows, Remove;
      ghost var list, i: nat := src.flows, 0;
      WithoutNone(Holding());
      while src.flows != []
        invariant Valid() && src in sources && sources == old(sources) && i <= |list| && src.flows == list[i..]
        invariant Holding() == old(Holding()).Without(list[..i])
        invariant net.sinks == old(net.sinks) && net.flows <= old(net.flows) && net.buffers <= old(net.buffers)
        decreases |src.flows|
      {
        WithoutNext(old(Holding()), list, i);
        FreeFirstOfSource(src);
        i := i + 1;
      }
      assert list[..i] == list;
      DropSource(src);
    }

    ghost function Holding(): Holdings
      reads this, net`desired
    {
      Holdings(flows, net.desired, current)
    }

    method FreeFirstOfSource(src: RelaySource)
      requires Valid() && src in sources && src.flows != []
      modifies this`flows, this`current, src`flows, sinks`flows, DataProtoObjects()
      ensures Valid() && src.flows == old(src.flows)[1..] && Holding() == old(Holding()).Without(old(src.flows)[..1])
      ensures net.sinks == old(net.sinks) && net.flows <= old(net.flows) && net.buffers <= old(net.buffers)
    {
      hide Valid, Remove;
      FirstOfSource(src);
      assert src.flows[..1] == [src.flows[0]];
      FreeFlow(src.flows[0]);
    }

    lemma FirstOfSource(src: RelaySource)
      requires Valid() && src in sources && src.flows != []
      ensures var flow := src.flows[0]; flow in flows && flow.src == src && flow.sink in sinks
      ensures Remove(src.flows, src.flows[0]) == src.flows[1..]
    {
      hide FollowOk, AttachedOk, OwnersOk, Net.Valid;
      OfItsSource(src, 0);
      InItsLists(src.flows[0]);
    }

    method DropSource(src: RelaySource)
      requires Valid() && src in sources && src.flows == []
      modifies this`sources
      ensures Valid() && sources == old(sources) - {src}
    {
      hide FollowOk, AttachedOk, OwnersOk, Net.Valid;
      sources := sources - {src};
    }

    /** DPRelaySink_Free: the sink is detached by now; all flows to it go, and no others. */
    method SinkFree(sink: RelaySink)
      requires Valid() && sink in sinks && sink.dpSink == null
      modifies this`flows, this`current, this`sinks, sink`flows, sources`flows, DataProtoObjects()
      ensures Valid()
      ensures sinks == old(sinks) - {sink}
      ensures flows == old(flows) - Members(old(sink.flows))
      ensures net.desired == old(net.desired) - DpFlows(old(sink.flows))
      ensures current == if old(current) != null && old(current) in old(sink.flows) then null else old(current)
      ensures net.sinks == old(net.sinks) && net.flows <= old(net.flows) && net.buffers <= old(net.buffers)
    {
      hide Valid, Members, DpFlows, Remove;
      ghost var list, i: nat := sink.flows, 0;
      WithoutNone(Holding());
      while sink.flows != []
        invariant Valid() && sink in sinks && sinks == old(sinks) && i <= |list| && sink.flows == list[i..]
        invariant Holding() == old(Holding()).Without(list[..i])
        invariant net.sinks == old(net.sinks) && net.flows <= old(net.flows) && net.buffers <= old(net.buffers)
        decreases |sink.flows|
      {
        WithoutNext(old(Holding()), list, i);
        FreeFirstOfSink(sink);
        i := i + 1;
      }
      assert list[..i] == list;
      DropSink(sink);
    }

    method FreeFirstOfSink(sink: RelaySink)
      requires Valid() && sink in sinks && sink.flows != []
      modifies this`flows, this`current, sink`flows, sources`flows, DataProtoObjects()
      ensures Valid() && sink.flows == old(sink.flows)[1..] && Holding() == old(Holding()).Without(old(sink.flows)[..1])
      ensures net.sinks == old(net.sinks) && net.flows <= old(net.flows) && net.buffers <= old(net.buffers)
    {
      hide Valid, Remove;
      FirstOfSink(sink);
      assert sink.flows[..1] == [sink.flows[0]];
      FreeFlow(sink.flows[0]);
    }

    lemma FirstOfSink(sink: RelaySink)
      requires Valid() && sink in sinks && sink.flows != []
      ensures var flow := sink.flows[0]; flow in flows && flow.sink == sink && flow.src in sources
      ensures Remove(sink.flows, sink.flows[0]) == sink.flows[1..]
    {
      hide FollowOk, AttachedOk, OwnersOk, Net.Valid;
      OfItsSink(sink, 0);
      InItsLists(sink.flows[0]);
    }

    method DropSink(sink: RelaySink)
      requires Valid() && sink in sinks && sink.flows == []
      modifies this`sinks
      ensures Valid() && sinks == old(sinks) - {sink}
    {
      hide OwnersOk, Net.Valid;
      sinks := sinks - {sink};
    }

    /** DPRelaySink_Attach: exactly the flows to the sink are attached. */
    method SinkAttach(sink: RelaySink, dpSink: DataProtoSink)
      requires Valid() && sink in sinks && sink.dpSink == null && dpSink in net.sinks
      modifies sink`dpSink, DataProtoObjects()
      ensures Valid() && sink.dpSink == dpSink
      ensures net.flows == old(net.flows) && net.buffers == old(net.buffers) && net.sinks == old(net.sinks)
      ensures net.desired == Retarget(old(net.desired), DpFlows(sink.flows), dpSink)
    {
      hide SourcesOk, SinksOk, OwnersOk, FollowOk, FollowsSink, AttachedOk, DpFlows, Net.Valid, Retarget;
      ghost var list := sink.flows;
      EmptyPrefix(list);
      RetargetNone(net.desired, dpSink);
      for i := 0 to |sink.flows|
        modifies DataProtoObjects()
        invariant net.Valid() && net.desired == Retarget(old(net.desired), DpFlows(list[..i]), dpSink)
        invariant net.flows == old(net.flows) && net.buffers == old(net.buffers) && net.sinks == old(net.sinks)
      {
        var flow := sink.flows[i];
        NextToRetarget(old(net.desired), sink, i, dpSink);
        net.FlowInNet(flow.dpFlow);
        net.FlowAttach(flow.dpFlow, dpSink);
      }
      assert list[..|list|] == list;
      SetDpSink(sink, dpSink, old(net.desired));
    }

    /** DPRelaySink_Detach: exactly the flows to the sink are detached. */
    method SinkDetach(sink: RelaySink)
      requires Valid() && sink in sinks && sink.dpSink != null
      modifies sink`dpSink, DataProtoObjects()
      ensures Valid() && sink.dpSink == null
      ensures net.flows == old(net.flows) && net.buffers == old(net.buffers) && net.sinks == old(net.sinks)
      ensures net.desired == Retarget(old(net.desired), DpFlows(sink.flows), null)
    {
      hide SourcesOk, SinksOk, OwnersOk, FollowOk, FollowsSink, AttachedOk, DpFlows, Net.Valid, Retarget;
      ghost var list := sink.flows;
      EmptyPrefix(list);
      RetargetNone(net.desired, null);
      for i := 0 to |sink.flows|
        modifies DataProtoObjects()
        invariant net.Valid() && net.desired == Retarget(old(net.desired), DpFlows(list[..i]), null)
        invariant net.flows == old(net.flows) && net.buffers == old(net.buffers) && net.sinks == old(net.sinks)
      {
        var flow := sink.flows[i];
        NextToRetarget(old(net.desired), sink, i, null);
        net.FlowInNet(flow.dpFlow);
        net.FlowDetach(flow.dpFlow);
      }
      assert list[..|list|] == list;
      SetDpSink(sink, null, old(net.desired));
    }

    /** The flow at a position of a sink's list is the next to change. */
    lemma NextToRetarget(desired: map<DataProtoFlow, DataProtoSink?>, sink: RelaySink, i: nat, dpSink: DataProtoSink?)
      requires ListsOk() && OwnersOk() && FollowOk(flows, desired) && sink in sinks && i < |sink.flows|
      ensures var dpFlow := sink.flows[i].dpFlow;
        var before := Retarget(desired, DpFlows(sink.flows[..i]), dpSink);
        && dpFlow in before && before[dpFlow] == sink.dpSink
        && Retarget(desired, DpFlows(sink.flows[..i + 1]), dpSink) == before[dpFlow := dpSink]
    {
      hide SourcesOk;
      PrefixGrows(sink.flows, i);
      OfItsSink(sink, i);
    }

    /** Moves a sink, once the flows to it have been moved. */
    method SetDpSink(sink: RelaySink, dpSink: DataProtoSink?, ghost before: map<DataProtoFlow, DataProtoSink?>)
      requires net.Valid() && ListsOk() && OwnersOk() && FollowOk(flows, before) && AttachedOk() && sink in sinks
      requires current != null ==> current in flows
      requires net.desired == Retarget(before, DpFlows(sink.flows), dpSink) && (dpSink != null ==> dpSink in net.sinks)
      modifies sink`dpSink
      ensures Valid() && sink.dpSink == dpSink
    {
      hide SourcesOk, Net.Valid;
      sink.dpSink := dpSink;
      forall x | x in flows
        ensures x.sink in sinks && FollowsSink(x, net.desired)
      {
        assert FollowsSink(x, net.desired);
      }
    }

    /**
     * DPRelayRouter_SubmitFrame: the frame goes to the one flow between its source and its sink, or
     * nowhere if there is no room for it in the router's buffer, or none for a flow that is not there yet.
     */
    method SubmitFrame(src: RelaySource, sink: RelaySink, data: seq<Byte>, room: bool, memory: bool)
      requires Valid() && src in sources && sink in sinks && current == null
      modifies this`flows, this`current, this`frame, src`flows, sink`flows, net`flows, net`buffers, net`desired, DataProtoObjects()
      ensures Valid() && net.sinks == old(net.sinks) && frame == if room then data else old(frame)
      ensures current != null <==> room && (memory || exists x :: x in old(flows) && x.src == src && x.sink == sink)
      ensures current == null ==> flows == old(flows) && net.flows == old(net.flows) && net.desired == old(net.desired)
      ensures current != null ==>
        && current.src == src && current.sink == sink
        && flows == old(flows) + {current} && (current !in old(flows) ==> fresh(current) && fresh(current.dpFlow))
        && net.desired == old(net.desired)[current.dpFlow := sink.dpSink]
    {
      hide SourcesOk, SinksOk, Net.Valid, FollowOk, AttachedOk, OwnersOk, DataProtoObjects;
      if !room {
        return;
      }
      frame := data;
      var flow := FlowFor(src, sink, memory);
      if flow == null {
        return;
      }
      current := flow;
    }

    /** The flow between a source and a sink, which is created if there is none. */
    method FlowFor(src: RelaySource, sink: RelaySink, memory: bool) returns (flow: RelayFlow?)
      requires Valid() && src in sources && sink in sinks
      modifies this`flows, src`flows, sink`flows, net`flows, net`buffers, net`desired
      ensures Valid() && net.sinks == old(net.sinks)
      ensures flow != null <==> memory || exists x :: x in old(flows) && x.src == src && x.sink == sink
      ensures flow == null ==> flows == old(flows) && net.flows == old(net.flows) && net.desired == old(net.desired)
      ensures flow != null ==>
        && flow.src == src && flow.sink == sink
        && flows == old(flows) + {flow} && (flow !in old(flows) ==> fresh(flow) && fresh(flow.dpFlow))
        && net.desired == old(net.desired)[flow.dpFlow := sink.dpSink]
    {
      hide SourcesOk, SinksOk, Net.Valid, AttachedOk, OwnersOk;
      flow := FindFlow(src, sink);
      if flow == null {
        flow := CreateFlow(src, sink, memory);
      }
    }

    /** router_dp_source_handler: the frame is routed to the current flow, if that still exists. */
    method RouteFrame() returns (to: DataProtoFlow?, data: seq<Byte>)
      requires Valid()
      modifies this`current
      ensures Valid() && current == null && data == frame
      ensures to == if old(current) == null then null else old(current).dpFlow
      ensures to != null ==> to in net.desired
    {
      hide SourcesOk, SinksOk, Net.Valid;
      data := frame;
      if current == null {
        return null, data;
      }
      to := current.dpFlow;
      current := null;
    }

    /** A DataProto flow that none of the router's flows owns. */
    ghost predicate NotOurs(f: DataProtoFlow)
      reads this`flows
    {
      forall x | x in flows :: x.dpFlow != f
    }

    lemma FollowApart(f: DataProtoFlow, dpSink: DataProtoSink?)
      requires FollowOk(flows, net.desired) && NotOurs(f)
      ensures FollowOk(flows, net.desired[f := dpSink]) && FollowOk(flows, net.desired - {f})
    {
    }

    /** What becomes of other flows does not concern the router. */
    method AttachOther(f: DataProtoFlow, dpSink: DataProtoSink)
      requires Valid() && NotOurs(f) && f in net.desired && net.desired[f] == null && dpSink in net.sinks
      modifies DataProtoObjects()
      ensures Valid() && net.desired == old(net.desired)[f := dpSink]
      ensures net.flows == old(net.flows) && net.buffers == old(net.buffers) && net.sinks == old(net.sinks)
    {
      hide Net.Valid, ListsOk, OwnersOk, FollowOk, AttachedOk;
      FollowApart(f, dpSink);
      net.FlowInNet(f);
      net.FlowAttach(f, dpSink);
    }

    method DetachOther(f: DataProtoFlow)
      requires Valid() && NotOurs(f) && f in net.desired && net.desired[f] != null
      modifies DataProtoObjects()
      ensures Valid() && net.desired == old(net.desired)[f := null]
      ensures net.flows == old(net.flows) && net.buffers == old(net.buffers) && net.sinks == old(net.sinks)
    {
      hide Net.Valid, ListsOk, OwnersOk, FollowOk, AttachedOk;
      FollowApart(f, null);
      net.FlowInNet(f);
      net.FlowDetach(f);
    }

    method NewOther() returns (f: DataProtoFlow)
      requires Valid()
      modifies net`flows, net`buffers, net`desired
      ensures Valid() && fresh(f) && NotOurs(f) && net.desired == old(net.desired)[f := null]
      ensures net.flows == old(net.flows) + {f} && net.sinks == old(net.sinks)
    {
      hide Net.Valid, ListsOk, OwnersOk, AttachedOk;
      f := net.NewFlow();
    }

    method FreeOther(f: DataProtoFlow)
      requires Valid() && NotOurs(f) && f in net.desired && net.desired[f] == null
      modifies DataProtoObjects()
      ensures Valid() && net.desired == old(net.desired) - {f}
      ensures net.flows == old(net.flows) - {f} && net.buffers <= old(net.buffers) && net.sinks == old(net.sinks)
    {
      hide Net.Valid, ListsOk, OwnersOk, FollowOk, AttachedOk;
      FollowApart(f, null);
      net.FlowInNet(f);
      net.FlowFree(f);
    }

    method FreeDpSink(dpSink: DataProtoSink)
      requires Valid() && dpSink in net.sinks
      requires forall f | f in net.desired :: net.desired[f] != dpSink
      requires forall k | k in sinks :: k.dpSink != dpSink
      modifies DataProtoObjects()
      ensures Valid() && net.sinks == old(net.sinks) - {dpSink}
      ensures net.desired == old(net.desired) && net.flows == old(net.flows) && net.buffers <= old(net.buffers)
    {
      hide Net.Valid, ListsOk, OwnersOk, FollowOk;
      net.SinkFree(dpSink);
    }

    method NewDpSink() returns (dpSink: DataProtoSink)
      requires Valid()
      modifies net`sinks
      ensures Valid() && fresh(dpSink) && net.sinks == old(net.sinks) + {dpSink}
    {
      hide Net.Valid, ListsOk, OwnersOk, FollowOk;
      dpSink := net.NewSink();
    }
  }
}
