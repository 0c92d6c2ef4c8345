/**
 * Flows of frames to peers, and the sinks they are attached to. A flow's packets
 * wait in a buffer; the buffer can leave a sink only when the sink's queue is not
 * in the middle of sending for it, so detaching may have to wait.
 */
module DataProto {

  class DataProtoSink {
    /** The buffer that waits to leave. */
    var detaching: FlowBuffer?
    /** The buffer the queue is sending for, if it is one of a flow's. */
    var sending: FlowBuffer?
    /** Whether the queue is being freed, which lets a busy buffer go. */
    var freeing: bool

    constructor ()
      ensures detaching == null && sending == null && !freeing
    {
      detaching, sending, freeing := null, null, false;
    }
  }

  class FlowBuffer {
    /** The flow that owns the buffer, null once that is gone. */
    var flow: DataProtoFlow?
    var sink: DataProtoSink?

    constructor ()
      ensures flow == null && sink == null
    {
      flow, sink := null, null;
    }

    predicate IsBusy()
      reads this, sink
    {
      sink != null && sink.sending == this
    }

    /** flow_buffer_attach */
    method Attach(s: DataProtoSink)
      requires sink == null && !s.freeing
      modifies this`sink
      ensures sink == s
    {
      sink := s;
    }

    /** flow_buffer_detach */
    method Detach()
      requires sink != null && (IsBusy() ==> sink.freeing)
      modifies this`sink, sink`detaching, sink`sending
      ensures sink == null
      ensures old(sink).detaching == if old(sink.detaching) == this then null else old(sink.detaching)
      ensures old(sink).sending == if old(sink.sending) == this then null else old(sink.sending)
    {
      // the queue forgets the buffer it was sending for
      if sink.sending == this {
        sink.sending := null;
      }
      if sink.detaching == this {
        sink.detaching := null;
      }
      sink := null;
    }

    /** flow_buffer_schedule_detach */
    method ScheduleDetach()
      requires IsBusy() && (sink.detaching == null || sink.detaching == this)
      modifies sink`detaching
      ensures sink.detaching == this
    {
      if sink.detaching == this {
        return;
      }
      sink.detaching := this;
    }
  }

  class DataProtoFlow {
    var sinkDesired: DataProtoSink?
    var b: FlowBuffer

    constructor ()
      ensures sinkDesired == null && fresh(b)
      ensures b.flow == this && b.sink == null
    {
      sinkDesired := null;
      b := new FlowBuffer();
      new;
      b.flow := this;
    }
  }

  /** All live sinks, flows and buffers, and what holds of them whenever no operation is under way. */
  class Net {
    ghost var sinks: set<DataProtoSink>
    ghost var flows: set<DataProtoFlow>
    ghost var buffers: set<FlowBuffer>
    /** Where each flow is meant to go. */
    ghost var desired: map<DataProtoFlow, DataProtoSink?>

    /** A flow owns its buffer, and is only meant for a sink if the buffer is attached somewhere. */
    ghost predicate FlowsOk()
      reads this`sinks, this`flows, this`buffers, flows, buffers
    {
      forall f | f in flows ::
        && f.b in buffers && f.b.flow == f
        && (f.sinkDesired != null ==> f.sinkDesired in sinks && f.b.sink != null)
    }

    ghost predicate DesiredOk()
      reads this`flows, this`desired, flows
    {
      desired.Keys == flows && forall f | f in flows :: f.sinkDesired == desired[f]
    }

    /** A buffer is unattached, or where its flow wants it, or waiting to leave its sink. */
    ghost predicate BuffersOk()
      reads this`sinks, this`flows, this`buffers, sinks, flows, buffers
    {
      forall b | b in buffers ::
        && (b.flow != null ==> b.flow in flows && b.flow.b == b)
        && (b.sink == null ==> b.flow != null && b.flow.sinkDesired == null)
        && (b.sink != null ==> b.sink in sinks)
        && (b.sink != null && b.sink.detaching != b ==> b.flow != null && b.flow.sinkDesired == b.sink)
    }

    /** Only the buffer that a sink is busy with can be waiting to leave it. */
    ghost predicate SinkOk(s: DataProtoSink)
      reads this`buffers, s, buffers
    {
      && !s.freeing
      && (s.sending != null ==> s.sending in buffers && s.sending.sink == s)
      && (s.detaching != null ==> s.detaching == s.sending)
    }

    ghost predicate LinksOk()
      reads this`sinks, this`flows, this`buffers, sinks, flows, buffers
    {
      FlowsOk() && BuffersOk() && forall s | s in sinks :: SinkOk(s)
    }

    ghost predicate Valid()
      reads this, sinks, flows, buffers
    {
      DesiredOk() && LinksOk()
    }

    constructor ()
      ensures Valid() && sinks == {} && flows == {} && buffers == {} && desired == map[]
    {
      sinks, flows, buffers, desired := {}, {}, {}, map[];
    }

    ghost function SinkOf(b: FlowBuffer): set<DataProtoSink>
      reads b
    {
      if b.sink == null then {} else {b.sink}
    }

    /** What an operation on a flow can touch is part of the net. */
    lemma FlowInNet(f: DataProtoFlow)
      requires Valid() && f in desired
      ensures f in flows && f.b in buffers && SinkOf(f.b) <= sinks
      ensures f.sinkDesired == desired[f] && (desired[f] != null ==> desired[f] in sinks)
    {
    }

    /**
     * A live buffer is unattached and wanted nowhere, or where its flow wants it, or
     * waiting to leave a sink that is busy with it, and so will leave. Only such a one
     * can have lost its flow.
     */
    lemma BufferStates(b: FlowBuffer)
      requires Valid() && b in buffers
      ensures
        || (b.sink == null && b.flow != null && b.flow in desired && desired[b.flow] == null)
        || (b.sink != null && b.sink.detaching != b && b.flow != null && b.flow in desired && b.sink == desired[b.flow])
        || (b.sink != null && b.sink.detaching == b && b.IsBusy())
      ensures b.flow == null ==> b.sink != null && b.sink.detaching == b
    {
    }

    method NewFlow() returns (f: DataProtoFlow)
      requires Valid()
      modifies this`flows, this`buffers, this`desired
      ensures Valid() && fresh(f) && fresh(f.b) && f.sinkDesired == null && f.b.sink == null
      ensures flows == old(flows) + {f} && buffers == old(buffers) + {f.b}
      ensures desired == old(desired)[f := null]
    {
      hide FlowsOk, BuffersOk, DesiredOk, SinkOk;
      f := new DataProtoFlow();
      flows, buffers, desired := flows + {f}, buffers + {f.b}, desired[f := null];
      FlowsWith(f);
      BuffersWith(f);
      SinksWith(f);
    }

    /** A flow has come, with a buffer that is not attached. */
    twostate predicate Came(new f: DataProtoFlow)
      reads this, f, f.b, flows, buffers, sinks
    {
      && f !in old(flows) && f.b !in old(buffers) && f.sinkDesired == null && f.b.flow == f && f.b.sink == null
      && flows == old(flows) + {f} && buffers == old(buffers) + {f.b} && desired == old(desired)[f := null] && sinks == old(sinks)
      && unchanged(old(flows)) && unchanged(old(buffers)) && unchanged(sinks)
    }

    twostate lemma FlowsWith(new f: DataProtoFlow)
      requires Came(f) && old(Valid())
      ensures FlowsOk() && DesiredOk()
    {
    }

    twostate lemma BuffersWith(new f: DataProtoFlow)
      requires Came(f) && old(Valid())
      ensures BuffersOk()
    {
    }

    twostate lemma SinksWith(new f: DataProtoFlow)
      requires Came(f) && old(Valid())
      ensures forall t | t in sinks :: SinkOk(t)
    {
    }

    method NewSink() returns (s: DataProtoSink)
      requires Valid()
      modifies this`sinks
      ensures Valid() && fresh(s) && sinks == old(sinks) + {s}
      ensures s.detaching == null && s.sending == null
    {
      s := new DataProtoSink();
      sinks := sinks + {s};
    }

    /** Nothing has changed but where a flow is meant to go, and with that its buffer and the sink that was attached to. */
    twostate predicate OnlyFlow(f: DataProtoFlow)
      reads this`sinks, this`flows, this`buffers, flows, buffers, sinks
    {
      && sinks == old(sinks) && flows == old(flows) && buffers == old(buffers) && f in flows
      && f.b == old(f.b) && (forall g | g in flows && g != f :: g.sinkDesired == old(g.sinkDesired) && g.b == old(g.b))
      && (forall b | b in buffers :: b.flow == old(b.flow) && (b != f.b ==> b.sink == old(b.sink)))
      && (forall s | s in sinks :: s.freeing == old(s.freeing) && (s != old(f.b.sink) ==> s.detaching == old(s.detaching) && s.sending == old(s.sending)))
    }

    twostate lemma FlowsKept(f: DataProtoFlow)
      requires OnlyFlow(f) && old(FlowsOk()) && (f.sinkDesired != null ==> f.sinkDesired in sinks && f.b.sink != null)
      requires f.b in buffers && f.b.flow == f
      ensures FlowsOk()
    {
    }

    twostate lemma BuffersKept(f: DataProtoFlow)
      requires OnlyFlow(f) && old(FlowsOk()) && old(BuffersOk()) && f.b in buffers && f.b.flow == f
      requires f.b.sink != null ==> f.b.sink in sinks && (f.b.sink.detaching == f.b || f.sinkDesired == f.b.sink)
      requires f.b.sink == null ==> f.sinkDesired == null
      requires old(f.b.sink) != null && old(f.b.sink) in sinks && old(f.b.sink.detaching) != null && old(f.b.sink.detaching) != f.b ==>
        old(f.b.sink).detaching == old(f.b.sink.detaching)
      ensures BuffersOk()
    {
    }

    twostate lemma SinksKept(f: DataProtoFlow)
      requires OnlyFlow(f) && old(LinksOk()) && f.b in buffers
      requires old(f.b.sink) != null && old(f.b.sink) in sinks ==> SinkOk(old(f.b.sink))
      requires f.b.sink == old(f.b.sink) || (forall s | s in sinks && s != old(f.b.sink) :: s.sending != f.b)
      ensures forall s | s in sinks :: SinkOk(s)
    {
    }

    /** DataProtoFlow_Attach: attaches the buffer, unless it still has to leave another sink first. */
    method FlowAttach(f: DataProtoFlow, sink: DataProtoSink)
      requires Valid() && f in desired && desired[f] == null && sink in sinks
      modifies this`desired, f`sinkDesired, f.b`sink, SinkOf(f.b)`detaching
      ensures Valid()
      ensures desired == old(desired)[f := sink]
      ensures if old(f.b.sink) == null then f.b.sink == sink else f.b.sink == old(f.b.sink) && f.b.sink.detaching == f.b
    {
      hide FlowsOk, BuffersOk, SinkOk;
      AttachBuffer(f, sink);
      desired := desired[f := sink];
    }

    method AttachBuffer(f: DataProtoFlow, sink: DataProtoSink)
      requires LinksOk() && f in flows && sink in sinks && f.sinkDesired == null
      modifies f`sinkDesired, f.b`sink, SinkOf(f.b)`detaching
      ensures LinksOk() && f.sinkDesired == sink
      ensures if old(f.b.sink) == null then f.b.sink == sink else f.b.sink == old(f.b.sink) && f.b.sink.detaching == f.b
    {
      hide FlowsOk, BuffersOk;
      BufferOf(f);
      var b := f.b;
      if b.sink != null {
        if b.IsBusy() {
          b.ScheduleDetach();
        } else {
          // a buffer that is not busy is where its flow wants it, and this flow wants nothing
          assert false;
        }
      } else {
        b.Attach(sink);
      }
      f.sinkDesired := sink;
      FlowsKept(f);
      BuffersKept(f);
      SinksKept(f);
    }

    /** A buffer is attached where its flow wants it, or its sink is busy with it and it waits to leave. */
    lemma BufferOf(f: DataProtoFlow)
      requires LinksOk() && f in flows
      ensures f.b in buffers && f.b.flow == f && (f.b.sink != null ==> f.b.sink in sinks && SinkOk(f.b.sink))
      ensures f.b.sink != null && f.b.sink.detaching != f.b ==> f.sinkDesired == f.b.sink
      ensures f.b.sink != null && f.b.sink.detaching == f.b ==> f.b.IsBusy()
      ensures f.sinkDesired != null ==> f.b.sink != null && f.sinkDesired in sinks
      ensures forall s | s in sinks && s != f.b.sink :: s.sending != f.b
    {
    }

    /** DataProtoFlow_Detach: the buffer leaves its sink now or, if the sink is busy with it, later. */
    method FlowDetach(f: DataProtoFlow)
      requires Valid() && f in desired && desired[f] != null
      modifies this`desired, f`sinkDesired, f.b`sink, SinkOf(f.b)`detaching, SinkOf(f.b)`sending
      ensures Valid()
      ensures desired == old(desired)[f := null]
      ensures if old(f.b.IsBusy()) then f.b.sink == old(f.b.sink) && f.b.sink.detaching == f.b else f.b.sink == null
    {
      hide FlowsOk, BuffersOk, SinkOk;
      DetachBuffer(f);
      desired := desired[f := null];
    }

    method DetachBuffer(f: DataProtoFlow)
      requires LinksOk() && f in flows && f.sinkDesired != null
      modifies f`sinkDesired, f.b`sink, SinkOf(f.b)`detaching, SinkOf(f.b)`sending
      ensures LinksOk() && f.sinkDesired == null
      ensures if old(f.b.IsBusy()) then f.b.sink == old(f.b.sink) && f.b.sink.detaching == f.b else f.b.sink == null
    {
      hide FlowsOk, BuffersOk;
      BufferOf(f);
      var b := f.b;
      if b.IsBusy() {
        b.ScheduleDetach();
      } else {
        b.Detach();
      }
      f.sinkDesired := null;
      FlowsKept(f);
      BuffersKept(f);
      SinksKept(f);
    }

    /** DataProtoFlow_Free: a buffer that cannot leave its sink yet outlives the flow. */
    method FlowFree(f: DataProtoFlow)
      requires Valid() && f in desired && desired[f] == null
      modifies this`flows, this`buffers, this`desired, f.b`flow, SinkOf(f.b)`detaching
      ensures Valid()
      ensures flows == old(flows) - {f} && desired == old(desired) - {f}
      ensures buffers == if old(f.b.sink) == null then old(buffers) - {f.b} else old(buffers)
      ensures f.b.sink != null ==> f.b.flow == null && f.b.sink.detaching == f.b
    {
      hide FlowsOk, BuffersOk, SinkOk;
      ReleaseBuffer(f);
      desired := desired - {f};
    }

    method ReleaseBuffer(f: DataProtoFlow)
      requires LinksOk() && f in flows && f.sinkDesired == null
      modifies this`flows, this`buffers, f.b`flow, SinkOf(f.b)`detaching
      ensures LinksOk()
      ensures flows == old(flows) - {f}
      ensures buffers == if old(f.b.sink) == null then old(buffers) - {f.b} else old(buffers)
      ensures f.b.sink != null ==> f.b.flow == null && f.b.sink.detaching == f.b
    {
      var b := f.b;
      if b.sink != null {
        if b.IsBusy() {
          b.ScheduleDetach();
          b.flow := null;
        } else {
          // as in AttachBuffer
          assert false;
        }
      } else {
        buffers := buffers - {b};
      }
      flows := flows - {f};
    }

    /** The queue of a sink starts to send a packet of a buffer. */
    method StartSending(b: FlowBuffer)
      requires Valid() && b in buffers && b.sink != null && b.sink.sending == null
      modifies b.sink`sending
      ensures Valid()
      ensures b.IsBusy()
    {
      b.sink.sending := b;
    }

    /** flow_buffer_finish_detach: the buffer goes to where its flow wants it by now, or goes with its flow. */
    method FinishDetach(b: FlowBuffer)
      requires FlowsOk() && BuffersOk() && b in buffers && b.sink != null
      requires b.sink.detaching == b && (b.IsBusy() ==> b.sink.freeing)
      requires b.flow != null && b.flow.sinkDesired != null ==> !b.flow.sinkDesired.freeing
      modifies this`buffers, b`sink, b.sink`detaching, b.sink`sending
      ensures old(b.sink).detaching == null
      ensures old(b.sink).sending == if old(b.sink.sending) == b then null else old(b.sink.sending)
      ensures buffers == if b.flow == null then old(buffers) - {b} else old(buffers)
      ensures b.sink == if b.flow == null then null else b.flow.sinkDesired
    {
      b.Detach();
      if b.flow == null {
        buffers := buffers - {b};
      } else if b.flow.sinkDesired != null {
        b.Attach(b.flow.sinkDesired);
      }
    }

    /** The queue of a sink is done with a packet; if the buffer was waiting to leave, it leaves. */
    method DoneSending(s: DataProtoSink)
      requires Valid() && s in sinks && s.sending != null
      modifies this`buffers, s`sending, s`detaching, s.sending`sink
      ensures Valid()
      ensures s.sending == null && s.detaching == null
      ensures var b := old(s.sending);
        if old(s.detaching) == null then
          b.sink == s && buffers == old(buffers)
        else if b.flow == null then
          b.sink == null && buffers == old(buffers) - {b}
        else
          b.sink == b.flow.sinkDesired && buffers == old(buffers)
    {
      hide DesiredOk;
      var b := s.sending;
      s.sending := null;
      if s.detaching == b {
        FinishDetach(b);
      }
    }

    /** DataProtoSink_Free: once no flow is meant for the sink, only a buffer waiting to leave can still be there. */
    method SinkFree(s: DataProtoSink)
      requires Valid() && s in sinks
      requires forall f | f in desired :: desired[f] != s
      modifies this`sinks, this`buffers, s, set b | b in buffers && b == s.detaching
      ensures Valid()
      ensures sinks == old(sinks) - {s} && buffers <= old(buffers)
      ensures forall b | b in buffers :: b.sink != s
      ensures forall b | b in old(buffers) - buffers :: b.flow == null && b == old(s.detaching)
    {
      hide FlowsOk, BuffersOk, DesiredOk, SinkOk, Expelled;
      NotMeantFor(s);
      Expel(s);
      FlowsWithout(s);
      BuffersWithout(s);
      SinksWithout(s);
    }

    /** The queue of a sink is freed, and a buffer that waits to leave it leaves; then the sink goes. */
    method Expel(s: DataProtoSink)
      requires LinksOk() && s in sinks && forall f | f in flows :: f.sinkDesired != s
      modifies this`sinks, this`buffers, s, set b | b in buffers && b == s.detaching
      ensures Expelled(s) && sinks == old(sinks) - {s} && buffers <= old(buffers)
      ensures forall b | b in old(buffers) - buffers :: b.flow == null && b == old(s.detaching)
    {
      s.freeing := true;
      if s.detaching != null {
        FinishDetach(s.detaching);
      }
      sinks := sinks - {s};
    }

    lemma NotMeantFor(s: DataProtoSink)
      requires DesiredOk() && forall f | f in desired :: desired[f] != s
      ensures forall f | f in flows :: f.sinkDesired != s
    {
    }

    /** Where the one buffer that waited to leave a sink is, if it still is. */
    twostate predicate Expelled(s: DataProtoSink)
      reads this, flows, buffers, sinks
    {
      var d := old(s.detaching);
      && flows == old(flows) && desired == old(desired) && sinks == old(sinks) - {s}
      && (forall f | f in flows :: f.sinkDesired == old(f.sinkDesired) && f.b == old(f.b) && f.sinkDesired != s)
      && buffers == (if d != null && old(d.flow) == null then old(buffers) - {d} else old(buffers))
      && (forall b | b in buffers ::
            && b.flow == old(b.flow)
            && (b == d ==> b.flow != null && b.flow in flows && b.sink == b.flow.sinkDesired)
            && (b != d ==> b.sink == old(b.sink)))
      && (forall t | t in sinks :: t.detaching == old(t.detaching) && t.sending == old(t.sending) && t.freeing == old(t.freeing))
    }

    twostate lemma FlowsWithout(s: DataProtoSink)
      requires Expelled(s) && old(Valid())
      ensures FlowsOk() && DesiredOk()
    {
    }

    twostate lemma BuffersWithout(s: DataProtoSink)
      requires Expelled(s) && s in old(sinks) && old(Valid())
      ensures BuffersOk() && forall b | b in buffers :: b.sink != s
    {
    }

    twostate lemma SinksWithout(s: DataProtoSink)
      requires Expelled(s) && s in old(sinks) && old(Valid())
      ensures forall t | t in sinks :: SinkOk(t)
    {
    }
  }
}
