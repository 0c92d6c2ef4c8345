/**
 * How long what the disassembler has written waits in a packet, and how large its chunks are: over
 * every run, packets are full when they go out, or have waited for the latency.
 */
module FragmentLatency {
  import opened Bytes
  import opened FragmentProto
  import opened FragmentRoundTrip
  import D = DisassemblerSpec

  /** Whether it was the timer that handed over each packet. */
  ghost function ByTimer(cfg: D.Config, events: seq<D.Event>): seq<bool>
    requires D.ConfigOk(cfg) && LegalRun(cfg, events)
    decreases |events|
  {
    if events == [] then [] else
      var init, e := events[..|events| - 1], events[|events| - 1];
      ByTimer(cfg, init) + if D.Step(cfg, SendAll(cfg, init).st, e).packet.Some? then [e.Timer?] else []
  }

  ghost predicate Full(cfg: D.Config, packet: seq<Chunk>) {
    D.Room(cfg, D.PacketLen(packet)) <= 0
  }

  /** If packets may wait, each is full that no timer has handed over; if they may not, nothing is ever kept. */
  lemma {:induction false} PacketsAreFull(cfg: D.Config, events: seq<D.Event>)
    requires D.ConfigOk(cfg) && LegalRun(cfg, events)
    ensures var s, byTimer := SendAll(cfg, events), ByTimer(cfg, events);
      && |byTimer| == |s.packets|
      && (cfg.latency >= 0 ==> forall k | 0 <= k < |s.packets| :: byTimer[k] || Full(cfg, s.packets[k]))
      && (cfg.latency < 0 ==> !D.Holding(s.st) && forall k | 0 <= k < |s.packets| :: !byTimer[k])
    decreases |events|
  {
    hide D.Step, D.Legal, D.PacketLen, D.StateOk;
    if events != [] {
      var init, e := events[..|events| - 1], events[|events| - 1];
      PacketsAreFull(cfg, init);
      D.HandsOver(cfg, SendAll(cfg, init).st, e);
    }
  }

  /** The timer is not kept waiting: no time passes while it is due. */
  ghost predicate Punctual(cfg: D.Config, events: seq<D.Event>)
    requires D.ConfigOk(cfg) && LegalRun(cfg, events)
    decreases |events|
  {
    events == [] ||
    var init, e, st := events[..|events| - 1], events[|events| - 1], SendAll(cfg, events[..|events| - 1]).st;
    Punctual(cfg, init) && (e.Tick? && st.timer.Some? ==> st.now + e.dt <= st.timer.value)
  }

  /** Over every run with a punctual timer, what is in a packet has waited for no longer than the latency, and the timer hands it over just then. */
  lemma {:induction false} NothingWaitsLonger(cfg: D.Config, events: seq<D.Event>)
    requires D.ConfigOk(cfg) && LegalRun(cfg, events) && Punctual(cfg, events)
    ensures var st := SendAll(cfg, events).st;
      && (D.Holding(st) ==> st.begun <= st.now <= st.begun + cfg.latency)
      && (D.Legal(st, D.Timer) ==> st.now == st.begun + cfg.latency)
    decreases |events|
  {
    hide D.Step, D.PacketLen;
    if events != [] {
      var init, e := events[..|events| - 1], events[|events| - 1];
      NothingWaitsLonger(cfg, init);
      D.HandsOver(cfg, SendAll(cfg, init).st, e);
    }
  }
}
