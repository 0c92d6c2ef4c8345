/** A DHCP client: how it gets an address, keeps it, and tells when it has one. */
module Dhcp {
  import opened Bytes

  // milliseconds
  const RESET_TIMEOUT := 4000
  const REQUEST_TIMEOUT := 3000
  const RENEW_REQUEST_TIMEOUT := 20000
  const MAX_REQUESTS := 4
  const XID_REUSE_MAX := 8

  /** For how long the address is used before it is renewed, and for how long renewing is tried, by a lease in seconds. */
  function RenewTimeout(lease: nat): nat { 500 * lease }
  function LeaseTimeout(lease: nat): nat { 1000 * lease - RenewTimeout(lease) }

  datatype State = Resetting | SentDiscover | SentRequest | Finished | Renewing
  datatype Timer = ResetTimer | RequestTimer | RenewTimer | RenewRequestTimer | LeaseTimer
  datatype Message = Discover(xid: nat) | Request(xid: nat, addr: nat, server: Option<nat>)
  datatype Kind = Offer | Ack | Nak

  /** What an acknowledgement says of the network, and the hardware address it was sent from. */
  datatype Params = Params(mask: nat, router: Option<nat>, servers: seq<nat>, sender: seq<Byte>)

  const NO_PARAMS := Params(0, None, [], [])

  /** A reply that is well formed and for the client. */
  datatype Reply = Reply(kind: Kind, addr: nat, server: nat, lease: nat, params: Params)

  datatype Offered = Offered(addr: nat, server: nat)

  datatype Client = Client(
    state: State, requestCount: nat, xid: nat, xidReuse: nat, offered: Offered, lease: nat, acked: Params,
    /** The running timers, with when they are due. */
    timers: map<Timer, int>,
    sending: bool, sent: seq<Message>,
    /** What has been reported: true for up, false for down. */
    reports: seq<bool>,
    /** The transaction identifiers that have been drawn, and which of them each start of the process was under. */
    drawn: seq<nat>, starts: seq<int>,
    /** When the address was last acknowledged, and by how much later than due its renewal began. */
    ackedAt: int, late: int,
    /** When a request was last handed over to be sent, and when the last one before the acknowledgement was. */
    askedAt: int, askedFor: int)

  /** The event of a reply, a timer or the end of a transmission, and the time it happens at. */
  datatype Event = Received(reply: Reply) | Expired(timer: Timer, newXid: nat) | SendDone

  /** send_message: nothing is sent while something still is. */
  function Send(c: Client, m: Message): Client {
    if c.sending then c else c.(sending := true, sent := c.sent + [m])
  }

  function Ask(c: Client, m: Message, now: int): Client {
    if c.sending then c else Send(c, m).(askedAt := now)
  }

  function SetTimer(c: Client, t: Timer, due: int): Client {
    c.(timers := c.timers[t := due])
  }

  function StopTimers(c: Client, ts: set<Timer>): Client {
    c.(timers := c.timers - ts)
  }

  function Report(c: Client, up: bool): Client {
    c.(reports := c.reports + [up])
  }

  /** The transaction identifier of a start: a new one if that is demanded, or the old one has been used often enough. */
  function Draw(c: Client, force: bool, newXid: nat): Client {
    if force || c.xidReuse == XID_REUSE_MAX then
      c.(xid := newXid, xidReuse := 1, drawn := c.drawn + [newXid], starts := c.starts + [|c.drawn|])
    else
      c.(xidReuse := c.xidReuse + 1, starts := c.starts + [|c.drawn| - 1])
  }

  /** start_process */
  function Start(c: Client, force: bool, newXid: nat, now: int): Client {
    var d := Draw(c, force, newXid);
    SetTimer(Send(d, Discover(d.xid)), ResetTimer, now + RESET_TIMEOUT).(state := SentDiscover)
  }

  function RequestOffered(c: Client): Message {
    Request(c.xid, c.offered.addr, Some(c.offered.server))
  }

  /** The acknowledgement of the address that was asked for. */
  function BeginLease(c: Client, r: Reply, now: int): Client {
    c.(timers := (c.timers - {RequestTimer})[RenewTimer := now + RenewTimeout(r.lease)], state := Finished,
       lease := r.lease, acked := r.params, ackedAt := now, askedFor := c.askedAt, late := 0, reports := c.reports + [true])
  }

  /** The acknowledgement of one that is being renewed; what else it says is not taken over. */
  function ProlongLease(c: Client, r: Reply, now: int): Client {
    c.(timers := (c.timers - {RenewRequestTimer, LeaseTimer})[RenewTimer := now + RenewTimeout(r.lease)], state := Finished,
       lease := r.lease, ackedAt := now, askedFor := c.askedAt, late := 0)
  }

  /** The end of recv_handler_done, for a reply. */
  function Receive(c: Client, r: Reply, now: int): Client {
    match (c.state, r.kind)
    case (SentRequest, Nak) =>
      if r.server != c.offered.server then c else
        SetTimer(StopTimers(c, {RequestTimer}), ResetTimer, now + RESET_TIMEOUT).(state := Resetting)
    case (Finished, Nak) =>
      if r.server != c.offered.server then c else
        Report(SetTimer(StopTimers(c, {RenewTimer}), ResetTimer, now + RESET_TIMEOUT).(state := Resetting), false)
    case (Renewing, Nak) =>
      if r.server != c.offered.server then c else
        Report(SetTimer(StopTimers(c, {RenewRequestTimer, LeaseTimer}), ResetTimer, now + RESET_TIMEOUT).(state := Resetting), false)
    case (SentDiscover, Offer) =>
      if r.addr == 0 then c else
        var d := c.(offered := Offered(r.addr, r.server));
        SetTimer(StopTimers(Ask(d, RequestOffered(d), now), {ResetTimer}), RequestTimer, now + REQUEST_TIMEOUT)
          .(state := SentRequest, requestCount := 1)
    case (SentRequest, Ack) =>
      if r.addr == 0 || Offered(r.addr, r.server) != c.offered then c else
        BeginLease(c, r, now)
    case (Renewing, Ack) =>
      if r.addr == 0 || Offered(r.addr, r.server) != c.offered then c else
        ProlongLease(c, r, now)
    case _ => c
  }

  /** The handlers of the timers. */
  function Expire(c: Client, t: Timer, newXid: nat, now: int): Client
    requires t in c.timers
  {
    var d := StopTimers(c, {t});
    match t
    case ResetTimer => Start(d, c.state == Resetting, newXid, now)
    case RequestTimer =>
      if c.requestCount == MAX_REQUESTS then Start(d, false, newXid, now) else
        SetTimer(Ask(d, RequestOffered(d), now), RequestTimer, now + REQUEST_TIMEOUT).(requestCount := c.requestCount + 1)
    case RenewTimer =>
      Ask(d, Request(d.xid, d.offered.addr, None), now)
        .(timers := d.timers[RenewRequestTimer := now + RENEW_REQUEST_TIMEOUT][LeaseTimer := now + LeaseTimeout(d.lease)],
          state := Renewing, late := now - c.timers[t])
    case RenewRequestTimer =>
      SetTimer(Ask(d, Request(d.xid, d.offered.addr, None), now), RenewRequestTimer, now + RENEW_REQUEST_TIMEOUT)
    case LeaseTimer =>
      Report(Start(StopTimers(d, {RenewRequestTimer}), true, newXid, now), false)
  }

  ghost predicate CanHappen(c: Client, e: Event) {
    match e
    case Received(_) => true
    case Expired(t, _) => t in c.timers
    case SendDone => c.sending
  }

  function Step(c: Client, e: Event, now: int): Client
    requires CanHappen(c, e)
  {
    match e
    case Received(r) => Receive(c, r, now)
    case Expired(t, newXid) => Expire(c, t, newXid, now)
    case SendDone => c.(sending := false)
  }

  function Init(xid: nat, now: int): Client {
    Start(Client(Resetting, 0, 0, 0, Offered(0, 0), 0, NO_PARAMS, map[], false, [], [], [], [], 0, 0, 0, 0), true, xid, now)
  }

  /** The timers that run are those of the state. */
  function TimersOf(s: State): set<Timer> {
    match s
    case Resetting => {ResetTimer}
    case SentDiscover => {ResetTimer}
    case SentRequest => {RequestTimer}
    case Finished => {RenewTimer}
    case Renewing => {RenewRequestTimer, LeaseTimer}
  }

  predicate HasAddress(s: State) {
    s == Finished || s == Renewing
  }

  /** The timers that run, and when they are due as far as that bears on the address. */
  ghost predicate TimersOk(c: Client) {
    && c.timers.Keys == TimersOf(c.state)
    && (c.state == Finished ==> c.timers[RenewTimer] == c.ackedAt + RenewTimeout(c.lease))
    && (c.state == Renewing ==> c.timers[LeaseTimer] == c.ackedAt + 1000 * c.lease + c.late)
  }

  /** Up and down are reported in turn. */
  ghost predicate ReportsOk(c: Client) {
    && (forall i | 0 <= i < |c.reports| :: c.reports[i] == (i % 2 == 0))
    && (HasAddress(c.state) <==> |c.reports| % 2 == 1)
  }

  /** How many starts were under the identifier drawn at some time. */
  function StartsUnder(starts: seq<int>, k: int): nat {
    if starts == [] then 0 else
      StartsUnder(starts[..|starts| - 1], k) + if starts[|starts| - 1] == k then 1 else 0
  }

  ghost predicate CountersOk(c: Client) {
    && 1 <= c.xidReuse <= XID_REUSE_MAX
    && (c.state == SentRequest ==> 1 <= c.requestCount <= MAX_REQUESTS)
    && c.drawn != [] && c.xid == c.drawn[|c.drawn| - 1] && c.xidReuse == StartsUnder(c.starts, |c.drawn| - 1)
    && (forall k | k >= |c.drawn| :: StartsUnder(c.starts, k) == 0)
    && (forall k :: StartsUnder(c.starts, k) <= XID_REUSE_MAX)
  }

  ghost predicate Ok(c: Client) {
    TimersOk(c) && ReportsOk(c) && CountersOk(c)
  }

  lemma MoreStarts(starts: seq<int>, n: int)
    ensures forall k :: StartsUnder(starts + [n], k) == StartsUnder(starts, k) + if n == k then 1 else 0
  {
    assert (starts + [n])[..|starts|] == starts;
  }

  /** A start under a counter that is within its maximum. */
  lemma StartCounts(c: Client, force: bool, newXid: nat, now: int)
    requires CountersOk(c)
    ensures CountersOk(Start(c, force, newXid, now))
  {
    MoreStarts(c.starts, |c.drawn|);
    MoreStarts(c.starts, |c.drawn| - 1);
  }

  lemma InitOk(xid: nat, now: int)
    ensures Ok(Init(xid, now))
  {
    MoreStarts([], 0);
    assert [] + [0] == [0];
    assert [] + [xid] == [xid];
  }

  lemma ReceiveKeepsTimers(c: Client, r: Reply, now: int)
    requires TimersOk(c)
    ensures TimersOk(Receive(c, r, now))
  {
  }

  lemma ReceiveKeepsReports(c: Client, r: Reply, now: int)
    requires ReportsOk(c)
    ensures ReportsOk(Receive(c, r, now))
  {
  }

  lemma ReceiveKeepsCounters(c: Client, r: Reply, now: int)
    requires CountersOk(c)
    ensures CountersOk(Receive(c, r, now))
  {
    hide StartsUnder;
  }

  lemma ReceiveKeepsOk(c: Client, r: Reply, now: int)
    requires Ok(c)
    ensures Ok(Receive(c, r, now))
  {
    hide Receive, TimersOk, ReportsOk, CountersOk;
    ReceiveKeepsTimers(c, r, now);
    ReceiveKeepsReports(c, r, now);
    ReceiveKeepsCounters(c, r, now);
  }

  /** What an expiry leaves of the timers, the reports and the lease. */
  lemma ExpireStarts(c: Client, t: Timer, newXid: nat, now: int)
    requires t in c.timers
    ensures var e, rest := Expire(c, t, newXid, now), c.timers - {t};
      && (e.lease, e.ackedAt) == (c.lease, c.ackedAt)
      && e.reports == (if t == LeaseTimer then c.reports + [false] else c.reports)
      && match t
         case ResetTimer => e.state == SentDiscover && e.timers == rest[ResetTimer := now + RESET_TIMEOUT]
         case RequestTimer =>
           if c.requestCount == MAX_REQUESTS then e.state == SentDiscover && e.timers == rest[ResetTimer := now + RESET_TIMEOUT]
           else e.state == c.state && e.timers == rest[RequestTimer := now + REQUEST_TIMEOUT]
         case RenewTimer =>
           && e.state == Renewing && e.late == now - c.timers[t]
           && e.timers == rest[RenewRequestTimer := now + RENEW_REQUEST_TIMEOUT][LeaseTimer := now + LeaseTimeout(c.lease)]
         case RenewRequestTimer =>
           e.state == c.state && e.late == c.late && e.timers == rest[RenewRequestTimer := now + RENEW_REQUEST_TIMEOUT]
         case LeaseTimer => e.state == SentDiscover && e.timers == (rest - {RenewRequestTimer})[ResetTimer := now + RESET_TIMEOUT]
  {
  }

  lemma ExpireKeepsTimers(c: Client, t: Timer, newXid: nat, now: int)
    requires TimersOk(c) && t in c.timers
    ensures TimersOk(Expire(c, t, newXid, now))
  {
    hide Expire;
    ExpireStarts(c, t, newXid, now);
  }

  lemma ExpireKeepsReports(c: Client, t: Timer, newXid: nat, now: int)
    requires TimersOk(c) && ReportsOk(c) && t in c.timers
    ensures ReportsOk(Expire(c, t, newXid, now))
  {
    hide Expire;
    ExpireStarts(c, t, newXid, now);
  }

  lemma ExpireKeepsCounters(c: Client, t: Timer, newXid: nat, now: int)
    requires TimersOk(c) && CountersOk(c) && t in c.timers
    ensures CountersOk(Expire(c, t, newXid, now))
  {
    hide StartsUnder, Start;
    var d := StopTimers(c, {t});
    match t
    case ResetTimer => StartCounts(d, c.state == Resetting, newXid, now);
    case RequestTimer => StartCounts(d, false, newXid, now);
    case LeaseTimer => StartCounts(StopTimers(d, {RenewRequestTimer}), true, newXid, now);
    case _ =>
  }

  lemma ExpireKeepsOk(c: Client, t: Timer, newXid: nat, now: int)
    requires Ok(c) && t in c.timers
    ensures Ok(Expire(c, t, newXid, now))
  {
    hide Expire, TimersOk, ReportsOk, CountersOk;
    ExpireKeepsTimers(c, t, newXid, now);
    ExpireKeepsReports(c, t, newXid, now);
    ExpireKeepsCounters(c, t, newXid, now);
  }

  lemma StepKeepsOk(c: Client, e: Event, now: int)
    requires Ok(c) && CanHappen(c, e)
    ensures Ok(Step(c, e, now))
  {
    hide Receive, Expire;
    match e
    case Received(r) => ReceiveKeepsOk(c, r, now);
    case Expired(t, newXid) => ExpireKeepsOk(c, t, newXid, now);
    case SendDone =>
  }

  /** Events and when they happen. */
  type History = seq<(Event, int)>

  ghost predicate CanRun(c: Client, h: History)
    decreases |h|
  {
    h == [] || (CanHappen(c, h[0].0) && CanRun(Step(c, h[0].0, h[0].1), h[1..]))
  }

  ghost function RunEnd(c: Client, h: History): Client
    requires CanRun(c, h)
    decreases |h|
  {
    if h == [] then c else RunEnd(Step(c, h[0].0, h[0].1), h[1..])
  }

  lemma {:induction false} RunKeepsOk(c: Client, h: History)
    requires Ok(c) && CanRun(c, h)
    ensures Ok(RunEnd(c, h))
    decreases |h|
  {
    if h != [] {
      StepKeepsOk(c, h[0].0, h[0].1);
      RunKeepsOk(Step(c, h[0].0, h[0].1), h[1..]);
    }
  }

  lemma RunIsOk(xid: nat, start: int, h: History)
    requires CanRun(Init(xid, start), h)
    ensures Ok(RunEnd(Init(xid, start), h))
  {
    hide Init, CanRun, RunEnd;
    InitOk(xid, start);
    RunKeepsOk(Init(xid, start), h);
  }

  /** An address that is in use was acknowledged no longer ago than its lease, unless a timer is overdue or the renewal began late. */
  lemma LeaseWithDelay(xid: nat, start: int, h: History, now: int)
    requires CanRun(Init(xid, start), h)
    ensures var c := RunEnd(Init(xid, start), h);
      HasAddress(c.state) && (forall t | t in c.timers :: now <= c.timers[t]) ==>
        now <= c.ackedAt + 1000 * c.lease + (if c.state == Renewing then c.late else 0)
  {
    hide Init, RunEnd, CanRun, CountersOk, ReportsOk;
    RunIsOk(xid, start, h);
    var c := RunEnd(Init(xid, start), h);
    if c.state == Renewing {
      assert LeaseTimer in c.timers;
    } else if c.state == Finished {
      assert RenewTimer in c.timers;
    }
  }

  /** Each timer fires when it is due. */
  ghost predicate Punctual(c: Client, h: History)
    requires CanRun(c, h)
    decreases |h|
  {
    h == [] || ((h[0].0.Expired? ==> h[0].1 == c.timers[h[0].0.timer]) && Punctual(Step(c, h[0].0, h[0].1), h[1..]))
  }

  lemma {:induction false} PunctualIsNotLate(c: Client, h: History)
    requires CanRun(c, h) && Punctual(c, h) && c.late == 0
    ensures RunEnd(c, h).late == 0
    decreases |h|
  {
    if h != [] {
      PunctualIsNotLate(Step(c, h[0].0, h[0].1), h[1..]);
    }
  }

  /** If timers fire when they are due, an address is never in use longer after it was last acknowledged than its lease. */
  lemma LeaseIsKept(xid: nat, start: int, h: History, now: int)
    requires CanRun(Init(xid, start), h) && Punctual(Init(xid, start), h)
    ensures var c := RunEnd(Init(xid, start), h);
      HasAddress(c.state) && (forall t | t in c.timers :: now <= c.timers[t]) ==> now <= c.ackedAt + 1000 * c.lease
  {
    hide RunEnd, CanRun, Punctual;
    LeaseWithDelay(xid, start, h, now);
    PunctualIsNotLate(Init(xid, start), h);
  }

  /** Whether an event may make the client send a request. */
  ghost predicate MayAsk(e: Event) {
    e.Expired? || (e.Received? && e.reply.kind == Offer)
  }

  /** Nothing happens when a timer is overdue, and nothing is still being sent when a request may have to be. */
  ghost predicate InTime(c: Client, e: Event, now: int) {
    && (forall t | t in c.timers :: now <= c.timers[t])
    && (e.Expired? ==> e.timer in c.timers && now == c.timers[e.timer])
    && (MayAsk(e) ==> !c.sending)
  }

  ghost predicate AllInTime(c: Client, h: History)
    requires CanRun(c, h)
    decreases |h|
  {
    h == [] || (InTime(c, h[0].0, h[0].1) && AllInTime(Step(c, h[0].0, h[0].1), h[1..]))
  }

  /** Requests are repeated at intervals, so an acknowledgement comes within one of the last of them. */
  ghost predicate AskedOk(c: Client) {
    && c.timers.Keys == TimersOf(c.state)
    && (c.state == SentRequest ==> c.timers[RequestTimer] == c.askedAt + REQUEST_TIMEOUT)
    && (c.state == Renewing ==> c.timers[RenewRequestTimer] == c.askedAt + RENEW_REQUEST_TIMEOUT)
    && (HasAddress(c.state) ==> c.ackedAt <= c.askedFor + RENEW_REQUEST_TIMEOUT)
  }

  lemma ReplyKeepsAsked(c: Client, r: Reply, now: int)
    requires AskedOk(c) && InTime(c, Received(r), now)
    ensures AskedOk(Receive(c, r, now))
  {
  }

  /** What an expiry leaves of when requests were sent. */
  lemma ExpireAsks(c: Client, t: Timer, newXid: nat, now: int)
    requires t in c.timers && !c.sending
    ensures var e := Expire(c, t, newXid, now);
      && e.askedFor == c.askedFor
      && e.askedAt == if t == RenewTimer || t == RenewRequestTimer || (t == RequestTimer && c.requestCount != MAX_REQUESTS) then now else c.askedAt
  {
  }

  lemma ExpiryKeepsAsked(c: Client, t: Timer, newXid: nat, now: int)
    requires AskedOk(c) && InTime(c, Expired(t, newXid), now)
    ensures AskedOk(Expire(c, t, newXid, now))
  {
    hide Expire;
    ExpireStarts(c, t, newXid, now);
    ExpireAsks(c, t, newXid, now);
  }

  lemma StepKeepsAsked(c: Client, e: Event, now: int)
    requires AskedOk(c) && CanHappen(c, e) && InTime(c, e, now)
    ensures AskedOk(Step(c, e, now))
  {
    hide AskedOk, Receive, Expire;
    match e
    case Received(r) => ReplyKeepsAsked(c, r, now);
    case Expired(t, newXid) => ExpiryKeepsAsked(c, t, newXid, now);
    case SendDone => SentKeepsAsked(c);
  }

  lemma {:induction false} RunKeepsAsked(c: Client, h: History)
    requires AskedOk(c) && CanRun(c, h) && AllInTime(c, h)
    ensures AskedOk(RunEnd(c, h))
    decreases |h|
  {
    hide AskedOk, InTime;
    if h != [] {
      StepKeepsAsked(c, h[0].0, h[0].1);
      RunKeepsAsked(Step(c, h[0].0, h[0].1), h[1..]);
    }
  }

  lemma SentKeepsAsked(c: Client)
    requires AskedOk(c)
    ensures AskedOk(c.(sending := false))
  {
  }

  lemma {:induction false} InTimeIsPunctual(c: Client, h: History)
    requires CanRun(c, h) && AllInTime(c, h)
    ensures Punctual(c, h)
    decreases |h|
  {
    if h != [] {
      InTimeIsPunctual(Step(c, h[0].0, h[0].1), h[1..]);
    }
  }

  /**
   * Section 4.4.5 of RFC 2131 has the lease begin when the request is sent. The client has it begin when
   * the acknowledgement comes, so it may use an address for longer, but by no more than the time after
   * which it would have repeated the request.
   */
  lemma LeaseSinceRequest(xid: nat, start: int, h: History, now: int)
    requires CanRun(Init(xid, start), h) && AllInTime(Init(xid, start), h)
    ensures var c := RunEnd(Init(xid, start), h);
      HasAddress(c.state) && (forall t | t in c.timers :: now <= c.timers[t]) ==>
        && c.ackedAt <= c.askedFor + RENEW_REQUEST_TIMEOUT
        && now <= c.askedFor + RENEW_REQUEST_TIMEOUT + 1000 * c.lease
  {
    hide RunEnd, CanRun, Punctual, AllInTime;
    InTimeIsPunctual(Init(xid, start), h);
    LeaseIsKept(xid, start, h, now);
    RunKeepsAsked(Init(xid, start), h);
  }

  /** Over every run, no identifier is used for more than eight starts, however often requests under it are repeated. */
  lemma StartsShareFewXids(xid: nat, start: int, h: History, k: nat)
    requires CanRun(Init(xid, start), h)
    ensures var c := RunEnd(Init(xid, start), h);
      && StartsUnder(c.starts, k) <= XID_REUSE_MAX
      && c.drawn != [] && c.xid == c.drawn[|c.drawn| - 1] && c.xidReuse == StartsUnder(c.starts, |c.drawn| - 1)
  {
    hide Init, RunEnd, CanRun, TimersOk, ReportsOk, StartsUnder;
    RunIsOk(xid, start, h);
  }

  /** Over every run, up and down are reported in turn, and up is what was last reported exactly while there is an address. */
  lemma ReportsAlternate(xid: nat, start: int, h: History)
    requires CanRun(Init(xid, start), h)
    ensures var c := RunEnd(Init(xid, start), h);
      && (forall i | 0 <= i < |c.reports| :: c.reports[i] == (i % 2 == 0))
      && (HasAddress(c.state) <==> c.reports != [] && c.reports[|c.reports| - 1])
      && c.timers.Keys == TimersOf(c.state)
      && (c.state == SentRequest ==> c.requestCount <= MAX_REQUESTS) && c.xidReuse <= XID_REUSE_MAX
  {
    hide Init, RunEnd, CanRun, StartsUnder;
    RunIsOk(xid, start, h);
  }
}
