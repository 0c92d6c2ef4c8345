/** What a DHCP client asks for and what it heeds, over whole runs and whatever the state. */
module DhcpLaws {
  import opened Bytes
  import opened Dhcp

  // ----- which replies count

  /** A reply that the client is waiting for. */
  predicate Heeded(c: Client, r: Reply) {
    match r.kind
    case Offer => c.state == SentDiscover && r.addr != 0
    case Ack => (c.state == SentRequest || c.state == Renewing) && r.addr != 0 && r.addr == c.offered.addr && r.server == c.offered.server
    case Nak => (c.state == SentRequest || c.state == Finished || c.state == Renewing) && r.server == c.offered.server
  }

  /**
   * An offer is taken up, the acknowledgement of what was asked for gives an address for its lease, a
   * refusal by the server that was asked takes it away and starts over after a while; any other reply
   * changes nothing.
   */
  lemma RepliesDecide(c: Client, r: Reply, now: int)
    requires Ok(c)
    ensures var d := Receive(c, r, now);
      if !Heeded(c, r) then d == c else
        match r.kind
        case Offer =>
          && d.state == SentRequest && (d.offered.addr, d.offered.server) == (r.addr, r.server) && d.requestCount == 1
          && d.timers == map[RequestTimer := now + REQUEST_TIMEOUT] && d.reports == c.reports
          && d.sent == (if c.sending then c.sent else c.sent + [Request(c.xid, r.addr, Some(r.server))])
        case Ack =>
          && HasAddress(d.state) && d.state == Finished && d.lease == r.lease && d.ackedAt == now
          && d.acked == (if c.state == SentRequest then r.params else c.acked)
          && d.reports == (if HasAddress(c.state) then c.reports else c.reports + [true]) && d.sent == c.sent
          && RenewTimer in d.timers && 2 * (d.timers[RenewTimer] - now) == 1000 * r.lease
        case Nak =>
          && d.state == Resetting && d.timers == map[ResetTimer := now + RESET_TIMEOUT] && d.sent == c.sent
          && d.reports == if HasAddress(c.state) then c.reports + [false] else c.reports
  {
    hide CountersOk, ReportsOk;
  }

  // ----- what timers do

  /** A start of the process, under a new identifier only if that is demanded or the old one has been used for eight starts. */
  ghost predicate StartsOver(c: Client, d: Client, demanded: bool, newXid: nat, now: int) {
    && d.state == SentDiscover && d.timers == map[ResetTimer := now + RESET_TIMEOUT]
    && (d.xid, d.drawn) == (if demanded || c.xidReuse == XID_REUSE_MAX then (newXid, c.drawn + [newXid]) else (c.xid, c.drawn))
    && d.sent == (if c.sending then c.sent else c.sent + [Discover(d.xid)])
  }

  /**
   * A request without an answer is repeated, but after the fourth the process starts over, and so does
   * it after a refusal, and when an offer does not come; after half of the lease it is renewed, with
   * requests at intervals until it is over, and only then is the address given up.
   */
  lemma TimersDecide(c: Client, t: Timer, newXid: nat, now: int)
    requires Ok(c) && t in c.timers
    ensures TimerDoes(c, t, newXid, now, Expire(c, t, newXid, now))
  {
    hide Expire, TimerDoes, Ok;
    match t
    case ResetTimer => StartTimersDecide(c, t, newXid, now);
    case LeaseTimer => StartTimersDecide(c, t, newXid, now);
    case RequestTimer => RequestTimerDecides(c, newXid, now);
    case _ => RenewTimersDecide(c, t, newXid, now);
  }

  ghost predicate TimerDoes(c: Client, t: Timer, newXid: nat, now: int, d: Client) {
    && d.reports == (if t == LeaseTimer then c.reports + [false] else c.reports) && d.lease == c.lease
    && match t
       case ResetTimer => StartsOver(c, d, c.state == Resetting, newXid, now)
       case RequestTimer =>
         if c.requestCount == MAX_REQUESTS then StartsOver(c, d, false, newXid, now)
         else
           && d.state == SentRequest && d.requestCount == c.requestCount + 1 && d.timers == map[RequestTimer := now + REQUEST_TIMEOUT]
           && d.sent == if c.sending then c.sent else c.sent + [Request(c.xid, c.offered.addr, Some(c.offered.server))]
       case RenewTimer =>
         && d.state == Renewing && d.timers.Keys == {RenewRequestTimer, LeaseTimer}
         && d.timers[RenewRequestTimer] == now + RENEW_REQUEST_TIMEOUT && 2 * (d.timers[LeaseTimer] - now) == 1000 * c.lease
         && d.sent == if c.sending then c.sent else c.sent + [Request(c.xid, c.offered.addr, None)]
       case RenewRequestTimer =>
         && d.state == Renewing && d.timers == c.timers[RenewRequestTimer := now + RENEW_REQUEST_TIMEOUT]
         && d.sent == if c.sending then c.sent else c.sent + [Request(c.xid, c.offered.addr, None)]
       case LeaseTimer => StartsOver(c, d, true, newXid, now)
  }

  lemma StartTimersDecide(c: Client, t: Timer, newXid: nat, now: int)
    requires Ok(c) && t in c.timers && (t == ResetTimer || t == LeaseTimer)
    ensures TimerDoes(c, t, newXid, now, Expire(c, t, newXid, now))
  {
    hide CountersOk, ReportsOk;
  }

  lemma RequestTimerDecides(c: Client, newXid: nat, now: int)
    requires Ok(c) && RequestTimer in c.timers
    ensures TimerDoes(c, RequestTimer, newXid, now, Expire(c, RequestTimer, newXid, now))
  {
    hide CountersOk, ReportsOk;
  }

  lemma RenewTimersDecide(c: Client, t: Timer, newXid: nat, now: int)
    requires Ok(c) && t in c.timers && (t == RenewTimer || t == RenewRequestTimer)
    ensures TimerDoes(c, t, newXid, now, Expire(c, t, newXid, now))
  {
    hide CountersOk, ReportsOk;
  }

  // ----- what is asked for

  /** The request for what a server has offered, and the one to go on using it. */
  function FirstRequest(c: Client): Message {
    Request(c.xid, c.offered.addr, Some(c.offered.server))
  }

  function RenewalRequest(c: Client): Message {
    Request(c.xid, c.offered.addr, None)
  }

  /**
   * The last messages: as many equal requests for what was offered as have been counted, while the first
   * answer is awaited; at least one, and behind it nothing but such requests and renewals, while there
   * is an address.
   */
  ghost predicate Requested(c: Client) {
    && (c.state == SentRequest ==>
          1 <= c.requestCount <= |c.sent| && forall i | |c.sent| - c.requestCount <= i < |c.sent| :: c.sent[i] == FirstRequest(c))
    && (HasAddress(c.state) ==> exists i :: AskedAt(c, i))
  }

  ghost predicate AskedAt(c: Client, i: int) {
    && 0 <= i < |c.sent| && c.sent[i] == FirstRequest(c)
    && forall j | i < j < |c.sent| :: c.sent[j] == FirstRequest(c) || c.sent[j] == RenewalRequest(c)
  }

  lemma ReceiveKeepsRequested(c: Client, r: Reply, now: int)
    requires Ok(c) && Requested(c) && InTime(c, Received(r), now)
    ensures Requested(Receive(c, r, now))
  {
    hide CountersOk, ReportsOk;
    var d := Receive(c, r, now);
    if c.state == SentRequest && HasAddress(d.state) {
      assert AskedAt(d, |c.sent| - 1);
    }
    if HasAddress(c.state) && HasAddress(d.state) {
      var i :| AskedAt(c, i);
      assert AskedAt(d, i);
    }
  }

  lemma ExpireKeepsRequested(c: Client, t: Timer, newXid: nat, now: int)
    requires Ok(c) && Requested(c) && InTime(c, Expired(t, newXid), now)
    ensures Requested(Expire(c, t, newXid, now))
  {
    hide ReportsOk, StartsUnder;
    var d := Expire(c, t, newXid, now);
    if HasAddress(c.state) && HasAddress(d.state) {
      var i :| AskedAt(c, i);
      assert AskedAt(d, i);
    }
  }

  lemma StepKeepsRequested(c: Client, e: Event, now: int)
    requires Ok(c) && Requested(c) && CanHappen(c, e) && InTime(c, e, now)
    ensures Requested(Step(c, e, now))
  {
    hide Ok, Receive, Expire, InTime;
    match e
    case Received(r) => ReceiveKeepsRequested(c, r, now);
    case Expired(t, newXid) => ExpireKeepsRequested(c, t, newXid, now);
    case SendDone => SentStaysRequested(c);
  }

  lemma SentStaysRequested(c: Client)
    requires Requested(c)
    ensures Requested(c.(sending := false))
  {
    if HasAddress(c.state) {
      var i :| AskedAt(c, i);
      assert AskedAt(c.(sending := false), i);
    }
  }

  lemma {:induction false} RunKeepsRequested(c: Client, h: History)
    requires Ok(c) && Requested(c) && CanRun(c, h) && AllInTime(c, h)
    ensures Ok(RunEnd(c, h)) && Requested(RunEnd(c, h))
    decreases |h|
  {
    hide Ok, Requested, InTime;
    if h != [] {
      StepKeepsOk(c, h[0].0, h[0].1);
      StepKeepsRequested(c, h[0].0, h[0].1);
      RunKeepsRequested(Step(c, h[0].0, h[0].1), h[1..]);
    }
  }

  /**
   * Over every run in which messages are sent in time: an address in use was asked for by name, with the
   * server that offered it, all requests since name the same server or, to go on using it, none, and as
   * many requests for an offer are sent as are counted.
   */
  lemma AddressWasRequested(xid: nat, start: int, h: History)
    requires CanRun(Init(xid, start), h) && AllInTime(Init(xid, start), h)
    ensures Requested(RunEnd(Init(xid, start), h))
  {
    hide Ok, CanRun, AllInTime, RunEnd;
    InitOk(xid, start);
    RunKeepsRequested(Init(xid, start), h);
  }
}
