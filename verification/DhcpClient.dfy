/** A DHCP client as it runs: the packets it receives, the timers that expire, and what it sends. */
module DhcpClient {
  import opened Bytes
  import opened Dhcp
  import opened DhcpReply

  /** The client as it runs. */
  class ClientCore {
    var state: State
    var requestCount: nat
    var xid: nat
    var xidReuse: nat
    var offered: Offered
    var lease: nat
    var acked: Params
    var timers: map<Timer, int>
    var sending: bool
    var sent: seq<Message>
    var reports: seq<bool>
    ghost var drawn: seq<nat>
    ghost var starts: seq<int>
    ghost var ackedAt: int
    ghost var late: int
    ghost var askedAt: int
    ghost var askedFor: int

    ghost function Now(): Client
      reads this
    {
      Client(state, requestCount, xid, xidReuse, offered, lease, acked, timers, sending, sent, reports, drawn, starts, ackedAt, late, askedAt, askedFor)
    }

    /** BDHCPClientCore_Init */
    constructor (newXid: nat, now: int)
      ensures Now() == Init(newXid, now) && Ok(Now())
    {
      state, requestCount, xid, xidReuse, offered, lease, acked := Resetting, 0, 0, 0, Offered(0, 0), 0, NO_PARAMS;
      timers, sending, sent, reports, drawn, starts, ackedAt, late, askedAt, askedFor := map[], false, [], [], [], [], 0, 0, 0, 0;
      new;
      StartProcess(true, newXid, now);
      InitOk(newXid, now);
    }

    method SendMessage(m: Message)
      modifies this`sending, this`sent
      ensures Now() == Send(old(Now()), m)
    {
      if sending {
        return;
      }
      sent := sent + [m];
      sending := true;
    }

    method AskFor(m: Message, now: int)
      modifies this`sending, this`sent, this`askedAt
      ensures Now() == Ask(old(Now()), m, now)
    {
      if !sending {
        askedAt := now;
      }
      SendMessage(m);
    }

    method DrawXid(force: bool, newXid: nat)
      modifies this`xid, this`xidReuse, this`drawn, this`starts
      ensures Now() == Draw(old(Now()), force, newXid)
    {
      if force || xidReuse == XID_REUSE_MAX {
        xid, xidReuse, drawn := newXid, 0, drawn + [newXid];
      }
      xidReuse, starts := xidReuse + 1, starts + [|drawn| - 1];
    }

    method StartProcess(force: bool, newXid: nat, now: int)
      modifies this
      ensures Now() == Start(old(Now()), force, newXid, now)
    {
      hide Draw, Send;
      DrawXid(force, newXid);
      SendMessage(Discover(xid));
      timers := timers[ResetTimer := now + RESET_TIMEOUT];
      state := SentDiscover;
    }

    method HandleNak(r: Reply, now: int)
      requires r.kind == Nak
      modifies this
      ensures Now() == Receive(old(Now()), r, now)
    {
      if state != SentRequest && state != Finished && state != Renewing {
        return;
      }
      if r.server != offered.server {
        return;
      }
      if state == SentRequest {
        timers := timers - {RequestTimer};
        timers := timers[ResetTimer := now + RESET_TIMEOUT];
        state := Resetting;
      } else if state == Finished {
        timers := timers - {RenewTimer};
        timers := timers[ResetTimer := now + RESET_TIMEOUT];
        state := Resetting;
        reports := reports + [false];
      } else {
        timers := timers - {RenewRequestTimer, LeaseTimer};
        timers := timers[ResetTimer := now + RESET_TIMEOUT];
        state := Resetting;
        reports := reports + [false];
      }
    }

    method HandleOffer(r: Reply, now: int)
      requires r.kind == Offer
      modifies this
      ensures Now() == Receive(old(Now()), r, now)
    {
      if r.addr == 0 || state != SentDiscover {
        return;
      }
      hide Ask;
      offered := Offered(r.addr, r.server);
      AskFor(Request(xid, offered.addr, Some(offered.server)), now);
      timers := timers - {ResetTimer};
      timers := timers[RequestTimer := now + REQUEST_TIMEOUT];
      state, requestCount := SentRequest, 1;
    }

    method HandleAck(r: Reply, now: int)
      requires r.kind == Ack
      modifies this
      ensures Now() == Receive(old(Now()), r, now)
    {
      hide BeginLease, ProlongLease;
      if r.addr == 0 || (state != SentRequest && state != Renewing) {
        return;
      }
      if r.addr != offered.addr || r.server != offered.server {
        return;
      }
      if state == SentRequest {
        AddressAcked(r, now);
      } else {
        RenewalAcked(r, now);
      }
    }

    method KeepLease(r: Reply, now: int)
      modifies this`lease, this`ackedAt, this`askedFor, this`late
      ensures Now() == old(Now()).(lease := r.lease, ackedAt := now, askedFor := old(askedAt), late := 0)
    {
      lease, ackedAt, askedFor, late := r.lease, now, askedAt, 0;
    }

    method AddressAcked(r: Reply, now: int)
      modifies this
      ensures Now() == BeginLease(old(Now()), r, now)
    {
      KeepLease(r, now);
      acked := r.params;
      timers := (timers - {RequestTimer})[RenewTimer := now + RenewTimeout(lease)];
      state, reports := Finished, reports + [true];
    }

    method RenewalAcked(r: Reply, now: int)
      modifies this
      ensures Now() == ProlongLease(old(Now()), r, now)
    {
      KeepLease(r, now);
      timers := (timers - {RenewRequestTimer, LeaseTimer})[RenewTimer := now + RenewTimeout(lease)];
      state := Finished;
    }

    /** recv_handler_done, once the packet has been taken apart. */
    method HandleReply(r: Reply, now: int)
      requires Ok(Now())
      modifies this
      ensures Now() == Receive(old(Now()), r, now) && Ok(Now())
    {
      hide Receive, Ok;
      ReceiveKeepsOk(Now(), r, now);
      match r.kind
      case Nak => HandleNak(r, now);
      case Offer => HandleOffer(r, now);
      case Ack => HandleAck(r, now);
    }

    /** recv_handler_done: a packet that is no reply to the client is ignored, any other does what the reply means. */
    method PacketReceived(packet: seq<Byte>, mac: seq<Byte>, sender: seq<Byte>, now: int)
      requires Ok(Now())
      modifies this
      ensures Ok(Now())
      ensures match ReplyOf(packet, old(xid), mac, sender)
        case None => Now() == old(Now())
        case Some(r) => Now() == Receive(old(Now()), r, now)
    {
      hide Receive, Ok, ReplyOf;
      if state == Resetting {
        NothingWhileResetting(Now(), now);
        return;
      }
      var r := ReadReply(packet, xid, mac, sender);
      if r != None {
        HandleReply(r.value, now);
      }
    }

    lemma NothingWhileResetting(c: Client, now: int)
      requires c.state == Resetting
      ensures forall r :: Receive(c, r, now) == c
    {
    }

    method ResetTimerExpired(newXid: nat, now: int)
      requires Ok(Now()) && ResetTimer in timers
      modifies this
      ensures Now() == Expire(old(Now()), ResetTimer, newXid, now) && Ok(Now())
    {
      hide Ok, Start;
      ExpireKeepsOk(Now(), ResetTimer, newXid, now);
      timers := timers - {ResetTimer};
      StartProcess(state == Resetting, newXid, now);
    }

    method RequestTimerExpired(newXid: nat, now: int)
      requires Ok(Now()) && RequestTimer in timers
      modifies this
      ensures Now() == Expire(old(Now()), RequestTimer, newXid, now) && Ok(Now())
    {
      hide Ok, Start, Ask;
      ExpireKeepsOk(Now(), RequestTimer, newXid, now);
      timers := timers - {RequestTimer};
      if requestCount == MAX_REQUESTS {
        StartProcess(false, newXid, now);
        return;
      }
      AskFor(Request(xid, offered.addr, Some(offered.server)), now);
      timers := timers[RequestTimer := now + REQUEST_TIMEOUT];
      requestCount := requestCount + 1;
    }

    method RenewTimerExpired(now: int)
      requires Ok(Now()) && RenewTimer in timers
      modifies this
      ensures Now() == Expire(old(Now()), RenewTimer, 0, now) && Ok(Now())
    {
      hide Ok, Start, Ask;
      ExpireKeepsOk(Now(), RenewTimer, 0, now);
      ghost var due := timers[RenewTimer];
      timers := timers - {RenewTimer};
      AskFor(Request(xid, offered.addr, None), now);
      BeginRenewal(due, now);
    }

    method BeginRenewal(ghost due: int, now: int)
      modifies this`timers, this`state, this`late
      ensures Now() == old(Now()).(
        timers := old(timers)[RenewRequestTimer := now + RENEW_REQUEST_TIMEOUT][LeaseTimer := now + LeaseTimeout(lease)],
        state := Renewing, late := now - due)
    {
      timers := timers[RenewRequestTimer := now + RENEW_REQUEST_TIMEOUT][LeaseTimer := now + LeaseTimeout(lease)];
      state, late := Renewing, now - due;
    }

    method RenewRequestTimerExpired(now: int)
      requires Ok(Now()) && RenewRequestTimer in timers
      modifies this
      ensures Now() == Expire(old(Now()), RenewRequestTimer, 0, now) && Ok(Now())
    {
      hide Ok, Start, Ask;
      ExpireKeepsOk(Now(), RenewRequestTimer, 0, now);
      timers := timers - {RenewRequestTimer};
      AskFor(Request(xid, offered.addr, None), now);
      timers := timers[RenewRequestTimer := now + RENEW_REQUEST_TIMEOUT];
    }

    method LeaseTimerExpired(newXid: nat, now: int)
      requires Ok(Now()) && LeaseTimer in timers
      modifies this
      ensures Now() == Expire(old(Now()), LeaseTimer, newXid, now) && Ok(Now())
    {
      hide Ok, Start;
      ExpireKeepsOk(Now(), LeaseTimer, newXid, now);
      timers := timers - {LeaseTimer};
      timers := timers - {RenewRequestTimer};
      StartProcess(true, newXid, now);
      reports := reports + [false];
    }

    method SendFinished()
      requires sending
      modifies this`sending
      ensures Now() == Step(old(Now()), SendDone, 0)
    {
      sending := false;
    }
  }
}
