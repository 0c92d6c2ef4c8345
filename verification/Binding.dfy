/**
 * How two peers find a way to connect: one binds its addresses in turn and tells the
 * other to connect, until the other can, or the other has its turn, or both give up.
 */
module Binding {
  import opened Bytes

  datatype Msg = YouConnect(addr: nat) | CannotConnect | CannotBind | YouRetry

  /** What has become of the link: not there, there but not bound, bound to an address of one's own, or connecting to one of the peer's. */
  datatype Link = NoLink | Unbound | Listening(addr: nat) | Connecting(addr: nat)

  /** One side; retry tells whether its reset timer runs. */
  datatype Side = Side(binding: bool, addrpos: nat, link: Link, relay: bool, retry: bool)

  const IDLE := Side(false, 0, NoLink, false, false)

  /** What comes of trying an address of one's own. */
  datatype Attempt = LinkFails | NotBound | Bound

  /** What comes of the addresses that the peer has sent. */
  datatype Connect = NoneUsable | ConnectFails | Connects

  /** peer_need_relay */
  function NeedRelay(s: Side): Side {
    s.(link := NoLink, relay := true)
  }

  /** peer_cleanup_connections and peer_init_link */
  function FreshLink(s: Side): Side {
    s.(link := Unbound, relay := false)
  }

  /** peer_reset: the master tries again after a while, the slave asks it to. */
  function Reset(s: Side, master: bool): (Side, Option<Msg>) {
    var clean := s.(link := NoLink, relay := false);
    if master then (clean.(retry := true), None) else (clean, Some(YouRetry))
  }

  /**
   * peer_bind: goes on to the next address that has external addresses and can be bound.
   * The slave is content with a relay if there is none.
   */
  function Bind(s: Side, master: bool, external: seq<bool>, attempt: nat -> Attempt): (r: (Side, Option<Msg>))
    decreases |external| - s.addrpos
  {
    if s.addrpos >= |external| then
      var done := s.(binding := false);
      (if master then done else NeedRelay(done), Some(CannotBind))
    else
      var next := s.(addrpos := s.addrpos + 1);
      if !external[s.addrpos] then Bind(next, master, external, attempt) else
      match attempt(s.addrpos)
      case LinkFails => Reset(next, master)
      case NotBound => Bind(FreshLink(next), master, external, attempt)
      case Bound => (FreshLink(next).(link := Listening(s.addrpos)), Some(YouConnect(s.addrpos)))
  }

  /** peer_start_binding */
  function StartBinding(s: Side, master: bool, external: seq<bool>, attempt: nat -> Attempt): (Side, Option<Msg>) {
    Bind(s.(binding := true, addrpos := 0), master, external, attempt)
  }

  /** peer_reset_timer_handler */
  function Retry(s: Side, external: seq<bool>, attempt: nat -> Attempt): (Side, Option<Msg>) {
    StartBinding(s.(retry := false), true, external, attempt)
  }

  /** What a peer does with a message, and what it sends then. */
  function Receive(s: Side, master: bool, external: seq<bool>, m: Msg, connect: Connect, attempt: nat -> Attempt): (Side, Option<Msg>) {
    match m
    case YouConnect(addr) => (
      match connect
      case NoneUsable => (s, Some(CannotConnect))
      case ConnectFails => Reset(s, master)
      case Connects => (FreshLink(s).(link := Connecting(addr)), None))
    case CannotConnect =>
      if s.binding then Bind(s, master, external, attempt) else (s, None)
    case CannotBind =>
      if master then (NeedRelay(s), None) else StartBinding(s, master, external, attempt)
    case YouRetry =>
      if master then Reset(s, master) else (s, None)
  }

  /** Both peers, and the messages on their way to each. */
  datatype Pair = Pair(master: Side, slave: Side, toMaster: seq<Msg>, toSlave: seq<Msg>)

  /** Whom the next message is delivered to, and what comes of what it tries then. */
  datatype Delivery = Delivery(toMaster: bool, connect: Connect, attempt: nat -> Attempt)

  /** The addresses of both, each with whether it has external addresses. */
  datatype Addrs = Addrs(master: seq<bool>, slave: seq<bool>)

  ghost predicate CanDeliver(p: Pair, d: Delivery) {
    if d.toMaster then p.toMaster != [] else p.toSlave != []
  }

  function Sent(m: Option<Msg>): seq<Msg> {
    if m == None then [] else [m.value]
  }

  /** What a delivery does to the peer it is for, and what that sends. */
  ghost function Handled(a: Addrs, p: Pair, d: Delivery): (Side, Option<Msg>)
    requires CanDeliver(p, d)
  {
    if d.toMaster then Receive(p.master, true, a.master, p.toMaster[0], d.connect, d.attempt)
    else Receive(p.slave, false, a.slave, p.toSlave[0], d.connect, d.attempt)
  }

  ghost function Deliver(a: Addrs, p: Pair, d: Delivery): Pair
    requires CanDeliver(p, d)
  {
    var r := Handled(a, p, d);
    if d.toMaster then Pair(r.0, p.slave, p.toMaster[1..], p.toSlave + Sent(r.1))
    else Pair(p.master, r.0, p.toMaster + Sent(r.1), p.toSlave[1..])
  }

  /** No message is on its way, and the master is about to begin, for the first time or once more; the peers may be in whatever state. */
  ghost predicate Quiet(a: Addrs, p: Pair) {
    && p.toMaster == [] && p.toSlave == [] && p.master.addrpos <= |a.master| && p.slave.addrpos <= |a.slave|
    && SideOk(p.master) && SideOk(p.slave)
  }

  /** A peer with a link has no relay and does not wait for one. */
  ghost predicate SideOk(s: Side) {
    s.relay ==> s.link == NoLink
  }

  /** peer_job_init and the reset timer: the master begins. */
  ghost function Begin(a: Addrs, p: Pair, attempt: nat -> Attempt): Pair {
    var r := Retry(p.master, a.master, attempt);
    Pair(r.0, p.slave, p.toMaster, p.toSlave + Sent(r.1))
  }

  /** Whether one peer listens where the other connects to. */
  ghost predicate Connected(p: Pair) {
    || (p.master.link.Listening? && p.slave.link == Connecting(p.master.link.addr))
    || (p.slave.link.Listening? && p.master.link == Connecting(p.slave.link.addr))
  }

  ghost predicate BothWantRelay(p: Pair) {
    p.master.relay && p.slave.relay && p.master.link == NoLink && p.slave.link == NoLink
  }

  /** The stages a pair goes through: whose turn it is to bind, which message is on its way, or that the master is to begin once more. */
  datatype Stage =
    MasterOffers | MasterRefused | MasterPassed | SlaveOffers | SlaveRefused | SlavePassed | Done | RetryAsked | Retrying

  ghost predicate InStage(a: Addrs, p: Pair, stage: Stage) {
    && p.master.addrpos <= |a.master| && p.slave.addrpos <= |a.slave| && (p.master.retry <==> stage == Retrying)
    && SideOk(p.master) && SideOk(p.slave)
    && match stage
       case MasterOffers =>
         && p.toMaster == [] && p.master.binding && p.master.link.Listening?
         && p.toSlave == [YouConnect(p.master.link.addr)]
       case MasterRefused => p.toMaster == [CannotConnect] && p.toSlave == [] && p.master.binding
       case MasterPassed => p.toMaster == [] && p.toSlave == [CannotBind] && !p.master.binding
       case SlaveOffers =>
         && p.toSlave == [] && p.slave.binding && p.slave.link.Listening? && !p.master.binding
         && p.toMaster == [YouConnect(p.slave.link.addr)]
       case SlaveRefused => p.toSlave == [CannotConnect] && p.toMaster == [] && p.slave.binding && !p.master.binding
       case SlavePassed =>
         && p.toMaster == [CannotBind] && p.toSlave == [] && !p.slave.binding && p.slave.relay && p.slave.link == NoLink
         && !p.master.binding
       case Done => p.toMaster == [] && p.toSlave == [] && Connected(p) != BothWantRelay(p)
       case RetryAsked => p.toMaster == [YouRetry] && p.toSlave == []
       case Retrying => p.toMaster == [] && p.toSlave == [] && p.master.link == NoLink && !p.master.relay
  }

  /** How many deliveries there can be from a stage on. */
  ghost function Left(a: Addrs, p: Pair, stage: Stage): nat
    requires InStage(a, p, stage)
  {
    var m, s := |a.master| - p.master.addrpos, |a.slave| - p.slave.addrpos;
    match stage
    case MasterOffers => 2 * m + 2 * |a.slave| + 4
    case MasterRefused => 2 * m + 2 * |a.slave| + 3
    case MasterPassed => 2 * |a.slave| + 2
    case SlaveOffers => 2 * s + 3
    case SlaveRefused => 2 * s + 2
    case SlavePassed => 1
    case Done => 0
    case RetryAsked => 1
    case Retrying => 0
  }

  /** Of the addresses in a range that have external addresses, each was tried and could not be bound. */
  ghost predicate NoneBound(external: seq<bool>, attempt: nat -> Attempt, from: nat, to: nat) {
    forall i | from <= i < to && i < |external| && external[i] :: attempt(i) == NotBound
  }

  /** The peer listens at the first of the addresses left that can be bound. */
  ghost predicate Offered(s: Side, external: seq<bool>, attempt: nat -> Attempt, r: Side, addr: nat) {
    && r == Side(true, addr + 1, Listening(addr), false, s.retry)
    && s.addrpos <= addr < |external| && external[addr] && attempt(addr) == Bound
    && NoneBound(external, attempt, s.addrpos, addr)
  }

  /** None of the addresses left can be bound. */
  ghost predicate Passed(s: Side, master: bool, external: seq<bool>, attempt: nat -> Attempt, r: Side) {
    && r.addrpos == |external| && !r.binding && r.retry == s.retry
    && NoneBound(external, attempt, s.addrpos, |external|)
    && (if !master then r.relay && r.link == NoLink
        else if exists i :: s.addrpos <= i < |external| && external[i] then !r.relay && r.link == Unbound
        else r.relay == s.relay && r.link == s.link)
  }

  /** There is no link for the first of the addresses left that could otherwise have been bound. */
  ghost predicate Stopped(s: Side, master: bool, external: seq<bool>, attempt: nat -> Attempt, r: Side) {
    && r == Side(true, r.addrpos, NoLink, false, master || s.retry)
    && s.addrpos < r.addrpos <= |external| && external[r.addrpos - 1] && attempt(r.addrpos - 1) == LinkFails
    && NoneBound(external, attempt, s.addrpos, r.addrpos - 1)
  }

  ghost predicate BindsTo(s: Side, master: bool, external: seq<bool>, attempt: nat -> Attempt, r: (Side, Option<Msg>)) {
    match r.1
    case Some(YouConnect(addr)) => Offered(s, external, attempt, r.0, addr)
    case Some(CannotBind) => Passed(s, master, external, attempt, r.0)
    case Some(YouRetry) => !master && Stopped(s, master, external, attempt, r.0)
    case Some(CannotConnect) => false
    case None => master && Stopped(s, master, external, attempt, r.0)
  }

  /** What comes of the addresses behind one that is passed over. */
  lemma PassedOver(s: Side, next: Side, master: bool, external: seq<bool>, attempt: nat -> Attempt, r: (Side, Option<Msg>))
    requires s.addrpos < |external| && BindsTo(next, master, external, attempt, r)
    requires if external[s.addrpos] then attempt(s.addrpos) == NotBound && next == FreshLink(s.(addrpos := s.addrpos + 1))
             else next == s.(addrpos := s.addrpos + 1)
    ensures BindsTo(s, master, external, attempt, r)
  {
    assert forall to :: NoneBound(external, attempt, next.addrpos, to) ==> NoneBound(external, attempt, s.addrpos, to);
  }

  /**
   * Binding either finds an address further on, which it listens at and offers, or passes the
   * turn on, or ends in a reset because a link cannot be made; and it tries all addresses before.
   */
  lemma {:induction false} BindOutcome(s: Side, master: bool, external: seq<bool>, attempt: nat -> Attempt)
    requires s.binding && s.addrpos <= |external|
    ensures BindsTo(s, master, external, attempt, Bind(s, master, external, attempt))
    decreases |external| - s.addrpos
  {
    if s.addrpos < |external| && (external[s.addrpos] ==> attempt(s.addrpos) == NotBound) {
      hide BindsTo;
      var plain := s.(addrpos := s.addrpos + 1);
      var next := if external[s.addrpos] then FreshLink(plain) else plain;
      BindOutcome(next, master, external, attempt);
      PassedOver(s, next, master, external, attempt, Bind(next, master, external, attempt));
    }
  }

  /** The stage that a message of the master, or of the slave, or none, leads to. */
  function MasterStage(m: Option<Msg>): Stage {
    if m == None then Retrying else if m.value.YouConnect? then MasterOffers else MasterPassed
  }

  function SlaveStage(m: Option<Msg>): Stage {
    if m == Some(YouRetry) then RetryAsked else if m != None && m.value.YouConnect? then SlaveOffers else SlavePassed
  }

  ghost function StageAfter(a: Addrs, p: Pair, stage: Stage, d: Delivery): Stage
    requires InStage(a, p, stage) && CanDeliver(p, d)
  {
    var answer := Handled(a, p, d).1;
    match stage
    case MasterOffers => if d.connect == Connects then Done else if d.connect == ConnectFails then RetryAsked else MasterRefused
    case MasterRefused => MasterStage(answer)
    case MasterPassed => SlaveStage(answer)
    case SlaveOffers => if d.connect == Connects then Done else if d.connect == ConnectFails then Retrying else SlaveRefused
    case SlaveRefused => SlaveStage(answer)
    case SlavePassed => Done
    case Done => Done
    case RetryAsked => Retrying
    case Retrying => Retrying
  }

  ghost predicate CanRun(a: Addrs, p: Pair, ds: seq<Delivery>)
    decreases |ds|
  {
    ds == [] || (CanDeliver(p, ds[0]) && CanRun(a, Deliver(a, p, ds[0]), ds[1..]))
  }

  ghost function RunEnd(a: Addrs, p: Pair, ds: seq<Delivery>): Pair
    requires CanRun(a, p, ds)
    decreases |ds|
  {
    if ds == [] then p else RunEnd(a, Deliver(a, p, ds[0]), ds[1..])
  }

  ghost function Offers(m: Option<Msg>): nat {
    if m.Some? && m.value.YouConnect? then 1 else 0
  }

  /** How many times either tells the other to connect in the course of some deliveries. */
  ghost function OffersIn(a: Addrs, p: Pair, ds: seq<Delivery>): nat
    requires CanRun(a, p, ds)
    decreases |ds|
  {
    if ds == [] then 0 else Offers(Handled(a, p, ds[0]).1) + OffersIn(a, Deliver(a, p, ds[0]), ds[1..])
  }

  ghost function OffersLeft(a: Addrs, p: Pair, stage: Stage): nat
    requires InStage(a, p, stage)
  {
    match stage
    case MasterOffers => |a.master| - p.master.addrpos + |a.slave|
    case MasterRefused => |a.master| - p.master.addrpos + |a.slave|
    case MasterPassed => |a.slave|
    case SlaveOffers => |a.slave| - p.slave.addrpos
    case SlaveRefused => |a.slave| - p.slave.addrpos
    case _ => 0
  }

  /** Links can be made whenever one is tried to be. */
  ghost predicate LinksMade(d: Delivery) {
    d.connect != ConnectFails && forall i :: d.attempt(i) != LinkFails
  }

  /** While the master binds, and at the end, the slave does not unless it did before. */
  ghost predicate OneBinds(p: Pair, stage: Stage) {
    && (stage == MasterOffers || stage == MasterRefused || stage == MasterPassed ==> !p.slave.binding)
    && (stage != RetryAsked && stage != Retrying ==> !(p.master.binding && p.slave.binding))
  }

  ghost predicate Retries(stage: Stage) {
    stage == RetryAsked || stage == Retrying
  }

  /** A delivery leads on to a stage from which there are fewer to come, and fewer offers by those it makes; and to a retry only if a link could not be made. */
  ghost predicate LeadsOn(a: Addrs, p: Pair, stage: Stage, d: Delivery)
    requires InStage(a, p, stage) && CanDeliver(p, d)
  {
    var q, next := Deliver(a, p, d), StageAfter(a, p, stage, d);
    && InStage(a, q, next) && Left(a, q, next) < Left(a, p, stage)
    && Offers(Handled(a, p, d).1) + OffersLeft(a, q, next) <= OffersLeft(a, p, stage)
    && (OneBinds(p, stage) ==> OneBinds(q, next))
    && (!Retries(stage) && LinksMade(d) ==> !Retries(next))
  }

  /** While one message is on its way, delivering it leaves the answer to it, if there is one. */
  lemma OneMessage(a: Addrs, p: Pair, d: Delivery)
    requires CanDeliver(p, d) && |p.toMaster| + |p.toSlave| == 1
    ensures var r := Handled(a, p, d);
      Deliver(a, p, d) == if d.toMaster then Pair(r.0, p.slave, [], Sent(r.1)) else Pair(p.master, r.0, Sent(r.1), [])
  {
    hide Handled;
    assert [] + Sent(Handled(a, p, d).1) == Sent(Handled(a, p, d).1);
  }

  lemma MasterGoesOn(a: Addrs, p: Pair, d: Delivery)
    requires InStage(a, p, MasterRefused) && CanDeliver(p, d)
    ensures LeadsOn(a, p, MasterRefused, d)
  {
    hide Bind, Connected, BothWantRelay, Deliver;
    OneMessage(a, p, d);
    BindOutcome(p.master, true, a.master, d.attempt);
  }

  lemma SlaveStarts(a: Addrs, p: Pair, d: Delivery)
    requires InStage(a, p, MasterPassed) && CanDeliver(p, d)
    ensures LeadsOn(a, p, MasterPassed, d)
  {
    hide Bind, Connected, BothWantRelay, Deliver;
    OneMessage(a, p, d);
    BindOutcome(p.slave.(binding := true, addrpos := 0), false, a.slave, d.attempt);
  }

  lemma SlaveGoesOn(a: Addrs, p: Pair, d: Delivery)
    requires InStage(a, p, SlaveRefused) && CanDeliver(p, d)
    ensures LeadsOn(a, p, SlaveRefused, d)
  {
    hide Bind, Connected, BothWantRelay, Deliver;
    OneMessage(a, p, d);
    BindOutcome(p.slave, false, a.slave, d.attempt);
  }

  lemma OfferedOrPassed(a: Addrs, p: Pair, stage: Stage, d: Delivery)
    requires InStage(a, p, stage) && CanDeliver(p, d)
    requires stage.MasterOffers? || stage.SlaveOffers? || stage.SlavePassed? || stage.RetryAsked?
    ensures LeadsOn(a, p, stage, d)
  {
    hide Bind, Deliver;
    OneMessage(a, p, d);
  }

  /** Every delivery leads on. */
  lemma DeliverLeadsOn(a: Addrs, p: Pair, stage: Stage, d: Delivery)
    requires InStage(a, p, stage) && CanDeliver(p, d)
    ensures LeadsOn(a, p, stage, d)
  {
    hide LeadsOn;
    match stage
    case MasterRefused => MasterGoesOn(a, p, d);
    case MasterPassed => SlaveStarts(a, p, d);
    case SlaveRefused => SlaveGoesOn(a, p, d);
    case Done => assert false;
    case Retrying => assert false;
    case _ => OfferedOrPassed(a, p, stage, d);
  }

  ghost predicate AllLinksMade(ds: seq<Delivery>) {
    forall i | 0 <= i < |ds| :: LinksMade(ds[i])
  }

  lemma {:induction false} RunFrom(a: Addrs, p: Pair, stage: Stage, ds: seq<Delivery>) returns (end: Stage)
    requires InStage(a, p, stage) && CanRun(a, p, ds)
    ensures InStage(a, RunEnd(a, p, ds), end)
    ensures |ds| <= Left(a, p, stage) - Left(a, RunEnd(a, p, ds), end)
    ensures OffersIn(a, p, ds) <= OffersLeft(a, p, stage)
    ensures OneBinds(p, stage) ==> OneBinds(RunEnd(a, p, ds), end)
    ensures !Retries(stage) && AllLinksMade(ds) ==> !Retries(end)
    decreases |ds|
  {
    end := stage;
    if ds != [] {
      DeliverLeadsOn(a, p, stage, ds[0]);
      hide InStage, Left, OffersLeft, OneBinds, LinksMade, Deliver, StageAfter;
      end := RunFrom(a, Deliver(a, p, ds[0]), StageAfter(a, p, stage, ds[0]), ds[1..]);
    }
  }

  /** The master begins, from whatever state the two were left in. */
  lemma BeginStage(a: Addrs, p: Pair, attempt: nat -> Attempt)
    requires Quiet(a, p)
    ensures var q, stage := Begin(a, p, attempt), MasterStage(Retry(p.master, a.master, attempt).1);
      && InStage(a, q, stage) && Left(a, q, stage) <= 2 * (|a.master| + |a.slave|) + 2
      && Offers(Retry(p.master, a.master, attempt).1) + OffersLeft(a, q, stage) <= |a.master| + |a.slave|
      && (!p.slave.binding ==> OneBinds(q, stage))
      && ((forall i :: attempt(i) != LinkFails) ==> !Retries(stage))
  {
    hide Bind, Connected, BothWantRelay;
    BindOutcome(p.master.(retry := false, binding := true, addrpos := 0), true, a.master, attempt);
  }

  /**
   * Whatever addresses can be bound and connected to, and whichever links can be made, a round
   * of the handshake takes a bounded number of messages and offers; until it ends a message is
   * on its way. It ends with a connection, with both asking for a relay, or with the master
   * waiting to begin once more, that only if a link could not be made. A round may start from
   * any state of the two peers; if the slave was not binding then, never both are.
   */
  lemma HandshakeEnds(a: Addrs, p: Pair, attempt: nat -> Attempt, ds: seq<Delivery>)
    requires Quiet(a, p) && CanRun(a, Begin(a, p, attempt), ds)
    ensures var start, end := Begin(a, p, attempt), RunEnd(a, Begin(a, p, attempt), ds);
      && |ds| <= 2 * (|a.master| + |a.slave|) + 2
      && Offers(Retry(p.master, a.master, attempt).1) + OffersIn(a, start, ds) <= |a.master| + |a.slave|
      && |end.toMaster| + |end.toSlave| <= 1
      && (end.toMaster == [] && end.toSlave == [] ==> Quiet(a, end) && (end.master.retry || Connected(end) != BothWantRelay(end)))
      && (end.master.retry ==> end.toMaster == [] && end.toSlave == [] && end.master.link == NoLink && !end.master.relay)
      && ((forall i :: attempt(i) != LinkFails) && AllLinksMade(ds) ==> !end.master.retry && end.toMaster != [YouRetry])
      && (!p.slave.binding ==> end.master.retry || end.toMaster == [YouRetry] || !(end.master.binding && end.slave.binding))
  {
    hide Bind, Retry, Begin, Handled, CanRun, RunEnd, OffersIn;
    BeginStage(a, p, attempt);
    var stage := MasterStage(Retry(p.master, a.master, attempt).1);
    var end := RunFrom(a, Begin(a, p, attempt), stage, ds);
  }

  /** The first round, at whose start neither peer has done anything. */
  lemma FirstRound(a: Addrs, attempt: nat -> Attempt, ds: seq<Delivery>)
    requires var p := Pair(IDLE, IDLE, [], []); CanRun(a, Begin(a, p, attempt), ds)
    requires (forall i :: attempt(i) != LinkFails) && AllLinksMade(ds)
    ensures var end := RunEnd(a, Begin(a, Pair(IDLE, IDLE, [], []), attempt), ds);
      && !(end.master.binding && end.slave.binding)
      && (end.toMaster == [] && end.toSlave == [] ==> Connected(end) != BothWantRelay(end))
  {
    hide Begin, CanRun, RunEnd, Connected, BothWantRelay;
    HandshakeEnds(a, Pair(IDLE, IDLE, [], []), attempt, ds);
  }

  // ----- which way to connect a round finds

  /** What the first message of a peer's turn says: it is decided by its addresses alone. */
  ghost predicate DecidedByAddresses(master: bool, external: seq<bool>, attempt: nat -> Attempt, m: Option<Msg>) {
    match m
    case Some(YouConnect(addr)) =>
      addr < |external| && external[addr] && attempt(addr) == Bound && NoneBound(external, attempt, 0, addr)
    case Some(CannotBind) => NoneBound(external, attempt, 0, |external|)
    case Some(YouRetry) => !master && StopsAtFailure(external, attempt)
    case Some(CannotConnect) => false
    case None => master && StopsAtFailure(external, attempt)
  }

  ghost predicate StopsAtFailure(external: seq<bool>, attempt: nat -> Attempt) {
    exists i: nat :: i < |external| && external[i] && attempt(i) == LinkFails && NoneBound(external, attempt, 0, i)
  }

  /** Whatever became of earlier rounds, the master begins with the first of its addresses, and so does the slave when it has its turn. */
  lemma TurnBegins(s: Side, external: seq<bool>, connect: Connect, attempt: nat -> Attempt)
    ensures DecidedByAddresses(true, external, attempt, Retry(s, external, attempt).1)
    ensures DecidedByAddresses(false, external, attempt, Receive(s, false, external, CannotBind, connect, attempt).1)
  {
    hide Bind, NoneBound;
    BindOutcome(s.(retry := false, binding := true, addrpos := 0), true, external, attempt);
    BindOutcome(s.(binding := true, addrpos := 0), false, external, attempt);
  }

  /** The messages that do not make a peer bind: an offer is refused, or taken up over a fresh link, or ends in a reset; a refusal to one that is not binding is stray, and so is the slave's being asked to retry. */
  lemma OtherMessages(s: Side, master: bool, external: seq<bool>, addr: nat, connect: Connect, attempt: nat -> Attempt)
    ensures Receive(s, master, external, YouConnect(addr), connect, attempt) ==
      match connect
      case NoneUsable => (s, Some(CannotConnect))
      case Connects => (Side(s.binding, s.addrpos, Connecting(addr), false, s.retry), None)
      case ConnectFails => (Side(s.binding, s.addrpos, NoLink, false, master || s.retry), if master then None else Some(YouRetry))
    ensures !s.binding ==> Receive(s, master, external, CannotConnect, connect, attempt) == (s, None)
    ensures master ==> Receive(s, master, external, CannotBind, connect, attempt) == (Side(s.binding, s.addrpos, NoLink, true, s.retry), None)
    ensures Receive(s, master, external, YouRetry, connect, attempt) ==
      if master then (Side(s.binding, s.addrpos, NoLink, false, true), None) else (s, None)
  {
  }

  /** What comes of each address of a peer when it is tried, and of connecting to it when it is offered. */
  datatype Surroundings = Surroundings(masterTry: nat -> Attempt, slaveTry: nat -> Attempt, masterCan: nat -> Connect, slaveCan: nat -> Connect)

  /** A delivery at which trying comes out that way. */
  ghost predicate Under(w: Surroundings, p: Pair, d: Delivery)
    requires CanDeliver(p, d)
  {
    var m := if d.toMaster then p.toMaster[0] else p.toSlave[0];
    && d.attempt == (if d.toMaster then w.masterTry else w.slaveTry)
    && (m.YouConnect? ==> d.connect == if d.toMaster then w.masterCan(m.addr) else w.slaveCan(m.addr))
  }

  /** A peer can listen at an address of its own to which the other can connect. */
  ghost predicate Works(external: seq<bool>, attempt: nat -> Attempt, can: nat -> Connect, i: nat) {
    i < |external| && external[i] && attempt(i) == Bound && can(i) == Connects
  }

  ghost predicate NoneWorks(external: seq<bool>, attempt: nat -> Attempt, can: nat -> Connect, n: nat) {
    forall i: nat | i < n :: !Works(external, attempt, can, i)
  }

  /** The first of the addresses at which one can connect. */
  ghost predicate FirstWorks(external: seq<bool>, attempt: nat -> Attempt, can: nat -> Connect, i: nat) {
    Works(external, attempt, can, i) && NoneWorks(external, attempt, can, i)
  }

  /** What a round has come to: the first of the master's addresses at which one can connect, or else of the slave's, or both want a relay. */
  ghost predicate Found(a: Addrs, w: Surroundings, p: Pair) {
    || (p.master.link.Listening? && p.slave.link == Connecting(p.master.link.addr)
        && FirstWorks(a.master, w.masterTry, w.slaveCan, p.master.link.addr))
    || (NoneWorks(a.master, w.masterTry, w.slaveCan, |a.master|)
        && p.slave.link.Listening? && p.master.link == Connecting(p.slave.link.addr)
        && FirstWorks(a.slave, w.slaveTry, w.masterCan, p.slave.link.addr))
    || (NoneWorks(a.master, w.masterTry, w.slaveCan, |a.master|) && NoneWorks(a.slave, w.slaveTry, w.masterCan, |a.slave|)
        && BothWantRelay(p))
  }

  /** The addresses that have been dealt with at a stage do not work; one that is being offered can be bound. */
  ghost predicate Tested(a: Addrs, w: Surroundings, p: Pair, stage: Stage) {
    match stage
    case MasterOffers => OfferOk(a.master, w.masterTry, w.slaveCan, p.master)
    case MasterRefused => NoneWorks(a.master, w.masterTry, w.slaveCan, p.master.addrpos)
    case MasterPassed => NoneWorks(a.master, w.masterTry, w.slaveCan, |a.master|)
    case SlaveOffers => NoneWorks(a.master, w.masterTry, w.slaveCan, |a.master|) && OfferOk(a.slave, w.slaveTry, w.masterCan, p.slave)
    case SlaveRefused => NoneWorks(a.master, w.masterTry, w.slaveCan, |a.master|) && NoneWorks(a.slave, w.slaveTry, w.masterCan, p.slave.addrpos)
    case SlavePassed => NoneWorks(a.master, w.masterTry, w.slaveCan, |a.master|) && NoneWorks(a.slave, w.slaveTry, w.masterCan, |a.slave|)
    case Done => Found(a, w, p)
    case RetryAsked => true
    case Retrying => true
  }

  ghost predicate OfferOk(external: seq<bool>, attempt: nat -> Attempt, can: nat -> Connect, s: Side) {
    && s.link.Listening? && s.addrpos == s.link.addr + 1 <= |external| && external[s.link.addr] && attempt(s.link.addr) == Bound
    && NoneWorks(external, attempt, can, s.link.addr)
  }

  /** The addresses that binding passes over do not work. */
  lemma BindTested(s: Side, master: bool, external: seq<bool>, attempt: nat -> Attempt, can: nat -> Connect)
    requires s.binding && s.addrpos <= |external| && NoneWorks(external, attempt, can, s.addrpos)
    ensures var r := Bind(s, master, external, attempt);
      match r.1
      case Some(YouConnect(_)) => OfferOk(external, attempt, can, r.0)
      case Some(CannotBind) => NoneWorks(external, attempt, can, |external|)
      case _ => true
  {
    hide Bind;
    BindOutcome(s, master, external, attempt);
  }

  lemma OfferTested(a: Addrs, w: Surroundings, p: Pair, stage: Stage, d: Delivery)
    requires InStage(a, p, stage) && CanDeliver(p, d) && Tested(a, w, p, stage) && Under(w, p, d)
    requires stage.MasterOffers? || stage.SlaveOffers? || stage.SlavePassed? || stage.RetryAsked?
    ensures Tested(a, w, Deliver(a, p, d), StageAfter(a, p, stage, d))
  {
    hide Bind, Deliver;
    OneMessage(a, p, d);
  }

  lemma DeliverTested(a: Addrs, w: Surroundings, p: Pair, stage: Stage, d: Delivery)
    requires InStage(a, p, stage) && CanDeliver(p, d) && Tested(a, w, p, stage) && Under(w, p, d)
    ensures Tested(a, w, Deliver(a, p, d), StageAfter(a, p, stage, d))
  {
    hide Bind, Deliver, OfferOk, NoneWorks, Found;
    match stage
    case MasterRefused =>
      OneMessage(a, p, d);
      BindTested(p.master, true, a.master, d.attempt, w.slaveCan);
      BindOutcome(p.master, true, a.master, d.attempt);
    case MasterPassed =>
      OneMessage(a, p, d);
      NothingTested(a.slave, w.slaveTry, w.masterCan);
      BindTested(p.slave.(binding := true, addrpos := 0), false, a.slave, d.attempt, w.masterCan);
      BindOutcome(p.slave.(binding := true, addrpos := 0), false, a.slave, d.attempt);
    case SlaveRefused =>
      OneMessage(a, p, d);
      BindTested(p.slave, false, a.slave, d.attempt, w.masterCan);
      BindOutcome(p.slave, false, a.slave, d.attempt);
    case Done => assert false;
    case Retrying => assert false;
    case _ => OfferTested(a, w, p, stage, d);
  }

  lemma NothingTested(external: seq<bool>, attempt: nat -> Attempt, can: nat -> Connect)
    ensures NoneWorks(external, attempt, can, 0)
  {
  }

  ghost predicate AllUnder(a: Addrs, w: Surroundings, p: Pair, ds: seq<Delivery>)
    requires CanRun(a, p, ds)
    decreases |ds|
  {
    ds == [] || (Under(w, p, ds[0]) && AllUnder(a, w, Deliver(a, p, ds[0]), ds[1..]))
  }

  lemma {:induction false} RunTested(a: Addrs, w: Surroundings, p: Pair, stage: Stage, ds: seq<Delivery>) returns (end: Stage)
    requires InStage(a, p, stage) && CanRun(a, p, ds) && AllUnder(a, w, p, ds) && Tested(a, w, p, stage)
    ensures InStage(a, RunEnd(a, p, ds), end) && Tested(a, w, RunEnd(a, p, ds), end)
    ensures !Retries(stage) && AllLinksMade(ds) ==> !Retries(end)
    decreases |ds|
  {
    end := stage;
    if ds != [] {
      DeliverLeadsOn(a, p, stage, ds[0]);
      DeliverTested(a, w, p, stage, ds[0]);
      hide InStage, Left, OffersLeft, OneBinds, LinksMade, Deliver, StageAfter, Tested, Under;
      end := RunTested(a, w, Deliver(a, p, ds[0]), StageAfter(a, p, stage, ds[0]), ds[1..]);
    }
  }

  /**
   * If links can be made, a round that has ended has found the first address of the master that can be
   * bound and connected to, or, if it has none, the first of the slave, and only if that has none
   * either both want a relay; whatever state the peers were in when it began.
   */
  lemma RoundFindsFirst(a: Addrs, w: Surroundings, p: Pair, ds: seq<Delivery>)
    requires Quiet(a, p) && CanRun(a, Begin(a, p, w.masterTry), ds) && AllUnder(a, w, Begin(a, p, w.masterTry), ds)
    requires (forall i :: w.masterTry(i) != LinkFails) && AllLinksMade(ds)
    ensures var end := RunEnd(a, Begin(a, p, w.masterTry), ds);
      end.toMaster == [] && end.toSlave == [] ==> Found(a, w, end)
  {
    hide Bind, Found, CanRun, AllUnder, RunEnd;
    var begun := p.master.(retry := false, binding := true, addrpos := 0);
    BeginStage(a, p, w.masterTry);
    NothingTested(a.master, w.masterTry, w.slaveCan);
    BindTested(begun, true, a.master, w.masterTry, w.slaveCan);
    BindOutcome(begun, true, a.master, w.masterTry);
    var stage := MasterStage(Retry(p.master, a.master, w.masterTry).1);
    var end := RunTested(a, w, Begin(a, p, w.masterTry), stage, ds);
  }

  /** One side of the handshake, as the client keeps it for a peer. */
  class BindingPeer {
    const master: bool
    const external: seq<bool>
    var binding: bool
    var addrpos: nat
    var link: Link
    var relay: bool
    var retry: bool

    constructor (master: bool, external: seq<bool>)
      ensures this.master == master && this.external == external && State() == IDLE
    {
      this.master, this.external := master, external;
      binding, addrpos, link, relay, retry := false, 0, NoLink, false, false;
    }

    function State(): Side
      reads this
    {
      Side(binding, addrpos, link, relay, retry)
    }

    /** peer_reset */
    method ResetConnection() returns (m: Option<Msg>)
      modifies this
      ensures (State(), m) == Reset(old(State()), master)
    {
      link, relay := NoLink, false;
      if master {
        retry := true;
        m := None;
      } else {
        m := Some(YouRetry);
      }
    }

    /** peer_bind */
    method BindNext(attempt: nat -> Attempt) returns (m: Option<Msg>)
      modifies this
      ensures (State(), m) == Bind(old(State()), master, external, attempt)
    {
      while addrpos < |external|
        invariant Bind(State(), master, external, attempt) == Bind(old(State()), master, external, attempt)
      {
        if !external[addrpos] {
          addrpos := addrpos + 1;
          continue;
        }
        var tried := attempt(addrpos);
        if tried == LinkFails {
          m := ResetConnection();
          addrpos := addrpos + 1;
          return;
        }
        // a fresh link to bind
        link, relay := Unbound, false;
        if tried == Bound {
          link := Listening(addrpos);
          m := Some(YouConnect(addrpos));
        }
        addrpos := addrpos + 1;
        if tried == Bound {
          return;
        }
      }
      binding := false;
      m := Some(CannotBind);
      if !master {
        link, relay := NoLink, true;
      }
    }

    /** peer_start_binding */
    method Start(attempt: nat -> Attempt) returns (m: Option<Msg>)
      modifies this
      ensures (State(), m) == StartBinding(old(State()), master, external, attempt)
    {
      binding, addrpos := true, 0;
      m := BindNext(attempt);
    }

    /** peer_reset_timer_handler */
    method ResetTimerExpired(attempt: nat -> Attempt) returns (m: Option<Msg>)
      requires master && retry
      modifies this
      ensures (State(), m) == Retry(old(State()), external, attempt)
    {
      retry := false;
      m := Start(attempt);
    }

    /** The handlers of the four messages; one that cannot be parsed changes nothing. */
    method Handle(msg: Option<Msg>, connect: Connect, attempt: nat -> Attempt) returns (answer: Option<Msg>)
      modifies this
      ensures (State(), answer) ==
        if msg == None then (old(State()), None) else Receive(old(State()), master, external, msg.value, connect, attempt)
    {
      answer := None;
      if msg == None {
        return;
      }
      match msg.value
      case YouConnect(addr) =>
        if connect == NoneUsable {
          answer := Some(CannotConnect);
        } else if connect == ConnectFails {
          answer := ResetConnection();
        } else {
          link, relay := Connecting(addr), false;
        }
      case CannotConnect =>
        if binding {
          answer := BindNext(attempt);
        }
      case CannotBind =>
        if !master {
          answer := Start(attempt);
        } else {
          link, relay := NoLink, true;
        }
      case YouRetry =>
        if master {
          answer := ResetConnection();
        }
    }
  }
}
