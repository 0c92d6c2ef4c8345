/**
 * How one peer gives another the seeds of its one-time passwords: a new seed is sent
 * over the reliable channel, made ready by the receiver, confirmed, and only then used.
 */
module Seeds {
  import opened Bytes
  import opened Lists

  datatype Seed = Seed(id: nat, key: seq<Byte>)

  /** The tables of a receiver, used in turn; the next may be just being made. */
  datatype Ring = Ring(tables: seq<Seed>, next: nat, used: nat, working: bool)

  function InRing(i: int, n: nat): (r: nat)
    requires n > 0 && 0 <= i + n && i < 2 * n
    ensures r < n
  {
    if i < 0 then i + n else if i < n then i else i - n
  }

  ghost predicate RingOk(r: Ring) {
    |r.tables| >= 2 && r.next < |r.tables| && r.used <= |r.tables|
  }

  /** OTPChecker_AddSeed: what was being made before is given up. */
  function AddSeed(r: Ring, s: Seed): Ring
    requires r.next < |r.tables|
  {
    r.(tables := r.tables[r.next := s], working := true)
  }

  /** The table that was being made is ready. */
  function WorkDone(r: Ring): Ring
    requires RingOk(r)
  {
    r.(next := InRing(r.next + 1, |r.tables|), used := if r.used < |r.tables| then r.used + 1 else r.used, working := false)
  }

  /** The latest table with an identifier, leaving out the one that is being made; the loop of OTPChecker_CheckOTP. */
  function FindFrom(r: Ring, id: nat, i: nat): Option<Seed>
    requires RingOk(r) && 1 <= i
    decreases r.used + 1 - i
  {
    if i > r.used then None else
      var index := InRing(r.next - i, |r.tables|);
      if index == r.next && r.working then FindFrom(r, id, i + 1)
      else if r.tables[index].id == id then Some(r.tables[index])
      else FindFrom(r, id, i + 1)
  }

  function Find(r: Ring, id: nat): Option<Seed>
    requires RingOk(r)
  {
    FindFrom(r, id, 1)
  }

  /** The table that was made the given number of seeds ago. */
  function Ago(r: Ring, i: nat): Seed
    requires RingOk(r) && 1 <= i <= |r.tables|
  {
    r.tables[InRing(r.next - i, |r.tables|)]
  }

  /** The tables hold the latest seeds that have become ready, but for the one whose place is taken already. */
  ghost predicate Holds(r: Ring, ready: seq<Seed>) {
    && RingOk(r)
    && r.used == (if |ready| < |r.tables| then |ready| else |r.tables|)
    && forall i | 1 <= i <= r.used && !(r.working && i == |r.tables|) :: Ago(r, i) == ready[|ready| - i]
  }

  lemma AddHolds(r: Ring, ready: seq<Seed>, s: Seed)
    requires Holds(r, ready)
    ensures Holds(AddSeed(r, s), ready) && AddSeed(r, s).tables[AddSeed(r, s).next] == s
  {
    var q := AddSeed(r, s);
    forall i | 1 <= i <= q.used && i != |q.tables|
      ensures Ago(q, i) == ready[|ready| - i]
    {
      assert Ago(q, i) == Ago(r, i);
    }
  }

  lemma DoneHolds(r: Ring, ready: seq<Seed>)
    requires Holds(r, ready) && r.working
    ensures Holds(WorkDone(r), ready + [r.tables[r.next]])
  {
    var q, more := WorkDone(r), ready + [r.tables[r.next]];
    forall i | 1 <= i <= q.used
      ensures Ago(q, i) == more[|more| - i]
    {
      if i > 1 {
        assert Ago(q, i) == Ago(r, i - 1);
      }
    }
  }

  /** A seed that is the latest ready, or the one before it when nothing is being made, is found. */
  lemma LatestIsFound(r: Ring, ready: seq<Seed>)
    requires Holds(r, ready) && ready != []
    ensures Find(r, ready[|ready| - 1].id) == Some(ready[|ready| - 1])
    ensures |ready| > 1 && !r.working && ready[|ready| - 2].id != ready[|ready| - 1].id ==>
      Find(r, ready[|ready| - 2].id) == Some(ready[|ready| - 2])
  {
    assert Ago(r, 1) == ready[|ready| - 1];
    if |ready| > 1 && !r.working {
      assert Ago(r, 2) == ready[|ready| - 2];
      if ready[|ready| - 2].id != ready[|ready| - 1].id {
        assert FindFrom(r, ready[|ready| - 2].id, 1) == FindFrom(r, ready[|ready| - 2].id, 2);
      }
    }
  }

  /** What is found has become ready: not the seed whose tables are being made, and not one that was given up. */
  lemma FoundIsReady(r: Ring, ready: seq<Seed>, id: nat, i: nat)
    requires Holds(r, ready) && 1 <= i
    ensures var found := FindFrom(r, id, i);
      found.Some? ==> found.value.id == id && found.value in ready
    decreases r.used + 1 - i
  {
    if i <= r.used {
      if !(InRing(r.next - i, |r.tables|) == r.next && r.working) {
        assert Ago(r, i) == ready[|ready| - i];
      }
      FoundIsReady(r, ready, id, i + 1);
    }
  }

  /**
   * Where the passwords of sent packets come from: the seed in use, how many of its passwords
   * are used, the seed whose passwords are being made, whether the warning is scheduled, and how
   * many seeds have come into use.
   */
  datatype Encoder =
    Encoder(otpNum: nat, warningCount: nat, position: nat, inUse: Option<Seed>, making: Option<Seed>, warning: bool, seeds: nat)

  /** The peer that sends frames: whether the job that sends a seed is set, the seed that is not confirmed, and the last one handed to the encoder. */
  datatype Sender = Sender(job: bool, nextId: nat, sent: Option<Seed>, handed: Option<Seed>, encoder: Encoder)

  /** The peer that receives them: which seed it is to confirm once the tables are ready. */
  datatype Receiver = Receiver(pendingId: nat, ring: Ring)

  /** Both, the messages on their way, the seeds that have become ready, and the passwords that packets have carried. */
  datatype Link = Link(sender: Sender, receiver: Receiver, seeds: seq<Seed>, confirms: seq<nat>, ready: seq<Seed>, passwords: seq<Password>)

  /** One of the passwords of one of the seeds that come into use. */
  datatype Password = Password(seed: nat, position: nat)

  datatype Event = EncodePacket | GeneratorDone | SeedWarning | SendSeed(key: seq<Byte>) | SeedArrives | SeedReady | ConfirmArrives

  ghost predicate CanHappen(l: Link, e: Event) {
    match e
    case EncodePacket => l.sender.encoder.position < l.sender.encoder.otpNum
    case GeneratorDone => l.sender.encoder.making != None
    case SeedWarning => l.sender.encoder.warning
    case SendSeed(_) => l.sender.job
    case SeedArrives => l.seeds != []
    case SeedReady => RingOk(l.receiver.ring) && l.receiver.ring.working
    case ConfirmArrives => l.confirms != []
  }

  /** encode_packet: a password is used, and the warning is scheduled after a certain number of them. */
  function UseOtp(e: Encoder): Encoder {
    e.(position := e.position + 1, warning := e.warning || e.position + 1 == e.warningCount)
  }

  /** SPProtoEncoder_SetOTPSeed: passwords that were being made before are given up, those in use stay. */
  function SetOtpSeed(e: Encoder, s: Option<Seed>): Encoder {
    e.(making := s)
  }

  /** otpgenerator_handler: the passwords of the new seed are used from the first one on. */
  function UseMade(e: Encoder): Encoder {
    e.(inUse := e.making, making := None, position := 0, seeds := e.seeds + 1)
  }

  /** peer_udp_pio_handler_seed_warning */
  function Warn(s: Sender): Sender {
    s.(encoder := s.encoder.(warning := false), job := s.job || s.sent == None)
  }

  /** peer_job_send_seed, where identifiers have sixteen bits. */
  function SendNext(s: Sender, key: seq<Byte>): Sender {
    s.(job := false, sent := Some(Seed(s.nextId, key)), nextId := (s.nextId + 1) % (UINT16_MAX + 1))
  }

  /** peer_msg_confirmseed */
  function Confirm(s: Sender, id: nat): Sender {
    if s.sent == None || s.sent.value.id != id then s
    else s.(sent := None, handed := s.sent, encoder := SetOtpSeed(s.encoder, s.sent))
  }

  ghost function Step(l: Link, e: Event): Link
    requires CanHappen(l, e) && l.receiver.ring.next < |l.receiver.ring.tables|
  {
    match e
    case EncodePacket =>
      var e := l.sender.encoder;
      l.(sender := l.sender.(encoder := UseOtp(e)), passwords := l.passwords + [Password(e.seeds, e.position)])
    case GeneratorDone => l.(sender := l.sender.(encoder := UseMade(l.sender.encoder)))
    case SeedWarning => l.(sender := Warn(l.sender))
    case SendSeed(key) => var s := SendNext(l.sender, key); l.(sender := s, seeds := l.seeds + [s.sent.value])
    case SeedArrives =>
      var s := l.seeds[0];
      l.(receiver := Receiver(s.id, AddSeed(l.receiver.ring, s)), seeds := l.seeds[1..])
    case SeedReady =>
      var r := l.receiver;
      l.(receiver := r.(ring := WorkDone(r.ring)), confirms := l.confirms + [r.pendingId],
         ready := l.ready + [r.ring.tables[r.ring.next]])
    case ConfirmArrives => l.(sender := Confirm(l.sender, l.confirms[0]), confirms := l.confirms[1..])
  }

  /** A fresh link, over which a seed is to be sent at once; no password is left until one has been made. */
  ghost predicate IsFresh(l: Link) {
    var e := l.sender.encoder;
    && 0 < e.warningCount <= e.otpNum
    && l.sender == Sender(true, 0, None, None, Encoder(e.otpNum, e.warningCount, e.otpNum, None, None, false, 0))
    && l.seeds == [] && l.confirms == [] && l.ready == [] && l.passwords == []
    && RingOk(l.receiver.ring) && l.receiver.ring.used == 0 && !l.receiver.ring.working
  }

  function Before(id: nat): nat {
    if id == 0 then UINT16_MAX else id - 1
  }

  ghost predicate LastIs(list: seq<Seed>, s: Option<Seed>) {
    if list == [] then s == None else s == Some(list[|list| - 1])
  }

  /** A sender that has not asked for a new seed, and will not before the warning runs. */
  ghost predicate Idle(s: Sender) {
    !s.job && s.sent == None && s.encoder.making == None
  }

  /**
   * While passwords are left before the warning, and until the warning has run, no other seed is
   * under way; so a new seed goes out only when the one handed over last is the one in use.
   */
  ghost predicate EncoderOk(s: Sender) {
    var e := s.encoder;
    && 0 < e.warningCount <= e.otpNum && e.position <= e.otpNum
    && (e.inUse == None ==> e.position == e.otpNum)
    && (e.making == None ==> e.inUse == s.handed)
    && (e.making != None ==> e.making == s.handed && !s.job && s.sent == None && !e.warning)
    && (e.position < e.warningCount || e.warning ==> Idle(s))
    && (e.warning ==> e.position >= e.warningCount)
  }

  /** The seeds that became ready last, with the one handed over and the one in use. */
  ghost predicate HandedIsLast(l: Link) {
    var s, n := l.sender, |l.ready|;
    && LastIs(l.ready, s.handed)
    && (n > 0 ==> l.ready[n - 1].id == Before(s.nextId))
    && (s.encoder.making != None ==>
          n > 0 && LastIs(l.ready[..n - 1], s.encoder.inUse) && (n > 1 ==> l.ready[n - 2].id == Before(l.ready[n - 1].id)))
  }

  ghost predicate Unconfirmed(l: Link, seed: Seed) {
    LastIs(l.ready, l.sender.handed) && (l.ready != [] ==> l.ready[|l.ready| - 1].id == Before(seed.id))
  }

  /** Where the one seed is that the sender waits for a confirmation of, if there is one. */
  ghost predicate Consistent(l: Link) {
    var s, r := l.sender, l.receiver;
    && s.nextId <= UINT16_MAX && Holds(r.ring, l.ready)
    && (s.job ==> s.sent == None) && EncoderOk(s)
    && match s.sent
       case None =>
         l.seeds == [] && l.confirms == [] && !r.ring.working && HandedIsLast(l)
       case Some(seed) =>
         && seed.id == Before(s.nextId)
         && ((l.seeds == [seed] && l.confirms == [] && !r.ring.working && Unconfirmed(l, seed))
             || (l.seeds == [] && l.confirms == [] && r.ring.working && r.pendingId == seed.id
                 && r.ring.tables[r.ring.next] == seed && Unconfirmed(l, seed))
             || (l.seeds == [] && l.confirms == [seed.id] && !r.ring.working
                 && l.ready != [] && l.ready[|l.ready| - 1] == seed && LastIs(l.ready[..|l.ready| - 1], s.handed)
                 && (|l.ready| > 1 ==> l.ready[|l.ready| - 2].id == Before(seed.id))))
  }

  lemma FreshIsConsistent(l: Link)
    requires IsFresh(l)
    ensures Consistent(l)
  {
  }

  lemma StepKeepsConsistent(l: Link, e: Event)
    requires Consistent(l) && CanHappen(l, e)
    ensures Consistent(Step(l, e))
  {
    hide Holds;
    match e
    case SeedArrives => AddHolds(l.receiver.ring, l.ready, l.seeds[0]);
    case SeedReady => DoneHolds(l.receiver.ring, l.ready);
    case _ =>
  }

  ghost predicate CanRun(l: Link, es: seq<Event>)
    decreases |es|
  {
    es == [] || (CanHappen(l, es[0]) && l.receiver.ring.next < |l.receiver.ring.tables| && CanRun(Step(l, es[0]), es[1..]))
  }

  ghost function RunEnd(l: Link, es: seq<Event>): Link
    requires CanRun(l, es)
    decreases |es|
  {
    if es == [] then l else RunEnd(Step(l, es[0]), es[1..])
  }

  lemma {:induction false} RunKeepsConsistent(l: Link, es: seq<Event>)
    requires Consistent(l) && CanRun(l, es)
    ensures Consistent(RunEnd(l, es))
    decreases |es|
  {
    if es != [] {
      StepKeepsConsistent(l, es[0]);
      RunKeepsConsistent(Step(l, es[0]), es[1..]);
    }
  }

  /** The receiver has the tables of a seed, which it once made ready. */
  ghost predicate Known(l: Link, s: Option<Seed>) {
    RingOk(l.receiver.ring) && (s != None ==> s.value in l.ready && Find(l.receiver.ring, s.value.id) == s)
  }

  lemma ConsistentKnows(l: Link)
    requires Consistent(l)
    ensures Known(l, l.sender.handed) && Known(l, l.sender.encoder.inUse)
  {
    hide FindFrom;
    if l.ready != [] {
      LatestIsFound(l.receiver.ring, l.ready);
    }
  }

  /**
   * Whatever happens over a link: no seed is to be sent while one is not confirmed, and the
   * receiver has the tables of the seed that was handed to the encoder last, and of the one that
   * the passwords still come from while those of the other are being made.
   */
  lemma SeedsInUseAreKnown(l: Link, es: seq<Event>)
    requires IsFresh(l) && CanRun(l, es)
    ensures var end := RunEnd(l, es);
      && (end.sender.job ==> end.sender.sent == None)
      && |end.seeds| + |end.confirms| <= 1
      && Known(end, end.sender.handed) && Known(end, end.sender.encoder.inUse)
      && (CanHappen(end, EncodePacket) ==> end.sender.encoder.inUse != None)
  {
    hide Known, Holds;
    FreshIsConsistent(l);
    RunKeepsConsistent(l, es);
    ConsistentKnows(RunEnd(l, es));
  }

  /** A confirmation of anything but the seed that waits for one changes nothing. */
  lemma StrayConfirmation(s: Sender, id: nat)
    ensures Confirm(s, id) == s <==> s.sent == None || s.sent.value.id != id
  {
  }

  // ----- no password is used twice

  ghost predicate UsedOnce(l: Link) {
    var e := l.sender.encoder;
    && Distinct(l.passwords)
    && forall i | 0 <= i < |l.passwords| ::
         var o := l.passwords[i];
         o.position < e.otpNum && (o.seed < e.seeds || (o.seed == e.seeds && o.position < e.position))
  }

  lemma StepUsesOnce(l: Link, e: Event)
    requires Consistent(l) && CanHappen(l, e) && UsedOnce(l)
    ensures UsedOnce(Step(l, e))
  {
    hide Holds;
  }

  lemma {:induction false} RunUsesOnce(l: Link, es: seq<Event>)
    requires Consistent(l) && CanRun(l, es) && UsedOnce(l)
    ensures UsedOnce(RunEnd(l, es))
    decreases |es|
  {
    hide UsedOnce, Consistent;
    if es != [] {
      StepKeepsConsistent(l, es[0]);
      StepUsesOnce(l, es[0]);
      RunUsesOnce(Step(l, es[0]), es[1..]);
    }
  }

  /** Over every run of a link, no password is carried by two packets. */
  lemma PasswordsAreUsedOnce(l: Link, es: seq<Event>)
    requires IsFresh(l) && CanRun(l, es)
    ensures Distinct(RunEnd(l, es).passwords)
  {
    hide CanRun, RunEnd, Consistent;
    FreshIsConsistent(l);
    RunUsesOnce(l, es);
  }

  // ----- passwords never run out for good

  /** Once the warning has run, a new seed is under way until its passwords are used. */
  ghost predicate Renewing(s: Sender) {
    s.encoder.position >= s.encoder.warningCount && !s.encoder.warning ==> s.job || s.sent != None || s.encoder.making != None
  }

  lemma FreshIsRenewing(l: Link)
    requires IsFresh(l)
    ensures Renewing(l.sender)
  {
  }

  lemma StepKeepsRenewing(l: Link, e: Event)
    requires Consistent(l) && CanHappen(l, e) && Renewing(l.sender)
    ensures Renewing(Step(l, e).sender)
  {
    hide Holds;
  }

  lemma {:induction false} RunKeepsRenewing(l: Link, es: seq<Event>)
    requires Consistent(l) && CanRun(l, es) && Renewing(l.sender)
    ensures Renewing(RunEnd(l, es).sender)
    decreases |es|
  {
    hide Renewing, Consistent;
    if es != [] {
      StepKeepsConsistent(l, es[0]);
      StepKeepsRenewing(l, es[0]);
      RunKeepsRenewing(Step(l, es[0]), es[1..]);
    }
  }

  /** How many events there are until the passwords of a new seed are used: the warning, the sending, the arrival, the tables, the confirmation and the passwords. */
  ghost function ToNewPasswords(l: Link): nat {
    var s := l.sender;
    if s.encoder.warning then 6
    else if s.job then 5
    else if s.sent != None then (if l.seeds != [] then 4 else if l.receiver.ring.working then 3 else 2)
    else if s.encoder.making != None then 1
    else 0
  }

  /** An event that can happen brings new passwords nearer, or they are there. */
  ghost predicate Nears(l: Link, e: Event) {
    && RingOk(l.receiver.ring)
    && (CanHappen(l, e) && e != EncodePacket ==>
          var after := Step(l, e);
          if e == GeneratorDone then after.sender.encoder.position == 0 && CanHappen(after, EncodePacket)
          else ToNewPasswords(after) == ToNewPasswords(l) - 1 && after.sender.encoder.position == l.sender.encoder.position)
  }

  /**
   * Over every run of a link: when the passwords before the warning are used up, some event other than
   * the sending of a packet can happen, and each that can brings new passwords nearer. So
   * after at most six of them a packet can be sent again.
   */
  lemma PasswordsAreRenewed(l: Link, es: seq<Event>)
    requires IsFresh(l) && CanRun(l, es)
    ensures var end := RunEnd(l, es);
      end.sender.encoder.position >= end.sender.encoder.warningCount ==>
        && 1 <= ToNewPasswords(end) <= 6
        && (exists e :: e != EncodePacket && CanHappen(end, e))
        && forall e :: Nears(end, e)
  {
    hide Holds, RunEnd, CanRun, IsFresh, Nears, Consistent, Renewing;
    FreshIsConsistent(l);
    FreshIsRenewing(l);
    RunKeepsConsistent(l, es);
    RunKeepsRenewing(l, es);
    var end := RunEnd(l, es);
    if end.sender.encoder.position >= end.sender.encoder.warningCount {
      SomethingHappens(end);
      forall e
        ensures Nears(end, e)
      {
        NextIsNear(end, e);
      }
    }
  }

  lemma SomethingHappens(l: Link)
    requires Consistent(l) && Renewing(l.sender) && l.sender.encoder.position >= l.sender.encoder.warningCount
    ensures 1 <= ToNewPasswords(l) <= 6 && exists e :: e != EncodePacket && CanHappen(l, e)
  {
    hide Holds;
    RingIsOk(l);
    var key := [];
    assert CanHappen(l, SeedWarning) || CanHappen(l, SendSeed(key)) || CanHappen(l, SeedArrives) || CanHappen(l, SeedReady)
      || CanHappen(l, ConfirmArrives) || CanHappen(l, GeneratorDone);
  }

  lemma NextIsNear(l: Link, e: Event)
    requires Consistent(l) && Renewing(l.sender) && l.sender.encoder.position >= l.sender.encoder.warningCount
    ensures Nears(l, e)
  {
    hide Holds;
    RingIsOk(l);
  }

  lemma RingIsOk(l: Link)
    requires Consistent(l)
    ensures RingOk(l.receiver.ring)
  {
  }
}
