/**
 * Whether a link is up: each end tells in the packets it sends whether it hears the other, and
 * considers the link up while it hears that it is heard. Packets may be lost, repeated and
 * reordered; who is told of the link hears of changes only.
 */
module Keepalive {
  import opened Bytes

  /** What an end of a link knows of it: whether it is up, what was last reported, and when the receive timer is due, if it runs. */
  datatype Status = Status(up: bool, reported: bool, timer: Option<int>)

  const FRESH := Status(false, false, None)

  /** DataProtoSink_Received */
  function Hear(s: Status, receiving: bool, tolerance: nat, now: int): Status {
    s.(up := receiving, timer := Some(now + tolerance))
  }

  /** receive_timer_handler */
  function Silence(s: Status): Status {
    s.(up := false, timer := None)
  }

  /** Whether the job that reports is set. */
  predicate ToReport(s: Status) {
    s.up != s.reported
  }

  /** up_job_handler */
  function Report(s: Status): Status
    requires ToReport(s)
  {
    s.(reported := s.up)
  }

  /** notifier_handler: what an end says of itself in a packet. */
  predicate Receiving(s: Status) {
    s.timer.Some?
  }

  /** A packet, with when it was sent and whether its sender had been hearing the other end. */
  datatype Packet = Packet(at: int, receiving: bool)

  /** One end: its status, all packets it has sent, when it has heard one, and what it has reported. */
  datatype End = End(status: Status, sent: seq<Packet>, heard: seq<int>, reports: seq<bool>)

  datatype Link = Link(one: End, other: End, now: int)

  /** What happens at an end, and that time passes. A packet is heard that the other end has sent at some time. */
  datatype Event = Send | Heard(i: nat) | TimerExpires | JobRuns

  datatype Step = At(one: bool, e: Event) | Tick(dt: nat)

  ghost predicate CanHappenAt(x: End, y: End, e: Event, now: int) {
    match e
    case Send => true
    case Heard(i) => i < |y.sent|
    case TimerExpires => x.status.timer.Some? && x.status.timer.value <= now
    case JobRuns => ToReport(x.status)
  }

  /** No time passes while a timer is due. */
  ghost predicate Waits(x: End, now: int) {
    x.status.timer.Some? ==> now <= x.status.timer.value
  }

  ghost predicate CanHappen(l: Link, s: Step) {
    match s
    case At(one, e) => if one then CanHappenAt(l.one, l.other, e, l.now) else CanHappenAt(l.other, l.one, e, l.now)
    case Tick(dt) => Waits(l.one, l.now + dt) && Waits(l.other, l.now + dt)
  }

  function HappenAt(x: End, y: End, e: Event, tolerance: nat, now: int): End
    requires e.Heard? ==> e.i < |y.sent|
    requires e.JobRuns? ==> ToReport(x.status)
  {
    match e
    case Send => x.(sent := x.sent + [Packet(now, Receiving(x.status))])
    case Heard(i) => x.(status := Hear(x.status, y.sent[i].receiving, tolerance, now), heard := x.heard + [now])
    case TimerExpires => x.(status := Silence(x.status))
    case JobRuns => x.(status := Report(x.status), reports := x.reports + [x.status.up])
  }

  ghost function Happen(l: Link, s: Step, tolerance: nat): Link
    requires CanHappen(l, s)
  {
    match s
    case At(true, e) => l.(one := HappenAt(l.one, l.other, e, tolerance, l.now))
    case At(false, e) => l.(other := HappenAt(l.other, l.one, e, tolerance, l.now))
    case Tick(dt) => l.(now := l.now + dt)
  }

  function Init(now: int): Link {
    Link(End(FRESH, [], [], []), End(FRESH, [], [], []), now)
  }

  ghost predicate CanRun(l: Link, steps: seq<Step>, tolerance: nat)
    decreases |steps|
  {
    steps == [] || (CanHappen(l, steps[0]) && CanRun(Happen(l, steps[0], tolerance), steps[1..], tolerance))
  }

  ghost function RunEnd(l: Link, steps: seq<Step>, tolerance: nat): Link
    requires CanRun(l, steps, tolerance)
    decreases |steps|
  {
    if steps == [] then l else RunEnd(Happen(l, steps[0], tolerance), steps[1..], tolerance)
  }

  // ----- what holds of an end

  /** An end has heard something at some time in a span. */
  ghost predicate HeardWithin(x: End, from: int, to: int) {
    exists k :: 0 <= k < |x.heard| && from <= x.heard[k] <= to
  }

  /** What a packet says is so: its sender had heard something within the tolerance. */
  ghost predicate TrueOf(x: End, p: Packet, tolerance: nat) {
    p.receiving ==> HeardWithin(x, p.at - tolerance, p.at)
  }

  /** Within the tolerance an end has heard the other, which was true when the other said that it had heard it. */
  ghost predicate HeardThatHeard(x: End, y: End, now: int, tolerance: nat) {
    exists k, i :: 0 <= k < |x.heard| && 0 <= i < |y.sent| && now - tolerance <= x.heard[k] <= now
      && y.sent[i].receiving && y.sent[i].at <= x.heard[k]
  }

  /** Reports are of changes, the first of them up, and the last is what was last reported. */
  ghost predicate ReportsOk(x: End) {
    && (forall k | 0 <= k < |x.reports| :: x.reports[k] == (k % 2 == 0))
    && x.status.reported == (|x.reports| % 2 == 1)
  }

  ghost predicate EndOk(x: End, y: End, now: int, tolerance: nat) {
    && (x.status.timer.Some? ==> x.heard != [] && x.status.timer.value == x.heard[|x.heard| - 1] + tolerance && now <= x.status.timer.value)
    && (x.status.up ==> x.status.timer.Some? && HeardThatHeard(x, y, x.heard[|x.heard| - 1], 0))
    && (forall k | 0 <= k < |x.heard| :: x.heard[k] <= now)
    && (forall i | 0 <= i < |x.sent| :: x.sent[i].at <= now && TrueOf(x, x.sent[i], tolerance))
    && ReportsOk(x)
  }

  ghost predicate Ok(l: Link, tolerance: nat) {
    EndOk(l.one, l.other, l.now, tolerance) && EndOk(l.other, l.one, l.now, tolerance)
  }

  lemma InitOk(now: int, tolerance: nat)
    ensures Ok(Init(now), tolerance)
  {
  }

  lemma HeardMore(x: End, x': End, from: int, to: int)
    requires HeardWithin(x, from, to) && x.heard <= x'.heard
    ensures HeardWithin(x', from, to)
  {
    var k :| 0 <= k < |x.heard| && from <= x.heard[k] <= to;
    assert x'.heard[k] == x.heard[k];
  }

  lemma StillHeardThat(x: End, y: End, x': End, y': End, now: int, tolerance: nat)
    requires HeardThatHeard(x, y, now, tolerance) && x.heard <= x'.heard && y.sent <= y'.sent
    ensures HeardThatHeard(x', y', now, tolerance)
  {
    var k, i :| 0 <= k < |x.heard| && 0 <= i < |y.sent| && now - tolerance <= x.heard[k] <= now
      && y.sent[i].receiving && y.sent[i].at <= x.heard[k];
    assert x'.heard[k] == x.heard[k] && y'.sent[i] == y.sent[i];
  }

  /** What happens at an end keeps what holds of it. */
  lemma EndStaysOk(x: End, y: End, e: Event, tolerance: nat, now: int)
    requires EndOk(x, y, now, tolerance) && EndOk(y, x, now, tolerance) && CanHappenAt(x, y, e, now)
    ensures EndOk(HappenAt(x, y, e, tolerance, now), y, now, tolerance)
  {
    hide HeardThatHeard, HeardWithin;
    var x' := HappenAt(x, y, e, tolerance, now);
    if x.status.up && !e.Heard? {
      StillHeardThat(x, y, x', y, x.heard[|x.heard| - 1], 0);
    }
    forall i | 0 <= i < |x.sent|
      ensures TrueOf(x', x.sent[i], tolerance)
    {
      if x.sent[i].receiving {
        HeardMore(x, x', x.sent[i].at - tolerance, x.sent[i].at);
      }
    }
    match e
    case Send =>
      if Receiving(x.status) {
        JustHeard(x', now - tolerance, now);
      }
    case Heard(i) =>
      if y.sent[i].receiving {
        JustHeardThat(x', y, i, now);
      }
    case _ =>
  }

  lemma JustHeard(x: End, from: int, to: int)
    requires x.heard != [] && from <= x.heard[|x.heard| - 1] <= to
    ensures HeardWithin(x, from, to)
  {
  }

  lemma JustHeardThat(x: End, y: End, i: nat, now: int)
    requires x.heard != [] && x.heard[|x.heard| - 1] == now && i < |y.sent| && y.sent[i].receiving && y.sent[i].at <= now
    ensures HeardThatHeard(x, y, now, 0)
  {
  }

  /** What happens at the other end keeps it too. */
  lemma OtherStaysOk(x: End, y: End, e: Event, tolerance: nat, now: int)
    requires EndOk(x, y, now, tolerance) && EndOk(y, x, now, tolerance) && CanHappenAt(y, x, e, now)
    ensures EndOk(x, HappenAt(y, x, e, tolerance, now), now, tolerance)
  {
    hide HeardThatHeard, HeardWithin;
    if x.status.up {
      StillHeardThat(x, y, x, HappenAt(y, x, e, tolerance, now), x.heard[|x.heard| - 1], 0);
    }
  }

  lemma StepKeepsOk(l: Link, s: Step, tolerance: nat)
    requires Ok(l, tolerance) && CanHappen(l, s)
    ensures Ok(Happen(l, s, tolerance), tolerance)
  {
    hide HappenAt, HeardThatHeard, HeardWithin;
    match s
    case At(true, e) =>
      EndStaysOk(l.one, l.other, e, tolerance, l.now);
      OtherStaysOk(l.other, l.one, e, tolerance, l.now);
    case At(false, e) =>
      EndStaysOk(l.other, l.one, e, tolerance, l.now);
      OtherStaysOk(l.one, l.other, e, tolerance, l.now);
    case Tick(dt) =>
  }

  lemma {:induction false} RunKeepsOk(l: Link, steps: seq<Step>, tolerance: nat)
    requires Ok(l, tolerance) && CanRun(l, steps, tolerance)
    ensures Ok(RunEnd(l, steps, tolerance), tolerance)
    decreases |steps|
  {
    hide Ok;
    if steps != [] {
      StepKeepsOk(l, steps[0], tolerance);
      RunKeepsOk(Happen(l, steps[0], tolerance), steps[1..], tolerance);
    }
  }

  /**
   * Over every run of a link with punctual timers: an end that considers it up has heard a packet
   * within the tolerance, and the other end has heard one within the tolerance before it sent a
   * packet that this one has heard since. So packets have got through both ways.
   */
  lemma UpMeansBothWays(start: int, steps: seq<Step>, tolerance: nat)
    requires CanRun(Init(start), steps, tolerance)
    ensures var l := RunEnd(Init(start), steps, tolerance);
      l.one.status.up ==>
        exists k, i :: 0 <= k < |l.one.heard| && 0 <= i < |l.other.sent|
          && l.now - tolerance <= l.one.heard[k] <= l.now && l.other.sent[i].at <= l.one.heard[k]
          && HeardWithin(l.other, l.other.sent[i].at - tolerance, l.other.sent[i].at)
  {
    hide CanRun, RunEnd, HeardWithin;
    InitOk(start, tolerance);
    RunKeepsOk(Init(start), steps, tolerance);
    var l := RunEnd(Init(start), steps, tolerance);
    if l.one.status.up {
      var now := l.one.heard[|l.one.heard| - 1];
      var k, i :| 0 <= k < |l.one.heard| && 0 <= i < |l.other.sent| && now - 0 <= l.one.heard[k] <= now
        && l.other.sent[i].receiving && l.other.sent[i].at <= l.one.heard[k];
      assert TrueOf(l.other, l.other.sent[i], tolerance);
    }
  }

  /** Over every run, who is told of the link hears of up and down in turn, beginning with up, and nothing is left to tell exactly when the last told is so. */
  lemma ReportsInTurn(start: int, steps: seq<Step>, tolerance: nat)
    requires CanRun(Init(start), steps, tolerance)
    ensures var x := RunEnd(Init(start), steps, tolerance).one;
      && (forall k | 0 <= k < |x.reports| :: x.reports[k] == (k % 2 == 0))
      && (ToReport(x.status) <==> x.status.up != (x.reports != [] && x.reports[|x.reports| - 1]))
  {
    hide CanRun, RunEnd;
    InitOk(start, tolerance);
    RunKeepsOk(Init(start), steps, tolerance);
  }

  /** A packet makes the link up or down by what it says, until nothing has been heard for the tolerance. */
  lemma HearingDecides(s: Status, receiving: bool, tolerance: nat, now: int)
    ensures Hear(s, receiving, tolerance, now) == Status(receiving, s.reported, Some(now + tolerance))
    ensures Silence(Hear(s, receiving, tolerance, now)) == Status(false, s.reported, None)
  {
  }

  /** The part of a sink that keeps track of its link. */
  class Monitor {
    const tolerance: nat
    var up: bool
    var upReport: bool
    var jobSet: bool
    var receiveTimer: Option<int>

    ghost predicate Valid()
      reads this
    {
      jobSet == ToReport(View())
    }

    ghost function View(): Status
      reads this
    {
      Status(up, upReport, receiveTimer)
    }

    constructor (tolerance: nat)
      ensures Valid() && View() == FRESH && this.tolerance == tolerance
    {
      this.tolerance := tolerance;
      up, upReport, jobSet, receiveTimer := false, false, false, None;
    }

    /** refresh_up_job */
    method RefreshJob()
      modifies this`jobSet
      ensures Valid()
    {
      jobSet := up != upReport;
    }

    /** DataProtoSink_Received; a keepalive is sent at once to an end that does not hear this one. */
    method Received(receiving: bool, now: int) returns (keepalive: bool)
      requires Valid()
      modifies this
      ensures Valid() && View() == Hear(old(View()), receiving, tolerance, now) && keepalive == !receiving
    {
      receiveTimer := Some(now + tolerance);
      keepalive := false;
      if !receiving {
        up := false;
        keepalive := true;
      } else {
        up := true;
      }
      RefreshJob();
    }

    /** receive_timer_handler */
    method ReceiveTimerExpired()
      requires Valid()
      modifies this
      ensures Valid() && View() == Silence(old(View()))
    {
      receiveTimer := None;
      up := false;
      RefreshJob();
    }

    /** up_job_handler: what is reported has not been reported last. */
    method UpJob() returns (reported: bool)
      requires Valid() && jobSet
      modifies this
      ensures Valid() && View() == Report(old(View())) && reported == up && !jobSet
    {
      upReport := up;
      jobSet := false;
      reported := up;
    }

    /** notifier_handler */
    method Flag() returns (receiving: bool)
      ensures receiving == Receiving(View())
    {
      receiving := receiveTimer.Some?;
    }
  }
}
