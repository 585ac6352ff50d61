/** What a WebSocket peer does for the node while it is open: it hands over what it
    hears, echoes pings and sends on what the node gives it; and when it pings. */
module PeerTraffic {
  import opened Routing
  import opened WebSocketPeer

  // -------------------------------------------------------------------- traffic

  predicate IsTraffic(e: Effect) {
    e.HandleNodeMessage? || (e.Send? && (e.message.Pong? || e.message.NodeMsg?))
  }

  /** The effects that carry traffic, in order. */
  function Traffic(effects: seq<Effect>): seq<Effect> {
    if effects == [] then []
    else (if IsTraffic(effects[0]) then [effects[0]] else []) + Traffic(effects[1..])
  }

  lemma Regroup<T>(a: seq<T>, b: seq<T>, c: seq<T>)
    ensures (a + b) + c == a + (b + c)
  {
  }

  /** What an event asks for: a message for the node, an echo, a message to the peer. */
  function AskedFor(e: Event): seq<Effect> {
    match e
    case FromWire(NodeMsg(m)) => [HandleNodeMessage(m)]
    case FromWire(Ping(token)) => [Send(Pong(token))]
    case FromNode(m) => [Send(NodeMsg(m))]
    case _ => []
  }

  function AskedForBy(events: seq<(Event, nat)>): seq<Effect> {
    if events == [] then [] else AskedFor(events[0].0) + AskedForBy(events[1..])
  }

  lemma {:induction false} TrafficPlus(a: seq<Effect>, b: seq<Effect>)
    ensures Traffic(a + b) == Traffic(a) + Traffic(b)
  {
    if a == [] {
      assert a + b == b;
    } else {
      TrafficPlus(a[1..], b);
      assert (a + b)[1..] == a[1..] + b && (a + b)[0] == a[0];
      Regroup(if IsTraffic(a[0]) then [a[0]] else [], Traffic(a[1..]), Traffic(b));
    }
  }

  /** At most one effect waits while the machine is open, and none of traffic afterwards. */
  ghost predicate Light(m: Machine) {
    if m.phase.Open? then |m.effects| <= 1 else Traffic(m.effects) == []
  }

  /** What leaving Open queues, by the event that makes the peer leave. */
  function Farewell(e: Event): seq<Effect> {
    match e
    case FromWire(CloseConnection) => [CloseSocket, NotifyPeerClosed, Unregister]
    case TransportDead => [NotifyPeerClosed, Unregister]
    case _ => [Send(CloseConnection), CloseSocket, Unregister]
  }

  lemma LeavingQueues(m: Machine, e: Event, now: nat)
    requires m.phase.Open? && !m.Step(e, now).phase.Open?
    ensures m.Step(e, now).effects == m.effects + Farewell(e) && m.Step(e, now).phase.Closing?
    ensures AskedFor(e) == []
  {
  }

  lemma FarewellIsQuiet(e: Event)
    ensures Traffic(Farewell(e)) == []
  {
    var f := Farewell(e);
    assert Traffic(f[1..]) == [] by {
      assert Traffic(f[1..][1..]) == [];
    }
  }

  /** An event that an idle machine takes in queues the traffic it asks for, and no other. */
  lemma StepAsks(m: Machine, e: Event, now: nat)
    requires m.phase.Open? && m.effects == []
    ensures Light(m.Step(e, now)) && Traffic(m.Step(e, now).effects) == AskedFor(e)
  {
    var m' := m.Step(e, now);
    if m'.phase.Open? {
      assert |m'.effects| == 1 ==> m'.effects[1..] == [];
    } else {
      LeavingQueues(m, e, now);
      FarewellIsQuiet(e);
    }
  }

  lemma SomeOf(before: seq<Effect>, after: seq<Effect>, queued: seq<Effect>) returns (some: seq<Effect>)
    requires before <= after <= before + queued
    ensures some <= queued && after == before + some
  {
    some := after[|before|..];
    var all := before + queued;
    assert after == all[..|after|];
  }

  lemma QuietPart(some: seq<Effect>, all: seq<Effect>)
    requires some <= all && Traffic(all) == []
    ensures Traffic(some) == []
  {
    TrafficPlus(some, all[|some|..]);
    assert all == some + all[|some|..];
  }

  /** Applying a part of what carries no traffic adds none. */
  lemma QuietDrain(before: seq<Effect>, after: seq<Effect>, queued: seq<Effect>)
    requires before <= after <= before + queued && Traffic(queued) == []
    ensures Traffic(after) == Traffic(before)
  {
    var some := SomeOf(before, after, queued);
    QuietPart(some, queued);
    TrafficPlus(before, some);
  }

  /** Once it has left Open, a machine reads nothing and carries no more traffic. */
  lemma {:induction false} QuietAfterOpen(m: Machine, events: seq<(Event, nat)>, ok: nat -> bool, log: Log, tries: nat)
    requires m.Ok() && !m.phase.Open? && Light(m)
    ensures var o := Drive(m, events, ok, log, tries);
            o.log.readIn == log.readIn && Traffic(o.log.applied) == Traffic(log.applied)
    ensures |log.failures| <= |Drive(m, events, ok, log, tries).log.failures|
    decreases PhaseRank(m)
  {
    DriveTurns(m, events, ok, log, tries);
    DrainKeeps(m, ok, log, tries);
    var d := DrainAll(m, ok, log, tries);
    QuietDrain(log.applied, d.log.applied, m.effects);
    if d.failed {
      QuietAfterOpen(d.m.Step(TransportDead, 0), events, ok, d.log, d.tries);
    }
  }

  /** All that was asked for has been carried, or all but the last of it, which was to
      be written to the socket and could not be. */
  ghost predicate Carried(applied: seq<Effect>, asked: seq<Effect>, failed: bool) {
    || Traffic(applied) == asked
    || (failed && asked != [] && asked[|asked| - 1].Send? && Traffic(applied) == asked[..|asked| - 1])
  }

  /** How many events a run reads. */
  function Read(before: Log, after: Log): int {
    |after.readIn| - |before.readIn|
  }

  /** The turn in which a write fails while the machine is open. */
  lemma FailureCarries(m: Machine, events: seq<(Event, nat)>, ok: nat -> bool, log: Log, tries: nat)
    requires m.Ok() && m.phase.Open? && Light(m) && DrainAll(m, ok, log, tries).failed
    ensures var o := Drive(m, events, ok, log, tries);
            && Read(log, o.log) == 0 && |log.failures| < |o.log.failures|
            && Carried(o.log.applied, Traffic(log.applied) + Traffic(m.effects), true)
  {
    DriveTurns(m, events, ok, log, tries);
    var d := DrainAll(m, ok, log, tries);
    assert m.effects == [m.effects[0]] && Fallible(m.effects[0]);
    assert d.m.effects == [] && d.log.applied == log.applied && |d.log.failures| == |log.failures| + 1;
    StepAsks(d.m, TransportDead, 0);
    QuietAfterOpen(d.m.Step(TransportDead, 0), events, ok, d.log, d.tries);
    assert m.effects[1..] == [];
  }

  lemma AskedFirst(events: seq<(Event, nat)>, r: nat)
    requires r < |events|
    ensures AskedForBy(events[..r + 1]) == AskedFor(events[0].0) + AskedForBy(events[1..][..r])
  {
    assert events[..r + 1][1..] == events[1..][..r];
  }

  /** What a run has carried from some turn on. */
  ghost predicate CarriesOn(m: Machine, events: seq<(Event, nat)>, log: Log, o: Outcome) {
    && 0 <= Read(log, o.log) <= |events| && |log.failures| <= |o.log.failures|
    && Carried(o.log.applied, Traffic(log.applied) + Traffic(m.effects) + AskedForBy(events[..Read(log, o.log)]),
               |log.failures| < |o.log.failures|)
  }

  lemma {:induction false} DriveCarries(m: Machine, events: seq<(Event, nat)>, ok: nat -> bool, log: Log, tries: nat)
    requires m.Ok() && Light(m)
    ensures CarriesOn(m, events, log, Drive(m, events, ok, log, tries))
    decreases |events|
  {
    var d := DrainAll(m, ok, log, tries);
    if !m.phase.Open? {
      QuietAfterOpen(m, events, ok, log, tries);
    } else if d.failed {
      FailureCarries(m, events, ok, log, tries);
    } else {
      DriveTurns(m, events, ok, log, tries);
      DrainKeeps(m, ok, log, tries);
      TrafficPlus(log.applied, m.effects);
      if events != [] {
        var next := d.m.Step(events[0].0, events[0].1);
        var log' := d.log.(readIn := d.log.readIn + [d.m.phase]);
        StepAsks(d.m, events[0].0, events[0].1);
        DriveCarries(next, events[1..], ok, log', d.tries);
        EventCarries(m, events, log, next, log', Drive(m, events, ok, log, tries));
      }
    }
  }

  lemma EventCarries(m: Machine, events: seq<(Event, nat)>, log: Log, next: Machine, log': Log, o: Outcome)
    requires events != [] && CarriesOn(next, events[1..], log', o)
    requires |log'.readIn| == |log.readIn| + 1 && log'.failures == log.failures
    requires Traffic(log'.applied) == Traffic(log.applied) + Traffic(m.effects)
    requires Traffic(next.effects) == AskedFor(events[0].0)
    ensures CarriesOn(m, events, log, o)
  {
    var r := Read(log', o.log);
    AskedFirst(events, r);
    Regroup(Traffic(log'.applied), AskedFor(events[0].0), AskedForBy(events[1..][..r]));
  }

  /** While a peer that starts idle is open it carries exactly what the events it reads
      ask for, in order and once each: messages of the peer to the node, echoes of its
      pings, and messages of the node to the peer. If a write fails, the last of it may
      be missing, when that was the write. */
  lemma TrafficIsCarried(m: Machine, events: seq<(Event, nat)>, ok: nat -> bool, tries: nat)
    requires m.phase.Open? && m.effects == []
    ensures m.Ok()
    ensures var o := Drive(m, events, ok, Log([], [], []), tries);
            && |o.log.readIn| <= |events|
            && Carried(o.log.applied, AskedForBy(events[..|o.log.readIn|]), o.log.failures != [])
  {
    DriveCarries(m, events, ok, Log([], [], []), tries);
  }

  /** The messages handed over to the node. */
  function HandedOver(effects: seq<Effect>): seq<NodeMessage> {
    if effects == [] then []
    else (if effects[0].HandleNodeMessage? then [effects[0].node] else []) + HandedOver(effects[1..])
  }

  /** The node messages among what the peer sends. */
  function Messages(events: seq<(Event, nat)>): seq<NodeMessage> {
    if events == [] then []
    else
      (match events[0].0
       case FromWire(NodeMsg(m)) => [m]
       case _ => []) + Messages(events[1..])
  }

  lemma {:induction false} HandedOverPlus(a: seq<Effect>, b: seq<Effect>)
    ensures HandedOver(a + b) == HandedOver(a) + HandedOver(b)
  {
    if a == [] {
      assert a + b == b;
    } else {
      HandedOverPlus(a[1..], b);
      assert (a + b)[1..] == a[1..] + b && (a + b)[0] == a[0];
      Regroup(if a[0].HandleNodeMessage? then [a[0].node] else [], HandedOver(a[1..]), HandedOver(b));
    }
  }

  lemma {:induction false} HandedOverIsTraffic(effects: seq<Effect>)
    ensures HandedOver(Traffic(effects)) == HandedOver(effects)
  {
    if effects != [] {
      HandedOverIsTraffic(effects[1..]);
      var head := if IsTraffic(effects[0]) then [effects[0]] else [];
      HandedOverPlus(head, Traffic(effects[1..]));
      assert head != [] ==> head[1..] == [];
    }
  }

  lemma {:induction false} AskedToHandOver(events: seq<(Event, nat)>)
    ensures HandedOver(AskedForBy(events)) == Messages(events)
  {
    if events != [] {
      AskedToHandOver(events[1..]);
      var head := AskedFor(events[0].0);
      HandedOverPlus(head, AskedForBy(events[1..]));
      assert head != [] ==> head[1..] == [];
    }
  }

  /** Whatever fails, every node message read is handed over to the node, in order. */
  lemma MessagesAreHandedOver(m: Machine, events: seq<(Event, nat)>, ok: nat -> bool, tries: nat)
    requires m.phase.Open? && m.effects == []
    ensures m.Ok()
    ensures var o := Drive(m, events, ok, Log([], [], []), tries);
            |o.log.readIn| <= |events| && HandedOver(o.log.applied) == Messages(events[..|o.log.readIn|])
  {
    TrafficIsCarried(m, events, ok, tries);
    var o := Drive(m, events, ok, Log([], [], []), tries);
    var asked := AskedForBy(events[..|o.log.readIn|]);
    AskedToHandOver(events[..|o.log.readIn|]);
    HandedOverIsTraffic(o.log.applied);
    if Traffic(o.log.applied) != asked {
      var front, last := asked[..|asked| - 1], asked[|asked| - 1];
      assert asked == front + [last] && [last][1..] == [];
      HandedOverPlus(front, [last]);
    }
  }

  lemma LastTurn(m: Machine, events: seq<(Event, nat)>, ok: nat -> bool, tries: nat)
    requires m.Ok() && m.phase.Closing? && !DrainAll(m, ok, Log([], [], []), tries).failed
    ensures Drive(m, events, ok, Log([], [], []), tries).log.applied == m.effects
  {
    DriveTurns(m, events, ok, Log([], [], []), tries);
    DrainKeeps(m, ok, Log([], [], []), tries);
    assert [] + m.effects == m.effects;
  }

  /** If everything queued can be applied, a peer that leaves Open says farewell as the
      occasion demands: to the other side if it leaves itself, to the manager if the
      other side has gone. */
  lemma FarewellIsApplied(m: Machine, e: Event, now: nat, events: seq<(Event, nat)>, ok: nat -> bool, tries: nat)
    requires m.phase.Open? && m.effects == [] && m.Step(e, now).phase.Closing? && forall i: nat :: ok(i)
    ensures var m' := m.Step(e, now);
            && m'.Ok()
            && Drive(m', events, ok, Log([], [], []), tries).log.applied == Farewell(e)
  {
    var m' := m.Step(e, now);
    StepOk(m, e, now);
    LeavingQueues(m, e, now);
    DrainFails(m', ok, Log([], [], []), tries);
    LastTurn(m', events, ok, tries);
    assert [] + Farewell(e) == Farewell(e);
  }

  // ---------------------------------------------------------------------- pings

  /** When the next ping is due. */
  function DueAt(p: Pulse): nat {
    p.interval + if p.lastPing.Some? then p.lastPing.value else p.lastRx
  }

  /** A ping due before the timeout goes out at the first deadline, the peer staying open;
      a tick before the deadline does nothing. */
  lemma PingsWhenDue(m: Machine)
    requires m.phase.Open? && m.pulse.Ok() && DueAt(m.pulse) < m.pulse.lastRx + m.pulse.timeout
    ensures m.pulse.NextDeadline() == DueAt(m.pulse)
    ensures var m' := m.Step(Tick(DueAt(m.pulse)), DueAt(m.pulse));
            && m'.phase.Open? && m'.effects == m.effects + [Send(Ping(m.pulse.nextToken))]
            && m'.pulse.lastPing == Some(DueAt(m.pulse)) && m'.pulse.outstanding == Some(m.pulse.nextToken)
            && m'.pulse.nextToken == (m.pulse.nextToken + 1) % TOKENS
    ensures forall at: nat :: at < DueAt(m.pulse) ==> m.Step(Tick(at), at) == m
  {
  }

  /** Each tick comes right at the deadline. */
  ghost predicate Punctual(m: Machine, times: seq<nat>) {
    forall i: nat {:trigger OnDot(m, times, i)} :: OnDot(m, times, i)
  }

  ghost predicate OnDot(m: Machine, times: seq<nat>, i: nat) {
    i < |times| ==> times[i] == Ticks(m, times[..i]).pulse.NextDeadline()
  }

  lemma PunctualFront(m: Machine, times: seq<nat>)
    requires Punctual(m, times) && times != []
    ensures Punctual(m, times[..|times| - 1])
    ensures times[|times| - 1] == Ticks(m, times[..|times| - 1]).pulse.NextDeadline()
  {
    var front := times[..|times| - 1];
    forall i: nat ensures OnDot(m, front, i) {
      assert OnDot(m, times, i);
      assert i < |front| ==> front[..i] == times[..i];
    }
    assert OnDot(m, times, |front|);
  }

  lemma OneMore(n: nat, interval: nat)
    ensures (n + 1) * interval == n * interval + interval
  {
  }

  /** Through a silence, a peer ticked at every deadline pings once every interval. */
  lemma {:induction false} PingsEveryInterval(m: Machine, times: seq<nat>)
    requires m.phase.Open? && m.pulse.interval > 0 && m.pulse.lastPing == None && Punctual(m, times)
    requires |times| * m.pulse.interval < m.pulse.timeout
    ensures var m' := Ticks(m, times);
            && m'.phase.Open? && Pings(m'.effects) == Pings(m.effects) + |times|
            && DueAt(m'.pulse) == m.pulse.lastRx + (|times| + 1) * m.pulse.interval
            && m'.pulse.lastRx == m.pulse.lastRx && m'.pulse.interval == m.pulse.interval
            && m'.pulse.timeout == m.pulse.timeout
    ensures times != [] ==> times[|times| - 1] == m.pulse.lastRx + |times| * m.pulse.interval
  {
    if times != [] {
      var front := times[..|times| - 1];
      PunctualFront(m, times);
      OneMore(|front|, m.pulse.interval);
      OneMore(|times|, m.pulse.interval);
      PingsEveryInterval(m, front);
      var before := Ticks(m, front);
      PingsWhenDue(before);
      PingsAdd(before.effects, Send(Ping(before.pulse.nextToken)));
    }
  }

  lemma MostPingsIs(p: Pulse)
    requires p.interval > 0 && p.timeout > 0
    ensures MostPings(p) >= 0 && MostPings(p) * p.interval < p.timeout <= (MostPings(p) + 1) * p.interval
  {
    var q := (p.timeout + p.interval - 1) / p.interval;
    assert q * p.interval <= p.timeout + p.interval - 1 < q * p.interval + p.interval;
    assert (MostPings(p) + 1) * p.interval == q * p.interval;
    assert MostPings(p) * p.interval == q * p.interval - p.interval;
  }

  /** A silent peer ticked at every deadline is sent exactly ceil(timeout / interval) - 1
      pings, and closed by the next tick, when the timeout is over. */
  lemma SilentPeerExactly(m: Machine, times: seq<nat>)
    requires m.phase.Open? && m.pulse.interval > 0 && m.pulse.timeout > 0 && m.pulse.lastPing == None
    requires Punctual(m, times) && |times| == MostPings(m.pulse) + 1
    ensures times[|times| - 1] == m.pulse.lastRx + m.pulse.timeout
    ensures var m' := Ticks(m, times);
            m'.phase.Closing? && Pings(m'.effects) == Pings(m.effects) + MostPings(m.pulse)
  {
    MostPingsIs(m.pulse);
    PunctualFront(m, times);
    PingsEveryInterval(m, times[..|times| - 1]);
    CloseQueuesNoPing(Ticks(m, times[..|times| - 1]));
  }

  /** Whatever is heard puts off the timeout, unless it ends the connection; so does a
      resume, which pings at once. */
  lemma HearingPutsOff(m: Machine, e: Event, now: nat, at: nat)
    requires m.phase.Open? && now <= at < now + m.pulse.timeout
    requires e.Resume? || (e.FromWire? && !e.message.Hello? && !e.message.CloseConnection?)
    ensures m.Step(e, now).phase.Open? && m.Step(e, now).Step(Tick(at), at).phase.Open?
    ensures e.Resume? ==> m.Step(e, now).effects == m.effects + [Send(Ping(m.pulse.nextToken))]
    ensures DueAt(m.Step(e, now).pulse) == now + m.pulse.interval
    ensures e.FromWire? ==> m.Step(e, now).pulse.outstanding == None
  {
  }
}
