/** The WebSocket peer: heartbeat, event/effect state machine, and the driver loop
    whose effects may fail. */
module WebSocketPeer {
  import opened Routing

  // ------------------------------------------------------------------ heartbeat

  const TOKENS: nat := 0x1_0000_0000_0000_0000

  datatype Pulse = Pulse(interval: nat, timeout: nat, lastRx: nat, lastPing: Option<nat>, outstanding: Option<nat>,
                         nextToken: nat) {
    function PokeAt(): nat {
      match lastPing
      case Some(sent) => sent + interval
      case None => lastRx + interval
    }

    /** When the driver should tick next: the next ping, but not past the timeout. */
    function NextDeadline(): nat {
      if PokeAt() <= lastRx + timeout then PokeAt() else lastRx + timeout
    }

    /** A ping on record was sent after the last message was heard. */
    predicate Ok() {
      lastPing.Some? ==> lastRx <= lastPing.value
    }

    predicate TimedOut(now: nat) {
      (if now < lastRx then 0 else now - lastRx) >= timeout
    }

    predicate PingDue(now: nat) {
      now >= PokeAt()
    }

    function Heard(now: nat): Pulse {
      this.(lastRx := now, lastPing := None, outstanding := None)
    }

    function Pinged(now: nat): Pulse {
      this.(lastPing := Some(now), outstanding := Some(nextToken), nextToken := (nextToken + 1) % TOKENS)
    }
  }

  class Heartbeat {
    const interval: nat
    const timeout: nat
    var lastRx: nat
    var lastPing: Option<nat>
    var outstanding: Option<nat>
    var nextToken: nat

    ghost function View(): Pulse
      reads this
    {
      Pulse(interval, timeout, lastRx, lastPing, outstanding, nextToken)
    }

    constructor (now: nat, interval: nat, timeout: nat)
      ensures View() == Pulse(interval, timeout, now, None, None, 1)
    {
      this.interval, this.timeout := interval, timeout;
      lastRx, lastPing, outstanding, nextToken := now, None, None, 1;
    }

    method OnRx(now: nat)
      modifies this
      ensures View() == old(View()).Heard(now)
    {
      lastRx := now;
      lastPing := None;
      outstanding := None;
    }

    method NoteResume(now: nat)
      modifies this
      ensures View() == old(View()).Heard(now)
    {
      OnRx(now);
    }

    method NextDeadline() returns (t: nat)
      ensures t == View().NextDeadline()
    {
      var pokeAt := match lastPing
        case Some(sent) => sent + interval
        case None => lastRx + interval;
      var dieAt := lastRx + timeout;
      t := if pokeAt <= dieAt then pokeAt else dieAt;
    }

    method TimedOut(now: nat) returns (b: bool)
      ensures b == View().TimedOut(now)
    {
      b := (if now < lastRx then 0 else now - lastRx) >= timeout;
    }

    method PingDue(now: nat) returns (b: bool)
      ensures b == View().PingDue(now)
    {
      var due := match lastPing
        case Some(sent) => sent + interval
        case None => lastRx + interval;
      b := now >= due;
    }

    method TakePingToken(now: nat) returns (token: nat)
      modifies this
      ensures token == old(nextToken) && View() == old(View()).Pinged(now)
    {
      token := nextToken;
      nextToken := (nextToken + 1) % TOKENS;
      lastPing := Some(now);
      outstanding := Some(token);
    }
  }

  // -------------------------------------------------------------- state machine

  type NodeMessage = nat

  datatype WsMessage =
    | Hello(id: NodeId)
    | CloseConnection
    | Ping(token: nat)
    | Pong(token: nat)
    | NodeMsg(message: NodeMessage)
  datatype Event =
    | Stop
    | Resume
    | FromWire(message: WsMessage)
    | FromNode(node: NodeMessage)
    | TransportDead
    | UnknownWire
    | Tick(at: nat)
  datatype Effect =
    | Send(message: WsMessage)
    | CloseSocket
    | HandleNodeMessage(node: NodeMessage)
    | Unregister
    | NotifyPeerClosed
  datatype Phase = Open | Closing | Closed
  datatype CloseReason = Local | RemoteEnd | Transport

  datatype Machine = Machine(phase: Phase, effects: seq<Effect>, pulse: Pulse) {
    function Emit(e: Effect): Machine {
      this.(effects := effects + [e])
    }

    function Close(reason: CloseReason): Machine {
      if phase != Open then this
      else
        var goodbye := match reason
          case Local => [Send(CloseConnection), CloseSocket]
          case RemoteEnd => [CloseSocket, NotifyPeerClosed]
          case Transport => [NotifyPeerClosed];
        this.(phase := Closing, effects := effects + goodbye + [Unregister])
    }

    function OnWire(m: WsMessage, now: nat): Machine {
      var heard := this.(pulse := pulse.Heard(now));
      match m
      case Hello(_) => heard.Close(Local)
      case CloseConnection => heard.Close(RemoteEnd)
      case Ping(token) => heard.Emit(Send(Pong(token)))
      case Pong(_) => heard
      case NodeMsg(message) => heard.Emit(HandleNodeMessage(message))
    }

    function OnTick(now: nat): Machine {
      if pulse.TimedOut(now) then Close(Local)
      else if pulse.PingDue(now) then this.(pulse := pulse.Pinged(now)).Emit(Send(Ping(pulse.nextToken)))
      else this
    }

    function Step(e: Event, now: nat): Machine {
      match phase
      case Closed => this
      case Closing => if e.TransportDead? then this.(phase := Closed, effects := []) else this
      case Open =>
        match e
        case Stop => Close(Local)
        case Resume =>
          var p := pulse.Heard(now);
          this.(pulse := p.Pinged(now)).Emit(Send(Ping(p.nextToken)))
        case FromWire(m) => OnWire(m, now)
        case TransportDead => Close(Transport)
        case UnknownWire => this
        case Tick(at) => OnTick(at)
        case FromNode(m) => Emit(Send(NodeMsg(m)))
    }

    /** Unregister is queued once, last, by leaving Open; a closed machine has nothing queued. */
    ghost predicate Ok() {
      match phase
      case Open => Unregister !in effects
      case Closing => effects == [] || (effects[|effects| - 1] == Unregister && Unregister !in effects[..|effects| - 1])
      case Closed => effects == []
    }
  }

  lemma CloseOk(m: Machine, reason: CloseReason)
    requires m.Ok() && m.phase.Open?
    ensures var m' := m.Close(reason);
            && m'.Ok() && m'.phase.Closing? && m.effects < m'.effects
            && m'.effects[|m'.effects| - 1] == Unregister && m'.pulse == m.pulse
  {
  }

  /** One Unregister was queued, behind everything else, on leaving Open. */
  ghost predicate Left(m: Machine, m': Machine) {
    m'.phase.Closing? && m.effects < m'.effects && m'.effects[|m'.effects| - 1] == Unregister
  }

  /** Still open and disciplined, or just left. */
  ghost predicate OpenOrLeft(m: Machine, m': Machine) {
    m'.Ok() && (m'.phase.Open? || Left(m, m'))
  }

  lemma EmitOk(m: Machine, e: Effect)
    requires m.Ok() && m.phase.Open? && e != Unregister
    ensures OpenOrLeft(m, m.Emit(e))
  {
  }

  lemma OnWireOk(m: Machine, w: WsMessage, now: nat)
    requires m.Ok() && m.phase.Open?
    ensures OpenOrLeft(m, m.OnWire(w, now))
  {
    var heard := m.(pulse := m.pulse.Heard(now));
    match w
    case Hello(_) => CloseOk(heard, Local);
    case CloseConnection => CloseOk(heard, RemoteEnd);
    case Ping(token) => EmitOk(heard, Send(Pong(token)));
    case Pong(_) =>
    case NodeMsg(message) => EmitOk(heard, HandleNodeMessage(message));
  }

  lemma OnTickOk(m: Machine, at: nat)
    requires m.Ok() && m.phase.Open?
    ensures OpenOrLeft(m, m.OnTick(at))
  {
    if m.pulse.TimedOut(at) {
      CloseOk(m, Local);
    } else if m.pulse.PingDue(at) {
      EmitOk(m.(pulse := m.pulse.Pinged(at)), Send(Ping(m.pulse.nextToken)));
    }
  }

  lemma OpenStepOk(m: Machine, e: Event, now: nat)
    requires m.Ok() && m.phase.Open?
    ensures OpenOrLeft(m, m.Step(e, now))
  {
    match e
    case Stop => CloseOk(m, Local);
    case Resume =>
      var p := m.pulse.Heard(now);
      EmitOk(m.(pulse := p.Pinged(now)), Send(Ping(p.nextToken)));
    case FromWire(w) => OnWireOk(m, w, now);
    case FromNode(n) => EmitOk(m, Send(NodeMsg(n)));
    case TransportDead => CloseOk(m, Transport);
    case UnknownWire =>
    case Tick(at) => OnTickOk(m, at);
  }

  /** Every event keeps the queue discipline, and an event that leaves Open queues
      exactly one Unregister, behind everything else. */
  lemma StepOk(m: Machine, e: Event, now: nat)
    requires m.Ok()
    ensures m.Step(e, now).Ok()
    ensures m.phase.Open? && !m.Step(e, now).phase.Open? ==> Left(m, m.Step(e, now))
    ensures !m.phase.Open? ==> !m.Step(e, now).phase.Open? && m.Step(e, now).effects <= m.effects
  {
    if m.phase.Open? {
      OpenStepOk(m, e, now);
    }
  }

  class WsPeer {
    var phase: Phase
    var effects: seq<Effect>
    const hb: Heartbeat

    ghost function View(): Machine
      reads this, hb
    {
      Machine(phase, effects, hb.View())
    }

    constructor (now: nat, interval: nat, timeout: nat)
      ensures fresh(hb) && View() == Machine(Open, [], Pulse(interval, timeout, now, None, None, 1))
    {
      phase, effects := Open, [];
      hb := new Heartbeat(now, interval, timeout);
    }

    method IsDone() returns (b: bool)
      ensures b == (phase.Closed? && effects == [])
    {
      b := phase == Closed && effects == [];
    }

    method NextWake() returns (t: Option<nat>)
      ensures t == if phase.Open? then Some(View().pulse.NextDeadline()) else None
    {
      if phase == Open {
        var d := hb.NextDeadline();
        t := Some(d);
      } else {
        t := None;
      }
    }

    method PollEffect() returns (e: Option<Effect>)
      modifies this`effects
      ensures old(effects) == [] ==> e == None && effects == []
      ensures old(effects) != [] ==> e == Some(old(effects)[0]) && effects == old(effects)[1..]
    {
      if effects == [] {
        return None;
      }
      e := Some(effects[0]);
      effects := effects[1..];
    }

    method EffectsFlushed()
      modifies this`phase
      ensures phase == if old(phase).Closing? && effects == [] then Closed else old(phase)
    {
      if phase == Closing && effects == [] {
        phase := Closed;
      }
    }

    method Emit(e: Effect)
      modifies this`effects
      ensures effects == old(effects) + [e]
    {
      effects := effects + [e];
    }

    method Close(reason: CloseReason)
      modifies this`phase, this`effects
      ensures View() == old(View()).Close(reason)
    {
      if phase != Open {
        return;
      }
      match reason {
        case Local =>
          Emit(Send(CloseConnection));
          Emit(CloseSocket);
        case RemoteEnd =>
          Emit(CloseSocket);
          Emit(NotifyPeerClosed);
        case Transport =>
          Emit(NotifyPeerClosed);
      }
      Emit(Unregister);
      phase := Closing;
    }

    method OnWire(m: WsMessage, now: nat)
      modifies this`phase, this`effects, hb
      ensures View() == old(View()).OnWire(m, now)
      ensures m.NodeMsg? ==> effects == old(effects) + [HandleNodeMessage(m.message)]
      ensures m.Ping? ==> effects == old(effects) + [Send(Pong(m.token))]
    {
      hb.OnRx(now);
      match m
      case Hello(_) => Close(Local);
      case CloseConnection => Close(RemoteEnd);
      case Ping(token) => Emit(Send(Pong(token)));
      case Pong(_) =>
      case NodeMsg(message) => Emit(HandleNodeMessage(message));
    }

    method OnTick(now: nat)
      modifies this`phase, this`effects, hb
      ensures View() == old(View()).OnTick(now)
    {
      var dead := hb.TimedOut(now);
      if dead {
        Close(Local);
        return;
      }
      var due := hb.PingDue(now);
      if due {
        var token := hb.TakePingToken(now);
        Emit(Send(Ping(token)));
      }
    }

    method Step(e: Event, now: nat)
      modifies this`phase, this`effects, hb
      ensures View() == old(View()).Step(e, now)
    {
      match phase {
        case Closed => return;
        case Closing =>
          if e.TransportDead? {
            effects := [];
            phase := Closed;
          }
          return;
        case Open =>
      }
      match e
      case Stop => Close(Local);
      case Resume =>
        hb.NoteResume(now);
        var token := hb.TakePingToken(now);
        Emit(Send(Ping(token)));
      case FromWire(m) => OnWire(m, now);
      case TransportDead => Close(Transport);
      case UnknownWire =>
      case Tick(at) => OnTick(at);
      case FromNode(m) => Emit(Send(NodeMsg(m)));
    }
  }

  // ---------------------------------------------------------------- silent peer

  /** A tick at or after the deadline pings and moves the deadline on, or closes;
      and it closes exactly when the silence has reached the timeout. */
  lemma TickAdvances(m: Machine, now: nat)
    requires m.phase.Open? && m.pulse.interval > 0 && m.pulse.Ok() && now >= m.pulse.NextDeadline()
    ensures var m' := m.Step(Tick(now), now);
            && (m'.phase.Closing? <==> now >= m.pulse.lastRx + m.pulse.timeout)
            && (m'.phase.Open? ==>
                  && m'.effects == m.effects + [Send(Ping(m.pulse.nextToken))]
                  && m'.pulse.lastRx == m.pulse.lastRx && m'.pulse.lastPing == Some(now)
                  && m'.pulse.interval == m.pulse.interval && m'.pulse.timeout == m.pulse.timeout
                  && m'.pulse.NextDeadline() > m.pulse.NextDeadline() && m'.pulse.Ok())
  {
  }

  /** While the clock does not go back, a ping on record is never older than the
      last message heard, whatever happens. */
  lemma StepKeepsPulse(m: Machine, e: Event, now: nat)
    requires m.pulse.Ok() && m.pulse.lastRx <= now && (e.Tick? ==> m.pulse.lastRx <= e.at)
    ensures m.Step(e, now).pulse.Ok()
  {
  }

  /** The machine after a series of ticks. */
  function Ticks(m: Machine, times: seq<nat>): Machine {
    if times == [] then m
    else
      var before := Ticks(m, times[..|times| - 1]);
      before.Step(Tick(times[|times| - 1]), times[|times| - 1])
  }

  /** The pings in a queue of effects. */
  function Pings(effects: seq<Effect>): nat {
    if effects == [] then 0
    else
      var last := effects[|effects| - 1];
      Pings(effects[..|effects| - 1]) + if last.Send? && last.message.Ping? then 1 else 0
  }

  /** Each tick comes at or after the deadline set by the one before. */
  ghost predicate OnTime(m: Machine, times: seq<nat>) {
    forall i: nat {:trigger DueAt(m, times, i)} :: DueAt(m, times, i)
  }

  ghost predicate DueAt(m: Machine, times: seq<nat>, i: nat) {
    i < |times| ==> Ticks(m, times[..i]).pulse.NextDeadline() <= times[i]
  }

  /** While it stays open through a silence, each tick has sent one ping and used
      up at least one interval of the timeout. */
  lemma {:induction false} SilenceUsesIntervals(m: Machine, times: seq<nat>)
    requires m.phase.Open? && m.pulse.interval > 0 && m.pulse.Ok() && OnTime(m, times)
    requires Ticks(m, times).phase.Open?
    ensures var m' := Ticks(m, times);
            && m'.pulse.interval == m.pulse.interval && m'.pulse.timeout == m.pulse.timeout
            && m'.pulse.lastRx == m.pulse.lastRx
            && m'.pulse.PokeAt() >= m.pulse.lastRx + (|times| + 1) * m.pulse.interval
            && (times != [] ==> m'.pulse.PokeAt() - m.pulse.interval < m.pulse.lastRx + m.pulse.timeout)
            && Pings(m'.effects) == Pings(m.effects) + |times| && m'.pulse.Ok()
  {
    if times != [] {
      var front, last := times[..|times| - 1], times[|times| - 1];
      OnTimeFront(m, times);
      SilenceUsesIntervals(m, front);
      TickAdvances(Ticks(m, front), last);
      assert Ticks(m, times).effects[..|Ticks(m, front).effects|] == Ticks(m, front).effects;
      assert (|times| + 1) * m.pulse.interval == |times| * m.pulse.interval + m.pulse.interval;
    }
  }

  /** In numbers: at most ceil(timeout / interval) - 1 pings. */
  lemma PingBound(k: nat, interval: nat, timeout: nat)
    requires interval > 0 && k * interval < timeout
    ensures k <= (timeout + interval - 1) / interval - 1
  {
  }

  /** ceil(timeout / interval) - 1 */
  function MostPings(p: Pulse): int
    requires p.interval > 0
  {
    (p.timeout + p.interval - 1) / p.interval - 1
  }

  lemma PingsAdd(effects: seq<Effect>, e: Effect)
    ensures Pings(effects + [e]) == Pings(effects) + if e.Send? && e.message.Ping? then 1 else 0
  {
  }

  lemma CloseQueuesNoPing(m: Machine)
    requires m.phase.Open?
    ensures Pings(m.Close(Local).effects) == Pings(m.effects)
  {
    var one := m.effects + [Send(CloseConnection)];
    var two := one + [CloseSocket];
    PingsAdd(m.effects, Send(CloseConnection));
    PingsAdd(one, CloseSocket);
    PingsAdd(two, Unregister);
    assert m.Close(Local).effects == two + [Unregister];
  }

  lemma {:induction false} OnTimeFront(m: Machine, times: seq<nat>)
    requires OnTime(m, times) && times != []
    ensures OnTime(m, times[..|times| - 1])
    ensures Ticks(m, times[..|times| - 1]).pulse.NextDeadline() <= times[|times| - 1]
  {
    var front := times[..|times| - 1];
    forall i: nat ensures DueAt(m, front, i) {
      assert DueAt(m, times, i);
      assert i < |front| ==> front[..i] == times[..i];
    }
    assert DueAt(m, times, |front|);
  }

  /** A peer ticked at or after each deadline and hearing nothing, whether or not it
      has been pinged before, sends at most ceil(timeout / interval) - 1 pings more,
      and is open exactly until the first tick at or past the timeout. */
  lemma {:induction false} SilentPeerBound(m: Machine, times: seq<nat>)
    requires m.phase.Open? && m.pulse.interval > 0 && m.pulse.timeout > 0 && m.pulse.Ok() && OnTime(m, times)
    ensures Pings(Ticks(m, times).effects) <= Pings(m.effects) + MostPings(m.pulse)
    ensures Ticks(m, times).phase.Open? <==> forall i :: 0 <= i < |times| ==>
              times[i] < m.pulse.lastRx + m.pulse.timeout
    ensures !Ticks(m, times).phase.Open? ==> Ticks(m, times).phase.Closing?
  {
    if times == [] {
      PingBound(0, m.pulse.interval, m.pulse.timeout);
    } else {
      var front, last := times[..|times| - 1], times[|times| - 1];
      OnTimeFront(m, times);
      SilentPeerBound(m, front);
      assert times == front + [last];
      if Ticks(m, front).phase.Open? {
        SilenceUsesIntervals(m, front);
        TickAdvances(Ticks(m, front), last);
        CloseQueuesNoPing(Ticks(m, front));
        if last < m.pulse.lastRx + m.pulse.timeout {
          OpenPeerBound(m, times);
        }
      }
    }
  }

  lemma OpenPeerBound(m: Machine, times: seq<nat>)
    requires m.phase.Open? && m.pulse.interval > 0 && m.pulse.timeout > 0 && m.pulse.Ok() && OnTime(m, times)
    requires Ticks(m, times).phase.Open?
    ensures Pings(Ticks(m, times).effects) <= Pings(m.effects) + MostPings(m.pulse)
  {
    SilenceUsesIntervals(m, times);
    PingBound(|times|, m.pulse.interval, m.pulse.timeout);
  }

  // --------------------------------------------------------------------- driver

  /** Only writing to the socket and notifying the manager can fail. */
  predicate Fallible(e: Effect) {
    e.Send? || e.NotifyPeerClosed?
  }

  datatype Log = Log(applied: seq<Effect>, failures: seq<Phase>, readIn: seq<Phase>)

  // Where a drain of the queue stops: `tries` counts fallible effects attempted so far.
  datatype Drained = Drained(m: Machine, log: Log, tries: nat, failed: bool)

  /** Applying queued effects in order until the queue is empty or one fails. */
  function DrainAll(m: Machine, ok: nat -> bool, log: Log, tries: nat): Drained
    decreases |m.effects|
  {
    if m.effects == [] then Drained(m, log, tries, false)
    else
      var e, rest := m.effects[0], m.(effects := m.effects[1..]);
      if Fallible(e) && !ok(tries) then Drained(rest, log.(failures := log.failures + [m.phase]), tries + 1, true)
      else DrainAll(rest, ok, log.(applied := log.applied + [e]), if Fallible(e) then tries + 1 else tries)
  }

  function Flushed(m: Machine): Machine {
    if m.phase.Closing? && m.effects == [] then m.(phase := Closed) else m
  }

  function PhaseRank(m: Machine): nat {
    match m.phase
    case Open => 2
    case Closing => 1
    case Closed => 0
  }

  lemma {:induction false} DrainKeeps(m: Machine, ok: nat -> bool, log: Log, tries: nat)
    requires m.Ok()
    ensures var d := DrainAll(m, ok, log, tries);
            && d.m.Ok() && d.m.phase == m.phase && d.log.readIn == log.readIn
            && (d.failed ==> !m.phase.Closed? && m.effects != [] && d.log.failures == log.failures + [m.phase])
            && (!d.failed ==> d.m.effects == [] && d.log == log.(applied := log.applied + m.effects))
            && (d.failed ==> log.applied <= d.log.applied < log.applied + m.effects)
    decreases |m.effects|
  {
    if m.effects != [] {
      var e, rest := m.effects[0], m.(effects := m.effects[1..]);
      if !Fallible(e) || ok(tries) {
        DrainKeeps(rest, ok, log.(applied := log.applied + [e]), if Fallible(e) then tries + 1 else tries);
        assert log.applied + [e] + rest.effects == log.applied + m.effects;
      }
    } else {
      assert log.applied + [] == log.applied;
    }
  }

  datatype Outcome = Outcome(m: Machine, log: Log, ended: bool)

  /** What a run of the driver comes to: drain, turn a failure into TransportDead,
      stop when done, otherwise take the next external event. */
  function Drive(m: Machine, events: seq<(Event, nat)>, ok: nat -> bool, log: Log, tries: nat): Outcome
    requires m.Ok()
    decreases |events|, PhaseRank(m)
  {
    DrainKeeps(m, ok, log, tries);
    var d := DrainAll(m, ok, log, tries);
    if d.failed then
      StepOk(d.m, TransportDead, 0);
      Drive(d.m.Step(TransportDead, 0), events, ok, d.log, d.tries)
    else
      var f := Flushed(d.m);
      if f.phase.Closed? then Outcome(f, d.log, true)
      else if events == [] then Outcome(f, d.log, false)
      else
        StepOk(f, events[0].0, events[0].1);
        Drive(f.Step(events[0].0, events[0].1), events[1..], ok, d.log.(readIn := d.log.readIn + [f.phase]), d.tries)
  }

  /** Where a run stands whenever the queue is about to be drained. */
  ghost predicate Standing(m: Machine, log: Log) {
    && m.Ok() && (m.phase.Closing? ==> m.effects != [])
    && (forall p :: p in log.readIn ==> p.Open?)
    && Unregister !in log.applied
    && (m.phase.Closed? <==> Closing in log.failures)
  }

  lemma FailureStands(m: Machine, ok: nat -> bool, log: Log, tries: nat)
    requires Standing(m, log) && DrainAll(m, ok, log, tries).failed
    ensures var d := DrainAll(m, ok, log, tries); Standing(d.m.Step(TransportDead, 0), d.log)
  {
    DrainKeeps(m, ok, log, tries);
    var d := DrainAll(m, ok, log, tries);
    StepOk(d.m, TransportDead, 0);
    var all, some := log.applied + m.effects, d.log.applied;
    forall i | 0 <= i < |some| ensures some[i] != Unregister {
      assert some[i] == all[i];
      if i < |log.applied| {
        assert log.applied[i] in log.applied;
      } else {
        assert m.effects[i - |log.applied|] in m.effects[..|m.effects| - 1];
      }
    }
  }

  /** How a run ends that had read `read` events before and had `more` to read. */
  ghost predicate EndsWell(o: Outcome, read: nat, more: nat) {
    && (forall p :: p in o.log.readIn ==> p.Open?)
    && |o.log.readIn| <= read + more
    && (o.ended ==> o.m.phase.Closed? && o.m.effects == [])
    && (!o.ended ==> o.m.phase.Open? && o.m.effects == [] && |o.log.readIn| == read + more)
    && (Unregister in o.log.applied <==> o.ended && Closing !in o.log.failures)
    && (Unregister in o.log.applied ==>
          && o.log.applied[|o.log.applied| - 1] == Unregister
          && Unregister !in o.log.applied[..|o.log.applied| - 1])
  }

  /** A drain that leaves the machine open leaves it standing for the next event. */
  lemma EventStands(m: Machine, ok: nat -> bool, log: Log, tries: nat, e: Event, now: nat)
    requires Standing(m, log) && m.phase.Open? && !DrainAll(m, ok, log, tries).failed
    ensures var d := DrainAll(m, ok, log, tries);
            && Flushed(d.m) == d.m && d.m.phase.Open? && d.m.Ok() && d.log.readIn == log.readIn
            && Standing(d.m.Step(e, now), d.log.(readIn := d.log.readIn + [d.m.phase]))
            && PhaseRank(d.m.Step(e, now)) <= PhaseRank(m)
  {
    DrainKeeps(m, ok, log, tries);
    StepOk(DrainAll(m, ok, log, tries).m, e, now);
  }

  /** A drain that empties the queue of a machine that has left Open, or of one to
      which no more events come, is the end. */
  lemma DrainEnds(m: Machine, ok: nat -> bool, log: Log, tries: nat, more: nat)
    requires Standing(m, log) && !DrainAll(m, ok, log, tries).failed && (m.phase.Open? ==> more == 0)
    ensures var d := DrainAll(m, ok, log, tries);
            var f := Flushed(d.m);
            (f.phase.Closed? <==> !m.phase.Open?) && EndsWell(Outcome(f, d.log, f.phase.Closed?), |log.readIn|, more)
  {
    DrainKeeps(m, ok, log, tries);
    var d := DrainAll(m, ok, log, tries);
    if m.phase.Closing? {
      assert d.log.applied[..|d.log.applied| - 1] == log.applied + m.effects[..|m.effects| - 1];
    }
  }

  /** The driver reads external events only while the machine is open, ends as soon
      as it has left Open and drained, and applies Unregister at most once, last,
      and exactly when no effect failed after the machine left Open. */
  lemma {:induction false} DriverEndsCleanly(m: Machine, events: seq<(Event, nat)>, ok: nat -> bool, log: Log,
      tries: nat)
    requires Standing(m, log)
    ensures EndsWell(Drive(m, events, ok, log, tries), |log.readIn|, |events|)
    decreases |events|, PhaseRank(m)
  {
    DrainKeeps(m, ok, log, tries);
    var d := DrainAll(m, ok, log, tries);
    if d.failed {
      FailureStands(m, ok, log, tries);
      DriverEndsCleanly(d.m.Step(TransportDead, 0), events, ok, d.log, d.tries);
    } else if m.phase.Open? && events != [] {
      EventStands(m, ok, log, tries, events[0].0, events[0].1);
      DriverEndsCleanly(d.m.Step(events[0].0, events[0].1), events[1..], ok,
                        d.log.(readIn := d.log.readIn + [d.m.phase]), d.tries);
    } else {
      DrainEnds(m, ok, log, tries, |events|);
    }
  }

  /** One turn of the driver: what a drain leaves to do. */
  lemma DriveTurns(m: Machine, events: seq<(Event, nat)>, ok: nat -> bool, log: Log, tries: nat)
    requires m.Ok()
    ensures var d := DrainAll(m, ok, log, tries);
            var f := Flushed(d.m);
            if d.failed then
              var next := d.m.Step(TransportDead, 0);
              && !d.m.phase.Closed? && next.Ok() && PhaseRank(next) < PhaseRank(m)
              && Drive(m, events, ok, log, tries) == Drive(next, events, ok, d.log, d.tries)
            else if f.phase.Closed? then Drive(m, events, ok, log, tries) == Outcome(f, d.log, true)
            else if events == [] then Drive(m, events, ok, log, tries) == Outcome(f, d.log, false)
            else
              var next := f.Step(events[0].0, events[0].1);
              && next.Ok()
              && Drive(m, events, ok, log, tries) ==
                 Drive(next, events[1..], ok, d.log.(readIn := d.log.readIn + [f.phase]), d.tries)
  {
    DrainKeeps(m, ok, log, tries);
    var d := DrainAll(m, ok, log, tries);
    if d.failed {
      StepOk(d.m, TransportDead, 0);
    } else if !Flushed(d.m).phase.Closed? && events != [] {
      StepOk(Flushed(d.m), events[0].0, events[0].1);
    }
  }

  /** The driver loop itself. `ok(n)` says whether the n-th fallible effect succeeds;
      it returns when the machine is done or when no further event comes. */
  method RunWsPeer(fsm: WsPeer, events: seq<(Event, nat)>, ok: nat -> bool) returns (log: Log, ended: bool)
    requires fsm.View().Ok()
    modifies fsm, fsm.hb
    ensures Outcome(fsm.View(), log, ended) == Drive(old(fsm.View()), events, ok, Log([], [], []), 0)
  {
    log := Log([], [], []);
    ended := false;
    var followUp: Option<Event> := None;
    var consumed := 0;
    var tries := 0;
    while true
      invariant followUp.None? && consumed <= |events| && fsm.View().Ok()
      invariant Drive(fsm.View(), events[consumed..], ok, log, tries) ==
                Drive(old(fsm.View()), events, ok, Log([], [], []), 0)
      decreases |events| - consumed, PhaseRank(fsm.View())
    {
      DriveTurns(fsm.View(), events[consumed..], ok, log, tries);
      var failed;
      log, tries, failed := Drain(fsm, ok, log, tries);
      if failed {
        followUp := Some(TransportDead);
      } else {
        fsm.EffectsFlushed();
      }
      var done := fsm.IsDone();
      if done {
        ended := true;
        return;
      }
      match followUp {
        case Some(e) =>
          fsm.Step(e, 0);
          followUp := None;
        case None =>
          if consumed == |events| {
            return;
          }
          log := log.(readIn := log.readIn + [fsm.phase]);
          assert events[consumed..][0] == events[consumed] && events[consumed..][1..] == events[consumed + 1..];
          fsm.Step(events[consumed].0, events[consumed].1);
          consumed := consumed + 1;
      }
    }
  }

  /** Applies queued effects until the queue is empty or one fails. */
  method Drain(fsm: WsPeer, ok: nat -> bool, log0: Log, tries0: nat) returns (log: Log, tries: nat, failed: bool)
    modifies fsm`effects
    ensures Drained(fsm.View(), log, tries, failed) == DrainAll(old(fsm.View()), ok, log0, tries0)
  {
    log, tries, failed := log0, tries0, false;
    while fsm.effects != []
      invariant !failed && DrainAll(fsm.View(), ok, log, tries) == DrainAll(old(fsm.View()), ok, log0, tries0)
      decreases |fsm.effects|
    {
      var e := fsm.PollEffect();
      if Fallible(e.value) {
        tries := tries + 1;
        if !ok(tries - 1) {
          failed := true;
          log := log.(failures := log.failures + [fsm.phase]);
          return;
        }
      }
      log := log.(applied := log.applied + [e.value]);
    }
  }

  /** How many of these effects can fail. */
  function Fallibles(effects: seq<Effect>): nat {
    if effects == [] then 0 else (if Fallible(effects[0]) then 1 else 0) + Fallibles(effects[1..])
  }

  /** A drain fails exactly if one of the fallible effects it would attempt fails. */
  lemma {:induction false} DrainFails(m: Machine, ok: nat -> bool, log: Log, tries: nat)
    ensures DrainAll(m, ok, log, tries).failed <==> exists i :: tries <= i < tries + Fallibles(m.effects) && !ok(i)
    decreases |m.effects|
  {
    if m.effects != [] {
      var e, rest := m.effects[0], m.(effects := m.effects[1..]);
      if !Fallible(e) || ok(tries) {
        DrainFails(rest, ok, log.(applied := log.applied + [e]), if Fallible(e) then tries + 1 else tries);
      }
    }
  }

  /** A machine that has left Open is unregistered if and only if every write and
      notification still queued will succeed; either way the driver ends. */
  lemma UnregistersIff(m: Machine, events: seq<(Event, nat)>, ok: nat -> bool, log: Log, tries: nat)
    requires Standing(m, log) && m.phase.Closing?
    ensures var o := Drive(m, events, ok, log, tries);
            && o.ended
            && (Unregister in o.log.applied <==> forall i :: tries <= i < tries + Fallibles(m.effects) ==> ok(i))
  {
    DriverEndsCleanly(m, events, ok, log, tries);
    DrainFails(m, ok, log, tries);
    DrainKeeps(m, ok, log, tries);
    var d := DrainAll(m, ok, log, tries);
    if d.failed {
      FailureStands(m, ok, log, tries);
      var dead := d.m.Step(TransportDead, 0);
      DriverEndsCleanly(dead, events, ok, d.log, d.tries);
      assert Drive(dead, events, ok, d.log, d.tries).log == d.log;
    }
  }

  /** Whatever makes an idle open machine leave Open, it is unregistered if and only
      if the farewell that this queues can be written and the manager notified. */
  lemma LeavingUnregistersIff(m: Machine, e: Event, now: nat, events: seq<(Event, nat)>, ok: nat -> bool, tries: nat)
    requires m.phase.Open? && m.effects == [] && m.Step(e, now).phase.Closing?
    ensures var m' := m.Step(e, now);
            m'.Ok() &&
            (Unregister in Drive(m', events, ok, Log([], [], []), tries).log.applied <==>
               forall i :: tries <= i < tries + Fallibles(m'.effects) ==> ok(i))
  {
    StepOk(m, e, now);
    UnregistersIff(m.Step(e, now), events, ok, Log([], [], []), tries);
  }

  /** Queued is not applied: when the close frame of a local shutdown cannot be
      written, the driver ends without unregistering the peer. */
  lemma UnregisterCanBeLost(m: Machine, now: nat, events: seq<(Event, nat)>, ok: nat -> bool, tries: nat)
    requires m.phase.Open? && m.effects == [] && !ok(tries)
    ensures m.Step(Stop, now).Ok()
    ensures var o := Drive(m.Step(Stop, now), events, ok, Log([], [], []), tries);
            o.ended && o.m.phase.Closed? && o.m.effects == [] && Unregister !in o.log.applied
  {
    var m' := m.Step(Stop, now);
    StepOk(m, Stop, now);
    assert m'.effects == [Send(CloseConnection), CloseSocket, Unregister];
    assert Fallible(m'.effects[0]) && Fallibles(m'.effects) >= 1;
    UnregistersIff(m', events, ok, Log([], [], []), tries);
    DriverEndsCleanly(m', events, ok, Log([], [], []), tries);
  }
}
