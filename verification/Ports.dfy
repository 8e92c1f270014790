/** Bringing up the ports of the root hub (kernel/usb/xhci/xhci.cpp): one port at a time between reset and address. */
module Ports {
  import opened Common

  datatype Phase = NotConnected | WaitingAddressed | ResettingPort | EnablingSlot | AddressingDevice
                 | InitializingDevice | ConfiguringEndpoints | Configured

  /** The order of the phases. */
  function Rank(p: Phase): (r: nat)
    ensures r <= 7
  {
    match p
    case NotConnected => 0
    case WaitingAddressed => 1
    case ResettingPort => 2
    case EnablingSlot => 3
    case AddressingDevice => 4
    case InitializingDevice => 5
    case ConfiguringEndpoints => 6
    case Configured => 7
  }

  predicate InAddressing(p: Phase) {
    p == ResettingPort || p == EnablingSlot || p == AddressingDevice
  }

  /** What the driver does to the hardware. */
  datatype Action = Reset(port: nat) | EnableSlotCommand(port: nat)
                  | AddressDeviceCommand(port: nat) | Addressed(port: nat)
                  | StartInitialize(port: nat) | ConfigureEndpointCommand(port: nat) | EndpointsConfigured(port: nat)

  const NUM_PORTS: nat := 256

  datatype Ports = Ports(phases: seq<Phase>, addressing: nat, history: seq<Action>)

  datatype Outcome = Outcome(ports: Ports, error: Error)

  /** Events, with what the driver finds in the hardware's registers and contexts when it handles them. */
  datatype Event =
    | ConfigurePort(port: nat, connected: bool)
    | PortStatusChange(port: nat, connected: bool, enabled: bool, resetChanged: bool)
    | Transfer(slotFound: bool, received: bool, port: nat, initialized: bool, speedKnown: bool)
    | EnableSlotDone(slotFound: bool)
    | AddressDeviceDone(slotFound: bool, port: nat, connections: seq<bool>)
    | ConfigureEndpointDone(slotFound: bool, port: nat)
    | OtherCommandDone

  /** Ports have numbers from 1 on. */
  predicate Legal(e: Event) {
    match e
    case ConfigurePort(p, _) => 0 < p < NUM_PORTS
    case PortStatusChange(p, _, _, _) => 0 < p < NUM_PORTS
    case Transfer(_, _, p, _, _) => p < NUM_PORTS
    case AddressDeviceDone(_, p, connected) => p < NUM_PORTS && |connected| == NUM_PORTS
    case ConfigureEndpointDone(_, p) => p < NUM_PORTS
    case _ => true
  }

  predicate Shaped(s: Ports) {
    |s.phases| == NUM_PORTS && s.addressing < NUM_PORTS
  }

  // ----- what the handlers do

  function WithPhase(s: Ports, port: nat, phase: Phase): Ports
    requires Shaped(s) && port < NUM_PORTS
  {
    s.(phases := s.phases[port := phase])
  }

  function Did(s: Ports, action: Action): Ports {
    s.(history := s.history + [action])
  }

  function Resetting(s: Ports, port: nat, connected: bool): (r: Outcome)
    requires Shaped(s) && port < NUM_PORTS
    ensures Shaped(r.ports)
  {
    if !connected then Outcome(s, Success)
    else if s.addressing != 0 then Outcome(WithPhase(s, port, WaitingAddressed), Success)
    else if s.phases[port] != NotConnected && s.phases[port] != WaitingAddressed then Outcome(s, InvalidPhase)
    else Outcome(Did(WithPhase(s, port, ResettingPort).(addressing := port), Reset(port)), Success)
  }

  /** The first port that waits. */
  function FirstWaiting(phases: seq<Phase>, i: nat): (r: Option<nat>)
    decreases |phases| - i
  {
    if i >= |phases| then None else if phases[i] == WaitingAddressed then Some(i) else FirstWaiting(phases, i + 1)
  }

  lemma {:induction false} FirstWaitingIs(phases: seq<Phase>, i: nat)
    ensures var r := FirstWaiting(phases, i);
            && (r.Some? ==> i <= r.value < |phases| && phases[r.value] == WaitingAddressed
                            && forall k :: i <= k < r.value ==> phases[k] != WaitingAddressed)
            && (r.None? ==> forall k :: i <= k < |phases| ==> phases[k] != WaitingAddressed)
    decreases |phases| - i
  {
    if i < |phases| && phases[i] != WaitingAddressed {
      FirstWaitingIs(phases, i + 1);
    }
  }

  /** The next port's turn, if it is still connected. */
  function NextPort(s: Ports, connected: seq<bool>): (r: Outcome)
    requires Shaped(s) && |connected| == NUM_PORTS
    ensures Shaped(r.ports)
  {
    FirstWaitingIs(s.phases, 0);
    match FirstWaiting(s.phases, 0)
    case Some(i) => Resetting(s, i, connected[i])
    case None => Outcome(s, Success)
  }

  function Apply(s: Ports, e: Event): (r: Outcome)
    requires Shaped(s) && Legal(e)
    ensures Shaped(r.ports)
  {
    match e
    case ConfigurePort(p, connected) =>
      if s.phases[p] == NotConnected then Resetting(s, p, connected) else Outcome(s, Success)
    case PortStatusChange(p, connected, enabled, resetChanged) =>
      if s.phases[p] == NotConnected then Resetting(s, p, connected)
      else if s.phases[p] != ResettingPort then Outcome(s, InvalidPhase)
      else if enabled && resetChanged then Outcome(Did(WithPhase(s, p, EnablingSlot), EnableSlotCommand(p)), Success)
      else Outcome(s, Success)
    case Transfer(slotFound, received, p, initialized, speedKnown) =>
      if !slotFound then Outcome(s, InvalidSlotID)
      else if !received then Outcome(s, TransferFailed)
      else if !initialized || s.phases[p] != InitializingDevice then Outcome(s, Success)
      else if !speedKnown then Outcome(s, UnknownXHCISpeedID)
      else Outcome(Did(WithPhase(s, p, ConfiguringEndpoints), ConfigureEndpointCommand(p)), Success)
    case EnableSlotDone(slotFound) =>
      if s.phases[s.addressing] != EnablingSlot then Outcome(s, InvalidPhase)
      else if !slotFound then Outcome(s, InvalidSlotID)
      else Outcome(Did(WithPhase(s, s.addressing, AddressingDevice), AddressDeviceCommand(s.addressing)), Success)
    case AddressDeviceDone(slotFound, p, connected) =>
      if !slotFound then Outcome(s, InvalidSlotID)
      else if p != s.addressing || s.phases[p] != AddressingDevice then Outcome(s, InvalidPhase)
      else
        var next := NextPort(Did(s.(addressing := 0), Addressed(p)), connected);
        if next.error != Success then next
        else Outcome(Did(WithPhase(next.ports, p, InitializingDevice), StartInitialize(p)), Success)
    case ConfigureEndpointDone(slotFound, p) =>
      if !slotFound then Outcome(s, InvalidSlotID)
      else if s.phases[p] != ConfiguringEndpoints then Outcome(s, InvalidPhase)
      else Outcome(Did(WithPhase(s, p, Configured), EndpointsConfigured(p)), Success)
    case OtherCommandDone => Outcome(s, InvalidPhase)
  }

  // ----- mutual exclusion

  /** Which port is between its reset and its address, as the history of actions tells; None if two overlapped. */
  function Open(history: seq<Action>): Option<nat> {
    if history == [] then Some(0)
    else
      var before, last := Open(history[..|history| - 1]), history[|history| - 1];
      match last
      case Reset(p) => if before == Some(0) then Some(p) else None
      case Addressed(p) => if before == Some(p) && p != 0 then Some(0) else None
      case _ => before
  }

  lemma OpenAppend(history: seq<Action>, action: Action)
    ensures Open(history + [action]) ==
            match action
            case Reset(p) => if Open(history) == Some(0) then Some(p) else None
            case Addressed(p) => if Open(history) == Some(p) && p != 0 then Some(0) else None
            case _ => Open(history)
  {
    assert (history + [action])[..|history|] == history;
  }

  /** The actions that concern a port. */
  function OfPort(history: seq<Action>, port: nat): seq<Action> {
    if history == [] then []
    else
      var last := history[|history| - 1];
      OfPort(history[..|history| - 1], port) + if last.port == port then [last] else []
  }

  lemma OfPortAppend(history: seq<Action>, action: Action, port: nat)
    ensures OfPort(history + [action], port) == OfPort(history, port) + if action.port == port then [action] else []
  {
    assert (history + [action])[..|history|] == history;
  }

  /** How a port is brought up (section 4.3 of the xHCI specification), as far as its phase says. */
  function Script(phase: Phase, port: nat): seq<Action> {
    var all := [Reset(port), EnableSlotCommand(port), AddressDeviceCommand(port), Addressed(port),
                StartInitialize(port), ConfigureEndpointCommand(port), EndpointsConfigured(port)];
    match phase
    case NotConnected => []
    case WaitingAddressed => []
    case ResettingPort => all[..1]
    case EnablingSlot => all[..2]
    case AddressingDevice => all[..3]
    case InitializingDevice => all[..5]
    case ConfiguringEndpoints => all[..6]
    case Configured => all
  }

  predicate Exclusive(s: Ports)
    requires Shaped(s)
  {
    forall p :: 0 <= p < NUM_PORTS ==> (InAddressing(s.phases[p]) <==> p == s.addressing != 0)
  }

  predicate Recorded(s: Ports)
    requires Shaped(s)
  {
    && Open(s.history) == Some(s.addressing)
    && forall p :: 0 <= p < NUM_PORTS ==> OfPort(s.history, p) == Script(s.phases[p], p)
  }

  predicate Inv(s: Ports) {
    Shaped(s) && s.phases[0] == NotConnected && Exclusive(s) && Recorded(s)
  }

  predicate Forward(s: Ports, s': Ports)
    requires Shaped(s) && Shaped(s')
  {
    forall p :: 0 <= p < NUM_PORTS ==> Rank(s.phases[p]) <= Rank(s'.phases[p])
  }

  lemma ResetKeeps(s: Ports, port: nat, connected: bool)
    requires Inv(s) && 0 < port < NUM_PORTS && (s.phases[port] == NotConnected || s.phases[port] == WaitingAddressed)
    ensures var r := Resetting(s, port, connected); Inv(r.ports) && Forward(s, r.ports) && r.error == Success
  {
    hide Script, OfPort, Open;
    ScriptBegins(port);
    OpenAppend(s.history, Reset(port));
    forall p: nat { OfPortAppend(s.history, Reset(port), p); }
  }

  lemma ScriptBegins(port: nat)
    ensures Script(NotConnected, port) == Script(WaitingAddressed, port) == []
    ensures Script(ResettingPort, port) == [Reset(port)]
  {
  }

  lemma ActionKeeps(s: Ports, port: nat, phase: Phase, action: Action)
    requires Inv(s) && 0 < port < NUM_PORTS && Rank(phase) == Rank(s.phases[port]) + 1
    requires InAddressing(phase) <==> InAddressing(s.phases[port])
    requires action.port == port && !action.Reset? && !action.Addressed?
    requires Script(phase, port) == Script(s.phases[port], port) + [action]
    ensures Inv(Did(WithPhase(s, port, phase), action)) && Forward(s, Did(WithPhase(s, port, phase), action))
  {
    hide Script;
    OpenAppend(s.history, action);
    forall p: nat { OfPortAppend(s.history, action, p); }
  }

  /** The address is assigned, and the next port may be reset: p is out, and at most one other port is in. */
  lemma AddressedKeeps(s: Ports, p: nat, connections: seq<bool>)
    requires Inv(s) && p == s.addressing != 0 && s.phases[p] == AddressingDevice && |connections| == NUM_PORTS
    ensures var next := NextPort(Did(s.(addressing := 0), Addressed(p)), connections);
            && next.error == Success
            && var s' := Did(WithPhase(next.ports, p, InitializingDevice), StartInitialize(p));
               Inv(s') && Forward(s, s')
  {
    hide NextPort, Script, OfPort, Open;
    var s1 := Did(s.(addressing := 0), Addressed(p));
    FirstWaitingIs(s.phases, 0);
    var first := FirstWaiting(s.phases, 0);
    NextIs(s1, connections);
    var next := if first.Some? && connections[first.value] then first.value else 0;
    AddressedHistory(s, p, next);
    assert s.history + [Addressed(p)] + [] == s.history + [Addressed(p)];
    assert first.Some? ==> first.value != 0 && first.value != p;
  }

  /** What the history says then. */
  lemma AddressedHistory(s: Ports, p: nat, next: nat)
    requires Inv(s) && p == s.addressing != 0 && s.phases[p] == AddressingDevice && next < NUM_PORTS && next != p
    requires next != 0 ==> s.phases[next] == WaitingAddressed
    ensures var h := (s.history + [Addressed(p)] + if next == 0 then [] else [Reset(next)]) + [StartInitialize(p)];
            && Open(h) == Some(next)
            && forall q :: 0 <= q < NUM_PORTS ==>
                 OfPort(h, q) == Script(if q == p then InitializingDevice
                                        else if q == next != 0 then ResettingPort else s.phases[q], q)
  {
    var h1 := s.history + [Addressed(p)];
    var h2 := h1 + if next == 0 then [] else [Reset(next)];
    OpenAppend(s.history, Addressed(p));
    if next == 0 {
      assert h2 == h1;
    } else {
      OpenAppend(h1, Reset(next));
    }
    OpenAppend(h2, StartInitialize(p));
    forall q | 0 <= q < NUM_PORTS
      ensures OfPort(h2 + [StartInitialize(p)], q)
              == Script(if q == p then InitializingDevice else if q == next != 0 then ResettingPort else s.phases[q], q)
    {
      OfPortAppend(s.history, Addressed(p), q);
      if next != 0 {
        OfPortAppend(h1, Reset(next), q);
      }
      OfPortAppend(h2, StartInitialize(p), q);
      assert OfPort(s.history, q) == Script(s.phases[q], q);
    }
  }

  lemma NextIs(s: Ports, connections: seq<bool>)
    requires Shaped(s) && |connections| == NUM_PORTS
    ensures var first := FirstWaiting(s.phases, 0);
            && (first.Some? ==> first.value < NUM_PORTS
                                && NextPort(s, connections) == Resetting(s, first.value, connections[first.value]))
            && (first.None? ==> NextPort(s, connections) == Outcome(s, Success))
  {
    FirstWaitingIs(s.phases, 0);
  }

  /** Every event keeps the invariant, and no phase goes back. */
  lemma EventKeeps(s: Ports, e: Event)
    requires Inv(s) && Legal(e)
    ensures var r := Apply(s, e); Inv(r.ports) && Forward(s, r.ports)
  {
    hide Recorded, Forward, NextPort;
    ForwardNothing(s);
    match e
    case ConfigurePort(p, connected) =>
      if s.phases[p] == NotConnected {
        ResetKeeps(s, p, connected);
      }
    case PortStatusChange(p, connected, _, _) =>
      if s.phases[p] == NotConnected {
        ResetKeeps(s, p, connected);
      } else if s.phases[p] == ResettingPort {
        ActionKeeps(s, p, EnablingSlot, EnableSlotCommand(p));
      }
    case Transfer(_, _, p, _, _) =>
      if s.phases[p] == InitializingDevice {
        ActionKeeps(s, p, ConfiguringEndpoints, ConfigureEndpointCommand(p));
      }
    case EnableSlotDone(_) =>
      if s.phases[s.addressing] == EnablingSlot {
        ActionKeeps(s, s.addressing, AddressingDevice, AddressDeviceCommand(s.addressing));
      }
    case AddressDeviceDone(_, p, connections) =>
      if p == s.addressing && s.phases[p] == AddressingDevice {
        AddressedKeeps(s, p, connections);
      }
    case ConfigureEndpointDone(_, p) =>
      if s.phases[p] == ConfiguringEndpoints {
        ActionKeeps(s, p, Configured, EndpointsConfigured(p));
      }
    case OtherCommandDone =>
  }

  // ----- runs

  function Run(s: Ports, events: seq<Event>): (r: Ports)
    requires Shaped(s) && forall i :: 0 <= i < |events| ==> Legal(events[i])
    ensures Shaped(r)
    decreases |events|
  {
    if events == [] then s else Run(Apply(s, events[0]).ports, events[1..])
  }

  function Initial(): Ports {
    Ports(AllNotConnected(NUM_PORTS), 0, [])
  }

  function AllNotConnected(n: nat): (r: seq<Phase>)
    ensures |r| == n && forall i :: 0 <= i < n ==> r[i] == NotConnected
  {
    if n == 0 then [] else AllNotConnected(n - 1) + [NotConnected]
  }

  lemma {:induction false} RunKeeps(s: Ports, events: seq<Event>)
    requires Inv(s) && forall i :: 0 <= i < |events| ==> Legal(events[i])
    ensures Inv(Run(s, events)) && Forward(s, Run(s, events))
    decreases |events|
  {
    hide Recorded, Exclusive, Apply, Forward;
    if events != [] {
      EventKeeps(s, events[0]);
      var s1 := Apply(s, events[0]).ports;
      RunKeeps(s1, events[1..]);
      ForwardTwice(s, s1, Run(s, events));
    } else {
      ForwardNothing(s);
    }
  }

  lemma ForwardTwice(s: Ports, s1: Ports, s2: Ports)
    requires Shaped(s) && Shaped(s1) && Shaped(s2) && Forward(s, s1) && Forward(s1, s2)
    ensures Forward(s, s2)
  {
  }

  lemma ForwardNothing(s: Ports)
    requires Shaped(s)
    ensures Forward(s, s)
  {
  }

  /**
   * Over any run: at most one port is between its reset and its address, and it is addressing_port; resets and address
   * assignments alternate; and every port is brought up in the order of the script, no step missing or done twice.
   */
  lemma OneAtATime(events: seq<Event>)
    requires forall i :: 0 <= i < |events| ==> Legal(events[i])
    ensures var s := Run(Initial(), events);
            && (forall p, q :: 0 <= p < q < NUM_PORTS ==> !InAddressing(s.phases[p]) || !InAddressing(s.phases[q]))
            && Exclusive(s) && Open(s.history) == Some(s.addressing)
            && forall p :: 0 <= p < NUM_PORTS ==> OfPort(s.history, p) == Script(s.phases[p], p)
  {
    RunKeeps(Initial(), events);
  }

  // ----- every port goes on

  /** e is the success that a port waits for after `rank` steps of being brought up. */
  predicate Completes(e: Event, rank: nat, port: nat) {
    match rank
    case 2 => e.PortStatusChange? && e.port == port && e.enabled && e.resetChanged
    case 3 => e.EnableSlotDone? && e.slotFound
    case 4 => e.AddressDeviceDone? && e.slotFound && e.port == port
    case 5 => e.Transfer? && e.slotFound && e.received && e.port == port && e.initialized && e.speedKnown
    case 6 => e.ConfigureEndpointDone? && e.slotFound && e.port == port
    case _ => false
  }

  /** e reports that something has been connected to the port. */
  predicate Connects(e: Event, port: nat) {
    (e.ConfigurePort? || e.PortStatusChange?) && e.port == port && e.connected
  }

  /** An address has been assigned, and the port is the first that waits, and still connected. */
  predicate HandsOver(s: Ports, e: Event, port: nat)
    requires Shaped(s) && Legal(e)
  {
    && s.phases[s.addressing] == AddressingDevice && Completes(e, 4, s.addressing)
    && FirstWaiting(s.phases, 0) == Some(port) && port < NUM_PORTS && e.connections[port]
  }

  /** The event seen from one port: which step it takes, if any. */
  function StepOf(s: Ports, e: Event, port: nat): nat
    requires Shaped(s) && Legal(e) && port < NUM_PORTS
  {
    var rank := Rank(s.phases[port]);
    if rank == 0 then (if !Connects(e, port) then 0 else if s.addressing == 0 then 2 else 1)
    else if rank == 1 then (if HandsOver(s, e, port) then 2 else 1)
    else if Completes(e, rank, port) then rank + 1 else rank
  }

  /** Every event moves exactly the ports that it concerns, and each of them by the one step that is its turn. */
  lemma EventMoves(s: Ports, e: Event, port: nat)
    requires Inv(s) && Legal(e) && 0 < port < NUM_PORTS
    ensures Rank(Apply(s, e).ports.phases[port]) == StepOf(s, e, port)
    ensures Completes(e, Rank(s.phases[port]), port) ==> Apply(s, e).error == Success
  {
    hide Recorded;
    if e.AddressDeviceDone? {
      FirstWaitingIs(s.phases, 0);
      NextIs(Did(s.(addressing := 0), Addressed(e.port)), e.connections);
    }
  }

  /** An event that is refused changes nothing. */
  lemma Refused(s: Ports, e: Event)
    requires Inv(s) && Legal(e) && Apply(s, e).error != Success
    ensures Apply(s, e).ports == s
  {
    hide Recorded;
    if e.AddressDeviceDone? && e.slotFound && e.port == s.addressing && s.phases[e.port] == AddressingDevice {
      AddressedKeeps(s, e.port, e.connections);
    }
  }

  /** Nothing is wrong with the event: the slot is known, the transfer has arrived, the port is in the right phase. */
  ghost predicate Accepted(s: Ports, e: Event)
    requires Shaped(s) && Legal(e)
  {
    match e
    case ConfigurePort(_, _) => true
    case PortStatusChange(p, _, _, _) => s.phases[p] == NotConnected || s.phases[p] == ResettingPort
    case Transfer(slotFound, received, p, initialized, speedKnown) =>
      slotFound && received && (s.phases[p] == InitializingDevice && initialized ==> speedKnown)
    case EnableSlotDone(slotFound) =>
      slotFound && exists p :: 0 < p < NUM_PORTS && s.phases[p] == EnablingSlot
    case AddressDeviceDone(slotFound, p, _) => slotFound && s.phases[p] == AddressingDevice
    case ConfigureEndpointDone(slotFound, p) => slotFound && s.phases[p] == ConfiguringEndpoints
    case OtherCommandDone => false
  }

  /** An event is refused exactly when something is wrong with it. */
  lemma RefusedIff(s: Ports, e: Event)
    requires Inv(s) && Legal(e)
    ensures Apply(s, e).error == Success <==> Accepted(s, e)
    ensures Apply(s, e).error == InvalidSlotID ==> !(e.ConfigurePort? || e.PortStatusChange? || e.OtherCommandDone?)
    ensures Apply(s, e).error == TransferFailed ==> e.Transfer? && !e.received
    ensures Apply(s, e).error == UnknownXHCISpeedID ==> e.Transfer? && !e.speedKnown
  {
    hide Recorded;
    if e.AddressDeviceDone? {
      FirstWaitingIs(s.phases, 0);
      NextIs(Did(s.(addressing := 0), Addressed(e.port)), e.connections);
    }
  }

  /** The events bring, in this order and among any others, all successes from step `rank` on. */
  predicate AllComplete(events: seq<Event>, rank: nat, port: nat)
    decreases |events|
  {
    || rank >= 7
    || (events != [] && AllComplete(events[1..], if Completes(events[0], rank, port) then rank + 1 else rank, port))
  }

  /**
   * A port that is being reset ends up configured, with every step of the script done, once its successes have come in
   * their order, whatever else happens in between.
   */
  lemma {:induction false} BroughtUp(s: Ports, events: seq<Event>, port: nat, rank: nat)
    requires Inv(s) && (forall i :: 0 <= i < |events| ==> Legal(events[i])) && 0 < port < NUM_PORTS
    requires 2 <= rank <= Rank(s.phases[port]) && AllComplete(events, rank, port)
    ensures Run(s, events).phases[port] == Configured
    ensures OfPort(Run(s, events).history, port) ==
              [Reset(port), EnableSlotCommand(port), AddressDeviceCommand(port), Addressed(port), StartInitialize(port),
               ConfigureEndpointCommand(port), EndpointsConfigured(port)]
    decreases |events|
  {
    hide Exclusive, Recorded, Apply, OfPort, Completes, HandsOver;
    if events == [] {
      assert rank >= 7;
      RecordedAt(s, port);
    } else {
      EventKeeps(s, events[0]);
      EventMoves(s, events[0], port);
      BroughtUp(Apply(s, events[0]).ports, events[1..], port, NextRank(events[0], rank, port));
    }
  }

  function NextRank(e: Event, rank: nat, port: nat): (r: nat)
    ensures rank >= 7 ==> r == rank
  {
    if Completes(e, rank, port) then rank + 1 else rank
  }

  lemma RecordedAt(s: Ports, port: nat)
    requires Inv(s) && port < NUM_PORTS
    ensures OfPort(s.history, port) == Script(s.phases[port], port)
  {
  }

  // ----- ports do not wait for nothing

  /** Some port waits while no port is being addressed. */
  predicate Starving(s: Ports)
    requires Shaped(s)
  {
    s.addressing == 0 && exists p :: 0 <= p < NUM_PORTS && s.phases[p] == WaitingAddressed
  }

  /** When an address is assigned, the ports that wait starve exactly if the first of them has been disconnected. */
  lemma StarvesIff(s: Ports, p: nat, connections: seq<bool>)
    requires Inv(s) && p == s.addressing != 0 && s.phases[p] == AddressingDevice && |connections| == NUM_PORTS
    ensures var first := FirstWaiting(s.phases, 0);
            Starving(Apply(s, AddressDeviceDone(true, p, connections)).ports)
            <==> first.Some? && first.value < |connections| && !connections[first.value]
  {
    hide Recorded;
    AddressedKeeps(s, p, connections);
    FirstWaitingIs(s.phases, 0);
    var s' := Apply(s, AddressDeviceDone(true, p, connections)).ports;
    var first := FirstWaiting(s.phases, 0);
    if first.Some? {
      assert first.value != p;
      assert !connections[first.value] ==> s'.phases[first.value] == WaitingAddressed;
    }
  }

  /** Waiting ports are still connected when their turn comes. */
  predicate StaysConnected(s: Ports, e: Event)
    requires Shaped(s) && Legal(e)
  {
    e.AddressDeviceDone? ==> forall p :: 0 <= p < NUM_PORTS && s.phases[p] == WaitingAddressed ==> e.connections[p]
  }

  predicate AllStayConnected(s: Ports, events: seq<Event>)
    requires Shaped(s) && forall i :: 0 <= i < |events| ==> Legal(events[i])
    decreases |events|
  {
    events == [] || (StaysConnected(s, events[0]) && AllStayConnected(Apply(s, events[0]).ports, events[1..]))
  }

  lemma NoStarvingStep(s: Ports, e: Event)
    requires Inv(s) && Legal(e) && StaysConnected(s, e) && !Starving(s)
    ensures !Starving(Apply(s, e).ports)
  {
    hide Recorded;
    if e.AddressDeviceDone? {
      FirstWaitingIs(s.phases, 0);
      if e.slotFound && e.port == s.addressing && s.phases[e.port] == AddressingDevice {
        StarvesIff(s, e.port, e.connections);
        assert e == AddressDeviceDone(true, e.port, e.connections);
      }
    }
  }

  /** If waiting ports stay connected, no port waits while addressing_port is 0. */
  lemma {:induction false} NoStarving(s: Ports, events: seq<Event>)
    requires Inv(s) && (forall i :: 0 <= i < |events| ==> Legal(events[i]))
    requires AllStayConnected(s, events) && !Starving(s)
    ensures !Starving(Run(s, events))
    decreases |events|
  {
    hide Recorded, Exclusive, Apply, Starving, StaysConnected;
    if events != [] {
      EventKeeps(s, events[0]);
      NoStarvingStep(s, events[0]);
      NoStarving(Apply(s, events[0]).ports, events[1..]);
    }
  }

  /** Whenever an address has been assigned, port f is found disconnected. */
  predicate KeepsAway(events: seq<Event>, f: nat)
    requires f < NUM_PORTS
  {
    forall i :: 0 <= i < |events| ==> Legal(events[i]) && (events[i].AddressDeviceDone? ==> !events[i].connections[f])
  }

  lemma StillWaits(s: Ports, e: Event, f: nat, p: nat)
    requires Shaped(s) && Legal(e) && f <= p < NUM_PORTS
    requires s.phases[f] == WaitingAddressed && s.phases[p] == WaitingAddressed && KeepsAway([e], f)
    ensures Apply(s, e).ports.phases[p] == WaitingAddressed
  {
    assert e.AddressDeviceDone? ==> !e.connections[f] by { assert [e][0] == e; }
    if e.AddressDeviceDone? {
      FirstWaitingIs(s.phases, 0);
    }
  }

  /**
   * Waiting for ever: over any run in which port f, which waits, stays disconnected, no port that waits behind it is
   * ever reset, whatever becomes of the ports before it.
   */
  lemma {:induction false} WaitsForEver(s: Ports, events: seq<Event>, f: nat)
    requires Shaped(s) && f < NUM_PORTS && s.phases[f] == WaitingAddressed
    requires KeepsAway(events, f)
    ensures forall p :: f <= p < NUM_PORTS && s.phases[p] == WaitingAddressed ==>
              Run(s, events).phases[p] == WaitingAddressed
    decreases |events|
  {
    hide Apply;
    if events != [] {
      forall p | f <= p < NUM_PORTS && s.phases[p] == WaitingAddressed
        ensures Apply(s, events[0]).ports.phases[p] == WaitingAddressed
      {
        StillWaits(s, events[0], f, p);
      }
      WaitsForEver(Apply(s, events[0]).ports, events[1..], f);
    }
  }

  /** Ports 2 and 3 wait while port 1 is brought up, and port 2 has gone when port 1 gets its address. */
  function WithPortGone(): (s: Ports)
    ensures Shaped(s)
  {
    var waiting := Run(Initial(), [ConfigurePort(1, true), ConfigurePort(2, true), ConfigurePort(3, true)]);
    var done := AddressDeviceDone(true, 1, AllTrue(NUM_PORTS)[2 := false]);
    Run(waiting, [PortStatusChange(1, true, true, true), EnableSlotDone(true), done])
  }

  lemma PortGone()
    ensures var s := WithPortGone(); Starving(s) && s.phases[2] == s.phases[3] == WaitingAddressed
  {
    hide Inv, Apply, Starving, FirstWaiting;
    ThreeConnected();
    var waiting := Run(Initial(), [ConfigurePort(1, true), ConfigurePort(2, true), ConfigurePort(3, true)]);
    var gone := AllTrue(NUM_PORTS)[2 := false];
    FirstGone(waiting, gone);
    RunThree(waiting, PortStatusChange(1, true, true, true), EnableSlotDone(true), AddressDeviceDone(true, 1, gone));
  }

  /** Port 3 is connected, and waits for ever. */
  lemma DisconnectedExample(later: seq<Event>)
    requires KeepsAway(later, 2)
    ensures Starving(WithPortGone()) && Run(WithPortGone(), later).phases[3] == WaitingAddressed
  {
    hide WithPortGone, Run, Starving;
    PortGone();
    WaitsForEver(WithPortGone(), later, 2);
  }

  lemma ThreeConnected()
    ensures var s := Run(Initial(), [ConfigurePort(1, true), ConfigurePort(2, true), ConfigurePort(3, true)]);
            Inv(s) && s.phases[1] == ResettingPort && s.phases[2] == s.phases[3] == WaitingAddressed
  {
    var s, e1, e2, e3 := Initial(), ConfigurePort(1, true), ConfigurePort(2, true), ConfigurePort(3, true);
    RunThree(s, e1, e2, e3);
    EventKeeps(s, e1);
    EventKeeps(Apply(s, e1).ports, e2);
    EventKeeps(Apply(Apply(s, e1).ports, e2).ports, e3);
  }

  lemma FirstGone(s: Ports, gone: seq<bool>)
    requires Inv(s) && s.phases[1] == ResettingPort && s.phases[2] == s.phases[3] == WaitingAddressed
    requires |gone| == NUM_PORTS && !gone[2]
    ensures var s1 := Apply(s, PortStatusChange(1, true, true, true)).ports;
            var s2 := Apply(s1, EnableSlotDone(true)).ports;
            var s3 := Apply(s2, AddressDeviceDone(true, 1, gone)).ports;
            Starving(s3) && s3.phases[2] == s3.phases[3] == WaitingAddressed
  {
    hide Recorded;
    var s1 := Apply(s, PortStatusChange(1, true, true, true)).ports;
    EventKeeps(s, PortStatusChange(1, true, true, true));
    var s2 := Apply(s1, EnableSlotDone(true)).ports;
    EventKeeps(s1, EnableSlotDone(true));
    FirstWaitingIs(s2.phases, 0);
    StarvesIff(s2, 1, gone);
  }

  lemma RunThree(s: Ports, e1: Event, e2: Event, e3: Event)
    requires Shaped(s) && Legal(e1) && Legal(e2) && Legal(e3)
    ensures Run(s, [e1, e2, e3]) == Apply(Apply(Apply(s, e1).ports, e2).ports, e3).ports
  {
    hide Apply, Legal;
    assert [e1, e2, e3][1..] == [e2, e3] && [e2, e3][1..] == [e3];
    var s1 := Apply(s, e1).ports;
    var s2 := Apply(s1, e2).ports;
    assert Run(s2, [e3]) == Apply(s2, e3).ports;
    assert Run(s1, [e2, e3]) == Run(s2, [e3]);
  }

  function AllTrue(n: nat): (r: seq<bool>)
    ensures |r| == n && forall i :: 0 <= i < n ==> r[i]
  {
    if n == 0 then [] else AllTrue(n - 1) + [true]
  }

  // ----- the handlers

  /** port_config_phase and addressing_port, and the actions taken so far. */
  class PortManager {
    const phases: array<Phase>
    var addressingPort: nat
    ghost var history: seq<Action>

    constructor ()
      ensures fresh(phases) && Valid() && AsPorts() == Initial()
    {
      var none := AllNotConnected(NUM_PORTS);
      phases := new Phase[NUM_PORTS](i requires 0 <= i < |none| => none[i]);
      addressingPort := 0;
      history := [];
      new;
      assert phases[..] == none;
    }

    ghost predicate Valid()
      reads this, phases
    {
      phases.Length == NUM_PORTS && addressingPort < NUM_PORTS
    }

    ghost function AsPorts(): Ports
      reads this, phases
    {
      Ports(phases[..], addressingPort, history)
    }

    method ResetPort(port: nat, connected: bool) returns (error: Error)
      requires Valid() && port < NUM_PORTS
      modifies this, phases
      ensures Valid() && Outcome(AsPorts(), error) == Resetting(old(AsPorts()), port, connected)
    {
      if !connected {
        return Success;
      }
      if addressingPort != 0 {
        phases[port] := WaitingAddressed;
      } else {
        var portPhase := phases[port];
        if portPhase != NotConnected && portPhase != WaitingAddressed {
          return InvalidPhase;
        }
        addressingPort := port;
        phases[port] := ResettingPort;
        history := history + [Reset(port)];
      }
      return Success;
    }

    method EnableSlot(port: nat, enabled: bool, resetChanged: bool) returns (error: Error)
      requires Valid() && port < NUM_PORTS
      modifies this`history, phases
      ensures Valid() && error == Success
      ensures AsPorts() == if enabled && resetChanged
                           then Did(WithPhase(old(AsPorts()), port, EnablingSlot), EnableSlotCommand(port))
                           else old(AsPorts())
    {
      if enabled && resetChanged {
        phases[port] := EnablingSlot;
        history := history + [EnableSlotCommand(port)];
      }
      return Success;
    }

    method OnConfigurePort(port: nat, connected: bool) returns (error: Error)
      requires Valid() && Legal(ConfigurePort(port, connected))
      modifies this, phases
      ensures Valid() && Outcome(AsPorts(), error) == Apply(old(AsPorts()), ConfigurePort(port, connected))
    {
      error := Success;
      if phases[port] == NotConnected {
        error := ResetPort(port, connected);
      }
    }

    method OnPortStatusChange(port: nat, connected: bool, enabled: bool, resetChanged: bool) returns (error: Error)
      requires Valid() && Legal(PortStatusChange(port, connected, enabled, resetChanged))
      modifies this, phases
      ensures Valid()
      ensures Outcome(AsPorts(), error) ==
                Apply(old(AsPorts()), PortStatusChange(port, connected, enabled, resetChanged))
    {
      match phases[port]
      case NotConnected => error := ResetPort(port, connected);
      case ResettingPort => error := EnableSlot(port, enabled, resetChanged);
      case _ => error := InvalidPhase;
    }

    /** A transfer event: endpoints are configured when the device has become initialized. */
    method OnTransfer(slotFound: bool, received: bool, port: nat, initialized: bool, speedKnown: bool)
      returns (error: Error)
      requires Valid() && Legal(Transfer(slotFound, received, port, initialized, speedKnown))
      modifies this`history, phases
      ensures Valid()
      ensures Outcome(AsPorts(), error) ==
                Apply(old(AsPorts()), Transfer(slotFound, received, port, initialized, speedKnown))
    {
      if !slotFound {
        return InvalidSlotID;
      }
      if !received {
        return TransferFailed;
      }
      if initialized && phases[port] == InitializingDevice {
        if !speedKnown {
          return UnknownXHCISpeedID;
        }
        phases[port] := ConfiguringEndpoints;
        history := history + [ConfigureEndpointCommand(port)];
      }
      return Success;
    }

    method OnEnableSlotDone(slotFound: bool) returns (error: Error)
      requires Valid()
      modifies this`history, phases
      ensures Valid() && Outcome(AsPorts(), error) == Apply(old(AsPorts()), EnableSlotDone(slotFound))
    {
      if phases[addressingPort] != EnablingSlot {
        return InvalidPhase;
      }
      if !slotFound {
        return InvalidSlotID;
      }
      phases[addressingPort] := AddressingDevice;
      history := history + [AddressDeviceCommand(addressingPort)];
      return Success;
    }

    /** The address has been assigned: the first port that waits is next. */
    method OnAddressDeviceDone(slotFound: bool, port: nat, connections: seq<bool>) returns (error: Error)
      requires Valid() && Legal(AddressDeviceDone(slotFound, port, connections))
      modifies this, phases
      ensures Valid()
      ensures Outcome(AsPorts(), error) == Apply(old(AsPorts()), AddressDeviceDone(slotFound, port, connections))
    {
      hide Resetting;
      if !slotFound {
        return InvalidSlotID;
      }
      if port != addressingPort {
        return InvalidPhase;
      }
      if phases[port] != AddressingDevice {
        return InvalidPhase;
      }
      addressingPort := 0;
      history := history + [Addressed(port)];
      ghost var s := AsPorts();
      NextIs(s, connections);
      FirstWaitingIs(s.phases, 0);
      var i: nat := 0;
      error := Success;
      while i < phases.Length
        invariant Valid() && i <= phases.Length && AsPorts() == s && error == Success
        invariant FirstWaiting(s.phases, i) == FirstWaiting(s.phases, 0)
      {
        if phases[i] == WaitingAddressed {
          error := ResetPort(i, connections[i]);
          if error != Success {
            return;
          }
          break;
        }
        i := i + 1;
      }
      assert Outcome(AsPorts(), error) == NextPort(s, connections);
      phases[port] := InitializingDevice;
      history := history + [StartInitialize(port)];
    }

    method OnConfigureEndpointDone(slotFound: bool, port: nat) returns (error: Error)
      requires Valid() && Legal(ConfigureEndpointDone(slotFound, port))
      modifies this`history, phases
      ensures Valid() && Outcome(AsPorts(), error) == Apply(old(AsPorts()), ConfigureEndpointDone(slotFound, port))
    {
      if !slotFound {
        return InvalidSlotID;
      }
      if phases[port] != ConfiguringEndpoints {
        return InvalidPhase;
      }
      history := history + [EndpointsConfigured(port)];
      phases[port] := Configured;
      return Success;
    }
  }
}
