// Two link managers at the ends of one connection, which delivers each side's frames in order. The
// connected event of a side may come before or after the first frames of its peer. Here: what holds
// after every run, and how the runs end.
module Handshake {
  import opened Common
  import opened Links

  datatype Side = A | B

  function Other(side: Side): Side {
    if side.A? then B else A
  }

  // One end. connected, heard and acked remember which of its three events it has had; early that it
  // heard the peer's hello before its connected event.
  datatype End = End(
    self: ProcessRef, version: U32, id: ConnectionId, link: Option<Link>,
    connected: bool, heard: bool, acked: bool, early: bool)

  // The frames on their way to an end are its inbox.
  datatype System = System(a: End, b: End, toA: seq<Message>, toB: seq<Message>, sent: nat) {
    function Of(side: Side): End { if side.A? then a else b }
    function Inbox(side: Side): seq<Message> { if side.A? then toA else toB }
  }

  datatype Step = Connect(side: Side) | Deliver(side: Side)

  function With(s: System, side: Side, end: End, inbox: seq<Message>, out: seq<Message>): System {
    if side.A? then System(end, s.b, inbox, s.toB + out, s.sent + |out|)
    else System(s.a, end, s.toA + out, inbox, s.sent + |out|)
  }

  // Whether a step can happen: each side's connected event once, a delivery while a frame is on its way.
  predicate Enabled(s: System, step: Step) {
    match step
    case Connect(side) => !s.Of(side).connected
    case Deliver(side) => s.Inbox(side) != []
  }

  function Next(s: System, step: Step): System
    requires Enabled(s, step)
  {
    var end := s.Of(step.side);
    match step
    case Connect(side) =>
      With(s, side, end.(link := Some(Opened(end.link, end.id)), connected := true),
           s.Inbox(side), [HelloFrom(end.self, end.version)])
    case Deliver(side) =>
      var m := s.Inbox(side)[0];
      var (link, answers, _) := Received(end.version, end.id, end.link, m);
      With(s, side,
           end.(link := link, heard := end.heard || m.Hello?, acked := end.acked || m.HelloAck?,
                early := end.early || (m.Hello? && !end.connected)),
           s.Inbox(side)[1..], answers)
  }

  function Fresh(self: ProcessRef, version: U32, id: ConnectionId): End {
    End(self, version, id, None, false, false, false, false)
  }

  predicate Start(s: System) {
    && s.a == Fresh(s.a.self, s.a.version, s.a.id) && s.b == Fresh(s.b.self, s.b.version, s.b.id)
    && s.toA == [] && s.toB == [] && s.sent == 0
  }

  predicate RunOk(s: System, steps: seq<Step>)
    decreases |steps|, 0
  {
    steps == [] ||
    (RunOk(s, steps[..|steps| - 1]) && Enabled(Run(s, steps[..|steps| - 1]), steps[|steps| - 1]))
  }

  function Run(s: System, steps: seq<Step>): System
    requires RunOk(s, steps)
    decreases |steps|, 1
  {
    if steps == [] then s else Next(Run(s, steps[..|steps| - 1]), steps[|steps| - 1])
  }

  // ----- the invariant -----

  predicate Compatible(s: System) {
    s.a.version == s.b.version && s.a.version != 0
  }

  function Ack(compatible: bool): Message {
    HelloAck(if compatible then AckOk else AckIncompatible)
  }

  // What is on its way from one end to the other: its hello and its answer to the other's hello, as far
  // as they were sent and have not arrived, in the order in which they were sent.
  function OnTheWay(from: End, to: End, compatible: bool): seq<Message> {
    var hello := if from.connected && !to.heard then [HelloFrom(from.self, from.version)] else [];
    var ack := if from.heard && !to.acked then [Ack(compatible)] else [];
    if from.early then ack + hello else hello + ack
  }

  // The link an end has, by the events it has had.
  function LinkFrom(end: End, peer: ProcessRef, compatible: bool): Option<Link> {
    if !end.connected && !end.heard then None
    else
      var settled := if compatible then Active else Closed;
      Some(Link(end.id, if end.heard then peer else UNKNOWN_PROCESS,
                if end.acked then settled
                else if end.connected && (end.early || !end.heard) then Handshaking
                else settled))
  }

  predicate EndOk(end: End, peer: End, compatible: bool) {
    && end.link == LinkFrom(end, peer.self, compatible)
    && (end.heard ==> peer.connected)
    && (end.acked ==> peer.heard && end.connected)
    && (end.early ==> end.heard)
    && (end.heard && !end.connected ==> end.early)
    && (if peer.early then end.heard ==> end.acked else end.acked ==> end.heard)
  }

  function Flags(end: End): nat {
    (if end.connected then 1 else 0) + if end.heard then 1 else 0
  }

  predicate Inv(s: System) {
    && EndOk(s.a, s.b, Compatible(s)) && EndOk(s.b, s.a, Compatible(s))
    && s.toB == OnTheWay(s.a, s.b, Compatible(s)) && s.toA == OnTheWay(s.b, s.a, Compatible(s))
    && s.sent == Flags(s.a) + Flags(s.b)
  }

  lemma ConnectInv(s: System, side: Side)
    requires Inv(s) && Enabled(s, Connect(side))
    ensures Inv(Next(s, Connect(side)))
  {
  }

  // An end that hears the hello of its peer, and one that gets the peer's answer.
  function Heard(end: End, peer: ProcessRef, compatible: bool): End {
    end.(link := Some(Link(end.id, peer, if compatible then Active else Closed)),
         heard := true, early := end.early || !end.connected)
  }

  function Acked(end: End, compatible: bool): End {
    end.(link := if end.link.None? then None
                 else Some(end.link.value.(state := if compatible then Active else Closed)), acked := true)
  }

  predicate BothOk(end: End, peer: End, compatible: bool) {
    EndOk(end, peer, compatible) && EndOk(peer, end, compatible)
  }

  lemma HelloKeepsEnds(end: End, peer: End, compatible: bool)
    requires BothOk(end, peer, compatible)
    requires var way := OnTheWay(peer, end, compatible); way != [] && way[0].Hello?
    ensures BothOk(Heard(end, peer.self, compatible), peer, compatible)
  {
  }

  lemma HelloWay(end: End, peer: End, compatible: bool)
    requires BothOk(end, peer, compatible)
    requires var way := OnTheWay(peer, end, compatible); way != [] && way[0].Hello?
    ensures var end' := Heard(end, peer.self, compatible);
            && OnTheWay(peer, end, compatible)[0] == HelloFrom(peer.self, peer.version)
            && OnTheWay(peer, end', compatible) == OnTheWay(peer, end, compatible)[1..]
            && OnTheWay(end', peer, compatible) == OnTheWay(end, peer, compatible) + [Ack(compatible)]
            && Flags(end') == Flags(end) + 1
  {
  }

  lemma AckKeepsEnds(end: End, peer: End, compatible: bool)
    requires BothOk(end, peer, compatible)
    requires var way := OnTheWay(peer, end, compatible); way != [] && !way[0].Hello?
    ensures BothOk(Acked(end, compatible), peer, compatible)
  {
  }

  lemma AckWay(end: End, peer: End, compatible: bool)
    requires BothOk(end, peer, compatible)
    requires var way := OnTheWay(peer, end, compatible); way != [] && !way[0].Hello?
    ensures var end' := Acked(end, compatible);
            && OnTheWay(peer, end, compatible)[0] == Ack(compatible)
            && OnTheWay(peer, end', compatible) == OnTheWay(peer, end, compatible)[1..]
            && OnTheWay(end', peer, compatible) == OnTheWay(end, peer, compatible)
            && Flags(end') == Flags(end) && end.link.Some?
  {
  }

  // What the link manager makes of the message that arrives.
  lemma HelloArrives(s: System, side: Side)
    requires Enabled(s, Deliver(side))
    requires s.Inbox(side)[0] == HelloFrom(s.Of(Other(side)).self, s.Of(Other(side)).version)
    ensures Next(s, Deliver(side)) ==
            With(s, side, Heard(s.Of(side), s.Of(Other(side)).self, Compatible(s)), s.Inbox(side)[1..],
                 [Ack(Compatible(s))])
  {
    OnlyTheSameVersionIsCompatible(s.Of(side).version, s.Of(Other(side)).self, s.Of(Other(side)).version);
  }

  lemma AckArrives(s: System, side: Side)
    requires Enabled(s, Deliver(side)) && s.Inbox(side)[0] == Ack(Compatible(s)) && s.Of(side).link.Some?
    ensures Next(s, Deliver(side)) == With(s, side, Acked(s.Of(side), Compatible(s)), s.Inbox(side)[1..], [])
  {
  }

  // One end and the frames around it replaced.
  lemma WithInv(s: System, side: Side, end: End, inbox: seq<Message>, out: seq<Message>)
    requires Inv(s) && end.self == s.Of(side).self && end.version == s.Of(side).version
    requires BothOk(end, s.Of(Other(side)), Compatible(s))
    requires inbox == OnTheWay(s.Of(Other(side)), end, Compatible(s))
    requires s.Inbox(Other(side)) + out == OnTheWay(end, s.Of(Other(side)), Compatible(s))
    requires Flags(end) == Flags(s.Of(side)) + |out|
    ensures Inv(With(s, side, end, inbox, out))
  {
  }

  // The frames on the way to both ends, seen from one side.
  lemma InvAt(s: System, side: Side)
    requires Inv(s)
    ensures BothOk(s.Of(side), s.Of(Other(side)), Compatible(s))
    ensures s.Inbox(side) == OnTheWay(s.Of(Other(side)), s.Of(side), Compatible(s))
    ensures s.Inbox(Other(side)) == OnTheWay(s.Of(side), s.Of(Other(side)), Compatible(s))
  {
  }

  lemma DeliverInv(s: System, side: Side)
    requires Inv(s) && Enabled(s, Deliver(side))
    ensures Inv(Next(s, Deliver(side)))
  {
    InvAt(s, side);
    if s.Inbox(side)[0].Hello? {
      HelloInv(s, side);
    } else {
      AckInv(s, side);
    }
  }

  lemma HelloInv(s: System, side: Side)
    requires Inv(s) && Enabled(s, Deliver(side)) && s.Inbox(side)[0].Hello?
    ensures Inv(Next(s, Deliver(side)))
  {
    var end, peer, c := s.Of(side), s.Of(Other(side)), Compatible(s);
    InvAt(s, side);
    HelloKeepsEnds(end, peer, c);
    HelloWay(end, peer, c);
    HelloArrives(s, side);
    WithInv(s, side, Heard(end, peer.self, c), s.Inbox(side)[1..], [Ack(c)]);
  }

  lemma AckInv(s: System, side: Side)
    requires Inv(s) && Enabled(s, Deliver(side)) && !s.Inbox(side)[0].Hello?
    ensures Inv(Next(s, Deliver(side)))
  {
    var end, peer, c := s.Of(side), s.Of(Other(side)), Compatible(s);
    InvAt(s, side);
    AckKeepsEnds(end, peer, c);
    AckWay(end, peer, c);
    AckArrives(s, side);
    assert s.Inbox(Other(side)) + [] == s.Inbox(Other(side));
    WithInv(s, side, Acked(end, c), s.Inbox(side)[1..], []);
  }

  lemma {:induction false} RunInv(first: System, steps: seq<Step>)
    requires Start(first) && RunOk(first, steps)
    ensures Inv(Run(first, steps))
    ensures Run(first, steps).a.self == first.a.self && Run(first, steps).b.self == first.b.self
    ensures Run(first, steps).a.version == first.a.version && Run(first, steps).b.version == first.b.version
  {
    if steps != [] {
      var before, step := steps[..|steps| - 1], steps[|steps| - 1];
      RunInv(first, before);
      match step
      case Connect(side) => ConnectInv(Run(first, before), side);
      case Deliver(side) => DeliverInv(Run(first, before), side);
    }
  }

  // ----- the main results, for every run -----

  predicate IsLinked(end: End, peer: ProcessRef) {
    end.link.Some? && end.link.value.state.Active? && end.link.value.remote == peer
  }

  predicate IsActive(end: End) {
    end.link.Some? && end.link.value.state.Active?
  }

  predicate IsClosed(end: End) {
    end.link.Some? && end.link.value.state.Closed?
  }

  // No run sends more than four frames.
  lemma AtMostFourFrames(first: System, steps: seq<Step>)
    requires Start(first) && RunOk(first, steps)
    ensures Run(first, steps).sent <= 4
  {
    RunInv(first, steps);
  }

  predicate Drained(s: System) {
    s.a.connected && s.b.connected && s.toA == [] && s.toB == []
  }

  // Every run is at an end after at most six steps, and before the end there is always a next one.
  lemma {:induction false} RunsEnd(first: System, steps: seq<Step>)
    requires Start(first) && RunOk(first, steps)
    ensures |steps| <= 6
    ensures Drained(Run(first, steps)) <==> forall step :: !Enabled(Run(first, steps), step)
  {
    StepsAreEvents(first, steps);
    RunInv(first, steps);
    var s := Run(first, steps);
    if !Drained(s) {
      assert Enabled(s, Connect(A)) || Enabled(s, Connect(B)) || Enabled(s, Deliver(A)) || Enabled(s, Deliver(B));
    }
  }

  function Events(end: End): nat {
    Flags(end) + if end.acked then 1 else 0
  }

  // Each step is one event of one side.
  lemma StepIsAnEvent(s: System, step: Step)
    requires Inv(s) && Enabled(s, step)
    ensures Events(Next(s, step).a) + Events(Next(s, step).b) == Events(s.a) + Events(s.b) + 1
  {
    if step.Deliver? {
      var end, peer, c := s.Of(step.side), s.Of(Other(step.side)), Compatible(s);
      InvAt(s, step.side);
      if s.Inbox(step.side)[0].Hello? {
        HelloWay(end, peer, c);
        HelloArrives(s, step.side);
      } else {
        AckWay(end, peer, c);
        AckArrives(s, step.side);
      }
    }
  }

  lemma {:induction false} StepsAreEvents(first: System, steps: seq<Step>)
    requires Start(first) && RunOk(first, steps)
    ensures |steps| == Events(Run(first, steps).a) + Events(Run(first, steps).b)
  {
    if steps != [] {
      var before := steps[..|steps| - 1];
      StepsAreEvents(first, before);
      RunInv(first, before);
      StepIsAnEvent(Run(first, before), steps[|steps| - 1]);
    }
  }

  // How it ends: both links are active and know their peer if and only if the versions are the same and
  // not 0; otherwise both links are closed.
  lemma HowItEnds(first: System, steps: seq<Step>)
    requires Start(first) && RunOk(first, steps) && Drained(Run(first, steps))
    ensures var s := Run(first, steps);
            if Compatible(first) then IsLinked(s.a, first.b.self) && IsLinked(s.b, first.a.self)
            else IsClosed(s.a) && IsClosed(s.b)
  {
    RunInv(first, steps);
  }

  // With different versions, or version 0, no link is active at any time.
  lemma NeverActiveIfIncompatible(first: System, steps: seq<Step>)
    requires Start(first) && RunOk(first, steps) && !Compatible(first)
    ensures var s := Run(first, steps); !IsActive(s.a) && !IsActive(s.b)
  {
    RunInv(first, steps);
  }

  // Exactly when an active link does not lead to the peer: the peer's answer has come and its hello has
  // not, which takes a peer that heard this side before its own connected event.
  lemma ActiveWithoutIdentity(first: System, steps: seq<Step>, side: Side)
    requires Start(first) && RunOk(first, steps) && first.Of(Other(side)).self != UNKNOWN_PROCESS
    ensures var s := Run(first, steps);
            IsActive(s.Of(side)) && !IsLinked(s.Of(side), first.Of(Other(side)).self) <==>
            Compatible(first) && s.Of(side).acked && !s.Of(side).heard
    ensures var s := Run(first, steps);
            s.Of(side).acked && !s.Of(side).heard ==> s.Of(Other(side)).early
  {
    RunInv(first, steps);
  }

  // If both connected events come before the first frame at their side, an active link always leads to
  // the peer.
  lemma OrderlyRunsKnowTheirPeer(first: System, steps: seq<Step>, side: Side)
    requires Start(first) && RunOk(first, steps)
    requires !Run(first, steps).a.early && !Run(first, steps).b.early
    requires IsActive(Run(first, steps).Of(side))
    ensures IsLinked(Run(first, steps).Of(side), first.Of(Other(side)).self)
  {
    RunInv(first, steps);
  }

  // Without that, a link can be active towards nobody: the peer answers before it says hello.
  lemma AnswerBeforeHello(first: System) returns (steps: seq<Step>)
    requires Start(first) && Compatible(first) && first.b.self != UNKNOWN_PROCESS
    ensures RunOk(first, steps)
    ensures var a := Run(first, steps).a; IsActive(a) && !IsLinked(a, first.b.self)
  {
    var s1 := Next(first, Connect(A));
    var s2 := Next(s1, Deliver(B));
    assert s1.toB == [HelloFrom(first.a.self, first.a.version)];
    assert s2.toA == [HelloAck(AckOk)];
    OneMore(first, [], Connect(A));
    steps := [] + [Connect(A)];
    OneMore(first, steps, Deliver(B));
    steps := steps + [Deliver(B)];
    OneMore(first, steps, Deliver(A));
    steps := steps + [Deliver(A)];
  }

  lemma OneMore(first: System, steps: seq<Step>, step: Step)
    requires RunOk(first, steps) && Enabled(Run(first, steps), step)
    ensures RunOk(first, steps + [step]) && Run(first, steps + [step]) == Next(Run(first, steps), step)
  {
    assert (steps + [step])[..|steps|] == steps;
  }
}
