// One envelope in a network of messengers, each of which forwards what it is handed by its own view of
// members and links. A link that is active towards a process leads to that process.
module Network {
  import opened Common
  import opened TextForms
  import opened Membership
  import opened Routing
  import opened Messaging

  // The messenger of each process.
  type Net = ProcessRef -> Setup

  ghost predicate WellFormedNet(net: Net) {
    forall n :: net(n).context.self == n
  }

  // The sender finds a connection to exactly the processes with an active link.
  predicate Linked(s: Setup, next: ProcessRef) {
    s.context.links.Some? && next in s.context.links.value
  }

  predicate CanSend(s: Setup, next: ProcessRef) {
    s.hasSender && Linked(s, next)
  }

  // What becomes of an envelope at a process that has received it.
  datatype Fate = DispatchedHere | Onward(next: ProcessRef) | Failed(message: string)

  const NO_LINK := "no healthy link to next hop"

  function FateAt(s: Setup, e: Envelope): Fate {
    match Decide(s, e, IncomingLocation(s, e))
    case Do(Dispatched(_)) => DispatchedHere
    case Do(Handed(hop, _)) => if Linked(s, hop) then Onward(hop) else Failed(NO_LINK)
    case Refuse(message) => Failed(message)
    case Fan(_, _) => Failed(UNREACHABLE)
  }

  // An envelope that knows its process, or is addressed to one.
  predicate ForReceiver(e: Envelope, target: ProcessRef) {
    e.semantic.Direct? && !e.target.kind.ProcessReceiver? && e.resolved == Some(target)
  }

  predicate ForProcess(e: Envelope, id: ProcessId) {
    e.semantic.Direct? && e.target.kind.ProcessReceiver? && ProcessId(AsU32(e.target.hi), AsU32(e.target.lo)) == id
  }

  // Forwarding hands on the same envelope, so its fate at the next process is that of the envelope
  // itself.
  lemma ForwardedUnchanged(s: Setup, e: Envelope)
    requires e.semantic.Direct? && (e.target.kind.ProcessReceiver? || e.resolved.Some?)
    requires Decide(s, e, IncomingLocation(s, e)).Do?
    ensures Decide(s, e, IncomingLocation(s, e)).effect.envelope == e
  {
  }

  // A first send to a receiver found in one process, and each hop of a broadcast, is decided as if the
  // envelope had come in with that process.
  lemma FirstSendIsAForward(s: Setup, e: Envelope, target: ProcessRef)
    requires e.semantic.Direct? && !e.target.kind.ProcessReceiver?
    ensures var known := e.(resolved := Some(target));
            Decide(s, e, Some(Single(target))) == Decide(s, known, IncomingLocation(s, known))
  {
  }

  // Where an envelope is after at most so many forwards, and what becomes of it there.
  function Walk(net: Net, e: Envelope, at: ProcessRef, forwards: nat): (ProcessRef, Fate)
    decreases forwards
  {
    var fate := FateAt(net(at), e);
    if fate.Onward? && forwards > 0 then Walk(net, e, fate.next, forwards - 1) else (at, fate)
  }

  lemma TwoForwards(net: Net, e: Envelope, at: ProcessRef)
    ensures var first := FateAt(net(at), e);
            Walk(net, e, at, 2) ==
            if !first.Onward? then (at, first)
            else
              var second := FateAt(net(first.next), e);
              if !second.Onward? then (first.next, second) else (second.next, FateAt(net(second.next), e))
  {
    var first := FateAt(net(at), e);
    if first.Onward? {
      var second := FateAt(net(first.next), e);
      assert Walk(net, e, first.next, 1) ==
             if second.Onward? then Walk(net, e, second.next, 0) else (first.next, second);
    }
  }

  // ----- one visible relay -----

  function Relays(s: Setup): seq<ProcessDescriptor> {
    if s.context.members.Some? then FindByService(s.context.members.value, s.context.relayType) else []
  }

  ghost predicate OneRelay(net: Net, relay: ProcessRef) {
    forall n, d :: d in Relays(net(n)) ==> d.process == relay
  }

  predicate SeesRelay(s: Setup, relay: ProcessRef) {
    relay != s.context.self && exists d :: d in Relays(s) && d.process == relay
  }

  predicate Handles(s: Setup, e: Envelope) {
    e.payload.typeUrl in s.payloadTypes
  }

  // What a process does with an envelope for one target, when it sees no relay but this one.
  lemma TowardsTarget(s: Setup, relay: ProcessRef, target: ProcessRef)
    requires forall d :: d in Relays(s) ==> d.process == relay
    ensures ResolveSingleTarget(s.context, target) ==
            if target == s.context.self then LocalDelivery
            else if Linked(s, target) then NextHop(Hop(target, true))
            else if SeesRelay(s, relay) then NextHop(Hop(relay, false))
            else Unreachable
  {
  }

  lemma FateForReceiver(s: Setup, relay: ProcessRef, e: Envelope, target: ProcessRef)
    requires ForReceiver(e, target) && forall d :: d in Relays(s) ==> d.process == relay
    ensures FateAt(s, e) ==
            if target == s.context.self then if Handles(s, e) then DispatchedHere else Failed(UNKNOWN_PAYLOAD)
            else if Linked(s, target) then if s.hasSender then Onward(target) else Failed(NO_SENDER)
            else if SeesRelay(s, relay) then
              if !s.hasSender then Failed(NO_SENDER) else if Linked(s, relay) then Onward(relay) else Failed(NO_LINK)
            else Failed(UNREACHABLE)
  {
    TowardsTarget(s, relay, target);
  }

  // Where messages for a resolved process end: after at most two forwards, dispatched at that process
  // or with a reported failure; and dispatched exactly if the sender is the target, has a link to it,
  // or has a link to the relay, which is the target or has a link to it.
  lemma ResolvedEndsWithinTwo(net: Net, relay: ProcessRef, e: Envelope, target: ProcessRef, at: ProcessRef)
    requires WellFormedNet(net) && OneRelay(net, relay) && ForReceiver(e, target)
    ensures var (end, fate) := Walk(net, e, at, 2);
            && !fate.Onward?
            && (fate.DispatchedHere? ==> end == target)
            && (fate.DispatchedHere? <==>
                  Handles(net(target), e) &&
                  (at == target || CanSend(net(at), target) ||
                   (SeesRelay(net(at), relay) && CanSend(net(at), relay) &&
                    (relay == target || CanSend(net(relay), target)))))
  {
    FateForReceiver(net(at), relay, e, target);
    FateForReceiver(net(target), relay, e, target);
    FateForReceiver(net(relay), relay, e, target);
    TwoForwards(net, e, at);
  }

  // A process that finds itself, with its own incarnation, in its membership.
  predicate SeesItself(s: Setup) {
    && s.context.members.Some?
    && var found := Find(s.context.members.value, s.context.self.id);
       found.Some? && found.value.process == s.context.self
  }

  function TargetSeen(s: Setup, e: Envelope): ProcessRef {
    ProcessTarget(s.context, e.target)
  }

  lemma FateForProcess(s: Setup, relay: ProcessRef, e: Envelope, id: ProcessId)
    requires ForProcess(e, id) && forall d :: d in Relays(s) ==> d.process == relay
    ensures var target := TargetSeen(s, e);
            FateAt(s, e) ==
            if target == s.context.self then if Handles(s, e) then DispatchedHere else Failed(UNKNOWN_PAYLOAD)
            else if Linked(s, target) then if s.hasSender then Onward(target) else Failed(NO_SENDER)
            else if SeesRelay(s, relay) then
              if !s.hasSender then Failed(NO_SENDER) else if Linked(s, relay) then Onward(relay) else Failed(NO_LINK)
            else Failed(UNREACHABLE)
  {
    TowardsTarget(s, relay, TargetSeen(s, e));
  }

  lemma TargetSeenByItself(s: Setup, e: Envelope, id: ProcessId)
    requires SeesItself(s) && ForProcess(e, id)
    ensures TargetSeen(s, e) == s.context.self <==> s.context.self.id == id
  {
  }

  // The same for process-addressed envelopes, when the processes with the id they name see themselves:
  // they are dispatched only at such a process.
  lemma ProcessEndsWithinTwo(net: Net, relay: ProcessRef, e: Envelope, id: ProcessId, at: ProcessRef)
    requires WellFormedNet(net) && OneRelay(net, relay) && ForProcess(e, id)
    ensures var (end, fate) := Walk(net, e, at, 2);
            (forall n: ProcessRef :: n.id == id ==> SeesItself(net(n))) ==>
              !fate.Onward? && (fate.DispatchedHere? ==> end.id == id && Handles(net(end), e))
  {
    if forall n: ProcessRef :: n.id == id ==> SeesItself(net(n)) {
      var near, far := TargetSeen(net(at), e), TargetSeen(net(relay), e);
      forall n
        ensures TargetSeen(net(n), e) == n <==> n.id == id
      {
        if n.id == id {
          TargetSeenByItself(net(n), e, id);
        }
      }
      FateForProcess(net(at), relay, e, id);
      FateForProcess(net(relay), relay, e, id);
      FateForProcess(net(near), relay, e, id);
      FateForProcess(net(far), relay, e, id);
      TwoForwards(net, e, at);
    }
  }

  // ----- the conditions are needed -----

  // The first relay that a process sees besides itself.
  function RelaySeen(s: Setup): Option<ProcessRef> {
    FirstOther(Relays(s), s.context.self)
  }

  // Two processes that see no relay but each other.
  ghost predicate RelayPair(net: Net, one: ProcessRef, two: ProcessRef) {
    && one != two
    && (forall d :: d in Relays(net(one)) ==> d.process == one || d.process == two)
    && (forall d :: d in Relays(net(two)) ==> d.process == one || d.process == two)
  }

  // The one towards the other, for a target it does not reach itself.
  predicate HandsOver(s: Setup, other: ProcessRef, target: ProcessRef) {
    target != s.context.self && !Linked(s, target) && RelaySeen(s) == Some(other) && CanSend(s, other)
  }

  lemma FateInPair(net: Net, one: ProcessRef, two: ProcessRef, e: Envelope, target: ProcessRef)
    requires WellFormedNet(net) && RelayPair(net, one, two) && ForReceiver(e, target)
    ensures HandsOver(net(one), two, target) ==> FateAt(net(one), e) == Onward(two)
    ensures !HandsOver(net(one), two, target) ==>
              !FateAt(net(one), e).Onward? || (FateAt(net(one), e) == Onward(target) && target != one)
    ensures !FateAt(net(target), e).Onward?
  {
  }

  lemma {:induction false} PairBounces(net: Net, one: ProcessRef, two: ProcessRef, e: Envelope, target: ProcessRef,
                                       forwards: nat)
    requires WellFormedNet(net) && RelayPair(net, one, two) && ForReceiver(e, target)
    requires HandsOver(net(one), two, target) && HandsOver(net(two), one, target)
    decreases forwards
    ensures Walk(net, e, one, forwards).1.Onward?
  {
    FateInPair(net, one, two, e, target);
    if forwards > 0 {
      PairBounces(net, two, one, e, target, forwards - 1);
    }
  }

  // Between two relays an envelope is handed back and forth without end if and only if neither is the
  // target or has a link to it and each sees the other and can send to it. In all other cases it has
  // come to an end after two forwards.
  lemma TwoRelaysBounce(net: Net, one: ProcessRef, two: ProcessRef, e: Envelope, target: ProcessRef, forwards: nat)
    requires WellFormedNet(net) && RelayPair(net, one, two) && ForReceiver(e, target) && forwards >= 2
    ensures Walk(net, e, one, forwards).1.Onward? <==>
              HandsOver(net(one), two, target) && HandsOver(net(two), one, target)
  {
    if HandsOver(net(one), two, target) && HandsOver(net(two), one, target) {
      PairBounces(net, one, two, e, target, forwards);
    } else {
      FateInPair(net, one, two, e, target);
      FateInPair(net, two, one, e, target);
      TwoForwards(net, e, one);
      WalkStops(net, e, one, 2, forwards);
    }
  }

  // A walk that has come to an end goes no further.
  lemma {:induction false} WalkStops(net: Net, e: Envelope, at: ProcessRef, k: nat, forwards: nat)
    requires k <= forwards && !Walk(net, e, at, k).1.Onward?
    ensures Walk(net, e, at, forwards) == Walk(net, e, at, k)
    decreases k
  {
    var fate := FateAt(net(at), e);
    if fate.Onward? {
      WalkStops(net, e, fate.next, k - 1, forwards - 1);
    }
  }

  // A process and its relay that hand an envelope for the process to each other: the process does not find
  // itself and has no link to what it finds instead, and the relay finds the process.
  predicate HandBack(process: Setup, relay: Setup, e: Envelope) {
    var near := TargetSeen(process, e);
    && near != process.context.self && !Linked(process, near)
    && SeesRelay(process, relay.context.self) && CanSend(process, relay.context.self)
    && TargetSeen(relay, e) == process.context.self && CanSend(relay, process.context.self)
  }

  lemma {:induction false} HandBackBounces(net: Net, process: ProcessRef, relay: ProcessRef, e: Envelope, forwards: nat)
    requires WellFormedNet(net) && OneRelay(net, relay) && ForProcess(e, process.id)
    requires HandBack(net(process), net(relay), e)
    ensures Walk(net, e, process, forwards).1.Onward?
    decreases forwards
  {
    FateForProcess(net(process), relay, e, process.id);
    FateForProcess(net(relay), relay, e, process.id);
    if forwards > 1 {
      HandBackBounces(net, process, relay, e, forwards - 2);
    }
  }

  // With one visible relay, at a process that need not see itself while the others with its id do: an
  // envelope addressed to it is forwarded without end if and only if the process and the relay hand it to
  // each other. In all other cases it has come to an end after two forwards.
  lemma UnawareProcessBounces(net: Net, process: ProcessRef, relay: ProcessRef, e: Envelope, forwards: nat)
    requires WellFormedNet(net) && OneRelay(net, relay) && ForProcess(e, process.id) && forwards >= 2
    ensures (forall n: ProcessRef :: n.id == process.id && n != process ==> SeesItself(net(n))) ==>
              (Walk(net, e, process, forwards).1.Onward? <==> HandBack(net(process), net(relay), e))
  {
    var id, near, far := process.id, TargetSeen(net(process), e), TargetSeen(net(relay), e);
    if HandBack(net(process), net(relay), e) {
      HandBackBounces(net, process, relay, e, forwards);
    } else if forall n: ProcessRef :: n.id == id && n != process ==> SeesItself(net(n)) {
      forall n | n != process
        ensures TargetSeen(net(n), e) == n <==> n.id == id
      {
        if n.id == id {
          TargetSeenByItself(net(n), e, id);
        }
      }
      FateForProcess(net(process), relay, e, id);
      FateForProcess(net(relay), relay, e, id);
      FateForProcess(net(near), relay, e, id);
      FateForProcess(net(far), relay, e, id);
      TwoForwards(net, e, process);
      WalkStops(net, e, process, 2, forwards);
    }
  }

  lemma WalkOne(net: Net, e: Envelope, at: ProcessRef, next: ProcessRef, forwards: nat)
    requires forwards > 0 && FateAt(net(at), e) == Onward(next)
    ensures Walk(net, e, at, forwards) == Walk(net, e, next, forwards - 1)
  {
  }

  // A walk gets to the process directly, or through the relay.
  predicate GetsTo(net: Net, e: Envelope, at: ProcessRef, relay: ProcessRef, process: ProcessRef) {
    || at == process || FateAt(net(at), e) == Onward(process)
    || (FateAt(net(at), e) == Onward(relay) && FateAt(net(relay), e) == Onward(process))
  }

  // The same from every start: an envelope for the id of the process is forwarded without end if and only
  // if the process and the relay hand it to each other and its way leads to the process.
  lemma UnawareProcessFromAnywhere(net: Net, process: ProcessRef, relay: ProcessRef, e: Envelope, at: ProcessRef,
                                   forwards: nat)
    requires WellFormedNet(net) && OneRelay(net, relay) && ForProcess(e, process.id) && forwards >= 4
    ensures (forall n: ProcessRef :: n.id == process.id && n != process ==> SeesItself(net(n))) ==>
              (Walk(net, e, at, forwards).1.Onward? <==>
               HandBack(net(process), net(relay), e) && GetsTo(net, e, at, relay, process))
  {
    if forall n: ProcessRef :: n.id == process.id && n != process ==> SeesItself(net(n)) {
      if GetsTo(net, e, at, relay, process) {
        if at == process {
          UnawareProcessBounces(net, process, relay, e, forwards);
        } else if FateAt(net(at), e) == Onward(process) {
          WalkOne(net, e, at, process, forwards);
          UnawareProcessBounces(net, process, relay, e, forwards - 1);
        } else {
          WalkOne(net, e, at, relay, forwards);
          WalkOne(net, e, relay, process, forwards - 1);
          UnawareProcessBounces(net, process, relay, e, forwards - 2);
        }
      } else {
        EndsElsewhere(net, process, relay, e, at);
        WalkStops(net, e, at, 2, forwards);
      }
    }
  }

  // A walk that does not get to the process ends within two forwards.
  lemma EndsElsewhere(net: Net, process: ProcessRef, relay: ProcessRef, e: Envelope, at: ProcessRef)
    requires WellFormedNet(net) && OneRelay(net, relay) && ForProcess(e, process.id)
    requires forall n: ProcessRef :: n.id == process.id && n != process ==> SeesItself(net(n))
    requires !GetsTo(net, e, at, relay, process)
    ensures !Walk(net, e, at, 2).1.Onward?
  {
    var near, far := TargetSeen(net(at), e), TargetSeen(net(relay), e);
    forall n | n != process
      ensures TargetSeen(net(n), e) == n <==> n.id == process.id
    {
      if n.id == process.id {
        TargetSeenByItself(net(n), e, process.id);
      }
    }
    FateForProcess(net(at), relay, e, process.id);
    FateForProcess(net(relay), relay, e, process.id);
    FateForProcess(net(near), relay, e, process.id);
    FateForProcess(net(far), relay, e, process.id);
    TwoForwards(net, e, at);
  }
}
