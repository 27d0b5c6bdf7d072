// The messenger: it carries out routing decisions, with one recursive send per hop of a fan-out.
module Messaging {
  import opened Common
  import opened TextForms
  import opened Membership
  import opened Routing

  // What a messenger does to the outside: hand an envelope to the sender for a next hop, or dispatch it
  // to a receiver of its own process.
  datatype Effect = Handed(hop: ProcessRef, envelope: Envelope) | Dispatched(envelope: Envelope)

  // What a messenger is set up with. A receiver directory names at most one process for a receiver.
  datatype Setup = Setup(
    context: Context, hasSender: bool, payloadTypes: set<string>, directory: ReceiverAddress -> Option<ProcessRef>)

  const NO_SENDER := "remote message sender is not configured"
  const DROPPED := "message dropped during route resolution"
  const UNREACHABLE := "route plan kind is not implemented yet"
  const UNKNOWN_PAYLOAD := "payload type is not registered"

  function DirectoryLocation(owner: Option<ProcessRef>): Location {
    if owner.Some? then Single(owner.value) else Location(Unresolved, [])
  }

  // ----- one decision -----

  datatype Decision = Do(effect: Effect) | Refuse(message: string) | Fan(hops: seq<Hop>, envelope: Envelope)

  // The envelope of a receiver that is found in one process carries that process along.
  function Addressed(e: Envelope, location: Option<Location>): Envelope {
    if location.Some? && location.value.kind.SingleProcess? && location.value.processes != [] &&
       !e.target.kind.ProcessReceiver?
    then e.(resolved := Some(location.value.processes[0]))
    else e
  }

  function Decide(s: Setup, e: Envelope, location: Option<Location>): Decision {
    var sent := Addressed(e, location);
    match Resolve(s.context, sent, location)
    case LocalDelivery => if e.payload.typeUrl in s.payloadTypes then Do(Dispatched(sent)) else Refuse(UNKNOWN_PAYLOAD)
    case Drop => Refuse(DROPPED)
    case NextHop(hop) => if s.hasSender then Do(Handed(hop.process, sent)) else Refuse(NO_SENDER)
    case FanOut(hops) => Fan(hops, sent)
    case Unreachable => Refuse(UNREACHABLE)
  }

  // The envelope for one hop of a fan-out.
  function ForHop(e: Envelope, hop: Hop): Envelope {
    var resolved := if e.target.kind.ProcessReceiver? then e.resolved else Some(hop.process);
    e.(semantic := Direct, scope := NO_SCOPE, resolved := resolved)
  }

  // A direct envelope with one known process is not fanned out, so the recursion has depth one.
  lemma SingleDoesNotFanOut(s: Setup, e: Envelope, p: ProcessRef)
    requires e.semantic.Direct?
    ensures !Decide(s, e, Some(Single(p))).Fan?
  {
  }

  // The decisions of a fan-out, hop by hop.
  function PlannedHops(s: Setup, e: Envelope, hops: seq<Hop>): (planned: seq<Decision>)
    ensures |planned| == |hops|
  {
    if hops == [] then []
    else [Decide(s, ForHop(e, hops[0]), Some(Single(hops[0].process)))] + PlannedHops(s, e, hops[1..])
  }

  lemma {:induction false} PlannedHopAt(s: Setup, e: Envelope, hops: seq<Hop>, i: nat)
    requires i < |hops|
    ensures PlannedHops(s, e, hops)[i] == Decide(s, ForHop(e, hops[i]), Some(Single(hops[i].process)))
  {
    if i > 0 {
      PlannedHopAt(s, e, hops[1..], i - 1);
    }
  }

  // All decisions of one send, in order.
  function Planned(s: Setup, e: Envelope, location: Option<Location>): seq<Decision> {
    var d := Decide(s, e, location);
    if d.Fan? then PlannedHops(s, d.envelope, d.hops) else [d]
  }

  // Carrying out one decision; answers are the results of the effects, numbered by at. A fan-out is
  // not planned as a single decision.
  function PerformOne(d: Decision, answers: nat -> Result, at: nat): (seq<Effect>, Result) {
    match d
    case Do(effect) => ([effect], answers(at))
    case Refuse(message) => ([], Failure(message))
    case Fan(_, _) => ([], Failure(UNREACHABLE))
  }

  function After(done: seq<Effect>, rest: (seq<Effect>, Result)): (seq<Effect>, Result) {
    (done + rest.0, rest.1)
  }

  // Carrying out decisions in order until one is refused or its effect fails.
  function Perform(decisions: seq<Decision>, answers: nat -> Result, at: nat): (seq<Effect>, Result) {
    if decisions == [] then ([], Success)
    else
      var first := PerformOne(decisions[0], answers, at);
      if first.1.Failure? then first
      else After(first.0, Perform(decisions[1..], answers, at + |first.0|))
  }

  // A plan of which the decisions before i have led to this log.
  predicate Underway(whole: (seq<Effect>, Result), log: seq<Effect>, planned: seq<Decision>, i: nat,
                     answers: nat -> Result)
    requires i <= |planned|
  {
    whole == After(log, Perform(planned[i..], answers, |log|))
  }

  lemma UnderwayFromStart(planned: seq<Decision>, answers: nat -> Result, log: seq<Effect>)
    ensures Underway(After(log, Perform(planned, answers, |log|)), log, planned, 0, answers)
  {
    assert planned[0..] == planned;
  }

  lemma UnderwayStep(whole: (seq<Effect>, Result), log: seq<Effect>, planned: seq<Decision>, i: nat,
                     answers: nat -> Result)
    requires i < |planned| && Underway(whole, log, planned, i, answers)
    ensures var (log', result) := After(log, PerformOne(planned[i], answers, |log|));
            if result.Failure? then whole == (log', result) else Underway(whole, log', planned, i + 1, answers)
  {
    assert planned[i..][1..] == planned[i + 1..];
    var (effects, _) := PerformOne(planned[i], answers, |log|);
    var rest := Perform(planned[i + 1..], answers, |log| + |effects|);
    assert log + (effects + rest.0) == log + effects + rest.0;
  }

  lemma PerformSingle(d: Decision, answers: nat -> Result, at: nat)
    ensures Perform([d], answers, at) == PerformOne(d, answers, at)
  {
    var first := PerformOne(d, answers, at);
    assert first.0 + [] == first.0;
  }

  // ----- what a send does -----

  predicate Does(effect: Effect, before: seq<Effect>, after: seq<Effect>, result: Result, answer: Result) {
    after == before + [effect] && result == answer
  }

  predicate Refuses(message: string, before: seq<Effect>, after: seq<Effect>, result: Result) {
    after == before && result == Failure(message)
  }

  // The envelope sent is given to the sender for the next process.
  predicate HandsTo(s: Setup, next: ProcessRef, sent: Envelope, before: seq<Effect>, after: seq<Effect>,
                    result: Result, answer: Result) {
    if s.hasSender then Does(Handed(next, sent), before, after, result, answer)
    else Refuses(NO_SENDER, before, after, result)
  }

  // An envelope for this process is dispatched if its payload is registered.
  predicate DispatchesHere(s: Setup, sent: Envelope, before: seq<Effect>, after: seq<Effect>, result: Result,
                           answer: Result) {
    if sent.payload.typeUrl in s.payloadTypes then Does(Dispatched(sent), before, after, result, answer)
    else Refuses(UNKNOWN_PAYLOAD, before, after, result)
  }

  // An envelope for the owner is dispatched here if that is this process, handed to the owner over an
  // active link, and without one to the first relay among the members. Nothing else happens.
  ghost predicate Delivers(s: Setup, owner: ProcessRef, sent: Envelope, before: seq<Effect>, after: seq<Effect>,
                           result: Result, answer: Result)
  {
    var c := s.context;
    if owner == c.self then DispatchesHere(s, sent, before, after, result, answer)
    else if c.links.Some? && owner in c.links.value then HandsTo(s, owner, sent, before, after, result, answer)
    else
      && (c.members.None? || (forall i :: 0 <= i < |c.members.value| ==> !IsRelay(c)(c.members.value[i])) ==>
            Refuses(UNREACHABLE, before, after, result))
      && (c.members.Some? ==>
            forall i :: IsFirst(c.members.value, i, IsRelay(c)) ==>
              HandsTo(s, c.members.value[i].process, sent, before, after, result, answer))
  }

  // What a single decision does to the log.
  lemma SingleDecision(s: Setup, e: Envelope, location: Option<Location>, answers: nat -> Result, log: seq<Effect>)
    requires !Decide(s, e, location).Fan?
    ensures After(log, Perform(Planned(s, e, location), answers, |log|)) ==
            After(log, PerformOne(Decide(s, e, location), answers, |log|))
  {
    PerformSingle(Decide(s, e, location), answers, |log|);
  }

  // The decision for a known process.
  function DecisionFor(s: Setup, sent: Envelope, owner: ProcessRef): Decision {
    match ResolveSingleTarget(s.context, owner)
    case LocalDelivery =>
      if sent.payload.typeUrl in s.payloadTypes then Do(Dispatched(sent)) else Refuse(UNKNOWN_PAYLOAD)
    case NextHop(hop) => if s.hasSender then Do(Handed(hop.process, sent)) else Refuse(NO_SENDER)
    case _ => Refuse(UNREACHABLE)
  }

  lemma SingleIsForOwner(s: Setup, e: Envelope, owner: ProcessRef)
    requires e.semantic.Direct?
    ensures var sent := if e.target.kind.ProcessReceiver? then e else e.(resolved := Some(owner));
            Decide(s, e, Some(Single(owner))) == DecisionFor(s, sent, owner)
  {
  }

  lemma TargetDelivers(s: Setup, sent: Envelope, owner: ProcessRef, answers: nat -> Result, log: seq<Effect>)
    ensures var (after, result) := After(log, PerformOne(DecisionFor(s, sent, owner), answers, |log|));
            Delivers(s, owner, sent, log, after, result, answers(|log|))
  {
    if s.context.members.Some? {
      FirstRelay(s.context, s.context.members.value);
    }
    assert log + [] == log;
  }

  // A direct envelope with one known process, sent.
  lemma SingleDelivers(s: Setup, e: Envelope, owner: ProcessRef, answers: nat -> Result, log: seq<Effect>)
    requires e.semantic.Direct?
    ensures var sent := if e.target.kind.ProcessReceiver? then e else e.(resolved := Some(owner));
            var (after, result) := After(log, Perform(Planned(s, e, Some(Single(owner))), answers, |log|));
            Delivers(s, owner, sent, log, after, result, answers(|log|))
  {
    var sent := if e.target.kind.ProcessReceiver? then e else e.(resolved := Some(owner));
    SingleIsForOwner(s, e, owner);
    SingleDecision(s, e, Some(Single(owner)), answers, log);
    TargetDelivers(s, sent, owner, answers, log);
  }

  // An envelope that only names a process.
  lemma AddressDelivers(s: Setup, e: Envelope, answers: nat -> Result, log: seq<Effect>) returns (target: ProcessRef)
    requires e.semantic.Direct? && e.target.kind.ProcessReceiver?
    ensures IsKnownAs(s.context, ProcessId(AsU32(e.target.hi), AsU32(e.target.lo)), target)
    ensures var (after, result) := After(log, Perform(Planned(s, e, None), answers, |log|));
            Delivers(s, target, e, log, after, result, answers(|log|))
  {
    target := ProcessTarget(s.context, e.target);
    TargetIsKnown(s.context, e.target);
    SingleDecision(s, e, None, answers, log);
    TargetDelivers(s, e, target, answers, log);
  }

  lemma UnresolvedIsDropped(s: Setup, e: Envelope, answers: nat -> Result, log: seq<Effect>)
    requires e.semantic.Direct?
    ensures After(log, Perform(Planned(s, e, Some(Location(Unresolved, []))), answers, |log|)) ==
            (log, Failure(DROPPED))
  {
    SingleDecision(s, e, Some(Location(Unresolved, [])), answers, log);
    assert log + [] == log;
  }

  lemma AtHomeDispatches(s: Setup, e: Envelope, answers: nat -> Result, log: seq<Effect>)
    requires e.semantic.Direct?
    ensures var location := Some(Location(AtHome, [s.context.self]));
            var (after, result) := After(log, Perform(Planned(s, e, location), answers, |log|));
            DispatchesHere(s, e, log, after, result, answers(|log|))
  {
    SingleDecision(s, e, Some(Location(AtHome, [s.context.self])), answers, log);
    assert log + [] == log;
  }

  // What is carried out is the beginning of the plan, and all of it exactly when the send succeeds.
  lemma {:induction false} PerformedIsPrefix(decisions: seq<Decision>, answers: nat -> Result, at: nat)
    requires forall i :: 0 <= i < |decisions| ==> !decisions[i].Fan?
    ensures var (effects, result) := Perform(decisions, answers, at);
            && |effects| <= |decisions|
            && (forall i :: 0 <= i < |effects| ==> decisions[i] == Do(effects[i]))
            && (forall n :: at <= n < at + |effects| - 1 ==> answers(n).Success?)
            && (result.Success? <==>
                  |effects| == |decisions| && forall n :: at <= n < at + |effects| ==> answers(n).Success?)
            && (result.Failure? ==>
                  if |effects| > 0 && answers(at + |effects| - 1).Failure? then result == answers(at + |effects| - 1)
                  else |effects| < |decisions| && decisions[|effects|] == Refuse(result.message))
  {
    if decisions != [] && decisions[0].Do? && answers(at).Success? {
      PerformedIsPrefix(decisions[1..], answers, at + 1);
      var (effects, result) := Perform(decisions, answers, at);
      forall i | 0 <= i < |effects|
        ensures decisions[i] == Do(effects[i])
      {
        if i > 0 {
          assert effects[i] == effects[1..][i - 1] && decisions[1..][i - 1] == decisions[i];
        }
      }
    }
  }

  // ----- the messenger -----

  const FRAME_KIND_DATA: U16 := 2
  datatype DataFrame = DataFrame(kind: U16, envelope: Option<Envelope>)

  // Where an envelope that comes in is looked for: process-addressed ones by their address, others at
  // the process they carry along or where the directory has their receiver.
  function IncomingLocation(s: Setup, e: Envelope): Option<Location> {
    if e.target.kind.ProcessReceiver? then None
    else if e.resolved.Some? then Some(Single(e.resolved.value))
    else Some(DirectoryLocation(s.directory(e.target)))
  }

  // What happens to a direct envelope that comes in: one for a receiver goes to the process it carries along,
  // or else to the owner in the directory, which it carries from then on; one for a process goes there.
  ghost predicate Received(s: Setup, e: Envelope, before: seq<Effect>, after: seq<Effect>, result: Result,
                           answer: Result)
  {
    if e.target.kind.ProcessReceiver? then
      exists p :: IsKnownAs(s.context, ProcessId(AsU32(e.target.hi), AsU32(e.target.lo)), p) &&
                  Delivers(s, p, e, before, after, result, answer)
    else if e.resolved.Some? then Delivers(s, e.resolved.value, e, before, after, result, answer)
    else
      var owner := s.directory(e.target);
      if owner.None? then Refuses(DROPPED, before, after, result)
      else Delivers(s, owner.value, e.(resolved := owner), before, after, result, answer)
  }

  lemma IncomingIsReceived(s: Setup, e: Envelope, answers: nat -> Result, log: seq<Effect>)
    ensures var (after, result) := After(log, Perform(Planned(s, e, IncomingLocation(s, e)), answers, |log|));
            e.semantic.Direct? ==> Received(s, e, log, after, result, answers(|log|))
  {
    if e.semantic.Direct? {
      if e.target.kind.ProcessReceiver? {
        var p := AddressDelivers(s, e, answers, log);
      } else if e.resolved.Some? {
        SingleDelivers(s, e, e.resolved.value, answers, log);
      } else if s.directory(e.target).Some? {
        SingleDelivers(s, e, s.directory(e.target).value, answers, log);
      } else {
        UnresolvedIsDropped(s, e, answers, log);
      }
    }
  }

  function NewEnvelope(s: Setup, semantic: Semantic, target: ReceiverAddress, scope: Scope, payload: Payload)
    : Envelope
  {
    Envelope(s.context.self, semantic, target, None, scope, payload)
  }

  function ProcessAddress(id: ProcessId): ReceiverAddress {
    ReceiverAddress(ProcessReceiver, id.serviceType, id.instanceId)
  }

  class Messenger {
    const setup: Setup
    var log: seq<Effect>

    constructor (setup: Setup)
      ensures this.setup == setup && log == []
    {
      this.setup, log := setup, [];
    }

    // answers gives the result of each effect, by its position in the log.
    method SendEnvelope(e: Envelope, location: Option<Location>, answers: nat -> Result) returns (result: Result)
      modifies this`log
      ensures (log, result) == After(old(log), Perform(Planned(setup, e, location), answers, |old(log)|))
      decreases if Decide(setup, e, location).Fan? then 1 else 0, 0
    {
      PerformSingle(Decide(setup, e, location), answers, |log|);
      assert log + [] == log;
      var sent := e;
      if location.Some? && location.value.kind.SingleProcess? && location.value.processes != [] &&
         !e.target.kind.ProcessReceiver? {
        sent := sent.(resolved := Some(location.value.processes[0]));
      }
      var plan := ResolveRoute(setup.context, sent, location);
      match plan {
        case LocalDelivery =>
          result := DispatchLocal(sent, answers);
        case Drop =>
          result := Failure(DROPPED);
        case NextHop(hop) =>
          if !setup.hasSender {
            return Failure(NO_SENDER);
          }
          log := log + [Handed(hop.process, sent)];
          result := answers(|log| - 1);
        case FanOut(hops) =>
          result := SendToHops(sent, hops, answers);
        case Unreachable =>
          result := Failure(UNREACHABLE);
      }
    }

    // The loop of a fan-out: one send per hop, up to the first that fails.
    method SendToHops(e: Envelope, hops: seq<Hop>, answers: nat -> Result) returns (result: Result)
      modifies this`log
      ensures (log, result) == After(old(log), Perform(PlannedHops(setup, e, hops), answers, |old(log)|))
      decreases 0, 2
    {
      ghost var planned := PlannedHops(setup, e, hops);
      ghost var whole := After(log, Perform(planned, answers, |log|));
      UnderwayFromStart(planned, answers, log);
      for i := 0 to |hops|
        invariant Underway(whole, log, planned, i, answers)
      {
        UnderwayStep(whole, log, planned, i, answers);
        result := SendToHop(e, hops, i, answers);
        if result.Failure? {
          return;
        }
      }
      assert planned[|hops|..] == [] && log + [] == log;
      result := Success;
    }

    method SendToHop(e: Envelope, hops: seq<Hop>, i: nat, answers: nat -> Result) returns (result: Result)
      requires i < |hops|
      modifies this`log
      ensures (log, result) == After(old(log), PerformOne(PlannedHops(setup, e, hops)[i], answers, |old(log)|))
      decreases 0, 1
    {
      var hop := hops[i];
      var next := ForHop(e, hop);
      SingleDoesNotFanOut(setup, next, hop.process);
      PlannedHopAt(setup, e, hops, i);
      PerformSingle(Decide(setup, next, Some(Single(hop.process))), answers, |log|);
      result := SendEnvelope(next, Some(Single(hop.process)), answers);
    }

    method DispatchLocal(e: Envelope, answers: nat -> Result) returns (result: Result)
      modifies this`log
      ensures e.payload.typeUrl !in setup.payloadTypes ==> result == Failure(UNKNOWN_PAYLOAD) && log == old(log)
      ensures e.payload.typeUrl in setup.payloadTypes ==>
        log == old(log) + [Dispatched(e)] && result == answers(|old(log)|)
    {
      if e.payload.typeUrl !in setup.payloadTypes {
        return Failure(UNKNOWN_PAYLOAD);
      }
      log := log + [Dispatched(e)];
      result := answers(|log| - 1);
    }

    method HandleIncomingFrame(frame: DataFrame, answers: nat -> Result) returns (result: Result)
      modifies this`log
      ensures frame.kind != FRAME_KIND_DATA || frame.envelope.None? ==> result.Failure? && log == old(log)
      ensures frame.kind == FRAME_KIND_DATA && frame.envelope.Some? ==>
        var e := frame.envelope.value;
        (log, result) == After(old(log), Perform(Planned(setup, e, IncomingLocation(setup, e)), answers, |old(log)|))
      ensures frame.kind == FRAME_KIND_DATA && frame.envelope.Some? && frame.envelope.value.semantic.Direct? ==>
        Received(setup, frame.envelope.value, old(log), log, result, answers(|old(log)|))
    {
      if frame.kind != FRAME_KIND_DATA {
        return Failure("unsupported frame kind");
      }
      if frame.envelope.None? {
        return Failure("invalid data envelope");
      }
      var e := frame.envelope.value;
      IncomingIsReceived(setup, e, answers, log);
      var location: Option<Location> := None;
      if !e.target.kind.ProcessReceiver? {
        if e.resolved.Some? {
          location := Some(Single(e.resolved.value));
        } else {
          location := Some(DirectoryLocation(setup.directory(e.target)));
        }
      }
      result := SendEnvelope(e, location, answers);
    }

    method SendToProcess(target: ProcessId, payload: Payload, answers: nat -> Result) returns (result: Result)
      modifies this`log
      ensures var e := NewEnvelope(setup, Direct, ProcessAddress(target), NO_SCOPE, payload);
              var here := target == setup.context.self.id;
              var location := if here then Some(Location(AtHome, [setup.context.self])) else None;
              (log, result) == After(old(log), Perform(Planned(setup, e, location), answers, |old(log)|))
      ensures var c, address := setup.context, ReceiverAddress(ProcessReceiver, target.serviceType, target.instanceId);
              var sent := Envelope(c.self, Direct, address, None, NO_SCOPE, payload);
              if target == c.self.id then DispatchesHere(setup, sent, old(log), log, result, answers(|old(log)|))
              else exists p :: IsKnownAs(c, target, p) &&
                               Delivers(setup, p, sent, old(log), log, result, answers(|old(log)|))
    {
      var e := NewEnvelope(setup, Direct, ProcessAddress(target), NO_SCOPE, payload);
      AtHomeDispatches(setup, e, answers, log);
      var p := AddressDelivers(setup, e, answers, log);
      var location: Option<Location> := None;
      if target == setup.context.self.id {
        location := Some(Location(AtHome, [setup.context.self]));
      }
      result := SendEnvelope(e, location, answers);
    }

    method SendToReceiver(target: ReceiverAddress, payload: Payload, answers: nat -> Result) returns (result: Result)
      modifies this`log
      ensures var e := NewEnvelope(setup, Direct, target, NO_SCOPE, payload);
              var location := Some(DirectoryLocation(setup.directory(target)));
              (log, result) == After(old(log), Perform(Planned(setup, e, location), answers, |old(log)|))
      ensures setup.directory(target).None? ==> Refuses(DROPPED, old(log), log, result)
      ensures setup.directory(target).Some? ==>
        var owner := setup.directory(target).value;
        var resolved := if target.kind.ProcessReceiver? then None else Some(owner);
        var sent := Envelope(setup.context.self, Direct, target, resolved, NO_SCOPE, payload);
        Delivers(setup, owner, sent, old(log), log, result, answers(|old(log)|))
    {
      var e := NewEnvelope(setup, Direct, target, NO_SCOPE, payload);
      if setup.directory(target).Some? {
        SingleDelivers(setup, e, setup.directory(target).value, answers, log);
      } else {
        UnresolvedIsDropped(setup, e, answers, log);
      }
      result := SendEnvelope(e, Some(DirectoryLocation(setup.directory(target))), answers);
    }

    // Only a service can be broadcast to, and a scope may not name another service than the target.
    method BroadcastToReceiver(target: ReceiverAddress, scope: Scope, payload: Payload, answers: nat -> Result)
      returns (result: Result)
      modifies this`log
      ensures !BroadcastAllowed(target, scope) ==> result.Failure? && log == old(log)
      ensures BroadcastAllowed(target, scope) ==>
        var e := BroadcastEnvelope(setup, target, scope, payload);
        (log, result) == After(old(log), Perform(Planned(setup, e, None), answers, |old(log)|))
    {
      if !target.kind.ServiceReceiver? {
        return Failure("broadcast is not supported for this receiver type");
      }
      if scope.serviceType.Some? && scope.serviceType.value != AsU32(target.hi) {
        return Failure("broadcast scope service_type does not match target receiver");
      }
      var narrowed := scope.(serviceType := Some(AsU32(target.hi)));
      result := SendEnvelope(NewEnvelope(setup, Broadcast, target, narrowed, payload), None, answers);
    }
  }

  predicate BroadcastAllowed(target: ReceiverAddress, scope: Scope) {
    target.kind.ServiceReceiver? && (scope.serviceType.Some? ==> scope.serviceType.value == AsU32(target.hi))
  }

  function BroadcastEnvelope(s: Setup, target: ReceiverAddress, scope: Scope, payload: Payload): Envelope {
    NewEnvelope(s, Broadcast, target, scope.(serviceType := Some(AsU32(target.hi))), payload)
  }

  // ----- what a broadcast does -----

  predicate IsWanted(s: Setup, target: ReceiverAddress, scope: Scope, d: ProcessDescriptor) {
    && d.process.id.serviceType == AsU32(target.hi)
    && (scope.includeLocal || d.process != s.context.self)
    && HasLabels(d, scope.requiredLabels)
  }

  // A decision is what becomes of the envelope for its owner.
  ghost predicate Concerns(s: Setup, d: Decision, owner: ProcessRef, sent: Envelope) {
    match d
    case Do(effect) => Delivers(s, owner, sent, [], [effect], Success, Success)
    case Refuse(message) => Delivers(s, owner, sent, [], [], Failure(message), Success)
    case Fan(_, _) => false
  }

  // The direct envelope for one of several processes.
  function ForOne(e: Envelope, owner: ProcessRef): Envelope {
    Envelope(e.source, Direct, e.target, if e.target.kind.ProcessReceiver? then e.resolved else Some(owner), NO_SCOPE,
             e.payload)
  }

  lemma HopConcerns(s: Setup, e: Envelope, hop: Hop)
    ensures Concerns(s, Decide(s, ForHop(e, hop), Some(Single(hop.process))), hop.process, ForOne(e, hop.process))
  {
    SingleIsForOwner(s, ForHop(e, hop), hop.process);
    TargetDelivers(s, ForOne(e, hop.process), hop.process, _ => Success, []);
  }

  // An envelope for several processes is sent to each of them, in order.
  lemma MultiReachesEach(s: Setup, e: Envelope, owners: seq<ProcessRef>)
    requires e.semantic.Direct? && owners != []
    ensures var planned := Planned(s, e, Some(Location(MultiProcess, owners)));
            && |planned| == |owners|
            && forall i :: 0 <= i < |planned| ==> Concerns(s, planned[i], owners[i], ForOne(e, owners[i]))
  {
    var hops := HopsOf(s.context, owners);
    forall i | 0 <= i < |hops|
      ensures Concerns(s, PlannedHops(s, e, hops)[i], owners[i], ForOne(e, owners[i]))
    {
      PlannedHopAt(s, e, hops, i);
      HopConcerns(s, e, hops[i]);
    }
  }

  // The envelope of a broadcast as one member gets it.
  function ForMember(s: Setup, target: ReceiverAddress, payload: Payload, d: ProcessDescriptor): Envelope {
    Envelope(s.context.self, Direct, target, Some(d.process), NO_SCOPE, payload)
  }

  ghost predicate PlanFor(s: Setup, planned: seq<Decision>, target: ReceiverAddress, payload: Payload,
                          wanted: seq<ProcessDescriptor>)
  {
    && |planned| == |wanted|
    && forall i :: 0 <= i < |planned| ==>
         Concerns(s, planned[i], wanted[i].process, ForMember(s, target, payload, wanted[i]))
  }

  // The i-th decision of a broadcast concerns the i-th matching member.
  lemma BroadcastPlan(s: Setup, target: ReceiverAddress, scope: Scope, payload: Payload)
    requires BroadcastAllowed(target, scope) && s.context.members.Some?
    requires Matching(s.context, BroadcastEnvelope(s, target, scope, payload), s.context.members.value) != []
    ensures var e := BroadcastEnvelope(s, target, scope, payload);
            var wanted := Matching(s.context, e, s.context.members.value);
            var planned := Planned(s, e, None);
            PlanFor(s, planned, target, payload, wanted)
  {
    var e := BroadcastEnvelope(s, target, scope, payload);
    var wanted := Matching(s.context, e, s.context.members.value);
    var hops := HopsTo(s.context, wanted);
    assert Decide(s, e, None) == Fan(hops, e);
    forall i | 0 <= i < |hops|
      ensures Concerns(s, PlannedHops(s, e, hops)[i], wanted[i].process, ForMember(s, target, payload, wanted[i]))
    {
      PlannedHopAt(s, e, hops, i);
      HopConcerns(s, e, hops[i]);
    }
  }

  // Exactly the members of the service that have the labels are wanted, the sender itself only if the
  // scope includes it.
  lemma WantedMembers(s: Setup, target: ReceiverAddress, scope: Scope, payload: Payload)
    returns (wanted: seq<ProcessDescriptor>)
    requires BroadcastAllowed(target, scope) && s.context.members.Some? && DistinctMembers(s.context.members.value)
    ensures wanted == Matching(s.context, BroadcastEnvelope(s, target, scope, payload), s.context.members.value)
    ensures DistinctMembers(wanted)
    ensures forall d :: d in wanted <==> d in s.context.members.value && IsWanted(s, target, scope, d)
  {
    var e := BroadcastEnvelope(s, target, scope, payload);
    wanted := Matching(s.context, e, s.context.members.value);
    MatchingIsExact(s.context, e, s.context.members.value);
    MatchingIsDistinct(s.context, e, s.context.members.value);
  }

  // The members in the list are served in order: all of them if that succeeds, and otherwise the first ones,
  // up to the effect that failed or the member that cannot be reached.
  ghost predicate ServesInOrder(s: Setup, effects: seq<Effect>, result: Result, target: ReceiverAddress,
                                payload: Payload, wanted: seq<ProcessDescriptor>, answers: nat -> Result, at: nat)
  {
    && |effects| <= |wanted|
    && (forall i :: 0 <= i < |effects| ==>
          Concerns(s, Do(effects[i]), wanted[i].process, ForMember(s, target, payload, wanted[i])))
    && (result.Success? ==> |effects| == |wanted| && forall n :: at <= n < at + |effects| ==> answers(n).Success?)
    && (result.Failure? ==>
          if |effects| > 0 && answers(at + |effects| - 1).Failure? then result == answers(at + |effects| - 1)
          else
            |effects| < |wanted| &&
            Concerns(s, Refuse(result.message), wanted[|effects|].process,
                     ForMember(s, target, payload, wanted[|effects|])))
  }

  lemma PerformedServes(s: Setup, planned: seq<Decision>, target: ReceiverAddress, payload: Payload,
                        wanted: seq<ProcessDescriptor>, answers: nat -> Result, at: nat)
    requires PlanFor(s, planned, target, payload, wanted)
    ensures var (effects, result) := Perform(planned, answers, at);
            ServesInOrder(s, effects, result, target, payload, wanted, answers, at)
  {
    PerformedIsPrefix(planned, answers, at);
    var (effects, result) := Perform(planned, answers, at);
    forall i | 0 <= i < |effects|
      ensures Concerns(s, Do(effects[i]), wanted[i].process, ForMember(s, target, payload, wanted[i]))
    {
      assert planned[i] == Do(effects[i]);
    }
  }

  // A broadcast is delivered to the wanted members, each once and in order, with the given target and
  // payload. Without any wanted member, or without a view of the members, it is refused.
  lemma BroadcastReachesTheMatching(s: Setup, target: ReceiverAddress, scope: Scope, payload: Payload,
                                    answers: nat -> Result, at: nat)
    returns (wanted: seq<ProcessDescriptor>)
    requires BroadcastAllowed(target, scope)
    requires s.context.members.Some? ==> DistinctMembers(s.context.members.value)
    ensures DistinctMembers(wanted)
    ensures forall d ::
              d in wanted <==>
              s.context.members.Some? && d in s.context.members.value && IsWanted(s, target, scope, d)
    ensures var e := BroadcastEnvelope(s, target, scope, payload);
            var (effects, result) := Perform(Planned(s, e, None), answers, at);
            if wanted == [] then effects == [] && result == Failure(DROPPED)
            else ServesInOrder(s, effects, result, target, payload, wanted, answers, at)
  {
    wanted := [];
    if s.context.members.Some? {
      wanted := WantedMembers(s, target, scope, payload);
    }
    if wanted != [] {
      BroadcastPlan(s, target, scope, payload);
      PerformedServes(s, Planned(s, BroadcastEnvelope(s, target, scope, payload), None), target, payload, wanted,
                      answers, at);
    } else {
      NobodyWanted(s, target, scope, payload, answers, at);
    }
  }

  lemma NobodyWanted(s: Setup, target: ReceiverAddress, scope: Scope, payload: Payload, answers: nat -> Result, at: nat)
    requires BroadcastAllowed(target, scope)
    requires s.context.members.Some? ==>
               Matching(s.context, BroadcastEnvelope(s, target, scope, payload), s.context.members.value) == []
    ensures Perform(Planned(s, BroadcastEnvelope(s, target, scope, payload), None), answers, at) ==
            ([], Failure(DROPPED))
  {
    assert HopsTo(s.context, []) == [];
  }

  // ----- at the receivers -----

  // Whatever a messenger hands to its sender is a direct envelope.
  lemma OnlyDirectEnvelopesAreSent(s: Setup, e: Envelope, location: Option<Location>, i: nat)
    requires i < |Planned(s, e, location)| && Planned(s, e, location)[i].Do?
    ensures Planned(s, e, location)[i].effect.Handed? ==> Planned(s, e, location)[i].effect.envelope.semantic.Direct?
  {
    var d := Decide(s, e, location);
    if d.Fan? {
      PlannedHopAt(s, d.envelope, d.hops, i);
    }
  }

  // So no process that receives it fans it out again: it carries out at most one effect.
  lemma ReceiversDoNotFanOut(s: Setup, e: Envelope, location: Option<Location>, i: nat, receiver: Setup)
    requires i < |Planned(s, e, location)| && Planned(s, e, location)[i].Do? &&
             Planned(s, e, location)[i].effect.Handed?
    ensures var sent := Planned(s, e, location)[i].effect.envelope;
            !Decide(receiver, sent, IncomingLocation(receiver, sent)).Fan? &&
            |Planned(receiver, sent, IncomingLocation(receiver, sent))| == 1
  {
    OnlyDirectEnvelopesAreSent(s, e, location, i);
  }
}
