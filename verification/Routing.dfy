// The routing decision of a process for one envelope: deliver here, hand to the target, hand to a relay,
// or fan out to the matching members of a service.
module Routing {
  import opened Common
  import opened TextForms
  import opened Membership

  // ----- envelopes -----

  datatype Semantic = Direct | Broadcast
  datatype Scope = Scope(serviceType: Option<U32>, requiredLabels: seq<(string, string)>, includeLocal: bool)

  const NO_SCOPE := Scope(None, [], true)

  datatype Payload = Payload(typeUrl: string, bytes: seq<nat>)
  datatype Envelope = Envelope(
    source: ProcessRef, semantic: Semantic, target: ReceiverAddress, resolved: Option<ProcessRef>,
    scope: Scope, payload: Payload)

  datatype LocationKind = AtHome | SingleProcess | MultiProcess | Unresolved
  datatype Location = Location(kind: LocationKind, processes: seq<ProcessRef>)

  function Single(process: ProcessRef): Location {
    Location(SingleProcess, [process])
  }

  // ----- what a process knows -----

  // members in the order in which the membership view lists them; links are the processes it has an
  // active link to. Either view may be missing.
  datatype Context = Context(
    self: ProcessRef, relayType: U32, members: Option<seq<ProcessDescriptor>>, links: Option<set<ProcessRef>>)

  datatype Hop = Hop(process: ProcessRef, direct: bool)
  datatype Plan = LocalDelivery | NextHop(hop: Hop) | FanOut(hops: seq<Hop>) | Unreachable | Drop

  function AsU32(n: nat): U32 {
    n % TWO_TO_32
  }

  predicate OfService(serviceType: U32, d: ProcessDescriptor) {
    d.process.id.serviceType == serviceType
  }

  function FindByService(members: seq<ProcessDescriptor>, serviceType: U32): seq<ProcessDescriptor> {
    if members == [] then []
    else
      var n := |members| - 1;
      FindByService(members[..n], serviceType) + if OfService(serviceType, members[n]) then [members[n]] else []
  }

  function Find(members: seq<ProcessDescriptor>, id: ProcessId): (found: Option<ProcessDescriptor>)
    ensures found.Some? ==> found.value in members && found.value.process.id == id
    ensures found.None? ==> forall d :: d in members ==> d.process.id != id
  {
    if members == [] then None
    else if members[0].process.id == id then Some(members[0])
    else Find(members[1..], id)
  }

  // ----- one target -----

  // Deliver here, or hand over directly, or through the first relay that is not this process.
  function ResolveSingleTarget(c: Context, target: ProcessRef): Plan {
    if target == c.self then LocalDelivery
    else if c.links.Some? && target in c.links.value then NextHop(Hop(target, true))
    else if c.members.None? then Unreachable
    else
      var relay := FirstOther(FindByService(c.members.value, c.relayType), c.self);
      if relay.Some? then NextHop(Hop(relay.value, false)) else Unreachable
  }

  function FirstOther(relays: seq<ProcessDescriptor>, self: ProcessRef): (r: Option<ProcessRef>)
    ensures r.Some? ==> r.value != self && exists d :: d in relays && d.process == r.value
    ensures r.None? ==> forall d :: d in relays ==> d.process == self
  {
    if relays == [] then None
    else if relays[0].process != self then Some(relays[0].process)
    else FirstOther(relays[1..], self)
  }

  // The i-th of the members is the first with the property.
  ghost predicate IsFirst(members: seq<ProcessDescriptor>, i: int, f: ProcessDescriptor -> bool) {
    0 <= i < |members| && f(members[i]) && forall j :: 0 <= j < i ==> !f(members[j])
  }

  ghost function IsRelay(c: Context): ProcessDescriptor -> bool {
    (d: ProcessDescriptor) => d.process.id.serviceType == c.relayType && d.process != c.self
  }

  // The relay in use is the first member of the relay service that is not this process.
  lemma {:induction false} FirstRelay(c: Context, members: seq<ProcessDescriptor>)
    ensures var relay := FirstOther(FindByService(members, c.relayType), c.self);
            && (forall i :: IsFirst(members, i, IsRelay(c)) ==> relay == Some(members[i].process))
            && (relay.None? <==> forall i :: 0 <= i < |members| ==> !IsRelay(c)(members[i]))
  {
    if members != [] {
      var n := |members| - 1;
      var before := FindByService(members[..n], c.relayType);
      FirstRelay(c, members[..n]);
      if OfService(c.relayType, members[n]) {
        FirstOtherSnoc(before, members[n], c.self);
      } else {
        assert FindByService(members, c.relayType) == before;
      }
      forall i | IsFirst(members, i, IsRelay(c)) && i < n
        ensures IsFirst(members[..n], i, IsRelay(c))
      {
      }
      assert forall i :: 0 <= i < n ==> members[..n][i] == members[i];
    }
  }

  lemma {:induction false} FirstOtherSnoc(relays: seq<ProcessDescriptor>, last: ProcessDescriptor, self: ProcessRef)
    ensures FirstOther(relays + [last], self) ==
            if FirstOther(relays, self).Some? then FirstOther(relays, self)
            else if last.process != self then Some(last.process) else None
  {
    if relays != [] {
      assert (relays + [last])[1..] == relays[1..] + [last];
      FirstOtherSnoc(relays[1..], last, self);
    }
  }

  // ----- broadcasts -----

  predicate HasLabels(d: ProcessDescriptor, required: seq<(string, string)>) {
    forall l :: l in required ==> l in d.labels
  }

  method MatchesLabels(d: ProcessDescriptor, required: seq<(string, string)>) returns (matches: bool)
    ensures matches <==> HasLabels(d, required)
  {
    for i := 0 to |required|
      invariant forall l :: l in required[..i] ==> l in d.labels
    {
      var matched := false;
      for j := 0 to |d.labels|
        invariant !matched && required[i] !in d.labels[..j]
      {
        if d.labels[j].0 == required[i].0 && d.labels[j].1 == required[i].1 {
          matched := true;
          break;
        }
      }
      assert d.labels[..|d.labels|] == d.labels;
      if !matched {
        assert required[i] in required;
        return false;
      }
    }
    matches := true;
  }

  predicate Matches(c: Context, e: Envelope, d: ProcessDescriptor) {
    && OfService(ScopeService(e), d)
    && (e.scope.includeLocal || d.process != c.self)
    && HasLabels(d, e.scope.requiredLabels)
  }

  function ScopeService(e: Envelope): U32 {
    if e.scope.serviceType.Some? then e.scope.serviceType.value else AsU32(e.target.hi)
  }

  // The matching members, in their order.
  function Matching(c: Context, e: Envelope, members: seq<ProcessDescriptor>): seq<ProcessDescriptor> {
    if members == [] then []
    else
      var n := |members| - 1;
      Matching(c, e, members[..n]) + if Matches(c, e, members[n]) then [members[n]] else []
  }

  lemma {:induction false} MatchingIsExact(c: Context, e: Envelope, members: seq<ProcessDescriptor>)
    ensures forall d :: d in Matching(c, e, members) <==> d in members && Matches(c, e, d)
  {
    if members != [] {
      var n := |members| - 1;
      MatchingIsExact(c, e, members[..n]);
      assert members == members[..n] + [members[n]];
    }
  }

  ghost predicate DistinctMembers(members: seq<ProcessDescriptor>) {
    forall i, j :: 0 <= i < j < |members| ==> members[i].process.id != members[j].process.id
  }

  lemma {:induction false} MatchingIsDistinct(c: Context, e: Envelope, members: seq<ProcessDescriptor>)
    requires DistinctMembers(members)
    ensures DistinctMembers(Matching(c, e, members))
  {
    if members != [] {
      var n := |members| - 1;
      MatchingIsDistinct(c, e, members[..n]);
      MatchingIsExact(c, e, members[..n]);
      var before := Matching(c, e, members[..n]);
      forall i | 0 <= i < |before|
        ensures before[i].process.id != members[n].process.id
      {
        assert before[i] in members[..n];
      }
    }
  }

  lemma {:induction false} MatchingOfService(c: Context, e: Envelope, members: seq<ProcessDescriptor>)
    ensures Matching(c, e, FindByService(members, ScopeService(e))) == Matching(c, e, members)
  {
    if members != [] {
      var n := |members| - 1;
      MatchingOfService(c, e, members[..n]);
      var before := FindByService(members[..n], ScopeService(e));
      if OfService(ScopeService(e), members[n]) {
        assert (before + [members[n]])[..|before|] == before;
      } else {
        assert FindByService(members, ScopeService(e)) == before;
        assert Matching(c, e, members) == Matching(c, e, members[..n]);
      }
    }
  }

  function HopsTo(c: Context, members: seq<ProcessDescriptor>): seq<Hop> {
    seq(|members|, i requires 0 <= i < |members| => Hop(members[i].process, members[i].process == c.self))
  }

  function ResolveBroadcast(c: Context, e: Envelope): Plan {
    if c.members.None? || !e.target.kind.ServiceReceiver? then Drop
    else
      var hops := HopsTo(c, Matching(c, e, c.members.value));
      if hops == [] then Drop else FanOut(hops)
  }

  method ExpandBroadcast(c: Context, e: Envelope) returns (plan: Plan)
    ensures plan == ResolveBroadcast(c, e)
  {
    if c.members.None? || !e.target.kind.ServiceReceiver? {
      return Drop;
    }
    var hops: seq<Hop> := [];
    var processes := FindByService(c.members.value, ScopeService(e));
    for i := 0 to |processes|
      invariant hops == HopsTo(c, Matching(c, e, processes[..i]))
    {
      var process := processes[i];
      FoundAreOfService(c.members.value, ScopeService(e), process);
      MatchingNext(c, e, processes, i);
      if !e.scope.includeLocal && process.process == c.self {
        continue;
      }
      var labelled := MatchesLabels(process, e.scope.requiredLabels);
      if !labelled {
        continue;
      }
      hops := hops + [Hop(process.process, process.process == c.self)];
    }
    assert processes[..|processes|] == processes;
    MatchingOfService(c, e, c.members.value);
    plan := if hops == [] then Drop else FanOut(hops);
  }

  lemma MatchingNext(c: Context, e: Envelope, processes: seq<ProcessDescriptor>, i: nat)
    requires i < |processes|
    ensures Matching(c, e, processes[..i + 1]) ==
            Matching(c, e, processes[..i]) + if Matches(c, e, processes[i]) then [processes[i]] else []
  {
    assert processes[..i + 1][..i] == processes[..i];
  }

  lemma {:induction false} FoundAreOfService(members: seq<ProcessDescriptor>, serviceType: U32, d: ProcessDescriptor)
    ensures d in FindByService(members, serviceType) <==> d in members && OfService(serviceType, d)
  {
    if members != [] {
      var n := |members| - 1;
      FoundAreOfService(members[..n], serviceType, d);
      assert members == members[..n] + [members[n]];
    }
  }

  // ----- the whole decision -----

  // The process a process-addressed envelope is for: with the incarnation the membership knows, or 0.
  function ProcessTarget(c: Context, target: ReceiverAddress): (p: ProcessRef)
    ensures p.id == ProcessId(AsU32(target.hi), AsU32(target.lo))
  {
    var id := ProcessId(AsU32(target.hi), AsU32(target.lo));
    var found := if c.members.Some? then Find(c.members.value, id) else None;
    if found.Some? then found.value.process else ProcessRef(id, 0)
  }

  ghost function HasId(id: ProcessId): ProcessDescriptor -> bool {
    (d: ProcessDescriptor) => d.process.id == id
  }

  // The process with an id, as a context knows it: the first member with it, or incarnation 0.
  ghost predicate IsKnownAs(c: Context, id: ProcessId, p: ProcessRef) {
    && (c.members.Some? ==> forall i :: IsFirst(c.members.value, i, HasId(id)) ==> p == c.members.value[i].process)
    && (c.members.None? || (forall d :: d in c.members.value ==> d.process.id != id) ==> p == ProcessRef(id, 0))
  }

  lemma TargetIsKnown(c: Context, target: ReceiverAddress)
    ensures IsKnownAs(c, ProcessId(AsU32(target.hi), AsU32(target.lo)), ProcessTarget(c, target))
  {
    if c.members.Some? {
      FoundIsFirst(c.members.value, ProcessId(AsU32(target.hi), AsU32(target.lo)));
    }
  }

  lemma {:induction false} FoundIsFirst(members: seq<ProcessDescriptor>, id: ProcessId)
    ensures forall i :: IsFirst(members, i, HasId(id)) ==> Find(members, id) == Some(members[i])
  {
    if members != [] {
      FoundIsFirst(members[1..], id);
      forall i | IsFirst(members, i, HasId(id)) && i > 0
        ensures IsFirst(members[1..], i - 1, HasId(id)) && members[1..][i - 1] == members[i]
      {
      }
    }
  }

  function HopsOf(c: Context, processes: seq<ProcessRef>): seq<Hop> {
    seq(|processes|, i requires 0 <= i < |processes| => Hop(processes[i], processes[i] == c.self))
  }

  function ResolveByAddress(c: Context, e: Envelope): Plan {
    if e.target.kind.ProcessReceiver? then ResolveSingleTarget(c, ProcessTarget(c, e.target)) else Drop
  }

  function Resolve(c: Context, e: Envelope, location: Option<Location>): Plan {
    if e.semantic.Broadcast? then ResolveBroadcast(c, e)
    else if location.None? then ResolveByAddress(c, e)
    else
      var l := location.value;
      match l.kind
      case AtHome => LocalDelivery
      case SingleProcess => if l.processes != [] then ResolveSingleTarget(c, l.processes[0]) else ResolveByAddress(c, e)
      case MultiProcess => if l.processes != [] then FanOut(HopsOf(c, l.processes)) else ResolveByAddress(c, e)
      case Unresolved => Drop
  }

  method ResolveRoute(c: Context, e: Envelope, location: Option<Location>) returns (plan: Plan)
    ensures plan == Resolve(c, e, location)
  {
    if e.semantic.Broadcast? {
      plan := ExpandBroadcast(c, e);
      return;
    }
    if location.Some? {
      var l := location.value;
      match l.kind {
        case AtHome => return LocalDelivery;
        case SingleProcess =>
          if l.processes != [] {
            return ResolveSingleTarget(c, l.processes[0]);
          }
        case MultiProcess =>
          var hops := [];
          for i := 0 to |l.processes|
            invariant hops == HopsOf(c, l.processes[..i])
          {
            hops := hops + [Hop(l.processes[i], l.processes[i] == c.self)];
          }
          assert l.processes[..|l.processes|] == l.processes;
          if hops != [] {
            return FanOut(hops);
          }
        case Unresolved => return Drop;
      }
    }
    if e.target.kind.ProcessReceiver? {
      return ResolveSingleTarget(c, ProcessTarget(c, e.target));
    }
    plan := Drop;
  }

  // A direct envelope fans out only where the directory names several processes.
  lemma OnlyBroadcastAndMultiFanOut(c: Context, e: Envelope, location: Option<Location>)
    ensures Resolve(c, e, location).FanOut? ==>
              e.semantic.Broadcast? ||
                (location.Some? && location.value.kind.MultiProcess? && location.value.processes != [])
    ensures e.semantic.Broadcast? ==> Resolve(c, e, location).FanOut? || Resolve(c, e, location).Drop?
  {
  }
}
