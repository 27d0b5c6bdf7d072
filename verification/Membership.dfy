// Process membership as etcd discovery keeps it: snapshots replace the member map and queue the events
// that lead from the old map to the new one, while registering and removing write the map silently.
module Membership {
  import opened Common

  datatype Endpoint = Endpoint(host: string, port: U16)
  datatype ProcessDescriptor = ProcessDescriptor(
    process: ProcessRef, serviceName: string, listenEndpoint: Endpoint, protocolVersion: U32,
    startTimeUnixMs: U64, labels: seq<(string, string)>, relayCapabilities: seq<U32>)

  type Key = U64
  type Members = map<Key, ProcessDescriptor>

  // The service type in the upper and the instance in the lower 32 bits.
  function MakeKey(id: ProcessId): Key {
    id.serviceType * TWO_TO_32 + id.instanceId
  }

  lemma KeysAreDistinct(a: ProcessId, b: ProcessId)
    requires MakeKey(a) == MakeKey(b)
    ensures a == b
  {
    assert MakeKey(a) / TWO_TO_32 == a.serviceType && MakeKey(b) / TWO_TO_32 == b.serviceType;
  }

  function KeyOf(d: ProcessDescriptor): Key {
    MakeKey(d.process.id)
  }

  ghost predicate WellKeyed(m: Members) {
    forall k :: k in m ==> k == KeyOf(m[k])
  }

  // ----- events -----

  datatype EventType = Added | Updated | Removed
  datatype Event = Event(kind: EventType, process: ProcessDescriptor)

  // What an event makes of the entry of its key.
  function Effect(e: Event): Option<ProcessDescriptor> {
    if e.kind.Removed? then None else Some(e.process)
  }

  // A consumer that applies events to a map, one after the other.
  function Replay(m: Members, events: seq<Event>): Members {
    if events == [] then m
    else
      var before, e := Replay(m, events[..|events| - 1]), events[|events| - 1];
      if e.kind.Removed? then before - {KeyOf(e.process)} else before[KeyOf(e.process) := e.process]
  }

  lemma {:induction false} ReplayAppend(m: Members, a: seq<Event>, b: seq<Event>)
    ensures Replay(m, a + b) == Replay(Replay(m, a), b)
  {
    if b == [] {
      assert a + b == a;
    } else {
      assert (a + b)[..|a + b| - 1] == a + b[..|b| - 1];
      ReplayAppend(m, a, b[..|b| - 1]);
    }
  }

  lemma ReplaySnoc(m: Members, events: seq<Event>, e: Event)
    ensures forall k ::
              Lookup(Replay(m, events + [e]), k) ==
              if k == KeyOf(e.process) then Effect(e) else Lookup(Replay(m, events), k)
  {
    assert (events + [e])[..|events|] == events;
  }

  // ----- the diff of two snapshots -----

  // What the diff says of one key, if anything.
  function Change(previous: Members, current: Members, k: Key): Option<Event> {
    if k in current then
      if k !in previous then Some(Event(Added, current[k]))
      else if previous[k] != current[k] then Some(Event(Updated, current[k]))
      else None
    else if k in previous then Some(Event(Removed, previous[k]))
    else None
  }

  // The events are the changes of the keys, each once, in some order.
  ghost predicate IsDiff(previous: Members, current: Members, events: seq<Event>) {
    && (forall i :: 0 <= i < |events| ==> Change(previous, current, KeyOf(events[i].process)) == Some(events[i]))
    && (forall i, j :: 0 <= i < j < |events| ==> KeyOf(events[i].process) != KeyOf(events[j].process))
    && (forall k :: Change(previous, current, k).Some? ==> Mentions(events, k))
  }

  ghost predicate Mentions(events: seq<Event>, k: Key) {
    exists i :: 0 <= i < |events| && KeyOf(events[i].process) == k
  }

  // Replaying events with distinct keys: the entry of a key is what its event makes of it.
  lemma {:induction false} ReplayAt(m: Members, events: seq<Event>, k: Key)
    requires forall i, j :: 0 <= i < j < |events| ==> KeyOf(events[i].process) != KeyOf(events[j].process)
    ensures !Mentions(events, k) ==> Lookup(Replay(m, events), k) == Lookup(m, k)
    ensures forall i :: 0 <= i < |events| && KeyOf(events[i].process) == k ==>
              Lookup(Replay(m, events), k) == Effect(events[i])
  {
    if events != [] {
      var n := |events| - 1;
      var before, e := events[..n], events[n];
      assert events == before + [e];
      ReplayAt(m, before, k);
      ReplaySnoc(m, before, e);
      if Mentions(before, k) {
        var i :| 0 <= i < n && KeyOf(before[i].process) == k;
        assert KeyOf(events[i].process) == k;
      }
      if KeyOf(e.process) == k {
        assert Mentions(events, k);
      }
    }
  }

  // Replaying a diff over any map gives the current entry at every changed key and leaves the others.
  lemma DiffAt(m: Members, previous: Members, current: Members, events: seq<Event>, k: Key)
    requires IsDiff(previous, current, events)
    ensures Lookup(Replay(m, events), k) ==
            if Change(previous, current, k).Some? then Lookup(current, k) else Lookup(m, k)
  {
    ReplayAt(m, events, k);
    if Change(previous, current, k).Some? {
      assert Mentions(events, k);
    }
  }

  // The diff leads from the previous map exactly to the current one.
  lemma DiffReplays(previous: Members, current: Members, events: seq<Event>)
    requires IsDiff(previous, current, events)
    ensures Replay(previous, events) == current
  {
    var r := Replay(previous, events);
    forall k: Key
      ensures Lookup(r, k) == Lookup(current, k)
    {
      DiffAt(previous, previous, current, events, k);
    }
    assert forall k :: k in r <==> Lookup(r, k).Some?;
    assert forall k :: k in current <==> Lookup(current, k).Some?;
    assert forall k :: k in r ==> Lookup(r, k) == Some(r[k]) && Lookup(current, k) == Some(current[k]);
  }

  // What an event tells: an added member was not there and is, an updated one was there with other data, a
  // removed one is not there any more; the descriptor is the one it has now, or had last.
  predicate Tells(previous: Members, current: Members, e: Event) {
    var before, now := Lookup(previous, KeyOf(e.process)), Lookup(current, KeyOf(e.process));
    match e.kind
    case Added => before.None? && now == Some(e.process)
    case Updated => before.Some? && before != now && now == Some(e.process)
    case Removed => before == Some(e.process) && now.None?
  }

  // The events of a diff tell the truth, and exactly the members that are not the same before and after are
  // mentioned.
  lemma DiffTells(previous: Members, current: Members, events: seq<Event>)
    requires IsDiff(previous, current, events)
    ensures forall i :: 0 <= i < |events| ==> Tells(previous, current, events[i])
    ensures forall k :: Mentions(events, k) <==> Lookup(previous, k) != Lookup(current, k)
  {
    forall k: Key
      ensures Mentions(events, k) <==> Lookup(previous, k) != Lookup(current, k)
    {
      if Mentions(events, k) {
        var i :| 0 <= i < |events| && KeyOf(events[i].process) == k;
        assert Change(previous, current, k) == Some(events[i]);
      }
    }
  }

  // A diff as far as it concerns the keys that were visited.
  ghost predicate DiffOfKeys(previous: Members, current: Members, keys: set<Key>, events: seq<Event>) {
    && (forall i :: 0 <= i < |events| ==>
          KeyOf(events[i].process) in keys && Change(previous, current, KeyOf(events[i].process)) == Some(events[i]))
    && (forall i, j :: 0 <= i < j < |events| ==> KeyOf(events[i].process) != KeyOf(events[j].process))
    && (forall k :: k in keys && Change(previous, current, k).Some? ==> Mentions(events, k))
  }

  lemma OneMoreKey(previous: Members, current: Members, keys: set<Key>, key: Key, events: seq<Event>)
    requires WellKeyed(previous) && WellKeyed(current)
    requires DiffOfKeys(previous, current, keys, events) && key !in keys
    ensures var change := Change(previous, current, key);
            DiffOfKeys(previous, current, keys + {key}, if change.Some? then events + [change.value] else events)
  {
    var change := Change(previous, current, key);
    var events' := if change.Some? then events + [change.value] else events;
    forall k | k in keys + {key} && Change(previous, current, k).Some?
      ensures Mentions(events', k)
    {
      if k == key {
        assert KeyOf(events'[|events|].process) == k;
      } else {
        var i :| 0 <= i < |events| && KeyOf(events[i].process) == k;
        assert KeyOf(events'[i].process) == k;
      }
    }
  }

  // The events a list has grown by.
  predicate Grew(before: seq<Event>, after: seq<Event>) {
    |before| <= |after| && after[..|before|] == before
  }

  // First the new map is gone through for added and updated members, then the old one for removed
  // members, each in an order of the map's own.
  method QueueDiffEvents(previous: Members, current: Members, events: seq<Event>) returns (events': seq<Event>)
    requires WellKeyed(previous) && WellKeyed(current)
    ensures Grew(events, events') && IsDiff(previous, current, events'[|events|..])
  {
    events' := QueuePresent(previous, current, events);
    events' := QueueRemoved(previous, current, events, events');
  }

  method QueuePresent(previous: Members, current: Members, events: seq<Event>) returns (events': seq<Event>)
    requires WellKeyed(previous) && WellKeyed(current)
    ensures Grew(events, events') && DiffOfKeys(previous, current, current.Keys, events'[|events|..])
  {
    events' := events;
    ghost var delta: seq<Event> := [];
    var rest := current.Keys;
    ghost var visited: set<Key> := {};
    while rest != {}
      invariant rest <= current.Keys && visited == current.Keys - rest
      invariant events' == events + delta && DiffOfKeys(previous, current, visited, delta)
      decreases rest
    {
      var key :| key in rest;
      var process := current[key];
      OneMoreKey(previous, current, visited, key, delta);
      if key !in previous {
        events', delta := events' + [Event(Added, process)], delta + [Event(Added, process)];
      } else if previous[key] != process {
        events', delta := events' + [Event(Updated, process)], delta + [Event(Updated, process)];
      }
      rest, visited := rest - {key}, visited + {key};
    }
    assert visited == current.Keys && events'[|events|..] == delta;
  }

  method QueueRemoved(previous: Members, current: Members, ghost first: seq<Event>, events: seq<Event>)
    returns (events': seq<Event>)
    requires WellKeyed(previous) && WellKeyed(current)
    requires Grew(first, events) && DiffOfKeys(previous, current, current.Keys, events[|first|..])
    ensures Grew(first, events') && IsDiff(previous, current, events'[|first|..])
  {
    events' := events;
    ghost var delta := events[|first|..];
    var rest := previous.Keys;
    ghost var visited := current.Keys;
    while rest != {}
      invariant rest <= previous.Keys && visited == current.Keys + (previous.Keys - rest)
      invariant events' == first + delta && DiffOfKeys(previous, current, visited, delta)
      decreases rest
    {
      var key :| key in rest;
      if key !in current {
        OneMoreKey(previous, current, visited, key, delta);
        events', delta := events' + [Event(Removed, previous[key])], delta + [Event(Removed, previous[key])];
      }
      rest, visited := rest - {key}, visited + {key};
    }
    assert events'[|first|..] == delta;
    DiffOfAllKeys(previous, current, visited, delta);
  }

  lemma DiffOfAllKeys(previous: Members, current: Members, keys: set<Key>, events: seq<Event>)
    requires DiffOfKeys(previous, current, keys, events) && keys == current.Keys + previous.Keys
    ensures IsDiff(previous, current, events)
  {
  }

  // ----- a consumer over a whole run -----

  // A consumer that has replayed these events knows every member whose key is not among the silent ones.
  ghost predicate InStep(m: Members, events: seq<Event>, silent: set<Key>) {
    forall k :: k !in silent ==> Lookup(Replay(map[], events), k) == Lookup(m, k)
  }

  // A snapshot brings the consumer up to date on every member it changes, and on no other.
  lemma SnapshotKeepsInStep(m: Members, m': Members, events: seq<Event>, delta: seq<Event>, silent: set<Key>)
    requires InStep(m, events, silent) && IsDiff(m, m', delta)
    ensures InStep(m', events + delta, set k | k in silent && Change(m, m', k).None?)
    ensures forall k :: Change(m, m', k).None? ==>
              && Lookup(Replay(map[], events + delta), k) == Lookup(Replay(map[], events), k)
              && Lookup(m', k) == Lookup(m, k)
  {
    ReplayAppend(map[], events, delta);
    forall k: Key
      ensures Lookup(Replay(map[], events + delta), k) ==
              if Change(m, m', k).Some? then Lookup(m', k) else Lookup(Replay(map[], events), k)
    {
      DiffAt(Replay(map[], events), m, m', delta, k);
    }
  }

  // What a process registers for itself is never announced as long as the snapshots agree with it.
  lemma OwnRegistrationStaysSilent(m: Members, self: ProcessDescriptor, events: seq<Event>, delta: seq<Event>)
    requires InStep(m, events, {}) && KeyOf(self) !in m
    requires IsDiff(m[KeyOf(self) := self], m[KeyOf(self) := self], delta)
    ensures Lookup(Replay(map[], events + delta), KeyOf(self)) == None
  {
    var m' := m[KeyOf(self) := self];
    SnapshotKeepsInStep(m', m', events, delta, {KeyOf(self)});
  }

  // ----- the service -----

  datatype Stats = Stats(refreshFailures: nat)

  // What the backend answers to one registration: two grants, two puts, as far as they are asked for.
  datatype Grant = Granted(id: U64) | Refused(message: string)
  datatype Registration = Registration(grant: Grant, put: Result, secondGrant: Grant, secondPut: Result)

  // A snapshot as read from the backend: unreadable, or a list of values each of which may not parse.
  datatype Reading = Unreadable(message: string) | Values(values: seq<Option<ProcessDescriptor>>)

  const BAD_VALUE := Failure("member value does not parse")

  class EtcdDiscovery {
    const leaseTtlSeconds: U32
    var processes: Members
    var events: seq<Event>
    var self: Option<ProcessDescriptor>
    var leaseId: U64
    var stats: Stats
    ghost var drained: seq<Event>  // all that DrainEvents has handed out
    ghost var silent: set<Key>     // keys written without an event since the last event about them

    ghost predicate Valid()
      reads this
    {
      WellKeyed(processes) && InStep(processes, drained + events, silent)
    }

    constructor (leaseTtlSeconds: U32)
      ensures Valid() && processes == map[] && events == [] && self == None && leaseId == 0
      ensures drained == [] && silent == {} && this.leaseTtlSeconds == leaseTtlSeconds
    {
      this.leaseTtlSeconds := leaseTtlSeconds;
      processes, events, self, leaseId, stats, drained, silent := map[], [], None, 0, Stats(0), [], {};
    }

    method ApplySnapshot(refreshed: Members)
      requires Valid() && WellKeyed(refreshed)
      modifies this`processes, this`events, this`silent
      ensures Valid() && processes == refreshed
      ensures exists delta :: IsDiff(old(processes), refreshed, delta) && events == old(events) + delta
      ensures silent == set k | k in old(silent) && Change(old(processes), refreshed, k).None?
    {
      SnapshotIsInStep(refreshed);
      ghost var before := events;
      events := QueueDiffEvents(processes, refreshed, events);
      assert events == before + events[|before|..];
      silent := set k | k in silent && Change(processes, refreshed, k).None?;
      processes := refreshed;
    }

    lemma SnapshotIsInStep(refreshed: Members)
      requires Valid() && WellKeyed(refreshed)
      ensures forall delta :: IsDiff(processes, refreshed, delta) ==>
                InStep(refreshed, drained + (events + delta),
                       set k | k in silent && Change(processes, refreshed, k).None?)
    {
      forall delta | IsDiff(processes, refreshed, delta)
        ensures InStep(refreshed, drained + (events + delta),
                       set k | k in silent && Change(processes, refreshed, k).None?)
      {
        SnapshotKeepsInStep(processes, refreshed, drained + events, delta, silent);
        assert drained + events + delta == drained + (events + delta);
      }
    }

    method DrainEvents() returns (out: seq<Event>)
      requires Valid()
      modifies this`events, this`drained
      ensures Valid() && out == old(events) && events == [] && drained == old(drained) + out
    {
      out := events;
      drained := drained + events;
      events := [];
      assert drained + events == old(drained) + old(events);
    }

    // The values of a snapshot as a map; of two members with the same key the later one counts.
    static method ParseSnapshot(values: seq<Option<ProcessDescriptor>>) returns (refreshed: Option<Members>)
      ensures refreshed.Some? <==> None !in values
      ensures refreshed.Some? ==>
                WellKeyed(refreshed.value) && forall k :: Lookup(refreshed.value, k) == LastWith(values, k)
    {
      var m: Members := map[];
      for i := 0 to |values|
        invariant None !in values[..i] && WellKeyed(m)
        invariant forall k :: Lookup(m, k) == LastWith(values[..i], k)
      {
        if values[i].None? {
          return None;
        }
        assert values[..i + 1] == values[..i] + [values[i]];
        m := m[KeyOf(values[i].value) := values[i].value];
      }
      assert values[..|values|] == values;
      refreshed := Some(m);
    }

    // A refresh that fails at any point changes nothing but a counter.
    method RefreshSnapshot(reading: Reading) returns (result: Result)
      requires Valid()
      modifies this`processes, this`events, this`silent, this`stats
      ensures Valid()
      ensures result.Success? <==> reading.Values? && None !in reading.values
      ensures result.Success? ==> stats == old(stats) && forall k :: Lookup(processes, k) == LastWith(reading.values, k)
      ensures !result.Success? ==> stats.refreshFailures == old(stats.refreshFailures) + 1 &&
                                   processes == old(processes) && events == old(events) && silent == old(silent)
    {
      match reading {
        case Unreadable(message) =>
          stats := Stats(stats.refreshFailures + 1);
          return Failure(message);
        case Values(values) =>
          var refreshed := ParseSnapshot(values);
          if refreshed.None? {
            stats := Stats(stats.refreshFailures + 1);
            return BAD_VALUE;
          }
          ApplySnapshot(refreshed.value);
          result := Success;
      }
    }

    // Registers with a lease when there is a time to live; a put that fails is tried once more with a
    // new lease. The own record goes into the map without an event.
    method RegisterSelf(me: ProcessDescriptor, answers: Registration) returns (result: Result)
      requires Valid()
      modifies this`processes, this`self, this`leaseId, this`silent
      ensures Valid()
      ensures result.Success? <==>
        && (leaseTtlSeconds > 0 && old(leaseId) == 0 ==> answers.grant.Granted?)
        && (answers.put.Success? || (leaseTtlSeconds > 0 && answers.secondGrant.Granted? && answers.secondPut.Success?))
      ensures result.Success? ==>
        processes == old(processes)[KeyOf(me) := me] && self == Some(me) && silent == old(silent) + {KeyOf(me)}
      ensures !result.Success? ==> processes == old(processes) && self == old(self) && silent == old(silent)
      ensures leaseId == LeaseAfter(old(leaseId), answers)
    {
      if leaseTtlSeconds > 0 && leaseId == 0 {
        match answers.grant {
          case Granted(id) => leaseId := id;
          case Refused(message) => return Failure(message);
        }
      }
      var put := answers.put;
      if !put.Success? && leaseTtlSeconds > 0 {
        leaseId := 0;
        match answers.secondGrant {
          case Granted(id) => leaseId := id;
          case Refused(message) => return Failure(message);
        }
        put := answers.secondPut;
      }
      if !put.Success? {
        return put;
      }
      self := Some(me);
      processes := processes[KeyOf(me) := me];
      silent := silent + {KeyOf(me)};
      result := Success;
    }

    // The lease in use after a registration: granted where there was none, given up when the put fails,
    // and granted anew for the second put.
    function LeaseAfter(before: U64, answers: Registration): U64
      reads this
    {
      var granting := leaseTtlSeconds > 0 && before == 0;
      if granting && answers.grant.Refused? then before
      else if leaseTtlSeconds > 0 && answers.put.Failure? then
        if answers.secondGrant.Granted? then answers.secondGrant.id else 0
      else if granting then answers.grant.id
      else before
    }

    method KeepAliveOnce(answer: Result) returns (result: Result)
      modifies this`leaseId
      ensures old(leaseId) == 0 ==> !result.Success? && leaseId == 0
      ensures old(leaseId) != 0 ==> result == answer && leaseId == if answer.Success? then old(leaseId) else 0
    {
      if leaseId == 0 {
        return Failure("lease not initialized");
      }
      if !answer.Success? {
        leaseId := 0;
      }
      result := answer;
    }

    method Remove(id: ProcessId, answer: Result) returns (result: Result)
      requires Valid()
      modifies this`processes, this`self, this`leaseId, this`silent
      ensures Valid() && result == answer
      ensures !answer.Success? ==>
        processes == old(processes) && self == old(self) && leaseId == old(leaseId) && silent == old(silent)
      ensures answer.Success? ==>
        && processes == old(processes) - {MakeKey(id)} && silent == old(silent) + {MakeKey(id)}
        && (if old(self).Some? && old(self).value.process.id == id then self == None && leaseId == 0
            else self == old(self) && leaseId == old(leaseId))
    {
      if !answer.Success? {
        return answer;
      }
      processes := processes - {MakeKey(id)};
      silent := silent + {MakeKey(id)};
      if self.Some? && self.value.process.id == id {
        self, leaseId := None, 0;
      }
      result := Success;
    }

    method Find(id: ProcessId) returns (found: Option<ProcessDescriptor>)
      requires Valid()
      ensures found == Lookup(processes, MakeKey(id)) && (found.Some? ==> found.value.process.id == id)
    {
      if MakeKey(id) !in processes {
        return None;
      }
      found := Some(processes[MakeKey(id)]);
      KeysAreDistinct(found.value.process.id, id);
    }
  }

  // The last of the values with a key.
  function LastWith(values: seq<Option<ProcessDescriptor>>, k: Key): Option<ProcessDescriptor> {
    if values == [] then None
    else
      var last := values[|values| - 1];
      if last.Some? && KeyOf(last.value) == k then last else LastWith(values[..|values| - 1], k)
  }

  lemma {:induction false} LastWithIsLast(values: seq<Option<ProcessDescriptor>>, k: Key)
    ensures LastWith(values, k).None? <==>
              forall i :: 0 <= i < |values| && values[i].Some? ==> KeyOf(values[i].value) != k
    ensures LastWith(values, k).Some? ==>
              exists i :: 0 <= i < |values| && values[i] == LastWith(values, k) && KeyOf(values[i].value) == k &&
                          forall j :: i < j < |values| && values[j].Some? ==> KeyOf(values[j].value) != k
  {
    if values != [] {
      var n := |values| - 1;
      LastWithIsLast(values[..n], k);
      if !(values[n].Some? && KeyOf(values[n].value) == k) && LastWith(values[..n], k).Some? {
        var i :| 0 <= i < n && values[..n][i] == LastWith(values[..n], k) && KeyOf(values[..n][i].value) == k &&
                 forall j :: i < j < n && values[..n][j].Some? ==> KeyOf(values[..n][j].value) != k;
        assert values[i] == values[..n][i];
        assert forall j :: i < j < n ==> values[j] == values[..n][j];
      }
      assert forall j :: 0 <= j < n ==> values[j] == values[..n][j];
    }
  }
}
