// The session service of one game process: it drives the repository, the lease service, the runtime
// and the IPC client. Each public method is proved against the function of PlayerView that says what
// it does to its player, and to leave the views of all other players alone.
module SessionService {
  import opened Common
  import opened Storage
  import opened PlayerView
  import opened GameServices
  import Leases

  // What the outside answers while a method runs: the clock, the lease server's replies to the acquire
  // and to a release, the servers of the player dataset and the garbage of a failed parse.
  datatype Outside = Outside(
    now: nat, token: string, acquire: Reply, release: Reply, weather: Weather, junk: PlayerData)

  // The views of all players at one moment.
  type AllViews = PlayerId -> View

  // Views that differ at one player at most.
  ghost predicate Changed(before: AllViews, after: AllViews, p: PlayerId, v: View) {
    after(p) == v && forall q: PlayerId :: q != p ==> after(q) == before(q)
  }

  // A list of distinct players, in the order the session map happens to give them.
  ghost predicate Distinct(players: seq<PlayerId>) {
    forall i, j :: 0 <= i < j < |players| ==> players[i] != players[j]
  }

  ghost predicate ExpiredIn(views: AllViews, expired: seq<PlayerId>, t: nat) {
    Distinct(expired) && forall p: PlayerId :: p in expired <==> Expired(views(p), t)
  }

  ghost predicate LostIn(views: AllViews, lost: seq<PlayerId>) {
    Distinct(lost) && forall p: PlayerId :: p in lost <==> LeaseLost(views(p))
  }

  // A release of player p during a sweep that started at time t.
  ghost function SweptOut(v: View, h: Host, t: nat, c: Connections, o: Outside): (View, Result) {
    ReleasePlayer(h, v, t, Under(c, o.weather))
  }

  // How many of the players in done were released.
  ghost function ReleasedCount(start: AllViews, done: seq<PlayerId>, h: Host, t: nat, c: Connections,
                               outside: PlayerId -> Outside): nat {
    if done == [] then 0
    else
      var p := done[|done| - 1];
      ReleasedCount(start, done[..|done| - 1], h, t, c, outside) +
      if SweptOut(start(p), h, t, c, outside(p)).1.Success? then 1 else 0
  }

  // A sweep in progress: each player in done was released once, starting from start.
  ghost predicate Swept(start: AllViews, now: AllViews, done: seq<PlayerId>, released: nat,
                        h: Host, t: nat, c: Connections, outside: PlayerId -> Outside)
  {
    && (forall p: PlayerId :: now(p) == if p in done then SweptOut(start(p), h, t, c, outside(p)).0 else start(p))
    && released == ReleasedCount(start, done, h, t, c, outside)
  }

  lemma SweptStep(start: AllViews, before: AllViews, after: AllViews, order: seq<PlayerId>, i: nat, released: nat,
                  h: Host, t: nat, c: Connections, outside: PlayerId -> Outside, ok: bool)
    requires i < |order| && Distinct(order)
    requires Swept(start, before, order[..i], released, h, t, c, outside)
    requires ok == SweptOut(before(order[i]), h, t, c, outside(order[i])).1.Success?
    requires Changed(before, after, order[i], SweptOut(before(order[i]), h, t, c, outside(order[i])).0)
    ensures Swept(start, after, order[..i + 1], if ok then released + 1 else released, h, t, c, outside)
  {
    SliceSnoc(order, i);
    assert order[..i + 1][..i] == order[..i];
  }

  function Replies(connected: bool, outside: PlayerId -> Outside): PlayerId -> Reply {
    (p: PlayerId) => Leases.EffectiveReply(connected, outside(p).release)
  }

  // The leases during a sweep that has dealt with the players in done: each of theirs was kept or given
  // back on its own, and all other players' keys and leases are as they were.
  ghost predicate SweptLeases(start: Leases.LeaseState, now: Leases.LeaseState, done: seq<PlayerId>, t: nat,
                              replies: PlayerId -> Reply)
  {
    forall p: PlayerId :: LeaseSweptAt(start, now, p in done, t, p, replies(p))
  }

  predicate LeaseSweptAt(start: Leases.LeaseState, now: Leases.LeaseState, swept: bool, t: nat, p: PlayerId,
                         reply: Reply) {
    var s := if swept then Leases.KeptOrGivenBack(start, p in now.table, t, p, reply) else start;
    Leases.SameAt(now.keys, s.keys, p) && Leases.SameAt(now.table, s.table, p)
  }

  lemma SweptLeasesStep(start: Leases.LeaseState, before: Leases.LeaseState, after: Leases.LeaseState,
                        order: seq<PlayerId>, i: nat, t: nat, replies: PlayerId -> Reply)
    requires i < |order| && Distinct(order) && SweptLeases(start, before, order[..i], t, replies)
    requires after == Leases.KeptOrGivenBack(before, order[i] in after.table, t, order[i], replies(order[i]))
    ensures SweptLeases(start, after, order[..i + 1], t, replies)
  {
    SliceSnoc(order, i);
    var p := order[i];
    assert LeaseSweptAt(start, before, false, t, p, replies(p));
    KeptOrGivenBackAt(before, start, p in after.table, t, p, replies(p));
    forall q: PlayerId
      ensures LeaseSweptAt(start, after, q in order[..i + 1], t, q, replies(q))
    {
      if q != p {
        assert LeaseSweptAt(start, before, q in order[..i], t, q, replies(q));
        KeptOrGivenBackElsewhere(before, p in after.table, t, p, replies(p), q);
      }
    }
  }

  lemma KeptOrGivenBackElsewhere(s: Leases.LeaseState, kept: bool, t: nat, p: PlayerId, reply: Reply, q: PlayerId)
    requires q != p
    ensures var s' := Leases.KeptOrGivenBack(s, kept, t, p, reply);
            Leases.SameAt(s'.keys, s.keys, q) && Leases.SameAt(s'.table, s.table, q)
  {
  }

  // Giving back a lease reads nothing but that player's own key and lease.
  lemma KeptOrGivenBackAt(a: Leases.LeaseState, b: Leases.LeaseState, kept: bool, t: nat, p: PlayerId, reply: Reply)
    requires Leases.SameAt(a.keys, b.keys, p) && Leases.SameAt(a.table, b.table, p)
    ensures var a', b' := Leases.KeptOrGivenBack(a, kept, t, p, reply), Leases.KeptOrGivenBack(b, kept, t, p, reply);
            Leases.SameAt(a'.keys, b'.keys, p) && Leases.SameAt(a'.table, b'.table, p)
  {
  }

  // A reconcile in progress: each player in done had lost its lease and was dealt with.
  ghost predicate Reconciled(start: AllViews, now: AllViews, done: seq<PlayerId>, kicked: seq<PlayerId>, h: Host,
                             t: nat) {
    && (forall p: PlayerId :: now(p) == if p in done then Reconcile(h, start(p), t) else start(p))
    && (forall p: PlayerId :: p in kicked <==> p in done && Kicks(start(p)))
  }

  lemma ReconciledStep(start: AllViews, before: AllViews, after: AllViews, order: seq<PlayerId>, i: nat,
                       kicked: seq<PlayerId>, h: Host, t: nat)
    requires i < |order| && Distinct(order)
    requires Reconciled(start, before, order[..i], kicked, h, t)
    requires Changed(before, after, order[i], Reconcile(h, before(order[i]), t))
    ensures Reconciled(start, after, order[..i + 1],
                       if Kicks(before(order[i])) then kicked + [order[i]] else kicked, h, t)
  {
    SliceSnoc(order, i);
    var p := order[i];
    var kicked' := if Kicks(before(p)) then kicked + [p] else kicked;
    forall q: PlayerId
      ensures q in kicked' <==> q in order[..i + 1] && Kicks(start(q))
    {
      if q != p {
        assert q in kicked' <==> q in kicked;
      }
    }
  }

  // One more element of a list of distinct players.
  lemma SliceSnoc(order: seq<PlayerId>, i: nat)
    requires i < |order| && Distinct(order)
    ensures forall q :: q in order[..i + 1] <==> q in order[..i] || q == order[i]
    ensures order[i] !in order[..i]
  {
    assert order[..i + 1] == order[..i] + [order[i]];
  }

  // Whether the gate of a session that has lost its lease is told to unbind the player.
  predicate Kicks(v: View) {
    v.session.Some? && v.session.value.state.Online? && FullGate(v.session.value.gate)
  }

  lemma UnbindIgnoresLease(h: Host, v: View)
    ensures UnbindLocal(h, v.(leased := false)).0 == UnbindLocal(h, v).0.(leased := false)
  {
  }

  class PlayerSessionService {
    const repository: PlayerRepository
    const lease: Leases.PlayerLeaseService
    const runtime: PlayerRuntimeService
    const ipc: GameIpcClientService
    const detachedTtlSeconds: nat
    var players: map<PlayerId, Session>

    constructor (repository: PlayerRepository, lease: Leases.PlayerLeaseService, runtime: PlayerRuntimeService,
                 ipc: GameIpcClientService, detachedTtlSeconds: nat)
      ensures this.repository == repository && this.lease == lease && this.runtime == runtime && this.ipc == ipc
      ensures this.detachedTtlSeconds == detachedTtlSeconds && players == map[]
    {
      this.repository, this.lease, this.runtime, this.ipc := repository, lease, runtime, ipc;
      this.detachedTtlSeconds, players := detachedTtlSeconds, map[];
    }

    // The runtime looks records up in the session's repository.
    ghost predicate Wired() {
      runtime.repository == repository
    }

    function ViewOf(p: PlayerId): View
      reads this, repository, repository.storage, runtime, ipc, lease
    {
      View(Lookup(players, p), repository.RecordOf(p), runtime.RunningOf(p),
           p in ipc.host, ipc.BoundOf(p), p in lease.leases, repository.CellOf(p))
    }

    function HostNow(): Host
    {
      Host(ipc.self, detachedTtlSeconds)
    }

    method ActivatePlayer(p: PlayerId, gate: Gate, allowCreate: bool, o: Outside)
      returns (result: Result, ghost granted: Result)
      requires Wired()
      modifies this`players, repository`players, repository.storage`redis, runtime`players, ipc`host, ipc`directory,
               lease`leases, lease`counters, lease.redis`keys
      ensures (ViewOf(p), result) ==
        Activate(HostNow(), old(ViewOf(p)), p, gate, allowCreate,
                 Env(o.now, granted, repository.storage.WeatherNow(o.weather), o.junk))
      ensures LeaseTaken(p, o, old(ViewOf(p)), old(lease.StateNow()), granted)
      ensures forall q :: q != p ==> ViewOf(q) == old(ViewOf(q))
    {
      if p !in players {
        result, granted := ActivateNew(p, gate, allowCreate, o);
        return;
      }
      var s := players[p];
      if (s.state.Online? || s.state.Detached?) && !lease.IsHeldLocally(p) {
        result, granted := ActivateLost(p, gate, allowCreate, o);
        return;
      }
      result := ActivateHeld(p, gate, o.now);
      granted := Success;
    }

    // A session whose lease is held, or that is in transition.
    method ActivateHeld(p: PlayerId, gate: Gate, now: nat) returns (result: Result)
      requires !AsksForLease(ViewOf(p))
      modifies this`players
      ensures forall allowCreate, e: Env | e.now == now ::
                (ViewOf(p), result) == Activate(HostNow(), old(ViewOf(p)), p, gate, allowCreate, e)
      ensures forall q :: q != p ==> ViewOf(q) == old(ViewOf(q))
    {
      var s := players[p];
      match s.state {
        case Online =>
          players := players[p := s.(gate := gate, lastStateChangeMs := now, activateCount := s.activateCount + 1)];
          result := Success;
        case Detached =>
          players := players[p := Session(Online, gate, s.activateCount + 1, now, 0)];
          result := Success;
        case _ =>
          result := TRANSITIONING;
      }
    }

    method ActivateLost(p: PlayerId, gate: Gate, allowCreate: bool, o: Outside)
      returns (result: Result, ghost granted: Result)
      requires Wired() && LeaseLost(ViewOf(p))
      modifies this`players, repository`players, repository.storage`redis, runtime`players, ipc`host, ipc`directory,
               lease`leases, lease`counters, lease.redis`keys
      ensures (ViewOf(p), result) ==
        Reactivate(HostNow(), old(ViewOf(p)), p, gate, allowCreate,
                 Env(o.now, granted, repository.storage.WeatherNow(o.weather), o.junk))
      ensures LeaseTaken(p, o, old(ViewOf(p)), old(lease.StateNow()), granted)
      ensures forall q :: q != p ==> ViewOf(q) == old(ViewOf(q))
    {
      result, granted := TakeLease(p, o);
      if result.Success? {
        result := RecoverPlayer(p, gate, allowCreate, o);
      }
    }

    method ActivateNew(p: PlayerId, gate: Gate, allowCreate: bool, o: Outside)
      returns (result: Result, ghost granted: Result)
      requires Wired() && ViewOf(p).session.None?
      modifies this`players, repository`players, repository.storage`redis, runtime`players, ipc`host, ipc`directory,
               lease`leases, lease`counters, lease.redis`keys
      ensures (ViewOf(p), result) ==
        ActivateFresh(HostNow(), old(ViewOf(p)), p, gate, allowCreate,
                 Env(o.now, granted, repository.storage.WeatherNow(o.weather), o.junk))
      ensures LeaseTaken(p, o, old(ViewOf(p)), old(lease.StateNow()), granted)
      ensures forall q :: q != p ==> ViewOf(q) == old(ViewOf(q))
    {
      result, granted := TakeLease(p, o);
      if result.Success? {
        result := BringIn(p, gate, allowCreate, o);
      }
    }

    // What an activation of a player with view v did to the leases, starting from s: one that needs the
    // lease asked for it and was granted what the server granted; a lease that is not kept went back.
    ghost predicate LeaseTaken(p: PlayerId, o: Outside, v: View, s: Leases.LeaseState, granted: Result)
      reads lease, lease.redis
    {
      var taken :=
        if !AsksForLease(v) then s
        else Leases.Taken(lease.game, s, lease.redis.now, p, o.token, lease.Effective(o.acquire));
      && lease.StateNow() ==
         Leases.KeptOrGivenBack(taken, p in lease.leases, lease.redis.now, p, lease.Effective(o.release))
      && (AsksForLease(v) ==> (granted.Success? <==> lease.connected && p in taken.table))
      && (!AsksForLease(v) ==> granted == Success)
    }

    // The lease call of an activation.
    method TakeLease(p: PlayerId, o: Outside) returns (result: Result, ghost granted: Result)
      modifies lease`leases, lease.redis`keys
      ensures result == granted
      ensures ViewOf(p) == old(ViewOf(p)).(leased := old(ViewOf(p)).leased || result.Success?)
      ensures lease.StateNow() ==
        Leases.Taken(lease.game, old(lease.StateNow()), lease.redis.now, p, o.token, lease.Effective(o.acquire))
      ensures result.Success? <==> lease.connected && p in lease.leases
      ensures forall q :: q != p ==> ViewOf(q) == old(ViewOf(q))
    {
      result := lease.Acquire(p, o.token, o.acquire);
      granted := result;
    }

    method GiveLeaseBack(p: PlayerId, o: Outside)
      modifies lease`leases, lease`counters, lease.redis`keys
      ensures ViewOf(p) == old(ViewOf(p)).(leased := false)
      ensures lease.StateNow() ==
              Leases.GivenBack(old(lease.StateNow()), lease.redis.now, p, lease.Effective(o.release))
      ensures forall q :: q != p ==> ViewOf(q) == old(ViewOf(q))
    {
      var _ := lease.Release(p, o.release);
    }

    method LoadRecord(p: PlayerId, allowCreate: bool, o: Outside) returns (result: Result)
      modifies repository`players, repository.storage`redis
      ensures var v := old(ViewOf(p));
              var (r, c, res) := Load(p, v.record, v.cell, allowCreate, o.now, repository.storage.WeatherNow(o.weather),
                                      o.junk);
              ViewOf(p) == v.(record := Some(r), cell := c) && result == res
      ensures forall q :: q != p ==> ViewOf(q) == old(ViewOf(q))
    {
      result := repository.LoadPlayer(p, allowCreate, o.now, o.weather, o.junk);
    }

    method DropRecord(p: PlayerId) returns (result: Result)
      modifies repository`players
      ensures result == if old(ViewOf(p)).record.Some? then Success else NOT_IN_REPOSITORY
      ensures ViewOf(p) == old(ViewOf(p)).(record := None)
      ensures forall q :: q != p ==> ViewOf(q) == old(ViewOf(q))
    {
      result := repository.ReleasePlayer(p);
    }

    method BindHere(p: PlayerId) returns (result: Result)
      modifies ipc`host, ipc`directory
      ensures (ViewOf(p), result) == BindLocal(HostNow(), old(ViewOf(p)))
      ensures forall q :: q != p ==> ViewOf(q) == old(ViewOf(q))
    {
      result := ipc.BindLocalPlayer(p);
    }

    method UnbindHere(p: PlayerId) returns (result: Result)
      modifies ipc`host, ipc`directory
      ensures (ViewOf(p), result) == UnbindLocal(HostNow(), old(ViewOf(p)))
      ensures forall q :: q != p ==> ViewOf(q) == old(ViewOf(q))
    {
      result := ipc.UnbindLocalPlayer(p);
    }

    method StartRuntime(p: PlayerId) returns (result: Result)
      requires Wired()
      modifies runtime`players
      ensures (ViewOf(p), result) == EnsureRunning(old(ViewOf(p)))
      ensures forall q :: q != p ==> ViewOf(q) == old(ViewOf(q))
    {
      result := runtime.EnsurePlayer(p);
    }

    // The path of a player without a session, once the lease is taken.
    method BringIn(p: PlayerId, gate: Gate, allowCreate: bool, o: Outside) returns (result: Result)
      requires Wired() && ViewOf(p).session.None? && ViewOf(p).leased
      modifies this`players, repository`players, repository.storage`redis, runtime`players, ipc`host, ipc`directory,
               lease`leases, lease`counters, lease.redis`keys
      ensures (ViewOf(p), result) ==
        ActivateFresh(HostNow(), old(ViewOf(p)), p, gate, allowCreate,
                      Env(o.now, Success, repository.storage.WeatherNow(o.weather), o.junk))
      ensures lease.StateNow() == Leases.KeptOrGivenBack(old(lease.StateNow()), p in lease.leases, lease.redis.now, p,
                                                         lease.Effective(o.release))
      ensures forall q :: q != p ==> ViewOf(q) == old(ViewOf(q))
    {
      result := LoadRecord(p, allowCreate, o);
      if result.Failure? {
        GiveLeaseBack(p, o);
        return;
      }
      result := BindStartAndRecord(p, true, gate, o);
    }

    method BindStartAndRecord(p: PlayerId, isNew: bool, gate: Gate, o: Outside) returns (result: Result)
      requires Wired()
      modifies this`players, repository`players, runtime`players, ipc`host, ipc`directory, lease`leases, lease`counters,
               lease.redis`keys
      ensures (ViewOf(p), result) == Arrive(HostNow(), old(ViewOf(p)), isNew, gate, o.now)
      ensures lease.StateNow() == Leases.KeptOrGivenBack(old(lease.StateNow()), p in lease.leases, lease.redis.now, p,
                                                         lease.Effective(o.release))
      ensures forall q :: q != p ==> ViewOf(q) == old(ViewOf(q))
    {
      result := BindAndStart(p, isNew, o);
      if result.Success? {
        var count := if p in players then players[p].activateCount else 0;
        SetSession(p, Session(Online, gate, count + 1, o.now, 0));
      }
    }

    method BindAndStart(p: PlayerId, isNew: bool, o: Outside) returns (result: Result)
      requires Wired()
      modifies repository`players, runtime`players, ipc`host, ipc`directory, lease`leases, lease`counters,
               lease.redis`keys
      ensures (ViewOf(p), result) == Settle(HostNow(), old(ViewOf(p)), isNew)
      ensures lease.StateNow() == Leases.KeptOrGivenBack(old(lease.StateNow()), p in lease.leases, lease.redis.now, p,
                                                         lease.Effective(o.release))
      ensures forall q :: q != p ==> ViewOf(q) == old(ViewOf(q))
    {
      result := BindHere(p);
      if result.Failure? && result != ALREADY_BOUND {
        RollBack(p, false, isNew, o);
        return;
      }
      result := StartRuntime(p);
      if result.Failure? {
        RollBack(p, true, isNew, o);
      }
    }

    // The lease goes back first; that makes no difference to the unbinding.
    method RollBack(p: PlayerId, unbind: bool, isNew: bool, o: Outside)
      modifies repository`players, ipc`host, ipc`directory, lease`leases, lease`counters, lease.redis`keys
      ensures ViewOf(p) == GivenUp(if unbind then UnbindLocal(HostNow(), old(ViewOf(p))).0 else old(ViewOf(p)), isNew)
      ensures lease.StateNow() == Leases.KeptOrGivenBack(old(lease.StateNow()), p in lease.leases, lease.redis.now, p,
                                                         lease.Effective(o.release))
      ensures forall q :: q != p ==> ViewOf(q) == old(ViewOf(q))
    {
      UnbindIgnoresLease(HostNow(), ViewOf(p));
      GiveLeaseBack(p, o);
      if unbind {
        var _ := UnbindHere(p);
      }
      DropIfNew(p, isNew);
    }

    method DropIfNew(p: PlayerId, isNew: bool)
      modifies repository`players
      ensures ViewOf(p) == old(ViewOf(p)).(record := if isNew then None else old(ViewOf(p)).record)
      ensures forall q :: q != p ==> ViewOf(q) == old(ViewOf(q))
    {
      if isNew {
        var _ := DropRecord(p);
      }
    }

    // The path of a session that had lost its lease, once the lease is taken again.
    method RecoverPlayer(p: PlayerId, gate: Gate, allowCreate: bool, o: Outside) returns (result: Result)
      requires Wired() && LeaseLost(ViewOf(p).(leased := false)) && ViewOf(p).leased
      modifies this`players, repository`players, repository.storage`redis, runtime`players, ipc`host, ipc`directory,
               lease`leases, lease`counters, lease.redis`keys
      ensures (ViewOf(p), result) ==
        Reactivate(HostNow(), old(ViewOf(p)).(leased := false), p, gate, allowCreate,
                   Env(o.now, Success, repository.storage.WeatherNow(o.weather), o.junk))
      ensures lease.StateNow() == Leases.KeptOrGivenBack(old(lease.StateNow()), p in lease.leases, lease.redis.now, p,
                                                         lease.Effective(o.release))
      ensures forall q :: q != p ==> ViewOf(q) == old(ViewOf(q))
    {
      if p !in repository.players {
        result := LoadRecord(p, allowCreate, o);
        if result.Failure? {
          GiveLeaseBack(p, o);
          return;
        }
      }
      result := BindStartAndRecord(p, false, gate, o);
    }

    method SetSession(p: PlayerId, s: Session)
      modifies this`players
      ensures ViewOf(p) == old(ViewOf(p)).(session := Some(s))
      ensures forall q :: q != p ==> ViewOf(q) == old(ViewOf(q))
    {
      players := players[p := s];
    }

    method ClearSession(p: PlayerId)
      modifies this`players
      ensures ViewOf(p) == old(ViewOf(p)).(session := None)
      ensures forall q :: q != p ==> ViewOf(q) == old(ViewOf(q))
    {
      players := players - {p};
    }

    method StopRuntime(p: PlayerId)
      modifies runtime`players
      ensures ViewOf(p) == old(ViewOf(p)).(running := None)
      ensures forall q :: q != p ==> ViewOf(q) == old(ViewOf(q))
    {
      var _ := runtime.RemovePlayer(p);
    }

    // The flush of a release: only a dirty record is written.
    method FlushIfDirty(p: PlayerId, o: Outside) returns (result: Result)
      modifies repository`players, repository.storage`redis, repository.storage`table
      ensures var v := old(ViewOf(p));
              var (r, c, res) := if v.record.Some? && v.record.value.dirty
                                 then Flush(v.record, v.cell, o.now, repository.storage.WeatherNow(o.weather))
                                 else (v.record, v.cell, Success);
              ViewOf(p) == v.(record := r, cell := c) && result == res
      ensures forall q :: q != p ==> ViewOf(q) == old(ViewOf(q))
    {
      if p in repository.players && repository.players[p].dirty {
        result := repository.FlushPlayer(p, o.now, o.weather);
      } else {
        result := Success;
      }
    }

    // DetachPlayer; with a gate it is the overload that checks the gate first.
    method DetachFrom(p: PlayerId, gate: Option<Gate>, now: nat) returns (result: Result)
      modifies this`players
      ensures (ViewOf(p), result) == DetachPlayer(HostNow(), old(ViewOf(p)), gate, now)
      ensures forall q :: q != p ==> ViewOf(q) == old(ViewOf(q))
    {
      if p !in players {
        return NOT_TRACKED;
      }
      var s := players[p];
      if !s.state.Online? {
        return Failure("player is not online");
      }
      if gate.Some? && s.gate != gate.value {
        return Failure("player gate session does not match");
      }
      SetSession(p, s.(state := Detached, lastStateChangeMs := now,
                       detachDeadlineMs := now + detachedTtlSeconds * 1000, gate := NO_GATE));
      result := Success;
    }

    method Release(p: PlayerId, o: Outside) returns (result: Result)
      requires Wired()
      modifies this`players, repository`players, repository.storage`redis, repository.storage`table, runtime`players,
               ipc`host, ipc`directory, lease`leases, lease`counters, lease.redis`keys
      ensures (ViewOf(p), result) ==
        ReleasePlayer(HostNow(), old(ViewOf(p)), o.now, repository.storage.WeatherNow(o.weather))
      ensures lease.StateNow() == Leases.KeptOrGivenBack(old(lease.StateNow()), p in lease.leases, lease.redis.now, p,
                                                         lease.Effective(o.release))
      ensures forall q :: q != p ==> ViewOf(q) == old(ViewOf(q))
    {
      if p !in players {
        return NOT_TRACKED;
      }
      var previous := players[p];
      SetSession(p, previous.(state := Unloading, lastStateChangeMs := o.now));
      var flushed := FlushIfDirty(p, o);
      if flushed.Failure? {
        SetSession(p, previous);
        return FLUSH_FAILED;
      }
      result := TakeOut(p, o);
    }

    // The part of a release after the flush.
    method TakeOut(p: PlayerId, o: Outside) returns (result: Result)
      requires Wired()
      modifies this`players, repository`players, runtime`players, ipc`host, ipc`directory, lease`leases, lease`counters,
               lease.redis`keys
      ensures var (v, unbound) := UnbindLocal(HostNow(), old(ViewOf(p)));
              (ViewOf(p), result) ==
                if unbound.Failure? then (v, unbound)
                else if v.record.None? then (v.(running := None), NOT_IN_REPOSITORY)
                else (v.(running := None, record := None, leased := false, session := None), Success)
      ensures lease.StateNow() == Leases.KeptOrGivenBack(old(lease.StateNow()), p in lease.leases, lease.redis.now, p,
                                                         lease.Effective(o.release))
      ensures forall q :: q != p ==> ViewOf(q) == old(ViewOf(q))
    {
      result := UnbindHere(p);
      if result.Failure? {
        return;
      }
      StopRuntime(p);
      result := DropRecord(p);
      if result.Failure? {
        return;
      }
      GiveLeaseBack(p, o);
      ClearSession(p);
    }

    // All views at once, as a value.
    ghost function Views(): AllViews
      reads this, repository, repository.storage, runtime, ipc, lease
    {
      var views := imap p: PlayerId :: ViewOf(p);
      (p: PlayerId) => views[p]
    }

    method ReleaseInSweep(p: PlayerId, o: Outside, ghost c: Connections) returns (ok: bool)
      requires Wired() && repository.storage.ConnectionsNow() == c
      modifies this`players, repository`players, repository.storage`redis, repository.storage`table, runtime`players,
               ipc`host, ipc`directory, lease`leases, lease`counters, lease.redis`keys
      ensures repository.storage.ConnectionsNow() == c
      ensures ok == SweptOut(old(Views())(p), HostNow(), o.now, c, o).1.Success?
      ensures Changed(old(Views()), Views(), p, SweptOut(old(Views())(p), HostNow(), o.now, c, o).0)
      ensures lease.StateNow() == Leases.KeptOrGivenBack(old(lease.StateNow()), p in lease.leases, lease.redis.now, p,
                                                         lease.Effective(o.release))
    {
      var result := Release(p, o);
      ok := result.Success?;
    }

    method SweepNext(ghost start: AllViews, expired: seq<PlayerId>, i: nat, released: nat,
                     ghost h: Host, now: nat, ghost c: Connections, outside: PlayerId -> Outside)
      returns (released': nat)
      requires Wired() && h == HostNow() && repository.storage.ConnectionsNow() == c
      requires i < |expired| && Distinct(expired) && outside(expired[i]).now == now
      requires Swept(start, Views(), expired[..i], released, h, now, c, outside)
      modifies this`players, repository`players, repository.storage`redis, repository.storage`table, runtime`players,
               ipc`host, ipc`directory, lease`leases, lease`counters, lease.redis`keys
      ensures repository.storage.ConnectionsNow() == c
      ensures Swept(start, Views(), expired[..i + 1], released', h, now, c, outside)
      ensures lease.StateNow() ==
        Leases.KeptOrGivenBack(old(lease.StateNow()), expired[i] in lease.leases, lease.redis.now, expired[i],
                               lease.Effective(outside(expired[i]).release))
    {
      var p := expired[i];
      ghost var before := Views();
      var ok := ReleaseInSweep(p, outside(p), c);
      SweptStep(start, before, Views(), expired, i, released, h, now, c, outside, ok);
      released' := if ok then released + 1 else released;
    }

    // The same for the leases.
    method SweepOn(ghost start: AllViews, ghost leases: Leases.LeaseState, expired: seq<PlayerId>, i: nat,
                   released: nat, ghost h: Host, now: nat, ghost c: Connections, outside: PlayerId -> Outside)
      returns (released': nat)
      requires Wired() && h == HostNow() && repository.storage.ConnectionsNow() == c
      requires i < |expired| && Distinct(expired) && outside(expired[i]).now == now
      requires Swept(start, Views(), expired[..i], released, h, now, c, outside)
      requires SweptLeases(leases, lease.StateNow(), expired[..i], lease.redis.now, Replies(lease.connected, outside))
      modifies this`players, repository`players, repository.storage`redis, repository.storage`table, runtime`players,
               ipc`host, ipc`directory, lease`leases, lease`counters, lease.redis`keys
      ensures repository.storage.ConnectionsNow() == c
      ensures Swept(start, Views(), expired[..i + 1], released', h, now, c, outside)
      ensures SweptLeases(leases, lease.StateNow(), expired[..i + 1], lease.redis.now,
                          Replies(lease.connected, outside))
    {
      ghost var held, replies := lease.StateNow(), Replies(lease.connected, outside);
      released' := SweepNext(start, expired, i, released, h, now, c, outside);
      SweptLeasesStep(leases, held, lease.StateNow(), expired, i, lease.redis.now, replies);
    }

    // Releases every player whose detach deadline has passed; each ends as if released alone.
    method ExpireDetachedPlayers(now: nat, outside: PlayerId -> Outside)
      returns (released: nat, ghost expired: seq<PlayerId>)
      requires Wired() && forall p :: outside(p).now == now
      modifies this`players, repository`players, repository.storage`redis, repository.storage`table, runtime`players,
               ipc`host, ipc`directory, lease`leases, lease`counters, lease.redis`keys
      ensures ExpiredIn(old(Views()), expired, now)
      ensures Swept(old(Views()), Views(), expired, released, HostNow(), now, repository.storage.ConnectionsNow(),
                    outside)
      ensures SweptLeases(old(lease.StateNow()), lease.StateNow(), expired, lease.redis.now,
                          Replies(lease.connected, outside))
    {
      ghost var start, h, c := Views(), HostNow(), repository.storage.ConnectionsNow();
      ghost var leases := lease.StateNow();
      var due := ExpiredPlayers(now);
      expired := due;
      released := 0;
      for i := 0 to |due|
        invariant repository.storage.ConnectionsNow() == c
        invariant Swept(start, Views(), due[..i], released, h, now, c, outside)
        invariant SweptLeases(leases, lease.StateNow(), due[..i], lease.redis.now, Replies(lease.connected, outside))
      {
        released := SweepOn(start, leases, due, i, released, h, now, c, outside);
      }
      assert due[..|due|] == due;
    }

    method ExpiredPlayers(now: nat) returns (expired: seq<PlayerId>)
      ensures ExpiredIn(Views(), expired, now)
    {
      expired := Listed(set p | p in players && players[p].state.Detached? &&
                                players[p].detachDeadlineMs != 0 && players[p].detachDeadlineMs <= now);
    }

    // Every session that has lost its lease is unbound and an online one becomes detached; kicked are
    // the players whose gate is told.
    method ReconcileLeaseLosses(now: nat) returns (reconciled: nat, kicked: seq<PlayerId>, ghost lost: seq<PlayerId>)
      modifies this`players, ipc`host, ipc`directory
      ensures LostIn(old(Views()), lost) && reconciled == |lost|
      ensures Reconciled(old(Views()), Views(), lost, kicked, HostNow(), now)
    {
      ghost var start, h := Views(), HostNow();
      var losers := LostPlayers();
      lost := losers;
      kicked := [];
      reconciled := 0;
      for i := 0 to |losers|
        invariant reconciled == i
        invariant Reconciled(start, Views(), losers[..i], kicked, h, now)
      {
        kicked := ReconcileNext(now, start, losers, i, kicked, h);
        reconciled := reconciled + 1;
      }
      assert losers[..|losers|] == losers;
    }

    method ReconcileNext(now: nat, ghost start: AllViews, losers: seq<PlayerId>, i: nat, kicked: seq<PlayerId>,
                         ghost h: Host)
      returns (kicked': seq<PlayerId>)
      requires h == HostNow() && i < |losers| && LostIn(start, losers)
      requires Reconciled(start, Views(), losers[..i], kicked, h, now)
      modifies this`players, ipc`host, ipc`directory
      ensures Reconciled(start, Views(), losers[..i + 1], kicked', h, now)
    {
      var p := losers[i];
      ghost var before := Views();
      assert p in losers && p !in losers[..i];
      kicked' := if players[p].state.Online? && FullGate(players[p].gate) then kicked + [p] else kicked;
      ReconcilePlayer(p, now);
      ReconciledStep(start, before, Views(), losers, i, kicked, h, now);
    }

    method LostPlayers() returns (lost: seq<PlayerId>)
      ensures LostIn(Views(), lost)
    {
      lost := Listed(set p | p in players && (players[p].state.Online? || players[p].state.Detached?) &&
                     !lease.IsHeldLocally(p));
    }

    static method Listed(elements: set<PlayerId>) returns (order: seq<PlayerId>)
      ensures Distinct(order) && forall p :: p in order <==> p in elements
    {
      order := [];
      var rest := elements;
      while rest != {}
        invariant Distinct(order) && rest <= elements
        invariant forall p :: p in order <==> p in elements && p !in rest
        decreases rest
      {
        var p :| p in rest;
        order := order + [p];
        rest := rest - {p};
      }
    }

    method ReconcilePlayer(p: PlayerId, now: nat)
      requires LeaseLost(ViewOf(p))
      modifies this`players, ipc`host, ipc`directory
      ensures Changed(old(Views()), Views(), p, Reconcile(HostNow(), old(Views())(p), now))
    {
      ReconcileAlone(p, now);
    }

    method ReconcileAlone(p: PlayerId, now: nat)
      requires LeaseLost(ViewOf(p))
      modifies this`players, ipc`host, ipc`directory
      ensures ViewOf(p) == Reconcile(HostNow(), old(ViewOf(p)), now)
      ensures forall q :: q != p ==> ViewOf(q) == old(ViewOf(q))
    {
      var s := players[p];
      var _ := UnbindHere(p);
      if s.state.Online? {
        SetSession(p, s.(state := Detached, lastStateChangeMs := now,
                         detachDeadlineMs := now + detachedTtlSeconds * 1000, gate := NO_GATE));
      }
    }

    // A forwarded player message behind its three guards.
    method ForwardMessage(p: PlayerId, m: Message, now: nat) returns (answer: Answer)
      requires Wired()
      modifies runtime`players, repository`players
      ensures (ViewOf(p), answer) == Forward(old(ViewOf(p)), m, now)
      ensures forall q :: q != p ==> ViewOf(q) == old(ViewOf(q))
    {
      if p !in players {
        return PlayerNotFound;
      }
      if !players[p].state.Online? {
        return SessionExpired;
      }
      if !lease.IsHeldLocally(p) {
        return HeldByOtherGame;
      }
      answer := runtime.Handle(p, m, now);
    }
  }

  predicate FullGate(g: Gate) {
    g.serviceType != 0 && g.instanceId != 0 && g.sessionId != 0
  }
}
