// Player leases. One game's lease service keeps a map of the players it tracks and talks to a Redis
// server through three commands; this module gives those commands, the service's operations as
// functions of (Redis keys, tracked leases), and the service itself as a class proved against them.
module Leases {
  import opened Common
  import opened TextForms

  // ----- the Redis side -----

  // A key with the moment its time to live runs out. An entry stays in the map after that moment, as
  // garbage nobody can read, until a later SET overwrites it. Redis holds the text of an owner
  // (TextForms.BuildValue); the model holds the owner itself, which compares the same because
  // TextForms.BuildValueInjective says that equal texts are texts of equal owners.
  datatype Entry = Entry(value: LeaseOwner, expiresAt: nat)
  type Keys = map<PlayerId, Entry>

  predicate Live(keys: Keys, now: nat, p: PlayerId) {
    p in keys && now < keys[p].expiresAt
  }

  predicate Holds(keys: Keys, now: nat, p: PlayerId, value: LeaseOwner) {
    Live(keys, now, p) && keys[p].value == value
  }

  // SET key value NX PX ttl; the answer is whether the key was set. Redis refuses a zero ttl.
  function SetNxPx(keys: Keys, now: nat, p: PlayerId, value: LeaseOwner, ttl: nat): (Keys, bool) {
    if ttl == 0 || Live(keys, now, p) then (keys, false)
    else (keys[p := Entry(value, now + ttl)], true)
  }

  // The refresh script: extend the key only while it still carries the caller's value. A zero ttl
  // makes PEXPIRE delete the key and still answer 1.
  function EvalRefresh(keys: Keys, now: nat, p: PlayerId, value: LeaseOwner, ttl: nat): (Keys, bool) {
    if !Holds(keys, now, p, value) then (keys, false)
    else if ttl == 0 then (keys - {p}, true)
    else (keys[p := Entry(value, now + ttl)], true)
  }

  // The release script: delete the key only while it still carries the caller's value.
  function EvalRelease(keys: Keys, now: nat, p: PlayerId, value: LeaseOwner): Keys {
    if Holds(keys, now, p, value) then keys - {p} else keys
  }

  class RedisServer {
    var now: nat
    var keys: Keys

    constructor ()
      ensures now == 0 && keys == map[]
    {
      now, keys := 0, map[];
    }

    method Set(p: PlayerId, value: LeaseOwner, ttl: nat, reply: Reply) returns (answer: Option<bool>)
      modifies this`keys
      ensures keys == if reply.Executed() then SetNxPx(old(keys), now, p, value, ttl).0 else old(keys)
      ensures answer == if reply.Answered? then Some(SetNxPx(old(keys), now, p, value, ttl).1) else None
    {
      var result := SetNxPx(keys, now, p, value, ttl);
      keys := if reply.Executed() then result.0 else keys;
      answer := if reply.Answered? then Some(result.1) else None;
    }

    method Refresh(p: PlayerId, value: LeaseOwner, ttl: nat, reply: Reply) returns (answer: Option<bool>)
      modifies this`keys
      ensures keys == if reply.Executed() then EvalRefresh(old(keys), now, p, value, ttl).0 else old(keys)
      ensures answer == if reply.Answered? then Some(EvalRefresh(old(keys), now, p, value, ttl).1) else None
    {
      var result := EvalRefresh(keys, now, p, value, ttl);
      keys := if reply.Executed() then result.0 else keys;
      answer := if reply.Answered? then Some(result.1) else None;
    }

    // The answer is the number of deleted keys; any integer counts as success.
    method Release(p: PlayerId, value: LeaseOwner, reply: Reply) returns (answered: bool)
      modifies this`keys
      ensures keys == if reply.Executed() then EvalRelease(old(keys), now, p, value) else old(keys)
      ensures answered == reply.Answered?
    {
      keys := if reply.Executed() then EvalRelease(keys, now, p, value) else keys;
      answered := reply.Answered?;
    }
  }

  // ----- one game's tracked leases -----

  // refreshedAt is when Redis last answered a SET or a refresh of this lease with success, acquiredAt
  // when it answered the SET. The source keeps neither; they only record the history.
  datatype Tracked = Tracked(owner: LeaseOwner, acquiredAt: nat, refreshedAt: nat)
  type Table = map<PlayerId, Tracked>

  datatype Game = Game(serviceType: nat, instanceId: nat, ttl: nat)

  const HELD_ELSEWHERE := "player lease is already held by another game"
  const NO_REDIS := "redis player lease is unavailable"

  // The token comes from the player, the instance and the wall clock; nothing below depends on which.
  function OwnerOf(g: Game, token: string): LeaseOwner {
    LeaseOwner(g.serviceType, g.instanceId, token)
  }

  // One acquire call.
  function AcquireKeys(g: Game, keys: Keys, now: nat, t: Table, p: PlayerId, token: string, reply: Reply): Keys {
    if p in t || !reply.Executed() then keys
    else SetNxPx(keys, now, p, OwnerOf(g, token), g.ttl).0
  }

  function AcquireTable(g: Game, keys: Keys, now: nat, t: Table, p: PlayerId, token: string, reply: Reply): Table {
    if p in t || !reply.Answered? || Live(keys, now, p) || g.ttl == 0 then t
    else t[p := Tracked(OwnerOf(g, token), now, now)]
  }

  // One refresh of a tracked lease: it stays tracked only when Redis answers 1.
  predicate RefreshSucceeds(keys: Keys, now: nat, t: Table, p: PlayerId, reply: Reply)
    requires p in t
  {
    reply.Answered? && Holds(keys, now, p, t[p].owner)
  }

  function RefreshKeys(g: Game, keys: Keys, now: nat, t: Table, p: PlayerId, reply: Reply): Keys {
    if p !in t || !reply.Executed() then keys
    else EvalRefresh(keys, now, p, t[p].owner, g.ttl).0
  }

  function RefreshTable(keys: Keys, now: nat, t: Table, p: PlayerId, reply: Reply): Table {
    if p !in t then t
    else if RefreshSucceeds(keys, now, t, p, reply) then t[p := t[p].(refreshedAt := now)]
    else t - {p}
  }

  function ReleaseKeys(keys: Keys, now: nat, t: Table, p: PlayerId, reply: Reply): Keys {
    if p !in t || !reply.Executed() then keys
    else EvalRelease(keys, now, p, t[p].owner)
  }

  function EffectiveReply(connected: bool, reply: Reply): Reply {
    if connected then reply else Lost(false)
  }

  // Redis and one game's table together, and what taking and giving back a lease makes of them.
  datatype LeaseState = LeaseState(keys: Keys, table: Table)

  function Taken(g: Game, s: LeaseState, now: nat, p: PlayerId, token: string, reply: Reply): LeaseState {
    LeaseState(AcquireKeys(g, s.keys, now, s.table, p, token, reply),
               AcquireTable(g, s.keys, now, s.table, p, token, reply))
  }

  function GivenBack(s: LeaseState, now: nat, p: PlayerId, reply: Reply): LeaseState {
    LeaseState(ReleaseKeys(s.keys, now, s.table, p, reply), s.table - {p})
  }

  function KeptOrGivenBack(s: LeaseState, kept: bool, now: nat, p: PlayerId, reply: Reply): LeaseState {
    if kept then s else GivenBack(s, now, p, reply)
  }

  // Both leave every other player's key and lease alone.
  lemma OtherLeasesUntouched(g: Game, s: LeaseState, now: nat, p: PlayerId, token: string, reply: Reply, q: PlayerId)
    requires q != p
    ensures SameAt(Taken(g, s, now, p, token, reply).keys, s.keys, q)
    ensures SameAt(Taken(g, s, now, p, token, reply).table, s.table, q)
    ensures SameAt(GivenBack(s, now, p, reply).keys, s.keys, q)
    ensures SameAt(GivenBack(s, now, p, reply).table, s.table, q)
  {
  }

  // The game owns the key of a player it tracks, and the command that gives it back reaches Redis.
  predicate FreedBy(s: LeaseState, now: nat, p: PlayerId, reply: Reply)
    requires p in s.table
  {
    Holds(s.keys, now, p, s.table[p].owner) && reply.Executed()
  }

  // Giving back a lease whose command reaches Redis frees the key exactly if the game owned it, or nobody
  // did; another owner's key stays.
  lemma GivingBackFreesTheKey(s: LeaseState, now: nat, p: PlayerId, reply: Reply)
    requires p in s.table && reply.Executed()
    ensures var after := GivenBack(s, now, p, reply);
            && p !in after.table
            && (Live(after.keys, now, p) <==> Live(s.keys, now, p) && s.keys[p].value != s.table[p].owner)
            && (Live(after.keys, now, p) ==> after.keys[p] == s.keys[p])
  {
  }

  // A game that does not track a player is granted the lease by an answered acquire exactly if nobody owns
  // the key, and then owns it for a whole ttl.
  lemma TakingAFreeKey(g: Game, s: LeaseState, now: nat, p: PlayerId, token: string)
    requires p !in s.table
    ensures var after := Taken(g, s, now, p, token, Answered);
            && (p in after.table <==> !Live(s.keys, now, p) && g.ttl > 0)
            && (p in after.table ==>
                  && after.table[p] == Tracked(LeaseOwner(g.serviceType, g.instanceId, token), now, now)
                  && forall t: nat :: Holds(after.keys, t, p, after.table[p].owner) <==> t < now + g.ttl)
            && (p !in after.table ==> after == s)
  {
  }

  // Giving back a lease that is not tracked changes nothing.
  lemma NothingToGiveBack(s: LeaseState, now: nat, p: PlayerId, reply: Reply)
    requires p !in s.table
    ensures GivenBack(s, now, p, reply) == s
  {
    assert s.table - {p} == s.table;
  }

  // ----- the service -----

  datatype Counters = Counters(
    renewSuccess: int, renewFailure: int, localLoss: int, releaseSuccess: int, releaseFailure: int)

  function Renewed(c: Counters, successes: int, failures: int): Counters {
    c.(renewSuccess := c.renewSuccess + successes, renewFailure := c.renewFailure + failures)
  }

  function Released(c: Counters, successes: int, failures: int): Counters {
    c.(releaseSuccess := c.releaseSuccess + successes, releaseFailure := c.releaseFailure + failures)
  }

  class PlayerLeaseService {
    const game: Game
    const redis: RedisServer
    var connected: bool  // whether the service has a Redis connection
    var leases: Table
    var counters: Counters

    constructor (game: Game, redis: RedisServer, connected: bool)
      ensures this.game == game && this.redis == redis && this.connected == connected
      ensures leases == map[] && counters == Counters(0, 0, 0, 0, 0)
    {
      this.game, this.redis, this.connected := game, redis, connected;
      leases, counters := map[], Counters(0, 0, 0, 0, 0);
    }

    // Without a connection no command is sent, which is like a reply lost by a command that was not
    // executed.
    function Effective(reply: Reply): Reply
      reads this`connected
    {
      EffectiveReply(connected, reply)
    }

    function AllEffective(replies: PlayerId -> Reply): PlayerId -> Reply
      reads this`connected
    {
      if connected then replies else (_: PlayerId) => Lost(false)
    }

    function StateNow(): LeaseState
      reads this, redis
    {
      LeaseState(redis.keys, leases)
    }

    // Without a connection even a tracked lease is refused, and stays tracked.
    method Acquire(p: PlayerId, token: string, reply: Reply) returns (result: Result)
      modifies this`leases, redis`keys
      ensures redis.keys == AcquireKeys(game, old(redis.keys), redis.now, old(leases), p, token, Effective(reply))
      ensures leases == AcquireTable(game, old(redis.keys), redis.now, old(leases), p, token, Effective(reply))
      ensures result.Success? <==> connected && p in leases
      ensures !connected ==> result == Failure(NO_REDIS) && redis.keys == old(redis.keys) && leases == old(leases)
      ensures connected && reply.Answered? && !result.Success? ==> result == Failure(HELD_ELSEWHERE)
    {
      if !connected {
        return Failure(NO_REDIS);
      }
      if p in leases {
        return Success;
      }
      var owner := OwnerOf(game, token);
      var answer := redis.Set(p, owner, game.ttl, reply);
      if answer.None? {
        return Failure("redis SET failed");
      }
      if !answer.value {
        return Failure(HELD_ELSEWHERE);
      }
      leases := leases[p := Tracked(owner, redis.now, redis.now)];
      return Success;
    }

    method RefreshLeaseLocked(p: PlayerId, owner: LeaseOwner, reply: Reply) returns (ok: bool)
      modifies redis`keys
      ensures redis.keys == if Effective(reply).Executed()
                            then EvalRefresh(old(redis.keys), redis.now, p, owner, game.ttl).0 else old(redis.keys)
      ensures ok == (Effective(reply).Answered? && Holds(old(redis.keys), redis.now, p, owner))
      ensures !connected ==> !ok && redis.keys == old(redis.keys)
    {
      if !connected {
        return false;
      }
      var answer := redis.Refresh(p, owner, game.ttl, reply);
      ok := answer == Some(true);
    }

    method ReleaseLeaseLocked(p: PlayerId, owner: LeaseOwner, reply: Reply) returns (ok: bool)
      modifies redis`keys
      ensures ok == Effective(reply).Answered?
      ensures redis.keys == if Effective(reply).Executed()
                            then EvalRelease(old(redis.keys), redis.now, p, owner) else old(redis.keys)
      ensures Effective(reply).Executed() && Holds(old(redis.keys), redis.now, p, owner) ==>
        !Live(redis.keys, redis.now, p)
      ensures !connected ==> !ok && redis.keys == old(redis.keys)
    {
      if !connected {
        return false;
      }
      ok := redis.Release(p, owner, reply);
    }

    // A tracked lease is forgotten whatever Redis answers; only the counters remember a failure.
    method Release(p: PlayerId, reply: Reply) returns (result: Result)
      modifies this`leases, this`counters, redis`keys
      ensures result.Success? <==> p in old(leases)
      ensures leases == old(leases) - {p}
      ensures redis.keys == ReleaseKeys(old(redis.keys), redis.now, old(leases), p, Effective(reply))
      ensures p in old(leases) && FreedBy(old(StateNow()), redis.now, p, Effective(reply)) ==>
        !Live(redis.keys, redis.now, p)
      ensures counters ==
              if p !in old(leases) then old(counters)
              else if Effective(reply).Answered? then Released(old(counters), 1, 0) else Released(old(counters), 0, 1)
    {
      if p !in leases {
        assert leases - {p} == leases;
        return Failure("player lease is not tracked locally");
      }
      ReleaseCounted(p, reply);
      leases := leases - {p};
      return Success;
    }

    // The command for a tracked lease, with the counters.
    method ReleaseCounted(p: PlayerId, reply: Reply)
      requires p in leases
      modifies this`counters, redis`keys
      ensures redis.keys == ReleaseKeys(old(redis.keys), redis.now, leases, p, Effective(reply))
      ensures counters == if Effective(reply).Answered? then Released(old(counters), 1, 0)
                          else Released(old(counters), 0, 1)
    {
      var ok := ReleaseLeaseLocked(p, leases[p].owner, reply);
      if ok {
        counters := counters.(releaseSuccess := counters.releaseSuccess + 1);
      } else {
        counters := counters.(releaseFailure := counters.releaseFailure + 1);
      }
    }

    predicate IsHeldLocally(p: PlayerId)
      reads this
    {
      p in leases
    }

    // One pass of the renew loop: refresh every tracked lease, then forget the lost ones. Every player
    // ends as if its own command alone had run.
    method RenewPass(replies: PlayerId -> Reply)
      modifies this`leases, this`counters, redis`keys
      ensures Refreshed(game, old(redis.keys), redis.now, old(leases), old(leases).Keys, AllEffective(replies),
                        redis.keys)
      ensures TableRefreshed(old(redis.keys), redis.now, old(leases), AllEffective(replies), leases)
      ensures counters.renewSuccess == old(counters.renewSuccess) + |leases|
      ensures counters.renewFailure == old(counters.renewFailure) + |old(leases)| - |leases|
      ensures counters.localLoss == old(counters.localLoss) + |old(leases)| - |leases|
    {
      ghost var start, now, table := redis.keys, redis.now, leases;
      var lost := RefreshTracked(replies);
      StampedTable(start, now, table, lost, AllEffective(replies));
      leases := ForgetLost(Stamp(leases, lost, redis.now), lost);
    }

    // The first half of the pass: every tracked lease is refreshed and the losers are collected.
    method RefreshTracked(replies: PlayerId -> Reply) returns (lost: set<PlayerId>)
      modifies this`counters, redis`keys
      ensures lost <= leases.Keys
      ensures Sifted(old(redis.keys), redis.now, leases, leases.Keys, AllEffective(replies), lost)
      ensures Refreshed(game, old(redis.keys), redis.now, leases, leases.Keys, AllEffective(replies), redis.keys)
      ensures counters == Renewed(old(counters), |leases| - |lost|, |lost|)
    {
      lost := {};
      var done: set<PlayerId> := {};
      ghost var start, now, effective, was := redis.keys, redis.now, AllEffective(replies), counters;
      while leases.Keys - done != {}
        invariant done <= leases.Keys
        invariant Passing(game, start, now, leases, done, effective, lost, redis.keys, was, counters)
        decreases leases.Keys - done
      {
        var p :| p in leases.Keys - done;
        PassingStep(game, start, now, leases, done, effective, lost, redis.keys, was, counters, p);
        var ok := RefreshOne(p, replies(p));
        lost := if ok then lost else lost + {p};
        done := done + {p};
      }
      assert done == leases.Keys;
    }

    method RefreshOne(p: PlayerId, reply: Reply) returns (ok: bool)
      requires p in leases
      modifies this`counters, redis`keys
      ensures redis.keys == RefreshKeys(game, old(redis.keys), redis.now, leases, p, Effective(reply))
      ensures ok == RefreshSucceeds(old(redis.keys), redis.now, leases, p, Effective(reply))
      ensures counters == Renewed(old(counters), if ok then 1 else 0, if ok then 0 else 1)
    {
      ok := RefreshLeaseLocked(p, leases[p].owner, reply);
      if ok {
        counters := counters.(renewSuccess := counters.renewSuccess + 1);
      } else {
        counters := counters.(renewFailure := counters.renewFailure + 1);
      }
    }

    method ForgetLost(table: Table, losers: set<PlayerId>) returns (kept: Table)
      requires losers <= table.Keys
      modifies this`counters
      ensures kept == table - losers && |kept| == |table| - |losers|
      ensures counters == old(counters).(localLoss := old(counters.localLoss) + |losers|)
    {
      kept := table;
      var erased: set<PlayerId> := {};
      while losers - erased != {}
        invariant erased <= losers && kept == table - erased && |kept| + |erased| == |table|
        invariant counters == old(counters).(localLoss := old(counters.localLoss) + |erased|)
        decreases losers - erased
      {
        var p :| p in losers - erased;
        EraseOneMore(table, erased, p);
        kept := kept - {p};
        counters := counters.(localLoss := counters.localLoss + 1);
        erased := erased + {p};
      }
      assert erased == losers;
    }

    // Shutdown: release every tracked lease, then forget them all.
    method ReleaseAllTrackedLocked(replies: PlayerId -> Reply)
      modifies this`leases, this`counters, redis`keys
      ensures leases == map[]
      ensures forall p ::
                SameAt(redis.keys, ReleaseKeys(old(redis.keys), redis.now, old(leases), p, AllEffective(replies)(p)), p)
      ensures forall p :: p in old(leases) && FreedBy(old(StateNow()), redis.now, p, AllEffective(replies)(p)) ==>
                !Live(redis.keys, redis.now, p)
      ensures counters.releaseSuccess + counters.releaseFailure ==
              old(counters.releaseSuccess + counters.releaseFailure) + |old(leases)|
    {
      var pending := leases.Keys;
      ghost var start, now, effective := redis.keys, redis.now, AllEffective(replies);
      while pending != {}
        invariant leases == old(leases) && pending <= leases.Keys
        invariant forall p :: p in pending ==> SameAt(redis.keys, start, p)
        invariant forall p :: p !in pending ==>
          SameAt(redis.keys, ReleaseKeys(start, now, leases, p, effective(p)), p)
        invariant counters.releaseSuccess + counters.releaseFailure ==
                  old(counters.releaseSuccess + counters.releaseFailure) + |leases| - |pending|
        decreases pending
      {
        var p :| p in pending;
        ReleaseCounted(p, replies(p));
        pending := pending - {p};
      }
      leases := map[];
    }
  }

  // Two maps agree about one key.
  predicate SameAt<V(==)>(a: map<PlayerId, V>, b: map<PlayerId, V>, p: PlayerId) {
    (p in a <==> p in b) && (p in a ==> a[p] == b[p])
  }

  lemma EraseOneMore<V>(m: map<PlayerId, V>, erased: set<PlayerId>, p: PlayerId)
    requires p in m && p !in erased
    ensures m - erased - {p} == m - (erased + {p})
    ensures |m - erased - {p}| == |m - erased| - 1
  {
    var k := m - erased;
    assert (k - {p}).Keys == k.Keys - {p};
    assert |(k - {p}).Keys| == |k - {p}|;
  }

  // The keys once exactly the tracked players in done have been refreshed, each once.
  ghost predicate Refreshed(g: Game, start: Keys, now: nat, t: Table, done: set<PlayerId>, replies: PlayerId -> Reply,
                            keys: Keys) {
    && (forall p :: p in done ==> SameAt(keys, RefreshKeys(g, start, now, t, p, replies(p)), p))
    && (forall p :: p !in done ==> SameAt(keys, start, p))
  }

  // A refresh reads and writes nothing but its own key, so the passes over distinct players add up.
  lemma RefreshedStep(g: Game, start: Keys, now: nat, t: Table, done: set<PlayerId>, replies: PlayerId -> Reply,
                      keys: Keys, p: PlayerId)
    requires Refreshed(g, start, now, t, done, replies, keys) && p in t && p !in done
    ensures Refreshed(g, start, now, t, done + {p}, replies, RefreshKeys(g, keys, now, t, p, replies(p)))
    ensures RefreshSucceeds(keys, now, t, p, replies(p)) == RefreshSucceeds(start, now, t, p, replies(p))
  {
    var keys' := RefreshKeys(g, keys, now, t, p, replies(p));
    assert SameAt(keys, start, p);
    forall q | q != p
      ensures SameAt(keys', keys, q)
    {
    }
  }

  // A renew pass that has dealt with the players in done.
  ghost predicate Passing(g: Game, start: Keys, now: nat, t: Table, done: set<PlayerId>, replies: PlayerId -> Reply,
                          lost: set<PlayerId>, keys: Keys, was: Counters, counters: Counters)
    requires done <= t.Keys
  {
    && lost <= done && counters == Renewed(was, |done| - |lost|, |lost|)
    && Refreshed(g, start, now, t, done, replies, keys) && Sifted(start, now, t, done, replies, lost)
  }

  lemma PassingStep(g: Game, start: Keys, now: nat, t: Table, done: set<PlayerId>, replies: PlayerId -> Reply,
                    lost: set<PlayerId>, keys: Keys, was: Counters, counters: Counters, p: PlayerId)
    requires done <= t.Keys && p in t && p !in done
    requires Passing(g, start, now, t, done, replies, lost, keys, was, counters)
    ensures var ok := RefreshSucceeds(keys, now, t, p, replies(p));
            Passing(g, start, now, t, done + {p}, replies, if ok then lost else lost + {p},
                    RefreshKeys(g, keys, now, t, p, replies(p)), was,
                    Renewed(counters, if ok then 1 else 0, if ok then 0 else 1))
  {
    RefreshedStep(g, start, now, t, done, replies, keys, p);
    SiftedStep(start, now, t, done, replies, lost, p, RefreshSucceeds(keys, now, t, p, replies(p)));
  }

  // Among the players in done, exactly those whose refresh failed are lost.
  ghost predicate Sifted(start: Keys, now: nat, t: Table, done: set<PlayerId>, replies: PlayerId -> Reply,
                         lost: set<PlayerId>)
    requires done <= t.Keys
  {
    forall p :: p in done ==> (p in lost <==> !RefreshSucceeds(start, now, t, p, replies(p)))
  }

  lemma SiftedStep(start: Keys, now: nat, t: Table, done: set<PlayerId>, replies: PlayerId -> Reply,
                   lost: set<PlayerId>, p: PlayerId, ok: bool)
    requires done <= t.Keys && lost <= done && p in t && p !in done
    requires Sifted(start, now, t, done, replies, lost) && ok == RefreshSucceeds(start, now, t, p, replies(p))
    ensures Sifted(start, now, t, done + {p}, replies, if ok then lost else lost + {p})
  {
  }

  ghost predicate TableRefreshed(keys: Keys, now: nat, t: Table, replies: PlayerId -> Reply, t': Table) {
    forall p :: SameAt(t', RefreshTable(keys, now, t, p, replies(p)), p)
  }

  function Stamp(t: Table, lost: set<PlayerId>, now: nat): Table {
    map p | p in t :: if p in lost then t[p] else t[p].(refreshedAt := now)
  }

  // Stamping the survivors and dropping the losers is what the refreshes do to the table.
  lemma StampedTable(keys: Keys, now: nat, t: Table, lost: set<PlayerId>, replies: PlayerId -> Reply)
    requires Sifted(keys, now, t, t.Keys, replies, lost) && lost <= t.Keys
    ensures Stamp(t, lost, now).Keys == t.Keys
    ensures |Stamp(t, lost, now)| == |t|
    ensures TableRefreshed(keys, now, t, replies, Stamp(t, lost, now) - lost)
  {
    assert Stamp(t, lost, now).Keys == t.Keys;
    assert |Stamp(t, lost, now)| == |Stamp(t, lost, now).Keys|;
  }
}
