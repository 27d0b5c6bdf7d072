// The lease protocol of any number of games sharing one Redis server: a state machine over the steps
// of module Leases and the passing of time, and what holds after every run.
module LeaseProtocol {
  import opened Common
  import opened TextForms
  import opened Leases

  type GameName = nat

  // The games of a deployment. Their instance ids differ; service types, ttls and clocks are free.
  type Deployment = map<GameName, Game>

  ghost predicate DistinctInstances(games: Deployment) {
    forall g, h :: g in games && h in games && g != h ==> games[g].instanceId != games[h].instanceId
  }

  datatype State = State(now: nat, keys: Keys, tables: map<GameName, Table>)

  datatype Step =
    | Tick(elapsed: nat)
    | Acquire(game: GameName, player: PlayerId, token: string, reply: Reply)
    | Refresh(game: GameName, player: PlayerId, reply: Reply)
    | Release(game: GameName, player: PlayerId, reply: Reply)
    | Forget(game: GameName)  // the process ends without talking to Redis

  function Init(games: Deployment): State {
    State(0, map[], map g | g in games :: map[])
  }

  ghost predicate WellFormed(games: Deployment, s: State) {
    s.tables.Keys == games.Keys
  }

  function Next(games: Deployment, s: State, step: Step): (s': State)
    requires s.tables.Keys == games.Keys
    ensures s'.tables.Keys == games.Keys
  {
    match step
    case Tick(elapsed) => s.(now := s.now + elapsed)
    case Acquire(g, p, token, reply) =>
      if g !in games then s
      else s.(keys := AcquireKeys(games[g], s.keys, s.now, s.tables[g], p, token, reply),
              tables := s.tables[g := AcquireTable(games[g], s.keys, s.now, s.tables[g], p, token, reply)])
    case Refresh(g, p, reply) =>
      if g !in games then s
      else s.(keys := RefreshKeys(games[g], s.keys, s.now, s.tables[g], p, reply),
              tables := s.tables[g := RefreshTable(s.keys, s.now, s.tables[g], p, reply)])
    case Release(g, p, reply) =>
      if g !in games then s
      else s.(keys := ReleaseKeys(s.keys, s.now, s.tables[g], p, reply),
              tables := s.tables[g := s.tables[g] - {p}])
    case Forget(g) =>
      if g !in games then s else s.(tables := s.tables[g := map[]])
  }

  function Run(games: Deployment, s: State, steps: seq<Step>): (s': State)
    requires s.tables.Keys == games.Keys
    ensures s'.tables.Keys == games.Keys
  {
    if steps == [] then s else Next(games, Run(games, s, steps[..|steps| - 1]), steps[|steps| - 1])
  }

  // ----- the invariant -----

  predicate Tracks(s: State, g: GameName, p: PlayerId) {
    g in s.tables && p in s.tables[g]
  }

  // The moment by which a tracked lease must have been refreshed.
  function Deadline(games: Deployment, s: State, g: GameName, p: PlayerId): nat
    requires g in games && Tracks(s, g, p)
  {
    s.tables[g][p].refreshedAt + games[g].ttl
  }

  // Redis still answers the tracked owner for the player.
  predicate Owns(s: State, g: GameName, p: PlayerId)
    requires Tracks(s, g, p)
  {
    Holds(s.keys, s.now, p, s.tables[g][p].owner)
  }

  // A tracked lease carries its game's ids, its history lies in the past, and its Redis entry runs out
  // exactly at the deadline; once the entry is somebody else's or gone the deadline has passed.
  ghost predicate LeaseInv(games: Deployment, s: State, g: GameName, p: PlayerId)
    requires g in games && Tracks(s, g, p)
  {
    var t := s.tables[g][p];
    && t.owner.instanceId == games[g].instanceId && t.owner.serviceType == games[g].serviceType
    && games[g].ttl > 0
    && t.acquiredAt <= t.refreshedAt <= s.now
    && (p in s.keys && s.keys[p].value == t.owner ==> s.keys[p].expiresAt == Deadline(games, s, g, p))
    && (!(p in s.keys && s.keys[p].value == t.owner) ==> Deadline(games, s, g, p) <= s.now)
  }

  // Of two games that track one player, one had run out its ttl before the other acquired.
  predicate Superseded(games: Deployment, s: State, old_: GameName, new_: GameName, p: PlayerId)
    requires old_ in games && Tracks(s, old_, p) && Tracks(s, new_, p)
  {
    Deadline(games, s, old_, p) <= s.tables[new_][p].acquiredAt
  }

  ghost predicate Inv(games: Deployment, s: State) {
    && WellFormed(games, s)
    && (forall g, p :: g in games && Tracks(s, g, p) ==> LeaseInv(games, s, g, p))
    && (forall g, h, p :: g in games && h in games && g != h && Tracks(s, g, p) && Tracks(s, h, p) ==>
          Superseded(games, s, g, h, p) || Superseded(games, s, h, g, p))
  }

  lemma InitInv(games: Deployment)
    ensures Inv(games, Init(games))
  {
  }

  // A game's step on one player leaves every other tracked lease's own entry alone.
  lemma AcquireLeaseInv(games: Deployment, s: State, h: GameName, q: PlayerId, token: string, reply: Reply, g: GameName,
                        p: PlayerId)
    requires DistinctInstances(games) && Inv(games, s) && h in games
    requires g in games && Tracks(Next(games, s, Acquire(h, q, token, reply)), g, p)
    ensures LeaseInv(games, Next(games, s, Acquire(h, q, token, reply)), g, p)
  {
    if Tracks(s, g, p) {
      assert LeaseInv(games, s, g, p);
    }
  }

  lemma RefreshLeaseInv(games: Deployment, s: State, h: GameName, q: PlayerId, reply: Reply, g: GameName, p: PlayerId)
    requires DistinctInstances(games) && Inv(games, s) && h in games
    requires g in games && Tracks(Next(games, s, Refresh(h, q, reply)), g, p)
    ensures LeaseInv(games, Next(games, s, Refresh(h, q, reply)), g, p)
  {
    assert Tracks(s, g, p);
    assert LeaseInv(games, s, g, p);
    if Tracks(s, h, q) {
      assert LeaseInv(games, s, h, q);
    }
  }

  lemma ReleaseLeaseInv(games: Deployment, s: State, h: GameName, q: PlayerId, reply: Reply, g: GameName, p: PlayerId)
    requires DistinctInstances(games) && Inv(games, s) && h in games
    requires g in games && Tracks(Next(games, s, Release(h, q, reply)), g, p)
    ensures LeaseInv(games, Next(games, s, Release(h, q, reply)), g, p)
  {
    assert Tracks(s, g, p);
    assert LeaseInv(games, s, g, p);
    if Tracks(s, h, q) {
      assert LeaseInv(games, s, h, q);
    }
  }

  lemma NextLeaseInv(games: Deployment, s: State, step: Step, g: GameName, p: PlayerId)
    requires DistinctInstances(games) && Inv(games, s)
    requires g in games && Tracks(Next(games, s, step), g, p)
    ensures LeaseInv(games, Next(games, s, step), g, p)
  {
    match step
    case Acquire(h, q, token, reply) => if h in games { AcquireLeaseInv(games, s, h, q, token, reply, g, p); }
    case Refresh(h, q, reply) => if h in games { RefreshLeaseInv(games, s, h, q, reply, g, p); }
    case Release(h, q, reply) => if h in games { ReleaseLeaseInv(games, s, h, q, reply, g, p); }
    case Tick(_) => assert LeaseInv(games, s, g, p);
    case Forget(_) => assert LeaseInv(games, s, g, p);
  }

  // A new lease is granted only once every other tracker of the player is past its deadline.
  lemma AcquireSuperseded(games: Deployment, s: State, k: GameName, q: PlayerId, token: string, reply: Reply,
                          h: GameName)
    requires DistinctInstances(games) && Inv(games, s)
    requires k in games && h in games && k != h && Tracks(s, h, q)
    requires !Tracks(s, k, q) && Tracks(Next(games, s, Acquire(k, q, token, reply)), k, q)
    ensures Superseded(games, Next(games, s, Acquire(k, q, token, reply)), h, k, q)
  {
    assert LeaseInv(games, s, h, q);
  }

  // A refresh moves the deadline of its own game only, and only if that game was not superseded.
  lemma RefreshSuperseded(games: Deployment, s: State, k: GameName, q: PlayerId, reply: Reply, h: GameName)
    requires DistinctInstances(games) && Inv(games, s)
    requires k in games && h in games && k != h && Tracks(s, k, q) && Tracks(s, h, q)
    requires Tracks(Next(games, s, Refresh(k, q, reply)), k, q)
    ensures Superseded(games, Next(games, s, Refresh(k, q, reply)), h, k, q)
  {
    assert LeaseInv(games, s, k, q) && LeaseInv(games, s, h, q);
    assert Superseded(games, s, k, h, q) || Superseded(games, s, h, k, q);
  }

  lemma NextSuperseded(games: Deployment, s: State, step: Step, g: GameName, h: GameName, p: PlayerId)
    requires DistinctInstances(games) && Inv(games, s)
    requires g in games && h in games && g != h
    requires Tracks(Next(games, s, step), g, p) && Tracks(Next(games, s, step), h, p)
    ensures Superseded(games, Next(games, s, step), g, h, p) || Superseded(games, Next(games, s, step), h, g, p)
  {
    if Tracks(s, g, p) && Tracks(s, h, p) {
      StaysSuperseded(games, s, step, g, h, p);
    } else {
      assert step.Acquire? && step.player == p;
      if step.game == g {
        AcquireSuperseded(games, s, g, p, step.token, step.reply, h);
      } else {
        AcquireSuperseded(games, s, h, p, step.token, step.reply, g);
      }
    }
  }

  lemma StaysSuperseded(games: Deployment, s: State, step: Step, g: GameName, h: GameName, p: PlayerId)
    requires DistinctInstances(games) && Inv(games, s)
    requires g in games && h in games && g != h && Tracks(s, g, p) && Tracks(s, h, p)
    requires Tracks(Next(games, s, step), g, p) && Tracks(Next(games, s, step), h, p)
    ensures Superseded(games, Next(games, s, step), g, h, p) || Superseded(games, Next(games, s, step), h, g, p)
  {
    assert Superseded(games, s, g, h, p) || Superseded(games, s, h, g, p);
    if !step.Refresh? {
      TrackedUnchanged(games, s, step, g, p);
      TrackedUnchanged(games, s, step, h, p);
    } else if step.player == p && step.game == g {
      RefreshSuperseded(games, s, g, p, step.reply, h);
    } else if step.player == p && step.game == h {
      RefreshSuperseded(games, s, h, p, step.reply, g);
    }
  }

  // Only a refresh changes a lease that stays tracked.
  lemma TrackedUnchanged(games: Deployment, s: State, step: Step, g: GameName, p: PlayerId)
    requires WellFormed(games, s) && g in games && Tracks(s, g, p) && Tracks(Next(games, s, step), g, p)
    requires !step.Refresh?
    ensures Next(games, s, step).tables[g][p] == s.tables[g][p]
  {
  }

  lemma NextInv(games: Deployment, s: State, step: Step)
    requires DistinctInstances(games) && Inv(games, s)
    ensures Inv(games, Next(games, s, step))
  {
    var s' := Next(games, s, step);
    forall g, p | g in games && Tracks(s', g, p)
      ensures LeaseInv(games, s', g, p)
    {
      NextLeaseInv(games, s, step, g, p);
    }
    forall g, h, p | g in games && h in games && g != h && Tracks(s', g, p) && Tracks(s', h, p)
      ensures Superseded(games, s', g, h, p) || Superseded(games, s', h, g, p)
    {
      NextSuperseded(games, s, step, g, h, p);
    }
  }

  lemma {:induction false} RunInv(games: Deployment, steps: seq<Step>)
    requires DistinctInstances(games)
    ensures Inv(games, Run(games, Init(games), steps))
  {
    if steps == [] {
      InitInv(games);
    } else {
      var before := steps[..|steps| - 1];
      RunInv(games, before);
      NextInv(games, Run(games, Init(games), before), steps[|steps| - 1]);
    }
  }

  // ----- the main results, for every run from the start -----

  // A game that tracks a player either still owns the Redis key, or a full ttl has gone by since Redis
  // last confirmed the lease; and it owns the key exactly while the ttl has not gone by.
  lemma TrackedMeansOwnedOrStale(games: Deployment, steps: seq<Step>, g: GameName, p: PlayerId)
    requires DistinctInstances(games) && g in games
    requires Tracks(Run(games, Init(games), steps), g, p)
    ensures var s := Run(games, Init(games), steps);
            Owns(s, g, p) <==> s.now < s.tables[g][p].refreshedAt + games[g].ttl
  {
    RunInv(games, steps);
    assert LeaseInv(games, Run(games, Init(games), steps), g, p);
  }

  // Two games track one player only when the one that acquired first had gone a full ttl without a
  // confirmed refresh before the other acquired. In particular at most one of them owns the key.
  lemma MutualExclusion(games: Deployment, steps: seq<Step>, g: GameName, h: GameName, p: PlayerId)
    requires DistinctInstances(games) && g in games && h in games && g != h
    requires Tracks(Run(games, Init(games), steps), g, p) && Tracks(Run(games, Init(games), steps), h, p)
    ensures var s := Run(games, Init(games), steps);
            var older, newer := if s.tables[g][p].acquiredAt < s.tables[h][p].acquiredAt then g else h,
                                if s.tables[g][p].acquiredAt < s.tables[h][p].acquiredAt then h else g;
            && s.tables[older][p].acquiredAt < s.tables[newer][p].acquiredAt
            && s.tables[older][p].refreshedAt + games[older].ttl <= s.tables[newer][p].acquiredAt
            && !Owns(s, older, p)
  {
    RunInv(games, steps);
    var s := Run(games, Init(games), steps);
    assert LeaseInv(games, s, g, p) && LeaseInv(games, s, h, p);
    assert Superseded(games, s, g, h, p) || Superseded(games, s, h, g, p);
  }

  // A refresh that Redis answers keeps the lease exactly when it comes within the ttl.
  lemma RefreshKeepsExactlyWithinTtl(games: Deployment, steps: seq<Step>, g: GameName, p: PlayerId)
    requires DistinctInstances(games) && g in games
    requires Tracks(Run(games, Init(games), steps), g, p)
    ensures var s := Run(games, Init(games), steps);
            Tracks(Next(games, s, Refresh(g, p, Answered)), g, p) <==>
            s.now < s.tables[g][p].refreshedAt + games[g].ttl
  {
    TrackedMeansOwnedOrStale(games, steps, g, p);
  }

  // No step of one game changes a live entry of another game: a refresh or release compares the owner
  // first, and an acquire only writes a key nobody holds.
  lemma ForeignEntryUntouched(games: Deployment, steps: seq<Step>, step: Step, g: GameName, q: PlayerId)
    requires DistinctInstances(games) && g in games
    requires step.Acquire? || step.Refresh? || step.Release? ==> step.game == g
    requires !step.Tick?
    requires var s := Run(games, Init(games), steps);
             Live(s.keys, s.now, q) && s.keys[q].value.instanceId != games[g].instanceId
    ensures var s := Run(games, Init(games), steps);
            SameAt(Next(games, s, step).keys, s.keys, q)
  {
    RunInv(games, steps);
    var s := Run(games, Init(games), steps);
    if Tracks(s, g, q) {
      assert LeaseInv(games, s, g, q);
    }
  }

  // A release that reaches Redis lets the next game in: after any run, if the releasing game owned the key,
  // the next answered acquire of the player by any game that does not track it is granted, and that game
  // owns the key then.
  lemma ReleaseLetsTheNextIn(games: Deployment, steps: seq<Step>, g: GameName, h: GameName, p: PlayerId, token: string,
                             reply: Reply)
    requires DistinctInstances(games) && g in games && h in games && games[h].ttl > 0 && reply.Executed()
    requires Tracks(Run(games, Init(games), steps), g, p) && Owns(Run(games, Init(games), steps), g, p)
    requires h != g ==> !Tracks(Run(games, Init(games), steps), h, p)
    ensures var s := Run(games, Init(games), steps);
            var free := Next(games, s, Release(g, p, reply));
            var taken := Next(games, free, Acquire(h, p, token, Answered));
            && !Tracks(free, g, p) && !Live(free.keys, free.now, p)
            && Tracks(taken, h, p) && Owns(taken, h, p)
  {
    var s := Run(games, Init(games), steps);
    var free := Next(games, s, Release(g, p, reply));
    GivingBackFreesTheKey(LeaseState(s.keys, s.tables[g]), s.now, p, reply);
    TakingAFreeKey(games[h], LeaseState(free.keys, free.tables[h]), free.now, p, token);
  }

  // And without any release an acquire is granted as soon as the ttl of the last owner has passed.
  lemma LapsedLeaseIsFree(games: Deployment, steps: seq<Step>, g: GameName, h: GameName, p: PlayerId, token: string)
    requires DistinctInstances(games) && g in games && h in games && games[h].ttl > 0
    requires Tracks(Run(games, Init(games), steps), g, p) && Owns(Run(games, Init(games), steps), g, p)
    requires !Tracks(Run(games, Init(games), steps), h, p)
    ensures var s := Run(games, Init(games), steps);
            forall elapsed ::
              var later := Next(games, s, Tick(elapsed));
              Tracks(Next(games, later, Acquire(h, p, token, Answered)), h, p) <==>
              Deadline(games, s, g, p) <= s.now + elapsed
  {
    RunInv(games, steps);
    var s := Run(games, Init(games), steps);
    assert LeaseInv(games, s, g, p);
    forall elapsed: nat
      ensures var later := Next(games, s, Tick(elapsed));
              Tracks(Next(games, later, Acquire(h, p, token, Answered)), h, p) <==>
              Deadline(games, s, g, p) <= s.now + elapsed
    {
      var later := Next(games, s, Tick(elapsed));
      TakingAFreeKey(games[h], LeaseState(later.keys, later.tables[h]), later.now, p, token);
    }
  }

  // ----- a renew pass of the service is a run of single refresh steps -----

  function RefreshSteps(g: GameName, order: seq<PlayerId>, replies: PlayerId -> Reply): seq<Step> {
    seq(|order|, i requires 0 <= i < |order| => Refresh(g, order[i], replies(order[i])))
  }

  // Refreshing distinct players one after the other, in any order, leaves at every player what the pass
  // promises: the effect of its own command alone.
  ghost predicate RenewedAt(games: Deployment, s: State, s': State, g: GameName, p: PlayerId, reply: Reply)
    requires WellFormed(games, s) && WellFormed(games, s') && g in games
  {
    && SameAt(s'.keys, RefreshKeys(games[g], s.keys, s.now, s.tables[g], p, reply), p)
    && SameAt(s'.tables[g], RefreshTable(s.keys, s.now, s.tables[g], p, reply), p)
  }

  ghost predicate UnchangedAt(s: State, s': State, g: GameName, p: PlayerId)
    requires g in s.tables && g in s'.tables
  {
    SameAt(s'.keys, s.keys, p) && SameAt(s'.tables[g], s.tables[g], p)
  }

  ghost predicate PassDone(games: Deployment, s: State, s': State, g: GameName, order: seq<PlayerId>,
                           replies: PlayerId -> Reply)
    requires WellFormed(games, s) && WellFormed(games, s') && g in games
  {
    && s'.now == s.now
    && (forall p :: p in order ==> RenewedAt(games, s, s', g, p, replies(p)))
    && (forall p :: p !in order ==> UnchangedAt(s, s', g, p))
  }

  lemma {:induction false} RenewPassIsRun(games: Deployment, s: State, g: GameName, order: seq<PlayerId>,
                                          replies: PlayerId -> Reply)
    requires WellFormed(games, s) && g in games
    requires forall i, j :: 0 <= i < j < |order| ==> order[i] != order[j]
    ensures PassDone(games, s, Run(games, s, RefreshSteps(g, order, replies)), g, order, replies)
  {
    if order != [] {
      var last := |order| - 1;
      var steps := RefreshSteps(g, order, replies);
      assert steps[..last] == RefreshSteps(g, order[..last], replies);
      RenewPassIsRun(games, s, g, order[..last], replies);
      assert order == order[..last] + [order[last]];
      PassExtends(games, s, Run(games, s, steps[..last]), g, order[..last], order[last], replies);
    }
  }

  lemma PassExtends(games: Deployment, s: State, mid: State, g: GameName, order: seq<PlayerId>, p: PlayerId,
                    replies: PlayerId -> Reply)
    requires WellFormed(games, s) && WellFormed(games, mid) && g in games
    requires PassDone(games, s, mid, g, order, replies) && p !in order
    ensures PassDone(games, s, Next(games, mid, Refresh(g, p, replies(p))), g, order + [p], replies)
  {
    var s' := Next(games, mid, Refresh(g, p, replies(p)));
    assert UnchangedAt(s, mid, g, p);
    RefreshStepIsLocal(games, s, mid, g, p, replies(p));
    forall q | q in order + [p]
      ensures RenewedAt(games, s, s', g, q, replies(q))
    {
      if q != p {
        assert RenewedAt(games, s, mid, g, q, replies(q)) && UnchangedAt(mid, s', g, q);
      }
    }
    forall q | q !in order + [p]
      ensures UnchangedAt(s, s', g, q)
    {
      assert UnchangedAt(s, mid, g, q) && UnchangedAt(mid, s', g, q);
    }
  }

  lemma RefreshStepIsLocal(games: Deployment, s: State, mid: State, g: GameName, p: PlayerId, reply: Reply)
    requires WellFormed(games, s) && WellFormed(games, mid) && g in games && mid.now == s.now
    requires UnchangedAt(s, mid, g, p)
    ensures RenewedAt(games, s, Next(games, mid, Refresh(g, p, reply)), g, p, reply)
    ensures forall q :: q != p ==> UnchangedAt(mid, Next(games, mid, Refresh(g, p, reply)), g, q)
  {
  }
}
