// One player in a whole deployment: any number of games that take and give back the player's lease in one
// Redis, each with its own session, record and runtime instance, over one stored entry. Here: as long as
// no game in use of the lease loses it, only its owner writes the entry, and a player who leaves one game
// and enters another one is handed over exactly.
module Handover {
  import opened Common
  import opened Storage
  import opened PlayerView
  import Leases
  import L = LeaseProtocol
  import R = PlayerRuns
  import SessionLife

  datatype Setting = Setting(games: L.Deployment, hosts: map<L.GameName, Host>, player: PlayerId)

  // The views of the games, where the lease and the entry are those of the world.
  datatype World = World(leases: L.State, views: map<L.GameName, View>, cell: Cell<Blob>)

  // The replies of the lease server during a call.
  datatype Replies = Replies(token: string, acquire: Reply, release: Reply)

  datatype Step =
    | Time(elapsed: nat)
    | Renew(game: L.GameName, reply: Reply)
    | Elsewhere(command: L.Step)  // a lease step of another player
    | Crash(game: L.GameName)
    | Call(game: L.GameName, step: R.Step, replies: Replies)

  ghost predicate SettingOk(x: Setting) {
    L.DistinctInstances(x.games) && x.hosts.Keys == x.games.Keys
  }

  predicate Shaped(x: Setting, w: World) {
    w.leases.tables.Keys == x.games.Keys && w.views.Keys == x.games.Keys && x.hosts.Keys == x.games.Keys
  }

  predicate Possible(x: Setting, step: Step) {
    match step
    case Time(_) => true
    case Renew(g, _) => g in x.games
    case Elsewhere(s) => (s.Acquire? || s.Refresh? || s.Release?) && s.player != x.player
    case Crash(g) => g in x.games
    case Call(g, s, _) => g in x.games && !s.LoseLeaseStep?
  }

  predicate Tracked(x: Setting, w: World, g: L.GameName) {
    L.Tracks(w.leases, g, x.player)
  }

  function ViewIn(x: Setting, w: World, g: L.GameName): View
    requires g in w.views
  {
    w.views[g].(leased := Tracked(x, w, g), cell := w.cell)
  }

  // ----- one step -----

  // An activation that needs the lease asks for it, and is granted it exactly if it is tracked then.
  function Asked(x: Setting, w: World, g: L.GameName, step: R.Step, replies: Replies): L.State
    requires Shaped(x, w) && g in x.games
  {
    if step.ActivateStep? && AsksForLease(ViewIn(x, w, g))
    then L.Next(x.games, w.leases, L.Acquire(g, x.player, replies.token, replies.acquire))
    else w.leases
  }

  function Granted(x: Setting, w: World, g: L.GameName, step: R.Step, replies: Replies): R.Step
    requires Shaped(x, w) && g in x.games
  {
    if !step.ActivateStep? then step
    else
      var tracked := L.Tracks(Asked(x, w, g, step, replies), g, x.player);
      step.(e := step.e.(lease := if tracked then Success else Failure(Leases.HELD_ELSEWHERE)))
  }

  // The call on the view of its game, and the lease given back if it is not kept.
  function Called(x: Setting, w: World, g: L.GameName, step: R.Step, replies: Replies): World
    requires Shaped(x, w) && g in x.games
  {
    var asked := Asked(x, w, g, step, replies);
    var v := R.Next(x.hosts[g], x.player, ViewIn(x, w, g), Granted(x, w, g, step, replies));
    var left := if v.leased then asked else L.Next(x.games, asked, L.Release(g, x.player, replies.release));
    World(left, w.views[g := v], v.cell)
  }

  function Next(x: Setting, w: World, step: Step): (w': World)
    requires Shaped(x, w) && Possible(x, step)
    ensures Shaped(x, w')
  {
    match step
    case Time(elapsed) => w.(leases := L.Next(x.games, w.leases, L.Tick(elapsed)))
    case Renew(g, reply) => w.(leases := L.Next(x.games, w.leases, L.Refresh(g, x.player, reply)))
    case Elsewhere(s) => w.(leases := L.Next(x.games, w.leases, s))
    case Crash(g) => World(L.Next(x.games, w.leases, L.Forget(g)), w.views[g := ABSENT], w.cell)
    case Call(g, s, replies) => Called(x, w, g, s, replies)
  }

  // No tracked lease of the player runs out, and no reply to its refresh gets lost.
  predicate InTime(x: Setting, w: World, g: L.GameName, now: nat)
    requires Shaped(x, w)
  {
    g in x.games && Tracked(x, w, g) ==> now < L.Deadline(x.games, w.leases, g, x.player)
  }

  ghost predicate Healthy(x: Setting, w: World, step: Step)
    requires Shaped(x, w)
  {
    && Possible(x, step)
    && (step.Time? ==> forall g :: g in x.games ==> InTime(x, w, g, w.leases.now + step.elapsed))
    && (step.Renew? && Tracked(x, w, step.game) ==> step.reply.Answered?)
  }

  // ----- the invariant -----

  ghost predicate GameOk(x: Setting, w: World, g: L.GameName)
    requires Shaped(x, w) && g in x.games
  {
    && R.Inv(x.hosts[g], ViewIn(x, w, g))
    && (w.views[g].session.Some? ==> Tracked(x, w, g))
    && InTime(x, w, g, w.leases.now)
  }

  ghost predicate Inv(x: Setting, w: World) {
    && SettingOk(x) && Shaped(x, w) && L.Inv(x.games, w.leases)
    && (forall g :: g in x.games ==> GameOk(x, w, g))
  }

  // At most one game tracks the player, and it owns the lease.
  lemma TrackerIsOwner(x: Setting, w: World, g: L.GameName)
    requires Inv(x, w) && g in x.games && Tracked(x, w, g)
    ensures L.Owns(w.leases, g, x.player)
    ensures forall h :: h in x.games && h != g ==> !Tracked(x, w, h)
  {
    assert GameOk(x, w, g) && L.LeaseInv(x.games, w.leases, g, x.player);
    forall h | h in x.games && h != g
      ensures !Tracked(x, w, h)
    {
      assert GameOk(x, w, h);
      if Tracked(x, w, h) {
        OneOfTwoIsLate(x.games, w.leases, g, h, x.player);
        assert false;
      }
    }
  }

  lemma OneOfTwoIsLate(games: L.Deployment, s: L.State, g: L.GameName, h: L.GameName, p: PlayerId)
    requires L.Inv(games, s) && g in games && h in games && g != h && L.Tracks(s, g, p) && L.Tracks(s, h, p)
    ensures L.Deadline(games, s, g, p) <= s.now || L.Deadline(games, s, h, p) <= s.now
  {
    assert L.LeaseInv(games, s, g, p) && L.LeaseInv(games, s, h, p);
    assert L.Superseded(games, s, g, h, p) || L.Superseded(games, s, h, g, p);
  }

  // A call keeps a session only together with its lease.
  lemma SessionKeepsLease(h: Host, p: PlayerId, v: View, step: R.Step)
    requires R.Inv(h, v) && (v.session.Some? ==> v.leased) && !step.LoseLeaseStep?
    ensures var v' := R.Next(h, p, v, step);
            && (v'.session.Some? ==> v'.leased)
            && (v'.leased && !v.leased ==> step.ActivateStep? && AsksForLease(v) && step.e.lease.Success?)
  {
    if step.ActivateStep? && v.session.None? {
      var e := step.e;
      var (record, cell, _) := Load(p, v.record, v.cell, step.allowCreate, e.now, e.w, e.junk);
      R.SettleInv(h, v.(record := Some(record), cell := cell, leased := true), true);
    } else if step.ReleaseStep? || step.ExpireStep? {
      ReleaseIsComplete(h, v, step.now, step.w);
    }
  }

  lemma ReleaseIsComplete(h: Host, v: View, now: nat, w: Weather)
    requires R.Inv(h, v) && (v.session.Some? ==> v.leased)
    ensures var v' := ReleasePlayer(h, v, now, w).0; v' == v || (v'.session.None? && !v'.leased)
  {
  }

  // A lease step that leaves the trackers of the player as they are.
  lemma SameTrackers(x: Setting, w: World, leases: L.State)
    requires Inv(x, w) && L.Inv(x.games, leases)
    requires forall g :: g in x.games ==> (L.Tracks(leases, g, x.player) <==> Tracked(x, w, g))
    requires forall g :: g in x.games && L.Tracks(leases, g, x.player) ==>
               leases.now < L.Deadline(x.games, leases, g, x.player)
    ensures Inv(x, w.(leases := leases))
  {
    forall g | g in x.games
      ensures GameOk(x, w.(leases := leases), g)
    {
      assert GameOk(x, w, g);
      assert ViewIn(x, w.(leases := leases), g) == ViewIn(x, w, g);
    }
  }

  // A step about another player changes nothing about this one's leases, and a step of another game
  // nothing about this game's.
  lemma OtherPlayersStep(games: L.Deployment, s: L.State, step: L.Step, h: L.GameName, p: PlayerId)
    requires s.tables.Keys == games.Keys && h in games
    requires (step.Acquire? || step.Refresh? || step.Release?) && step.player != p
    ensures var s' := L.Next(games, s, step);
            && s'.now == s.now && (L.Tracks(s', h, p) <==> L.Tracks(s, h, p))
            && (L.Tracks(s, h, p) ==> s'.tables[h][p] == s.tables[h][p])
  {
  }

  lemma OtherGamesStep(games: L.Deployment, s: L.State, step: L.Step, h: L.GameName)
    requires s.tables.Keys == games.Keys && h in games
    requires !step.Tick? && step.game != h
    ensures L.Next(games, s, step).now == s.now && L.Next(games, s, step).tables[h] == s.tables[h]
  {
  }

  lemma RenewInv(x: Setting, w: World, g: L.GameName, reply: Reply)
    requires Inv(x, w) && Healthy(x, w, Renew(g, reply))
    ensures Inv(x, Next(x, w, Renew(g, reply)))
  {
    var step := L.Refresh(g, x.player, reply);
    var leases := L.Next(x.games, w.leases, step);
    L.NextInv(x.games, w.leases, step);
    RenewedIsTracked(x, w, g, reply);
    forall h | h in x.games
      ensures L.Tracks(leases, h, x.player) <==> Tracked(x, w, h)
      ensures L.Tracks(leases, h, x.player) ==> leases.now < L.Deadline(x.games, leases, h, x.player)
    {
      assert GameOk(x, w, h);
      if h != g {
        OtherGamesStep(x.games, w.leases, step, h);
      }
    }
    SameTrackers(x, w, leases);
  }

  lemma RenewedIsTracked(x: Setting, w: World, g: L.GameName, reply: Reply)
    requires Inv(x, w) && Healthy(x, w, Renew(g, reply))
    ensures var s := L.Next(x.games, w.leases, L.Refresh(g, x.player, reply));
            && s.now == w.leases.now && (L.Tracks(s, g, x.player) <==> Tracked(x, w, g))
            && (Tracked(x, w, g) ==> s.now < L.Deadline(x.games, s, g, x.player))
  {
    if Tracked(x, w, g) {
      assert GameOk(x, w, g) && L.LeaseInv(x.games, w.leases, g, x.player);
      TrackerIsOwner(x, w, g);
    }
  }

  lemma ElsewhereInv(x: Setting, w: World, step: L.Step)
    requires Inv(x, w) && Healthy(x, w, Elsewhere(step))
    ensures Inv(x, Next(x, w, Elsewhere(step)))
  {
    var leases := L.Next(x.games, w.leases, step);
    L.NextInv(x.games, w.leases, step);
    forall h | h in x.games
      ensures L.Tracks(leases, h, x.player) <==> Tracked(x, w, h)
      ensures L.Tracks(leases, h, x.player) ==> leases.now < L.Deadline(x.games, leases, h, x.player)
    {
      assert GameOk(x, w, h);
      OtherPlayersStep(x.games, w.leases, step, h, x.player);
    }
    SameTrackers(x, w, leases);
  }

  lemma TimeInv(x: Setting, w: World, elapsed: nat)
    requires Inv(x, w) && Healthy(x, w, Time(elapsed))
    ensures Inv(x, Next(x, w, Time(elapsed)))
  {
    L.NextInv(x.games, w.leases, L.Tick(elapsed));
    forall g | g in x.games
      ensures InTime(x, w, g, w.leases.now + elapsed)
    {
    }
    SameTrackers(x, w, L.Next(x.games, w.leases, L.Tick(elapsed)));
  }

  lemma CrashInv(x: Setting, w: World, g: L.GameName)
    requires Inv(x, w) && g in x.games
    ensures Inv(x, Next(x, w, Crash(g)))
  {
    L.NextInv(x.games, w.leases, L.Forget(g));
    var w' := Next(x, w, Crash(g));
    forall h | h in x.games
      ensures GameOk(x, w', h)
    {
      assert GameOk(x, w, h);
      if h == g {
        CrashedIsAbsent(x, w, g);
      } else {
        OtherGamesStep(x.games, w.leases, L.Forget(g), h);
        assert ViewIn(x, w', h) == ViewIn(x, w, h);
      }
    }
  }

  lemma CrashedIsAbsent(x: Setting, w: World, g: L.GameName)
    requires Shaped(x, w) && g in x.games
    ensures ViewIn(x, Next(x, w, Crash(g)), g) == ABSENT.(cell := w.cell)
    ensures !Tracked(x, Next(x, w, Crash(g)), g)
  {
  }

  // The leases around a call: the game tracks the player afterwards exactly if its view says so, nothing
  // changes for the other games, and a lease that is tracked is in time.
  lemma CalledLeases(x: Setting, w: World, g: L.GameName, step: R.Step, replies: Replies)
    requires Inv(x, w) && Possible(x, Call(g, step, replies))
    ensures var w' := Called(x, w, g, step, replies);
            && LeasesOk(x, w'.leases) && OthersTrackAlike(x, w.leases, w'.leases, g)
            && (Tracked(x, w', g) <==> w'.views[g].leased)
  {
    AskedLeases(x, w, g, step, replies);
    if CalledView(x, w, g, step, replies).leased {
      LeasedWasAsked(x, w, g, step, replies);
    } else {
      ReleasedLeases(x, Asked(x, w, g, step, replies), g, replies.release);
    }
  }

  // What a lease step about the player must leave right.
  ghost predicate LeasesOk(x: Setting, s: L.State) {
    && L.Inv(x.games, s)
    && forall h :: h in x.games && L.Tracks(s, h, x.player) ==> s.now < L.Deadline(x.games, s, h, x.player)
  }

  ghost predicate OthersTrackAlike(x: Setting, s: L.State, t: L.State, g: L.GameName) {
    forall h :: h in x.games && h != g ==> (L.Tracks(s, h, x.player) <==> L.Tracks(t, h, x.player))
  }

  function CalledView(x: Setting, w: World, g: L.GameName, step: R.Step, replies: Replies): View
    requires Shaped(x, w) && g in x.games
  {
    R.Next(x.hosts[g], x.player, ViewIn(x, w, g), Granted(x, w, g, step, replies))
  }

  lemma LeasedWasAsked(x: Setting, w: World, g: L.GameName, step: R.Step, replies: Replies)
    requires Inv(x, w) && Possible(x, Call(g, step, replies)) && CalledView(x, w, g, step, replies).leased
    ensures L.Tracks(Asked(x, w, g, step, replies), g, x.player)
  {
    assert GameOk(x, w, g);
    AskedLeases(x, w, g, step, replies);
    SessionKeepsLease(x.hosts[g], x.player, ViewIn(x, w, g), Granted(x, w, g, step, replies));
  }

  lemma ReleasedLeases(x: Setting, s: L.State, g: L.GameName, reply: Reply)
    requires L.DistinctInstances(x.games) && LeasesOk(x, s) && g in x.games
    ensures var s' := L.Next(x.games, s, L.Release(g, x.player, reply));
            LeasesOk(x, s') && OthersTrackAlike(x, s, s', g) && !L.Tracks(s', g, x.player) && s'.now == s.now
  {
    L.NextInv(x.games, s, L.Release(g, x.player, reply));
  }

  lemma AskedLeases(x: Setting, w: World, g: L.GameName, step: R.Step, replies: Replies)
    requires Inv(x, w) && g in x.games
    ensures var asked := Asked(x, w, g, step, replies);
            && LeasesOk(x, asked) && OthersTrackAlike(x, w.leases, asked, g) && asked.now == w.leases.now
            && (Tracked(x, w, g) ==> L.Tracks(asked, g, x.player))
            && (!(step.ActivateStep? && AsksForLease(ViewIn(x, w, g))) ==> asked == w.leases)
  {
    var acquire := L.Acquire(g, x.player, replies.token, replies.acquire);
    assert LeasesOk(x, w.leases) by {
      assert forall h :: h in x.games ==> GameOk(x, w, h);
    }
    AcquiredLeases(x, w.leases, g, replies);
  }

  lemma AcquiredLeases(x: Setting, s: L.State, g: L.GameName, replies: Replies)
    requires L.DistinctInstances(x.games) && LeasesOk(x, s) && g in x.games
    ensures var s' := L.Next(x.games, s, L.Acquire(g, x.player, replies.token, replies.acquire));
            && LeasesOk(x, s') && OthersTrackAlike(x, s, s', g) && s'.now == s.now
            && (L.Tracks(s, g, x.player) ==> L.Tracks(s', g, x.player))
  {
    var acquire := L.Acquire(g, x.player, replies.token, replies.acquire);
    var s' := L.Next(x.games, s, acquire);
    L.NextInv(x.games, s, acquire);
    forall h | h in x.games
      ensures h != g ==> (L.Tracks(s, h, x.player) <==> L.Tracks(s', h, x.player))
      ensures L.Tracks(s', h, x.player) ==> s'.now < L.Deadline(x.games, s', h, x.player)
    {
      if h != g {
        OtherGamesStep(x.games, s, acquire, h);
      } else if L.Tracks(s', g, x.player) {
        assert L.LeaseInv(x.games, s', g, x.player);
        AcquiredNowOrBefore(x.games, s, g, x.player, replies);
      }
    }
  }

  lemma AcquiredNowOrBefore(games: L.Deployment, s: L.State, g: L.GameName, p: PlayerId, replies: Replies)
    requires s.tables.Keys == games.Keys && g in games
    ensures var s' := L.Next(games, s, L.Acquire(g, p, replies.token, replies.acquire));
            && s'.now == s.now && (L.Tracks(s, g, p) ==> L.Tracks(s', g, p))
            && (L.Tracks(s', g, p) ==>
                  if L.Tracks(s, g, p) then s'.tables[g][p] == s.tables[g][p] else s'.tables[g][p].refreshedAt == s.now)
  {
  }

  lemma CallInv(x: Setting, w: World, g: L.GameName, step: R.Step, replies: Replies)
    requires Inv(x, w) && Possible(x, Call(g, step, replies))
    ensures Inv(x, Next(x, w, Call(g, step, replies)))
  {
    var w' := Called(x, w, g, step, replies);
    var local := Granted(x, w, g, step, replies);
    CalledLeases(x, w, g, step, replies);
    assert GameOk(x, w, g);
    R.NextInv(x.hosts[g], x.player, ViewIn(x, w, g), local);
    SessionKeepsLease(x.hosts[g], x.player, ViewIn(x, w, g), local);
    assert ViewIn(x, w', g) == w'.views[g];
    forall h | h in x.games && h != g
      ensures GameOk(x, w', h)
    {
      assert GameOk(x, w, h);
      assert ViewIn(x, w', h) == ViewIn(x, w, h).(cell := w'.cell);
    }
  }

  lemma NextInv(x: Setting, w: World, step: Step)
    requires Inv(x, w) && Healthy(x, w, step)
    ensures Inv(x, Next(x, w, step))
  {
    match step
    case Time(elapsed) => TimeInv(x, w, elapsed);
    case Renew(g, reply) => RenewInv(x, w, g, reply);
    case Elsewhere(s) => ElsewhereInv(x, w, s);
    case Crash(g) => CrashInv(x, w, g);
    case Call(g, s, replies) => CallInv(x, w, g, s, replies);
  }

  // ----- who writes -----

  // Whatever changes the stored entry is a call of the game that owns the lease, and no other game has the
  // player in memory then.
  lemma OnlyTheOwnerStores(x: Setting, w: World, step: Step)
    requires Inv(x, w) && Possible(x, step)
    ensures Next(x, w, step).cell.table != w.cell.table ==>
              && step.Call? && Tracked(x, w, step.game) && L.Owns(w.leases, step.game, x.player)
              && forall h :: h in x.games && h != step.game ==>
                   !IsLoaded(w.views[h].record) && w.views[h].session.None?
  {
    if Next(x, w, step).cell.table != w.cell.table {
      var g := step.game;
      assert GameOk(x, w, g);
      R.StepStores(x.hosts[g], x.player, ViewIn(x, w, g), Granted(x, w, g, step.step, step.replies));
      TrackerIsOwner(x, w, g);
      forall h | h in x.games && h != g
        ensures !IsLoaded(w.views[h].record) && w.views[h].session.None?
      {
        assert GameOk(x, w, h);
      }
    }
  }

  // ----- runs -----

  predicate AllPossible(x: Setting, steps: seq<Step>) {
    forall i :: 0 <= i < |steps| ==> Possible(x, steps[i])
  }

  function Run(x: Setting, w: World, steps: seq<Step>): (w': World)
    requires Shaped(x, w) && AllPossible(x, steps)
    ensures Shaped(x, w')
  {
    if steps == [] then w else Next(x, Run(x, w, steps[..|steps| - 1]), steps[|steps| - 1])
  }

  // A run in which no tracked lease of the player runs out or loses the reply to a refresh, and no put
  // reports that Maria succeeded and Redis failed.
  ghost predicate HealthyRun(x: Setting, w: World, steps: seq<Step>)
    requires Shaped(x, w) && AllPossible(x, steps)
  {
    steps == [] ||
    (var before, last := steps[..|steps| - 1], steps[|steps| - 1];
     HealthyRun(x, w, before) && Healthy(x, Run(x, w, before), last) && NotPartial(x, Run(x, w, before), last))
  }

  predicate NotPartial(x: Setting, w: World, step: Step)
    requires Shaped(x, w) && Possible(x, step)
  {
    step.Call? ==>
      R.NotPartial(ViewIn(x, w, step.game), Granted(x, w, step.game, step.step, step.replies))
  }

  // Redis holds no lease, no game has the player, and the entry is as some earlier deployment left it.
  ghost predicate Boot(x: Setting, w: World) {
    && SettingOk(x) && Coherent(w.cell)
    && w == World(L.Init(x.games), map g | g in x.games :: ABSENT, w.cell)
  }

  ghost predicate StoredEverywhere(x: Setting, w: World)
    requires Shaped(x, w)
  {
    Coherent(w.cell) && forall g :: g in x.games ==> R.StoredOk(ViewIn(x, w, g))
  }

  lemma BootInv(x: Setting, w: World)
    requires Boot(x, w)
    ensures Inv(x, w) && StoredEverywhere(x, w)
  {
    L.InitInv(x.games);
  }

  lemma CallStored(x: Setting, w: World, g: L.GameName, step: R.Step, replies: Replies)
    requires Inv(x, w) && StoredEverywhere(x, w) && Possible(x, Call(g, step, replies))
    requires NotPartial(x, w, Call(g, step, replies))
    ensures StoredEverywhere(x, Called(x, w, g, step, replies))
  {
    var w' := Called(x, w, g, step, replies);
    var v, local := ViewIn(x, w, g), Granted(x, w, g, step, replies);
    assert GameOk(x, w, g);
    R.NextStoredOk(x.hosts[g], x.player, v, local);
    R.StepStores(x.hosts[g], x.player, v, local);
    forall h | h in x.games
      ensures R.StoredOk(ViewIn(x, w', h))
    {
      assert GameOk(x, w, h) && R.StoredOk(ViewIn(x, w, h));
      if h != g && IsLoaded(w.views[h].record) {
        TrackerIsOwner(x, w, h);
      }
    }
  }

  lemma NextStored(x: Setting, w: World, step: Step)
    requires Inv(x, w) && StoredEverywhere(x, w) && Possible(x, step) && NotPartial(x, w, step)
    ensures StoredEverywhere(x, Next(x, w, step))
  {
    if step.Call? {
      CallStored(x, w, step.game, step.step, step.replies);
    } else {
      var w' := Next(x, w, step);
      forall h | h in x.games
        ensures R.StoredOk(ViewIn(x, w', h))
      {
        assert R.StoredOk(ViewIn(x, w, h));
        assert w'.cell == w.cell && (w'.views[h] == w.views[h] || w'.views[h] == ABSENT);
      }
    }
  }

  // With any number of games: in a healthy run the loaded records of all games that are not dirty equal
  // the stored value.
  lemma {:induction false} CleanRecordsAreStoredEverywhere(x: Setting, first: World, steps: seq<Step>)
    requires Boot(x, first) && AllPossible(x, steps) && HealthyRun(x, first, steps)
    ensures Inv(x, Run(x, first, steps)) && StoredEverywhere(x, Run(x, first, steps))
  {
    if steps == [] {
      BootInv(x, first);
    } else {
      var before := steps[..|steps| - 1];
      CleanRecordsAreStoredEverywhere(x, first, before);
      NextInv(x, Run(x, first, before), steps[|steps| - 1]);
      NextStored(x, Run(x, first, before), steps[|steps| - 1]);
    }
  }

  // ----- from one game to another -----

  // No game has the player, and these data are stored.
  ghost predicate AllAway(x: Setting, w: World, data: PlayerData)
    requires Shaped(x, w)
  {
    && w.cell.table == Some(Encoded(data))
    && forall g :: g in x.games ==> R.IsAway(x.hosts[g], ViewIn(x, w, g))
  }

  predicate RefusedHere(x: Setting, w: World, step: Step)
    requires Shaped(x, w) && Possible(x, step)
  {
    step.Call? ==>
      R.Refused(x.hosts[step.game], x.player, ViewIn(x, w, step.game),
                Granted(x, w, step.game, step.step, step.replies))
  }

  // No activation of the player succeeds in any game.
  ghost predicate AllRefused(x: Setting, w: World, steps: seq<Step>)
    requires Shaped(x, w) && AllPossible(x, steps)
  {
    steps == [] ||
    (AllRefused(x, w, steps[..|steps| - 1]) && RefusedHere(x, Run(x, w, steps[..|steps| - 1]), steps[|steps| - 1]))
  }

  lemma AwayCall(x: Setting, w: World, g: L.GameName, step: R.Step, replies: Replies, data: PlayerData)
    requires Inv(x, w) && AllAway(x, w, data) && Possible(x, Call(g, step, replies))
    requires RefusedHere(x, w, Call(g, step, replies))
    ensures AllAway(x, Called(x, w, g, step, replies), data)
  {
    var w' := Called(x, w, g, step, replies);
    CalledLeases(x, w, g, step, replies);
    R.AwayStep(x.hosts[g], x.player, ViewIn(x, w, g), Granted(x, w, g, step, replies));
    AllAwayOnceOneIs(x, w, w', g);
  }

  // The games other than g were away before, and g is now.
  lemma AllAwayOnceOneIs(x: Setting, w: World, w': World, g: L.GameName)
    requires Shaped(x, w) && Shaped(x, w') && g in x.games && w'.views == w.views[g := w'.views[g]]
    requires OthersTrackAlike(x, w.leases, w'.leases, g) && Coherent(w'.cell)
    requires forall h :: h in x.games && h != g ==> R.IsAway(x.hosts[h], ViewIn(x, w, h))
    requires R.IsAway(x.hosts[g], ViewIn(x, w', g))
    ensures forall h :: h in x.games ==> R.IsAway(x.hosts[h], ViewIn(x, w', h))
  {
    forall h | h in x.games && h != g
      ensures R.IsAway(x.hosts[h], ViewIn(x, w', h))
    {
      assert R.IsAway(x.hosts[h], ViewIn(x, w, h));
      assert ViewIn(x, w', h) == ViewIn(x, w, h).(cell := w'.cell);
    }
  }

  lemma AwayWithLeases(x: Setting, w: World, leases: L.State, data: PlayerData)
    requires Shaped(x, w) && AllAway(x, w, data) && leases.tables.Keys == x.games.Keys
    requires forall h :: h in x.games ==> !L.Tracks(leases, h, x.player)
    ensures AllAway(x, w.(leases := leases), data)
  {
    forall h | h in x.games
      ensures R.IsAway(x.hosts[h], ViewIn(x, w.(leases := leases), h))
    {
      assert R.IsAway(x.hosts[h], ViewIn(x, w, h));
      assert ViewIn(x, w.(leases := leases), h) == ViewIn(x, w, h);
    }
  }

  // No lease step other than an acquire of the player makes a game track the player.
  lemma StaysUntracked(games: L.Deployment, s: L.State, step: L.Step, h: L.GameName, p: PlayerId)
    requires s.tables.Keys == games.Keys && h in games && !L.Tracks(s, h, p)
    requires step.Acquire? ==> step.player != p
    ensures !L.Tracks(L.Next(games, s, step), h, p)
  {
  }

  lemma AwayLeaseStep(x: Setting, w: World, step: L.Step, data: PlayerData)
    requires Shaped(x, w) && AllAway(x, w, data) && (step.Acquire? ==> step.player != x.player)
    ensures AllAway(x, w.(leases := L.Next(x.games, w.leases, step)), data)
  {
    forall h | h in x.games
      ensures !L.Tracks(L.Next(x.games, w.leases, step), h, x.player)
    {
      assert R.IsAway(x.hosts[h], ViewIn(x, w, h));
      StaysUntracked(x.games, w.leases, step, h, x.player);
    }
    AwayWithLeases(x, w, L.Next(x.games, w.leases, step), data);
  }

  lemma AwayCrash(x: Setting, w: World, g: L.GameName, data: PlayerData)
    requires Shaped(x, w) && AllAway(x, w, data) && g in x.games
    ensures AllAway(x, Next(x, w, Crash(g)), data)
  {
    AwayLeaseStep(x, w, L.Forget(g), data);
    var w1, w' := w.(leases := L.Next(x.games, w.leases, L.Forget(g))), Next(x, w, Crash(g));
    forall h | h in x.games
      ensures R.IsAway(x.hosts[h], ViewIn(x, w', h))
    {
      assert R.IsAway(x.hosts[h], ViewIn(x, w1, h));
      if h == g {
        CrashedIsAbsent(x, w, g);
      } else {
        assert ViewIn(x, w', h) == ViewIn(x, w1, h);
      }
    }
  }

  lemma AwayNext(x: Setting, w: World, step: Step, data: PlayerData)
    requires Inv(x, w) && AllAway(x, w, data) && Possible(x, step) && RefusedHere(x, w, step)
    ensures AllAway(x, Next(x, w, step), data)
  {
    match step
    case Time(elapsed) => AwayLeaseStep(x, w, L.Tick(elapsed), data);
    case Renew(g, reply) => AwayLeaseStep(x, w, L.Refresh(g, x.player, reply), data);
    case Elsewhere(s) => AwayLeaseStep(x, w, s, data);
    case Crash(g) => AwayCrash(x, w, g, data);
    case Call(g, s, replies) => AwayCall(x, w, g, s, replies, data);
  }

  lemma {:induction false} AwayRun(x: Setting, w: World, steps: seq<Step>, data: PlayerData)
    requires Inv(x, w) && AllAway(x, w, data) && AllPossible(x, steps)
    requires HealthyRun(x, w, steps) && AllRefused(x, w, steps)
    ensures Inv(x, Run(x, w, steps)) && AllAway(x, Run(x, w, steps), data)
  {
    if steps != [] {
      var before := steps[..|steps| - 1];
      AwayRun(x, w, before, data);
      AwayNext(x, Run(x, w, before), steps[|steps| - 1], data);
      NextInv(x, Run(x, w, before), steps[|steps| - 1]);
    }
  }

  // A release, on its own or by a sweep, that succeeds.
  predicate Leaves(h: Host, v: View, step: R.Step) {
    match step
    case ReleaseStep(now, w) => ReleasePlayer(h, v, now, w).1.Success?
    case ExpireStep(now, w) => Expired(v, now) && ReleasePlayer(h, v, now, w).1.Success?
    case _ => false
  }

  lemma LeavingIsAway(x: Setting, w: World, g: L.GameName, step: R.Step, replies: Replies)
    requires Inv(x, w) && StoredEverywhere(x, w) && Possible(x, Call(g, step, replies))
    requires NotPartial(x, w, Call(g, step, replies)) && Leaves(x.hosts[g], ViewIn(x, w, g), step)
    ensures IsLoaded(w.views[g].record)
    ensures AllAway(x, Called(x, w, g, step, replies), w.views[g].record.value.data)
  {
    var w', v := Called(x, w, g, step, replies), ViewIn(x, w, g);
    assert GameOk(x, w, g) && R.StoredOk(v);
    R.ReleaseLeavesAway(x.hosts[g], x.player, v, step.now, step.w);
    CalledLeases(x, w, g, step, replies);
    TrackerIsOwner(x, w, g);
    forall h | h in x.games && h != g
      ensures R.IsAway(x.hosts[h], ViewIn(x, w, h))
    {
      assert GameOk(x, w, h) && R.StoredOk(ViewIn(x, w, h));
    }
    AllAwayOnceOneIs(x, w, w', g);
  }

  // What one activation of an away player comes to, with the lease it is granted.
  function Entered(x: Setting, w: World, h: L.GameName, enter: R.Step, replies: Replies): (View, Result)
    requires Shaped(x, w) && h in x.games && enter.ActivateStep?
  {
    Activate(x.hosts[h], ViewIn(x, w, h), x.player, enter.gate, enter.allowCreate, Granted(x, w, h, enter, replies).e)
  }

  // The activation has the data in memory, with nothing to write.
  predicate Has(v: View, data: PlayerData) {
    IsLoaded(v.record) && v.record.value.data == data && !v.record.value.dirty
  }

  // If an activation succeeds, it has the data of the record, exactly if it does not start over.
  predicate ArrivesWith(x: Setting, w: World, h: L.GameName, enter: R.Step, replies: Replies, held: Option<Record>)
    requires Shaped(x, w) && h in x.games && enter.ActivateStep?
  {
    Entered(x, w, h, enter, replies).1.Success? ==>
      && IsLoaded(held)
      && (Has(Entered(x, w, h, enter, replies).0, held.value.data) <==>
          !R.StartsOver(ViewIn(x, w, h), enter.allowCreate, enter.e))
  }

  lemma EnteringIsExact(x: Setting, w: World, h: L.GameName, enter: R.Step, replies: Replies, held: Option<Record>)
    requires Shaped(x, w) && IsLoaded(held) && AllAway(x, w, held.value.data) && h in x.games && enter.ActivateStep?
    ensures ArrivesWith(x, w, h, enter, replies, held)
  {
    if Entered(x, w, h, enter, replies).1.Success? {
      R.ActivationReadsStored(x.hosts[h], x.player, ViewIn(x, w, h), held.value.data, enter.gate, enter.allowCreate,
                              Granted(x, w, h, enter, replies).e);
    }
  }

  // The player leaves game g, and no activation succeeds in any game after that.
  ghost predicate LeavesAndStaysAway(x: Setting, w: World, g: L.GameName, leave: R.Step, replies: Replies,
                                     away: seq<Step>)
    requires Shaped(x, w) && Possible(x, Call(g, leave, replies)) && AllPossible(x, away)
  {
    var gone := Called(x, w, g, leave, replies);
    && Leaves(x.hosts[g], ViewIn(x, w, g), leave) && NotPartial(x, w, Call(g, leave, replies))
    && HealthyRun(x, gone, away) && AllRefused(x, gone, away)
  }

  lemma AwayAfterLeaving(x: Setting, w: World, g: L.GameName, leave: R.Step, replies: Replies, away: seq<Step>)
    requires Inv(x, w) && StoredEverywhere(x, w) && Possible(x, Call(g, leave, replies)) && AllPossible(x, away)
    requires LeavesAndStaysAway(x, w, g, leave, replies, away)
    ensures IsLoaded(w.views[g].record)
    ensures AllAway(x, Run(x, Called(x, w, g, leave, replies), away), w.views[g].record.value.data)
  {
    LeavingIsAway(x, w, g, leave, replies);
    CallInv(x, w, g, leave, replies);
    AwayRun(x, Called(x, w, g, leave, replies), away, w.views[g].record.value.data);
  }

  // From world w the player leaves game g; then anything happens in all games, crashes and failed
  // activations included; then an activation succeeds in the same or another game h. It has exactly the data
  // that g held at the release, if and only if it does not start over.
  ghost predicate HandsOver(x: Setting, w: World, g: L.GameName, leave: R.Step, replies: Replies, away: seq<Step>,
                            h: L.GameName, enter: R.Step, replies': Replies)
    requires Shaped(x, w) && Possible(x, Call(g, leave, replies)) && AllPossible(x, away)
    requires h in x.games && enter.ActivateStep?
  {
    LeavesAndStaysAway(x, w, g, leave, replies, away) ==>
      ArrivesWith(x, Run(x, Called(x, w, g, leave, replies), away), h, enter, replies', w.views[g].record)
  }

  lemma HandoverFrom(x: Setting, w: World, g: L.GameName, leave: R.Step, replies: Replies, away: seq<Step>,
                     h: L.GameName, enter: R.Step, replies': Replies)
    requires Inv(x, w) && StoredEverywhere(x, w) && Possible(x, Call(g, leave, replies)) && AllPossible(x, away)
    requires h in x.games && enter.ActivateStep?
    ensures HandsOver(x, w, g, leave, replies, away, h, enter, replies')
  {
    if LeavesAndStaysAway(x, w, g, leave, replies, away) {
      EntersAfterLeaving(x, w, g, leave, replies, away, Run(x, Called(x, w, g, leave, replies), away), h, enter,
                         replies');
    }
  }

  lemma EntersAfterLeaving(x: Setting, w: World, g: L.GameName, leave: R.Step, replies: Replies, away: seq<Step>,
                           there: World, h: L.GameName, enter: R.Step, replies': Replies)
    requires Inv(x, w) && StoredEverywhere(x, w) && Possible(x, Call(g, leave, replies)) && AllPossible(x, away)
    requires h in x.games && enter.ActivateStep? && LeavesAndStaysAway(x, w, g, leave, replies, away)
    requires there == Run(x, Called(x, w, g, leave, replies), away)
    ensures ArrivesWith(x, there, h, enter, replies', w.views[g].record)
  {
    AwayAfterLeaving(x, w, g, leave, replies, away);
    EnteringIsExact(x, there, h, enter, replies', w.views[g].record);
  }

  // So it is after every healthy run of the whole deployment.
  lemma HandoverIsExact(x: Setting, first: World, steps: seq<Step>, g: L.GameName, leave: R.Step, replies: Replies,
                        away: seq<Step>, h: L.GameName, enter: R.Step, replies': Replies)
    requires Boot(x, first) && AllPossible(x, steps) && HealthyRun(x, first, steps)
    requires h in x.games && enter.ActivateStep? && Possible(x, Call(g, leave, replies)) && AllPossible(x, away)
    ensures HandsOver(x, Run(x, first, steps), g, leave, replies, away, h, enter, replies')
  {
    CleanRecordsAreStoredEverywhere(x, first, steps);
    HandoverFrom(x, Run(x, first, steps), g, leave, replies, away, h, enter, replies');
  }

  // A player that leaves a game, with the release reaching Redis, can enter any game at once: an answered
  // acquire is granted.
  lemma LeavingFreesTheLease(x: Setting, w: World, g: L.GameName, leave: R.Step, replies: Replies)
    requires Inv(x, w) && Possible(x, Call(g, leave, replies)) && Leaves(x.hosts[g], ViewIn(x, w, g), leave)
    requires replies.release.Executed()
    ensures var gone := Called(x, w, g, leave, replies);
            && !Leases.Live(gone.leases.keys, gone.leases.now, x.player)
            && forall h :: h in x.games ==> !Tracked(x, gone, h) && gone.views[h].session.None?
  {
    assert GameOk(x, w, g);
    TrackerIsOwner(x, w, g);
    var s := Leases.LeaseState(w.leases.keys, w.leases.tables[g]);
    Leases.GivingBackFreesTheKey(s, w.leases.now, x.player, replies.release);
    CalledLeases(x, w, g, leave, replies);
    LeavingEndsSession(x.hosts[g], x.player, ViewIn(x, w, g), leave);
    forall h | h in x.games && h != g
      ensures w.views[h].session.None? && !Tracked(x, w, h)
    {
      assert GameOk(x, w, h);
    }
  }

  lemma LeavingEndsSession(h: Host, p: PlayerId, v: View, step: R.Step)
    requires Leaves(h, v, step)
    ensures v.session.Some? && R.Next(h, p, v, step).session.None? && !R.Next(h, p, v, step).leased
  {
  }

  lemma NextGameIsGranted(x: Setting, w: World, g: L.GameName, leave: R.Step, replies: Replies,
                          h: L.GameName, enter: R.Step, replies': Replies)
    requires Inv(x, w) && Possible(x, Call(g, leave, replies)) && Leaves(x.hosts[g], ViewIn(x, w, g), leave)
    requires replies.release.Executed()
    requires h in x.games && x.games[h].ttl > 0 && enter.ActivateStep? && replies'.acquire.Answered?
    ensures Granted(x, Called(x, w, g, leave, replies), h, enter, replies').e.lease.Success?
  {
    var gone := Called(x, w, g, leave, replies);
    LeavingFreesTheLease(x, w, g, leave, replies);
    Leases.TakingAFreeKey(x.games[h], Leases.LeaseState(gone.leases.keys, gone.leases.tables[h]), gone.leases.now,
                          x.player, replies'.token);
  }

  // The whole handover, after every healthy run of the deployment: a player leaves a game, with the release
  // reaching Redis, and enters a game that Redis answers. That works exactly if the stored data can be read
  // and nobody else is bound to the player there; and with Maria there, or something cached, the player goes
  // on with the data held at the release.
  lemma HandoverWorks(x: Setting, first: World, steps: seq<Step>, g: L.GameName, leave: R.Step, replies: Replies,
                      h: L.GameName, enter: R.Step, replies': Replies)
    requires Boot(x, first) && AllPossible(x, steps) && HealthyRun(x, first, steps)
    requires Possible(x, Call(g, leave, replies)) && h in x.games && x.games[h].ttl > 0 && enter.ActivateStep?
    requires replies.release.Executed() && replies'.acquire.Answered?
    ensures var w := Run(x, first, steps);
            var gone := Called(x, w, g, leave, replies);
            Leaves(x.hosts[g], ViewIn(x, w, g), leave) && NotPartial(x, w, Call(g, leave, replies)) ==>
              Enters(x, gone, h, enter, replies', w.views[g].record)
  {
    var w := Run(x, first, steps);
    CleanRecordsAreStoredEverywhere(x, first, steps);
    if Leaves(x.hosts[g], ViewIn(x, w, g), leave) && NotPartial(x, w, Call(g, leave, replies)) {
      EntersAtOnce(x, w, g, leave, replies, h, enter, replies');
    }
  }

  // An activation works exactly if the data can be read and the receiver bound, and then has the data of the
  // record unless it starts over.
  predicate Enters(x: Setting, w: World, h: L.GameName, enter: R.Step, replies: Replies, held: Option<Record>)
    requires Shaped(x, w) && h in x.games && enter.ActivateStep?
  {
    var (v, result) := Entered(x, w, h, enter, replies);
    && (result.Success? <==>
          SessionLife.Readable(w.cell, enter.allowCreate, enter.e.w) &&
          SessionLife.Bindable(x.hosts[h], w.views[h]))
    && (result.Success? && (enter.e.w.mariaUp || w.cell.cached.Some?) ==> IsLoaded(held) && Has(v, held.value.data))
  }

  lemma EntersAtOnce(x: Setting, w: World, g: L.GameName, leave: R.Step, replies: Replies, h: L.GameName,
                     enter: R.Step, replies': Replies)
    requires Inv(x, w) && StoredEverywhere(x, w) && Possible(x, Call(g, leave, replies))
    requires NotPartial(x, w, Call(g, leave, replies)) && Leaves(x.hosts[g], ViewIn(x, w, g), leave)
    requires replies.release.Executed() && replies'.acquire.Answered?
    requires h in x.games && x.games[h].ttl > 0 && enter.ActivateStep?
    ensures Enters(x, Called(x, w, g, leave, replies), h, enter, replies', w.views[g].record)
  {
    var gone := Called(x, w, g, leave, replies);
    LeavingIsAway(x, w, g, leave, replies);
    CallInv(x, w, g, leave, replies);
    NextGameIsGranted(x, w, g, leave, replies, h, enter, replies');
    EnteringIsExact(x, gone, h, enter, replies', w.views[g].record);
    EntersAway(x, gone, h, enter, replies', w.views[g].record);
  }

  lemma EntersAway(x: Setting, w: World, h: L.GameName, enter: R.Step, replies: Replies, held: Option<Record>)
    requires Shaped(x, w) && h in x.games && enter.ActivateStep? && R.Inv(x.hosts[h], ViewIn(x, w, h))
    requires w.views[h].session.None? && Granted(x, w, h, enter, replies).e.lease.Success?
    requires IsLoaded(held) && ArrivesWith(x, w, h, enter, replies, held)
    ensures Enters(x, w, h, enter, replies, held)
  {
    SessionLife.ActivationWorksExactly(x.hosts[h], x.player, ViewIn(x, w, h), enter.gate, enter.allowCreate,
                                       Granted(x, w, h, enter, replies).e);
  }
}
