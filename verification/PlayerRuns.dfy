// What holds of one player in one game process after every run of calls, with the lease lost at any
// moment: the services that hold a piece of the player agree.
module PlayerRuns {
  import opened Common
  import opened Storage
  import opened PlayerView

  // Everything that can happen to a player between two calls, and every call that names it. The clock,
  // the weather of the servers and the answer of the lease server are free at every step.
  datatype Step =
    | ActivateStep(gate: Gate, allowCreate: bool, e: Env)
    | DetachStep(gateToCheck: Option<Gate>, now: nat)
    | ReleaseStep(now: nat, w: Weather)
    | ExpireStep(now: nat, w: Weather)
    | ReconcileStep(now: nat)
    | LoseLeaseStep
    | FlushStep(now: nat, w: Weather)
    | TouchLoginStep(now: nat)
    | SetDisplayNameStep(name: string, now: nat)
    | ForwardStep(message: Message, now: nat)
    | BindLocalStep                      // the ipc_bind_player_local command
    | BindRemoteStep(owner: ProcessRef)  // the ipc_bind_player_remote command
    | ReadStoreStep(w: Weather)          // a dataset get from elsewhere in the process

  function Next(h: Host, p: PlayerId, v: View, step: Step): View {
    match step
    case ActivateStep(gate, allowCreate, e) => Activate(h, v, p, gate, allowCreate, e).0
    case DetachStep(gate, now) => DetachPlayer(h, v, gate, now).0
    case ReleaseStep(now, w) => ReleasePlayer(h, v, now, w).0
    case ExpireStep(now, w) => Expire(h, v, now, w)
    case ReconcileStep(now) => Reconcile(h, v, now)
    case LoseLeaseStep => v.(leased := false)
    case FlushStep(now, w) => var (r, c, _) := Flush(v.record, v.cell, now, w); v.(record := r, cell := c)
    case TouchLoginStep(now) => v.(record := TouchLogin(v.record, now).0)
    case SetDisplayNameStep(name, now) => v.(record := SetDisplayName(v.record, name, now).0)
    case ForwardStep(m, now) => Forward(v, m, now).0
    case BindLocalStep => BindLocal(h, v).0
    case BindRemoteStep(owner) => v.(bound := DirectoryBind(v.bound, owner).0)
    case ReadStoreStep(w) => v.(cell := GetCell(v.cell, w).0)
  }

  function Run(h: Host, p: PlayerId, v: View, steps: seq<Step>): View {
    if steps == [] then v else Next(h, p, Run(h, p, v, steps[..|steps| - 1]), steps[|steps| - 1])
  }

  lemma RunSnoc(h: Host, p: PlayerId, v: View, steps: seq<Step>, step: Step)
    ensures Run(h, p, v, steps + [step]) == Next(h, p, Run(h, p, v, steps), step)
  {
    assert (steps + [step])[..|steps|] == steps;
  }

  // A player nobody has touched yet, whatever the servers hold about it.
  predicate Untouched(v: View) {
    v == ABSENT.(cell := v.cell)
  }

  // ----- agreement of the services -----

  predicate HasState(v: View, states: set<SessionState>) {
    v.session.Some? && v.session.value.state in states
  }

  // Session, repository and runtime know the same players; a session never rests in loading.
  predicate Present(v: View) {
    && (v.session.Some? <==> IsLoaded(v.record))
    && (v.session.Some? <==> v.running.Some?)
    && !HasState(v, {Loading})
  }

  // The receiver host and the directory agree about a hosted player.
  predicate BindingOk(h: Host, v: View) {
    && (v.bound.Some? ==> v.bound.value.version >= 1)
    && (v.hosted ==> h.self.Some? && v.bound.Some? && v.bound.value.owner == h.self.value)
  }

  // A tracked lease belongs to a session that is online or detached and bound here.
  predicate LeaseOk(v: View) {
    v.leased ==> HasState(v, {Online, Detached}) && v.hosted
  }

  predicate Inv(h: Host, v: View) {
    Present(v) && BindingOk(h, v) && LeaseOk(v)
  }

  lemma SettleInv(h: Host, v: View, isNew: bool)
    requires BindingOk(h, v)
    ensures var (v', result) := Settle(h, v, isNew);
            && BindingOk(h, v') && v'.session == v.session && v'.cell == v.cell
            && (result.Success? ==> v'.record == v.record && IsLoaded(v.record) && v'.running.Some?
                                    && v'.hosted && v'.leased == v.leased)
            && (result.Failure? ==> !v'.leased && v'.running == v.running)
            && (result.Failure? ==> v'.record == if isNew then None else v.record)
  {
    var (v1, bindResult) := BindLocal(h, v);
    BindInv(h, v);
    if !(bindResult.Failure? && bindResult != ALREADY_BOUND) {
      BindInv(h, EnsureRunning(v1).0);
    }
  }

  // Binding and unbinding keep host and directory in step and touch nothing else; a bind leaves the
  // player hosted unless it is refused, and then nothing has changed.
  lemma BindInv(h: Host, v: View)
    requires BindingOk(h, v)
    ensures var (v', result) := BindLocal(h, v);
            && BindingOk(h, v') && v' == v.(hosted := v'.hosted, bound := v'.bound)
            && (result.Success? || result == ALREADY_BOUND <==> v'.hosted)
            && (result.Failure? ==> v' == v)
    ensures var (v', result) := UnbindLocal(h, v);
            && BindingOk(h, v') && v' == v.(hosted := v'.hosted, bound := v'.bound)
            && (result.Success? <==> v.hosted) && !v'.hosted
  {
  }

  lemma ActivateInv(h: Host, v: View, p: PlayerId, gate: Gate, allowCreate: bool, e: Env)
    requires Inv(h, v)
    ensures Inv(h, Activate(h, v, p, gate, allowCreate, e).0)
  {
    if v.session.None? {
      var (record, cell, _) := Load(p, v.record, v.cell, allowCreate, e.now, e.w, e.junk);
      SettleInv(h, v.(record := Some(record), cell := cell, leased := true), true);
    } else if LeaseLost(v) {
      SettleInv(h, v.(leased := true), false);
    }
  }

  lemma ReleaseInv(h: Host, v: View, now: nat, w: Weather)
    requires Inv(h, v)
    ensures Inv(h, ReleasePlayer(h, v, now, w).0)
  {
  }

  lemma ForwardInv(h: Host, v: View, m: Message, now: nat)
    requires Inv(h, v)
    ensures Inv(h, Forward(v, m, now).0)
  {
  }

  lemma NextInv(h: Host, p: PlayerId, v: View, step: Step)
    requires Inv(h, v)
    ensures Inv(h, Next(h, p, v, step))
  {
    match step
    case ActivateStep(gate, allowCreate, e) => ActivateInv(h, v, p, gate, allowCreate, e);
    case ReleaseStep(now, w) => ReleaseInv(h, v, now, w);
    case ExpireStep(now, w) => ReleaseInv(h, v, now, w);
    case ForwardStep(m, now) => ForwardInv(h, v, m, now);
    case _ =>
  }

  lemma {:induction false} RunInv(h: Host, p: PlayerId, v: View, steps: seq<Step>)
    requires Untouched(v)
    ensures Inv(h, Run(h, p, v, steps))
  {
    if steps != [] {
      RunInv(h, p, v, steps[..|steps| - 1]);
      NextInv(h, p, Run(h, p, v, steps[..|steps| - 1]), steps[|steps| - 1]);
    }
  }

  // In every reachable state a session that is online or detached has a loaded record and a runtime
  // instance, and while its lease is held the player is bound here; and every tracked lease belongs to
  // such a session.
  lemma SessionsAreComplete(h: Host, p: PlayerId, v: View, steps: seq<Step>)
    requires Untouched(v)
    ensures var s := Run(h, p, v, steps);
            && (HasState(s, {Online, Detached}) ==> IsLoaded(s.record) && s.running.Some?)
            && (HasState(s, {Online, Detached}) && s.leased ==>
                  s.hosted && s.bound.Some? && h.self == Some(s.bound.value.owner))
            && (s.leased ==> HasState(s, {Online, Detached}))
  {
    RunInv(h, p, v, steps);
  }

  // A forwarded message that passes the guards is handled; the only error left is an empty name.
  lemma GuardedMessagesAreHandled(h: Host, p: PlayerId, v: View, steps: seq<Step>, m: Message, now: nat)
    requires Untouched(v)
    ensures var s := Run(h, p, v, steps);
            HasState(s, {Online}) && s.leased ==>
              Forward(s, m, now).1 == if m == Rename("") then InvalidArgument(EMPTY_NAME) else Handled
  {
    RunInv(h, p, v, steps);
  }

  // ----- release -----

  predicate FlushSucceeds(v: View, w: Weather) {
    v.record.Some? && v.record.value.dirty ==> MariaStatus(w).Ok?
  }

  // The player is gone from every service, and what was dirty is in the table.
  predicate Gone(v: View, v': View) {
    && v'.session.None? && v'.record.None? && v'.running.None?
    && !v'.hosted && v'.bound.None? && !v'.leased
    && (v.record.Some? && v.record.value.dirty ==> v'.cell.table == Some(Encoded(v.record.value.data)))
    && (v.record.Some? && !v.record.value.dirty ==> v'.cell == v.cell)
  }

  // While the lease is held a release is all or nothing: it succeeds and the player is gone, exactly if
  // there is nothing to flush or the flush works; otherwise nothing at all has changed.
  lemma ReleaseIsAllOrNothing(h: Host, p: PlayerId, v: View, steps: seq<Step>, now: nat, w: Weather)
    requires Untouched(v)
    ensures var s := Run(h, p, v, steps);
            var (s', result) := ReleasePlayer(h, s, now, w);
            s.leased ==>
              && (result.Success? <==> FlushSucceeds(s, w))
              && (result.Success? ==> Gone(s, s'))
              && (result.Failure? ==> s' == s && result == FLUSH_FAILED)
  {
    RunInv(h, p, v, steps);
  }

  // In general, held or not: for a tracked player whose flush works the release completes exactly when
  // the player is still bound here. Otherwise the session is left in unloading, with the record and the
  // runtime instance still there.
  lemma ReleaseCompletesExactlyWhenBound(h: Host, p: PlayerId, v: View, steps: seq<Step>, now: nat, w: Weather)
    requires Untouched(v) && Run(h, p, v, steps).session.Some? && FlushSucceeds(Run(h, p, v, steps), w)
    ensures var s := Run(h, p, v, steps);
            var (s', result) := ReleasePlayer(h, s, now, w);
            && (result.Success? <==> s.hosted)
            && (s.hosted ==> Gone(s, s'))
            && (!s.hosted ==> HasState(s', {Unloading}) && IsLoaded(s'.record) && s'.running.Some? && !s'.leased)
  {
    RunInv(h, p, v, steps);
  }

  // The failing family is reached: a player whose lease was lost and reconciled, then released.
  lemma LostThenReleasedIsStuck(h: Host, p: PlayerId, v: View, steps: seq<Step>, t: nat, now: nat, w: Weather)
    requires Untouched(v) && FlushSucceeds(Run(h, p, v, steps), w)
    requires HasState(Run(h, p, v, steps), {Online, Detached})
    ensures var s := Run(h, p, v, steps + [LoseLeaseStep] + [ReconcileStep(t)] + [ReleaseStep(now, w)]);
            HasState(s, {Unloading}) && !s.hosted && !s.leased
  {
    RunInv(h, p, v, steps);
    RunSnoc(h, p, v, steps, LoseLeaseStep);
    RunSnoc(h, p, v, steps + [LoseLeaseStep], ReconcileStep(t));
    RunSnoc(h, p, v, steps + [LoseLeaseStep] + [ReconcileStep(t)], ReleaseStep(now, w));
  }

  // And it stays there: no call gets the player out of unloading until an operator binds it by hand.
  predicate Stuck(h: Host, v: View) {
    HasState(v, {Unloading}) && !v.hosted && !v.leased && Inv(h, v)
  }

  lemma StuckStep(h: Host, p: PlayerId, v: View, step: Step)
    requires Stuck(h, v) && step != BindLocalStep
    ensures Stuck(h, Next(h, p, v, step))
  {
    NextInv(h, p, v, step);
  }

  lemma {:induction false} StuckUntilBoundByHand(h: Host, p: PlayerId, v: View, steps: seq<Step>)
    requires Stuck(h, v) && BindLocalStep !in steps
    ensures Stuck(h, Run(h, p, v, steps))
    ensures forall gate, allowCreate, e ::
              Activate(h, Run(h, p, v, steps), p, gate, allowCreate, e) == (Run(h, p, v, steps), TRANSITIONING)
  {
    if steps != [] {
      var before := steps[..|steps| - 1];
      StuckUntilBoundByHand(h, p, v, before);
      StuckStep(h, p, Run(h, p, v, before), steps[|steps| - 1]);
    }
    StuckIsRefused(h, p, Run(h, p, v, steps));
  }

  lemma StuckIsRefused(h: Host, p: PlayerId, v: View)
    requires Stuck(h, v)
    ensures forall gate, allowCreate, e :: Activate(h, v, p, gate, allowCreate, e) == (v, TRANSITIONING)
  {
  }

  // ----- what is in memory and what is stored -----

  // No step reports that Maria succeeded and Redis failed.
  predicate NotPartial(v: View, step: Step) {
    match step
    case ReleaseStep(_, w) => !PutReportsPartial(v, w)
    case ExpireStep(_, w) => !PutReportsPartial(v, w)
    case FlushStep(_, w) => !PutReportsPartial(v, w)
    case _ => true
  }

  predicate PutReportsPartial(v: View, w: Weather) {
    v.record.Some? && PutCell(v.cell, Encoded(v.record.value.data), w).1.OkRedisFailed?
  }

  predicate NonePartial(h: Host, p: PlayerId, v: View, steps: seq<Step>) {
    steps == [] ||
    (NonePartial(h, p, v, steps[..|steps| - 1]) &&
     NotPartial(Run(h, p, v, steps[..|steps| - 1]), steps[|steps| - 1]))
  }

  // The cache agrees with the table, and a loaded record that is not dirty is what is stored.
  predicate StoredOk(v: View) {
    && Coherent(v.cell)
    && (IsLoaded(v.record) && !v.record.value.dirty ==> v.cell.table == Some(Encoded(v.record.value.data)))
    && (v.record.Some? && !v.record.value.loaded ==> !v.record.value.dirty)
  }

  // A load into a record that is not loaded: what is clean afterwards is what is stored.
  lemma LoadStoredOk(p: PlayerId, record: Option<Record>, cell: Cell<Blob>, allowCreate: bool, now: nat, w: Weather,
                     junk: PlayerData)
    requires Coherent(cell) && (record.Some? ==> !record.value.loaded && !record.value.dirty)
    ensures var (r, cell', result) := Load(p, record, cell, allowCreate, now, w, junk);
            && Coherent(cell') && (result.Success? <==> r.loaded)
            && (result.Success? && !r.dirty ==> cell'.table == Some(Encoded(r.data)))
            && (result.Failure? ==> !r.dirty)
  {
  }

  lemma ActivateStoredOk(h: Host, v: View, p: PlayerId, gate: Gate, allowCreate: bool, e: Env)
    requires Inv(h, v) && StoredOk(v)
    ensures StoredOk(Activate(h, v, p, gate, allowCreate, e).0)
  {
    if v.session.None? {
      LoadStoredOk(p, v.record, v.cell, allowCreate, e.now, e.w, e.junk);
      var (record, cell, _) := Load(p, v.record, v.cell, allowCreate, e.now, e.w, e.junk);
      SettleInv(h, v.(record := Some(record), cell := cell, leased := true), true);
    } else if LeaseLost(v) {
      SettleInv(h, v.(leased := true), false);
    }
  }

  lemma NextStoredOk(h: Host, p: PlayerId, v: View, step: Step)
    requires Inv(h, v) && StoredOk(v) && NotPartial(v, step)
    ensures StoredOk(Next(h, p, v, step))
  {
    if step.ActivateStep? {
      ActivateStoredOk(h, v, p, step.gate, step.allowCreate, step.e);
    }
  }

  // With a single writing process and no partial put, every loaded record that is not dirty equals the
  // stored value, after every run.
  lemma {:induction false} CleanRecordsAreStored(h: Host, p: PlayerId, v: View, steps: seq<Step>)
    requires Untouched(v) && Coherent(v.cell) && NonePartial(h, p, v, steps)
    ensures StoredOk(Run(h, p, v, steps))
  {
    if steps != [] {
      var before := steps[..|steps| - 1];
      CleanRecordsAreStored(h, p, v, before);
      RunInv(h, p, v, before);
      NextStoredOk(h, p, Run(h, p, v, before), steps[|steps| - 1]);
    }
  }

  // No activation of the run succeeds.
  predicate AllRefused(h: Host, p: PlayerId, v: View, steps: seq<Step>) {
    steps == [] ||
    (AllRefused(h, p, v, steps[..|steps| - 1]) &&
     Refused(h, p, Run(h, p, v, steps[..|steps| - 1]), steps[|steps| - 1]))
  }

  predicate Refused(h: Host, p: PlayerId, v: View, step: Step) {
    step.ActivateStep? ==> Activate(h, v, p, step.gate, step.allowCreate, step.e).1.Failure?
  }

  // A player without a session; a failed load may have left a record that is not loaded.
  predicate IsAway(h: Host, v: View) {
    && v.session.None? && v.running.None? && !v.leased && Coherent(v.cell) && BindingOk(h, v)
    && (v.record.Some? ==> !v.record.value.loaded && !v.record.value.dirty)
  }

  lemma AwayStep(h: Host, p: PlayerId, v: View, step: Step)
    requires IsAway(h, v) && Refused(h, p, v, step)
    ensures IsAway(h, Next(h, p, v, step)) && Next(h, p, v, step).cell.table == v.cell.table
  {
    if step.ActivateStep? {
      var e := step.e;
      var (record, cell, _) := Load(p, v.record, v.cell, step.allowCreate, e.now, e.w, e.junk);
      SettleInv(h, v.(record := Some(record), cell := cell, leased := true), true);
    }
  }

  // While the player is away nothing in this process changes what is stored, however many activations
  // are tried and fail.
  lemma {:induction false} AwayKeepsStored(h: Host, p: PlayerId, v: View, steps: seq<Step>)
    requires IsAway(h, v) && AllRefused(h, p, v, steps)
    ensures IsAway(h, Run(h, p, v, steps)) && Run(h, p, v, steps).cell.table == v.cell.table
  {
    if steps != [] {
      var before := steps[..|steps| - 1];
      AwayKeepsStored(h, p, v, before);
      AwayStep(h, p, Run(h, p, v, before), steps[|steps| - 1]);
    }
  }

  // The one case in which an activation starts over although something is stored: it may create default
  // data, the cache has nothing and Maria is away.
  predicate StartsOver(v: View, allowCreate: bool, e: Env) {
    allowCreate && v.cell.cached.None? && !e.w.mariaUp
  }

  // What a successful activation of an away player with stored data has in memory.
  lemma ActivationReadsStored(h: Host, p: PlayerId, v: View, data: PlayerData, gate: Gate, allowCreate: bool, e: Env)
    requires IsAway(h, v) && v.cell.table == Some(Encoded(data))
    requires Activate(h, v, p, gate, allowCreate, e).1.Success?
    ensures var back := Activate(h, v, p, gate, allowCreate, e).0;
            && IsLoaded(back.record)
            && (back.record.value.data == data && !back.record.value.dirty <==> !StartsOver(v, allowCreate, e))
            && (StartsOver(v, allowCreate, e) ==> back.record.value == DefaultRecord(p, e.now, true))
  {
    var (record, cell, _) := Load(p, v.record, v.cell, allowCreate, e.now, e.w, e.junk);
    SettleInv(h, v.(record := Some(record), cell := cell, leased := true), true);
  }

  // A release that succeeds leaves an away player with the held data stored.
  lemma ReleaseLeavesAway(h: Host, p: PlayerId, v: View, now: nat, w: Weather)
    requires Inv(h, v) && StoredOk(v) && NotPartial(v, ReleaseStep(now, w)) && ReleasePlayer(h, v, now, w).1.Success?
    ensures var gone := ReleasePlayer(h, v, now, w).0;
            IsLoaded(v.record) && IsAway(h, gone) && gone.cell.table == Some(Encoded(v.record.value.data))
  {
    NextStoredOk(h, p, v, ReleaseStep(now, w));
    ReleaseInv(h, v, now, w);
  }

  lemma ReleasedIsAway(h: Host, p: PlayerId, v: View, steps: seq<Step>, now: nat, w: Weather)
    requires Untouched(v) && Coherent(v.cell) && NonePartial(h, p, v, steps + [ReleaseStep(now, w)])
    requires ReleasePlayer(h, Run(h, p, v, steps), now, w).1.Success?
    ensures var held, gone := Run(h, p, v, steps), Run(h, p, v, steps + [ReleaseStep(now, w)]);
            && IsLoaded(held.record) && IsAway(h, gone)
            && gone.cell.table == Some(Encoded(held.record.value.data))
  {
    assert (steps + [ReleaseStep(now, w)])[..|steps|] == steps;
    RunInv(h, p, v, steps);
    CleanRecordsAreStored(h, p, v, steps);
    RunSnoc(h, p, v, steps, ReleaseStep(now, w));
    ReleaseLeavesAway(h, p, Run(h, p, v, steps), now, w);
  }

  // A successful release, then anything, failed activations included, and then the first activation
  // that succeeds: it restores exactly the data held at the release, if and only if it does not start
  // over.
  lemma ReleaseThenActivateRestores(h: Host, p: PlayerId, v: View, steps: seq<Step>, now: nat, w: Weather,
                                    away: seq<Step>, gate: Gate, allowCreate: bool, e: Env)
    requires Untouched(v) && Coherent(v.cell) && NonePartial(h, p, v, steps + [ReleaseStep(now, w)])
    ensures var held, gone := Run(h, p, v, steps), Run(h, p, v, steps + [ReleaseStep(now, w)]);
            var there := Run(h, p, gone, away);
            var (back, result) := Activate(h, there, p, gate, allowCreate, e);
            ReleasePlayer(h, held, now, w).1.Success? && AllRefused(h, p, gone, away) && result.Success? ==>
              && IsLoaded(held.record) && IsLoaded(back.record)
              && (back.record.value.data == held.record.value.data && !back.record.value.dirty <==>
                  !StartsOver(there, allowCreate, e))
  {
    var held, gone := Run(h, p, v, steps), Run(h, p, v, steps + [ReleaseStep(now, w)]);
    var there := Run(h, p, gone, away);
    if ReleasePlayer(h, held, now, w).1.Success? && AllRefused(h, p, gone, away) {
      ReleasedIsAway(h, p, v, steps, now, w);
      AwayKeepsStored(h, p, gone, away);
      if Activate(h, there, p, gate, allowCreate, e).1.Success? {
        ActivationReadsStored(h, p, there, held.record.value.data, gate, allowCreate, e);
      }
    }
  }

  // The case is reached: a player whose load was never cached, released clean, and activated with
  // permission to create while Maria is away, comes back with default data.
  lemma ReleasedThenStartsOver(h: Host, p: PlayerId, data: PlayerData, gate: Gate) returns (load: Env, back: Env)
    requires h.self.Some?
    ensures var v := ABSENT.(cell := Cell(Some(Encoded(data)), None));
            var (here, loaded) := Activate(h, v, p, gate, false, load);
            var (gone, released) := ReleasePlayer(h, here, 0, load.w);
            var (again, result) := Activate(h, gone, p, gate, true, back);
            && loaded.Success? && released.Success? && result.Success?
            && here.record.value.data == data && gone.cell.table == Some(Encoded(data))
            && StartsOver(gone, true, back) && again.record.value.data == DefaultData(p, back.now)
  {
    var w := Weather(true, true, true, true, true, Answered, Lost(false));
    load := Env(0, Success, w, EMPTY_DATA);
    back := Env(0, Success, w.(mariaUp := false), EMPTY_DATA);
  }

  // ----- another writer -----

  // Taking a lost lease again keeps the record in memory, whatever is stored by now: the store is not
  // read, and the player is online and bound with the record it had.
  lemma RecoveryKeepsMemory(h: Host, p: PlayerId, v: View, gate: Gate, allowCreate: bool, e: Env)
    requires Inv(h, v) && LeaseLost(v) && Activate(h, v, p, gate, allowCreate, e).1.Success?
    ensures var v' := Activate(h, v, p, gate, allowCreate, e).0;
            && v'.record == v.record && v'.cell == v.cell && v'.leased && v'.hosted && v'.running.Some?
            && v'.session == Some(Session(Online, gate, v.session.value.activateCount + 1, e.now, 0))
  {
  }

  // The steps that change the table: a flush of a loaded record, and a release or a due expiry of a
  // session whose loaded record is dirty. The lease is not asked about.
  predicate Stores(v: View, step: Step) {
    && IsLoaded(v.record)
    && match step
       case FlushStep(_, w) => MariaStatus(w).Ok?
       case ReleaseStep(_, w) => v.session.Some? && v.record.value.dirty && MariaStatus(w).Ok?
       case ExpireStep(now, w) => Expired(v, now) && v.record.value.dirty && MariaStatus(w).Ok?
       case _ => false
  }

  lemma StepStores(h: Host, p: PlayerId, v: View, step: Step)
    ensures Next(h, p, v, step).cell.table ==
            if Stores(v, step) then Some(Encoded(v.record.value.data)) else v.cell.table
  {
    match step
    case ActivateStep(gate, allowCreate, e) => ActivationStoresNothing(h, p, v, gate, allowCreate, e);
    case ReleaseStep(now, w) => ReleaseStores(h, v, now, w);
    case ExpireStep(now, w) => ReleaseStores(h, v, now, w);
    case ForwardStep(m, now) => ForwardStoresNothing(v, m, now);
    case _ =>
  }

  lemma ReleaseStores(h: Host, v: View, now: nat, w: Weather)
    ensures ReleasePlayer(h, v, now, w).0.cell.table ==
            if v.session.Some? && IsLoaded(v.record) && v.record.value.dirty && MariaStatus(w).Ok?
            then Some(Encoded(v.record.value.data)) else v.cell.table
  {
  }

  lemma ForwardStoresNothing(v: View, m: Message, now: nat)
    ensures Forward(v, m, now).0.cell == v.cell
  {
  }

  lemma ActivationStoresNothing(h: Host, p: PlayerId, v: View, gate: Gate, allowCreate: bool, e: Env)
    ensures Activate(h, v, p, gate, allowCreate, e).0.cell.table == v.cell.table
  {
    if v.session.None? {
      var (record, cell, _) := Load(p, v.record, v.cell, allowCreate, e.now, e.w, e.junk);
      SettleKeepsCell(h, v.(record := Some(record), cell := cell, leased := true), true);
    } else if LeaseLost(v) {
      var (record, cell, _) :=
        if v.record.Some? then (v.record.value, v.cell, Success)
        else Load(p, v.record, v.cell, allowCreate, e.now, e.w, e.junk);
      SettleKeepsCell(h, v.(record := Some(record), cell := cell, leased := true), false);
    }
  }

  lemma SettleKeepsCell(h: Host, v: View, isNew: bool)
    ensures Settle(h, v, isNew).0.cell == v.cell
  {
  }

  // The data that a run has stored last, if any.
  function LastStored(h: Host, p: PlayerId, v: View, steps: seq<Step>): Option<PlayerData> {
    if steps == [] then None
    else
      var before, last := Run(h, p, v, steps[..|steps| - 1]), steps[|steps| - 1];
      if Stores(before, last) then Some(before.record.value.data) else LastStored(h, p, v, steps[..|steps| - 1])
  }

  // After every run the table holds what the run stored last, or what it held before.
  lemma {:induction false} TableIsLastStored(h: Host, p: PlayerId, v: View, steps: seq<Step>)
    ensures Run(h, p, v, steps).cell.table ==
            var last := LastStored(h, p, v, steps);
            if last.Some? then Some(Encoded(last.value)) else v.cell.table
  {
    if steps != [] {
      TableIsLastStored(h, p, v, steps[..|steps| - 1]);
      StepStores(h, p, Run(h, p, v, steps[..|steps| - 1]), steps[|steps| - 1]);
    }
  }

  // Every step of the run that stores anything stores these data.
  predicate StoresOnly(h: Host, p: PlayerId, v: View, steps: seq<Step>, data: PlayerData) {
    steps == [] ||
    (var before, last := Run(h, p, v, steps[..|steps| - 1]), steps[|steps| - 1];
     StoresOnly(h, p, v, steps[..|steps| - 1], data) && (Stores(before, last) ==> before.record.value.data == data))
  }

  ghost predicate Survive(h: Host, p: PlayerId, v: View, steps: seq<Step>, data: PlayerData) {
    forall n :: 0 <= n <= |steps| ==> Run(h, p, v, steps[..n]).cell.table == Some(Encoded(data))
  }

  // What another game has stored, before the run of this game, survives the run at every moment if and
  // only if no step of the run stores other data.
  lemma {:induction false} ForeignDataSurvive(h: Host, p: PlayerId, v: View, steps: seq<Step>, data: PlayerData)
    requires v.cell.table == Some(Encoded(data))
    ensures Survive(h, p, v, steps, data) <==> StoresOnly(h, p, v, steps, data)
  {
    if steps == [] {
      assert forall n :: 0 <= n <= |steps| ==> steps[..n] == [];
    } else {
      var last := |steps| - 1;
      ForeignDataSurvive(h, p, v, steps[..last], data);
      assert forall n :: 0 <= n <= last ==> steps[..last][..n] == steps[..n];
      assert steps[..|steps|] == steps;
      StepStores(h, p, Run(h, p, v, steps[..last]), steps[last]);
      assert Survive(h, p, v, steps, data) <==>
             Survive(h, p, v, steps[..last], data) && Run(h, p, v, steps).cell.table == Some(Encoded(data));
    }
  }

  // A dirty session that has lost its lease and whose time has run out writes its data over whatever has
  // been stored since.
  lemma ExpiryOverwritesForeignData(h: Host, p: PlayerId, v: View, other: PlayerData, t: nat, now: nat, w: Weather)
    requires Inv(h, v) && HasState(v, {Online, Detached}) && v.record.value.dirty && MariaStatus(w).Ok?
    ensures var lost := Run(h, p, v, [LoseLeaseStep] + [ReconcileStep(t)]);
            var foreign := lost.(cell := Cell(Some(Encoded(other)), Some(Encoded(other))));
            && !lost.leased && HasState(lost, {Detached})
            && (Expired(lost, now) ==>
                  Next(h, p, foreign, ExpireStep(now, w)).cell.table == Some(Encoded(v.record.value.data)))
  {
    LoseAndReconcile(h, p, v, t);
    ReconciledKeepsRecord(h, v, t);
    var lost := Reconcile(h, v.(leased := false), t);
    StepStores(h, p, lost.(cell := Cell(Some(Encoded(other)), Some(Encoded(other)))), ExpireStep(now, w));
  }

  lemma LoseAndReconcile(h: Host, p: PlayerId, v: View, t: nat)
    ensures Run(h, p, v, [LoseLeaseStep] + [ReconcileStep(t)]) == Reconcile(h, v.(leased := false), t)
  {
    RunSnoc(h, p, v, [LoseLeaseStep], ReconcileStep(t));
    RunSnoc(h, p, v, [], LoseLeaseStep);
    assert [] + [LoseLeaseStep] == [LoseLeaseStep];
  }

  lemma ReconciledKeepsRecord(h: Host, v: View, t: nat)
    requires Inv(h, v) && HasState(v, {Online, Detached})
    ensures var lost := Reconcile(h, v.(leased := false), t);
            lost.record == v.record && !lost.leased && HasState(lost, {Detached}) && IsLoaded(lost.record)
  {
  }

  // So a recovered lease can undo another game's work: whatever the other game stored meanwhile, the
  // next rename and flush here write this game's older data over it.
  lemma RecoveryOverwritesForeignData(h: Host, p: PlayerId, v: View, other: PlayerData, gate: Gate, e: Env,
                                      name: string, now: nat, w: Weather)
    requires Inv(h, v) && LeaseLost(v) && MariaStatus(w).Ok?
    requires var foreign := v.(cell := Cell(Some(Encoded(other)), Some(Encoded(other))));
             Activate(h, foreign, p, gate, false, e).1.Success?
    ensures var foreign := v.(cell := Cell(Some(Encoded(other)), Some(Encoded(other))));
            var steps := [ActivateStep(gate, false, e)] + [SetDisplayNameStep(name, now)] + [FlushStep(now, w)];
            Run(h, p, foreign, steps).cell.table == Some(Encoded(v.record.value.data.(displayName := name)))
  {
    var foreign := v.(cell := Cell(Some(Encoded(other)), Some(Encoded(other))));
    RunSnoc(h, p, foreign, [], ActivateStep(gate, false, e));
    assert [] + [ActivateStep(gate, false, e)] == [ActivateStep(gate, false, e)];
    RunSnoc(h, p, foreign, [ActivateStep(gate, false, e)], SetDisplayNameStep(name, now));
    RunSnoc(h, p, foreign, [ActivateStep(gate, false, e)] + [SetDisplayNameStep(name, now)], FlushStep(now, w));
  }
}
